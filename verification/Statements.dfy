/** What one INSERT statement does to a table with a unique key, and what a batch split into
    chunks does.  A table is a map from the constrained columns to the row. */
module Statements {
  import opened Wrappers

  const CHUNK_SIZE: nat := 500
  const MAX_PARAMETERS: nat := 65_535

  datatype Row<K, V> = Row(key: K, value: V)

  predicate Distinct<T(==)>(s: seq<T>) {
    forall i, j :: 0 <= i < j < |s| ==> s[i] != s[j]
  }

  function KeysOf<K(==), V>(rows: seq<Row<K, V>>): (keys: seq<K>)
    ensures |keys| == |rows|
    ensures forall i :: 0 <= i < |rows| ==> keys[i] == rows[i].key
  {
    seq(|rows|, i requires 0 <= i < |rows| => rows[i].key)
  }

  function KeySet<K(==), V>(rows: seq<Row<K, V>>): set<K> {
    set i | 0 <= i < |rows| :: rows[i].key
  }

  lemma {:induction false} KeySetTail<K, V>(rows: seq<Row<K, V>>)
    requires rows != []
    ensures KeySet(rows) == {rows[0].key} + KeySet(rows[1..])
  {
    forall k | k in KeySet(rows) ensures k == rows[0].key || k in KeySet(rows[1..]) {
      var i :| 0 <= i < |rows| && rows[i].key == k;
      if i > 0 {
        assert rows[1..][i - 1] == rows[i];
      }
    }
    forall k | k in KeySet(rows[1..]) ensures k in KeySet(rows) {
      var i :| 0 <= i < |rows[1..]| && rows[1..][i].key == k;
      assert rows[i + 1].key == k;
    }
  }

  /** The rows of one statement by key: what `excluded` holds. */
  function Proposed<K(==), V>(rows: seq<Row<K, V>>): (m: map<K, V>)
    ensures m.Keys == KeySet(rows)
  {
    if rows == [] then map[]
    else
      KeySetTail(rows);
      map[rows[0].key := rows[0].value] + Proposed(rows[1..])
  }

  /** INSERT ... ON CONFLICT DO UPDATE with every non-key column in the update list.
      `width` is the number of bound columns of a row. */
  function InsertOrUpdate<K(==), V>(t: map<K, V>, rows: seq<Row<K, V>>, width: nat): Result<map<K, V>> {
    if |rows| * width > MAX_PARAMETERS then Err(TooManyParameters)
    else if !Distinct(KeysOf(rows)) then Err(CardinalityViolation)
    else Ok(t + Proposed(rows))
  }

  /** INSERT ... ON CONFLICT DO NOTHING: the first row with a key stays. */
  function InsertOrIgnore<K(==), V>(t: map<K, V>, rows: seq<Row<K, V>>): map<K, V>
    decreases |rows|
  {
    if rows == [] then t
    else InsertOrIgnore(if rows[0].key in t then t else t[rows[0].key := rows[0].value], rows[1..])
  }

  lemma {:induction false} InsertOrIgnoreHolds<K, V>(t: map<K, V>, rows: seq<Row<K, V>>)
    ensures InsertOrIgnore(t, rows).Keys == t.Keys + KeySet(rows)
    ensures forall k :: k in t ==> InsertOrIgnore(t, rows)[k] == t[k]
    ensures forall k :: k in InsertOrIgnore(t, rows) && k !in t ==>
              exists i :: 0 <= i < |rows| && rows[i] == Row(k, InsertOrIgnore(t, rows)[k])
    decreases |rows|
  {
    if rows != [] {
      var r := rows[0];
      var t1 := if r.key in t then t else t[r.key := r.value];
      KeySetTail(rows);
      InsertOrIgnoreHolds(t1, rows[1..]);
      assert forall i :: 0 <= i < |rows| - 1 ==> rows[1..][i] == rows[i + 1];
      assert rows[0] == Row(r.key, r.value);
    }
  }

  lemma {:induction false} InsertOrIgnoreConcat<K, V>(t: map<K, V>, a: seq<Row<K, V>>, b: seq<Row<K, V>>)
    ensures InsertOrIgnore(t, a + b) == InsertOrIgnore(InsertOrIgnore(t, a), b)
    decreases |a|
  {
    if a == [] {
      assert a + b == b;
    } else {
      assert (a + b)[1..] == a[1..] + b;
      InsertOrIgnoreConcat(if a[0].key in t then t else t[a[0].key := a[0].value], a[1..], b);
    }
  }

  function Min(a: nat, b: nat): nat {
    if a < b then a else b
  }

  /** A batch upsert: one statement for each CHUNK_SIZE rows, stopping at the first error. */
  function UpsertChunked<K(==), V>(t: map<K, V>, rows: seq<Row<K, V>>, width: nat): Result<map<K, V>>
    decreases |rows|
  {
    if rows == [] then Ok(t)
    else
      var n := Min(CHUNK_SIZE, |rows|);
      var t' :- InsertOrUpdate(t, rows[..n], width);
      UpsertChunked(t', rows[n..], width)
  }

  /** The simple upsert: one row at a time. */
  function UpsertEach<K(==), V>(t: map<K, V>, rows: seq<Row<K, V>>): map<K, V>
    decreases |rows|
  {
    if rows == [] then t else UpsertEach(t[rows[0].key := rows[0].value], rows[1..])
  }

  /** No statement of the batch proposes a key twice. */
  predicate ChunksDistinct<K(==), V>(rows: seq<Row<K, V>>) {
    rows == [] ||
    (var n := Min(CHUNK_SIZE, |rows|);
     Distinct(KeysOf(rows[..n])) && ChunksDistinct(rows[n..]))
  }

  lemma {:induction false} UpsertEachConcat<K, V>(t: map<K, V>, a: seq<Row<K, V>>, b: seq<Row<K, V>>)
    ensures UpsertEach(t, a + b) == UpsertEach(UpsertEach(t, a), b)
    decreases |a|
  {
    if a == [] {
      assert a + b == b;
    } else {
      assert (a + b)[1..] == a[1..] + b;
      UpsertEachConcat(t[a[0].key := a[0].value], a[1..], b);
    }
  }

  lemma {:induction false} UpdateFirst<K, V>(t: map<K, V>, k: K, v: V, m: map<K, V>)
    ensures t + (map[k := v] + m) == t[k := v] + m
  {
  }

  /** A statement's rows at once are the same rows one by one. */
  lemma {:induction false} ProposedIsEach<K, V>(t: map<K, V>, rows: seq<Row<K, V>>)
    ensures t + Proposed(rows) == UpsertEach(t, rows)
    decreases |rows|
  {
    if rows == [] {
      assert t + Proposed(rows) == t;
    } else {
      UpdateFirst(t, rows[0].key, rows[0].value, Proposed(rows[1..]));
      ProposedIsEach(t[rows[0].key := rows[0].value], rows[1..]);
    }
  }

  lemma {:induction false} MapPlusAssociates<K, V>(a: map<K, V>, b: map<K, V>, c: map<K, V>)
    ensures a + b + c == a + (b + c)
  {
  }

  lemma {:induction false} WidthBound(n: nat, width: nat)
    requires n <= CHUNK_SIZE
    ensures n * width <= CHUNK_SIZE * width
  {
  }

  /** A chunked upsert fails exactly when some chunk repeats a key; when it succeeds it is the
      row-by-row upsert of the whole batch, whether or not a key repeats across chunks. */
  lemma {:induction false} ChunkedRefinesEach<K, V>(t: map<K, V>, rows: seq<Row<K, V>>, width: nat)
    requires CHUNK_SIZE * width <= MAX_PARAMETERS
    ensures UpsertChunked(t, rows, width) ==
            if ChunksDistinct(rows) then Ok(UpsertEach(t, rows)) else Err(CardinalityViolation)
    decreases |rows|
  {
    if rows != [] {
      var n := Min(CHUNK_SIZE, |rows|);
      WidthBound(n, width);
      assert |rows[..n]| == n;
      if Distinct(KeysOf(rows[..n])) {
        ProposedIsEach(t, rows[..n]);
        UpsertEachConcat(t, rows[..n], rows[n..]);
        assert rows == rows[..n] + rows[n..];
        ChunkedRefinesEach(t + Proposed(rows[..n]), rows[n..], width);
      }
    }
  }

  lemma {:induction false} DistinctChunks<K, V>(rows: seq<Row<K, V>>)
    requires Distinct(KeysOf(rows))
    ensures ChunksDistinct(rows)
  {
    if rows != [] {
      var n := Min(CHUNK_SIZE, |rows|);
      var keys := KeysOf(rows);
      forall i, j | 0 <= i < j < n ensures KeysOf(rows[..n])[i] != KeysOf(rows[..n])[j] {
        assert keys[i] != keys[j];
      }
      forall i, j | 0 <= i < j < |rows| - n ensures KeysOf(rows[n..])[i] != KeysOf(rows[n..])[j] {
        assert keys[n + i] != keys[n + j];
      }
      DistinctChunks(rows[n..]);
    }
  }

  // ----- rows with distinct keys -----

  lemma {:induction false} DistinctTail<K, V>(rows: seq<Row<K, V>>)
    requires rows != [] && Distinct(KeysOf(rows))
    ensures Distinct(KeysOf(rows[1..])) && rows[0].key !in KeySet(rows[1..])
  {
    var keys := KeysOf(rows);
    assert forall i :: 0 <= i < |rows| - 1 ==> rows[1..][i] == rows[i + 1] && keys[i + 1] == rows[i + 1].key;
    assert forall i :: 0 < i < |rows| ==> keys[0] != keys[i];
  }

  ghost predicate Graph<K(!new), V>(m: map<K, V>, rows: seq<Row<K, V>>) {
    && (forall r :: r in rows ==> r.key in m && m[r.key] == r.value)
    && (forall k :: k in m ==> Row(k, m[k]) in rows)
  }

  lemma {:induction false} GraphCons<K(!new), V>(r: Row<K, V>, rest: seq<Row<K, V>>, m: map<K, V>)
    requires Graph(m, rest) && r.key !in m
    ensures Graph(map[r.key := r.value] + m, [r] + rest)
  {
  }

  lemma {:induction false} ProposedIsGraph<K(!new), V>(rows: seq<Row<K, V>>)
    requires Distinct(KeysOf(rows))
    ensures Graph(Proposed(rows), rows)
  {
    if rows != [] {
      DistinctTail(rows);
      ProposedIsGraph(rows[1..]);
      hide Graph, Distinct, KeySet;
      GraphCons(rows[0], rows[1..], Proposed(rows[1..]));
      assert rows == [rows[0]] + rows[1..];
    }
  }

  lemma {:induction false} SameGraph<K(!new), V>(a: map<K, V>, xs: seq<Row<K, V>>, b: map<K, V>, ys: seq<Row<K, V>>)
    requires Graph(a, xs) && Graph(b, ys) && forall r :: r in xs <==> r in ys
    ensures a == b
  {
    forall k | k in a ensures k in b && a[k] == b[k] {
      assert Row(k, a[k]) in ys;
    }
    forall k | k in b ensures k in a {
      assert Row(k, b[k]) in xs;
    }
  }

  /** Rows with distinct keys may be upserted in any order. */
  lemma {:induction false} EachInAnyOrder<K(!new), V>(t: map<K, V>, xs: seq<Row<K, V>>, ys: seq<Row<K, V>>)
    requires Distinct(KeysOf(xs)) && Distinct(KeysOf(ys)) && forall r :: r in xs <==> r in ys
    ensures UpsertEach(t, xs) == UpsertEach(t, ys)
  {
    hide UpsertEach, Distinct, Proposed, Graph;
    ProposedIsEach(t, xs);
    ProposedIsEach(t, ys);
    ProposedIsGraph(xs);
    ProposedIsGraph(ys);
    SameGraph(Proposed(xs), xs, Proposed(ys), ys);
  }
}
