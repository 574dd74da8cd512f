/** The bulk upsert of the master tables: last-wins dedupe, chunks, ON CONFLICT DO UPDATE. */
module BulkUpsert {
  import opened Wrappers
  import opened Statements
  import opened Connection

  /** A table's shape: the constrained columns of a row, what a conflicting row becomes (the update
      columns taken from the proposed row, the others kept), and the number of bound columns. */
  datatype Model<!K, !R> = Model(keyOf: R -> K, merge: (R, R) -> R, width: nat)

  // ----- one row at a time -----

  function UpsertRow<K(==), R>(m: Model<K, R>, t: map<K, R>, r: R): map<K, R> {
    var k := m.keyOf(r);
    t[k := if k in t then m.merge(t[k], r) else r]
  }

  function UpsertRows<K(==), R>(m: Model<K, R>, t: map<K, R>, rows: seq<R>): map<K, R>
    decreases |rows|
  {
    if rows == [] then t else UpsertRows(m, UpsertRow(m, t, rows[0]), rows[1..])
  }

  function RowKeys<K, R>(m: Model<K, R>, rows: seq<R>): (keys: seq<K>)
    ensures |keys| == |rows| && forall i :: 0 <= i < |rows| ==> keys[i] == m.keyOf(rows[i])
  {
    seq(|rows|, i requires 0 <= i < |rows| => m.keyOf(rows[i]))
  }

  /** One INSERT ... ON CONFLICT DO UPDATE. */
  function InsertOrMerge<K(==), R>(m: Model<K, R>, t: map<K, R>, rows: seq<R>): Result<map<K, R>> {
    if |rows| * m.width > MAX_PARAMETERS then Err(TooManyParameters)
    else if !Distinct(RowKeys(m, rows)) then Err(CardinalityViolation)
    else Ok(UpsertRows(m, t, rows))
  }

  // ----- the dedupe dictionary: keys in first-seen order, the last row of each -----

  function Order<K(==), R>(m: Model<K, R>, rows: seq<R>): (keys: seq<K>)
    ensures Distinct(keys)
    ensures forall r :: r in rows ==> m.keyOf(r) in keys
  {
    if rows == [] then []
    else
      var n := |rows| - 1;
      var keys := Order(m, rows[..n]);
      assert rows == rows[..n] + [rows[n]];
      if m.keyOf(rows[n]) in keys then keys else keys + [m.keyOf(rows[n])]
  }

  function Last<K(==), R>(m: Model<K, R>, rows: seq<R>): (last: map<K, R>)
    ensures forall k :: k in last ==> k in Order(m, rows)
    ensures forall k :: k in Order(m, rows) ==> k in last
    ensures forall k :: k in last ==> last[k] in rows && m.keyOf(last[k]) == k
  {
    if rows == [] then map[] else var n := |rows| - 1; Last(m, rows[..n])[m.keyOf(rows[n]) := rows[n]]
  }

  ghost function First<K, R>(m: Model<K, R>, rows: seq<R>): (first: map<K, R>)
    ensures forall k :: k in first ==> first[k] in rows && m.keyOf(first[k]) == k
  {
    if rows == [] then map[]
    else
      var n := |rows| - 1;
      var first := First(m, rows[..n]);
      if m.keyOf(rows[n]) in first then first else first[m.keyOf(rows[n]) := rows[n]]
  }

  function Values<K(==), R>(last: map<K, R>, order: seq<K>): (rows: seq<R>)
    requires forall k :: k in order ==> k in last
    ensures |rows| == |order| && forall i :: 0 <= i < |order| ==> rows[i] == last[order[i]]
  {
    seq(|order|, i requires 0 <= i < |order| => last[order[i]])
  }

  /** One row for each key. */
  function Deduped<K(==), R>(m: Model<K, R>, rows: seq<R>): (deduped: seq<R>)
    ensures |deduped| == |Order(m, rows)|
    ensures Distinct(RowKeys(m, deduped))
  {
    var deduped := Values(Last(m, rows), Order(m, rows));
    assert RowKeys(m, deduped) == Order(m, rows);
    deduped
  }

  /** The number of keys of a batch. */
  function KeyCount<K(==), R>(m: Model<K, R>, rows: seq<R>): nat {
    |Order(m, rows)|
  }

  /** A table after the upsert of one row for each key. */
  function Upserted<K(==), R>(m: Model<K, R>, t: map<K, R>, rows: seq<R>): map<K, R> {
    UpsertRows(m, t, Deduped(m, rows))
  }

  lemma {:induction false} DedupeStep<K, R>(m: Model<K, R>, rows: seq<R>, i: nat)
    requires i < |rows|
    ensures Last(m, rows[..i + 1]) == Last(m, rows[..i])[m.keyOf(rows[i]) := rows[i]]
    ensures Order(m, rows[..i + 1]) ==
            var keys := Order(m, rows[..i]); if m.keyOf(rows[i]) in keys then keys else keys + [m.keyOf(rows[i])]
  {
    assert rows[..i + 1][..i] == rows[..i];
  }

  // ----- the method -----

  /** The dedupe loop: a dictionary from key to row, in which a later row takes the earlier one's place. */
  method LastRows<K(==), R>(m: Model<K, R>, batch: seq<R>) returns (deduped: seq<R>)
    ensures deduped == Deduped(m, batch)
  {
    var seen: map<K, R>, order: seq<K> := map[], [];
    for i := 0 to |batch|
      invariant seen == Last(m, batch[..i]) && order == Order(m, batch[..i])
    {
      DedupeStep(m, batch, i);
      var key := m.keyOf(batch[i]);
      if key !in seen {
        order := order + [key];
      }
      seen := seen[key := batch[i]];
    }
    assert batch[..|batch|] == batch;
    deduped := Values(seen, order);
  }

  /** The first i rows are in; what is left would lead to what the whole list leads to. */
  ghost predicate Progress<K, R>(m: Model<K, R>, t0: map<K, R>, t: map<K, R>, rows: seq<R>, i: nat) {
    i <= |rows| && Distinct(RowKeys(m, rows)) && UpsertRows(m, t, rows[i..]) == UpsertRows(m, t0, rows)
  }

  lemma {:induction false} EmptyBatch<K, R>(m: Model<K, R>, t: map<K, R>)
    ensures UpsertRows(m, t, Deduped(m, [])) == t && Order(m, []) == []
  {
    assert Deduped(m, []) == [];
  }

  lemma {:induction false} NoProgress<K, R>(m: Model<K, R>, t: map<K, R>, rows: seq<R>)
    requires Distinct(RowKeys(m, rows))
    ensures Progress(m, t, t, rows, 0)
  {
    assert rows[0..] == rows;
  }

  lemma {:induction false} ChunkStep<K, R>(m: Model<K, R>, t0: map<K, R>, t: map<K, R>, rows: seq<R>, i: nat, n: nat)
    requires Progress(m, t0, t, rows, i) && i + n <= |rows| && n <= CHUNK_SIZE
    requires CHUNK_SIZE * m.width <= MAX_PARAMETERS
    ensures InsertOrMerge(m, t, rows[i..i + n]).Ok?
    ensures Progress(m, t0, InsertOrMerge(m, t, rows[i..i + n]).value, rows, i + n)
  {
    DistinctSlice(m, rows, i, i + n);
    WidthBound(n, m.width);
    hide RowKeys, Distinct, UpsertRows;
    UpsertRowsConcat(m, t, rows[i..i + n], rows[i + n..]);
    assert rows[i..] == rows[i..i + n] + rows[i + n..];
  }

  lemma {:induction false} AllDone<K, R>(m: Model<K, R>, t0: map<K, R>, t: map<K, R>, rows: seq<R>)
    requires Progress(m, t0, t, rows, |rows|)
    ensures t == UpsertRows(m, t0, rows)
  {
    assert rows[|rows|..] == [];
  }

  class Table<K(==), R> {
    const connection: Connection
    var rows: map<K, R>

    constructor (connection: Connection, rows: map<K, R>)
      ensures this.connection == connection && this.rows == rows
    {
      this.connection, this.rows := connection, rows;
    }

    /** Executes one statement.  A driver reports the touched rows or a negative number. */
    method Execute(m: Model<K, R>, chunk: seq<R>, ghost from: nat) returns (r: Result<int>)
      requires connection.Since(from)
      modifies this, connection`sent
      ensures connection.Took(r, from, old(connection.sent) + 1)
      ensures r.Ok? ==> InsertOrMerge(m, old(rows), chunk) == Ok(rows) && (r.value == |chunk| || r.value < 0)
      ensures r.Err? ==> rows == old(rows)
      ensures r.Err? && r.error != ConnectionLost ==> InsertOrMerge(m, old(rows), chunk) == Err(r.error)
    {
      hide Connection.Calm, Connection.Loses;
      var reached :- connection.Send(from);
      var t :- InsertOrMerge(m, rows, chunk);
      rows := t;
      return Ok(if connection.reportsRows then |chunk| else -1);
    }

    /** Upserts the batch: unless a statement is lost it succeeds, returns the number of distinct keys,
        and leaves what upserting one row per key leaves. */
    method BulkUpsert(m: Model<K, R>, batch: seq<R>, ghost from: nat) returns (r: Result<nat>)
      requires CHUNK_SIZE * m.width <= MAX_PARAMETERS
      requires connection.Since(from)
      modifies this, connection`sent
      ensures connection.Took(r, from, old(connection.sent) + Chunks(KeyCount(m, batch)))
      ensures r.Ok? ==> rows == Upserted(m, old(rows), batch)
      ensures r.Ok? ==> r.value == KeyCount(m, batch)
      ensures r.Err? ==> r.error == ConnectionLost
    {
      hide Connection.Calm, Connection.Loses, Deduped, Order, Progress, InsertOrMerge, UpsertRows, Last, Distinct, RowKeys;
      if batch == [] {
        EmptyBatch(m, rows);
        return Ok(0);
      }
      var deduped := LastRows(m, batch);
      var total, i := 0, 0;
      NoProgress(m, rows, deduped);
      while i < |deduped|
        invariant total == i <= |deduped|
        invariant Progress(m, old(rows), rows, deduped, i)
        invariant connection.Since(from)
        invariant connection.sent + Chunks(|deduped| - i) == old(connection.sent) + Chunks(|deduped|)
      {
        var n := Min(CHUNK_SIZE, |deduped| - i);
        var chunk := deduped[i..i + n];
        ChunkStep(m, old(rows), rows, deduped, i, n);
        var count :- Execute(m, chunk, from);
        total := total + if count >= 0 then count else |chunk|;
        i := i + n;
      }
      AllDone(m, old(rows), rows, deduped);
      return Ok(total);
    }
  }

  lemma {:induction false} DistinctSlice<K, R>(m: Model<K, R>, rows: seq<R>, lo: nat, hi: nat)
    requires lo <= hi <= |rows| && Distinct(RowKeys(m, rows))
    ensures Distinct(RowKeys(m, rows[lo..hi]))
  {
    var keys := RowKeys(m, rows);
    forall i, j | 0 <= i < j < hi - lo ensures RowKeys(m, rows[lo..hi])[i] != RowKeys(m, rows[lo..hi])[j] {
      assert keys[lo + i] != keys[lo + j];
    }
  }

  lemma {:induction false} UpsertRowsConcat<K, R>(m: Model<K, R>, t: map<K, R>, a: seq<R>, b: seq<R>)
    ensures UpsertRows(m, t, a + b) == UpsertRows(m, UpsertRows(m, t, a), b)
    decreases |a|
  {
    if a == [] {
      assert a + b == b;
    } else {
      assert (a + b)[1..] == a[1..] + b;
      UpsertRowsConcat(m, UpsertRow(m, t, a[0]), a[1..], b);
    }
  }

  // ----- against the row-by-row upsert of the batch as it came -----

  /** Laws of a merge on the rows `ok` describes: a later update hides an earlier one, and a row
      updated by itself is itself. */
  ghost predicate Lawful<K, R(!new)>(m: Model<K, R>, ok: R -> bool) {
    && (forall e, x :: ok(e) && ok(x) ==> ok(m.merge(e, x)))
    && (forall e, x, y :: ok(e) && ok(x) && ok(y) ==> m.merge(m.merge(e, x), y) == m.merge(e, y))
    && (forall x :: ok(x) ==> m.merge(x, x) == x)
  }

  ghost predicate AllOk<K(!new), R(!new)>(ok: R -> bool, t: map<K, R>, rows: seq<R>) {
    (forall k :: k in t ==> ok(t[k])) && (forall r :: r in rows ==> ok(r))
  }

  /** What keys hold after upserting every row in turn: the last row merged into what was there, or
      else into the first. */
  ghost predicate Merged<K(!new), R>(m: Model<K, R>, t: map<K, R>, first: map<K, R>, last: map<K, R>, t': map<K, R>) {
    && (forall k :: k in first <==> k in last)
    && (forall k :: k in t' <==> k in t || k in last)
    && (forall k :: k in last && k in first ==> t'[k] == m.merge(if k in t then t[k] else first[k], last[k]))
    && (forall k :: k in t && k !in last ==> t'[k] == t[k])
  }

  lemma {:induction false} EachRowHolds<K(!new), R(!new)>(m: Model<K, R>, ok: R -> bool, t: map<K, R>, rows: seq<R>)
    requires Lawful(m, ok) && AllOk(ok, t, rows)
    ensures Merged(m, t, First(m, rows), Last(m, rows), UpsertRows(m, t, rows))
  {
    if rows != [] {
      var n := |rows| - 1;
      var prefix, r := rows[..n], rows[n];
      assert rows == prefix + [r];
      EachRowHolds(m, ok, t, prefix);
      UpsertRowsConcat(m, t, prefix, [r]);
      assert UpsertRows(m, UpsertRows(m, t, prefix), [r]) == UpsertRow(m, UpsertRows(m, t, prefix), r);
      AllValuesOk(m, ok, prefix);
      hide UpsertRows, UpsertRow, Merged, Lawful;
      OneMore(m, ok, t, First(m, prefix), Last(m, prefix), UpsertRows(m, t, prefix), r);
    }
  }

  lemma {:induction false} AllValuesOk<K, R>(m: Model<K, R>, ok: R -> bool, rows: seq<R>)
    requires forall r :: r in rows ==> ok(r)
    ensures forall k :: k in First(m, rows) ==> ok(First(m, rows)[k])
    ensures forall k :: k in Last(m, rows) ==> ok(Last(m, rows)[k])
  {
  }

  lemma {:induction false} OneMore<K(!new), R(!new)>(m: Model<K, R>, ok: R -> bool, t: map<K, R>, first: map<K, R>, last: map<K, R>,
                                  before: map<K, R>, r: R)
    requires Lawful(m, ok) && ok(r) && Merged(m, t, first, last, before)
    requires forall k :: k in t ==> ok(t[k])
    requires forall k :: k in first ==> ok(first[k])
    requires forall k :: k in last ==> ok(last[k])
    ensures var k := m.keyOf(r);
            Merged(m, t, if k in first then first else first[k := r], last[k := r], UpsertRow(m, before, r))
  {
  }

  /** What a key holds after upserting one row for each key. */
  lemma {:induction false} DistinctRowsHold<K(!new), R>(m: Model<K, R>, t: map<K, R>, rows: seq<R>, k: K)
    requires Distinct(RowKeys(m, rows))
    ensures k in UpsertRows(m, t, rows) <==> k in t || k in RowKeys(m, rows)
    ensures k !in RowKeys(m, rows) && k in t ==> UpsertRows(m, t, rows)[k] == t[k]
    ensures forall i :: 0 <= i < |rows| && RowKeys(m, rows)[i] == k ==>
              UpsertRows(m, t, rows)[k] == if k in t then m.merge(t[k], rows[i]) else rows[i]
    decreases |rows|
  {
    if rows != [] {
      DistinctSlice(m, rows, 1, |rows|);
      assert rows[1..|rows|] == rows[1..];
      DistinctRowsHold(m, UpsertRow(m, t, rows[0]), rows[1..], k);
      assert RowKeys(m, rows) == [m.keyOf(rows[0])] + RowKeys(m, rows[1..]);
      if k == m.keyOf(rows[0]) {
        assert forall j :: 0 < j < |rows| ==> RowKeys(m, rows)[0] != RowKeys(m, rows)[j];
      }
    }
  }

  /** The bulk upsert is the row-by-row upsert of the batch as it came if and only if, for every key
      that repeats and is not in the table yet, its first row updated by its last row is the last row. */
  lemma {:induction false} LastWinsIsRowByRow<K(!new), R(!new)>(m: Model<K, R>, ok: R -> bool, t: map<K, R>, rows: seq<R>)
    requires Lawful(m, ok) && AllOk(ok, t, rows)
    ensures UpsertRows(m, t, Deduped(m, rows)) == UpsertRows(m, t, rows) <==>
            forall k :: k in First(m, rows) && k in Last(m, rows) && k !in t ==>
              m.merge(First(m, rows)[k], Last(m, rows)[k]) == Last(m, rows)[k]
  {
    EachRowHolds(m, ok, t, rows);
    DedupedHolds(m, t, rows);
    hide First, Last, UpsertRows, Deduped, Order, Lawful, AllOk, Merged, Bulk;
    MergedAgainstBulk(m, t, First(m, rows), Last(m, rows), UpsertRows(m, t, rows), UpsertRows(m, t, Deduped(m, rows)));
  }

  /** What keys hold after upserting the last row of each. */
  ghost predicate Bulk<K(!new), R>(m: Model<K, R>, t: map<K, R>, last: map<K, R>, t': map<K, R>) {
    && (forall k :: k in t' <==> k in t || k in last)
    && (forall k :: k in last ==> t'[k] == if k in t then m.merge(t[k], last[k]) else last[k])
    && (forall k :: k in t && k !in last ==> t'[k] == t[k])
  }

  lemma {:induction false} MergedAgainstBulk<K(!new), R>(m: Model<K, R>, t: map<K, R>, first: map<K, R>, last: map<K, R>,
                                      each: map<K, R>, bulk: map<K, R>)
    requires Merged(m, t, first, last, each) && Bulk(m, t, last, bulk)
    ensures bulk == each <==> forall k :: k in first && k in last && k !in t ==> m.merge(first[k], last[k]) == last[k]
  {
    if forall k :: k in first && k in last && k !in t ==> m.merge(first[k], last[k]) == last[k] {
      assert each == bulk;
    }
  }

  lemma {:induction false} DedupedHolds<K(!new), R>(m: Model<K, R>, t: map<K, R>, rows: seq<R>)
    ensures Bulk(m, t, Last(m, rows), UpsertRows(m, t, Deduped(m, rows)))
  {
    var last, order, deduped := Last(m, rows), Order(m, rows), Deduped(m, rows);
    var bulk := UpsertRows(m, t, deduped);
    assert RowKeys(m, deduped) == order;
    forall k
      ensures k in bulk <==> k in t || k in last
      ensures k in last ==> bulk[k] == if k in t then m.merge(t[k], last[k]) else last[k]
      ensures k in t && k !in last ==> bulk[k] == t[k]
    {
      DistinctRowsHold(m, t, deduped, k);
      if k in last {
        var i :| 0 <= i < |order| && order[i] == k;
        assert deduped[i] == last[k];
      }
    }
  }

  // ----- rows by column -----

  type Columns<V> = map<string, V>

  /** SET c = excluded.c for each listed column. */
  function SetColumns<V>(e: Columns<V>, x: Columns<V>, update: seq<string>): (r: Columns<V>)
    ensures r.Keys == e.Keys + (x.Keys * set c | c in update)
    ensures forall c :: c in r ==> r[c] == if c in x && c in update then x[c] else e[c]
  {
    if update == [] then e
    else
      var r := SetColumns(e, x, update[1..]);
      if update[0] in x then r[update[0] := x[update[0]]] else r
  }

  function ConflictKey<V>(r: Columns<V>, conflict: seq<string>): (key: seq<Option<V>>)
    ensures |key| == |conflict|
    ensures forall i :: 0 <= i < |conflict| ==> key[i] == if conflict[i] in r then Some(r[conflict[i]]) else None
  {
    seq(|conflict|, i requires 0 <= i < |conflict| => if conflict[i] in r then Some(r[conflict[i]]) else None)
  }

  function ColumnModel<V(!new)>(conflict: seq<string>, update: seq<string>, width: nat): Model<seq<Option<V>>, Columns<V>> {
    Model((r: Columns<V>) => ConflictKey(r, conflict), (e: Columns<V>, x: Columns<V>) => SetColumns(e, x, update), width)
  }

  /** Rows that bind the same columns obey the laws, whatever the update list. */
  lemma {:induction false} ColumnsAreLawful<V(!new)>(columns: set<string>, conflict: seq<string>, update: seq<string>, width: nat)
    ensures Lawful(ColumnModel<V>(conflict, update, width), (r: Columns<V>) => r.Keys == columns)
  {
    var m := ColumnModel<V>(conflict, update, width);
    forall e: Columns<V>, x: Columns<V> | e.Keys == columns && x.Keys == columns
      ensures SetColumns(e, x, update).Keys == columns && SetColumns(x, x, update) == x
    {
    }
    forall e: Columns<V>, x: Columns<V>, y: Columns<V> | e.Keys == columns && x.Keys == columns && y.Keys == columns
      ensures SetColumns(SetColumns(e, x, update), y, update) == SetColumns(e, y, update)
    {
    }
  }

  /** When the conflict and update columns cover the row, a row updated by a row of the same key is
      that row, so a bulk upsert is always the row-by-row upsert of the batch. */
  lemma {:induction false} CoveringColumns<V(!new)>(columns: set<string>, conflict: seq<string>, update: seq<string>, width: nat,
                                 t: map<seq<Option<V>>, Columns<V>>, rows: seq<Columns<V>>)
    requires forall c :: c in columns ==> c in conflict || c in update
    requires forall k :: k in t ==> t[k].Keys == columns
    requires forall r :: r in rows ==> r.Keys == columns
    ensures var m := ColumnModel<V>(conflict, update, width);
            UpsertRows(m, t, Deduped(m, rows)) == UpsertRows(m, t, rows)
  {
    var m := ColumnModel<V>(conflict, update, width);
    ColumnsAreLawful<V>(columns, conflict, update, width);
    forall k | k in First(m, rows) && k in Last(m, rows)
      ensures m.merge(First(m, rows)[k], Last(m, rows)[k]) == Last(m, rows)[k]
    {
      var e, x := First(m, rows)[k], Last(m, rows)[k];
      SameKeyCovered(columns, conflict, update, e, x);
    }
    LastWinsIsRowByRow(m, (r: Columns<V>) => r.Keys == columns, t, rows);
  }

  lemma {:induction false} SameKeyCovered<V>(columns: set<string>, conflict: seq<string>, update: seq<string>, e: Columns<V>, x: Columns<V>)
    requires forall c :: c in columns ==> c in conflict || c in update
    requires e.Keys == columns && x.Keys == columns && ConflictKey(e, conflict) == ConflictKey(x, conflict)
    ensures SetColumns(e, x, update) == x
  {
    var r := SetColumns(e, x, update);
    forall c | c in columns ensures r[c] == x[c] {
      if c !in update {
        var i :| 0 <= i < |conflict| && conflict[i] == c;
        assert ConflictKey(e, conflict)[i] == ConflictKey(x, conflict)[i];
      }
    }
    assert r.Keys == columns;
  }
}
