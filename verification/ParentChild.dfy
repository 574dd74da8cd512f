/** Header tables with serial ids and the child tables that point at them: what vouchers and
    purchase orders share. */
module ParentChild {
  import opened Wrappers
  import opened Records
  import opened Statements
  import opened Connection
  import opened Dedupe

  /** A header row without its natural key. */
  datatype Header = Header(id: nat, guid: Guid, alterId: int, fields: map<string, string>)

  type Headers = map<Key, Header>

  /** A child row: the id of its header and its own columns. */
  datatype Child<T> = Child(parent: nat, value: T)

  // ----- headers -----

  predicate Matches(h: Header, r: Record) {
    h.guid == r.guid && h.alterId == r.alterId && h.fields == r.fields
  }

  /** One row of the header upsert: a known key keeps its id, a new one takes the next serial. */
  function UpsertHeader(headers: Headers, nextId: nat, r: Record): (Headers, nat) {
    if r.key in headers then (headers[r.key := Header(headers[r.key].id, r.guid, r.alterId, r.fields)], nextId)
    else (headers[r.key := Header(nextId, r.guid, r.alterId, r.fields)], nextId + 1)
  }

  function UpsertHeaders(headers: Headers, nextId: nat, records: seq<Record>): (Headers, nat)
    decreases |records|
  {
    if records == [] then (headers, nextId)
    else
      var (headers', nextId') := UpsertHeader(headers, nextId, records[0]);
      UpsertHeaders(headers', nextId', records[1..])
  }

  predicate DistinctKeys(records: seq<Record>) {
    forall i, j :: 0 <= i < j < |records| ==> records[i].key != records[j].key
  }

  /** Serial ids are handed out once and below the next one. */
  ghost predicate IdsOk(headers: Headers, nextId: nat) {
    && (forall k :: k in headers ==> headers[k].id < nextId)
    && (forall k, l :: k in headers && l in headers && k != l ==> headers[k].id != headers[l].id)
  }

  /** `after` is `before` with the records of `done` upserted: ids stay, other headers stay. */
  ghost predicate HeadersHold(before: Headers, done: map<Key, Record>, after: Headers) {
    && (forall k :: k in after <==> k in before || k in done)
    && (forall k :: k in done ==> Matches(after[k], done[k]))
    && (forall k :: k in before ==> after[k].id == before[k].id)
    && (forall k :: k in before && k !in done ==> after[k] == before[k])
  }

  ghost function ByKey(records: seq<Record>): map<Key, Record> {
    if records == [] then map[] else map[records[0].key := records[0]] + ByKey(records[1..])
  }

  lemma {:induction false} ByKeyHolds(records: seq<Record>)
    ensures forall k :: k in ByKey(records) ==> ByKey(records)[k] in records && ByKey(records)[k].key == k
    ensures forall r :: r in records ==> r.key in ByKey(records)
  {
    if records != [] {
      ByKeyHolds(records[1..]);
    }
  }

  /** Every known header keeps its id. */
  ghost predicate IdsKept(before: Headers, after: Headers) {
    forall k :: k in before ==> k in after && after[k].id == before[k].id
  }

  lemma {:induction false} IdsStay(before: Headers, done: map<Key, Record>, after: Headers)
    requires HeadersHold(before, done, after)
    ensures IdsKept(before, after)
  {
  }

  lemma {:induction false} UpsertHeaderHolds(before: Headers, done: map<Key, Record>, headers: Headers, nextId: nat, r: Record)
    requires HeadersHold(before, done, headers) && IdsOk(headers, nextId)
    ensures var (headers', nextId') := UpsertHeader(headers, nextId, r);
            HeadersHold(before, done[r.key := r], headers') && IdsOk(headers', nextId')
  {
    UpsertKeepsIds(headers, nextId, r);
    UpsertIsHeld(before, done, headers, nextId, r);
    hide HeadersHold, IdsOk, UpsertHeader;
  }

  lemma {:induction false} UpsertKeepsIds(headers: Headers, nextId: nat, r: Record)
    requires IdsOk(headers, nextId)
    ensures var (headers', nextId') := UpsertHeader(headers, nextId, r); IdsOk(headers', nextId')
  {
  }

  lemma {:induction false} UpsertIsHeld(before: Headers, done: map<Key, Record>, headers: Headers, nextId: nat, r: Record)
    requires HeadersHold(before, done, headers)
    ensures HeadersHold(before, done[r.key := r], UpsertHeader(headers, nextId, r).0)
  {
  }

  lemma {:induction false} UpsertHeadersHold(before: Headers, done: map<Key, Record>, headers: Headers, nextId: nat, records: seq<Record>)
    requires HeadersHold(before, done, headers) && IdsOk(headers, nextId)
    ensures var (headers', nextId') := UpsertHeaders(headers, nextId, records);
            HeadersHold(before, done + ByKey(records), headers') && IdsOk(headers', nextId')
    decreases |records|
  {
    hide HeadersHold, IdsOk;
    if records == [] {
      assert done + ByKey(records) == done;
    } else {
      var r := records[0];
      var (headers', nextId') := UpsertHeader(headers, nextId, r);
      UpsertHeaderHolds(before, done, headers, nextId, r);
      UpsertHeadersHold(before, done[r.key := r], headers', nextId', records[1..]);
      UpdateFirst(done, r.key, r, ByKey(records[1..]));
    }
  }

  lemma {:induction false} ByKeyConcat(a: seq<Record>, b: seq<Record>)
    ensures ByKey(a + b) == ByKey(a) + ByKey(b)
  {
    if a == [] {
      assert a + b == b;
      assert map[] + ByKey(b) == ByKey(b);
    } else {
      assert (a + b)[1..] == a[1..] + b;
      ByKeyConcat(a[1..], b);
      MapPlusAssociates(map[a[0].key := a[0]], ByKey(a[1..]), ByKey(b));
    }
  }

  lemma {:induction false} ByKeyFinds(records: seq<Record>)
    requires DistinctKeys(records)
    ensures forall r :: r in records ==> r.key in ByKey(records) && ByKey(records)[r.key] == r
  {
    ByKeyHolds(records);
    if records != [] {
      ByKeyFinds(records[1..]);
      assert forall r :: r in records[1..] ==> r.key != records[0].key;
    }
  }

  // ----- the dedupe dictionary of a batch -----

  /** The keys of the batch in first-seen order, as a dictionary keeps them. */
  function KeyOrder(records: seq<Record>): (order: seq<Key>)
    ensures Distinct(order)
    ensures forall r :: r in records ==> r.key in order
    ensures forall k :: k in order ==> exists r :: r in records && r.key == k
  {
    if records == [] then []
    else
      var n := |records| - 1;
      var order := KeyOrder(records[..n]);
      assert records == records[..n] + [records[n]];
      if records[n].key in order then order else order + [records[n].key]
  }

  lemma {:induction false} KeyOrderStep(records: seq<Record>, i: nat)
    requires i < |records|
    ensures KeyOrder(records[..i + 1]) ==
            var order := KeyOrder(records[..i]); if records[i].key in order then order else order + [records[i].key]
  {
    assert records[..i + 1][..i] == records[..i];
  }

  function Values(seen: map<Key, Record>, order: seq<Key>): (records: seq<Record>)
    requires forall k :: k in order ==> k in seen
    ensures |records| == |order| && forall i :: 0 <= i < |order| ==> records[i] == seen[order[i]]
  {
    seq(|order|, i requires 0 <= i < |order| => seen[order[i]])
  }

  /** The winners of a batch, in the order their keys were first seen. */
  function DedupedOf(kind: Kind, records: seq<Record>): seq<Record> {
    WinnersKeys(kind, records);
    Values(Winners(kind, records), KeyOrder(records))
  }

  ghost predicate IsDeduped(kind: Kind, records: seq<Record>, deduped: seq<Record>) {
    && DistinctKeys(deduped)
    && ByKey(deduped) == Winners(kind, records)
    && |deduped| == |Winners(kind, records)|
  }

  /** The dedupe loop. */
  method DedupeBatch(kind: Kind, records: seq<Record>) returns (deduped: seq<Record>)
    ensures IsDeduped(kind, records, deduped) && deduped == DedupedOf(kind, records)
  {
    var seen: map<Key, Record>, order: seq<Key> := map[], [];
    for i := 0 to |records|
      invariant seen == Winners(kind, records[..i]) && order == KeyOrder(records[..i])
    {
      WinnersStep(kind, records, i);
      KeyOrderStep(records, i);
      WinnersKeys(kind, records[..i]);
      var r := records[i];
      if r.key !in seen {
        seen, order := seen[r.key := r], order + [r.key];
      } else if Replaces(kind, r, seen[r.key]) {
        seen := seen[r.key := r];
      }
    }
    assert records[..|records|] == records;
    WinnersKeys(kind, records);
    deduped := Values(seen, order);
    ValuesAreDeduped(seen, order, deduped);
  }

  lemma {:induction false} WinnersKeys(kind: Kind, records: seq<Record>)
    ensures forall k :: k in Winners(kind, records) <==> k in KeyOrder(records)
  {
    forall k ensures k in Winners(kind, records) <==> k in KeyOrder(records) {
      if k in Winners(kind, records) {
        assert Winners(kind, records)[k] in records;
      }
    }
  }

  lemma {:induction false} ValuesAreDeduped(seen: map<Key, Record>, order: seq<Key>, deduped: seq<Record>)
    requires Distinct(order) && forall k :: k in order <==> k in seen
    requires forall k :: k in seen ==> seen[k].key == k
    requires |deduped| == |order| && forall i :: 0 <= i < |order| ==> deduped[i] == seen[order[i]]
    ensures DistinctKeys(deduped) && ByKey(deduped) == seen && |deduped| == |seen|
  {
    ValuesAreDistinct(seen, order, deduped);
    DistinctSize(order, seen.Keys);
    ByKeyFinds(deduped);
    ByKeyHolds(deduped);
    hide DistinctKeys, Distinct, ByKey;
    forall k | k in seen ensures k in ByKey(deduped) && ByKey(deduped)[k] == seen[k] {
      var i :| 0 <= i < |order| && order[i] == k;
      assert deduped[i] in deduped;
    }
    forall k | k in ByKey(deduped) ensures k in seen {
      var i :| 0 <= i < |deduped| && deduped[i] == ByKey(deduped)[k];
      assert order[i] in order;
    }
  }

  lemma {:induction false} ValuesAreDistinct(seen: map<Key, Record>, order: seq<Key>, deduped: seq<Record>)
    requires Distinct(order) && forall k :: k in order ==> k in seen
    requires forall k :: k in seen ==> seen[k].key == k
    requires |deduped| == |order| && forall i :: 0 <= i < |order| ==> deduped[i] == seen[order[i]]
    ensures DistinctKeys(deduped)
  {
    forall i | 0 <= i < |order| ensures deduped[i].key == order[i] {
      assert order[i] in order;
    }
  }

  lemma {:induction false} DistinctSize<T>(s: seq<T>, members: set<T>)
    requires Distinct(s) && forall x :: x in s <==> x in members
    ensures |s| == |members|
  {
    if s == [] {
      assert members == {};
    } else {
      var n := |s| - 1;
      assert s == s[..n] + [s[n]];
      assert forall x :: x in s[..n] <==> x in members - {s[n]};
      DistinctSize(s[..n], members - {s[n]});
    }
  }

  // ----- child tables -----

  function ChildrenOf<T>(rows: seq<Child<T>>, id: nat): seq<T> {
    if rows == [] then []
    else (if rows[0].parent == id then [rows[0].value] else []) + ChildrenOf(rows[1..], id)
  }

  /** DELETE ... WHERE parent IN ids. */
  function Without<T>(rows: seq<Child<T>>, ids: set<nat>): (kept: seq<Child<T>>)
    ensures forall c :: c in kept ==> c in rows && c.parent !in ids
  {
    if rows == [] then []
    else (if rows[0].parent in ids then [] else [rows[0]]) + Without(rows[1..], ids)
  }

  /** Every child has its header. */
  ghost predicate NoOrphans<T>(rows: seq<Child<T>>, headers: Headers) {
    forall c :: c in rows ==> HasHeader(headers, c.parent)
  }

  function Tagged<T>(id: nat, values: seq<T>): (rows: seq<Child<T>>)
    ensures |rows| == |values| && forall i :: 0 <= i < |values| ==> rows[i] == Child(id, values[i])
  {
    seq(|values|, i requires 0 <= i < |values| => Child(id, values[i]))
  }

  /** The fresh child rows of a batch, under the ids of its headers. */
  function Built<T>(records: seq<Record>, ids: map<Key, nat>, children: Record -> seq<T>): seq<Child<T>>
    requires forall r :: r in records ==> r.key in ids
  {
    if records == [] then []
    else
      var n := |records| - 1;
      Built(records[..n], ids, children) + Tagged(ids[records[n].key], children(records[n]))
  }

  lemma {:induction false} ChildrenOfConcat<T>(a: seq<Child<T>>, b: seq<Child<T>>, id: nat)
    ensures ChildrenOf(a + b, id) == ChildrenOf(a, id) + ChildrenOf(b, id)
  {
    if a == [] {
      assert a + b == b;
    } else {
      assert (a + b)[1..] == a[1..] + b;
      ChildrenOfConcat(a[1..], b, id);
      SeqPlusAssociates(if a[0].parent == id then [a[0].value] else [], ChildrenOf(a[1..], id), ChildrenOf(b, id));
    }
  }

  lemma {:induction false} SeqPlusAssociates<T>(a: seq<T>, b: seq<T>, c: seq<T>)
    ensures a + b + c == a + (b + c)
  {
  }

  lemma {:induction false} ChildrenOfWithout<T>(rows: seq<Child<T>>, ids: set<nat>, id: nat)
    ensures ChildrenOf(Without(rows, ids), id) == if id in ids then [] else ChildrenOf(rows, id)
  {
    if rows != [] {
      ChildrenOfWithout(rows[1..], ids, id);
      if rows[0].parent !in ids {
        ChildrenOfConcat([rows[0]], Without(rows[1..], ids), id);
      } else {
        assert Without(rows, ids) == Without(rows[1..], ids);
      }
    }
  }

  lemma {:induction false} ChildrenOfTagged<T>(id: nat, values: seq<T>, other: nat)
    ensures ChildrenOf(Tagged(id, values), other) == if id == other then values else []
  {
    if values != [] {
      assert Tagged(id, values)[1..] == Tagged(id, values[1..]);
      ChildrenOfTagged(id, values[1..], other);
    }
  }

  /** The number of children of the records of a batch. */
  function ChildCount<T>(records: seq<Record>, children: Record -> seq<T>): nat {
    if records == [] then 0 else ChildCount(records[..|records| - 1], children) + |children(records[|records| - 1])|
  }

  lemma {:induction false} BuiltLength<T>(records: seq<Record>, ids: map<Key, nat>, children: Record -> seq<T>)
    requires forall r :: r in records ==> r.key in ids
    ensures |Built(records, ids, children)| == ChildCount(records, children)
  {
    if records != [] {
      var n := |records| - 1;
      assert forall r :: r in records[..n] ==> r in records;
      BuiltLength(records[..n], ids, children);
    }
  }

  ghost predicate Injective(ids: map<Key, nat>) {
    forall k, l :: k in ids && l in ids && k != l ==> ids[k] != ids[l]
  }

  lemma {:induction false} BuiltLast<T>(records: seq<Record>, ids: map<Key, nat>, children: Record -> seq<T>, id: nat)
    requires records != [] && forall r :: r in records ==> r.key in ids
    ensures forall r :: r in records[..|records| - 1] ==> r.key in ids
    ensures var n := |records| - 1;
            ChildrenOf(Built(records, ids, children), id) ==
            ChildrenOf(Built(records[..n], ids, children), id) + if ids[records[n].key] == id then children(records[n]) else []
  {
    var n := |records| - 1;
    var last := records[n];
    assert forall r :: r in records[..n] ==> r in records;
    var built, tagged := Built(records[..n], ids, children), Tagged(ids[last.key], children(last));
    assert Built(records, ids, children) == built + tagged;
    hide Tagged, Built;
    ChildrenOfConcat(built, tagged, id);
    ChildrenOfTagged(ids[last.key], children(last), id);
  }

  lemma {:induction false} BuiltNone<T>(records: seq<Record>, ids: map<Key, nat>, children: Record -> seq<T>, id: nat)
    requires forall r :: r in records ==> r.key in ids && ids[r.key] != id
    ensures ChildrenOf(Built(records, ids, children), id) == []
  {
    if records != [] {
      hide ChildrenOf, Built;
      BuiltLast(records, ids, children, id);
      assert forall r :: r in records[..|records| - 1] ==> r in records;
      BuiltNone(records[..|records| - 1], ids, children, id);
      assert records[|records| - 1] in records;
    }
  }

  lemma {:induction false} BuiltOne<T>(records: seq<Record>, ids: map<Key, nat>, children: Record -> seq<T>, r: Record)
    requires forall q :: q in records ==> q.key in ids
    requires DistinctKeys(records) && Injective(ids) && r in records
    ensures ChildrenOf(Built(records, ids, children), ids[r.key]) == children(r)
  {
    hide ChildrenOf, Built, Injective, DistinctKeys;
    var n, id := |records| - 1, ids[r.key];
    var last := records[n];
    BuiltLast(records, ids, children, id);
    KeysBefore(records, n);
    if r == last {
      IdsBefore(records[..n], ids, last);
      BuiltNone(records[..n], ids, children, id);
      assert [] + children(r) == children(r);
    } else {
      assert records == records[..n] + [last];
      IdsApart(ids, r.key, last.key);
      BuiltOne(records[..n], ids, children, r);
      assert children(r) + [] == children(r);
    }
  }

  lemma {:induction false} IdsApart(ids: map<Key, nat>, k: Key, l: Key)
    requires Injective(ids) && k in ids && l in ids && k != l
    ensures ids[k] != ids[l]
  {
  }

  lemma {:induction false} IdsBefore(records: seq<Record>, ids: map<Key, nat>, last: Record)
    requires Injective(ids) && last.key in ids
    requires forall r :: r in records ==> r.key in ids && r.key != last.key
    ensures forall r :: r in records ==> ids[r.key] != ids[last.key]
  {
  }

  /** Each record's children are built under its own id, and under no other. */
  lemma {:induction false} BuiltChildren<T>(records: seq<Record>, ids: map<Key, nat>, children: Record -> seq<T>, id: nat)
    requires forall r :: r in records ==> r.key in ids
    requires DistinctKeys(records) && Injective(ids)
    ensures forall r :: r in records && ids[r.key] == id ==> ChildrenOf(Built(records, ids, children), id) == children(r)
    ensures (forall r :: r in records ==> ids[r.key] != id) ==> ChildrenOf(Built(records, ids, children), id) == []
  {
    hide ChildrenOf, Built, Injective, DistinctKeys;
    forall r | r in records && ids[r.key] == id ensures ChildrenOf(Built(records, ids, children), id) == children(r) {
      BuiltOne(records, ids, children, r);
    }
    if forall r :: r in records ==> ids[r.key] != id {
      BuiltNone(records, ids, children, id);
    }
  }

  lemma {:induction false} KeysBefore(records: seq<Record>, n: nat)
    requires DistinctKeys(records) && n < |records|
    ensures DistinctKeys(records[..n])
    ensures forall r :: r in records[..n] ==> r.key != records[n].key
  {
  }

  /** Every built row points at one of the ids. */
  lemma {:induction false} BuiltParents<T>(records: seq<Record>, ids: map<Key, nat>, children: Record -> seq<T>)
    requires forall r :: r in records ==> r.key in ids
    ensures forall c :: c in Built(records, ids, children) ==> exists r :: r in records && ids[r.key] == c.parent
  {
    if records != [] {
      var n := |records| - 1;
      assert records == records[..n] + [records[n]];
      BuiltParents(records[..n], ids, children);
      var tagged := Tagged(ids[records[n].key], children(records[n]));
      forall c | c in Built(records, ids, children) ensures exists r :: r in records && ids[r.key] == c.parent {
        if c in Built(records[..n], ids, children) {
          var r :| r in records[..n] && ids[r.key] == c.parent;
          assert r in records;
        } else {
          assert c in tagged;
          assert records[n] in records;
        }
      }
    }
  }

  // ----- statements -----

  const HEADER_WIDTH: nat := 12
  const CHILD_WIDTH: nat := 7

  /** INSERT ... ON CONFLICT DO UPDATE ... RETURNING id and key. */
  method ExecuteHeaders(connection: Connection, headers: Headers, nextId: nat, chunk: seq<Record>, ghost from: nat)
      returns (r: Result<(Headers, nat, seq<(Key, nat)>)>)
    requires IdsOk(headers, nextId)
    requires |chunk| <= CHUNK_SIZE && DistinctKeys(chunk)
    requires connection.Since(from)
    modifies connection`sent
    ensures connection.Took(r, from, old(connection.sent) + 1)
    ensures r.Ok? ==> HeadersHold(headers, ByKey(chunk), r.value.0) && IdsOk(r.value.0, r.value.1)
    ensures r.Ok? ==> Returns(r.value.0, chunk, r.value.2)
    ensures r.Err? ==> r.error == ConnectionLost
  {
    hide Connection.Calm, Connection.Loses, HeadersHold, IdsOk, ByKey, DistinctKeys, UpsertHeaders;
    var reached :- connection.Send(from);
    assert |chunk| * HEADER_WIDTH <= MAX_PARAMETERS;
    var (headers', nextId') := UpsertHeaders(headers, nextId, chunk);
    ChunkHolds(headers, nextId, chunk);
    var returned := seq(|chunk|, i requires 0 <= i < |chunk| && chunk[i].key in headers' =>
      (chunk[i].key, headers'[chunk[i].key].id));
    return Ok((headers', nextId', returned));
  }

  lemma {:induction false} ChunkHolds(headers: Headers, nextId: nat, chunk: seq<Record>)
    requires IdsOk(headers, nextId)
    ensures var (headers', nextId') := UpsertHeaders(headers, nextId, chunk);
            && HeadersHold(headers, ByKey(chunk), headers') && IdsOk(headers', nextId')
            && forall i :: 0 <= i < |chunk| ==> chunk[i].key in headers'
  {
    hide IdsOk, ByKey, UpsertHeaders;
    UpsertHeadersHold(headers, map[], headers, nextId, chunk);
    assert map[] + ByKey(chunk) == ByKey(chunk);
    ByKeyHolds(chunk);
    forall i | 0 <= i < |chunk| ensures chunk[i].key in UpsertHeaders(headers, nextId, chunk).0 {
      assert chunk[i] in chunk;
    }
  }

  ghost predicate Returns(headers: Headers, chunk: seq<Record>, returned: seq<(Key, nat)>) {
    && |returned| == |chunk|
    && forall i :: 0 <= i < |chunk| ==> chunk[i].key in headers && returned[i] == (chunk[i].key, headers[chunk[i].key].id)
  }

  /** The ids collected for the records of a batch. */
  ghost predicate IdsFor(done: map<Key, Record>, headers: Headers, ids: map<Key, nat>) {
    && (forall k :: k in ids <==> k in done)
    && (forall k :: k in ids ==> k in headers && ids[k] == headers[k].id)
  }

  lemma {:induction false} HeadersHoldTwice(h0: Headers, a: map<Key, Record>, h1: Headers, b: map<Key, Record>, h2: Headers)
    requires HeadersHold(h0, a, h1) && HeadersHold(h1, b, h2) && a.Keys !! b.Keys
    ensures HeadersHold(h0, a + b, h2)
  {
  }

  lemma {:induction false} IdsCarry(a: map<Key, Record>, h1: Headers, ids: map<Key, nat>, b: map<Key, Record>, h2: Headers)
    requires IdsFor(a, h1, ids) && HeadersHold(h1, b, h2)
    ensures IdsFor(a, h2, ids)
  {
  }

  function Pairs(returned: seq<(Key, nat)>): map<Key, nat> {
    if returned == [] then map[] else var n := |returned| - 1; Pairs(returned[..n])[returned[n].0 := returned[n].1]
  }

  /** Stores one chunk's returned ids in the dictionary. */
  method CollectIds(ids: map<Key, nat>, returned: seq<(Key, nat)>) returns (ids': map<Key, nat>)
    ensures ids' == ids + Pairs(returned)
  {
    ids' := ids;
    for j := 0 to |returned|
      invariant ids' == ids + Pairs(returned[..j])
    {
      assert returned[..j + 1][..j] == returned[..j];
      ids' := ids'[returned[j].0 := returned[j].1];
    }
    assert returned[..|returned|] == returned;
  }

  lemma {:induction false} PairsFor(headers: Headers, chunk: seq<Record>, returned: seq<(Key, nat)>)
    requires Returns(headers, chunk, returned)
    ensures IdsFor(ByKey(chunk), headers, Pairs(returned))
  {
    if chunk == [] {
      assert ByKey(chunk) == map[];
    } else {
      var n := |chunk| - 1;
      hide ByKey, IdsFor;
      PairsFor(headers, chunk[..n], returned[..n]);
      ByKeyLast(chunk);
      AddId(ByKey(chunk[..n]), headers, Pairs(returned[..n]), chunk[n]);
    }
  }

  lemma {:induction false} ByKeyLast(records: seq<Record>)
    requires records != []
    ensures var n := |records| - 1; ByKey(records) == ByKey(records[..n])[records[n].key := records[n]]
  {
    hide ByKey;
    var n := |records| - 1;
    assert records == records[..n] + [records[n]];
    ByKeyConcat(records[..n], [records[n]]);
    ByKeyOne(records[n]);
    AppendOne(ByKey(records[..n]), records[n].key, records[n]);
  }

  lemma {:induction false} AppendOne<K, V>(a: map<K, V>, k: K, v: V)
    ensures a + map[k := v] == a[k := v]
  {
  }

  lemma {:induction false} ByKeyOne(r: Record)
    ensures ByKey([r]) == map[r.key := r]
  {
    assert map[r.key := r] + map[] == map[r.key := r];
  }

  lemma {:induction false} AddId(done: map<Key, Record>, headers: Headers, ids: map<Key, nat>, r: Record)
    requires IdsFor(done, headers, ids) && r.key in headers
    ensures IdsFor(done[r.key := r], headers, ids[r.key := headers[r.key].id])
  {
  }

  lemma {:induction false} IdsForBoth(a: map<Key, Record>, b: map<Key, Record>, headers: Headers, x: map<Key, nat>, y: map<Key, nat>)
    requires IdsFor(a, headers, x) && IdsFor(b, headers, y)
    ensures IdsFor(a + b, headers, x + y)
  {
  }

  lemma {:induction false} SliceKeys(records: seq<Record>, lo: nat, hi: nat)
    requires DistinctKeys(records) && lo <= hi <= |records|
    ensures DistinctKeys(records[lo..hi])
    ensures ByKey(records[..lo]).Keys !! ByKey(records[lo..hi]).Keys
    ensures ByKey(records[..hi]) == ByKey(records[..lo]) + ByKey(records[lo..hi])
  {
    SliceIsDistinct(records, lo, hi);
    KeysApart(records, lo, hi);
    hide ByKey, DistinctKeys;
    assert records[..hi] == records[..lo] + records[lo..hi];
    ByKeyConcat(records[..lo], records[lo..hi]);
    ByKeyApart(records[..lo], records[lo..hi]);
  }

  lemma {:induction false} SliceIsDistinct(records: seq<Record>, lo: nat, hi: nat)
    requires DistinctKeys(records) && lo <= hi <= |records|
    ensures DistinctKeys(records[lo..hi])
  {
  }

  lemma {:induction false} ByKeyApart(x: seq<Record>, y: seq<Record>)
    requires forall r, q :: r in x && q in y ==> r.key != q.key
    ensures ByKey(x).Keys !! ByKey(y).Keys
  {
    ByKeyHolds(x);
    ByKeyHolds(y);
    hide ByKey;
    MapsApart(x, y, ByKey(x), ByKey(y));
  }

  lemma {:induction false} MapsApart(x: seq<Record>, y: seq<Record>, a: map<Key, Record>, b: map<Key, Record>)
    requires forall r, q :: r in x && q in y ==> r.key != q.key
    requires forall k :: k in a ==> a[k] in x && a[k].key == k
    requires forall k :: k in b ==> b[k] in y && b[k].key == k
    ensures a.Keys !! b.Keys
  {
  }

  lemma {:induction false} KeysApart(records: seq<Record>, lo: nat, hi: nat)
    requires DistinctKeys(records) && lo <= hi <= |records|
    ensures forall r, q :: r in records[..lo] && q in records[lo..hi] ==> r.key != q.key
  {
    forall r, q | r in records[..lo] && q in records[lo..hi] ensures r.key != q.key {
      var i :| 0 <= i < lo && records[..lo][i] == r;
      var j :| 0 <= j < hi - lo && records[lo..hi][j] == q;
      assert records[i].key != records[lo + j].key;
    }
  }

  /** The first i records are upserted and their ids collected. */
  ghost predicate HeaderProgress(h0: Headers, records: seq<Record>, i: nat, h: Headers, nextId: nat, ids: map<Key, nat>) {
    && i <= |records| && DistinctKeys(records)
    && HeadersHold(h0, ByKey(records[..i]), h) && IdsOk(h, nextId) && IdsFor(ByKey(records[..i]), h, ids)
  }

  lemma {:induction false} ChunkDone(h0: Headers, records: seq<Record>, lo: nat, hi: nat, h1: Headers, n1: nat, ids: map<Key, nat>,
                                     h2: Headers, n2: nat, returned: seq<(Key, nat)>)
    requires HeaderProgress(h0, records, lo, h1, n1, ids) && lo <= hi <= |records|
    requires HeadersHold(h1, ByKey(records[lo..hi]), h2) && IdsOk(h2, n2) && Returns(h2, records[lo..hi], returned)
    ensures HeaderProgress(h0, records, hi, h2, n2, ids + Pairs(returned))
  {
    hide HeadersHold, IdsFor, ByKey, DistinctKeys, IdsOk, Returns, Pairs;
    var a, b := ByKey(records[..lo]), ByKey(records[lo..hi]);
    SliceKeys(records, lo, hi);
    HeadersHoldTwice(h0, a, h1, b, h2);
    IdsCarry(a, h1, ids, b, h2);
    PairsFor(h2, records[lo..hi], returned);
    IdsForBoth(a, b, h2, ids, Pairs(returned));
  }

  lemma {:induction false} ChunkReady(h0: Headers, records: seq<Record>, lo: nat, hi: nat, h: Headers, nextId: nat, ids: map<Key, nat>)
    requires HeaderProgress(h0, records, lo, h, nextId, ids) && lo <= hi <= |records|
    ensures IdsOk(h, nextId) && DistinctKeys(records[lo..hi])
  {
    hide HeadersHold, IdsFor, ByKey, IdsOk;
  }

  lemma {:induction false} AllUpserted(h0: Headers, records: seq<Record>, h: Headers, nextId: nat, ids: map<Key, nat>)
    requires HeaderProgress(h0, records, |records|, h, nextId, ids)
    ensures HeadersHold(h0, ByKey(records), h) && IdsOk(h, nextId) && IdsFor(ByKey(records), h, ids)
  {
    hide HeadersHold, IdsFor, ByKey, IdsOk;
    assert records[..|records|] == records;
  }

  lemma {:induction false} NothingDone(headers: Headers, nextId: nat, records: seq<Record>)
    requires DistinctKeys(records) && IdsOk(headers, nextId)
    ensures HeaderProgress(headers, records, 0, headers, nextId, map[])
  {
    assert records[..0] == [];
  }

  /** The header upsert in chunks, collecting the id of every key. */
  method UpsertHeaderRows(connection: Connection, headers: Headers, nextId: nat, deduped: seq<Record>, ghost from: nat)
      returns (r: Result<(Headers, nat, map<Key, nat>)>)
    requires IdsOk(headers, nextId) && DistinctKeys(deduped)
    requires connection.Since(from)
    modifies connection`sent
    ensures connection.Took(r, from, old(connection.sent) + Chunks(|deduped|))
    ensures r.Ok? ==> HeaderProgress(headers, deduped, |deduped|, r.value.0, r.value.1, r.value.2)
    ensures r.Err? ==> r.error == ConnectionLost
  {
    hide Connection.Calm, Connection.Loses, IdsOk, HeadersHold, IdsFor, Returns, DistinctKeys, HeaderProgress, ByKey, Pairs;
    var h, n, ids: map<Key, nat>, i := headers, nextId, map[], 0;
    NothingDone(headers, nextId, deduped);
    while i < |deduped|
      invariant i <= |deduped| && HeaderProgress(headers, deduped, i, h, n, ids)
      invariant connection.Since(from)
      invariant connection.sent + Chunks(|deduped| - i) == old(connection.sent) + Chunks(|deduped|)
    {
      var size := Min(CHUNK_SIZE, |deduped| - i);
      var chunk := deduped[i..i + size];
      ChunkReady(headers, deduped, i, i + size, h, n, ids);
      var executed :- ExecuteHeaders(connection, h, n, chunk, from);
      var (h', n', returned) := executed;
      ChunkDone(headers, deduped, i, i + size, h, n, ids, h', n', returned);
      ids := CollectIds(ids, returned);
      h, n := h', n';
      i := i + size;
    }
    return Ok((h, n, ids));
  }

  /** DELETE of the child rows of all given headers, in one statement. */
  method DeleteFrom<T>(connection: Connection, rows: seq<Child<T>>, ids: set<nat>, ghost from: nat) returns (r: Result<seq<Child<T>>>)
    requires connection.Since(from)
    modifies connection`sent
    ensures connection.Took(r, from, old(connection.sent) + 1)
    ensures r.Ok? ==> r.value == Without(rows, ids) && |ids| <= MAX_PARAMETERS
    ensures r.Err? ==> r.error == ConnectionLost || (r.error == TooManyParameters && |ids| > MAX_PARAMETERS)
  {
    hide Connection.Calm, Connection.Loses;
    if |ids| > MAX_PARAMETERS {
      return Err(TooManyParameters);
    }
    var reached :- connection.Send(from);
    return Ok(Without(rows, ids));
  }

  predicate HasHeader(headers: Headers, id: nat) {
    exists k :: k in headers && headers[k].id == id
  }

  /** INSERT of child rows, in chunks; a row without its header violates the foreign key. */
  method InsertChildren<T>(connection: Connection, table: seq<Child<T>>, headers: Headers, rows: seq<Child<T>>, ghost from: nat)
      returns (r: Result<seq<Child<T>>>)
    requires forall c :: c in rows ==> HasHeader(headers, c.parent)
    requires connection.Since(from)
    modifies connection`sent
    ensures connection.Took(r, from, old(connection.sent) + Chunks(|rows|))
    ensures r.Ok? ==> r.value == table + rows
    ensures r.Err? ==> r.error == ConnectionLost
  {
    hide Connection.Calm, Connection.Loses;
    var t, i := table, 0;
    while i < |rows|
      invariant 0 <= i <= |rows|
      invariant t == table + rows[..i]
      invariant connection.Since(from)
      invariant connection.sent + Chunks(|rows| - i) == old(connection.sent) + Chunks(|rows|)
    {
      var size := Min(CHUNK_SIZE, |rows| - i);
      var chunk := rows[i..i + size];
      t :- ExecuteInsert(connection, t, headers, chunk, from);
      assert rows[..i] + chunk == rows[..i + size];
      i := i + size;
    }
    assert rows[..|rows|] == rows;
    return Ok(t);
  }

  method ExecuteInsert<T>(connection: Connection, table: seq<Child<T>>, headers: Headers, chunk: seq<Child<T>>, ghost from: nat)
      returns (r: Result<seq<Child<T>>>)
    requires connection.Since(from)
    modifies connection`sent
    ensures connection.Took(r, from, old(connection.sent) + 1)
    ensures r.Ok? ==> r.value == table + chunk
    ensures r.Err? && r.error == TooManyParameters ==> |chunk| > CHUNK_SIZE
    ensures r.Err? && r.error == ForeignKeyViolation ==> exists c :: c in chunk && !HasHeader(headers, c.parent)
    ensures r.Err? ==> r.error in {TooManyParameters, ForeignKeyViolation, ConnectionLost}
  {
    hide Connection.Calm, Connection.Loses;
    if |chunk| * CHILD_WIDTH > MAX_PARAMETERS {
      return Err(TooManyParameters);
    }
    var reached :- connection.Send(from);
    for i := 0 to |chunk| {
      if !HasHeader(headers, chunk[i].parent) {
        assert chunk[i] in chunk;
        return Err(ForeignKeyViolation);
      }
    }
    return Ok(table + chunk);
  }

  /** Appends the rows of one header's children. */
  method AppendChildren<T>(rows: seq<Child<T>>, id: nat, values: seq<T>) returns (rows': seq<Child<T>>)
    ensures rows' == rows + Tagged(id, values)
  {
    rows' := rows;
    for i := 0 to |values|
      invariant rows' == rows + Tagged(id, values)[..i]
    {
      rows' := rows' + [Child(id, values[i])];
    }
    assert Tagged(id, values)[..|values|] == Tagged(id, values);
  }

  // ----- one child table across a whole batch -----

  function IdSet(ids: map<Key, nat>): set<nat> {
    set k | k in ids :: ids[k]
  }

  /** What a delete and rebuild leaves: each header of the batch has its record's children, every
      other header has what it had. */
  ghost predicate Rewritten<T>(before: seq<Child<T>>, after: seq<Child<T>>, ids: map<Key, nat>,
                               w: map<Key, Record>, children: Record -> seq<T>) {
    && (forall k :: k in w && k in ids ==> ChildrenOf(after, ids[k]) == children(w[k]))
    && (forall id :: id !in IdSet(ids) ==> ChildrenOf(after, id) == ChildrenOf(before, id))
  }

  lemma {:induction false} RewriteTable<T>(before: seq<Child<T>>, deduped: seq<Record>, ids: map<Key, nat>, children: Record -> seq<T>)
    requires DistinctKeys(deduped) && Injective(ids)
    requires forall k :: k in ids <==> k in ByKey(deduped)
    ensures forall r :: r in deduped ==> r.key in ids
    ensures Rewritten(before, Without(before, IdSet(ids)) + Built(deduped, ids, children), ids, ByKey(deduped), children)
  {
    ByKeyHolds(deduped);
    var w, kept, built := ByKey(deduped), Without(before, IdSet(ids)), Built(deduped, ids, children);
    forall id ensures ChildrenOf(kept + built, id) == (if id in IdSet(ids) then [] else ChildrenOf(before, id)) + ChildrenOf(built, id) {
      ChildrenOfConcat(kept, built, id);
      ChildrenOfWithout(before, IdSet(ids), id);
    }
    forall k | k in w && k in ids ensures ChildrenOf(kept + built, ids[k]) == children(w[k]) {
      BuiltChildren(deduped, ids, children, ids[k]);
      assert ids[k] in IdSet(ids);
      assert w[k] in deduped;
      assert [] + children(w[k]) == children(w[k]);
    }
    forall id | id !in IdSet(ids) ensures ChildrenOf(kept + built, id) == ChildrenOf(before, id) {
      BuiltChildren(deduped, ids, children, id);
      assert forall r :: r in deduped ==> ids[r.key] in IdSet(ids);
      assert ChildrenOf(before, id) + [] == ChildrenOf(before, id);
    }
  }

  /** A rebuilt table has no orphans. */
  lemma {:induction false} RewriteKeepsParents<T>(before: seq<Child<T>>, h0: Headers, deduped: seq<Record>, ids: map<Key, nat>,
                                                  h1: Headers, children: Record -> seq<T>)
    requires NoOrphans(before, h0) && HeadersHold(h0, ByKey(deduped), h1)
    requires IdsFor(ByKey(deduped), h1, ids)
    ensures forall r :: r in deduped ==> r.key in ids
    ensures forall c :: c in Built(deduped, ids, children) ==> HasHeader(h1, c.parent)
    ensures NoOrphans(Without(before, IdSet(ids)) + Built(deduped, ids, children), h1)
  {
    ByKeyHolds(deduped);
    BuiltParents(deduped, ids, children);
    forall c | c in Built(deduped, ids, children) ensures HasHeader(h1, c.parent) {
      var r :| r in deduped && ids[r.key] == c.parent;
      assert h1[r.key].id == c.parent;
    }
    var kept := Without(before, IdSet(ids));
    forall c | c in kept ensures HasHeader(h1, c.parent) {
      var k :| k in h0 && h0[k].id == c.parent;
      assert h1[k].id == c.parent;
    }
  }

  lemma {:induction false} BuiltStep<T>(records: seq<Record>, ids: map<Key, nat>, children: Record -> seq<T>, i: nat)
    requires i < |records| && forall r :: r in records ==> r.key in ids
    ensures forall r :: r in records[..i + 1] ==> r.key in ids
    ensures forall r :: r in records[..i] ==> r.key in ids
    ensures Built(records[..i + 1], ids, children) ==
            Built(records[..i], ids, children) + Tagged(ids[records[i].key], children(records[i]))
  {
    assert forall r :: r in records[..i + 1] ==> r in records;
    assert forall r :: r in records[..i] ==> r in records;
    assert records[..i + 1][..i] == records[..i];
  }

  // ----- headers joined with their children -----

  ghost function JoinRows(headers: Headers, children: nat -> Children, keys: set<Key>): (m: map<Key, Record>)
    requires forall k :: k in keys ==> k in headers
    ensures forall k :: k in m <==> k in keys
    ensures forall k :: k in m ==>
              m[k] == Record(headers[k].guid, k, headers[k].alterId, headers[k].fields, children(headers[k].id))
  {
    if keys == {} then map[]
    else
      var k :| k in keys;
      var h := headers[k];
      JoinRows(headers, children, keys - {k})[k := Record(h.guid, k, h.alterId, h.fields, children(h.id))]
  }

  /** The table a query sees: each header with its children, by natural key. */
  ghost function Join(headers: Headers, children: nat -> Children): map<Key, Record> {
    JoinRows(headers, children, headers.Keys)
  }

  lemma {:induction false} JoinRewritten(h0: Headers, w: map<Key, Record>, h1: Headers, nextId: nat, ids: map<Key, nat>,
                                         before: nat -> Children, after: nat -> Children)
    requires HeadersHold(h0, w, h1) && IdsOk(h1, nextId) && IdsFor(w, h1, ids)
    requires forall k :: k in w ==> w[k].key == k
    requires forall k :: k in w && k in ids ==> after(ids[k]) == w[k].children
    requires forall id :: id !in IdSet(ids) ==> after(id) == before(id)
    ensures Join(h1, after) == Join(h0, before) + w
  {
    hide JoinRows, HeadersHold, IdsOk, IdsFor;
    var joined, expected := Join(h1, after), Join(h0, before) + w;
    forall k ensures k in joined <==> k in expected
      ensures k in joined && k in expected ==> joined[k] == expected[k] {
      JoinedRow(h0, w, h1, nextId, ids, before, after, k);
    }
  }

  /** One key of the joined table. */
  lemma {:induction false} JoinedRow(h0: Headers, w: map<Key, Record>, h1: Headers, nextId: nat, ids: map<Key, nat>,
                                     before: nat -> Children, after: nat -> Children, k: Key)
    requires HeadersHold(h0, w, h1) && IdsOk(h1, nextId) && IdsFor(w, h1, ids)
    requires forall k :: k in w ==> w[k].key == k
    requires forall k :: k in w && k in ids ==> after(ids[k]) == w[k].children
    requires forall id :: id !in IdSet(ids) ==> after(id) == before(id)
    ensures var expected := Join(h0, before) + w;
            && (k in h1 <==> k in expected)
            && (k in h1 && k in expected ==>
                  expected[k] == Record(h1[k].guid, k, h1[k].alterId, h1[k].fields, after(h1[k].id)))
  {
    hide JoinRows;
    if k in w {
      assert ids[k] == h1[k].id;
    } else if k in h1 {
      assert h1[k].id !in IdSet(ids);
    }
  }

  lemma {:induction false} IdsAreInjective(w: map<Key, Record>, headers: Headers, nextId: nat, ids: map<Key, nat>)
    requires IdsOk(headers, nextId) && IdsFor(w, headers, ids)
    ensures Injective(ids) && |IdSet(ids)| == |w|
  {
    InjectiveSize(ids, w.Keys);
  }

  lemma {:induction false} InjectiveSize(ids: map<Key, nat>, keys: set<Key>)
    requires Injective(ids) && forall k :: k in keys ==> k in ids
    ensures |set k | k in keys :: ids[k]| == |keys|
    ensures keys == ids.Keys ==> |IdSet(ids)| == |keys|
    decreases |keys|
  {
    var image := set k | k in keys :: ids[k];
    if keys != {} {
      var k :| k in keys;
      InjectiveSize(ids, keys - {k});
      assert image == (set l | l in keys - {k} :: ids[l]) + {ids[k]};
    }
    if keys == ids.Keys {
      assert IdSet(ids) == image;
    }
  }
}
