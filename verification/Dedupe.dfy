/** Which record of a batch a key is left with: the in-batch dedupe of every repository. */
module Dedupe {
  import opened Records

  /** Whether `next` takes the place of `held`, met earlier under the same key.  Master tables let
      the last occurrence win; vouchers and purchase orders keep the higher alter id. */
  predicate Replaces(kind: Kind, next: Record, held: Record) {
    kind.Master? || next.alterId > held.alterId
  }

  /** One step of the dedupe loop. */
  function Take(kind: Kind, w: map<Key, Record>, r: Record): map<Key, Record> {
    if r.key in w && !Replaces(kind, r, w[r.key]) then w else w[r.key := r]
  }

  /** The record each key of the batch is left with. */
  function Winners(kind: Kind, records: seq<Record>): (w: map<Key, Record>)
    ensures forall k :: k in w ==> w[k] in records && w[k].key == k
    ensures forall r :: r in records ==> r.key in w
    ensures !kind.Master? ==> forall r :: r in records ==> r.alterId <= w[r.key].alterId
  {
    if records == [] then map[]
    else
      var n := |records| - 1;
      assert forall x :: x in records <==> x in records[..n] || x == records[n] by {
        assert records == records[..n] + [records[n]];
      }
      Take(kind, Winners(kind, records[..n]), records[n])
  }

  /** The number of keys of a batch. */
  function WinnerCount(kind: Kind, records: seq<Record>): nat {
    |Winners(kind, records)|
  }

  lemma {:induction false} WinnersStep(kind: Kind, records: seq<Record>, i: nat)
    requires i < |records|
    ensures Winners(kind, records[..i + 1]) == Take(kind, Winners(kind, records[..i]), records[i])
  {
    assert records[..i + 1][..i] == records[..i];
  }

  ghost predicate HoldsAt(w: map<Key, Record>, r: Record) {
    r.key in w && w[r.key] == r
  }

  /** In a master batch the winner is the last record with its key. */
  lemma {:induction false} MasterWinnerIsLast(records: seq<Record>, i: nat)
    requires i < |records|
    requires forall j :: i < j < |records| ==> records[j].key != records[i].key
    ensures Winners(Master, records)[records[i].key] == records[i]
  {
    assert records[..|records|] == records;
    MasterWinnerUpTo(records, i, |records|);
  }

  lemma {:induction false} MasterWinnerUpTo(records: seq<Record>, i: nat, n: nat)
    requires i < n <= |records|
    requires forall j :: i < j < |records| ==> records[j].key != records[i].key
    ensures HoldsAt(Winners(Master, records[..n]), records[i])
    decreases n
  {
    WinnersStep(Master, records, n - 1);
    hide Winners;
    if i < n - 1 {
      MasterWinnerUpTo(records, i, n - 1);
    }
  }

  /** Record i has the highest alter id of its key, and every earlier record with its key is strictly older. */
  ghost predicate FirstHighest(records: seq<Record>, i: nat) {
    i < |records| &&
    forall r, j :: 0 <= j < |records| && r == records[j] && r.key == records[i].key ==>
      r.alterId < records[i].alterId || (i <= j && r.alterId == records[i].alterId)
  }

  /** In a voucher or purchase-order batch the winner is the first record of the highest alter id. */
  lemma {:induction false} WinnerIsFirstHighest(kind: Kind, records: seq<Record>, i: nat)
    requires !kind.Master? && FirstHighest(records, i)
    ensures Winners(kind, records)[records[i].key] == records[i]
  {
    assert records[..|records|] == records;
    WinnerUpTo(kind, records, i, |records|);
  }

  lemma {:induction false} WinnerUpTo(kind: Kind, records: seq<Record>, i: nat, n: nat)
    requires !kind.Master? && FirstHighest(records, i)
    requires i < n <= |records|
    ensures HoldsAt(Winners(kind, records[..n]), records[i])
    decreases n
  {
    WinnersStep(kind, records, n - 1);
    if i < n - 1 {
      WinnerUpTo(kind, records, i, n - 1);
      NotDisplaced(kind, Winners(kind, records[..n - 1]), records, i, n - 1);
    } else {
      TakesPlace(kind, Winners(kind, records[..i]), records, i);
    }
  }

  lemma {:induction false} NotDisplaced(kind: Kind, w: map<Key, Record>, records: seq<Record>, i: nat, j: nat)
    requires !kind.Master? && FirstHighest(records, i) && i < j < |records|
    requires HoldsAt(w, records[i])
    ensures HoldsAt(Take(kind, w, records[j]), records[i])
  {
  }

  lemma {:induction false} TakesPlace(kind: Kind, w: map<Key, Record>, records: seq<Record>, i: nat)
    requires !kind.Master? && FirstHighest(records, i)
    requires forall k :: k in w ==> w[k] in records[..i] && w[k].key == k
    ensures HoldsAt(Take(kind, w, records[i]), records[i])
  {
    if records[i].key in w {
      var j :| 0 <= j < i && records[..i][j] == w[records[i].key];
      assert records[j].alterId < records[i].alterId;
    }
  }

  /** No two records of the batch share a key and an alter id. */
  ghost predicate AlterIdsTellApart(records: seq<Record>) {
    forall r, s :: r in records && s in records && r.key == s.key && r.alterId == s.alterId ==> r == s
  }

  /** The stored result does not depend on the order of the batch. */
  lemma {:induction false} WinnersOrderFree(kind: Kind, records: seq<Record>, permuted: seq<Record>)
    requires !kind.Master?
    requires multiset(records) == multiset(permuted)
    requires AlterIdsTellApart(records)
    ensures Winners(kind, records) == Winners(kind, permuted)
  {
    hide Winners, HighestOf, AlterIdsTellApart;
    SameMembers(records, permuted);
    WinnersAreHighest(kind, records);
    WinnersAreHighest(kind, permuted);
    HighestElsewhere(Winners(kind, permuted), permuted, records);
    HighestIsUnique(Winners(kind, records), Winners(kind, permuted), records);
  }

  /** The map has for each key a record of the highest alter id. */
  ghost predicate HighestOf(w: map<Key, Record>, records: seq<Record>) {
    && (forall k :: k in w ==> w[k] in records && w[k].key == k)
    && (forall r :: r in records ==> r.key in w && r.alterId <= w[r.key].alterId)
  }

  lemma {:induction false} WinnersAreHighest(kind: Kind, records: seq<Record>)
    requires !kind.Master?
    ensures HighestOf(Winners(kind, records), records)
  {
  }

  lemma {:induction false} HighestElsewhere(w: map<Key, Record>, records: seq<Record>, others: seq<Record>)
    requires HighestOf(w, records) && forall r :: r in records <==> r in others
    ensures HighestOf(w, others)
  {
  }

  lemma {:induction false} HighestIsUnique(w: map<Key, Record>, v: map<Key, Record>, records: seq<Record>)
    requires HighestOf(w, records) && HighestOf(v, records) && AlterIdsTellApart(records)
    ensures w == v
  {
    forall k | k in w ensures k in v && w[k] == v[k] {
      assert w[k] in records && v[k] in records;
    }
    forall k | k in v ensures k in w {
      assert v[k] in records;
    }
  }

  lemma {:induction false} SameMembers<T>(a: seq<T>, b: seq<T>)
    requires multiset(a) == multiset(b)
    ensures forall x :: x in a <==> x in b
  {
    forall x ensures x in a <==> x in b {
      assert x in a <==> x in multiset(a);
      assert x in b <==> x in multiset(b);
    }
  }
}
