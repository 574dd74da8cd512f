/** Which record a key is left with after one sync, with nothing assumed of the stores or of the source. */
module KeyWinners {
  import opened Wrappers
  import opened Records
  import opened Statements
  import opened Dedupe
  import opened Pipeline
  import opened PipelineFacts
  import opened AlterIdFilter

  // ----- winners of a batch and of a part of it -----

  /** `part` is what some elements of `whole` leave when the others are dropped. */
  ghost predicate IsPart<T>(part: seq<T>, whole: seq<T>) {
    if whole == [] then part == []
    else
      var n := |whole| - 1;
      || IsPart(part, whole[..n])
      || (part != [] && part[|part| - 1] == whole[n] && IsPart(part[..|part| - 1], whole[..n]))
  }

  lemma {:induction false} PartIsAmong<T>(part: seq<T>, whole: seq<T>)
    requires IsPart(part, whole)
    ensures forall x :: x in part ==> x in whole
  {
    if whole != [] {
      var n := |whole| - 1;
      assert whole == whole[..n] + [whole[n]];
      if IsPart(part, whole[..n]) {
        PartIsAmong(part, whole[..n]);
      } else {
        PartIsAmong(part[..|part| - 1], whole[..n]);
        assert part == part[..|part| - 1] + [part[|part| - 1]];
      }
    }
  }

  lemma {:induction false} PartsJoin<T>(a: seq<T>, b: seq<T>, c: seq<T>, d: seq<T>)
    requires IsPart(a, c) && IsPart(b, d)
    ensures IsPart(a + b, c + d)
    decreases |d|
  {
    if d == [] {
      assert a + b == a && c + d == c;
    } else {
      var n := |d| - 1;
      assert (c + d)[..|c + d| - 1] == c + d[..n] && (c + d)[|c + d| - 1] == d[n];
      if IsPart(b, d[..n]) {
        PartsJoin(a, b, c, d[..n]);
      } else {
        PartsJoin(a, b[..|b| - 1], c, d[..n]);
        assert (a + b)[..|a + b| - 1] == a + b[..|b| - 1];
      }
    }
  }

  lemma {:induction false} PartOfOne<T>(x: T)
    ensures IsPart([], [x]) && IsPart([x], [x])
  {
    assert [x][..0] == [];
    assert IsPart<T>([], []);
  }

  lemma {:induction false} WinnersSnoc(kind: Kind, records: seq<Record>, r: Record)
    ensures Winners(kind, records + [r]) == Take(kind, Winners(kind, records), r)
  {
    var all := records + [r];
    assert all[..|records|] == records && all[..|all|] == all;
    WinnersStep(kind, all, |records|);
  }

  /** If the winner of the whole batch is in the part, it wins there. */
  lemma {:induction false} WinnerOfPart(kind: Kind, part: seq<Record>, whole: seq<Record>, k: Key)
    requires IsPart(part, whole) && Distinct(whole)
    requires k in Winners(kind, whole) && Winners(kind, whole)[k] in part
    ensures k in Winners(kind, part) && Winners(kind, part)[k] == Winners(kind, whole)[k]
    decreases |whole|
  {
    hide Winners, Take, Distinct;
    PartIsAmong(part, whole);
    var n := |whole| - 1;
    var prefix, r := whole[..n], whole[n];
    assert whole == prefix + [r];
    LastIsApart(prefix, r);
    if IsPart(part, prefix) {
      PartIsAmong(part, prefix);
      WinnerBefore(kind, prefix, r, k);
      WinnerOfPart(kind, part, prefix, k);
    } else {
      var rest := part[..|part| - 1];
      assert part == rest + [r];
      PartIsAmong(rest, prefix);
      if Winners(kind, whole)[k] != r {
        WinnerBefore(kind, prefix, r, k);
        WinnerOfPart(kind, rest, prefix, k);
        WinnerAlike(kind, rest, prefix, r, k);
      } else {
        LastWins(kind, rest, prefix, r, k);
      }
    }
  }

  lemma {:induction false} WinnerBefore(kind: Kind, prefix: seq<Record>, r: Record, k: Key)
    requires k in Winners(kind, prefix + [r]) && Winners(kind, prefix + [r])[k] != r
    ensures k in Winners(kind, prefix) && Winners(kind, prefix + [r])[k] == Winners(kind, prefix)[k]
  {
    hide Winners;
    WinnersSnoc(kind, prefix, r);
  }

  lemma {:induction false} WinnerAlike(kind: Kind, rest: seq<Record>, prefix: seq<Record>, r: Record, k: Key)
    requires k in Winners(kind, prefix) && k in Winners(kind, rest) && Winners(kind, rest)[k] == Winners(kind, prefix)[k]
    ensures k in Winners(kind, prefix + [r]) && k in Winners(kind, rest + [r])
    ensures Winners(kind, rest + [r])[k] == Winners(kind, prefix + [r])[k]
  {
    hide Winners;
    WinnersSnoc(kind, prefix, r);
    WinnersSnoc(kind, rest, r);
  }

  lemma {:induction false} LastIsApart<T>(prefix: seq<T>, r: T)
    requires Distinct(prefix + [r])
    ensures Distinct(prefix) && r !in prefix
  {
    var whole := prefix + [r];
    forall i | 0 <= i < |prefix| ensures prefix[i] != r {
      assert whole[i] != whole[|prefix|];
    }
    forall i, j | 0 <= i < j < |prefix| ensures prefix[i] != prefix[j] {
      assert whole[i] != whole[j];
    }
  }

  /** A record that wins over all before it wins over any part of them. */
  lemma {:induction false} LastWins(kind: Kind, rest: seq<Record>, prefix: seq<Record>, r: Record, k: Key)
    requires forall x :: x in rest ==> x in prefix
    requires r !in prefix && k in Winners(kind, prefix + [r]) && Winners(kind, prefix + [r])[k] == r
    ensures k in Winners(kind, rest + [r]) && Winners(kind, rest + [r])[k] == r
  {
    WinnersSnoc(kind, prefix, r);
    WinnersSnoc(kind, rest, r);
    var w, u := Winners(kind, prefix), Winners(kind, rest);
    assert r.key == k;
    if k in u {
      assert u[k] in prefix && k in w && w[k] in prefix;
    }
  }

  // ----- the changed items are a part of the response -----

  lemma {:induction false} NewerIsPart(items: seq<Item>, alterId: int)
    ensures IsPart(Newer(items, alterId), items)
  {
    if items != [] {
      NewerIsPart(items[1..], alterId);
      PartOfOne(items[0]);
      assert items == [items[0]] + items[1..];
      var head := if items[0].AlterId() > alterId then [items[0]] else [];
      hide IsPart, Newer;
      PartsJoin(head, Newer(items[1..], alterId), [items[0]], items[1..]);
    }
  }

  lemma {:induction false} ChangedIsPart(items: seq<Item>, existing: map<Guid, Hash>)
    ensures IsPart(Changed(items, existing), items)
  {
    if items != [] {
      ChangedIsPart(items[1..], existing);
      PartOfOne(items[0]);
      assert items == [items[0]] + items[1..];
      var head := if IsUnchanged(existing, items[0]) then [] else [items[0]];
      hide IsPart, IsUnchanged;
      PartsJoin(head, Changed(items[1..], existing), [items[0]], items[1..]);
    }
  }

  lemma {:induction false} PartOfPart<T>(a: seq<T>, b: seq<T>, c: seq<T>)
    requires IsPart(a, b) && IsPart(b, c)
    ensures IsPart(a, c)
    decreases |c|
  {
    if c != [] {
      var n := |c| - 1;
      if IsPart(b, c[..n]) {
        PartOfPart(a, b, c[..n]);
      } else if IsPart(a, b[..|b| - 1]) {
        PartOfPart(a, b[..|b| - 1], c[..n]);
      } else {
        PartOfPart(a[..|a| - 1], b[..|b| - 1], c[..n]);
      }
    }
  }

  lemma {:induction false} PartIsPart<T>(a: seq<T>)
    ensures IsPart(a, a)
  {
    if a != [] {
      PartIsPart(a[..|a| - 1]);
    }
  }

  lemma {:induction false} RecordsArePart(part: seq<Item>, whole: seq<Item>)
    requires IsPart(part, whole)
    ensures IsPart(RecordsOf(part), RecordsOf(whole))
    decreases |whole|
  {
    if whole == [] {
      assert RecordsOf(part) == [] && RecordsOf(whole) == [];
    } else {
      var n := |whole| - 1;
      assert RecordsOf(whole)[..n] == RecordsOf(whole[..n]);
      if IsPart(part, whole[..n]) {
        RecordsArePart(part, whole[..n]);
      } else {
        RecordsArePart(part[..|part| - 1], whole[..n]);
        assert RecordsOf(part)[..|part| - 1] == RecordsOf(part[..|part| - 1]);
      }
    }
  }

  lemma {:induction false} ChangedItemsArePart(st: Stores, alterId: int, full: bool, items: seq<Item>)
    ensures IsPart(RecordsOf(ChangedItems(st, alterId, full, items)), RecordsOf(items))
  {
    var passing := Passing(items, alterId, full);
    var existing := LatestHashes(st.archive, GuidsOf(passing));
    NewerIsPart(items, alterId);
    PartIsPart(items);
    ChangedIsPart(passing, existing);
    hide IsPart, Newer, Changed, LatestHashes;
    PartOfPart(Changed(passing, existing), passing, items);
    RecordsArePart(Changed(passing, existing), items);
  }

  // ----- one sync -----

  /** What upserting the whole response would leave the key with. */
  ghost function WinnerOf(kind: Kind, items: seq<Item>, k: Key): Record
    requires k in Winners(kind, RecordsOf(items))
  {
    Winners(kind, RecordsOf(items))[k]
  }

  /** The winner is upserted, or nothing under its key is and its row is there already. */
  ghost predicate WinnerStands(kind: Kind, st: Stores, full: bool, items: seq<Item>, k: Key)
    requires k in Winners(kind, RecordsOf(items))
  {
    var changed, winner := ChangedItems(st, StartAlterId(st, full), full, items), WinnerOf(kind, items, k);
    || (exists x :: x in changed && x.element.record == winner)
    || ((forall x :: x in changed ==> x.Key() != k) && k in st.entity && st.entity[k] == winner)
  }

  /** For any stores, any mode and any response of distinct guids: after the sync a key of the response
      holds the response's winner if and only if the winner is itself new or changed, or nothing under the
      key is and the winner's row was there before. */
  lemma {:induction false} RowAfterSyncIff(kind: Kind, st: Stores, full: bool, items: seq<Item>, k: Key)
    requires DistinctGuids(items) && Sync(kind, st, full, items).Ok?
    requires k in Winners(kind, RecordsOf(items))
    ensures var entity := Sync(kind, st, full, items).value.0.entity;
            (k in entity && entity[k] == WinnerOf(kind, items, k)) <==> WinnerStands(kind, st, full, items, k)
  {
    hide RunFidelity, ChangedItems, IsPart, Winners, RecordsOf, DistinctGuids, TooMany, CreateVersions, ByGuid, Passing, NextCheckpoint;
    var alterId := StartAlterId(st, full);
    var changed := ChangedItems(st, alterId, full, items);
    FidelityEffect(kind, st, alterId, full, items);
    NovelRow(kind, st, alterId, full, items, k);
  }

  lemma {:induction false} NovelRow(kind: Kind, st: Stores, alterId: int, full: bool, items: seq<Item>, k: Key)
    requires DistinctGuids(items) && k in Winners(kind, RecordsOf(items))
    ensures var changed := ChangedItems(st, alterId, full, items);
            var novel := Winners(kind, RecordsOf(changed));
            && (k in novel <==> exists x :: x in changed && x.Key() == k)
            && (k in novel ==> (novel[k] == WinnerOf(kind, items, k) <==>
                                exists x :: x in changed && x.element.record == WinnerOf(kind, items, k)))
            && WinnerOf(kind, items, k).key == k
  {
    hide ChangedItems, IsPart;
    var changed := ChangedItems(st, alterId, full, items);
    var novel, winner := Winners(kind, RecordsOf(changed)), WinnerOf(kind, items, k);
    RecordsMeans(changed);
    DistinctRecords(items);
    ChangedItemsArePart(st, alterId, full, items);
    hide RecordsOf, Winners, DistinctGuids;
    if winner in RecordsOf(changed) {
      WinnerOfPart(kind, RecordsOf(changed), RecordsOf(items), k);
    }
  }

  lemma {:induction false} DistinctRecords(items: seq<Item>)
    requires DistinctGuids(items)
    ensures Distinct(RecordsOf(items))
  {
    forall i, j | 0 <= i < j < |items| ensures RecordsOf(items)[i] != RecordsOf(items)[j] {
      assert items[i].Guid() != items[j].Guid();
    }
  }

  // ----- whole runs -----

  /** Every key of the response holds the winner of the response. */
  ghost predicate HoldsWinners(kind: Kind, entity: map<Key, Record>, items: seq<Item>) {
    forall k :: k in Winners(kind, RecordsOf(items)) ==> k in entity && entity[k] == WinnerOf(kind, items, k)
  }

  /** Over any run of syncs of any responses, after each that succeeds every listed key holds the winner of
      the response if and only if for each key the winner stood. */
  lemma {:induction false} WinnersAfterEverySyncIff(kind: Kind, st: Stores, attempts: seq<Attempt>, i: nat)
    requires i < |attempts| && DistinctGuids(attempts[i].items)
    requires Sync(kind, AfterAttempts(kind, st, attempts[..i]), attempts[i].full, attempts[i].items).Ok?
    ensures var before, a := AfterAttempts(kind, st, attempts[..i]), attempts[i];
            HoldsWinners(kind, AfterAttempts(kind, st, attempts[..i + 1]).entity, a.items) <==>
            forall k :: k in Winners(kind, RecordsOf(a.items)) ==> WinnerStands(kind, before, a.full, a.items, k)
  {
    hide Sync, WinnerStands, Winners, RecordsOf, AfterAttempts, DistinctGuids;
    var before, a := AfterAttempts(kind, st, attempts[..i]), attempts[i];
    AttemptsStep(kind, st, attempts, i);
    forall k | k in Winners(kind, RecordsOf(a.items))
      ensures var entity := AfterAttempts(kind, st, attempts[..i + 1]).entity;
              (k in entity && entity[k] == WinnerOf(kind, a.items, k)) <==> WinnerStands(kind, before, a.full, a.items, k)
    {
      RowAfterSyncIff(kind, before, a.full, a.items, k);
    }
  }

  // ----- a late voucher overwrites a newer one -----

  const LATE: Item := Bill("a", "1", 5, "h5")
  const NEWER: Item := Bill("b", "1", 6, "h6")
  const SHARED: Key := Key("1", "Sales")

  ghost predicate ListsBoth(items: seq<Item>) {
    DistinctGuids(items) && ByGuid(items) == map["a" := LATE, "b" := NEWER]
  }

  /** Two vouchers share number and type.  The older one, under alter id 5, is dated tomorrow; the newer one
      is synced today.  Tomorrow's full sync finds only the older one new, upserts it alone and so replaces
      the newer one's row, where upserting everything keeps it.  No later sync of the two, incremental or
      full, puts it back. */
  lemma {:induction false} LateVoucherOverwrites(later: seq<Attempt>)
    requires forall a :: a in later ==> ListsBoth(a.items)
    ensures
      var first := Sync(Voucher, Stores(map[], map[], map[], None), false, [NEWER]);
      && first.Ok?
      && var legacy, all := LegacySync(Voucher, first.value.0, true, [LATE, NEWER]), Sync(Voucher, first.value.0, true, [LATE, NEWER]);
      && legacy.Ok? && SHARED in legacy.value.0.entity && legacy.value.0.entity[SHARED] == NEWER.element.record
      && all.Ok?
      && var end := AfterAttempts(Voucher, all.value.0, later);
      && SHARED in end.entity && end.entity[SHARED] == LATE.element.record
  {
    hide Sync, LegacySync, AfterAttempts, ListsBoth;
    var st := FirstBill(NEWER);
    LegacyKeepsNewer(st);
    var all := LateReplacesNewer(st);
    StaysOverwritten(all, later);
  }

  lemma {:induction false} LegacyKeepsNewer(st: Stores)
    ensures var legacy := LegacySync(Voucher, st, true, [LATE, NEWER]);
            legacy.Ok? && SHARED in legacy.value.0.entity && legacy.value.0.entity[SHARED] == NEWER.element.record
  {
    hide Winners, RecordsOf, MaxAlterId;
    NewerWins();
    SmallBatch(Voucher, [LATE, NEWER]);
  }

  lemma {:induction false} NewerWins()
    ensures var w := Winners(Voucher, RecordsOf([LATE, NEWER])); SHARED in w && w[SHARED] == NEWER.element.record
  {
    var records := RecordsOf([LATE, NEWER]);
    assert records == [LATE.element.record] + [NEWER.element.record];
    WinnersSnoc(Voucher, [LATE.element.record], NEWER.element.record);
    assert LATE.element.record in [LATE.element.record];
    var w := Winners(Voucher, [LATE.element.record]);
    assert w[SHARED] in [LATE.element.record];
    hide Winners;
  }

  lemma {:induction false} LateReplacesNewer(st: Stores) returns (all: Stores)
    requires st.archive == map["b" := NEWER]
    ensures Sync(Voucher, st, true, [LATE, NEWER]).Ok? && all == Sync(Voucher, st, true, [LATE, NEWER]).value.0
    ensures IsOverwritten(all)
  {
    hide RunFidelity, ByGuid, DistinctGuids, Winners, RecordsOf, CreateVersions, NextCheckpoint, TooMany, ChangedItems, Passing;
    BothDistinct();
    TwoBills(st, [LATE, NEWER]);
    FidelityEffect(Voucher, st, 0, true, [LATE, NEWER]);
    FullPasses([LATE, NEWER]);
    OnlyLateChanged(st);
    LateWins(ChangedItems(st, 0, true, [LATE, NEWER]));
    all := Sync(Voucher, st, true, [LATE, NEWER]).value.0;
  }

  lemma {:induction false} BothDistinct()
    ensures DistinctGuids([LATE, NEWER])
    ensures map["b" := NEWER] + ByGuid([LATE, NEWER]) == map["a" := LATE, "b" := NEWER]
  {
    assert [LATE, NEWER][1..] == [NEWER];
    assert ByGuid([NEWER]) == map["b" := NEWER];
  }

  lemma {:induction false} OnlyLateChanged(st: Stores)
    requires st.archive == map["b" := NEWER]
    ensures var changed := ChangedItems(st, 0, true, [LATE, NEWER]);
            LATE in changed && forall x :: x in changed ==> x == LATE
  {
    ChangedItemsMeans(st, 0, true, [LATE, NEWER]);
    hide ChangedItems;
    assert LATE in [LATE, NEWER];
  }

  lemma {:induction false} LateWins(changed: seq<Item>)
    requires LATE in changed && forall x :: x in changed ==> x == LATE
    ensures var w := Winners(Voucher, RecordsOf(changed)); SHARED in w && w[SHARED] == LATE.element.record
  {
    RecordsMeans(changed);
    hide RecordsOf;
    assert LATE.element.record in RecordsOf(changed);
  }

  ghost predicate IsOverwritten(st: Stores) {
    && st.archive == map["a" := LATE, "b" := NEWER]
    && SHARED in st.entity && st.entity[SHARED] == LATE.element.record
  }

  lemma {:induction false} StaysOverwritten(st: Stores, later: seq<Attempt>)
    requires IsOverwritten(st) && forall a :: a in later ==> ListsBoth(a.items)
    ensures IsOverwritten(AfterAttempts(Voucher, st, later))
  {
    hide IsOverwritten, ListsBoth, AfterAttempt;
    if later != [] {
      var n := |later| - 1;
      assert later[n] in later && forall a :: a in later[..n] ==> a in later;
      StaysOverwritten(st, later[..n]);
      AttemptIsIdle(AfterAttempts(Voucher, st, later[..n]), later[n]);
    }
  }

  lemma {:induction false} AttemptIsIdle(st: Stores, a: Attempt)
    requires IsOverwritten(st) && ListsBoth(a.items)
    ensures IsOverwritten(AfterAttempt(Voucher, st, a))
  {
    hide RunFidelity, ByGuid, DistinctGuids, MaxAlterId, NextCheckpoint, Passing;
    var alterId := StartAlterId(st, a.full);
    PassingArchived(st, alterId, a.full, a.items);
    ArchivedItemsAreIdle(Voucher, st, alterId, a.full, a.items);
  }

  lemma {:induction false} PassingArchived(st: Stores, alterId: int, full: bool, items: seq<Item>)
    requires IsOverwritten(st) && ListsBoth(items)
    ensures forall x :: x in Passing(items, alterId, full) ==> x.Guid() in st.archive && st.archive[x.Guid()] == x
  {
    ByGuidFinds(items);
    hide ByGuid, DistinctGuids;
    assert forall x :: x in Passing(items, alterId, full) ==> x in items;
  }
}
