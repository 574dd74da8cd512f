/** What the AlterID filter keeps back, with nothing assumed of the source: when it loses nothing, over
    one sync and over whole runs, and what is lost when a record comes late. */
module AlterIdFilter {
  import opened Wrappers
  import opened Records
  import opened Dedupe
  import opened Pipeline
  import opened PipelineFacts

  /** Every item that an incremental sync would drop is archived as it stands. */
  ghost predicate DroppedAreArchived(st: Stores, items: seq<Item>) {
    forall x :: x in items && 0 < SavedAlterId(st) && x.AlterId() <= SavedAlterId(st) ==> Archived(st.archive, x)
  }

  ghost predicate Archived(archive: Archive, x: Item) {
    x.Guid() in archive && archive[x.Guid()] == x
  }

  /** The stores but for the checkpoint. */
  ghost predicate SameContent(a: Stores, b: Stores) {
    a.entity == b.entity && a.archive == b.archive && a.versions == b.versions
  }

  lemma {:induction false} PassingMeans(items: seq<Item>, alterId: int)
    ensures forall x :: x in Passing(items, alterId, false) <==> x in items && !(0 < alterId && x.AlterId() <= alterId)
  {
  }

  // ----- the archive -----

  lemma {:induction false} ArchivesAgree(archive: Archive, items: seq<Item>, alterId: int)
    requires DistinctGuids(items)
    ensures archive + ByGuid(Passing(items, alterId, false)) == archive + ByGuid(items) <==>
            forall x :: x in items && 0 < alterId && x.AlterId() <= alterId ==> Archived(archive, x)
  {
    var passing := Passing(items, alterId, false);
    PassingMeans(items, alterId);
    DistinctPassing(items, alterId, false);
    ByGuidFinds(items);
    ByGuidFinds(passing);
    AgreeByGuid(archive, items, passing, ByGuid(items), ByGuid(passing));
  }

  ghost predicate Indexes(m: map<Guid, Item>, items: seq<Item>) {
    && (forall g :: g in m ==> m[g] in items && m[g].Guid() == g)
    && (forall x :: x in items ==> x.Guid() in m && m[x.Guid()] == x)
  }

  lemma {:induction false} NotAmong(items: seq<Item>, passing: seq<Item>, m: map<Guid, Item>, x: Item)
    requires Indexes(m, items) && x in items && x !in passing && forall y :: y in passing ==> y in items
    ensures forall y :: y in passing ==> y.Guid() != x.Guid()
  {
    forall y | y in passing ensures y.Guid() != x.Guid() {
      assert m[y.Guid()] == y && m[x.Guid()] == x;
    }
  }

  lemma {:induction false} AgreeByGuid(archive: Archive, items: seq<Item>, passing: seq<Item>, m: map<Guid, Item>, p: map<Guid, Item>)
    requires Indexes(m, items) && Indexes(p, passing) && forall x :: x in passing ==> x in items
    ensures archive + p == archive + m <==> forall x :: x in items && x !in passing ==> Archived(archive, x)
  {
    if archive + p == archive + m {
      forall x | x in items && x !in passing ensures Archived(archive, x) {
        NotAmong(items, passing, m, x);
        assert x.Guid() !in p;
        assert (archive + m)[x.Guid()] == x;
        assert (archive + p)[x.Guid()] == x;
        assert x.Guid() in (archive + p).Keys && (archive + p).Keys == archive.Keys + p.Keys;
        assert archive[x.Guid()] == (archive + p)[x.Guid()];
      }
    }
    if forall x :: x in items && x !in passing ==> Archived(archive, x) {
      forall g | g in m && g !in p ensures g in archive && archive[g] == m[g] {
        assert m[g] !in passing;
      }
      assert forall g :: g in p ==> g in m && m[g] == p[g];
    }
  }

  // ----- the changed items -----

  lemma {:induction false} ChangedSkips(items: seq<Item>, existing: map<Guid, Hash>, alterId: int)
    requires forall x :: x in items && x.AlterId() <= alterId ==> IsUnchanged(existing, x)
    ensures Changed(items, existing) == Changed(Newer(items, alterId), existing)
  {
    if items != [] {
      ChangedSkips(items[1..], existing, alterId);
      assert items[0] in items;
      var rest := Newer(items[1..], alterId);
      if items[0].AlterId() > alterId {
        assert Newer(items, alterId)[1..] == rest;
      } else {
        assert Newer(items, alterId) == rest;
      }
    }
  }

  lemma {:induction false} ChangedElsewhere(items: seq<Item>, a: map<Guid, Hash>, b: map<Guid, Hash>)
    requires forall x :: x in items ==> (IsUnchanged(a, x) <==> IsUnchanged(b, x))
    ensures Changed(items, a) == Changed(items, b)
  {
    if items != [] {
      assert items[0] in items;
      ChangedElsewhere(items[1..], a, b);
    }
  }

  /** When what is dropped is archived, both modes find the same items changed. */
  lemma {:induction false} SameChanged(st: Stores, items: seq<Item>)
    requires DroppedAreArchived(st, items)
    ensures ChangedItems(st, SavedAlterId(st), false, items) == ChangedItems(st, 0, true, items)
  {
    var alterId := SavedAlterId(st);
    if alterId > 0 {
      var passing := Newer(items, alterId);
      var all, some := LatestHashes(st.archive, GuidsOf(items)), LatestHashes(st.archive, GuidsOf(passing));
      LatestHashesMeans(st.archive, items);
      LatestHashesMeans(st.archive, passing);
      hide LatestHashes, Changed, IsUnchanged;
      forall x | x in items && x.AlterId() <= alterId ensures IsUnchanged(all, x) {
        assert Archived(st.archive, x);
      }
      ChangedSkips(items, all, alterId);
      ChangedElsewhere(passing, all, some);
    }
  }

  // ----- one sync -----

  /** With distinct guids, an incremental and a full sync leave the same archive if and only if every item
      that the filter drops is archived as it stands; then entity table and versions agree too. */
  lemma {:induction false} FilterLosesNothingIff(kind: Kind, st: Stores, items: seq<Item>)
    requires DistinctGuids(items)
    requires Sync(kind, st, false, items).Ok? && Sync(kind, st, true, items).Ok?
    ensures var inc, all := Sync(kind, st, false, items).value.0, Sync(kind, st, true, items).value.0;
            && (inc.archive == all.archive <==> DroppedAreArchived(st, items))
            && (SameContent(inc, all) <==> DroppedAreArchived(st, items))
  {
    hide RunFidelity, ChangedItems, Passing, ByGuid, DistinctGuids, Winners, RecordsOf, CreateVersions, NextCheckpoint, TooMany;
    var alterId := SavedAlterId(st);
    FidelityEffect(kind, st, alterId, false, items);
    FidelityEffect(kind, st, 0, true, items);
    ArchivesAgree(st.archive, items, alterId);
    FullPasses(items);
    if DroppedAreArchived(st, items) {
      SameChanged(st, items);
    }
  }

  lemma {:induction false} FullPasses(items: seq<Item>)
    ensures Passing(items, 0, true) == items
  {
  }

  /** When what is dropped is archived, the two modes also fail alike. */
  lemma {:induction false} ModesFailAlike(kind: Kind, st: Stores, items: seq<Item>)
    requires DistinctGuids(items) && DroppedAreArchived(st, items)
    ensures Sync(kind, st, false, items).Ok? <==> Sync(kind, st, true, items).Ok?
  {
    hide RunFidelity, ChangedItems, ByGuid, DistinctGuids, DroppedAreArchived, TooMany, NextCheckpoint, CreateVersions, Passing;
    FidelityEffect(kind, st, SavedAlterId(st), false, items);
    FidelityEffect(kind, st, 0, true, items);
    SameChanged(st, items);
  }

  /** A full sync that succeeds shows that an incremental one would. */
  lemma {:induction false} FullShowsIncremental(kind: Kind, st: Stores, items: seq<Item>)
    requires DistinctGuids(items) && Sync(kind, st, true, items).Ok?
    ensures Sync(kind, st, false, items).Ok?
  {
    hide RunFidelity, ChangedItems, ByGuid, DistinctGuids, TooMany, NextCheckpoint, CreateVersions, Passing, Winners, RecordsOf;
    FidelityEffect(kind, st, SavedAlterId(st), false, items);
    FidelityEffect(kind, st, 0, true, items);
    ChangedItemsMeans(st, SavedAlterId(st), false, items);
    ChangedItemsMeans(st, 0, true, items);
    FewerWinners(kind, ChangedItems(st, SavedAlterId(st), false, items), ChangedItems(st, 0, true, items));
  }

  lemma {:induction false} FewerWinners(kind: Kind, some: seq<Item>, all: seq<Item>)
    requires forall x :: x in some ==> x in all
    requires !TooMany(kind, all)
    ensures !TooMany(kind, some)
  {
    var w, v := Winners(kind, RecordsOf(some)), Winners(kind, RecordsOf(all));
    forall k | k in w ensures k in v {
      var i :| 0 <= i < |some| && RecordsOf(some)[i] == w[k];
      assert some[i] in all;
      var j :| 0 <= j < |all| && all[j] == some[i];
      assert RecordsOf(all)[j] == w[k];
    }
    SubsetSize(w.Keys, v.Keys);
    assert |w.Keys| == |w| && |v.Keys| == |v|;
  }

  /** What passes is archived as it stands. */
  ghost predicate PassingAreArchived(st: Stores, items: seq<Item>) {
    forall x :: x in Passing(items, SavedAlterId(st), false) ==> Archived(st.archive, x)
  }

  /** A successful incremental sync changes nothing but the checkpoint if and only if all that passes is archived. */
  lemma {:induction false} IncrementalIsIdleIff(kind: Kind, st: Stores, items: seq<Item>)
    requires DistinctGuids(items) && Sync(kind, st, false, items).Ok?
    ensures SameContent(Sync(kind, st, false, items).value.0, st) <==> PassingAreArchived(st, items)
  {
    hide RunFidelity, ChangedItems, DistinctGuids, Winners, RecordsOf, CreateVersions, NextCheckpoint, TooMany, ByGuid, Passing;
    var alterId := SavedAlterId(st);
    FidelityEffect(kind, st, alterId, false, items);
    DistinctPassing(items, alterId, false);
    if st.archive + ByGuid(Passing(items, alterId, false)) == st.archive {
      PlusNothing(st.archive, Passing(items, alterId, false));
    }
    if PassingAreArchived(st, items) {
      ArchivedItemsAreIdle(kind, st, alterId, false, items);
    }
  }

  lemma {:induction false} PlusNothing(archive: Archive, items: seq<Item>)
    requires DistinctGuids(items) && archive + ByGuid(items) == archive
    ensures forall x :: x in items ==> Archived(archive, x)
  {
    ByGuidFinds(items);
    hide ByGuid, DistinctGuids;
    forall x | x in items ensures Archived(archive, x) {
      assert (archive + ByGuid(items))[x.Guid()] == x;
    }
  }

  /** For each item of a successful sync of any response: afterwards it is archived as it stands if and only
      if it passed the filter or was so archived before. */
  lemma {:induction false} ExportAgreesIff(kind: Kind, st: Stores, full: bool, items: seq<Item>, x: Item)
    requires DistinctGuids(items) && x in items && Sync(kind, st, full, items).Ok?
    ensures Archived(Sync(kind, st, full, items).value.0.archive, x) <==>
            full || SavedAlterId(st) <= 0 || x.AlterId() > SavedAlterId(st) || Archived(st.archive, x)
  {
    hide Sync;
    if full {
      FullSyncSees(kind, st, items, x);
    } else if SavedAlterId(st) > 0 && x.AlterId() <= SavedAlterId(st) {
      DroppedIsNotSeen(kind, st, items, x);
    } else {
      PassingIsSeen(kind, st, items, x);
    }
  }

  lemma {:induction false} PassingIsSeen(kind: Kind, st: Stores, items: seq<Item>, x: Item)
    requires DistinctGuids(items) && x in items && Sync(kind, st, false, items).Ok?
    requires SavedAlterId(st) <= 0 || x.AlterId() > SavedAlterId(st)
    ensures Archived(Sync(kind, st, false, items).value.0.archive, x)
  {
    hide RunFidelity, ChangedItems, DistinctGuids, Winners, RecordsOf, CreateVersions, MaxAlterId, TooMany, ByGuid, Passing;
    var alterId := SavedAlterId(st);
    FidelityEffect(kind, st, alterId, false, items);
    PassingMeans(items, alterId);
    DistinctPassing(items, alterId, false);
    ByGuidFinds(Passing(items, alterId, false));
  }

  // ----- repeating a sync -----

  /** A sync repeated at once, in either mode, leaves every store, the checkpoint included, and counts
      nothing, if and only if it is not the full one after an incremental one, or else all that the
      incremental one dropped is archived as it stands and the saved checkpoint is the response's maximum. */
  lemma {:induction false} RepeatIsIdleIff(kind: Kind, st: Stores, full: bool, again: bool, items: seq<Item>)
    requires DistinctGuids(items) && Sync(kind, st, full, items).Ok?
    ensures var st' := Sync(kind, st, full, items).value.0;
            Sync(kind, st', again, items) == Ok((st', Counts(0, 0, |Passing(items, StartAlterId(st', again), again)|))) <==>
            (again && !full ==> DroppedAreArchived(st, items) && st'.checkpoint == Some(MaxAlterId(items)))
  {
    hide Sync, DroppedAreArchived, StartAlterId;
    if again ==> full {
      RepeatIsIdle(kind, st, full, again, items);
    } else {
      FullAfterIncremental(kind, st, items);
    }
  }

  lemma {:induction false} FullAfterIncremental(kind: Kind, st: Stores, items: seq<Item>)
    requires DistinctGuids(items) && Sync(kind, st, false, items).Ok?
    ensures var st' := Sync(kind, st, false, items).value.0;
            Sync(kind, st', true, items) == Ok((st', Counts(0, 0, |Passing(items, StartAlterId(st', true), true)|))) <==>
            DroppedAreArchived(st, items) && st'.checkpoint == Some(MaxAlterId(items))
  {
    hide Sync, DistinctGuids, DroppedAreArchived;
    var st' := Sync(kind, st, false, items).value.0;
    AllHeldIff(kind, st, items);
    FullIsIdleIff(kind, st', items);
  }

  lemma {:induction false} AllHeldIff(kind: Kind, st: Stores, items: seq<Item>)
    requires DistinctGuids(items) && Sync(kind, st, false, items).Ok?
    ensures (forall x :: x in items ==> Archived(Sync(kind, st, false, items).value.0.archive, x)) <==> DroppedAreArchived(st, items)
  {
    hide Sync, DistinctGuids;
    forall x | x in items
      ensures Archived(Sync(kind, st, false, items).value.0.archive, x) <==>
              SavedAlterId(st) <= 0 || x.AlterId() > SavedAlterId(st) || Archived(st.archive, x)
    {
      ExportAgreesIff(kind, st, false, items, x);
    }
  }

  lemma {:induction false} FullIsIdleIff(kind: Kind, st: Stores, items: seq<Item>)
    requires DistinctGuids(items)
    ensures Sync(kind, st, true, items) == Ok((st, Counts(0, 0, |Passing(items, StartAlterId(st, true), true)|))) <==>
            (forall x :: x in items ==> Archived(st.archive, x)) && st.checkpoint == Some(MaxAlterId(items))
  {
    hide RunFidelity, ChangedItems, DistinctGuids, Winners, RecordsOf, CreateVersions, MaxAlterId, TooMany, ByGuid, Passing;
    FullPasses(items);
    FidelityEffect(kind, st, 0, true, items);
    if forall x :: x in items ==> Archived(st.archive, x) {
      ArchivedItemsAreIdle(kind, st, 0, true, items);
    } else if st.archive + ByGuid(items) == st.archive {
      PlusNothing(st.archive, items);
    }
  }

  // ----- whole runs -----

  /** The same responses, each synced in full. */
  function InFull(attempts: seq<Attempt>): (fulls: seq<Attempt>)
    ensures |fulls| == |attempts|
    ensures forall i :: 0 <= i < |attempts| ==> fulls[i] == Attempt(true, attempts[i].items)
  {
    seq(|attempts|, i requires 0 <= i < |attempts| => Attempt(true, attempts[i].items))
  }

  /** The attempt leaves what a full one would: it is full; or a full one succeeds and all that the filter
      drops is archived; or a full one fails, and the attempt fails too or changes nothing. */
  ghost predicate Keeps(kind: Kind, st: Stores, a: Attempt) {
    a.full ||
    (if Sync(kind, st, true, a.items).Ok? then DroppedAreArchived(st, a.items)
     else Sync(kind, st, false, a.items).Err? || PassingAreArchived(st, a.items))
  }

  lemma {:induction false} AttemptKeepsIff(kind: Kind, st: Stores, a: Attempt)
    requires DistinctGuids(a.items)
    ensures SameContent(AfterAttempt(kind, st, a), AfterAttempt(kind, st, Attempt(true, a.items))) <==> Keeps(kind, st, a)
  {
    hide Sync, DroppedAreArchived, PassingAreArchived, DistinctGuids;
    if !a.full {
      if Sync(kind, st, true, a.items).Ok? {
        FullShowsIncremental(kind, st, a.items);
        FilterLosesNothingIff(kind, st, a.items);
      } else if Sync(kind, st, false, a.items).Ok? {
        IncrementalIsIdleIff(kind, st, a.items);
      }
    }
  }

  ghost predicate AgreeAt(kind: Kind, st: Stores, attempts: seq<Attempt>, n: nat)
    requires n <= |attempts|
  {
    SameContent(AfterAttempts(kind, st, attempts[..n]), AfterAttempts(kind, st, InFull(attempts)[..n]))
  }

  ghost predicate KeepsAt(kind: Kind, st: Stores, attempts: seq<Attempt>, i: nat)
    requires i < |attempts|
  {
    Keeps(kind, AfterAttempts(kind, st, attempts[..i]), attempts[i])
  }

  /** A run of sync attempts, successful or not, on any responses of distinct guids leaves after each the
      entity table, archive and versions that full syncs alone would leave, if and only if each attempt
      leaves what a full one would. */
  lemma {:induction false} RunLosesNothingIff(kind: Kind, st: Stores, attempts: seq<Attempt>)
    requires forall a :: a in attempts ==> DistinctGuids(a.items)
    ensures (forall n :: 0 <= n <= |attempts| ==> AgreeAt(kind, st, attempts, n)) <==>
            (forall i :: 0 <= i < |attempts| ==> KeepsAt(kind, st, attempts, i))
  {
    hide AgreeAt, KeepsAt, AfterAttempts, DistinctGuids;
    AgreeAtStart(kind, st, attempts);
    forall i | 0 <= i < |attempts|
      ensures AgreeAt(kind, st, attempts, i) ==> (AgreeAt(kind, st, attempts, i + 1) <==> KeepsAt(kind, st, attempts, i))
    {
      assert attempts[i] in attempts;
      if AgreeAt(kind, st, attempts, i) {
        AgreeStep(kind, st, attempts, i);
      }
    }
    if forall i :: 0 <= i < |attempts| ==> KeepsAt(kind, st, attempts, i) {
      for n := 0 to |attempts|
        invariant forall j :: 0 <= j <= n ==> AgreeAt(kind, st, attempts, j)
      {
        assert AgreeAt(kind, st, attempts, n) && KeepsAt(kind, st, attempts, n);
      }
    }
    if forall n :: 0 <= n <= |attempts| ==> AgreeAt(kind, st, attempts, n) {
      forall i | 0 <= i < |attempts| ensures KeepsAt(kind, st, attempts, i) {
        assert AgreeAt(kind, st, attempts, i) && AgreeAt(kind, st, attempts, i + 1);
      }
    }
  }

  lemma {:induction false} AgreeAtStart(kind: Kind, st: Stores, attempts: seq<Attempt>)
    ensures AgreeAt(kind, st, attempts, 0)
  {
    assert attempts[..0] == [] && InFull(attempts)[..0] == [];
  }

  lemma {:induction false} AgreeStep(kind: Kind, st: Stores, attempts: seq<Attempt>, i: nat)
    requires i < |attempts| && AgreeAt(kind, st, attempts, i) && DistinctGuids(attempts[i].items)
    ensures AgreeAt(kind, st, attempts, i + 1) <==> KeepsAt(kind, st, attempts, i)
  {
    hide Sync, AfterAttempts, AfterAttempt, Keeps, DistinctGuids;
    var a, b := AfterAttempts(kind, st, attempts[..i]), AfterAttempts(kind, st, InFull(attempts)[..i]);
    AttemptsStep(kind, st, attempts, i);
    AttemptsStep(kind, st, InFull(attempts), i);
    FullAttemptElsewhere(kind, a, b, attempts[i].items);
    AttemptKeepsIff(kind, a, attempts[i]);
  }

  lemma {:induction false} FullAttemptElsewhere(kind: Kind, a: Stores, b: Stores, items: seq<Item>)
    requires SameContent(a, b)
    ensures SameContent(AfterAttempt(kind, a, Attempt(true, items)), AfterAttempt(kind, b, Attempt(true, items)))
  {
    hide Sync;
    FullIgnoresCheckpoint(kind, a, b, items);
  }

  /** What a full sync does to the content does not depend on the checkpoint. */
  lemma {:induction false} FullIgnoresCheckpoint(kind: Kind, a: Stores, b: Stores, items: seq<Item>)
    requires SameContent(a, b)
    ensures var x, y := Sync(kind, a, true, items), Sync(kind, b, true, items);
            (x.Ok? <==> y.Ok?) && (x.Ok? ==> SameContent(x.value.0, y.value.0))
  {
    hide Passing, LatestHashes, Changed, Unchanged, UpsertEntities, UpsertArchive, CreateVersions, CountKnown, NextCheckpoint;
  }

  // ----- late records -----

  /** An item at or below a positive checkpoint is not seen, however it differs from the archive: a voucher
      dated after the earlier exports, or a closing balance that no edit of the ledger stamps. */
  lemma {:induction false} DroppedIsNotSeen(kind: Kind, st: Stores, items: seq<Item>, x: Item)
    requires DistinctGuids(items) && x in items && 0 < SavedAlterId(st) && x.AlterId() <= SavedAlterId(st)
    requires Sync(kind, st, false, items).Ok?
    ensures var inc := Sync(kind, st, false, items).value.0;
            && SavedAlterId(inc) >= SavedAlterId(st)
            && (x.Guid() in inc.archive <==> x.Guid() in st.archive)
            && (x.Guid() in st.archive ==> inc.archive[x.Guid()] == st.archive[x.Guid()])
  {
    hide RunFidelity, ChangedItems, Winners, RecordsOf, CreateVersions, MaxAlterId, Passing, TooMany, ByGuid, DistinctGuids;
    FidelityEffect(kind, st, SavedAlterId(st), false, items);
    DroppedDoesNotPass(items, SavedAlterId(st), x);
  }

  lemma {:induction false} DroppedDoesNotPass(items: seq<Item>, alterId: int, x: Item)
    requires DistinctGuids(items) && x in items && 0 < alterId && x.AlterId() <= alterId
    ensures x.Guid() !in ByGuid(Passing(items, alterId, false))
  {
    hide Passing, ByGuid, DistinctGuids;
    ByGuidFinds(items);
    PassingMeans(items, alterId);
    NotAmong(items, Passing(items, alterId, false), ByGuid(items), x);
  }

  /** A full sync archives it. */
  lemma {:induction false} FullSyncSees(kind: Kind, st: Stores, items: seq<Item>, x: Item)
    requires DistinctGuids(items) && x in items
    requires Sync(kind, st, true, items).Ok?
    ensures Archived(Sync(kind, st, true, items).value.0.archive, x)
  {
    hide RunFidelity, ChangedItems, Winners, RecordsOf, CreateVersions, MaxAlterId;
    FidelityEffect(kind, st, 0, true, items);
    ByGuidFinds(items);
  }

  /** While the source does not give x a new alter id, no run of incremental syncs sees it. */
  lemma {:induction false} NeverSeen(kind: Kind, st: Stores, later: seq<Attempt>, x: Item)
    requires 0 < SavedAlterId(st) && x.AlterId() <= SavedAlterId(st)
    requires forall a :: a in later ==> !a.full && DistinctGuids(a.items) && x in a.items
    ensures var end := AfterAttempts(kind, st, later);
            && SavedAlterId(end) >= SavedAlterId(st)
            && (x.Guid() in end.archive <==> x.Guid() in st.archive)
            && (x.Guid() in st.archive ==> end.archive[x.Guid()] == st.archive[x.Guid()])
  {
    hide Sync, DistinctGuids;
    if later != [] {
      var n := |later| - 1;
      assert later[n] in later && forall a :: a in later[..n] ==> a in later;
      NeverSeen(kind, st, later[..n], x);
      var before := AfterAttempts(kind, st, later[..n]);
      if Sync(kind, before, false, later[n].items).Ok? {
        DroppedIsNotSeen(kind, before, later[n].items, x);
      }
    }
  }

  function Bill(guid: Guid, number: string, alterId: int, hash: Hash): Item {
    Item(Element(Record(guid, Key(number, "Sales"), alterId, map[], VoucherChildren([], [], [])), map[]), hash)
  }

  /** Voucher 1 is entered first, under alter id 5, but dated tomorrow; voucher 2, under alter id 6, is
      dated today and synced.  From tomorrow on exports list both.  No number of incremental syncs ever
      stores voucher 1; any full sync does. */
  lemma {:induction false} PostDatedVoucherIsNotSeen(later: seq<Attempt>)
    requires forall a :: a in later ==> a == Attempt(false, [Bill("a", "1", 5, "h5"), Bill("b", "2", 6, "h6")])
    ensures
      var first := Sync(Voucher, Stores(map[], map[], map[], None), false, [Bill("b", "2", 6, "h6")]);
      && first.Ok?
      && SavedAlterId(first.value.0) == 6
      && var end := AfterAttempts(Voucher, first.value.0, later);
      && "a" !in end.archive
      && var all := Sync(Voucher, end, true, [Bill("a", "1", 5, "h5"), Bill("b", "2", 6, "h6")]);
      && all.Ok?
      && Archived(all.value.0.archive, Bill("a", "1", 5, "h5"))
  {
    var a, b := Bill("a", "1", 5, "h5"), Bill("b", "2", 6, "h6");
    hide Sync, AfterAttempts, DistinctGuids;
    var st := FirstBill(b);
    BothListed(a, b);
    NeverSeen(Voucher, st, later, a);
    var end := AfterAttempts(Voucher, st, later);
    TwoBills(end, [a, b]);
    FullSyncSees(Voucher, end, [a, b], a);
  }

  lemma {:induction false} BothListed(a: Item, b: Item)
    requires a.Guid() != b.Guid()
    ensures DistinctGuids([a, b]) && a in [a, b]
  {
  }

  lemma {:induction false} TwoBills(st: Stores, items: seq<Item>)
    requires DistinctGuids(items) && |items| <= 2
    ensures Sync(Voucher, st, true, items).Ok?
  {
    hide RunFidelity, ByGuid, DistinctGuids, Winners, RecordsOf, CreateVersions, NextCheckpoint, TooMany, Changed, Unchanged, LatestHashes;
    FidelityEffect(Voucher, st, 0, true, items);
    PartitionCounts(items, LatestHashes(st.archive, GuidsOf(items)));
    FullPasses(items);
    SmallBatch(Voucher, ChangedItems(st, 0, true, items));
  }

  lemma {:induction false} FirstBill(b: Item) returns (st: Stores)
    requires b.AlterId() == 6
    ensures Sync(Voucher, Stores(map[], map[], map[], None), false, [b]).Ok?
    ensures st == Sync(Voucher, Stores(map[], map[], map[], None), false, [b]).value.0
    ensures st.archive == map[b.Guid() := b] && st.checkpoint == Some(6)
  {
    hide RunFidelity, Winners, RecordsOf, CreateVersions, Changed, LatestHashes, TooMany, ChangedItems, ByGuid, DistinctGuids;
    var st0 := Stores(map[], map[], map[], None);
    OneBill(st0, b);
    FidelityEffect(Voucher, st0, 0, false, [b]);
    SmallBatch(Voucher, ChangedItems(st0, 0, false, [b]));
    st := Sync(Voucher, st0, false, [b]).value.0;
  }

  lemma {:induction false} OneBill(st: Stores, b: Item)
    requires st.archive == map[]
    ensures |ChangedItems(st, 0, false, [b])| == 1
    ensures DistinctGuids([b]) && st.archive + ByGuid([b]) == map[b.Guid() := b]
  {
    PartitionCounts([b], LatestHashes(st.archive, GuidsOf([b])));
    NoneKnown([b], LatestHashes(st.archive, GuidsOf([b])));
  }

  lemma {:induction false} NoneKnown(items: seq<Item>, existing: map<Guid, Hash>)
    requires existing == map[]
    ensures Unchanged(items, existing) == []
  {
    if items != [] {
      NoneKnown(items[1..], existing);
    }
  }
}
