/** Agreement without stable digests.  The raw bytes of an element include what the parser has read after
    it, so an unedited record may bear another hash in the next export.  All that is assumed here is that
    a hash belongs to one element. */
module Redigest {
  import opened Records
  import opened Dedupe
  import opened Pipeline
  import opened PipelineFacts
  import opened Protocol

  /** The source by guid, the stores, the sync in progress, and the highest alter id that a committed sync
      has exported. */
  datatype Place = Place(live: map<Guid, Element>, stores: Stores, phase: Phase, horizon: nat)

  /** `origin` gives the element that a hash belongs to; an element may have many. */
  type Origin = Hash -> Element

  // ----- steps -----

  ghost predicate OfOrigin(origin: Origin, items: seq<Item>) {
    forall x :: x in items ==> origin(x.hash) == x.element
  }

  /** An export lists every live element once, under any of its hashes. */
  ghost predicate Lists(items: seq<Item>, live: map<Guid, Element>) {
    && DistinctGuids(items)
    && (forall x :: x in items ==> x.Guid() in live && live[x.Guid()] == x.element)
    && (forall g :: g in live ==> exists x :: x in items && x.Guid() == g)
  }

  ghost predicate Next(kind: Kind, origin: Origin, s: Place, event: Event, s': Place) {
    match event
    case Put(e) =>
      && e.record.alterId > Exported(s)
      && (forall g :: g in s.live && g != e.record.guid ==> s.live[g].record.key != e.record.key)
      && s' == s.(live := s.live[e.record.guid := e])
    case Delete(g) =>
      g in s.live && s' == s.(live := s.live - {g})
    case Begin(full) =>
      s.phase.Idle? && s' == s.(phase := Begun(full, StartAlterId(s.stores, full)))
    case Fetch(items) =>
      && s.phase.Begun? && Lists(items, s.live) && OfOrigin(origin, items)
      && s' == s.(phase := Fetched(s.phase.full, s.phase.alterId, items, Max(s.horizon, MaxAlterId(items))))
    case Commit =>
      && s.phase.Fetched?
      && var r := SyncFrom(kind, s.stores, s.phase.alterId, s.phase.full, s.phase.items);
         r.Ok? && s' == Place(s.live, r.value.0, Idle, s.phase.at)
    case Abort =>
      !s.phase.Idle? && s' == s.(phase := Idle)
  }

  function Exported(s: Place): nat {
    match s.phase
    case Fetched(_, _, _, at) => at
    case _ => s.horizon
  }

  ghost predicate IsRun(kind: Kind, origin: Origin, run: seq<Place>, events: seq<Event>) {
    && |run| == |events| + 1
    && run[0] == Place(map[], NO_STORES, Idle, 0)
    && forall i :: 0 <= i < |events| ==> Next(kind, origin, run[i], events[i], run[i + 1])
  }

  // ----- the invariant -----

  /** Elements by guid, stamped, each with a key of its own. */
  ghost predicate LiveOk(live: map<Guid, Element>) {
    && (forall g :: g in live ==> live[g].record.guid == g && live[g].record.alterId >= 1)
    && (forall g, h :: g in live && h in live && g != h ==> live[g].record.key != live[h].record.key)
  }

  /** What is archived was exported. */
  ghost predicate ArchiveIsOld(origin: Origin, archive: Archive, horizon: nat) {
    forall g :: g in archive ==> archive[g].AlterId() <= horizon && origin(archive[g].hash) == archive[g].element
  }

  /** The element is archived and its row stands under its key. */
  ghost predicate Stands(st: Stores, g: Guid, e: Element) {
    && g in st.archive && st.archive[g].element == e
    && e.record.key in st.entity && st.entity[e.record.key] == e.record
  }

  ghost predicate AllStand(st: Stores, horizon: nat, live: map<Guid, Element>) {
    forall g :: g in live && live[g].record.alterId <= horizon ==> Stands(st, g, live[g])
  }

  ghost predicate KeysApart(items: seq<Item>) {
    forall x, y :: x in items && y in items && x.Key() == y.Key() ==> x == y
  }

  /** What is live at or below the export's highest alter id is in it. */
  ghost predicate StillListed(items: seq<Item>, at: nat, live: map<Guid, Element>) {
    forall g :: g in live && live[g].record.alterId <= at ==> exists x :: x in items && x.Guid() == g && x.element == live[g]
  }

  ghost predicate ExportOk(origin: Origin, items: seq<Item>, at: nat) {
    && DistinctGuids(items) && OfOrigin(origin, items) && KeysApart(items)
    && forall x :: x in items ==> 1 <= x.AlterId() <= at
  }

  ghost predicate PlaceOk(origin: Origin, s: Place) {
    && LiveOk(s.live)
    && 0 <= SavedAlterId(s.stores) <= s.horizon
    && ArchiveIsOld(origin, s.stores.archive, s.horizon)
    && AllStand(s.stores, s.horizon, s.live)
    && match s.phase
       case Idle => true
       case Begun(_, alterId) => alterId <= s.horizon
       case Fetched(_, alterId, items, at) =>
         alterId <= s.horizon <= at && ExportOk(origin, items, at) && StillListed(items, at, s.live)
  }

  // ----- commit -----

  /** An item above the horizon passes and is found changed. */
  lemma {:induction false} NewIsChanged(origin: Origin, st: Stores, horizon: nat, alterId: int, full: bool, items: seq<Item>, x: Item)
    requires ArchiveIsOld(origin, st.archive, horizon) && OfOrigin(origin, items)
    requires x in items && x.AlterId() > horizon && alterId <= horizon
    ensures x in ChangedItems(st, alterId, full, items) && x in Passing(items, alterId, full)
  {
    ChangedItemsMeans(st, alterId, full, items);
    hide ChangedItems;
    assert x.Guid() in st.archive ==> st.archive[x.Guid()].element != x.element;
  }

  /** Where the batch's keys are apart, a key of the batch is left with its one record. */
  lemma {:induction false} OnlyWinner(kind: Kind, items: seq<Item>, changed: seq<Item>, x: Item)
    requires KeysApart(items) && x in items && forall y :: y in changed ==> y in items
    ensures var w := Winners(kind, RecordsOf(changed));
            && (x.Key() in w ==> w[x.Key()] == x.element.record)
            && (x in changed ==> x.Key() in w)
  {
    RecordsMeans(changed);
    hide RecordsOf, Winners;
    var w := Winners(kind, RecordsOf(changed));
    if x.Key() in w {
      assert w[x.Key()] in RecordsOf(changed);
    }
    if x in changed {
      assert x.element.record in RecordsOf(changed);
    }
  }

  lemma {:induction false} ChangedAmong(st: Stores, alterId: int, full: bool, items: seq<Item>)
    ensures forall y :: y in ChangedItems(st, alterId, full, items) ==> y in items
    ensures forall y :: y in Passing(items, alterId, full) ==> y in items
  {
  }

  /** What the archive holds of an item after the passing items were archived. */
  lemma {:induction false} ArchivedAfter(archive: Archive, items: seq<Item>, alterId: int, full: bool, x: Item)
    requires DistinctGuids(items) && x in items
    ensures var archive' := archive + ByGuid(Passing(items, alterId, full));
            && (x in Passing(items, alterId, full) ==> x.Guid() in archive' && archive'[x.Guid()] == x)
            && (x.Guid() in archive && archive[x.Guid()].element == x.element ==>
                  x.Guid() in archive' && archive'[x.Guid()].element == x.element)
  {
    var passing := Passing(items, alterId, full);
    DistinctPassing(items, alterId, full);
    ByGuidFinds(items);
    ByGuidFinds(passing);
    hide DistinctGuids;
    assert forall y :: y in passing ==> y in items;
    hide Passing, ByGuid;
    if x.Guid() in ByGuid(passing) {
      assert ByGuid(passing)[x.Guid()] in items;
    }
  }

  lemma {:induction false} ItemStands(kind: Kind, origin: Origin, s: Place, st': Stores, x: Item)
    requires PlaceOk(origin, s) && s.phase.Fetched? && x in s.phase.items
    requires x.AlterId() <= s.horizon ==> Stands(s.stores, x.Guid(), x.element)
    requires var f := s.phase;
             && st'.archive == s.stores.archive + ByGuid(Passing(f.items, f.alterId, f.full))
             && st'.entity == s.stores.entity + Winners(kind, RecordsOf(ChangedItems(s.stores, f.alterId, f.full, f.items)))
    ensures Stands(st', x.Guid(), x.element)
  {
    hide ChangedItems, Passing, Winners, RecordsOf, ByGuid, DistinctGuids, LiveOk, AllStand, StillListed;
    var f := s.phase;
    ChangedAmong(s.stores, f.alterId, f.full, f.items);
    OnlyWinner(kind, f.items, ChangedItems(s.stores, f.alterId, f.full, f.items), x);
    ArchivedAfter(s.stores.archive, f.items, f.alterId, f.full, x);
    if x.AlterId() > s.horizon {
      NewIsChanged(origin, s.stores, s.horizon, f.alterId, f.full, f.items, x);
    }
  }

  lemma {:induction false} ArchiveStaysOld(origin: Origin, archive: Archive, horizon: nat, items: seq<Item>, at: nat, alterId: int, full: bool)
    requires ArchiveIsOld(origin, archive, horizon) && horizon <= at && ExportOk(origin, items, at)
    ensures ArchiveIsOld(origin, archive + ByGuid(Passing(items, alterId, full)), at)
  {
    hide Passing, ByGuid, ArchiveIsOld, DistinctGuids, KeysApart;
    PassingIsOld(origin, items, at, alterId, full);
    OldPlus(origin, archive, horizon, ByGuid(Passing(items, alterId, full)), at);
  }

  lemma {:induction false} PassingIsOld(origin: Origin, items: seq<Item>, at: nat, alterId: int, full: bool)
    requires OfOrigin(origin, items) && forall x :: x in items ==> x.AlterId() <= at
    ensures ArchiveIsOld(origin, ByGuid(Passing(items, alterId, full)), at)
  {
    var passing := Passing(items, alterId, full);
    assert forall y :: y in passing ==> y in items;
    var p := ByGuid(passing);
    hide Passing, ByGuid;
    forall g | g in p ensures p[g].AlterId() <= at && origin(p[g].hash) == p[g].element {
      assert p[g] in passing;
    }
  }

  lemma {:induction false} OldPlus(origin: Origin, archive: Archive, horizon: nat, p: Archive, at: nat)
    requires ArchiveIsOld(origin, archive, horizon) && ArchiveIsOld(origin, p, at) && horizon <= at
    ensures ArchiveIsOld(origin, archive + p, at)
  {
  }

  lemma {:induction false} CheckpointStaysBelow(st: Stores, horizon: nat, alterId: int, full: bool, total: nat, items: seq<Item>, at: nat)
    requires 0 <= SavedAlterId(st) <= horizon <= at && forall x :: x in items ==> 1 <= x.AlterId() <= at
    ensures 0 <= SavedAlterId(st.(checkpoint := NextCheckpoint(st, alterId, full, total, items))) <= at
  {
  }

  /** What a commit does to the parts that matter here. */
  lemma {:induction false} CommitMeans(kind: Kind, origin: Origin, s: Place, s': Place)
    requires PlaceOk(origin, s) && Next(kind, origin, s, Commit, s')
    ensures s.phase.Fetched? && s' == Place(s.live, s'.stores, Idle, s.phase.at)
    ensures var f := s.phase;
            var changed := ChangedItems(s.stores, f.alterId, f.full, f.items);
            && s'.stores.archive == s.stores.archive + ByGuid(Passing(f.items, f.alterId, f.full))
            && s'.stores.entity == s.stores.entity + Winners(kind, RecordsOf(changed))
            && s'.stores.checkpoint == NextCheckpoint(s.stores, f.alterId, f.full, |changed|, f.items)
  {
    hide RunFidelity, ChangedItems, Passing, Winners, RecordsOf, ByGuid, DistinctGuids, NextCheckpoint, CreateVersions, TooMany,
         LiveOk, AllStand, StillListed, ArchiveIsOld, OfOrigin, KeysApart;
    var f := s.phase;
    FidelityEffect(kind, s.stores, f.alterId, f.full, f.items);
  }

  lemma {:induction false} CommitKeepsPlace(kind: Kind, origin: Origin, s: Place, s': Place)
    requires PlaceOk(origin, s) && Next(kind, origin, s, Commit, s')
    ensures PlaceOk(origin, s')
  {
    hide SyncFrom, NextCheckpoint, Winners, RecordsOf, ByGuid, Passing, ChangedItems, ArchiveIsOld, LiveOk, Next, Stands,
         DistinctGuids, OfOrigin, KeysApart, StillListed, AllStand;
    CommitMeans(kind, origin, s, s');
    var f := s.phase;
    ArchiveStaysOld(origin, s.stores.archive, s.horizon, f.items, f.at, f.alterId, f.full);
    CheckpointStaysBelow(s.stores, s.horizon, f.alterId, f.full, |ChangedItems(s.stores, f.alterId, f.full, f.items)|, f.items, f.at);
    AllStandAfter(kind, origin, s, s'.stores);
  }

  lemma {:induction false} AllStandAfter(kind: Kind, origin: Origin, s: Place, st': Stores)
    requires PlaceOk(origin, s) && s.phase.Fetched?
    requires var f := s.phase;
             && st'.archive == s.stores.archive + ByGuid(Passing(f.items, f.alterId, f.full))
             && st'.entity == s.stores.entity + Winners(kind, RecordsOf(ChangedItems(s.stores, f.alterId, f.full, f.items)))
    ensures AllStand(st', s.phase.at, s.live)
  {
    hide Winners, RecordsOf, ByGuid, Passing, ChangedItems, ArchiveIsOld, LiveOk, Stands, ExportOk;
    var f := s.phase;
    forall g | g in s.live && s.live[g].record.alterId <= f.at ensures Stands(st', g, s.live[g]) {
      var x :| x in f.items && x.Guid() == g && x.element == s.live[g];
      assert x.AlterId() == s.live[g].record.alterId;
      ItemStands(kind, origin, s, st', x);
    }
  }

  // ----- the other steps -----

  lemma {:induction false} FetchKeepsPlace(kind: Kind, origin: Origin, s: Place, items: seq<Item>, s': Place)
    requires PlaceOk(origin, s) && Next(kind, origin, s, Fetch(items), s')
    ensures PlaceOk(origin, s')
  {
    hide ArchiveIsOld, AllStand, MaxAlterId;
    ListedIsExport(origin, items, s.live, s'.phase.at);
  }

  lemma {:induction false} ListedIsExport(origin: Origin, items: seq<Item>, live: map<Guid, Element>, at: nat)
    requires LiveOk(live) && Lists(items, live) && OfOrigin(origin, items) && MaxAlterId(items) <= at
    ensures ExportOk(origin, items, at) && StillListed(items, at, live)
  {
    hide MaxAlterId, OfOrigin;
    forall x, y | x in items && y in items && x.Key() == y.Key() ensures x == y {
      assert x.Guid() == y.Guid();
      SameGuid(items, x, y);
    }
    forall g | g in live && live[g].record.alterId <= at ensures exists x :: x in items && x.Guid() == g && x.element == live[g] {
      var x :| x in items && x.Guid() == g;
      assert x.element == live[g];
    }
  }

  lemma {:induction false} SameGuid(items: seq<Item>, x: Item, y: Item)
    requires DistinctGuids(items) && x in items && y in items && x.Guid() == y.Guid()
    ensures x == y
  {
    ByGuidFinds(items);
  }

  lemma {:induction false} PutKeepsPlace(kind: Kind, origin: Origin, s: Place, e: Element, s': Place)
    requires PlaceOk(origin, s) && Next(kind, origin, s, Put(e), s')
    ensures PlaceOk(origin, s')
  {
    hide ArchiveIsOld, ExportOk, Stands;
  }

  lemma {:induction false} NextKeepsPlace(kind: Kind, origin: Origin, s: Place, event: Event, s': Place)
    requires PlaceOk(origin, s) && Next(kind, origin, s, event, s')
    ensures PlaceOk(origin, s')
  {
    match event
    case Commit => CommitKeepsPlace(kind, origin, s, s');
    case Fetch(items) => FetchKeepsPlace(kind, origin, s, items, s');
    case Put(e) => PutKeepsPlace(kind, origin, s, e, s');
    case _ => hide ArchiveIsOld, ExportOk, Stands;
  }

  lemma {:induction false} RunKeepsPlace(kind: Kind, origin: Origin, run: seq<Place>, events: seq<Event>, i: nat)
    requires IsRun(kind, origin, run, events) && i < |run|
    ensures PlaceOk(origin, run[i])
  {
    if i > 0 {
      hide PlaceOk, Next;
      RunKeepsPlace(kind, origin, run, events, i - 1);
      assert Next(kind, origin, run[i - 1], events[i - 1], run[i]);
      NextKeepsPlace(kind, origin, run[i - 1], events[i - 1], run[i]);
    }
  }

  // ----- what follows -----

  /** With unique keys, in every state of every run each live record at or below the checkpoint has its
      element in the archive and its row under its key, whatever the digests of unedited records do. */
  lemma {:induction false} AgreementWithoutStableDigests(kind: Kind, origin: Origin, run: seq<Place>, events: seq<Event>, i: nat, g: Guid)
    requires IsRun(kind, origin, run, events) && i < |run|
    requires g in run[i].live && run[i].live[g].record.alterId <= SavedAlterId(run[i].stores)
    ensures Stands(run[i].stores, g, run[i].live[g])
  {
    RunKeepsPlace(kind, origin, run, events, i);
    hide IsRun;
  }

  /** After a commit whose export still lists the source, every live record does. */
  lemma {:induction false} QuietCommitWithoutStableDigests(kind: Kind, origin: Origin, run: seq<Place>, events: seq<Event>, i: nat, g: Guid)
    requires IsRun(kind, origin, run, events) && i < |events| && events[i] == Commit
    requires run[i].phase.Fetched? && Lists(run[i].phase.items, run[i].live) && g in run[i + 1].live
    ensures Stands(run[i + 1].stores, g, run[i + 1].live[g])
  {
    RunKeepsPlace(kind, origin, run, events, i);
    RunKeepsPlace(kind, origin, run, events, i + 1);
    assert Next(kind, origin, run[i], events[i], run[i + 1]);
    hide IsRun, SyncFrom, Stands, ArchiveIsOld, DistinctGuids;
    var x :| x in run[i].phase.items && x.Guid() == g;
    assert x.AlterId() <= run[i].phase.at;
  }
}
