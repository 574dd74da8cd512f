/** The incremental sync protocol: a source that keeps being edited, one sync at a time, and the
    invariant that every step keeps.  Records are known to the protocol through their items. */
module Protocol {
  import opened Wrappers
  import opened Records
  import opened Dedupe
  import opened Pipeline
  import opened PipelineFacts

  /** What is assumed of a source.  `hash` is the digest of an element's raw bytes, which contain its
      alter id, and `elements` are those that ever occur.  `uniqueKeys`: no two live records ever share
      a natural key.  `keepsKeys`: no record is ever deleted or given another natural key. */
  datatype Config = Config(kind: Kind, uniqueKeys: bool, keepsKeys: bool, hash: Element -> Hash, elements: iset<Element>)

  /** The digests of the elements that occur do not collide, and names of masters are unique. */
  ghost predicate ValidConfig(cfg: Config) {
    && (forall e, f :: e in cfg.elements && f in cfg.elements && cfg.hash(e) == cfg.hash(f) ==> e == f)
    && (cfg.kind.Master? ==> cfg.uniqueKeys)
  }

  /** A digest that tells elements apart by their alter ids alone. */
  function StampDigest(e: Element): Hash {
    if e.record.alterId < 0 then "" else seq(e.record.alterId, _ => '1')
  }

  /** The assumptions can be met for every kind and flag, by any elements of which no two share an alter id. */
  lemma {:induction false} ConfigExists(kind: Kind, uniqueKeys: bool, keepsKeys: bool, elements: iset<Element>)
    requires kind.Master? ==> uniqueKeys
    requires forall e :: e in elements ==> e.record.alterId >= 0
    requires forall e, f :: e in elements && f in elements && e.record.alterId == f.record.alterId ==> e == f
    ensures ValidConfig(Config(kind, uniqueKeys, keepsKeys, StampDigest, elements))
  {
    forall e, f | e in elements && f in elements && StampDigest(e) == StampDigest(f) ensures e == f {
      assert |StampDigest(e)| == e.record.alterId && |StampDigest(f)| == f.record.alterId;
    }
  }

  /** What an export would list: elements by guid, each with its digest.  `counter` bounds the alter ids
      given out so far. */
  datatype Source = Source(live: map<Guid, Item>, counter: nat)

  /** Where the one sync in progress is.  `alterId` is the checkpoint it read; `at` the highest alter id
      exported by this or an earlier committed sync. */
  datatype Phase =
    | Idle
    | Begun(full: bool, alterId: int)
    | Fetched(full: bool, alterId: int, items: seq<Item>, at: nat)

  /** `horizon` is a history variable: the highest alter id that a committed sync has exported. */
  datatype State = State(source: Source, stores: Stores, phase: Phase, horizon: nat)

  datatype Event =
    | Put(element: Element)  // a record enters the export, or changes in it
    | Delete(guid: Guid)     // a record leaves the export
    | Begin(isFull: bool)
    | Fetch(response: seq<Item>)
    | Commit
    | Abort

  ghost function ItemOf(cfg: Config, e: Element): Item {
    Item(e, cfg.hash(e))
  }

  /** An export lists every live record once, in any order. */
  ghost predicate IsSnapshot(items: seq<Item>, live: map<Guid, Item>) {
    DistinctGuids(items) && ByGuid(items) == live
  }

  const NO_STORES: Stores := Stores(map[], map[], map[], None)

  ghost predicate Init(cfg: Config, s: State) {
    && ItemsOk(cfg, s.source.live, s.source.counter)
    && s.stores == NO_STORES && s.phase == Idle && s.horizon == 0
  }

  function Max(a: int, b: int): int {
    if a < b then b else a
  }

  /** The highest alter id exported by a committed sync or by the one in progress. */
  function Frontier(s: State): nat {
    match s.phase
    case Fetched(_, _, _, at) => at
    case _ => s.horizon
  }

  /** A record enters the export or changes in it under an alter id of its own, above all exported so far. */
  ghost predicate PutAllowed(cfg: Config, src: Source, frontier: nat, e: Element) {
    && e in cfg.elements
    && e.record.alterId > frontier
    && (forall g :: g in src.live ==> src.live[g].AlterId() != e.record.alterId)
    && (cfg.uniqueKeys ==> forall g :: g in src.live && g != e.record.guid ==> src.live[g].Key() != e.record.key)
    && (cfg.keepsKeys && e.record.guid in src.live ==> src.live[e.record.guid].Key() == e.record.key)
  }

  ghost function PutIn(cfg: Config, src: Source, e: Element): Source
    requires e.record.alterId >= 0
  {
    Source(src.live[e.record.guid := ItemOf(cfg, e)], Max(src.counter, e.record.alterId))
  }

  ghost predicate Next(cfg: Config, s: State, event: Event, s': State) {
    match event
    case Put(e) =>
      && PutAllowed(cfg, s.source, Frontier(s), e)
      && s' == s.(source := PutIn(cfg, s.source, e))
    case Delete(g) =>
      && !cfg.keepsKeys && g in s.source.live
      && s' == s.(source := s.source.(live := s.source.live - {g}))
    case Begin(full) =>
      && s.phase.Idle?
      && s' == s.(phase := Begun(full, StartAlterId(s.stores, full)))
    case Fetch(items) =>
      && s.phase.Begun?
      && IsSnapshot(items, s.source.live)
      && s' == s.(phase := Fetched(s.phase.full, s.phase.alterId, items, Max(s.horizon, MaxAlterId(items))))
    case Commit =>
      && s.phase.Fetched?
      && var r := SyncFrom(cfg.kind, s.stores, s.phase.alterId, s.phase.full, s.phase.items);
         r.Ok? && s' == State(s.source, r.value.0, Idle, s.phase.at)
    case Abort =>
      && !s.phase.Idle?
      && s' == s.(phase := Idle)
  }

  ghost predicate IsRun(cfg: Config, run: seq<State>, events: seq<Event>) {
    && |run| == |events| + 1
    && Init(cfg, run[0])
    && forall i :: 0 <= i < |events| ==> Next(cfg, run[i], events[i], run[i + 1])
  }

  // ----- the invariant -----

  /** Items keyed by guid, stamped at or below `bound`, each stamp used once. */
  ghost predicate ItemsOk(cfg: Config, m: map<Guid, Item>, bound: nat) {
    Stamped(cfg, m, bound) && StampsOnce(m) && (cfg.uniqueKeys ==> KeysOnce(m))
  }

  ghost predicate Stamped(cfg: Config, m: map<Guid, Item>, bound: nat) {
    forall g :: g in m ==> 
      && m[g].Guid() == g && m[g].element in cfg.elements && m[g].hash == cfg.hash(m[g].element)
      && 1 <= m[g].AlterId() <= bound
  }

  ghost predicate StampsOnce(m: map<Guid, Item>) {
    forall g, h :: g in m && h in m && g != h ==> m[g].AlterId() != m[h].AlterId()
  }

  ghost predicate KeysOnce(m: map<Guid, Item>) {
    forall g, h :: g in m && h in m && g != h ==> m[g].Key() != m[h].Key()
  }

  /** The history is in order, and what the archive holds is a version. */
  ghost predicate HistoryOk(cfg: Config, st: Stores, horizon: nat) {
    VersionsOk(cfg, st.versions, horizon) && VersionStampsOnce(st.versions) && ArchiveOk(st.archive, st.versions)
  }

  /** Each version sits under its guid and hash and is stamped at or below the horizon. */
  ghost predicate VersionsOk(cfg: Config, versions: Versions, horizon: nat) {
    forall v :: v in versions ==>
      && versions[v].record.guid == v.0 && versions[v] in cfg.elements && cfg.hash(versions[v]) == v.1
      && 1 <= versions[v].record.alterId <= horizon
  }

  ghost predicate VersionStampsOnce(versions: Versions) {
    forall v, w :: v in versions && w in versions && v != w ==>
      versions[v].record.alterId != versions[w].record.alterId
  }

  ghost predicate ArchiveOk(archive: Archive, versions: Versions) {
    forall g :: g in archive ==>
      (g, archive[g].hash) in versions && versions[(g, archive[g].hash)] == archive[g].element
  }

  /** The entity table is the history seen through its keys: under each key ever recorded it holds
      the version of the highest alter id, and it holds nothing else. */
  ghost predicate EntityOk(st: Stores) {
    HoldsNewest(st.versions, st.entity) && HoldsVersions(st.versions, st.entity)
  }

  ghost predicate HoldsNewest(versions: Versions, entity: map<Key, Record>) {
    forall v :: v in versions ==>
      versions[v].record.key in entity && versions[v].record.alterId <= entity[versions[v].record.key].alterId
  }

  ghost predicate HoldsVersions(versions: Versions, entity: map<Key, Record>) {
    forall k :: k in entity ==> entity[k].key == k && IsVersion(versions, entity[k])
  }

  ghost predicate IsVersion(versions: Versions, r: Record) {
    exists v :: v in versions && versions[v].record == r
  }

  /** Records stamped at or below the horizon are archived as they are and lie below the checkpoint. */
  ghost predicate Covered(st: Stores, horizon: nat, m: map<Guid, Item>) {
    forall g :: g in m && m[g].AlterId() <= horizon ==>
      g in st.archive && st.archive[g] == m[g] && m[g].AlterId() <= SavedAlterId(st)
  }

  ghost predicate Ahead(cfg: Config, st: Stores, m: map<Guid, Item>) {
    && NoneAhead(st.versions, m)
    && (cfg.uniqueKeys ==> NewestUnderKey(st.versions, m))
    && (cfg.keepsKeys ==> KeysKept(st.versions, m))
  }

  /** No version of a record is newer than the record. */
  ghost predicate NoneAhead(versions: Versions, m: map<Guid, Item>) {
    forall v :: v in versions && v.0 in m ==> versions[v].record.alterId <= m[v.0].AlterId()
  }

  /** No version of another record that had its key is as new as the record. */
  ghost predicate NewestUnderKey(versions: Versions, m: map<Guid, Item>) {
    forall v, g :: v in versions && g in m && v.0 != g ==>
      versions[v].record.key != m[g].Key() || versions[v].record.alterId < m[g].AlterId()
  }

  /** Each version's record is there, under the version's key. */
  ghost predicate KeysKept(versions: Versions, m: map<Guid, Item>) {
    forall v :: v in versions ==> v.0 in m && m[v.0].Key() == versions[v].record.key
  }

  /** How an export relates to the source afterwards: what is stamped no later is in it unchanged. */
  ghost predicate Drift(cfg: Config, snap: map<Guid, Item>, at: nat, m: map<Guid, Item>) {
    StillCurrent(snap, at, m) && (cfg.keepsKeys ==> StillThere(snap, m))
  }

  ghost predicate StillCurrent(snap: map<Guid, Item>, at: nat, m: map<Guid, Item>) {
    forall g :: g in m && m[g].AlterId() <= at ==> g in snap && snap[g] == m[g]
  }

  ghost predicate StillThere(snap: map<Guid, Item>, m: map<Guid, Item>) {
    forall g :: g in snap ==> g in m && m[g].Key() == snap[g].Key()
  }

  ghost predicate PhaseOk(cfg: Config, s: State) {
    match s.phase
    case Idle => true
    case Begun(_, alterId) => alterId <= s.horizon
    case Fetched(_, alterId, items, at) =>
      && alterId <= s.horizon
      && s.horizon <= at <= s.source.counter
      && DistinctGuids(items)
      && ItemsOk(cfg, ByGuid(items), at)
      && Covered(s.stores, s.horizon, ByGuid(items))
      && Ahead(cfg, s.stores, ByGuid(items))
      && Drift(cfg, ByGuid(items), at, s.source.live)
  }

  ghost predicate Inv(cfg: Config, s: State) {
    && 0 <= SavedAlterId(s.stores) <= s.horizon <= s.source.counter
    && HistoryOk(cfg, s.stores, s.horizon)
    && EntityOk(s.stores)
    && ItemsOk(cfg, s.source.live, s.source.counter)
    && Covered(s.stores, s.horizon, s.source.live)
    && Ahead(cfg, s.stores, s.source.live)
    && PhaseOk(cfg, s)
  }

  // ----- what a commit does -----

  lemma {:induction false} NewerTwice(items: seq<Item>, low: int, high: int)
    requires low <= high
    ensures Newer(Newer(items, low), high) == Newer(items, high)
  {
    if items != [] {
      NewerTwice(items[1..], low, high);
      var x, rest := items[0], Newer(items[1..], low);
      if x.AlterId() > low {
        assert Newer(items, low)[1..] == rest;
      } else {
        assert Newer(items, low) == rest;
      }
    }
  }

  lemma {:induction false} ChangedIsNewer(items: seq<Item>, existing: map<Guid, Hash>, horizon: int)
    requires forall x :: x in items ==> (IsUnchanged(existing, x) <==> x.AlterId() <= horizon)
    ensures Changed(items, existing) == Newer(items, horizon)
  {
    if items != [] {
      assert items[0] in items;
      ChangedIsNewer(items[1..], existing, horizon);
    }
  }

  /** The archive holds an item's hash exactly when the item is stamped at or below the horizon. */
  lemma {:induction false} ArchivedBelowHorizon(cfg: Config, st: Stores, horizon: nat, m: map<Guid, Item>, at: nat, g: Guid)
    requires ValidConfig(cfg) && HistoryOk(cfg, st, horizon) && Covered(st, horizon, m) && ItemsOk(cfg, m, at)
    requires g in m
    ensures g in st.archive && st.archive[g].hash == m[g].hash <==> m[g].AlterId() <= horizon
    ensures m[g].AlterId() <= horizon ==> st.archive[g] == m[g]
  {
    if g in st.archive && st.archive[g].hash == m[g].hash {
      assert st.versions[(g, m[g].hash)] == st.archive[g].element;
      assert cfg.hash(st.archive[g].element) == cfg.hash(m[g].element);
    }
  }

  /** The two optimisations cut at the same place: in every reachable state the items that pass a
      checkpoint, current or stale, and whose hash is new are those stamped above the horizon. */
  lemma {:induction false} FreshItems(cfg: Config, st: Stores, horizon: nat, alterId: int, full: bool, items: seq<Item>, at: nat)
    requires ValidConfig(cfg) && HistoryOk(cfg, st, horizon) && Covered(st, horizon, ByGuid(items))
    requires DistinctGuids(items) && ItemsOk(cfg, ByGuid(items), at)
    requires alterId <= horizon
    ensures ChangedItems(st, alterId, full, items) == Newer(items, horizon)
  {
    var passing := Passing(items, alterId, full);
    var existing := LatestHashes(st.archive, GuidsOf(passing));
    ByGuidFinds(items);
    LatestHashesMeans(st.archive, passing);
    forall x | x in passing ensures IsUnchanged(existing, x) <==> x.AlterId() <= horizon {
      ArchivedBelowHorizon(cfg, st, horizon, ByGuid(items), at, x.Guid());
    }
    ChangedIsNewer(passing, existing, horizon);
    if !full && alterId > 0 {
      NewerTwice(items, alterId, horizon);
    }
  }

  /** Archiving what passes archives the whole export: the rest is archived already. */
  lemma {:induction false} ArchiveWhole(st: Stores, horizon: nat, alterId: int, full: bool, items: seq<Item>)
    requires Covered(st, horizon, ByGuid(items)) && DistinctGuids(items)
    requires alterId <= horizon
    ensures st.archive + ByGuid(Passing(items, alterId, full)) == st.archive + ByGuid(items)
  {
    var passing := Passing(items, alterId, full);
    ByGuidFinds(items);
    PassingSubset(st, horizon, items, passing, ByGuid(items), ByGuid(passing));
  }

  lemma {:induction false} PassingSubset(st: Stores, horizon: nat, items: seq<Item>, passing: seq<Item>,
                      m: map<Guid, Item>, p: map<Guid, Item>)
    requires Covered(st, horizon, m)
    requires forall x :: x in passing ==> x in items && x.Guid() in p
    requires forall x :: x in items && x !in passing ==> x.AlterId() <= horizon
    requires forall g :: g in p ==> p[g] in passing && p[g].Guid() == g
    requires forall g :: g in m ==> m[g] in items && m[g].Guid() == g
    requires forall x :: x in items ==> x.Guid() in m && m[x.Guid()] == x
    ensures st.archive + p == st.archive + m
  {
    forall g | g in m && g !in p ensures g in st.archive && st.archive[g] == m[g] {
      assert m[g] !in passing;
    }
  }

  /** The stores a commit leaves: the same whether the sync was incremental or full, but for the checkpoint. */
  ghost function Committed(kind: Kind, st: Stores, horizon: nat, items: seq<Item>, checkpoint: Option<int>): Stores {
    var novel := Newer(items, horizon);
    Stores(st.entity + Winners(kind, RecordsOf(novel)), st.archive + ByGuid(items), CreateVersions(st.versions, novel), checkpoint)
  }

  lemma {:induction false} CommitEffect(cfg: Config, st: Stores, horizon: nat, alterId: int, full: bool, items: seq<Item>, at: nat)
    requires ValidConfig(cfg) && HistoryOk(cfg, st, horizon) && Covered(st, horizon, ByGuid(items))
    requires DistinctGuids(items) && ItemsOk(cfg, ByGuid(items), at)
    requires alterId <= horizon
    ensures
      var novel := Newer(items, horizon);
      match SyncFrom(cfg.kind, st, alterId, full, items)
      case Err(_) => TooMany(cfg.kind, novel)
      case Ok((st', c)) =>
        && !TooMany(cfg.kind, novel)
        && c.Total() == |novel|
        && st' == Committed(cfg.kind, st, horizon, items, NextCheckpoint(st, alterId, full, |novel|, items))
  {
    FreshItems(cfg, st, horizon, alterId, full, items, at);
    ArchiveWhole(st, horizon, alterId, full, items);
    FidelityEffect(cfg.kind, st, alterId, full, items);
    hide RunFidelity, ByGuid, DistinctGuids, HistoryOk, ItemsOk, Covered, ValidConfig;
  }

  ghost predicate NoneAbove(m: map<Guid, Item>, bound: int) {
    forall g :: g in m ==> m[g].AlterId() <= bound
  }

  /** After a commit the checkpoint is the highest alter id of the export if anything was new or the
      sync was full, and it is never below any alter id of the export. */
  lemma {:induction false} CheckpointAfter(cfg: Config, st: Stores, horizon: nat, alterId: int, full: bool, items: seq<Item>, at: nat)
    requires ItemsOk(cfg, ByGuid(items), at) && DistinctGuids(items) && Covered(st, horizon, ByGuid(items))
    requires alterId <= horizon && 0 <= SavedAlterId(st) <= horizon <= at
    ensures
      var cp := NextCheckpoint(st, alterId, full, |Newer(items, horizon)|, items);
      && (full || Newer(items, horizon) != [] ==> cp == Some(MaxAlterId(items)))
      && (!full && Newer(items, horizon) == [] ==> cp == st.checkpoint)
      && 0 <= SavedAlterId(st.(checkpoint := cp)) <= at
      && NoneAbove(ByGuid(items), SavedAlterId(st.(checkpoint := cp)))
      && (!full ==> SavedAlterId(st) <= SavedAlterId(st.(checkpoint := cp)))
  {
    ByGuidFinds(items);
    CheckpointBound(st, horizon, alterId, full, items, at);
    hide NextCheckpoint, Newer, DistinctGuids, ItemsOk, Covered;
    assert forall g :: g in ByGuid(items) ==> ByGuid(items)[g] in items;
  }

  lemma {:induction false} CheckpointBound(st: Stores, horizon: nat, alterId: int, full: bool, items: seq<Item>, at: nat)
    requires forall x :: x in items ==> 1 <= x.AlterId() <= at
    requires forall x :: x in items && x.AlterId() <= horizon ==> x.AlterId() <= SavedAlterId(st)
    requires alterId <= horizon && 0 <= SavedAlterId(st) <= horizon <= at
    ensures
      var cp := NextCheckpoint(st, alterId, full, |Newer(items, horizon)|, items);
      && (full || Newer(items, horizon) != [] ==> cp == Some(MaxAlterId(items)))
      && (!full && Newer(items, horizon) == [] ==> cp == st.checkpoint)
      && 0 <= SavedAlterId(st.(checkpoint := cp)) <= at
      && (forall x :: x in items ==> x.AlterId() <= SavedAlterId(st.(checkpoint := cp)))
      && (!full ==> SavedAlterId(st) <= SavedAlterId(st.(checkpoint := cp)))
  {
    var novel := Newer(items, horizon);
    assert novel != [] ==> novel[0] in items && novel[0].AlterId() > horizon;
    assert novel == [] ==> forall x :: x in items ==> x !in novel;
    hide Newer, MaxAlterId;
  }
}
