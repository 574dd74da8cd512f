/** Every step of the protocol keeps the invariant, so every state of every run has it. */
module Invariant {
  import opened Records
  import opened Dedupe
  import opened Pipeline
  import opened PipelineFacts
  import opened Protocol

  // ----- commit -----

  /** The history after a commit: what it was, and the items of the export above the horizon. */
  ghost predicate Extended(before: Versions, horizon: nat, snap: map<Guid, Item>, after: Versions) {
    && (forall v :: v in before ==> v in after && after[v] == before[v])
    && (forall v :: v in after && v !in before ==>
          v.0 in snap && v.1 == snap[v.0].hash && after[v] == snap[v.0].element && snap[v.0].AlterId() > horizon)
    && (forall g :: g in snap && snap[g].AlterId() > horizon ==>
          (g, snap[g].hash) in after && after[(g, snap[g].hash)] == snap[g].element)
  }

  lemma {:induction false} HistoryExtended(cfg: Config, st: Stores, horizon: nat, items: seq<Item>, at: nat)
    requires ValidConfig(cfg) && HistoryOk(cfg, st, horizon)
    requires DistinctGuids(items) && ItemsOk(cfg, ByGuid(items), at)
    ensures Extended(st.versions, horizon, ByGuid(items), CreateVersions(st.versions, Newer(items, horizon)))
  {
    ByGuidFinds(items);
    VersionsHold(st.versions, Newer(items, horizon));
    ExtendedBy(cfg, st, horizon, items, Newer(items, horizon), ByGuid(items), at,
               CreateVersions(st.versions, Newer(items, horizon)));
  }

  lemma {:induction false} ExtendedBy(cfg: Config, st: Stores, horizon: nat, items: seq<Item>, novel: seq<Item>,
                   snap: map<Guid, Item>, at: nat, after: Versions)
    requires ValidConfig(cfg) && HistoryOk(cfg, st, horizon) && ItemsOk(cfg, snap, at)
    requires forall x :: x in novel <==> x in items && x.AlterId() > horizon
    requires forall g :: g in snap ==> snap[g] in items
    requires forall x :: x in items ==> x.Guid() in snap && snap[x.Guid()] == x
    requires forall v :: v in st.versions ==> v in after && after[v] == st.versions[v]
    requires forall x :: x in novel ==> (x.Guid(), x.hash) in after
    requires forall v :: v in after && v !in st.versions ==>
               exists x :: x in novel && v == (x.Guid(), x.hash) && after[v] == x.element
    ensures Extended(st.versions, horizon, snap, after)
  {
    forall g | g in snap && snap[g].AlterId() > horizon
      ensures (g, snap[g].hash) in after && after[(g, snap[g].hash)] == snap[g].element
    {
      assert snap[g] in novel;
      assert (g, snap[g].hash) !in st.versions;
    }
  }

  lemma {:induction false} VersionsKept(cfg: Config, versions: Versions, horizon: nat, snap: map<Guid, Item>, at: nat, after: Versions)
    requires VersionsOk(cfg, versions, horizon) && Stamped(cfg, snap, at) && horizon <= at
    requires Extended(versions, horizon, snap, after)
    ensures VersionsOk(cfg, after, at)
  {
  }

  lemma {:induction false} StampsKept(cfg: Config, versions: Versions, horizon: nat, snap: map<Guid, Item>, after: Versions)
    requires VersionsOk(cfg, versions, horizon) && VersionStampsOnce(versions) && StampsOnce(snap)
    requires Extended(versions, horizon, snap, after)
    ensures VersionStampsOnce(after)
  {
  }

  lemma {:induction false} ArchiveKept(archive: Archive, versions: Versions, horizon: nat, snap: map<Guid, Item>, after: Versions)
    requires ArchiveOk(archive, versions)
    requires forall g :: g in snap && snap[g].AlterId() <= horizon ==> g in archive && archive[g] == snap[g]
    requires Extended(versions, horizon, snap, after)
    ensures ArchiveOk(archive + snap, after)
  {
  }

  /** With keys unique in the batch, or alter ids deciding, no record of a batch beats its winner. */
  lemma {:induction false} NoneBeatsWinner(kind: Kind, records: seq<Record>)
    requires kind.Master? ==> forall r, q :: r in records && q in records && r.key == q.key ==> r == q
    ensures var w := Winners(kind, records);
            forall r :: r in records ==> r.key in w && r.alterId <= w[r.key].alterId
  {
    var w := Winners(kind, records);
    forall r | r in records ensures r.key in w && r.alterId <= w[r.key].alterId {
      assert w[r.key] in records;
    }
  }

  lemma {:induction false} NewestKept(versions: Versions, horizon: nat, after: Versions, entity: map<Key, Record>, w: map<Key, Record>)
    requires HoldsNewest(versions, entity)
    requires forall v :: v in versions ==> versions[v].record.alterId <= horizon && v in after && after[v] == versions[v]
    requires forall k :: k in w ==> w[k].alterId > horizon
    requires forall v :: v in after && v !in versions ==>
               after[v].record.key in w && after[v].record.alterId <= w[after[v].record.key].alterId
    ensures HoldsNewest(after, entity + w)
  {
  }

  lemma {:induction false} OnlyVersionsKept(versions: Versions, after: Versions, entity: map<Key, Record>, w: map<Key, Record>)
    requires HoldsVersions(versions, entity)
    requires forall v :: v in versions ==> v in after && after[v] == versions[v]
    requires forall k :: k in w ==> w[k].key == k && IsVersion(after, w[k])
    ensures HoldsVersions(after, entity + w)
  {
    forall k | k in entity ensures IsVersion(after, entity[k]) {
      assert IsVersion(versions, entity[k]);
    }
  }

  lemma {:induction false} AheadKept(cfg: Config, st: Stores, horizon: nat, snap: map<Guid, Item>, at: nat, st': Stores,
                  m: map<Guid, Item>)
    requires ItemsOk(cfg, snap, at) && Ahead(cfg, st, m) && Drift(cfg, snap, at, m)
    requires Extended(st.versions, horizon, snap, st'.versions)
    ensures Ahead(cfg, st', m)
  {
  }

  /** What a commit from a state with the invariant leaves, in one place. */
  ghost predicate CommitShape(cfg: Config, s: State, s': State)
    requires s.phase.Fetched?
  {
    var snap, novel := ByGuid(s.phase.items), RecordsOf(Newer(s.phase.items, s.horizon));
    && s'.source == s.source && s'.phase == Idle && s'.horizon == s.phase.at
    && Extended(s.stores.versions, s.horizon, snap, s'.stores.versions)
    && s'.stores.archive == s.stores.archive + snap
    && s'.stores.entity == s.stores.entity + Winners(cfg.kind, novel)
    && AreNovel(novel, snap, s.horizon)
    && 0 <= SavedAlterId(s'.stores) <= s'.horizon
    && NoneAbove(snap, SavedAlterId(s'.stores))
  }

  /** The records of the export that are stamped above the horizon. */
  ghost predicate AreNovel(novel: seq<Record>, snap: map<Guid, Item>, horizon: nat) {
    && (forall r :: r in novel ==> r.guid in snap && snap[r.guid].element.record == r && r.alterId > horizon)
    && (forall g :: g in snap && snap[g].AlterId() > horizon ==> snap[g].element.record in novel)
  }

  lemma {:induction false} CommitHasShape(cfg: Config, s: State, s': State)
    requires ValidConfig(cfg) && Inv(cfg, s) && Next(cfg, s, Commit, s')
    ensures s.phase.Fetched? && CommitShape(cfg, s, s')
  {
    hide SyncFrom, RunFidelity, Newer, RecordsOf, Winners, CreateVersions, NextCheckpoint, HistoryOk, EntityOk, Ahead, ItemsOk,
         DistinctGuids, Covered, Extended, ByGuid, Drift, ValidConfig, AreNovel, NoneAbove;
    var items, at := s.phase.items, s.phase.at;
    CommitEffect(cfg, s.stores, s.horizon, s.phase.alterId, s.phase.full, items, at);
    CheckpointAfter(cfg, s.stores, s.horizon, s.phase.alterId, s.phase.full, items, at);
    HistoryExtended(cfg, s.stores, s.horizon, items, at);
    NovelRecords(items, s.horizon);
  }

  lemma {:induction false} CommitKeepsHistory(cfg: Config, s: State, s': State)
    requires ValidConfig(cfg) && Inv(cfg, s) && s.phase.Fetched? && CommitShape(cfg, s, s')
    ensures HistoryOk(cfg, s'.stores, s'.horizon)
  {
    var snap, st := ByGuid(s.phase.items), s.stores;
    VersionsKept(cfg, st.versions, s.horizon, snap, s.phase.at, s'.stores.versions);
    StampsKept(cfg, st.versions, s.horizon, snap, s'.stores.versions);
    ArchiveKept(st.archive, st.versions, s.horizon, snap, s'.stores.versions);
  }

  /** The winners of the new records, and what is known of them. */
  ghost predicate WinsOver(novel: seq<Record>, w: map<Key, Record>) {
    && (forall k :: k in w ==> w[k] in novel && w[k].key == k)
    && (forall r :: r in novel ==> r.key in w && r.alterId <= w[r.key].alterId)
  }

  lemma {:induction false} NovelKeysApart(snap: map<Guid, Item>, novel: seq<Record>, horizon: nat)
    requires AreNovel(novel, snap, horizon) && KeysOnce(snap)
    ensures forall r, q :: r in novel && q in novel && r.key == q.key ==> r == q
  {
    forall r, q | r in novel && q in novel && r.key == q.key ensures r == q {
      assert snap[r.guid].Key() == snap[q.guid].Key();
    }
  }

  lemma {:induction false} NovelWinners(cfg: Config, snap: map<Guid, Item>, novel: seq<Record>, horizon: nat, at: nat)
    requires AreNovel(novel, snap, horizon) && ItemsOk(cfg, snap, at) && (cfg.kind.Master? ==> cfg.uniqueKeys)
    ensures WinsOver(novel, Winners(cfg.kind, novel))
  {
    hide AreNovel, KeysOnce, StampsOnce, Stamped, Winners;
    if cfg.kind.Master? {
      NovelKeysApart(snap, novel, horizon);
    }
    NoneBeatsWinner(cfg.kind, novel);
  }

  /** The table stays the history seen through its keys. */
  lemma {:induction false} EntityKept(before: Versions, entity: map<Key, Record>, horizon: nat, snap: map<Guid, Item>,
                                      novel: seq<Record>, w: map<Key, Record>, after: Versions)
    requires HoldsNewest(before, entity) && HoldsVersions(before, entity)
    requires forall v :: v in before ==> before[v].record.alterId <= horizon
    requires Extended(before, horizon, snap, after) && AreNovel(novel, snap, horizon) && WinsOver(novel, w)
    ensures HoldsNewest(after, entity + w) && HoldsVersions(after, entity + w)
  {
    hide HoldsNewest, HoldsVersions;
    forall k | k in w ensures w[k].alterId > horizon && IsVersion(after, w[k]) {
      assert w[k] in novel;
      assert after[(w[k].guid, snap[w[k].guid].hash)].record == w[k];
    }
    forall v | v in after && v !in before
      ensures after[v].record.key in w && after[v].record.alterId <= w[after[v].record.key].alterId
    {
      assert snap[v.0].element.record in novel;
    }
    NewestKept(before, horizon, after, entity, w);
    OnlyVersionsKept(before, after, entity, w);
  }

  lemma {:induction false} CommitKeepsEntity(cfg: Config, s: State, s': State)
    requires ValidConfig(cfg) && Inv(cfg, s) && s.phase.Fetched? && CommitShape(cfg, s, s')
    ensures EntityOk(s'.stores)
  {
    hide RecordsOf, Newer, Winners, Ahead, Covered, ItemsOk, ByGuid, AreNovel, Extended, WinsOver, HoldsNewest, HoldsVersions,
         Drift, DistinctGuids, VersionStampsOnce, ArchiveOk, NoneAbove;
    var snap, st := ByGuid(s.phase.items), s.stores;
    var novel := RecordsOf(Newer(s.phase.items, s.horizon));
    NovelWinners(cfg, snap, novel, s.horizon, s.phase.at);
    EntityKept(st.versions, st.entity, s.horizon, snap, novel, Winners(cfg.kind, novel), s'.stores.versions);
  }

  lemma {:induction false} CommitKeepsCover(cfg: Config, s: State, s': State)
    requires ValidConfig(cfg) && Inv(cfg, s) && s.phase.Fetched? && CommitShape(cfg, s, s')
    ensures Covered(s'.stores, s'.horizon, s'.source.live)
  {
  }

  lemma {:induction false} CommitKeepsInv(cfg: Config, s: State, s': State)
    requires ValidConfig(cfg) && Inv(cfg, s) && Next(cfg, s, Commit, s')
    ensures Inv(cfg, s')
  {
    hide SyncFrom, HistoryOk, EntityOk, Ahead, ItemsOk, Covered, Drift, Extended, ByGuid, RecordsOf, Winners, Newer;
    CommitHasShape(cfg, s, s');
    CommitKeepsHistory(cfg, s, s');
    CommitKeepsEntity(cfg, s, s');
    CommitKeepsCover(cfg, s, s');
    AheadKept(cfg, s.stores, s.horizon, ByGuid(s.phase.items), s.phase.at, s'.stores, s.source.live);
  }

  lemma {:induction false} NovelRecords(items: seq<Item>, horizon: nat)
    requires DistinctGuids(items)
    ensures AreNovel(RecordsOf(Newer(items, horizon)), ByGuid(items), horizon)
  {
    ByGuidFinds(items);
    var newer := Newer(items, horizon);
    forall r | r in RecordsOf(newer)
      ensures exists x :: x in newer && x.element.record == r
    {
      var i :| 0 <= i < |newer| && RecordsOf(newer)[i] == r;
      assert newer[i] in newer;
    }
    forall x | x in newer ensures x.element.record in RecordsOf(newer) {
      var i :| 0 <= i < |newer| && newer[i] == x;
      assert RecordsOf(newer)[i] == x.element.record;
    }
  }

  // ----- the other steps -----

  lemma {:induction false} PutKeepsItems(cfg: Config, src: Source, frontier: nat, e: Element)
    requires PutAllowed(cfg, src, frontier, e) && ItemsOk(cfg, src.live, src.counter)
    ensures ItemsOk(cfg, PutIn(cfg, src, e).live, PutIn(cfg, src, e).counter)
  {
  }

  lemma {:induction false} PutKeepsAhead(cfg: Config, src: Source, frontier: nat, e: Element, st: Stores, horizon: nat)
    requires PutAllowed(cfg, src, frontier, e) && horizon <= frontier
    requires HistoryOk(cfg, st, horizon) && Ahead(cfg, st, src.live)
    ensures Ahead(cfg, st, PutIn(cfg, src, e).live)
  {
  }

  lemma {:induction false} PutKeepsDrift(cfg: Config, src: Source, frontier: nat, e: Element, snap: map<Guid, Item>, at: nat)
    requires PutAllowed(cfg, src, frontier, e) && at <= frontier
    requires Drift(cfg, snap, at, src.live)
    ensures Drift(cfg, snap, at, PutIn(cfg, src, e).live)
  {
  }

  lemma {:induction false} PutKeepsInv(cfg: Config, s: State, e: Element, s': State)
    requires ValidConfig(cfg) && Inv(cfg, s) && Next(cfg, s, Put(e), s')
    ensures Inv(cfg, s')
  {
    hide HistoryOk, EntityOk, ItemsOk, Ahead, Drift, DistinctGuids, ByGuid;
    PutKeepsItems(cfg, s.source, Frontier(s), e);
    PutKeepsAhead(cfg, s.source, Frontier(s), e, s.stores, s.horizon);
    if s.phase.Fetched? {
      PutKeepsDrift(cfg, s.source, Frontier(s), e, ByGuid(s.phase.items), s.phase.at);
    }
    PutKeepsCover(cfg, s.source, Frontier(s), e, s.stores, s.horizon);
  }

  lemma {:induction false} PutKeepsCover(cfg: Config, src: Source, frontier: nat, e: Element, st: Stores, horizon: nat)
    requires PutAllowed(cfg, src, frontier, e) && horizon <= frontier && Covered(st, horizon, src.live)
    ensures Covered(st, horizon, PutIn(cfg, src, e).live)
  {
  }

  lemma {:induction false} DeleteKeepsInv(cfg: Config, s: State, g: Guid, s': State)
    requires ValidConfig(cfg) && Inv(cfg, s) && Next(cfg, s, Delete(g), s')
    ensures Inv(cfg, s')
  {
  }

  lemma {:induction false} FetchKeepsInv(cfg: Config, s: State, items: seq<Item>, s': State)
    requires ValidConfig(cfg) && Inv(cfg, s) && Next(cfg, s, Fetch(items), s')
    ensures Inv(cfg, s')
  {
  }

  lemma {:induction false} NextKeepsInv(cfg: Config, s: State, event: Event, s': State)
    requires ValidConfig(cfg) && Inv(cfg, s) && Next(cfg, s, event, s')
    ensures Inv(cfg, s')
  {
    match event
    case Put(e) => PutKeepsInv(cfg, s, e, s');
    case Delete(g) => DeleteKeepsInv(cfg, s, g, s');
    case Begin(_) =>
    case Fetch(items) => FetchKeepsInv(cfg, s, items, s');
    case Commit => CommitKeepsInv(cfg, s, s');
    case Abort =>
  }

  /** The invariant holds in every state of every run, with edits anywhere between the steps of a sync. */
  lemma {:induction false} RunKeepsInv(cfg: Config, run: seq<State>, events: seq<Event>, i: nat)
    requires ValidConfig(cfg) && IsRun(cfg, run, events)
    requires i < |run|
    ensures Inv(cfg, run[i])
  {
    if i > 0 {
      RunKeepsInv(cfg, run, events, i - 1);
      NextKeepsInv(cfg, run[i - 1], events[i - 1], run[i]);
    }
  }

  // ----- building runs -----

  lemma {:induction false} StartRun(cfg: Config, s: State) returns (run: seq<State>, events: seq<Event>)
    requires ValidConfig(cfg) && Init(cfg, s)
    ensures IsRun(cfg, run, events) && |run| == |events| + 1 && Last(run, events) == s && Inv(cfg, s)
    ensures events == []
  {
    run, events := [s], [];
    RunKeepsInv(cfg, run, events, 0);
  }

  ghost function Last(run: seq<State>, events: seq<Event>): State
    requires |run| == |events| + 1
  {
    run[|events|]
  }

  /** A run goes on with any step that its last state allows. */
  lemma {:induction false} Extend(cfg: Config, run: seq<State>, events: seq<Event>, event: Event, s': State)
      returns (run': seq<State>, events': seq<Event>)
    requires ValidConfig(cfg) && IsRun(cfg, run, events)
    requires |run| == |events| + 1 && Next(cfg, Last(run, events), event, s')
    ensures IsRun(cfg, run', events') && |run'| == |events'| + 1 && Last(run', events') == s' && Inv(cfg, s')
    ensures events' == events + [event]
  {
    hide Next, Init;
    run', events' := run + [s'], events + [event];
    forall i | 0 <= i < |events'| ensures Next(cfg, run'[i], events'[i], run'[i + 1]) {
      assert i < |events| ==> Next(cfg, run[i], events[i], run[i + 1]);
    }
    RunKeepsInv(cfg, run', events', |events'|);
  }
}
