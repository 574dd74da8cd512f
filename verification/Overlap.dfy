/** Several syncs of one entity type in flight at once: they keep the invariant as long as their exports
    are committed in the order in which they were fetched. */
module Overlap {
  import opened Records
  import opened Dedupe
  import opened Pipeline
  import opened PipelineFacts
  import opened Protocol
  import opened Invariant
  import opened Theorems

  /** A sync in flight; `order` numbers the fetches. */
  datatype Flight = Flight(phase: Phase, order: nat)

  /** `fetches` counts all fetches, `committed` is the number of the fetch committed last. */
  datatype World = World(source: Source, stores: Stores, horizon: nat, flights: map<nat, Flight>, fetches: nat, committed: nat)

  datatype Step =
    | Put(element: Element)
    | Delete(guid: Guid)
    | Begin(id: nat, isFull: bool)
    | Fetch(id: nat, response: seq<Item>, at: nat)
    | Commit(id: nat)
    | Abort(id: nat)

  /** What the protocol sees that knows of one sync only. */
  ghost function View(w: World, phase: Phase): State {
    State(w.source, w.stores, phase, w.horizon)
  }

  /** The same at the time of another export. */
  ghost function Past(w: World, listed: Flight, phase: Phase): State
    requires listed.phase.Fetched?
  {
    State(Source(ByGuid(listed.phase.items), listed.phase.at), w.stores, phase, w.horizon)
  }

  /** The flight is not overtaken: no export fetched later than its own has been committed. */
  ghost predicate Current(w: World, f: Flight) {
    f.phase.Begun? || (f.phase.Fetched? && f.order > w.committed)
  }

  ghost predicate Earlier(f: Flight, g: Flight) {
    f.phase.Fetched? && g.phase.Fetched? && f.order < g.order
  }

  /** `at` bounds all alter ids exported by a committed sync or by one in flight that is not overtaken. */
  ghost predicate AllExportedBy(w: World, at: int) {
    w.horizon <= at && forall id :: id in w.flights && FetchedAndCurrent(w, w.flights[id]) ==> w.flights[id].phase.at <= at
  }

  ghost predicate FetchedAndCurrent(w: World, f: Flight) {
    f.phase.Fetched? && Current(w, f)
  }

  ghost predicate Next(cfg: Config, w: World, step: Step, w': World) {
    match step
    case Put(e) =>
      && PutAllowed(cfg, w.source, w.horizon, e) && AllExportedBy(w, e.record.alterId - 1)
      && w' == w.(source := PutIn(cfg, w.source, e))
    case Delete(g) =>
      && !cfg.keepsKeys && g in w.source.live
      && w' == w.(source := w.source.(live := w.source.live - {g}))
    case Begin(id, full) =>
      && id !in w.flights
      && w' == w.(flights := w.flights[id := Flight(Begun(full, StartAlterId(w.stores, full)), 0)])
    case Fetch(id, items, at) =>
      && id in w.flights && w.flights[id].phase.Begun?
      && IsSnapshot(items, w.source.live)
      && AllExportedBy(w, at) && MaxAlterId(items) <= at <= w.source.counter
      && var b := w.flights[id].phase;
         w' == w.(fetches := w.fetches + 1,
                  flights := w.flights[id := Flight(Fetched(b.full, b.alterId, items, at), w.fetches + 1)])
    case Commit(id) =>
      && id in w.flights && w.flights[id].phase.Fetched? && Current(w, w.flights[id])
      && var f := w.flights[id];
         var r := SyncFrom(cfg.kind, w.stores, f.phase.alterId, f.phase.full, f.phase.items);
         r.Ok? && w' == World(w.source, r.value.0, f.phase.at, w.flights - {id}, w.fetches, f.order)
    case Abort(id) =>
      id in w.flights && w' == w.(flights := w.flights - {id})
  }

  // ----- the invariant -----

  ghost predicate WorldInv(cfg: Config, w: World) {
    && Inv(cfg, View(w, Idle))
    && (forall id :: id in w.flights ==> FlightOk(cfg, w, w.flights[id]))
    && (forall i, j :: i in w.flights && j in w.flights ==> PairOk(cfg, w, w.flights[i], w.flights[j]))
  }

  ghost predicate FlightOk(cfg: Config, w: World, f: Flight) {
    && !f.phase.Idle?
    && f.order <= w.fetches
    && (Current(w, f) ==> Inv(cfg, View(w, f.phase)))
  }

  /** An earlier export relates to a later one as it does to the source. */
  ghost predicate PairOk(cfg: Config, w: World, f: Flight, g: Flight) {
    Earlier(f, g) && Current(w, f) ==> Inv(cfg, Past(w, g, f.phase))
  }

  // ----- commits -----

  /** After the commit of f, whatever the source it is looked at with. */
  lemma {:induction false} CommitSeen(cfg: Config, src: Source, st: Stores, f: Phase, horizon: nat, st': Stores)
    requires ValidConfig(cfg) && f.Fetched? && Inv(cfg, State(src, st, f, horizon))
    requires SyncFrom(cfg.kind, st, f.alterId, f.full, f.items).Ok?
    requires st' == SyncFrom(cfg.kind, st, f.alterId, f.full, f.items).value.0
    ensures Inv(cfg, State(src, st', Idle, f.at))
  {
    hide SyncFrom, Inv, ValidConfig;
    CommitKeepsInv(cfg, State(src, st, f, horizon), State(src, st', Idle, f.at));
  }

  /** The phase of g, fetched after the committed export, still stands: `src` is the source, or a later export. */
  lemma {:induction false} LaterStands(cfg: Config, src: Source, st: Stores, g: Phase, horizon: nat, st': Stores, at: nat)
    requires g.Fetched? && Inv(cfg, State(src, st, g, horizon)) && horizon <= at
    requires Inv(cfg, State(src, st', Idle, at))
    requires Inv(cfg, State(Source(ByGuid(g.items), g.at), st', Idle, at))
    ensures Inv(cfg, State(src, st', g, at))
  {
    hide HistoryOk, EntityOk, ItemsOk, Covered, Ahead, Drift, DistinctGuids;
  }

  lemma {:induction false} CommitKeepsWorld(cfg: Config, w: World, id: nat, w': World)
    requires ValidConfig(cfg) && WorldInv(cfg, w) && Next(cfg, w, Step.Commit(id), w')
    ensures WorldInv(cfg, w')
  {
    hide SyncFrom, Inv, ValidConfig;
    var f := w.flights[id];
    AtAboveHorizon(cfg, w.source, w.stores, f.phase, w.horizon);
    CommitSeen(cfg, w.source, w.stores, f.phase, w.horizon, w'.stores);
    forall j | j in w'.flights ensures FlightOk(cfg, w', w'.flights[j]) {
      assert FlightOk(cfg, w, w.flights[j]) && PairOk(cfg, w, f, w.flights[j]);
      FlightAfterCommit(cfg, w, f, w', w.flights[j]);
    }
    forall j, k | j in w'.flights && k in w'.flights ensures PairOk(cfg, w', w'.flights[j], w'.flights[k]) {
      assert PairOk(cfg, w, w.flights[j], w.flights[k]) && PairOk(cfg, w, f, w.flights[j]) && PairOk(cfg, w, f, w.flights[k]);
      PairAfterCommit(cfg, w, f, w', w.flights[j], w.flights[k]);
    }
  }

  lemma {:induction false} AtAboveHorizon(cfg: Config, src: Source, st: Stores, f: Phase, horizon: nat)
    requires f.Fetched? && Inv(cfg, State(src, st, f, horizon))
    ensures horizon <= f.at && f.alterId <= horizon
  {
    hide HistoryOk, EntityOk, ItemsOk, Covered, Ahead, Drift, DistinctGuids;
  }

  /** f was committed. */
  ghost predicate CommittedBy(cfg: Config, w: World, f: Flight, w': World) {
    && f.phase.Fetched? && Current(w, f) && Inv(cfg, View(w, f.phase)) && w.horizon <= f.phase.at
    && w'.source == w.source && w'.horizon == f.phase.at && w'.fetches == w.fetches && w'.committed == f.order
    && var r := SyncFrom(cfg.kind, w.stores, f.phase.alterId, f.phase.full, f.phase.items);
       r.Ok? && w'.stores == r.value.0
  }

  lemma {:induction false} FlightAfterCommit(cfg: Config, w: World, f: Flight, w': World, g: Flight)
    requires ValidConfig(cfg) && CommittedBy(cfg, w, f, w') && FlightOk(cfg, w, g) && PairOk(cfg, w, f, g)
    requires Inv(cfg, View(w', Idle))
    ensures FlightOk(cfg, w', g)
  {
    hide SyncFrom, Inv, ValidConfig;
    if g.phase.Begun? {
      BegunStands(cfg, w.source, w.stores, g.phase, w.horizon, w'.stores, w'.horizon);
    } else if g.order > f.order {
      CommitSeen(cfg, Source(ByGuid(g.phase.items), g.phase.at), w.stores, f.phase, w.horizon, w'.stores);
      LaterStands(cfg, w.source, w.stores, g.phase, w.horizon, w'.stores, w'.horizon);
    }
  }

  lemma {:induction false} BegunStands(cfg: Config, src: Source, st: Stores, g: Phase, horizon: nat, st': Stores, at: nat)
    requires g.Begun? && Inv(cfg, State(src, st, g, horizon)) && horizon <= at
    requires Inv(cfg, State(src, st', Idle, at))
    ensures Inv(cfg, State(src, st', g, at))
  {
    hide HistoryOk, EntityOk, ItemsOk, Covered, Ahead;
  }

  lemma {:induction false} PairAfterCommit(cfg: Config, w: World, f: Flight, w': World, g: Flight, h: Flight)
    requires ValidConfig(cfg) && CommittedBy(cfg, w, f, w')
    requires PairOk(cfg, w, g, h) && PairOk(cfg, w, f, g) && PairOk(cfg, w, f, h)
    ensures PairOk(cfg, w', g, h)
  {
    hide SyncFrom, Inv, ValidConfig;
    if Earlier(g, h) && Current(w', g) {
      CommitSeen(cfg, Source(ByGuid(g.phase.items), g.phase.at), w.stores, f.phase, w.horizon, w'.stores);
      CommitSeen(cfg, Source(ByGuid(h.phase.items), h.phase.at), w.stores, f.phase, w.horizon, w'.stores);
      LaterStands(cfg, Source(ByGuid(h.phase.items), h.phase.at), w.stores, g.phase, w.horizon, w'.stores, w'.horizon);
    }
  }

  // ----- the other steps -----

  lemma {:induction false} PutKeepsWorld(cfg: Config, w: World, e: Element, w': World)
    requires ValidConfig(cfg) && WorldInv(cfg, w) && Next(cfg, w, Step.Put(e), w')
    ensures WorldInv(cfg, w')
  {
    hide Inv, ValidConfig, PutIn;
    PutKeepsInv(cfg, View(w, Idle), e, View(w', Idle));
    forall id | id in w'.flights ensures FlightOk(cfg, w', w'.flights[id]) {
      var f := w.flights[id];
      assert FlightOk(cfg, w, f);
      if Current(w, f) {
        PutKeepsInv(cfg, View(w, f.phase), e, View(w', f.phase));
      }
    }
    forall i, j | i in w'.flights && j in w'.flights ensures PairOk(cfg, w', w'.flights[i], w'.flights[j]) {
      assert PairOk(cfg, w, w.flights[i], w.flights[j]);
    }
  }

  lemma {:induction false} DeleteKeepsWorld(cfg: Config, w: World, g: Guid, w': World)
    requires ValidConfig(cfg) && WorldInv(cfg, w) && Next(cfg, w, Step.Delete(g), w')
    ensures WorldInv(cfg, w')
  {
    hide Inv, ValidConfig;
    DeleteKeepsInv(cfg, View(w, Idle), g, View(w', Idle));
    forall id | id in w'.flights ensures FlightOk(cfg, w', w'.flights[id]) {
      var f := w.flights[id];
      assert FlightOk(cfg, w, f);
      if Current(w, f) {
        DeleteKeepsInv(cfg, View(w, f.phase), g, View(w', f.phase));
      }
    }
    forall i, j | i in w'.flights && j in w'.flights ensures PairOk(cfg, w', w'.flights[i], w'.flights[j]) {
      assert PairOk(cfg, w, w.flights[i], w.flights[j]);
    }
  }

  lemma {:induction false} BeginKeepsWorld(cfg: Config, w: World, id: nat, full: bool, w': World)
    requires ValidConfig(cfg) && WorldInv(cfg, w) && Next(cfg, w, Step.Begin(id, full), w')
    ensures WorldInv(cfg, w')
  {
    hide Inv, ValidConfig, StartAlterId;
    BeginOk(cfg, w, full);
    var begun := Flight(Begun(full, StartAlterId(w.stores, full)), 0);
    assert FlightOk(cfg, w', begun);
    forall i | i in w'.flights ensures FlightOk(cfg, w', w'.flights[i]) {
      if i != id {
        assert FlightOk(cfg, w, w.flights[i]);
      }
    }
    forall i, j | i in w'.flights && j in w'.flights ensures PairOk(cfg, w', w'.flights[i], w'.flights[j]) {
      if i != id && j != id {
        assert PairOk(cfg, w, w.flights[i], w.flights[j]);
      }
    }
  }

  lemma {:induction false} BeginOk(cfg: Config, w: World, full: bool)
    requires Inv(cfg, View(w, Idle))
    ensures Inv(cfg, View(w, Begun(full, StartAlterId(w.stores, full))))
  {
    hide HistoryOk, EntityOk, ItemsOk, Covered, Ahead;
  }

  lemma {:induction false} FetchKeepsWorld(cfg: Config, w: World, id: nat, items: seq<Item>, at: nat, w': World)
    requires ValidConfig(cfg) && WorldInv(cfg, w) && Next(cfg, w, Step.Fetch(id, items, at), w')
    ensures WorldInv(cfg, w')
  {
    hide Inv, ValidConfig, IsSnapshot, MaxAlterId;
    var fetched := w'.flights[id];
    assert FlightOk(cfg, w, w.flights[id]);
    FetchOk(cfg, w.source, w.stores, w.flights[id].phase, w.horizon, items, at);
    forall i | i in w'.flights ensures FlightOk(cfg, w', w'.flights[i]) {
      assert i != id ==> FlightOk(cfg, w, w.flights[i]);
    }
    forall i, j | i in w'.flights && j in w'.flights ensures PairOk(cfg, w', w'.flights[i], w'.flights[j]) {
      assert i != id ==> FlightOk(cfg, w, w.flights[i]);
      if i != id && j != id {
        assert PairOk(cfg, w, w.flights[i], w.flights[j]);
      } else if i != id && Current(w, w.flights[i]) && w.flights[i].phase.Fetched? {
        ExportIsSource(cfg, w.source, w.stores, w.flights[i].phase, w.horizon, items, at);
      } else if i == id && j != id {
        assert FlightOk(cfg, w, w.flights[j]);
      }
    }
  }

  lemma {:induction false} FetchOk(cfg: Config, src: Source, st: Stores, b: Phase, horizon: nat, items: seq<Item>, at: nat)
    requires b.Begun? && Inv(cfg, State(src, st, b, horizon)) && IsSnapshot(items, src.live)
    requires horizon <= at <= src.counter && MaxAlterId(items) <= at
    ensures Inv(cfg, State(src, st, Fetched(b.full, b.alterId, items, at), horizon))
  {
    hide HistoryOk, EntityOk, Covered, Ahead, MaxAlterId;
    BoundedBy(cfg, src.live, src.counter, items, at);
  }

  lemma {:induction false} BoundedBy(cfg: Config, m: map<Guid, Item>, bound: nat, items: seq<Item>, at: nat)
    requires ItemsOk(cfg, m, bound) && IsSnapshot(items, m) && MaxAlterId(items) <= at
    ensures ItemsOk(cfg, m, at)
  {
    hide MaxAlterId;
    assert forall g :: g in m ==> m[g] in items;
  }

  /** An export just taken stands for the source. */
  lemma {:induction false} ExportIsSource(cfg: Config, src: Source, st: Stores, f: Phase, horizon: nat, items: seq<Item>, at: nat)
    requires f.Fetched? && Inv(cfg, State(src, st, f, horizon)) && IsSnapshot(items, src.live)
    requires f.at <= at && MaxAlterId(items) <= at
    ensures Inv(cfg, State(Source(ByGuid(items), at), st, f, horizon))
  {
    hide HistoryOk, EntityOk, Covered, Ahead, Drift, MaxAlterId;
    BoundedBy(cfg, src.live, src.counter, items, at);
  }

  lemma {:induction false} AbortKeepsWorld(cfg: Config, w: World, id: nat, w': World)
    requires WorldInv(cfg, w) && Next(cfg, w, Step.Abort(id), w')
    ensures WorldInv(cfg, w')
  {
    hide Inv;
    forall i | i in w'.flights ensures FlightOk(cfg, w', w'.flights[i]) {
      assert FlightOk(cfg, w, w.flights[i]);
    }
    forall i, j | i in w'.flights && j in w'.flights ensures PairOk(cfg, w', w'.flights[i], w'.flights[j]) {
      assert PairOk(cfg, w, w.flights[i], w.flights[j]);
    }
  }

  // ----- runs -----

  ghost predicate IsRun(cfg: Config, run: seq<World>, steps: seq<Step>) {
    && |run| == |steps| + 1
    && Init(cfg, View(run[0], Idle)) && run[0].flights == map[] && run[0].fetches == run[0].committed == 0
    && forall i :: 0 <= i < |steps| ==> Next(cfg, run[i], steps[i], run[i + 1])
  }

  lemma {:induction false} NextKeepsWorld(cfg: Config, w: World, step: Step, w': World)
    requires ValidConfig(cfg) && WorldInv(cfg, w) && Next(cfg, w, step, w')
    ensures WorldInv(cfg, w')
  {
    hide WorldInv, ValidConfig, Next;
    match step
    case Put(e) => PutKeepsWorld(cfg, w, e, w');
    case Delete(g) => DeleteKeepsWorld(cfg, w, g, w');
    case Begin(id, full) => BeginKeepsWorld(cfg, w, id, full, w');
    case Fetch(id, items, at) => FetchKeepsWorld(cfg, w, id, items, at, w');
    case Commit(id) => CommitKeepsWorld(cfg, w, id, w');
    case Abort(id) => AbortKeepsWorld(cfg, w, id, w');
  }

  /** However many syncs overlap, each with its own, possibly stale checkpoint, the invariant holds in every
      state of a run that commits exports in the order of their fetches. */
  lemma {:induction false} RunKeepsWorld(cfg: Config, run: seq<World>, steps: seq<Step>, i: nat)
    requires ValidConfig(cfg) && IsRun(cfg, run, steps) && i < |run|
    ensures WorldInv(cfg, run[i])
  {
    hide WorldInv, Next, ValidConfig, Init;
    if i == 0 {
      StartOk(cfg, run[0]);
    } else {
      RunKeepsWorld(cfg, run, steps, i - 1);
      assert Next(cfg, run[i - 1], steps[i - 1], run[i]);
      NextKeepsWorld(cfg, run[i - 1], steps[i - 1], run[i]);
    }
  }

  lemma {:induction false} StartOk(cfg: Config, w: World)
    requires ValidConfig(cfg) && Init(cfg, View(w, Idle)) && w.flights == map[]
    ensures WorldInv(cfg, w)
  {
    Invariant.RunKeepsInv(cfg, [View(w, Idle)], [], 0);
    hide Inv, Init, ValidConfig;
  }

  /** So the stores agree with the source on every live record at or below the checkpoint in every state. */
  lemma {:induction false} OverlapAgreement(cfg: Config, run: seq<World>, steps: seq<Step>, i: nat, g: Guid)
    requires ValidConfig(cfg) && IsRun(cfg, run, steps) && i < |run|
    requires g in run[i].source.live && run[i].source.live[g].AlterId() <= SavedAlterId(run[i].stores)
    ensures Agrees(cfg, View(run[i], Idle), g)
  {
    hide Inv, IsRun, ValidConfig;
    RunKeepsWorld(cfg, run, steps, i);
    SavedBelowHorizon(cfg, View(run[i], Idle));
    BelowHorizonAgrees(cfg, View(run[i], Idle), g);
  }

  lemma {:induction false} SavedBelowHorizon(cfg: Config, s: State)
    requires Inv(cfg, s)
    ensures SavedAlterId(s.stores) <= s.horizon
  {
    hide HistoryOk, EntityOk, ItemsOk, Covered, Ahead, PhaseOk;
  }

  // ----- one commit of any export, overtaken ones included -----

  /** The stores agree with the source on every live record at or below the horizon. */
  ghost predicate AgreeBelow(cfg: Config, m: map<Guid, Item>, horizon: nat, st: Stores) {
    && ArchivedBelow(m, horizon, st.archive)
    && (cfg.uniqueKeys ==> RowsBelow(m, horizon, st.entity))
  }

  ghost predicate ArchivedBelow(m: map<Guid, Item>, horizon: nat, archive: Archive) {
    forall g :: g in m && m[g].AlterId() <= horizon ==> g in archive && archive[g] == m[g]
  }

  ghost predicate RowsBelow(m: map<Guid, Item>, horizon: nat, entity: map<Key, Record>) {
    forall g :: g in m && m[g].AlterId() <= horizon ==> m[g].Key() in entity && entity[m[g].Key()] == m[g].element.record
  }

  /** What the filter lets through of a record that is live at or below the horizon is that record. */
  ghost predicate PassesOnlyLive(m: map<Guid, Item>, horizon: nat, passing: seq<Item>) {
    forall x :: x in passing && x.Guid() in m && m[x.Guid()].AlterId() <= horizon ==> m[x.Guid()] == x
  }

  /** A key of such a record, if it is upserted at all, gets that record. */
  ghost predicate UpsertsOnlyLive(m: map<Guid, Item>, horizon: nat, w: map<Key, Record>) {
    forall g :: g in m && m[g].AlterId() <= horizon && m[g].Key() in w ==> w[m[g].Key()] == m[g].element.record
  }

  /** From a state with the invariant, the commit of any export, however old and under whatever checkpoint,
      keeps the agreement if and only if it lets through, and upserts, nothing else than the live record for
      any record that is live at or below the horizon. */
  lemma {:induction false} AnyCommitKeepsAgreementIff(cfg: Config, s: State, alterId: int, full: bool, items: seq<Item>)
    requires Inv(cfg, s) && DistinctGuids(items)
    requires SyncFrom(cfg.kind, s.stores, alterId, full, items).Ok?
    ensures var changed := ChangedItems(s.stores, alterId, full, items);
            AgreeBelow(cfg, s.source.live, s.horizon, SyncFrom(cfg.kind, s.stores, alterId, full, items).value.0) <==>
            (PassesOnlyLive(s.source.live, s.horizon, Passing(items, alterId, full)) &&
             (cfg.uniqueKeys ==> UpsertsOnlyLive(s.source.live, s.horizon, Winners(cfg.kind, RecordsOf(changed)))))
  {
    hide Inv, RunFidelity, ChangedItems, Winners, RecordsOf, CreateVersions, TooMany, ByGuid, DistinctGuids, Passing,
         NextCheckpoint, PassesOnlyLive, UpsertsOnlyLive, ArchivedBelow, RowsBelow;
    var m, passing := s.source.live, Passing(items, alterId, full);
    var w := Winners(cfg.kind, RecordsOf(ChangedItems(s.stores, alterId, full, items)));
    FidelityEffect(cfg.kind, s.stores, alterId, full, items);
    InvAgrees(cfg, s);
    LiveIsKeyed(cfg, s);
    DistinctPassing(items, alterId, full);
    ArchivePlusIff(m, s.horizon, s.stores.archive, passing);
    if cfg.uniqueKeys {
      RowsPlusIff(m, s.horizon, s.stores.entity, w);
    }
  }

  lemma {:induction false} InvAgrees(cfg: Config, s: State)
    requires Inv(cfg, s)
    ensures AgreeBelow(cfg, s.source.live, s.horizon, s.stores)
  {
    hide Inv;
    forall g | g in s.source.live && s.source.live[g].AlterId() <= s.horizon ensures Agrees(cfg, s, g) {
      BelowHorizonAgrees(cfg, s, g);
    }
  }

  lemma {:induction false} LiveIsKeyed(cfg: Config, s: State)
    requires Inv(cfg, s)
    ensures forall g :: g in s.source.live ==> s.source.live[g].Guid() == g
  {
    hide HistoryOk, EntityOk, Covered, Ahead, PhaseOk, StampsOnce, KeysOnce;
  }

  lemma {:induction false} ArchivePlusIff(m: map<Guid, Item>, horizon: nat, archive: Archive, passing: seq<Item>)
    requires DistinctGuids(passing) && ArchivedBelow(m, horizon, archive)
    requires forall g :: g in m ==> m[g].Guid() == g
    ensures ArchivedBelow(m, horizon, archive + ByGuid(passing)) <==> PassesOnlyLive(m, horizon, passing)
  {
    ByGuidFinds(passing);
    hide ByGuid, DistinctGuids;
    if ArchivedBelow(m, horizon, archive + ByGuid(passing)) {
      forall x | x in passing && x.Guid() in m && m[x.Guid()].AlterId() <= horizon ensures m[x.Guid()] == x {
        assert (archive + ByGuid(passing))[x.Guid()] == x;
      }
    }
  }

  lemma {:induction false} RowsPlusIff(m: map<Guid, Item>, horizon: nat, entity: map<Key, Record>, w: map<Key, Record>)
    requires RowsBelow(m, horizon, entity)
    ensures RowsBelow(m, horizon, entity + w) <==> UpsertsOnlyLive(m, horizon, w)
  {
  }

  // ----- one sync at a time is a special case -----

  ghost predicate Shows(w: World, s: State) {
    && w.source == s.source && w.stores == s.stores && w.horizon == s.horizon
    && w.committed <= w.fetches
    && match s.phase
       case Idle => w.flights == map[]
       case Begun(_, _) => w.flights == map[0 := Flight(s.phase, 0)]
       case Fetched(_, _, _, _) => w.flights == map[0 := Flight(s.phase, w.fetches)] && w.committed < w.fetches
  }

  lemma {:induction false} SingleStep(cfg: Config, s: State, event: Event, s': State, w: World) returns (step: Step, w': World)
    requires Inv(cfg, s) && Protocol.Next(cfg, s, event, s') && Shows(w, s)
    ensures Next(cfg, w, step, w') && Shows(w', s')
  {
    hide SyncFrom, PutAllowed, IsSnapshot, HistoryOk, EntityOk, ItemsOk, Covered, Ahead, Drift, DistinctGuids, PutIn, MaxAlterId;
    match event
    case Put(e) =>
      FrontierBounds(cfg, s, e);
      step, w' := Step.Put(e), w.(source := s'.source);
    case Delete(g) =>
      step, w' := Step.Delete(g), w.(source := s'.source);
    case Begin(full) =>
      step, w' := Step.Begin(0, full), w.(flights := map[0 := Flight(s'.phase, 0)]);
      assert w.flights[0 := Flight(s'.phase, 0)] == w'.flights;
    case Fetch(items) =>
      SnapshotBound(cfg, s, items);
      step := Step.Fetch(0, items, s'.phase.at);
      w' := w.(fetches := w.fetches + 1, flights := map[0 := Flight(s'.phase, w.fetches + 1)]);
      assert w.flights[0 := Flight(s'.phase, w.fetches + 1)] == w'.flights;
    case Commit =>
      step := Step.Commit(0);
      w' := World(s'.source, s'.stores, s'.horizon, map[], w.fetches, w.fetches);
      assert w.flights - {0} == map[];
    case Abort =>
      step, w' := Step.Abort(0), w.(flights := map[]);
      assert w.flights - {0} == map[];
  }

  lemma {:induction false} FrontierBounds(cfg: Config, s: State, e: Element)
    requires Inv(cfg, s) && PutAllowed(cfg, s.source, Frontier(s), e)
    ensures PutAllowed(cfg, s.source, s.horizon, e)
    ensures s.horizon < e.record.alterId && (s.phase.Fetched? ==> s.phase.at < e.record.alterId)
  {
    hide HistoryOk, EntityOk, ItemsOk, Covered, Ahead, Drift, DistinctGuids;
  }

  lemma {:induction false} SnapshotBound(cfg: Config, s: State, items: seq<Item>)
    requires Inv(cfg, s) && IsSnapshot(items, s.source.live)
    ensures s.horizon <= s.source.counter && MaxAlterId(items) <= s.source.counter
  {
    hide HistoryOk, EntityOk, Covered, Ahead, PhaseOk, StampsOnce, KeysOnce;
    if items != [] {
      var x :| x in items && x.AlterId() == MaxAlterId(items);
      ByGuidFinds(items);
      assert s.source.live[x.Guid()] == x;
    }
  }

  /** Every run of the protocol, with one sync at a time, is such a run. */
  lemma {:induction false} SingleRun(cfg: Config, states: seq<State>, events: seq<Event>, n: nat)
      returns (run: seq<World>, steps: seq<Step>)
    requires ValidConfig(cfg) && Protocol.IsRun(cfg, states, events) && n <= |events|
    ensures IsRun(cfg, run, steps) && |run| == |steps| + 1 && |steps| == n && Shows(run[n], states[n])
  {
    hide Protocol.Next, Next, Inv, Init, Shows, ValidConfig;
    if n == 0 {
      run, steps := [World(states[0].source, states[0].stores, states[0].horizon, map[], 0, 0)], [];
      ShowsStart(cfg, states[0], run[0]);
    } else {
      run, steps := SingleRun(cfg, states, events, n - 1);
      Invariant.RunKeepsInv(cfg, states, events, n - 1);
      assert Protocol.Next(cfg, states[n - 1], events[n - 1], states[n]);
      var step, w := SingleStep(cfg, states[n - 1], events[n - 1], states[n], run[n - 1]);
      forall i | 0 <= i < n ensures Next(cfg, (run + [w])[i], (steps + [step])[i], (run + [w])[i + 1]) {
        assert i < n - 1 ==> Next(cfg, run[i], steps[i], run[i + 1]);
      }
      run, steps := run + [w], steps + [step];
    }
  }

  lemma {:induction false} ShowsStart(cfg: Config, s: State, w: World)
    requires Init(cfg, s) && w == World(s.source, s.stores, s.horizon, map[], 0, 0)
    ensures Shows(w, s) && Init(cfg, View(w, Idle))
  {
  }
}
