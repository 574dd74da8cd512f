/** The service against the protocol: what the service commits is a Commit step, and a whole run of service
    calls and source edits is a run of the protocol. */
module Refinement {
  import opened Records
  import opened Pipeline
  import opened PipelineFacts
  import opened Protocol
  import opened Invariant
  import opened Theorems
  import opened Database
  import opened SyncService
  import opened Effects

  /** The state after the service committed: the tables of its scope are the protocol's stores. */
  ghost function AfterCommit(s: State, after: Database, scope: Scope): State
    requires s.phase.Fetched? && scope in after.tables
  {
    State(s.source, after.tables[scope].AsStores(), Idle, s.phase.at)
  }

  /** The checkpoint was read from these stores. */
  ghost predicate ReadsCurrent(s: State) {
    match s.phase
    case Idle => true
    case Begun(full, alterId) => alterId == StartAlterId(s.stores, full)
    case Fetched(full, alterId, _, _) => alterId == StartAlterId(s.stores, full)
  }

  /** On a database whose tables for the scope are the protocol's stores, a committed call of the service
      is the protocol's Commit, whatever other scopes hold. */
  lemma {:induction false} ServiceCommitIsProtocolCommit(cfg: Config, s: State, before: Database, scope: Scope,
                                                         id: nat, count: nat, after: Database)
    requires s.phase.Fetched? && ReadsCurrent(s) && StoresOf(cfg.kind, before, scope) == s.stores
    requires Commits(cfg.kind, s.phase.full, Fidelity(s.phase.items), before, scope, id, count, after)
    ensures scope in after.tables && Next(cfg, s, Commit, AfterCommit(s, after, scope))
  {
    hide SyncFrom, Tables.AsStores, EntityTable.Valid;
  }

  /** When the export still lists the source at the commit, the database then holds every live record:
      its element in the archive and, where keys are unique, its row with all child rows. */
  lemma {:induction false} ServiceSyncConverges(cfg: Config, s: State, before: Database, scope: Scope,
                                                id: nat, count: nat, after: Database, g: Guid)
    requires ValidConfig(cfg) && Inv(cfg, s) && s.phase.Fetched? && ReadsCurrent(s)
    requires StoresOf(cfg.kind, before, scope) == s.stores
    requires Commits(cfg.kind, s.phase.full, Fidelity(s.phase.items), before, scope, id, count, after)
    requires IsSnapshot(s.phase.items, s.source.live) && g in s.source.live
    ensures scope in after.tables && Inv(cfg, AfterCommit(s, after, scope))
    ensures g in after.tables[scope].archive && after.tables[scope].archive[g] == s.source.live[g]
    ensures cfg.uniqueKeys ==>
              var r, rows := s.source.live[g].element.record, after.tables[scope].entity.View();
              r.key in rows && rows[r.key] == r
  {
    hide SyncFrom, HistoryOk, EntityOk, ItemsOk, Covered, Ahead, Drift, DistinctGuids, EntityTable.Valid, EntityTable.View;
    ServiceCommitIsProtocolCommit(cfg, s, before, scope, id, count, after);
    var s' := AfterCommit(s, after, scope);
    NextKeepsInv(cfg, s, Commit, s');
    ExportIsStamped(cfg, s, g);
    BelowHorizonAgrees(cfg, s', g);
  }

  // ----- whole runs -----

  /** The source and the committed database; `phase` is where the service's call stands, if one is running,
      and `horizon` the highest alter id that its committed calls have exported. */
  datatype World = World(source: Source, db: Database, phase: Phase, horizon: nat)

  datatype Step =
    | Edit(event: Event)                     // the source changes, or the call begins or fetches
    | Done(id: nat, count: nat, after: Database)  // the call commits
    | Failed                                 // the call fails and is rolled back
    | Other(call: Call, effect: Effect)      // a call of another scope commits

  ghost function ToState(cfg: Config, scope: Scope, w: World): State {
    State(w.source, StoresOf(cfg.kind, w.db, scope), w.phase, w.horizon)
  }

  ghost predicate ServiceNext(cfg: Config, scope: Scope, w: World, step: Step, w': World) {
    match step
    case Edit(event) =>
      && !event.Commit? && !event.Abort?
      && w'.db == w.db
      && Next(cfg, ToState(cfg, scope, w), event, ToState(cfg, scope, w'))
    case Done(id, count, after) =>
      && w.phase.Fetched?
      && Commits(cfg.kind, w.phase.full, Fidelity(w.phase.items), w.db, scope, id, count, after)
      && w' == World(w.source, after, Idle, w.phase.at)
    case Failed =>
      !w.phase.Idle? && w' == w.(phase := Idle)
    case Other(call, effect) =>
      && effect.scope != scope
      && Specified(call, w.db, effect)
      && w' == w.(db := Applied(w.db, effect))
  }

  ghost predicate IsServiceRun(cfg: Config, scope: Scope, run: seq<World>, steps: seq<Step>) {
    && |run| == |steps| + 1
    && Init(cfg, ToState(cfg, scope, run[0]))
    && forall i :: 0 <= i < |steps| ==> ServiceNext(cfg, scope, run[i], steps[i], run[i + 1])
  }

  /** A database that never synced the scope is where a run starts, whatever the source lists by then. */
  lemma {:induction false} FreshScopeStarts(cfg: Config, scope: Scope, source: Source, db: Database)
    requires scope !in db.tables && ItemsOk(cfg, source.live, source.counter)
    ensures IsServiceRun(cfg, scope, [World(source, db, Idle, 0)], [])
  {
  }

  /** The first sync of a scope: it stores every record of the export. */
  lemma {:induction false} FirstSyncStoresAll(cfg: Config, scope: Scope, source: Source, db: Database, full: bool, items: seq<Item>,
                                              id: nat, count: nat, after: Database, g: Guid)
    requires ValidConfig(cfg) && scope !in db.tables && ItemsOk(cfg, source.live, source.counter)
    requires IsSnapshot(items, source.live) && g in source.live
    requires Commits(cfg.kind, full, Fidelity(items), db, scope, id, count, after)
    ensures count == |items|
    ensures scope in after.tables && g in after.tables[scope].archive && after.tables[scope].archive[g] == source.live[g]
    ensures cfg.uniqueKeys ==>
              var r, rows := source.live[g].element.record, after.tables[scope].entity.View();
              r.key in rows && rows[r.key] == r
  {
    hide SyncFrom, HistoryOk, EntityOk, ItemsOk, Covered, Ahead, Drift, DistinctGuids, EntityTable.Valid, EntityTable.View, ByGuid,
         MaxAlterId, Newer, ValidConfig, TooMany;
    var s := FirstExport(cfg, source, full, items);
    ServiceSyncConverges(cfg, s, db, scope, id, count, after, g);
    CommitEffect(cfg, NO_STORES, 0, 0, full, items, s.phase.at);
    ExportFacts(cfg, s);
    NewerThanZero(items);
  }

  lemma {:induction false} FirstExport(cfg: Config, source: Source, full: bool, items: seq<Item>) returns (s: State)
    requires ValidConfig(cfg) && ItemsOk(cfg, source.live, source.counter) && IsSnapshot(items, source.live)
    ensures s.source == source && s.stores == NO_STORES && s.horizon == 0
    ensures s.phase == Fetched(full, 0, items, Max(0, MaxAlterId(items))) && Inv(cfg, s)
  {
    hide Inv, ItemsOk, IsSnapshot, MaxAlterId, ValidConfig;
    var start := State(source, NO_STORES, Idle, 0);
    var begun := start.(phase := Begun(full, 0));
    s := start.(phase := Fetched(full, 0, items, Max(0, MaxAlterId(items))));
    var run, events := StartRun(cfg, start);
    NextKeepsInv(cfg, start, Begin(full), begun);
    NextKeepsInv(cfg, begun, Fetch(items), s);
  }

  lemma {:induction false} ReadsStayCurrent(cfg: Config, s: State, event: Event, s': State)
    requires Next(cfg, s, event, s') && ReadsCurrent(s)
    ensures ReadsCurrent(s')
  {
    hide SyncFrom, IsSnapshot, PutAllowed, StartAlterId;
  }

  /** A step of the service is a step of the protocol, or changes nothing that the protocol sees. */
  lemma {:induction false} StepOfService(cfg: Config, scope: Scope, w: World, step: Step, w': World) returns (event: Event)
    requires ServiceNext(cfg, scope, w, step, w') && ReadsCurrent(ToState(cfg, scope, w))
    ensures ReadsCurrent(ToState(cfg, scope, w'))
    ensures if step.Other? then ToState(cfg, scope, w') == ToState(cfg, scope, w)
            else Next(cfg, ToState(cfg, scope, w), event, ToState(cfg, scope, w'))
  {
    hide SyncFrom, IsSnapshot, PutAllowed, Tables.AsStores, EntityTable.Valid, Outcome;
    event := Abort;
    match step
    case Edit(e) =>
      event := e;
      ReadsStayCurrent(cfg, ToState(cfg, scope, w), e, ToState(cfg, scope, w'));
    case Done(id, count, after) =>
      event := Commit;
      ServiceCommitIsProtocolCommit(cfg, ToState(cfg, scope, w), w.db, scope, id, count, after);
    case Failed =>
    case Other(_, _) =>
  }

  /** A run of service calls, source edits and syncs of other scopes is a run of the protocol on the tables
      of the scope, so all that is proved of the protocol's runs holds of the database. */
  lemma {:induction false} ServiceRunIsProtocolRun(cfg: Config, scope: Scope, run: seq<World>, steps: seq<Step>, n: nat)
      returns (states: seq<State>, events: seq<Event>)
    requires ValidConfig(cfg) && IsServiceRun(cfg, scope, run, steps) && n <= |steps|
    ensures IsRun(cfg, states, events) && |states| == |events| + 1
    ensures Last(states, events) == ToState(cfg, scope, run[n]) && ReadsCurrent(Last(states, events))
  {
    hide Next, ServiceNext, Inv, Init, ToState, ValidConfig, IsRun;
    if n == 0 {
      states, events := StartRun(cfg, ToState(cfg, scope, run[0]));
      StartsIdle(cfg, ToState(cfg, scope, run[0]));
    } else {
      states, events := ServiceRunIsProtocolRun(cfg, scope, run, steps, n - 1);
      assert ServiceNext(cfg, scope, run[n - 1], steps[n - 1], run[n]);
      var event := StepOfService(cfg, scope, run[n - 1], steps[n - 1], run[n]);
      if !steps[n - 1].Other? {
        states, events := Extend(cfg, states, events, event, ToState(cfg, scope, run[n]));
      }
    }
  }

  lemma {:induction false} StartsIdle(cfg: Config, s: State)
    requires Init(cfg, s)
    ensures ReadsCurrent(s)
  {
  }

  /** In every state of such a run the database agrees with the source on each live record at or below the
      saved checkpoint. */
  lemma {:induction false} ServiceRunAgrees(cfg: Config, scope: Scope, run: seq<World>, steps: seq<Step>, n: nat, g: Guid)
    requires ValidConfig(cfg) && IsServiceRun(cfg, scope, run, steps) && n <= |steps|
    requires g in run[n].source.live
    requires run[n].source.live[g].AlterId() <= SavedAlterId(StoresOf(cfg.kind, run[n].db, scope))
    ensures Agrees(cfg, ToState(cfg, scope, run[n]), g)
  {
    hide Next, ServiceNext, Inv, Init, ValidConfig, IsRun, IsServiceRun, Agrees, StoresOf;
    var states, events := ServiceRunIsProtocolRun(cfg, scope, run, steps, n);
    RunLength(cfg, states, events);
    CheckpointMeansAgreement(cfg, states, events, |events|, g);
  }

  lemma {:induction false} RunLength(cfg: Config, states: seq<State>, events: seq<Event>)
    requires IsRun(cfg, states, events)
    ensures |states| == |events| + 1
  {
    hide Next, Init;
  }
}
