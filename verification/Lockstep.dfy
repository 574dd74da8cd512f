/** The hash-skipping pipeline and the upsert-everything one side by side, over whole runs. */
module Lockstep {
  import opened Records
  import opened Dedupe
  import opened Pipeline
  import opened PipelineFacts
  import opened Protocol
  import opened Invariant
  import opened Theorems

  /** The same event on stores that are synced by upserting everything, with a checkpoint of their own; a
      sync that fails is rolled back. */
  ghost predicate LegacyNext(cfg: Config, s: State, l: Stores, event: Event, l': Stores) {
    if event.Commit? then
      && s.phase.Fetched?
      && match LegacySync(cfg.kind, l, s.phase.full, s.phase.items)
         case Ok(done) => l' == done.0
         case Err(_) => l' == l
    else l' == l
  }

  /** A full commit keeps to the parameter ceiling with its whole export, or finds nothing new in it. */
  ghost predicate Fits(cfg: Config, s: State, event: Event) {
    event.Commit? && s.phase.Fetched? && s.phase.full ==>
      !TooMany(cfg.kind, s.phase.items) || Newer(s.phase.items, s.horizon) == []
  }

  /** `legacy` goes through the events of the run as well. */
  ghost predicate Follows(cfg: Config, run: seq<State>, events: seq<Event>, legacy: seq<Stores>) {
    && |legacy| == |run| == |events| + 1
    && legacy[0] == NO_STORES
    && forall i :: 0 <= i < |events| ==> LegacyNext(cfg, run[i], legacy[i], events[i], legacy[i + 1])
  }

  /** What is stamped at or below the horizon lies below the checkpoint. */
  ghost predicate Below(l: Stores, horizon: nat, m: map<Guid, Item>) {
    forall g :: g in m && m[g].AlterId() <= horizon ==> m[g].AlterId() <= SavedAlterId(l)
  }

  /** Equal entity tables, and a checkpoint that cuts where the other one does. */
  ghost predicate InStep(s: State, l: Stores) {
    && l.entity == s.stores.entity
    && 0 <= SavedAlterId(l) <= s.horizon
    && Below(l, s.horizon, s.source.live)
    && (s.phase.Fetched? ==> Below(l, s.horizon, ByGuid(s.phase.items)))
  }

  // ----- one commit -----

  lemma {:induction false} LegacyCheckpoint(kind: Kind, l: Stores, full: bool, items: seq<Item>, horizon: nat, at: nat)
    requires LegacySync(kind, l, full, items).Ok?
    requires 0 <= SavedAlterId(l) <= horizon <= at
    requires forall x :: x in items ==> 1 <= x.AlterId() <= at
    requires forall x :: x in items && x.AlterId() <= horizon ==> x.AlterId() <= SavedAlterId(l)
    ensures var saved := SavedAlterId(LegacySync(kind, l, full, items).value.0);
            0 <= saved <= at && forall x :: x in items ==> x.AlterId() <= saved
  {
    hide Winners, RecordsOf, UpsertEntities, Passing, MaxAlterId;
    PassingOrOld(l, full, items, horizon);
    var passing := Passing(items, StartAlterId(l, full), full);
    if passing != [] {
      var x :| x in passing && x.AlterId() == MaxAlterId(passing);
      assert !full ==> x.AlterId() > horizon;
    }
  }

  /** What does not pass lies below the checkpoint; what passes an incremental sync lies above the horizon. */
  lemma {:induction false} PassingOrOld(l: Stores, full: bool, items: seq<Item>, horizon: nat)
    requires 0 <= SavedAlterId(l) <= horizon
    requires forall x :: x in items ==> 1 <= x.AlterId()
    requires forall x :: x in items && x.AlterId() <= horizon ==> x.AlterId() <= SavedAlterId(l)
    ensures var passing := Passing(items, StartAlterId(l, full), full);
            && (forall x :: x in passing ==> x in items && (!full ==> x.AlterId() > horizon))
            && (forall x :: x in items && x !in passing ==> x.AlterId() <= SavedAlterId(l))
            && (full ==> passing == items)
  {
    if !full {
      PassingIsNewer(items, SavedAlterId(l), horizon);
    }
  }

  /** Both pipelines leave the same entity table. */
  lemma {:induction false} SameTable(cfg: Config, s: State, l: Stores)
    requires ValidConfig(cfg) && Inv(cfg, s) && s.phase.Fetched? && (cfg.uniqueKeys || cfg.keepsKeys)
    requires l.entity == s.stores.entity && 0 <= SavedAlterId(l) <= s.horizon
    requires Below(l, s.horizon, ByGuid(s.phase.items))
    requires SyncFrom(cfg.kind, s.stores, s.phase.alterId, s.phase.full, s.phase.items).Ok?
    requires LegacySync(cfg.kind, l, s.phase.full, s.phase.items).Ok?
    ensures LegacySync(cfg.kind, l, s.phase.full, s.phase.items).value.0.entity ==
            SyncFrom(cfg.kind, s.stores, s.phase.alterId, s.phase.full, s.phase.items).value.0.entity
  {
    hide SyncFrom, LegacySync, Inv, Winners, RecordsOf, ByGuid, Newer, Passing, MaxAlterId, ValidConfig, DistinctGuids, Shadowed, Tops, Below;
    var items := s.phase.items;
    TableAfter(cfg, s);
    LegacyEntity(cfg.kind, l, s.phase.full, items);
    if s.phase.full {
      LegacyFullElsewhere(cfg.kind, l, s.stores, items);
      forall k | k in Tops(cfg, s) ensures !Shadowed(s.stores.versions, k, Tops(cfg, s)[k].alterId) {
        NeverShadowed(cfg, s, k);
      }
      FullTablesAgree(cfg, s);
      FullTable(cfg, s);
    } else {
      CutsAlike(cfg, s, l);
    }
  }

  lemma {:induction false} TableAfter(cfg: Config, s: State)
    requires ValidConfig(cfg) && Inv(cfg, s) && s.phase.Fetched?
    ensures var r := SyncFrom(cfg.kind, s.stores, s.phase.alterId, s.phase.full, s.phase.items);
            r.Ok? ==> r.value.0.entity == s.stores.entity + Winners(cfg.kind, RecordsOf(Newer(s.phase.items, s.horizon)))
  {
    hide SyncFrom, HistoryOk, EntityOk, ItemsOk, Covered, Ahead, Drift, DistinctGuids, ByGuid, Newer, Winners, RecordsOf, ValidConfig;
    CommitEffect(cfg, s.stores, s.horizon, s.phase.alterId, s.phase.full, s.phase.items, s.phase.at);
  }

  lemma {:induction false} CutsAlike(cfg: Config, s: State, l: Stores)
    requires Inv(cfg, s) && s.phase.Fetched? && 0 <= SavedAlterId(l) <= s.horizon
    requires Below(l, s.horizon, ByGuid(s.phase.items))
    ensures Passing(s.phase.items, StartAlterId(l, false), false) == Newer(s.phase.items, s.horizon)
  {
    hide Newer;
    ByGuidFinds(s.phase.items);
    ExportFacts(cfg, s);
    PassingIsNewer(s.phase.items, SavedAlterId(l), s.horizon);
  }

  lemma {:induction false} LegacyFullElsewhere(kind: Kind, a: Stores, b: Stores, items: seq<Item>)
    requires a.entity == b.entity && LegacySync(kind, a, true, items).Ok?
    ensures LegacySync(kind, b, true, items).Ok?
    ensures LegacySync(kind, b, true, items).value.0.entity == LegacySync(kind, a, true, items).value.0.entity
  {
    hide Winners, RecordsOf, MaxAlterId, UpsertEntities;
  }

  /** The upsert-everything path fails at a commit only beyond the ceiling of a full one. */
  lemma {:induction false} LegacyFits(cfg: Config, s: State, l: Stores, s': State)
    requires ValidConfig(cfg) && Inv(cfg, s) && Next(cfg, s, Commit, s') && InStep(s, l)
    ensures s.phase.Fetched?
    ensures LegacySync(cfg.kind, l, s.phase.full, s.phase.items).Err? <==> s.phase.full && TooMany(cfg.kind, s.phase.items)
  {
    hide SyncFrom, LegacySync, HistoryOk, EntityOk, ItemsOk, Covered, Ahead, Drift, DistinctGuids, ByGuid, Newer, ValidConfig, TooMany;
    LegacyFails(cfg.kind, l, s.phase.full, s.phase.items);
    if !s.phase.full {
      CutsAlike(cfg, s, l);
      CommitEffect(cfg, s.stores, s.horizon, s.phase.alterId, false, s.phase.items, s.phase.at);
    }
  }

  lemma {:induction false} CommitInStep(cfg: Config, s: State, l: Stores, s': State, l': Stores)
    requires ValidConfig(cfg) && Inv(cfg, s) && (cfg.uniqueKeys || cfg.keepsKeys)
    requires Next(cfg, s, Commit, s') && LegacyNext(cfg, s, l, Commit, l') && InStep(s, l) && Fits(cfg, s, Commit)
    ensures InStep(s', l')
  {
    hide LegacySync, Inv, Fits, InStep, Next, ValidConfig, TooMany, Newer;
    LegacyFits(cfg, s, l, s');
    if LegacySync(cfg.kind, l, s.phase.full, s.phase.items).Ok? {
      BothCommit(cfg, s, l, s', l');
    } else {
      NothingNew(cfg, s);
      OneCommits(cfg, s, l, s');
    }
  }

  lemma {:induction false} NothingNew(cfg: Config, s: State)
    requires Fits(cfg, s, Commit) && s.phase.Fetched? && s.phase.full && TooMany(cfg.kind, s.phase.items)
    ensures Newer(s.phase.items, s.horizon) == []
  {
    hide TooMany, Newer;
  }

  lemma {:induction false} BothCommit(cfg: Config, s: State, l: Stores, s': State, l': Stores)
    requires ValidConfig(cfg) && Inv(cfg, s) && (cfg.uniqueKeys || cfg.keepsKeys)
    requires Next(cfg, s, Commit, s') && InStep(s, l) && s.phase.Fetched?
    requires LegacySync(cfg.kind, l, s.phase.full, s.phase.items).Ok?
    requires l' == LegacySync(cfg.kind, l, s.phase.full, s.phase.items).value.0
    ensures InStep(s', l')
  {
    hide SyncFrom, LegacySync, HistoryOk, EntityOk, ItemsOk, Covered, Ahead, DistinctGuids, ValidConfig, MaxAlterId;
    ByGuidFinds(s.phase.items);
    ExportFacts(cfg, s);
    SameTable(cfg, s, l);
    LegacyCheckpoint(cfg.kind, l, s.phase.full, s.phase.items, s.horizon, s.phase.at);
    hide Inv, Next;
    ExportBelow(s.phase.items, s.phase.at, s.source.live, l');
  }

  /** The upsert-everything path is rolled back, and the other one finds nothing new. */
  lemma {:induction false} OneCommits(cfg: Config, s: State, l: Stores, s': State)
    requires ValidConfig(cfg) && Inv(cfg, s) && Next(cfg, s, Commit, s') && InStep(s, l) && s.phase.Fetched?
    requires Newer(s.phase.items, s.horizon) == []
    ensures InStep(s', l)
  {
    hide SyncFrom, HistoryOk, EntityOk, ItemsOk, Covered, Ahead, DistinctGuids, ValidConfig;
    TableAfter(cfg, s);
    NovelChangesTable(cfg, s);
    NothingAbove(s.phase.items, s.horizon);
    ByGuidFinds(s.phase.items);
    hide Newer, ByGuid;
    ExportBelow(s.phase.items, s.phase.at, s.source.live, l);
  }

  lemma {:induction false} NothingAbove(items: seq<Item>, horizon: int)
    requires Newer(items, horizon) == []
    ensures forall x :: x in items ==> x.AlterId() <= horizon
  {
    forall x | x in items ensures x.AlterId() <= horizon {
      assert x !in Newer(items, horizon);
    }
  }

  lemma {:induction false} ExportBelow(items: seq<Item>, at: nat, m: map<Guid, Item>, l: Stores)
    requires StillCurrent(ByGuid(items), at, m)
    requires forall x :: x in items ==> x.AlterId() <= SavedAlterId(l)
    ensures Below(l, at, m)
  {
  }

  // ----- whole runs -----

  lemma {:induction false} StepInStep(cfg: Config, s: State, l: Stores, event: Event, s': State, l': Stores)
    requires ValidConfig(cfg) && Inv(cfg, s) && (cfg.uniqueKeys || cfg.keepsKeys)
    requires Next(cfg, s, event, s') && LegacyNext(cfg, s, l, event, l') && InStep(s, l) && Fits(cfg, s, event)
    ensures InStep(s', l')
  {
    if event.Commit? {
      CommitInStep(cfg, s, l, s', l');
    } else {
      hide SyncFrom, LegacySync, HistoryOk, EntityOk, ItemsOk, Covered, Ahead, DistinctGuids, ValidConfig, MaxAlterId, Drift;
      assert event.Put? ==> event.element.record.alterId > s.horizon;
    }
  }

  lemma {:induction false} StartInStep(cfg: Config, s: State)
    requires Init(cfg, s)
    ensures InStep(s, NO_STORES)
  {
  }

  lemma {:induction false} KeepsInStep(cfg: Config, run: seq<State>, events: seq<Event>, legacy: seq<Stores>, i: nat)
    requires ValidConfig(cfg) && (cfg.uniqueKeys || cfg.keepsKeys)
    requires IsRun(cfg, run, events) && Follows(cfg, run, events, legacy) && i < |run|
    requires forall j :: 0 <= j < i ==> Fits(cfg, run[j], events[j])
    ensures InStep(run[i], legacy[i])
  {
    hide Inv, InStep, LegacyNext, Next, Init, ValidConfig, Fits;
    if i == 0 {
      StartInStep(cfg, run[0]);
    } else {
      KeepsInStep(cfg, run, events, legacy, i - 1);
      RunKeepsInv(cfg, run, events, i - 1);
      assert Next(cfg, run[i - 1], events[i - 1], run[i]);
      assert LegacyNext(cfg, run[i - 1], legacy[i - 1], events[i - 1], legacy[i]);
      StepInStep(cfg, run[i - 1], legacy[i - 1], events[i - 1], run[i], legacy[i]);
    }
  }

  /** A full commit that does not fit parts the tables. */
  lemma {:induction false} MisfitParts(cfg: Config, s: State, l: Stores, s': State, l': Stores)
    requires ValidConfig(cfg) && Inv(cfg, s) && Next(cfg, s, Commit, s') && LegacyNext(cfg, s, l, Commit, l')
    requires !Fits(cfg, s, Commit) && l.entity == s.stores.entity
    ensures l'.entity != s'.stores.entity
  {
    hide SyncFrom, LegacySync, Inv, Winners, RecordsOf, ByGuid, Newer, ValidConfig, DistinctGuids, TooMany;
    LegacyFails(cfg.kind, l, true, s.phase.items);
    TableAfter(cfg, s);
    NovelChangesTable(cfg, s);
  }

  /** Where keys are unique, or records keep their keys and are never deleted, a run made of hash-skipping
      syncs and the same run made of upsert-everything syncs have equal entity tables in every state, if and
      only if each full commit keeps to the parameter ceiling with its whole export or finds nothing new. */
  lemma {:induction false} LegacyInLockstep(cfg: Config, run: seq<State>, events: seq<Event>, legacy: seq<Stores>)
    requires ValidConfig(cfg) && (cfg.uniqueKeys || cfg.keepsKeys)
    requires IsRun(cfg, run, events) && Follows(cfg, run, events, legacy)
    ensures (forall i :: 0 <= i < |run| ==> legacy[i].entity == run[i].stores.entity) <==>
            (forall i :: 0 <= i < |events| ==> Fits(cfg, run[i], events[i]))
  {
    hide Inv, LegacyNext, Next, Init, ValidConfig, Fits;
    if forall i :: 0 <= i < |events| ==> Fits(cfg, run[i], events[i]) {
      forall i | 0 <= i < |run| ensures legacy[i].entity == run[i].stores.entity {
        KeepsInStep(cfg, run, events, legacy, i);
      }
    }
    if forall i :: 0 <= i < |run| ==> legacy[i].entity == run[i].stores.entity {
      forall i | 0 <= i < |events| ensures Fits(cfg, run[i], events[i]) {
        assert Next(cfg, run[i], events[i], run[i + 1]) && LegacyNext(cfg, run[i], legacy[i], events[i], legacy[i + 1]);
        assert legacy[i + 1].entity == run[i + 1].stores.entity;
        RunKeepsInv(cfg, run, events, i);
        FitsOrParts(cfg, run[i], legacy[i], events[i], run[i + 1], legacy[i + 1]);
      }
    }
  }

  lemma {:induction false} FitsOrParts(cfg: Config, s: State, l: Stores, event: Event, s': State, l': Stores)
    requires ValidConfig(cfg) && Inv(cfg, s) && Next(cfg, s, event, s') && LegacyNext(cfg, s, l, event, l')
    requires l.entity == s.stores.entity && l'.entity == s'.stores.entity
    ensures Fits(cfg, s, event)
  {
    hide Inv, LegacyNext, Next, ValidConfig, TooMany, Newer;
    if event.Commit? && !Fits(cfg, s, event) {
      MisfitParts(cfg, s, l, s', l');
    }
  }
}
