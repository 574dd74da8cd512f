/** What the invariant gives: the promises of the incremental sync over whole runs. */
module Theorems {
  import opened Wrappers
  import opened Records
  import opened Dedupe
  import opened Pipeline
  import opened PipelineFacts
  import opened Protocol
  import opened Invariant
  import AlterIdFilter

  // ----- the entity table and the history -----

  /** In any two reachable states with the same version history the entity tables are equal: the
      table can be rebuilt from the history, however syncs, edits and aborts were interleaved. */
  lemma {:induction false} HistoryDeterminesEntity(cfg: Config, s: State, t: State)
    requires Inv(cfg, s) && Inv(cfg, t) && s.stores.versions == t.stores.versions
    ensures s.stores.entity == t.stores.entity
  {
    hide Ahead, Covered, PhaseOk, ItemsOk, VersionsOk, ArchiveOk;
    SameEntity(s.stores.versions, s.stores.entity, t.stores.entity);
    SameEntity(s.stores.versions, t.stores.entity, s.stores.entity);
  }

  lemma {:induction false} SameEntity(versions: Versions, e: map<Key, Record>, f: map<Key, Record>)
    requires HoldsNewest(versions, e) && HoldsVersions(versions, e)
    requires HoldsNewest(versions, f) && HoldsVersions(versions, f)
    requires VersionStampsOnce(versions)
    ensures forall k :: k in e ==> k in f && f[k] == e[k]
  {
    forall k | k in e ensures k in f && f[k] == e[k] {
      assert IsVersion(versions, e[k]);
      var v :| v in versions && versions[v].record == e[k];
      assert IsVersion(versions, f[k]);
      var w :| w in versions && versions[w].record == f[k];
    }
  }

  // ----- convergence -----

  /** Where keys are unique, a live record stamped at or below the horizon has its row. */
  lemma {:induction false} CurrentRow(cfg: Config, s: State, g: Guid)
    requires Inv(cfg, s) && cfg.uniqueKeys
    requires g in s.source.live && s.source.live[g].AlterId() <= s.horizon
    ensures s.source.live[g].Key() in s.stores.entity
    ensures s.stores.entity[s.source.live[g].Key()] == s.source.live[g].element.record
  {
    var m, st := s.source.live, s.stores;
    hide PhaseOk, StampsOnce, KeysOnce, KeysKept;
    RowIsNewest(st, m, g, (g, m[g].hash));
  }

  lemma {:induction false} RowIsNewest(st: Stores, m: map<Guid, Item>, g: Guid, v: (Guid, Hash))
    requires HoldsNewest(st.versions, st.entity) && HoldsVersions(st.versions, st.entity)
    requires VersionStampsOnce(st.versions) && NoneAhead(st.versions, m) && NewestUnderKey(st.versions, m)
    requires g in m && v in st.versions && v.0 == g && st.versions[v] == m[g].element
    ensures m[g].Key() in st.entity && st.entity[m[g].Key()] == m[g].element.record
  {
    assert IsVersion(st.versions, st.entity[m[g].Key()]);
    var w :| w in st.versions && st.versions[w].record == st.entity[m[g].Key()];
  }

  /** The stores agree with the source on a live record: its current element is archived with its
      current hash and, where keys are unique, its row stands under its key. */
  ghost predicate Agrees(cfg: Config, s: State, g: Guid)
    requires g in s.source.live
  {
    var x := s.source.live[g];
    && g in s.stores.archive && s.stores.archive[g] == x
    && (cfg.uniqueKeys ==> x.Key() in s.stores.entity && s.stores.entity[x.Key()] == x.element.record)
  }

  lemma {:induction false} BelowHorizonAgrees(cfg: Config, s: State, g: Guid)
    requires Inv(cfg, s)
    requires g in s.source.live && s.source.live[g].AlterId() <= s.horizon
    ensures Agrees(cfg, s, g)
  {
    if cfg.uniqueKeys {
      CurrentRow(cfg, s, g);
    }
  }

  /** In every state of every run, whatever edits fell between fetch and commit, the stores agree
      with the source on every live record at or below the checkpoint. */
  lemma {:induction false} CheckpointMeansAgreement(cfg: Config, run: seq<State>, events: seq<Event>, i: nat, g: Guid)
    requires ValidConfig(cfg) && IsRun(cfg, run, events) && i < |run|
    requires g in run[i].source.live && run[i].source.live[g].AlterId() <= SavedAlterId(run[i].stores)
    ensures Agrees(cfg, run[i], g)
  {
    RunKeepsInv(cfg, run, events, i);
    BelowHorizonAgrees(cfg, run[i], g);
  }

  /** A commit whose export still lists the source makes the stores agree on every live record. */
  lemma {:induction false} QuietCommitConverges(cfg: Config, run: seq<State>, events: seq<Event>, i: nat, g: Guid)
    requires ValidConfig(cfg) && IsRun(cfg, run, events) && i < |events|
    requires events[i] == Commit && run[i].phase.Fetched?
    requires IsSnapshot(run[i].phase.items, run[i].source.live)
    requires g in run[i + 1].source.live
    ensures Agrees(cfg, run[i + 1], g)
  {
    hide SyncFrom, ItemsOk, HistoryOk, EntityOk, Covered, Ahead, Drift, DistinctGuids, Agrees;
    var s, s' := run[i], run[i + 1];
    RunKeepsInv(cfg, run, events, i);
    RunKeepsInv(cfg, run, events, i + 1);
    assert Next(cfg, s, Commit, s');
    ExportIsStamped(cfg, s, g);
    BelowHorizonAgrees(cfg, s', g);
  }

  lemma {:induction false} ExportIsStamped(cfg: Config, s: State, g: Guid)
    requires Inv(cfg, s) && s.phase.Fetched? && g in ByGuid(s.phase.items)
    ensures ByGuid(s.phase.items)[g].AlterId() <= s.phase.at
  {
  }

  /** Skipping a record whose archived hash is current loses nothing: its row is already in place. */
  lemma {:induction false} SkippingIsSound(cfg: Config, run: seq<State>, events: seq<Event>, i: nat, g: Guid)
    requires ValidConfig(cfg) && IsRun(cfg, run, events) && i < |run| && cfg.uniqueKeys
    requires g in run[i].source.live && g in run[i].stores.archive
    requires run[i].stores.archive[g].hash == run[i].source.live[g].hash
    ensures var r := run[i].source.live[g].element.record;
            r.key in run[i].stores.entity && run[i].stores.entity[r.key] == r
  {
    var s := run[i];
    RunKeepsInv(cfg, run, events, i);
    assert cfg.hash(s.stores.archive[g].element) == cfg.hash(s.source.live[g].element);
    assert s.stores.versions[(g, s.stores.archive[g].hash)].record.alterId <= s.horizon;
    CurrentRow(cfg, s, g);
  }

  // ----- incremental and full syncs -----

  /** From any reachable state with an export at hand, an incremental and a full sync fail alike or
      leave the same entity table, archive and versions; the checkpoints differ only when nothing in
      the export lies above the old one. */
  lemma {:induction false} IncrementalRefinesFull(cfg: Config, s: State)
    requires ValidConfig(cfg) && Inv(cfg, s) && s.phase.Fetched?
    ensures
      var items := s.phase.items;
      var inc, all := Sync(cfg.kind, s.stores, false, items), Sync(cfg.kind, s.stores, true, items);
      && (inc.Err? <==> all.Err?)
      && (inc.Ok? ==>
            var (a, b) := (inc.value.0, all.value.0);
            && a.entity == b.entity && a.archive == b.archive && a.versions == b.versions
            && b.checkpoint == Some(MaxAlterId(items))
            && a.checkpoint == if MaxAlterId(items) > SavedAlterId(s.stores) then Some(MaxAlterId(items)) else s.stores.checkpoint)
  {
    hide SyncFrom, ByGuid, DistinctGuids, HistoryOk, EntityOk, Ahead, Drift;
    var items, st := s.phase.items, s.stores;
    CommitEffect(cfg, st, s.horizon, SavedAlterId(st), false, items, s.phase.at);
    CommitEffect(cfg, st, s.horizon, 0, true, items, s.phase.at);
    CheckpointAfter(cfg, st, s.horizon, SavedAlterId(st), false, items, s.phase.at);
    CheckpointAfter(cfg, st, s.horizon, 0, true, items, s.phase.at);
    NoveltyMovesCheckpoint(cfg, s);
  }

  /** In a reachable state the filter drops only what is archived: the exact condition under which it
      loses nothing holds. */
  lemma {:induction false} OnlyArchivedIsDropped(cfg: Config, s: State)
    requires Inv(cfg, s) && s.phase.Fetched?
    ensures AlterIdFilter.DroppedAreArchived(s.stores, s.phase.items)
  {
    ByGuidFinds(s.phase.items);
  }

  /** Something in the export is new exactly when its highest alter id lies above the checkpoint. */
  lemma {:induction false} NoveltyMovesCheckpoint(cfg: Config, s: State)
    requires Inv(cfg, s) && s.phase.Fetched?
    ensures Newer(s.phase.items, s.horizon) != [] <==> MaxAlterId(s.phase.items) > SavedAlterId(s.stores)
  {
    var items := s.phase.items;
    ByGuidFinds(items);
    assert forall x :: x in items && x.AlterId() <= s.horizon ==> x.AlterId() <= SavedAlterId(s.stores);
    if Newer(items, s.horizon) != [] {
      assert Newer(items, s.horizon)[0] in items;
    }
    if MaxAlterId(items) > SavedAlterId(s.stores) {
      var x :| x in items && x.AlterId() == MaxAlterId(items);
      assert x in Newer(items, s.horizon);
    }
  }

  // ----- the checkpoint -----

  ghost predicate SavesOrKeeps(s: State, s': State)
    requires s.phase.Fetched?
  {
    var maxId := Some(MaxAlterId(s.phase.items));
    if s.phase.full then s'.stores.checkpoint == maxId
    else
      && (s'.stores.checkpoint == maxId || s'.stores.checkpoint == s.stores.checkpoint)
      && SavedAlterId(s.stores) <= SavedAlterId(s'.stores)
  }

  /** A commit saves the highest alter id of its export or leaves the checkpoint alone; an incremental
      one never lowers it, a full one always saves (0 for an empty export). */
  lemma {:induction false} CheckpointDiscipline(cfg: Config, run: seq<State>, events: seq<Event>, i: nat)
    requires ValidConfig(cfg) && IsRun(cfg, run, events) && i < |events|
    ensures SavedAlterId(run[i].stores) <= run[i].source.counter
    ensures events[i] != Commit ==> run[i + 1].stores.checkpoint == run[i].stores.checkpoint
    ensures events[i] == Commit ==> run[i].phase.Fetched? && SavesOrKeeps(run[i], run[i + 1])
  {
    hide SyncFrom, ByGuid, DistinctGuids, HistoryOk, EntityOk, Ahead, Drift;
    RunKeepsInv(cfg, run, events, i);
    var s := run[i];
    assert Next(cfg, s, events[i], run[i + 1]);
    if events[i] == Commit {
      CommitEffect(cfg, s.stores, s.horizon, s.phase.alterId, s.phase.full, s.phase.items, s.phase.at);
      CheckpointAfter(cfg, s.stores, s.horizon, s.phase.alterId, s.phase.full, s.phase.items, s.phase.at);
    }
  }

  // ----- which record a shared key is left with -----

  /** Some recorded version under the key is newer than `bound`. */
  ghost predicate Shadowed(versions: Versions, k: Key, bound: int) {
    exists v :: v in versions && versions[v].record.key == k && versions[v].record.alterId > bound
  }

  /** The records of the export that win their keys: where vouchers share number and type, the one of
      the highest alter id. */
  ghost function Tops(cfg: Config, s: State): map<Key, Record>
    requires s.phase.Fetched?
  {
    Winners(cfg.kind, RecordsOf(s.phase.items))
  }

  lemma {:induction false} TopsAreTops(cfg: Config, s: State)
    requires ValidConfig(cfg) && Inv(cfg, s) && s.phase.Fetched?
    ensures var snap := ByGuid(s.phase.items);
            && (forall k :: k in Tops(cfg, s) ==>
                  var r := Tops(cfg, s)[k]; r.key == k && r.guid in snap && snap[r.guid].element.record == r)
            && (forall g :: g in snap ==>
                  snap[g].Key() in Tops(cfg, s) && snap[g].AlterId() <= Tops(cfg, s)[snap[g].Key()].alterId)
  {
    var items, snap := s.phase.items, ByGuid(s.phase.items);
    ByGuidFinds(items);
    assert forall x :: x in items ==> x.AlterId() > 0;
    NewerThanZero(items);
    NovelRecords(items, 0);
    var records := RecordsOf(items);
    if cfg.kind.Master? {
      forall r, q | r in records && q in records && r.key == q.key ensures r == q {
        assert snap[r.guid].Key() == snap[q.guid].Key();
      }
    }
    NoneBeatsWinner(cfg.kind, records);
    forall k | k in Tops(cfg, s) ensures Tops(cfg, s)[k] in records {
    }
  }

  lemma {:induction false} NewerThanZero(items: seq<Item>)
    requires forall x :: x in items ==> x.AlterId() > 0
    ensures Newer(items, 0) == items
  {
    if items != [] {
      assert items[0] in items;
      NewerThanZero(items[1..]);
      assert items == [items[0]] + items[1..];
    }
  }

  /** After a commit, incremental or full, a key of the export holds the export's winner if and only
      if no newer version was ever recorded under the key (by a record since deleted or renumbered). */
  lemma {:induction false} RowAfterCommit(cfg: Config, s: State, s': State, k: Key)
    requires ValidConfig(cfg) && Inv(cfg, s) && Next(cfg, s, Commit, s')
    requires s.phase.Fetched? && k in Tops(cfg, s)
    ensures k in s'.stores.entity
    ensures s'.stores.entity[k] == Tops(cfg, s)[k] <==> !Shadowed(s.stores.versions, k, Tops(cfg, s)[k].alterId)
  {
    hide SyncFrom, Winners, RecordsOf, Newer, ItemsOk, Covered, Ahead, Drift, DistinctGuids, ValidConfig, AreNovel,
         NoneAbove, ByGuid, VersionsOk, Extended, Shadowed, HoldsNewest, HoldsVersions, VersionStampsOnce, Tops;
    CommitHasShape(cfg, s, s');
    CommitKeepsInv(cfg, s, s');
    TopsAreTops(cfg, s);
    var r, snap := Tops(cfg, s)[k], ByGuid(s.phase.items);
    assert s'.stores.archive[r.guid] == snap[r.guid];
    NewestIsTop(s.stores.versions, s.horizon, snap, s'.stores.versions, s'.stores.entity, r);
  }

  lemma {:induction false} NewestIsTop(before: Versions, horizon: nat, snap: map<Guid, Item>, after: Versions, entity: map<Key, Record>, r: Record)
    requires Extended(before, horizon, snap, after)
    requires HoldsNewest(after, entity) && HoldsVersions(after, entity) && VersionStampsOnce(after)
    requires r.guid in snap && snap[r.guid].element.record == r
    requires (r.guid, snap[r.guid].hash) in after && after[(r.guid, snap[r.guid].hash)] == snap[r.guid].element
    requires forall g :: g in snap && snap[g].Key() == r.key ==> snap[g].AlterId() <= r.alterId
    ensures r.key in entity && (entity[r.key] == r <==> !Shadowed(before, r.key, r.alterId))
  {
    var v := (r.guid, snap[r.guid].hash);
    assert after[v].record == r;
    assert IsVersion(after, entity[r.key]);
    var w :| w in after && after[w].record == entity[r.key];
    if w in before && entity[r.key] != r {
      assert before[w].record.alterId > r.alterId;
    }
  }

  /** Where keys are unique, or records keep their keys and are never deleted, no export is shadowed. */
  lemma {:induction false} NeverShadowed(cfg: Config, s: State, k: Key)
    requires ValidConfig(cfg) && Inv(cfg, s) && s.phase.Fetched? && (cfg.uniqueKeys || cfg.keepsKeys)
    requires k in Tops(cfg, s)
    ensures !Shadowed(s.stores.versions, k, Tops(cfg, s)[k].alterId)
  {
    hide ItemsOk, HistoryOk, EntityOk, Covered, Tops, Drift, DistinctGuids, ByGuid;
    TopsAreTops(cfg, s);
    var r, snap := Tops(cfg, s)[k], ByGuid(s.phase.items);
    forall v | v in s.stores.versions && s.stores.versions[v].record.key == k
      ensures s.stores.versions[v].record.alterId <= r.alterId
    {
      if v.0 == r.guid {
      } else if cfg.uniqueKeys {
        assert snap[r.guid].Key() == k;
      } else {
        assert snap[v.0].Key() == k;
      }
    }
  }

  /** Over whole runs in which no voucher is deleted or renumbered: after every commit the header and
      the child rows under a number and type are those of the highest-alter-id voucher of the export. */
  lemma {:induction false} CollisionWinner(cfg: Config, run: seq<State>, events: seq<Event>, i: nat, k: Key)
    requires ValidConfig(cfg) && IsRun(cfg, run, events) && i < |events| && (cfg.uniqueKeys || cfg.keepsKeys)
    requires events[i] == Commit && run[i].phase.Fetched? && k in Tops(cfg, run[i])
    ensures k in run[i + 1].stores.entity && run[i + 1].stores.entity[k] == Tops(cfg, run[i])[k]
  {
    hide Tops, Inv, ValidConfig, Next, Shadowed;
    RunKeepsInv(cfg, run, events, i);
    assert Next(cfg, run[i], events[i], run[i + 1]);
    NeverShadowed(cfg, run[i], k);
    RowAfterCommit(cfg, run[i], run[i + 1], k);
  }

  // ----- the upsert-everything path -----

  /** An incremental legacy sync upserts exactly the items stamped above the horizon. */
  lemma {:induction false} LegacyPassing(cfg: Config, s: State)
    requires Inv(cfg, s) && s.phase.Fetched?
    ensures Passing(s.phase.items, StartAlterId(s.stores, false), false) == Newer(s.phase.items, s.horizon)
  {
    hide Newer;
    ExportFacts(cfg, s);
    PassingIsNewer(s.phase.items, SavedAlterId(s.stores), s.horizon);
  }

  lemma {:induction false} ExportFacts(cfg: Config, s: State)
    requires Inv(cfg, s) && s.phase.Fetched?
    ensures forall x :: x in s.phase.items ==> 1 <= x.AlterId() <= s.phase.at
    ensures forall x :: x in s.phase.items && x.AlterId() <= s.horizon ==> x.AlterId() <= SavedAlterId(s.stores)
  {
    ByGuidFinds(s.phase.items);
  }

  lemma {:induction false} PassingIsNewer(items: seq<Item>, saved: int, horizon: nat)
    requires 0 <= saved <= horizon
    requires forall x :: x in items ==> x.AlterId() > 0
    requires forall x :: x in items && x.AlterId() <= horizon ==> x.AlterId() <= saved
    ensures Passing(items, saved, false) == Newer(items, horizon)
  {
    NewerThanZero(items);
    NoneBetween(items, saved, horizon);
  }

  lemma {:induction false} NoneBetween(items: seq<Item>, low: int, high: int)
    requires low <= high
    requires forall x :: x in items && x.AlterId() <= high ==> x.AlterId() <= low
    ensures Newer(items, low) == Newer(items, high)
  {
    if items != [] {
      assert items[0] in items;
      NoneBetween(items[1..], low, high);
    }
  }

  /** Incremental: the hash-skipping pipeline and the upsert-everything one fail alike or leave the
      same entity table. */
  lemma {:induction false} IncrementalAgreesWithLegacy(cfg: Config, s: State)
    requires ValidConfig(cfg) && Inv(cfg, s) && s.phase.Fetched?
    ensures
      var fid, leg := Sync(cfg.kind, s.stores, false, s.phase.items), LegacySync(cfg.kind, s.stores, false, s.phase.items);
      (fid.Ok? <==> leg.Ok?) && (leg.Ok? ==> leg.value.0.entity == fid.value.0.entity)
  {
    hide SyncFrom, LegacySync, ItemsOk, HistoryOk, EntityOk, Covered, Drift, DistinctGuids, ByGuid, Ahead, Newer,
         Winners, Passing, MaxAlterId, ValidConfig, RecordsOf, TooMany;
    LegacyPassing(cfg, s);
    CommitEffect(cfg, s.stores, s.horizon, SavedAlterId(s.stores), false, s.phase.items, s.phase.at);
    LegacyFails(cfg.kind, s.stores, false, s.phase.items);
    if LegacySync(cfg.kind, s.stores, false, s.phase.items).Ok? {
      LegacyEntity(cfg.kind, s.stores, false, s.phase.items);
    }
  }

  /** The upsert-everything path fails only on the parameter ceiling. */
  lemma {:induction false} LegacyFails(kind: Kind, st: Stores, full: bool, items: seq<Item>)
    ensures LegacySync(kind, st, full, items).Ok? <==> !TooMany(kind, Passing(items, StartAlterId(st, full), full))
  {
    hide Passing, Newer, MaxAlterId, Winners, RecordsOf;
    EmptyBatch(kind);
  }

  lemma {:induction false} LegacyEntity(kind: Kind, st: Stores, full: bool, items: seq<Item>)
    requires LegacySync(kind, st, full, items).Ok?
    ensures LegacySync(kind, st, full, items).value.0.entity ==
            st.entity + Winners(kind, RecordsOf(Passing(items, StartAlterId(st, full), full)))
  {
    hide Passing, Newer, MaxAlterId, Winners, RecordsOf, StartAlterId;
    var passing := Passing(items, StartAlterId(st, full), full);
    if passing == [] {
      EmptyBatch(kind);
      assert st.entity + map[] == st.entity;
    }
  }

  lemma {:induction false} EmptyBatch(kind: Kind)
    ensures Winners(kind, RecordsOf([])) == map[]
  {
    assert RecordsOf([]) == [];
  }

  /** Full: the legacy path succeeds if and only if the export keeps to the parameter ceiling.  Then so does
      the hash-skipping path, and the tables agree if and only if no key of the export is shadowed: a
      shadowed key keeps the row of a record that no longer holds it, which upserting everything would have
      replaced.  Beyond the ceiling the legacy path is rolled back, and the tables agree if and only if the
      hash-skipping path fails too or finds nothing new. */
  lemma {:induction false} FullAgreesWithLegacy(cfg: Config, s: State)
    requires ValidConfig(cfg) && Inv(cfg, s) && s.phase.Fetched?
    ensures
      var fid, leg := Sync(cfg.kind, s.stores, true, s.phase.items), LegacySync(cfg.kind, s.stores, true, s.phase.items);
      && (leg.Ok? <==> !TooMany(cfg.kind, s.phase.items))
      && (leg.Ok? ==>
            && fid.Ok?
            && (leg.value.0.entity == fid.value.0.entity <==>
                forall k :: k in Tops(cfg, s) ==> !Shadowed(s.stores.versions, k, Tops(cfg, s)[k].alterId)))
      && (fid.Ok? ==> (fid.value.0.entity == s.stores.entity <==> Newer(s.phase.items, s.horizon) == []))
  {
    hide SyncFrom, LegacySync, Inv, DistinctGuids, ByGuid, Newer, Winners, MaxAlterId, ValidConfig, Shadowed, RecordsOf, Tops, TooMany;
    LegacyFails(cfg.kind, s.stores, true, s.phase.items);
    if LegacySync(cfg.kind, s.stores, true, s.phase.items).Ok? {
      FullTablesAgree(cfg, s);
    }
    FullTable(cfg, s);
    NovelChangesTable(cfg, s);
  }

  lemma {:induction false} FullTable(cfg: Config, s: State)
    requires ValidConfig(cfg) && Inv(cfg, s) && s.phase.Fetched?
    ensures var r := Sync(cfg.kind, s.stores, true, s.phase.items);
            r.Ok? ==> r.value.0.entity == s.stores.entity + Winners(cfg.kind, RecordsOf(Newer(s.phase.items, s.horizon)))
  {
    hide SyncFrom, HistoryOk, EntityOk, ItemsOk, Covered, Ahead, Drift, DistinctGuids, ByGuid, Newer, Winners, RecordsOf, ValidConfig;
    CommitEffect(cfg, s.stores, s.horizon, 0, true, s.phase.items, s.phase.at);
  }

  /** New items change the table: no row is as new as they are. */
  lemma {:induction false} NovelChangesTable(cfg: Config, s: State)
    requires Inv(cfg, s) && s.phase.Fetched?
    ensures var novel := Newer(s.phase.items, s.horizon);
            s.stores.entity + Winners(cfg.kind, RecordsOf(novel)) == s.stores.entity <==> novel == []
  {
    var novel := Newer(s.phase.items, s.horizon);
    if novel == [] {
      EmptyBatch(cfg.kind);
      assert s.stores.entity + map[] == s.stores.entity;
    } else {
      RowsAreOld(cfg, s);
      NovelWinnerIsNew(cfg.kind, s.phase.items, s.horizon);
      hide Newer, Winners, RecordsOf, Inv;
      var k :| k in Winners(cfg.kind, RecordsOf(novel));
      var w := Winners(cfg.kind, RecordsOf(novel));
      assert (s.stores.entity + w)[k] == w[k];
    }
  }

  lemma {:induction false} RowsAreOld(cfg: Config, s: State)
    requires Inv(cfg, s)
    ensures forall k :: k in s.stores.entity ==> s.stores.entity[k].alterId <= s.horizon
  {
    hide ItemsOk, Covered, Ahead, PhaseOk, ArchiveOk, VersionStampsOnce, HoldsNewest;
    forall k | k in s.stores.entity ensures s.stores.entity[k].alterId <= s.horizon {
      assert IsVersion(s.stores.versions, s.stores.entity[k]);
    }
  }

  lemma {:induction false} NovelWinnerIsNew(kind: Kind, items: seq<Item>, horizon: int)
    ensures var novel := Newer(items, horizon);
            var w := Winners(kind, RecordsOf(novel));
            && (forall k :: k in w ==> w[k].alterId > horizon)
            && (novel != [] ==> exists k :: k in w)
  {
    var novel := Newer(items, horizon);
    RecordsMeans(novel);
    hide Newer, RecordsOf, Winners;
    if novel != [] {
      assert novel[0] in novel;
      assert novel[0].element.record in RecordsOf(novel);
      assert novel[0].Key() in Winners(kind, RecordsOf(novel));
    }
  }

  lemma {:induction false} FullTablesAgree(cfg: Config, s: State)
    requires ValidConfig(cfg) && Inv(cfg, s) && s.phase.Fetched?
    requires LegacySync(cfg.kind, s.stores, true, s.phase.items).Ok?
    ensures Sync(cfg.kind, s.stores, true, s.phase.items).Ok?
    ensures LegacySync(cfg.kind, s.stores, true, s.phase.items).value.0.entity ==
            Sync(cfg.kind, s.stores, true, s.phase.items).value.0.entity <==>
            forall k :: k in Tops(cfg, s) ==> !Shadowed(s.stores.versions, k, Tops(cfg, s)[k].alterId)
  {
    hide SyncFrom, LegacySync, ItemsOk, HistoryOk, EntityOk, Covered, Drift, DistinctGuids, ByGuid, Ahead, Newer,
         Winners, MaxAlterId, ValidConfig, Shadowed, RecordsOf;
    FullFailsWithLegacy(cfg, s);
    var st, tops := s.stores, Tops(cfg, s);
    var fid, w := Sync(cfg.kind, st, true, s.phase.items).value.0, Winners(cfg.kind, RecordsOf(Newer(s.phase.items, s.horizon)));
    CommitEffect(cfg, st, s.horizon, 0, true, s.phase.items, s.phase.at);
    LegacyEntity(cfg.kind, st, true, s.phase.items);
    forall k | k in tops
      ensures k in fid.entity && (fid.entity[k] == tops[k] <==> !Shadowed(st.versions, k, tops[k].alterId))
    {
      FullRow(cfg, s, fid, k);
    }
    NovelWinnersAreUnderTops(cfg, s);
    OverwriteAll(st.entity, w, tops);
  }

  lemma {:induction false} FullFailsWithLegacy(cfg: Config, s: State)
    requires ValidConfig(cfg) && Inv(cfg, s) && s.phase.Fetched?
    requires LegacySync(cfg.kind, s.stores, true, s.phase.items).Ok?
    ensures Sync(cfg.kind, s.stores, true, s.phase.items).Ok?
  {
    hide SyncFrom, LegacySync, ItemsOk, HistoryOk, EntityOk, Covered, Drift, DistinctGuids, ByGuid, Ahead, Newer,
         Winners, MaxAlterId, ValidConfig, RecordsOf;
    CommitEffect(cfg, s.stores, s.horizon, 0, true, s.phase.items, s.phase.at);
    LegacyFails(cfg.kind, s.stores, true, s.phase.items);
    NovelWinnersAreUnderTops(cfg, s);
    SubsetSize(Winners(cfg.kind, RecordsOf(Newer(s.phase.items, s.horizon))).Keys, Tops(cfg, s).Keys);
    KeyCount(Winners(cfg.kind, RecordsOf(Newer(s.phase.items, s.horizon))));
    KeyCount(Tops(cfg, s));
  }

  lemma {:induction false} KeyCount<K, V>(m: map<K, V>)
    ensures |m.Keys| == |m|
  {
  }

  lemma {:induction false} OverwriteAll(t: map<Key, Record>, w: map<Key, Record>, tops: map<Key, Record>)
    requires w.Keys <= tops.Keys
    requires forall k :: k in tops ==> k in t + w
    ensures t + tops == t + w <==> forall k :: k in tops ==> (t + w)[k] == tops[k]
  {
    if t + tops == t + w {
      forall k | k in tops ensures (t + w)[k] == tops[k] {
        assert (t + tops)[k] == tops[k];
      }
    }
  }

  lemma {:induction false} FullRow(cfg: Config, s: State, fid: Stores, k: Key)
    requires ValidConfig(cfg) && Inv(cfg, s) && s.phase.Fetched? && k in Tops(cfg, s)
    requires Sync(cfg.kind, s.stores, true, s.phase.items).Ok? && fid == Sync(cfg.kind, s.stores, true, s.phase.items).value.0
    ensures k in fid.entity
    ensures fid.entity[k] == Tops(cfg, s)[k] <==> !Shadowed(s.stores.versions, k, Tops(cfg, s)[k].alterId)
  {
    hide SyncFrom, ItemsOk, HistoryOk, EntityOk, Covered, Drift, DistinctGuids, ByGuid, Ahead, Winners, RecordsOf,
         ValidConfig, Shadowed;
    var t := s.(phase := s.phase.(full := true, alterId := 0));
    RowAfterCommit(cfg, t, State(s.source, fid, Idle, s.phase.at), k);
  }

  lemma {:induction false} NovelWinnersAreUnderTops(cfg: Config, s: State)
    requires s.phase.Fetched?
    ensures Winners(cfg.kind, RecordsOf(Newer(s.phase.items, s.horizon))).Keys <= Tops(cfg, s).Keys
  {
    var newer := Newer(s.phase.items, s.horizon);
    var w := Winners(cfg.kind, RecordsOf(newer));
    forall k | k in w ensures k in Tops(cfg, s) {
      var i :| 0 <= i < |newer| && RecordsOf(newer)[i] == w[k];
      assert newer[i] in s.phase.items;
      var j :| 0 <= j < |s.phase.items| && s.phase.items[j] == newer[i];
      assert RecordsOf(s.phase.items)[j] == w[k];
    }
  }

  /** Both paths save the same checkpoint whenever the export reaches above the old one. */
  lemma {:induction false} LegacyCheckpointAgrees(cfg: Config, s: State, full: bool)
    requires ValidConfig(cfg) && Inv(cfg, s) && s.phase.Fetched?
    requires MaxAlterId(s.phase.items) > SavedAlterId(s.stores)
    requires Sync(cfg.kind, s.stores, full, s.phase.items).Ok? && LegacySync(cfg.kind, s.stores, full, s.phase.items).Ok?
    ensures Sync(cfg.kind, s.stores, full, s.phase.items).value.0.checkpoint == Some(MaxAlterId(s.phase.items))
    ensures LegacySync(cfg.kind, s.stores, full, s.phase.items).value.0.checkpoint == Some(MaxAlterId(s.phase.items))
  {
    hide SyncFrom, ItemsOk, HistoryOk, EntityOk, Covered, Drift, DistinctGuids, ByGuid, Ahead, Winners, RecordsOf,
         ValidConfig, Newer;
    var items, saved := s.phase.items, SavedAlterId(s.stores);
    IncrementalRefinesFull(cfg, s);
    var x :| x in items && x.AlterId() == MaxAlterId(items);
    var passing := Passing(items, StartAlterId(s.stores, full), full);
    assert x in passing;
    assert forall y :: y in passing ==> y in items;
    assert MaxAlterId(passing) == MaxAlterId(items);
  }
}
