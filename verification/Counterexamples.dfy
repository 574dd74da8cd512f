/** Concrete runs: the assumptions of the protocol can be met, and where its promises stop. */
module Counterexamples {
  import opened Wrappers
  import opened Records
  import opened Dedupe
  import opened Pipeline
  import opened PipelineFacts
  import opened Protocol
  import opened Invariant
  import opened Theorems

  // ----- small batches -----

  lemma {:induction false} OneItem(x: Item)
    ensures DistinctGuids([x]) && ByGuid([x]) == map[x.Guid() := x]
    ensures forall kind :: Winners(kind, RecordsOf([x])) == map[x.Key() := x.element.record]
  {
    assert RecordsOf([x]) == [x.element.record];
  }

  lemma {:induction false} TwoItems(x: Item, y: Item)
    requires x.Guid() != y.Guid()
    ensures DistinctGuids([x, y]) && ByGuid([x, y]) == map[x.Guid() := x, y.Guid() := y]
  {
    assert [x, y][1..] == [y];
    OneItem(y);
  }

  lemma {:induction false} TwoRecords(kind: Kind, x: Item, y: Item)
    requires x.Key() != y.Key()
    ensures Winners(kind, RecordsOf([x, y])) == map[x.Key() := x.element.record, y.Key() := y.element.record]
  {
    OneItem(x);
    assert RecordsOf([x, y])[..1] == RecordsOf([x]);
    WinnersStep(kind, RecordsOf([x, y]), 1);
    assert RecordsOf([x, y])[..2] == RecordsOf([x, y]);
  }

  lemma {:induction false} ChangedOfTwo(x: Item, y: Item, existing: map<Guid, Hash>)
    ensures Changed([x, y], existing) ==
            (if IsUnchanged(existing, x) then [] else [x]) + (if IsUnchanged(existing, y) then [] else [y])
  {
    assert [x, y][1..] == [y];
    assert Changed([y], existing) == if IsUnchanged(existing, y) then [] else [y];
  }

  // ----- runs -----

  /** An element of the kind, with no more than it must carry. */
  function PlainElement(kind: Kind, alterId: int): Element {
    var children := match kind
      case Master => NoChildren
      case Voucher => VoucherChildren([], [], [])
      case PurchaseOrder => OrderChildren([]);
    Element(Record("a", Key("1", ""), alterId, map[], children), map[])
  }

  /** For every kind and flags the assumptions are met by a run in which a record is created and synced,
      then edited while the next sync is between its fetch and its commit. */
  lemma {:induction false} RunsExist(kind: Kind, uniqueKeys: bool, keepsKeys: bool)
      returns (cfg: Config, run: seq<State>, events: seq<Event>)
    requires kind.Master? ==> uniqueKeys
    ensures ValidConfig(cfg) && cfg.kind == kind && cfg.uniqueKeys == uniqueKeys && cfg.keepsKeys == keepsKeys
    ensures IsRun(cfg, run, events) && |run| == |events| + 1
    ensures var old1, new1 := PlainElement(kind, 1), PlainElement(kind, 2);
            events == [Put(old1), Begin(false), Fetch([ItemOf(cfg, old1)]), Commit,
                       Begin(false), Fetch([ItemOf(cfg, old1)]), Put(new1), Commit]
    ensures var last := Last(run, events);
            && WellTyped(kind, PlainElement(kind, 1).record)
            && last.stores.entity == map[Key("1", "") := PlainElement(kind, 1).record]
            && last.stores.checkpoint == Some(1)
            && last.source.live == map["a" := ItemOf(cfg, PlainElement(kind, 2))]
  {
    hide SyncFrom, Inv, IsRun, ValidConfig, Sync, ByGuid, DistinctGuids, MaxAlterId;
    var e, f := PlainElement(kind, 1), PlainElement(kind, 2);
    cfg := Config(kind, uniqueKeys, keepsKeys, StampDigest, iset{e, f});
    ConfigExists(kind, uniqueKeys, keepsKeys, cfg.elements);
    var x, y := ItemOf(cfg, e), ItemOf(cfg, f);
    run, events := SyncedOnce(cfg, e);
    var s4 := Last(run, events);
    OneItem(x);
    MaxOfOne(x);
    var s5 := s4.(phase := Begun(false, 1));
    run, events := Extend(cfg, run, events, Begin(false), s5);
    var s6 := s4.(phase := Fetched(false, 1, [x], 1));
    run, events := Extend(cfg, run, events, Fetch([x]), s6);
    var s7 := s6.(source := Source(map["a" := y], 2));
    assert s6.source.live["a" := y] == map["a" := y];
    run, events := Extend(cfg, run, events, Put(f), s7);
    var s8 := SecondSync(cfg, s7, x);
    run, events := Extend(cfg, run, events, Commit, s8);
  }

  lemma {:induction false} SyncedOnce(cfg: Config, e: Element) returns (run: seq<State>, events: seq<Event>)
    requires ValidConfig(cfg) && e in cfg.elements && e == PlainElement(cfg.kind, 1)
    ensures IsRun(cfg, run, events) && |run| == |events| + 1 && Inv(cfg, Last(run, events))
    ensures events == [Put(e), Begin(false), Fetch([ItemOf(cfg, e)]), Commit]
    ensures var s := Last(run, events);
            && s == State(Source(map["a" := ItemOf(cfg, e)], 1), s.stores, Idle, 1)
            && s.stores.entity == map[Key("1", "") := e.record] && s.stores.checkpoint == Some(1)
  {
    hide SyncFrom, Inv, IsRun, ValidConfig, Sync, ByGuid, DistinctGuids, MaxAlterId;
    var x := ItemOf(cfg, e);
    OneItem(x);
    MaxOfOne(x);
    var s0 := State(Source(map[], 0), NO_STORES, Idle, 0);
    var s1 := s0.(source := Source(map["a" := x], 1));
    var s2 := s1.(phase := Begun(false, 0));
    var s3 := s1.(phase := Fetched(false, 0, [x], 1));
    assert IsSnapshot([x], s2.source.live);
    run, events := StartRun(cfg, s0);
    run, events := Extend(cfg, run, events, Put(e), s1);
    run, events := Extend(cfg, run, events, Begin(false), s2);
    run, events := Extend(cfg, run, events, Fetch([x]), s3);
    var s4 := FirstSync(cfg, s3, x);
    run, events := Extend(cfg, run, events, Commit, s4);
  }

  lemma {:induction false} FirstSync(cfg: Config, s: State, x: Item) returns (s': State)
    requires ValidConfig(cfg) && Inv(cfg, s) && s.stores == NO_STORES && s.phase == Fetched(false, 0, [x], 1)
    requires s.horizon == 0 && x.AlterId() == 1
    ensures Next(cfg, s, Commit, s') && s' == State(s.source, s'.stores, Idle, 1)
    ensures s'.stores.entity == map[x.Key() := x.element.record] && s'.stores.checkpoint == Some(1)
  {
    hide SyncFrom, Inv, ByGuid, DistinctGuids, Winners, RecordsOf, CreateVersions;
    OneItem(x);
    MaxOfOne(x);
    NewerOfOne(x, 0);
    s' := CommitOne(cfg, s, x);
  }

  lemma {:induction false} SecondSync(cfg: Config, s: State, x: Item) returns (s': State)
    requires ValidConfig(cfg) && Inv(cfg, s) && s.phase == Fetched(false, 1, [x], 1)
    requires s.horizon == 1 && x.AlterId() == 1
    ensures Next(cfg, s, Commit, s') && s' == State(s.source, s'.stores, Idle, 1)
    ensures s'.stores.entity == s.stores.entity && s'.stores.checkpoint == s.stores.checkpoint
  {
    hide SyncFrom, Inv, ByGuid, DistinctGuids, Winners, RecordsOf, CreateVersions;
    OneItem(x);
    NewerOfOne(x, 1);
    EmptyBatch(cfg.kind);
    s' := CommitOne(cfg, s, x);
    assert s.stores.entity + map[] == s.stores.entity;
  }

  lemma {:induction false} CommitOne(cfg: Config, s: State, x: Item) returns (s': State)
    requires ValidConfig(cfg) && Inv(cfg, s) && s.phase.Fetched? && !s.phase.full && s.phase.items == [x]
    ensures Next(cfg, s, Commit, s') && s' == State(s.source, s'.stores, Idle, s.phase.at)
    ensures var novel := Newer([x], s.horizon);
            s'.stores == Committed(cfg.kind, s.stores, s.horizon, [x], NextCheckpoint(s.stores, s.phase.alterId, false, |novel|, [x]))
  {
    hide SyncFrom, HistoryOk, EntityOk, Covered, Ahead, Drift, ItemsOk, DistinctGuids, ByGuid, ValidConfig,
         TooMany, CreateVersions, Winners, RecordsOf, Newer, NextCheckpoint;
    CommitEffect(cfg, s.stores, s.horizon, s.phase.alterId, false, [x], s.phase.at);
    NewerLength([x], s.horizon);
    SmallBatch(cfg.kind, Newer([x], s.horizon));
    s' := State(s.source, SyncFrom(cfg.kind, s.stores, s.phase.alterId, false, [x]).value.0, Idle, s.phase.at);
  }

  lemma {:induction false} MaxOfOne(x: Item)
    ensures MaxAlterId([x]) == x.AlterId()
  {
  }

  lemma {:induction false} NewerOfOne(x: Item, alterId: int)
    ensures Newer([x], alterId) == if x.AlterId() > alterId then [x] else []
  {
  }

  // ----- a full sync does not repair a shadowed key -----

  function VoucherElement(guid: Guid, alterId: int): Element {
    Element(Record(guid, Key("1", "Sales"), alterId, map[], VoucherChildren([], [], [])), map[])
  }

  const SHARED: Key := Key("1", "Sales")

  /** Vouchers a and b, under one number and type. */
  ghost function SharedVouchers(): Config {
    Config(Voucher, false, false, StampDigest, iset{VoucherElement("a", 1), VoucherElement("b", 2)})
  }

  /** Two vouchers share number and type, both are synced, and the newer one is deleted.  From then on
      the survivor's row is lost: a full sync skips the survivor, whose hash is archived, and keeps the
      deleted voucher's row, where upserting everything would restore the survivor's. */
  lemma {:induction false} ShadowedVoucherIsNotRepaired() returns (run: seq<State>, events: seq<Event>, s: State, x: Item)
    ensures ValidConfig(SharedVouchers()) && IsRun(SharedVouchers(), run, events) && |run| == |events| + 1
    ensures s == Last(run, events) && s.phase.Fetched? && s.phase.items == [x]
    ensures s.source.live == map["a" := x] && x == Item(VoucherElement("a", 1), "1")
    ensures Sync(Voucher, s.stores, true, [x]).Ok? && LegacySync(Voucher, s.stores, true, [x]).Ok?
    ensures SHARED in Sync(Voucher, s.stores, true, [x]).value.0.entity
    ensures Sync(Voucher, s.stores, true, [x]).value.0.entity[SHARED] != x.element.record
    ensures LegacySync(Voucher, s.stores, true, [x]).value.0.entity == s.stores.entity[SHARED := x.element.record]
  {
    hide SyncFrom, Inv, IsRun, LegacySync, Shadowed, ValidConfig;
    var cfg := SharedVouchers();
    ConfigExists(Voucher, false, false, cfg.elements);
    var a, b := VoucherElement("a", 1), VoucherElement("b", 2);
    x := ItemOf(cfg, a);
    run, events := BothFetched(cfg);
    var s4 := Last(run, events);
    var s5 := BothCommitted(cfg, s4);
    run, events := Extend(cfg, run, events, Commit, s5);
    var s6 := s5.(source := Source(map["a" := ItemOf(cfg, a)], 2));
    assert s5.source.live - {"b"} == map["a" := x];
    run, events := Extend(cfg, run, events, Delete("b"), s6);
    var s7 := s6.(phase := Begun(true, 0));
    run, events := Extend(cfg, run, events, Begin(true), s7);
    s := s7.(phase := Fetched(true, 0, [x], 2));
    OneItem(x);
    assert IsSnapshot([x], s7.source.live);
    run, events := Extend(cfg, run, events, Fetch([x]), s);
    SurvivorIsLost(cfg, s, x);
  }

  lemma {:induction false} BothFetched(cfg: Config) returns (run: seq<State>, events: seq<Event>)
    requires ValidConfig(cfg) && cfg == SharedVouchers()
    ensures IsRun(cfg, run, events) && |run| == |events| + 1 && Inv(cfg, Last(run, events))
    ensures BothInExport(cfg, Last(run, events))
  {
    hide Inv, IsRun, SyncFrom, ValidConfig, MaxAlterId, ByGuid, DistinctGuids;
    var a, b := VoucherElement("a", 1), VoucherElement("b", 2);
    run, events := BothEntered(cfg);
    var s2 := Last(run, events);
    var s3 := s2.(phase := Begun(true, 0));
    var items := [ItemOf(cfg, a), ItemOf(cfg, b)];
    TwoItems(items[0], items[1]);
    MaxOfTwo(items[0], items[1]);
    run, events := Extend(cfg, run, events, Begin(true), s3);
    run, events := Extend(cfg, run, events, Fetch(items), s3.(phase := Fetched(true, 0, items, 2)));
  }

  lemma {:induction false} BothEntered(cfg: Config) returns (run: seq<State>, events: seq<Event>)
    requires ValidConfig(cfg) && cfg == SharedVouchers()
    ensures IsRun(cfg, run, events) && |run| == |events| + 1 && Inv(cfg, Last(run, events))
    ensures var a, b := VoucherElement("a", 1), VoucherElement("b", 2);
            Last(run, events) == State(Source(map["a" := ItemOf(cfg, a), "b" := ItemOf(cfg, b)], 2), NO_STORES, Idle, 0)
  {
    hide Inv, IsRun, ValidConfig;
    var a, b := VoucherElement("a", 1), VoucherElement("b", 2);
    var s0 := State(Source(map[], 0), NO_STORES, Idle, 0);
    var s1 := s0.(source := Source(map["a" := ItemOf(cfg, a)], 1));
    var s2 := s1.(source := Source(map["a" := ItemOf(cfg, a), "b" := ItemOf(cfg, b)], 2));
    run, events := StartRun(cfg, s0);
    run, events := Extend(cfg, run, events, Put(a), s1);
    run, events := Extend(cfg, run, events, Put(b), s2);
  }

  ghost predicate BothInExport(cfg: Config, s: State) {
    var a, b := VoucherElement("a", 1), VoucherElement("b", 2);
    s == State(Source(map["a" := ItemOf(cfg, a), "b" := ItemOf(cfg, b)], 2), NO_STORES,
               Fetched(true, 0, [ItemOf(cfg, a), ItemOf(cfg, b)], 2), 0)
  }

  lemma {:induction false} BothCommitted(cfg: Config, s: State) returns (s': State)
    requires ValidConfig(cfg) && Inv(cfg, s) && cfg.kind == Voucher && BothInExport(cfg, s)
    ensures Next(cfg, s, Commit, s') && Inv(cfg, s')
    ensures s'.source == s.source && s'.phase == Idle
    ensures Shadowed(s'.stores.versions, SHARED, 1)
  {
    hide SyncFrom, Inv, Shadowed, ByGuid;
    var items, b := s.phase.items, VoucherElement("b", 2);
    TwoItems(items[0], items[1]);
    SmallCommit(cfg, s, true);
    s' := State(s.source, SyncFrom(Voucher, s.stores, 0, true, items).value.0, Idle, 2);
    CommitKeepsInv(cfg, s, s');
    NewVersion(cfg, s, s', "b");
    Shadow(s'.stores.versions, ("b", cfg.hash(b)), SHARED, 1);
  }

  /** A commit of at most two items does not fail. */
  lemma {:induction false} SmallCommit(cfg: Config, s: State, full: bool)
    requires ValidConfig(cfg) && Inv(cfg, s) && s.phase.Fetched? && |s.phase.items| <= 2
    ensures Sync(cfg.kind, s.stores, full, s.phase.items).Ok?
  {
    hide SyncFrom, Newer, HistoryOk, EntityOk, Covered, Ahead, Drift, ItemsOk, DistinctGuids, ByGuid, ValidConfig,
         TooMany, CreateVersions, Winners, RecordsOf;
    CommitEffect(cfg, s.stores, s.horizon, StartAlterId(s.stores, full), full, s.phase.items, s.phase.at);
    NewerLength(s.phase.items, s.horizon);
    SmallBatch(cfg.kind, Newer(s.phase.items, s.horizon));
  }

  lemma {:induction false} NewVersion(cfg: Config, s: State, s': State, g: Guid)
    requires ValidConfig(cfg) && Inv(cfg, s) && Next(cfg, s, Commit, s') && s.phase.Fetched?
    requires g in ByGuid(s.phase.items) && ByGuid(s.phase.items)[g].AlterId() > s.horizon
    ensures var x := ByGuid(s.phase.items)[g];
            (g, x.hash) in s'.stores.versions && s'.stores.versions[(g, x.hash)] == x.element
  {
    hide SyncFrom, Inv, ByGuid;
    CommitHasShape(cfg, s, s');
  }

  lemma {:induction false} Shadow(versions: Versions, v: (Guid, Hash), k: Key, bound: int)
    requires v in versions && versions[v].record.key == k && versions[v].record.alterId > bound
    ensures Shadowed(versions, k, bound)
  {
  }

  lemma {:induction false} SurvivorIsLost(cfg: Config, s: State, x: Item)
    requires ValidConfig(cfg) && Inv(cfg, s) && cfg.kind == Voucher
    requires s.phase.Fetched? && s.phase.full && s.phase.items == [x] && x.AlterId() == 1
    requires Shadowed(s.stores.versions, x.Key(), 1)
    ensures Sync(Voucher, s.stores, true, [x]).Ok? && LegacySync(Voucher, s.stores, true, [x]).Ok?
    ensures x.Key() in Sync(Voucher, s.stores, true, [x]).value.0.entity
    ensures Sync(Voucher, s.stores, true, [x]).value.0.entity[x.Key()] != x.element.record
    ensures LegacySync(Voucher, s.stores, true, [x]).value.0.entity == s.stores.entity[x.Key() := x.element.record]
  {
    hide SyncFrom, LegacySync, Inv, ByGuid, DistinctGuids, Winners, RecordsOf, Shadowed, ValidConfig;
    OneItem(x);
    SmallCommit(cfg, s, true);
    SmallLegacy(s.stores, x);
    FullRow(cfg, s, Sync(Voucher, s.stores, true, [x]).value.0, x.Key());
    LegacyEntity(Voucher, s.stores, true, [x]);
    assert s.stores.entity + map[x.Key() := x.element.record] == s.stores.entity[x.Key() := x.element.record];
  }

  lemma {:induction false} SmallLegacy(st: Stores, x: Item)
    ensures LegacySync(Voucher, st, true, [x]).Ok?
  {
    SmallBatch(Voucher, [x]);
  }

  // ----- overlapping syncs of one entity type -----

  function MasterItem(guid: Guid, name: string, alterId: int, hash: Hash): Item {
    Item(Element(Record(guid, Key(name, ""), alterId, map[], NoChildren), map[]), hash)
  }

  const OLD1: Item := MasterItem("g1", "A", 1, "h1")
  const NEW1: Item := MasterItem("g1", "B", 2, "h2")
  const NEW2: Item := MasterItem("g2", "A", 3, "h3")

  const WRONG: map<Key, Record> := map[Key("A", "") := OLD1.element.record, Key("B", "") := NEW1.element.record]

  /** The response lists the source as it stands in the end, in any order. */
  ghost predicate ListsSource(items: seq<Item>) {
    DistinctGuids(items) && ByGuid(items) == map["g1" := NEW1, "g2" := NEW2]
  }

  /** Nothing keeps two syncs of one entity type apart.  A first sync exports ledger g1 named A; then
      g1 is renamed B and a new ledger g2 takes the name A; a second sync exports and commits both;
      then the first commits its old export.  Row A is then g1's old row, and it stays so whatever
      syncs of the source follow, how many, incremental or full: they see g2 unchanged and skip it. */
  lemma {:induction false} OverlapIsNeverRepaired(later: seq<Attempt>)
    requires forall a :: a in later ==> ListsSource(a.items)
    ensures
      var second := SyncFrom(Master, NO_STORES, 0, false, [NEW1, NEW2]);
      && second.Ok?
      && second.value.0.entity == map[Key("A", "") := NEW2.element.record, Key("B", "") := NEW1.element.record]
      && var first := SyncFrom(Master, second.value.0, 0, false, [OLD1]);
      && first.Ok?
      && AfterAttempts(Master, first.value.0, later).entity == WRONG
  {
    hide SyncFrom, AfterAttempts, ListsSource;
    var st1 := SecondCommits(NEW1, NEW2);
    var st2 := FirstCommitsLate(OLD1, NEW1, NEW2, st1);
    StaysWrong(st2, later);
  }

  ghost predicate IsWrong(st: Stores) {
    st.entity == WRONG && "g2" in st.archive && st.archive["g2"] == NEW2
  }

  lemma {:induction false} StaysWrong(st: Stores, later: seq<Attempt>)
    requires IsWrong(st) && forall a :: a in later ==> ListsSource(a.items)
    ensures IsWrong(AfterAttempts(Master, st, later))
  {
    hide IsWrong, ListsSource, AfterAttempt;
    if later != [] {
      var n := |later| - 1;
      assert later[n] in later && forall a :: a in later[..n] ==> a in later;
      StaysWrong(st, later[..n]);
      AttemptStaysWrong(AfterAttempts(Master, st, later[..n]), later[n]);
    }
  }

  lemma {:induction false} AttemptStaysWrong(st: Stores, a: Attempt)
    requires IsWrong(st) && ListsSource(a.items)
    ensures Sync(Master, st, a.full, a.items).Ok? && IsWrong(AfterAttempt(Master, st, a))
  {
    hide RunFidelity, NextCheckpoint, ByGuid, ChangedItems, Passing, Winners, CreateVersions, MaxAlterId, RecordsOf,
         ListsSource, IsWrong, TooMany, DistinctGuids;
    var alterId := StartAlterId(st, a.full);
    var changed := ChangedItems(st, alterId, a.full, a.items);
    SourceIsDistinct(a.items);
    NeverTooMany(changed);
    FidelityEffect(Master, st, alterId, a.full, a.items);
    OnlyNew1Changed(st, alterId, a.full, a.items);
    OnlyNew1(changed);
    G2Stays(a.items, alterId, a.full);
    StillWrong(st, Winners(Master, RecordsOf(changed)), ByGuid(Passing(a.items, alterId, a.full)), AfterAttempt(Master, st, a));
  }

  lemma {:induction false} NeverTooMany(items: seq<Item>)
    ensures !TooMany(Master, items)
  {
  }

  lemma {:induction false} SourceIsDistinct(items: seq<Item>)
    requires ListsSource(items)
    ensures DistinctGuids(items)
  {
  }

  lemma {:induction false} StillWrong(st: Stores, w: map<Key, Record>, p: map<Guid, Item>, st': Stores)
    requires IsWrong(st) && WRONG + w == WRONG && ("g2" in p ==> p["g2"] == NEW2)
    requires st'.entity == st.entity + w && st'.archive == st.archive + p
    ensures IsWrong(st')
  {
  }

  lemma {:induction false} OnlyNew1Changed(st: Stores, alterId: int, full: bool, items: seq<Item>)
    requires IsWrong(st) && ListsSource(items)
    ensures forall x :: x in ChangedItems(st, alterId, full, items) ==> x == NEW1
  {
    hide ByGuid, ChangedItems, DistinctGuids;
    ByGuidFinds(items);
    ChangedItemsMeans(st, alterId, full, items);
  }

  lemma {:induction false} OnlyNew1(changed: seq<Item>)
    requires forall x :: x in changed ==> x == NEW1
    ensures WRONG + Winners(Master, RecordsOf(changed)) == WRONG
  {
    var w := Winners(Master, RecordsOf(changed));
    forall k | k in w ensures w[k] == NEW1.element.record {
      var i :| 0 <= i < |changed| && RecordsOf(changed)[i] == w[k];
      assert changed[i] in changed;
    }
  }

  lemma {:induction false} G2Stays(items: seq<Item>, alterId: int, full: bool)
    requires ListsSource(items)
    ensures var p := ByGuid(Passing(items, alterId, full)); "g2" in p ==> p["g2"] == NEW2
  {
    var passing := Passing(items, alterId, full);
    ByGuidFinds(items);
    if "g2" in ByGuid(passing) {
      assert ByGuid(passing)["g2"] in items;
    }
  }

  /** What a sync of a master table leaves, given which items it finds changed. */
  lemma {:induction false} SyncWith(st: Stores, alterId: int, items: seq<Item>, changed: seq<Item>)
    requires DistinctGuids(items) && ChangedItems(st, alterId, false, items) == changed
    ensures SyncFrom(Master, st, alterId, false, items).Ok?
    ensures SyncFrom(Master, st, alterId, false, items).value.0 ==
            Stores(st.entity + Winners(Master, RecordsOf(changed)), st.archive + ByGuid(Passing(items, alterId, false)),
                   CreateVersions(st.versions, changed), NextCheckpoint(st, alterId, false, |changed|, items))
  {
    FidelityEffect(Master, st, alterId, false, items);
    hide RunFidelity, ByGuid, Winners, RecordsOf, DistinctGuids, CreateVersions, ChangedItems, Passing, NextCheckpoint;
  }

  lemma {:induction false} MaxOfTwo(x: Item, y: Item)
    requires x.AlterId() <= y.AlterId()
    ensures MaxAlterId([x, y]) == y.AlterId()
  {
    assert [x, y][1..] == [y];
    assert y in [x, y];
  }

  lemma {:induction false} NewerOfTwo(x: Item, y: Item, alterId: int)
    requires x.AlterId() > alterId && y.AlterId() > alterId
    ensures Newer([x, y], alterId) == [x, y]
  {
    assert [x, y][1..] == [y];
    assert Newer([y], alterId) == [y];
  }

  lemma {:induction false} ChangedItemsOfTwo(st: Stores, alterId: nat, x: Item, y: Item)
    requires x.AlterId() > alterId && y.AlterId() > alterId
    ensures Passing([x, y], alterId, false) == [x, y]
    ensures ChangedItems(st, alterId, false, [x, y]) ==
            (if x.Guid() in st.archive && st.archive[x.Guid()].hash == x.hash then [] else [x]) +
            (if y.Guid() in st.archive && st.archive[y.Guid()].hash == y.hash then [] else [y])
  {
    assert x in [x, y] && y in [x, y];
    NewerOfTwo(x, y, alterId);
    LatestHashesMeans(st.archive, [x, y]);
    ChangedOfTwo(x, y, LatestHashes(st.archive, GuidsOf([x, y])));
  }

  lemma {:induction false} ChangedItemsOfOne(st: Stores, x: Item)
    requires x.Guid() in st.archive && st.archive[x.Guid()].hash != x.hash
    ensures Passing([x], 0, false) == [x] && ChangedItems(st, 0, false, [x]) == [x]
  {
    assert x in [x];
    LatestHashesMeans(st.archive, [x]);
    var existing := LatestHashes(st.archive, GuidsOf([x]));
    assert !IsUnchanged(existing, x);
    assert Changed([x], existing) == [x] + Changed([], existing);
  }

  lemma {:induction false} SecondCommits(new1: Item, new2: Item) returns (st: Stores)
    requires new1 == MasterItem("g1", "B", 2, "h2") && new2 == MasterItem("g2", "A", 3, "h3")
    ensures SyncFrom(Master, NO_STORES, 0, false, [new1, new2]).Ok?
    ensures SyncFrom(Master, NO_STORES, 0, false, [new1, new2]).value.0 == st
    ensures st.entity == map[Key("A", "") := new2.element.record, Key("B", "") := new1.element.record]
    ensures st.archive == map["g1" := new1, "g2" := new2]
  {
    hide SyncFrom, ByGuid, Winners, RecordsOf, DistinctGuids, CreateVersions, ChangedItems, Passing, NextCheckpoint;
    TwoItems(new1, new2);
    TwoRecords(Master, new1, new2);
    ChangedItemsOfTwo(NO_STORES, 0, new1, new2);
    SyncWith(NO_STORES, 0, [new1, new2], [new1, new2]);
    st := SyncFrom(Master, NO_STORES, 0, false, [new1, new2]).value.0;
    Pair(new1.Key(), new1.element.record, new2.Key(), new2.element.record);
    Pair("g1", new1, "g2", new2);
  }

  lemma {:induction false} Pair<K, V>(k: K, v: V, l: K, w: V)
    requires k != l
    ensures map[] + map[k := v, l := w] == map[k := v, l := w] == map[l := w, k := v]
  {
  }

  lemma {:induction false} FirstCommitsLate(old1: Item, new1: Item, new2: Item, st1: Stores) returns (st: Stores)
    requires old1 == MasterItem("g1", "A", 1, "h1")
    requires new1 == MasterItem("g1", "B", 2, "h2") && new2 == MasterItem("g2", "A", 3, "h3")
    requires st1.entity == map[Key("A", "") := new2.element.record, Key("B", "") := new1.element.record]
    requires st1.archive == map["g1" := new1, "g2" := new2]
    ensures SyncFrom(Master, st1, 0, false, [old1]).Ok? && SyncFrom(Master, st1, 0, false, [old1]).value.0 == st
    ensures st.entity == map[Key("A", "") := old1.element.record, Key("B", "") := new1.element.record]
    ensures st.archive == map["g1" := old1, "g2" := new2] && st.checkpoint == Some(1)
  {
    hide SyncFrom, ByGuid, Winners, RecordsOf, DistinctGuids, CreateVersions, ChangedItems, Passing;
    OneItem(old1);
    ChangedItemsOfOne(st1, old1);
    SyncWith(st1, 0, [old1], [old1]);
    st := SyncFrom(Master, st1, 0, false, [old1]).value.0;
  }
}
