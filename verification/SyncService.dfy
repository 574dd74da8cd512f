/** The sync of one entity type, statement by statement, proved against the pipeline functions. */
module SyncService {
  import opened Wrappers
  import opened Records
  import opened Statements
  import opened Connection
  import opened Dedupe
  import opened Pipeline
  import opened BulkUpsert
  import opened Masters
  import opened Vouchers
  import opened PurchaseOrders
  import opened Database

  /** What an export request ends in: items for the fidelity path, items without use for their raw
      bytes for the legacy path, or an exception. */
  datatype Response = Fidelity(items: seq<Item>) | Legacy(records: seq<Item>) | Raised

  // ----- the service -----

  class SyncService {
    const session: Session
    const entity: string
    const kind: Kind

    constructor (session: Session, entity: string, kind: Kind)
      ensures this.session == session && this.entity == entity && this.kind == kind
    {
      this.session, this.entity, this.kind := session, entity, kind;
    }

    /** The scope's tables exist and are in order. */
    ghost predicate Ready(scope: Scope, db: Database) {
      scope in db.tables && db.tables[scope].entity.Valid(kind)
    }

    ghost predicate WellTypedItems(items: seq<Item>) {
      forall x :: x in items ==> WellTyped(kind, x.element.record)
    }

    /** The normalised table's repository: bulk upsert for masters, parent and child rewrite otherwise. */
    method UpsertEntityBatch(scope: Scope, records: seq<Record>, ghost from: nat) returns (r: Result<nat>)
      requires Ready(scope, session.work)
      requires forall rec :: rec in records ==> WellTyped(kind, rec)
      requires session.connection.Since(from)
      modifies session`work, session.connection`sent
      ensures session.connection.Met(r, from, old(session.connection.sent) + EntityStatements(kind, records))
      ensures session.work.runs == old(session.work).runs
      ensures r.Ok? ==> Ready(scope, session.work)
      ensures r.Ok? ==> session.work == old(session.work).WithEntity(scope, session.work.tables[scope].entity)
      ensures r.Ok? ==> UpsertEntities(kind, old(session.work).tables[scope].entity.View(), records) ==
                        Ok(session.work.tables[scope].entity.View())
      ensures r.Ok? ==> r.value == WinnerCount(kind, records)
      ensures r.Err? && r.error != ConnectionLost ==>
                UpsertEntities(kind, old(session.work).tables[scope].entity.View(), records) == Err(r.error)
    {
      hide Connection.Calm, Connection.Loses, Winners, Tables.AsStores, EntityTable.View, EntityTable.Valid;
      match kind
      case Master => r := UpsertMasters(scope, records, from);
      case Voucher => r := UpsertVouchers(scope, records, from);
      case PurchaseOrder => r := UpsertOrders(scope, records, from);
    }

    method UpsertMasters(scope: Scope, records: seq<Record>, ghost from: nat) returns (r: Result<nat>)
      requires Ready(scope, session.work) && kind == Master
      requires session.connection.Since(from)
      modifies session`work, session.connection`sent
      ensures session.connection.Met(r, from, old(session.connection.sent) + EntityStatements(Master, records))
      ensures session.work.runs == old(session.work).runs
      ensures r.Ok? ==> Ready(scope, session.work)
      ensures r.Ok? ==> session.work == old(session.work).WithEntity(scope, session.work.tables[scope].entity)
      ensures r.Ok? ==> MastersPut(old(session.work).tables[scope].entity.View(), records,
                                   session.work.tables[scope].entity.View(), r.value)
      ensures r.Err? ==> r.error == ConnectionLost
    {
      hide Connection.Calm, Connection.Loses, MastersPut, KeyCount, Chunks, MASTERS;
      var rows := session.work.tables[scope].entity.rows;
      var upserted :- UpsertMasterRows(session.connection, rows, records, from);
      session.work := session.work.WithEntity(scope, MasterRows(upserted.0));
      return Ok(upserted.1);
    }

    method UpsertVouchers(scope: Scope, records: seq<Record>, ghost from: nat) returns (r: Result<nat>)
      requires Ready(scope, session.work) && kind == Voucher
      requires forall rec :: rec in records ==> WellTyped(Voucher, rec)
      requires session.connection.Since(from)
      modifies session`work, session.connection`sent
      ensures session.connection.Met(r, from, old(session.connection.sent) + VoucherStatements(records))
      ensures session.work.runs == old(session.work).runs
      ensures r.Ok? ==> Ready(scope, session.work)
      ensures r.Ok? ==> session.work == old(session.work).WithEntity(scope, session.work.tables[scope].entity)
      ensures r.Ok? ==> session.work.tables[scope].entity.View() ==
                        old(session.work).tables[scope].entity.View() + Winners(Voucher, records)
      ensures r.Ok? ==> r.value == |Winners(Voucher, records)| <= MAX_PARAMETERS
      ensures r.Err? && r.error != ConnectionLost ==> r.error == TooManyParameters && |Winners(Voucher, records)| > MAX_PARAMETERS
    {
      hide Connection.Calm, Connection.Loses, Winners, VoucherTables.View, VoucherTables.Valid;
      var repo := new VoucherRepository(session.connection, session.work.tables[scope].entity.vouchers);
      var count :- repo.UpsertBatch(records, from);
      session.work := session.work.WithEntity(scope, VoucherRows(repo.tables));
      return Ok(count);
    }

    method UpsertOrders(scope: Scope, records: seq<Record>, ghost from: nat) returns (r: Result<nat>)
      requires Ready(scope, session.work) && kind == PurchaseOrder
      requires forall rec :: rec in records ==> WellTyped(PurchaseOrder, rec)
      requires session.connection.Since(from)
      modifies session`work, session.connection`sent
      ensures session.connection.Met(r, from, old(session.connection.sent) + OrderStatements(records))
      ensures session.work.runs == old(session.work).runs
      ensures r.Ok? ==> Ready(scope, session.work)
      ensures r.Ok? ==> session.work == old(session.work).WithEntity(scope, session.work.tables[scope].entity)
      ensures r.Ok? ==> session.work.tables[scope].entity.View() ==
                        old(session.work).tables[scope].entity.View() + Winners(PurchaseOrder, records)
      ensures r.Ok? ==> r.value == |Winners(PurchaseOrder, records)| <= MAX_PARAMETERS
      ensures r.Err? && r.error != ConnectionLost ==>
                r.error == TooManyParameters && |Winners(PurchaseOrder, records)| > MAX_PARAMETERS
    {
      hide Connection.Calm, Connection.Loses, Winners, OrderTables.View, OrderTables.Valid;
      var repo := new PurchaseOrderRepository(session.connection, session.work.tables[scope].entity.orders);
      var count :- repo.UpsertBatch(records, from);
      session.work := session.work.WithEntity(scope, OrderRows(repo.tables));
      return Ok(count);
    }

    /** Splits the passing items into changed and unchanged ones. */
    method Partition(items: seq<Item>, existing: map<Guid, Hash>) returns (changed: seq<Item>, same: seq<Item>)
      ensures changed == Changed(items, existing) && same == Unchanged(items, existing)
    {
      hide Changed, Unchanged;
      changed, same := [], [];
      NoParts(existing);
      assert items[..0] == [];
      for i := 0 to |items|
        invariant changed == Changed(items[..i], existing) && same == Unchanged(items[..i], existing)
      {
        PartsStep(items, existing, i);
        var x := items[i];
        if x.Guid() !in existing || existing[x.Guid()] != x.hash {
          changed := changed + [x];
        } else {
          same := same + [x];
        }
      }
      assert items[..|items|] == items;
    }

    /** Counts the changed items that were archived before, and those that were not. */
    method CountChanged(changed: seq<Item>, existing: map<Guid, Hash>) returns (inserted: nat, updated: nat)
      ensures updated == CountKnown(changed, existing) && inserted + updated == |changed|
    {
      inserted, updated := 0, 0;
      for i := 0 to |changed|
        invariant updated + CountKnown(changed[i..], existing) == CountKnown(changed, existing)
        invariant inserted + updated == i
      {
        assert changed[i..][0] == changed[i] && changed[i..][1..] == changed[i + 1..];
        if changed[i].Guid() in existing {
          updated := updated + 1;
        } else {
          inserted := inserted + 1;
        }
      }
    }

    /** Upserts, archives and versions the changed items; counts the inserted and the updated ones. */
    method StoreChanged(scope: Scope, changed: seq<Item>, existing: map<Guid, Hash>, ghost from: nat) returns (r: Result<(nat, nat)>)
      requires Ready(scope, session.work) && WellTypedItems(changed)
      requires session.connection.Since(from)
      modifies session`work, session.connection`sent
      ensures session.connection.Met(r, from, old(session.connection.sent) + StoreStatements(kind, changed))
      ensures session.work.runs == old(session.work).runs
      ensures r.Ok? ==> Ready(scope, session.work)
      ensures r.Ok? ==> session.work == old(session.work).Put(scope, session.work.tables[scope])
      ensures r.Ok? ==> Stored(old(session.work).tables[scope].AsStores(), changed, session.work.tables[scope].AsStores())
      ensures r.Ok? ==> r.value.1 == CountKnown(changed, existing) && r.value.0 + r.value.1 == |changed|
      ensures r.Err? && r.error != ConnectionLost ==> NotStored(old(session.work).tables[scope].AsStores(), changed, r.error)
    {
      hide Connection.Calm, Connection.Loses, Chunks, EntityStatements, WinnerCount, Winners, CountKnown, UpsertArchive, Pipeline.CreateVersions, UpsertEntities,
           EntityTable.Valid, EntityTable.View, RecordsOf;
      RecordsWellTyped(kind, changed);
      if changed == [] {
        EmptyParts(kind, session.work.tables[scope].AsStores());
        return Ok((0, 0));
      }
      var upserted :- UpsertEntityBatch(scope, RecordsOf(changed), from);
      var inserted, updated := CountChanged(changed, existing);
      var rawRepo := new RawArchiveRepository(session);
      var archived :- rawRepo.UpsertBatch(scope, changed, from);
      var versionRepo := new EntityVersionRepository(session);
      var versioned :- versionRepo.CreateVersions(scope, changed, from);
      return Ok((inserted, updated));
    }

    /** What storing the changed items leaves, by the specification's parts. */
    ghost predicate Stored(st: Stores, changed: seq<Item>, st': Stores) {
      && UpsertEntities(kind, st.entity, RecordsOf(changed)) == Ok(st'.entity)
      && UpsertArchive(st.archive, changed) == Ok(st'.archive)
      && st'.versions == Pipeline.CreateVersions(st.versions, changed)
      && st'.checkpoint == st.checkpoint
    }

    ghost predicate NotStored(st: Stores, changed: seq<Item>, e: Error) {
      var entity, archive := UpsertEntities(kind, st.entity, RecordsOf(changed)), UpsertArchive(st.archive, changed);
      entity == Err(e) || (entity.Ok? && archive == Err(e))
    }

    /** Hash-based dedupe, entity upsert, raw archive, versions: unless the connection is lost, the
        outcome and the stores are the specification's. */
    method RunFidelityPipeline(scope: Scope, alterId: int, full: bool, items: seq<Item>, ghost from: nat) returns (r: Result<Counts>)
      requires Ready(scope, session.work) && WellTypedItems(items)
      requires session.connection.Since(from)
      modifies session`work, session.connection`sent
      ensures session.connection.Met(r, from, old(session.connection.sent) + FidelityStatements(kind, old(session.work).tables[scope].AsStores(), alterId, full, items))
      ensures session.work.runs == old(session.work).runs
      ensures r.Ok? ==> Ready(scope, session.work)
      ensures r.Ok? ==> session.work == old(session.work).Put(scope, session.work.tables[scope])
      ensures r.Ok? ==> RunFidelity(kind, old(session.work).tables[scope].AsStores(), alterId, full, items) ==
                        Ok((session.work.tables[scope].AsStores(), r.value))
      ensures r.Err? && r.error != ConnectionLost ==>
                RunFidelity(kind, old(session.work).tables[scope].AsStores(), alterId, full, items) == Err(r.error)
    {
      hide Connection.Calm, Connection.Loses, Chunks, StoreStatements, Winners, Changed, Unchanged, CountKnown, UpsertArchive, Pipeline.CreateVersions,
           LatestHashes, UpsertEntities, EntityTable.Valid, EntityTable.View, Passing;
      ghost var st := session.work.tables[scope].AsStores();
      var passing := Passing(items, alterId, full);
      PassingAmong(items, alterId, full);
      if passing == [] {
        NothingPasses(kind, st, alterId, full, items);
        return Ok(Counts(0, 0, 0));
      }
      var rawRepo := new RawArchiveRepository(session);
      var existing :- rawRepo.GetLatestHashes(scope, GuidsOf(passing), from);
      var changed, same := Partition(passing, existing);
      var counted :- StoreChanged(scope, changed, existing, from);
      if same != [] {
        var archived :- rawRepo.UpsertBatch(scope, same, from);
      } else {
        EmptyParts(kind, session.work.tables[scope].AsStores());
      }
      return Ok(Counts(counted.0, counted.1, |same|));
    }

    /** The upsert-everything path, its checkpoint included. */
    method RunLegacyPipeline(scope: Scope, alterId: int, full: bool, records: seq<Item>, ghost from: nat) returns (r: Result<nat>)
      requires Ready(scope, session.work) && WellTypedItems(records)
      requires alterId == StartAlterId(session.work.tables[scope].AsStores(), full)
      requires session.connection.Since(from)
      modifies session`work, session.connection`sent
      ensures session.connection.Met(r, from, old(session.connection.sent) + LegacyStatements(kind, alterId, full, records))
      ensures session.work.runs == old(session.work).runs
      ensures r.Ok? ==> Ready(scope, session.work)
      ensures r.Ok? ==> session.work == old(session.work).Put(scope, session.work.tables[scope])
      ensures r.Ok? ==> LegacySync(kind, old(session.work).tables[scope].AsStores(), full, records) ==
                        Ok((session.work.tables[scope].AsStores(), r.value))
      ensures r.Err? && r.error != ConnectionLost ==>
                LegacySync(kind, old(session.work).tables[scope].AsStores(), full, records) == Err(r.error)
    {
      hide Connection.Calm, Connection.Loses, Chunks, EntityStatements, WinnerCount, Winners, UpsertEntities, EntityTable.Valid, EntityTable.View, Passing, MaxAlterId,
           RecordsOf, LegacySync, StartAlterId;
      ghost var st := session.work.tables[scope].AsStores();
      var passing := Passing(records, alterId, full);
      var count := 0;
      LegacyParts(kind, st, alterId, full, records);
      PassingWellTyped(kind, records, alterId, full);
      if passing != [] {
        count :- UpsertEntityBatch(scope, RecordsOf(passing), from);
        var maxId := MaxAlterId(passing);
        if maxId > alterId || full {
          var cp := new CheckpointRepository(session);
          var saved :- cp.SaveAlterId(scope, maxId, from);
        }
      }
      return Ok(count);
    }

    /** The body of a sync, inside its transaction: `Outcome` says what it does to the scope's tables. */
    method RunPipeline(scope: Scope, full: bool, response: Response, ghost from: nat) returns (r: Result<(nat, Counts)>)
      requires Ready(scope, session.work) && WellTypedItems(Parsed(response))
      requires session.connection.Since(from)
      modifies session`work, session.connection`sent
      ensures session.connection.Met(r, from, old(session.connection.sent) + PipelineStatements(kind, old(session.work).tables[scope].AsStores(), full, response))
      ensures session.work.runs == old(session.work).runs
      ensures r.Ok? ==> Ready(scope, session.work)
      ensures r.Ok? ==> session.work == old(session.work).Put(scope, session.work.tables[scope])
      ensures r.Ok? ==> Outcome(kind, old(session.work).tables[scope].AsStores(), full, response) ==
                        Ok((session.work.tables[scope].AsStores(), r.value.0, r.value.1))
      ensures r.Err? && r.error != ConnectionLost ==>
                Outcome(kind, old(session.work).tables[scope].AsStores(), full, response) == Err(r.error)
    {
      hide Connection.Calm, Connection.Loses, FidelityStatements, LegacyStatements, RunFidelity, LegacySync, EntityTable.Valid, EntityTable.View;
      var cp := new CheckpointRepository(session);
      var alterId := 0;
      if !full {
        alterId :- cp.GetAlterId(scope, from);
      }
      match response
      case Raised =>
        return Err(FetchFailed);
      case Fidelity(items) =>
        FidelityKeepsCheckpoint(kind, session.work.tables[scope].AsStores(), alterId, full, items);
        var counts :- RunFidelityPipeline(scope, alterId, full, items, from);
        var total := counts.inserted + counts.updated;
        if total > 0 || full {
          var maxId := MaxAlterId(items);
          if maxId > alterId || full {
            var saved :- cp.SaveAlterId(scope, maxId, from);
          }
        }
        return Ok((total, counts));
      case Legacy(records) =>
        var count :- RunLegacyPipeline(scope, alterId, full, records, from);
        return Ok((count, Counts(0, 0, 0)));
    }

    /** The try block: an audit row is opened first and closed last, as a success or as a failure. */
    method Attempt(scope: Scope, full: bool, response: Response, ghost from: nat) returns (r: Result<nat>)
      requires Ready(scope, session.work) && WellTypedItems(Parsed(response))
      requires session.connection.Since(from)
      modifies session`work, session`nextRunId, session.connection`sent
      ensures session.connection.Met(r, from, old(session.connection.sent) + 1 + PipelineStatements(kind, old(session.work).tables[scope].AsStores(), full, response))
      ensures r.Ok? ==> session.nextRunId == old(session.nextRunId) + 1
      ensures r.Ok? ==> Commits(kind, full, response, old(session.work), scope, old(session.nextRunId), r.value, session.work)
      ensures r.Err? && session.nextRunId == old(session.nextRunId) ==> session.work == old(session.work) && r.error == ConnectionLost
      ensures r.Err? && session.nextRunId != old(session.nextRunId) ==>
                && session.nextRunId == old(session.nextRunId) + 1
                && session.work.runs == old(session.work).runs[old(session.nextRunId) := Run(scope, Failure, 0, Counts(0, 0, 0))]
      ensures r.Err? && r.error != ConnectionLost ==>
                Outcome(kind, old(session.work).tables[scope].AsStores(), full, response) == Err(r.error)
    {
      hide Connection.Calm, Connection.Loses, PipelineStatements, Outcome, EntityTable.Valid, EntityTable.View;
      ghost var before := session.work;
      var cp := new CheckpointRepository(session);
      var runId :- cp.StartRun(scope, from);
      ghost var started := session.work;
      var ran := RunPipeline(scope, full, response, from);
      match ran
      case Ok((count, counts)) =>
        cp.FinishRun(runId, Success, count, counts);
        assert session.work == before.Put(scope, session.work.tables[scope]).PutRun(runId, Run(scope, Success, count, counts));
        return Ok(count);
      case Err(e) =>
        cp.FinishRun(runId, Failure, 0, Counts(0, 0, 0));
        return Err(e);
    }

    /** One sync of one entity type of one company: all of it is committed, or nothing is. */
    method Sync(company: string, full: bool, response: Response) returns (r: Result<nat>)
      requires session.Valid() && InOrder(kind, Scope(company, entity), session.committed)
      requires WellTypedItems(Parsed(response))
      modifies session, session.connection`sent
      ensures session.connection.Met(r, old(session.connection.sent), old(session.connection.sent) + SyncStatements(kind, old(session.committed), Scope(company, entity), full, response))
      ensures session.Valid() && session.nextRunId >= old(session.nextRunId)
      ensures r.Ok? ==> session.nextRunId > old(session.nextRunId)
      ensures r.Ok? ==> Commits(kind, full, response, old(session.committed), Scope(company, entity),
                                old(session.nextRunId), r.value, session.committed)
      ensures r.Err? ==> session.committed == old(session.committed) && session.work == session.committed
      ensures r.Err? && r.error != ConnectionLost ==>
                Outcome(kind, StoresOf(kind, old(session.committed), Scope(company, entity)), full, response) == Err(r.error)
      // where no statement is lost, the call returns or raises exactly what is specified
      ensures session.connection.Calm(old(session.connection.sent), old(session.connection.sent) +
                SyncStatements(kind, old(session.committed), Scope(company, entity), full, response)) ==>
                Answers(Outcome(kind, StoresOf(kind, old(session.committed), Scope(company, entity)), full, response), r)
    {
      hide Connection.Calm, Connection.Loses, PipelineStatements, Outcome, EntityTable.Valid, EntityTable.View, Commits, Answers;
      var scope := Scope(company, entity);
      ghost var from := session.connection.sent;
      CalmAtFirst(session.connection);
      session.Begin();
      if scope !in session.work.tables {
        session.work := session.work.Put(scope, NoRows(kind));
      }
      NoRowsYet(kind, scope, session.committed, session.work);
      ghost var before := session.work;
      var attempted := Attempt(scope, full, response, from);
      match attempted
      case Err(e) =>
        session.Rollback();
        r := Err(e);
        LossAnswers(session.connection, r, from, from + SyncStatements(kind, old(session.committed), scope, full, response),
                    Outcome(kind, StoresOf(kind, old(session.committed), scope), full, response));
        return;
      case Ok(count) =>
        CommitsFrom(kind, full, response, session.committed, before, scope, old(session.nextRunId), count, session.work);
        CommitKeepsIds(kind, full, response, session.committed, scope, old(session.nextRunId), count, session.work);
        var committed := session.Commit(from);
        if committed.Err? {
          session.Rollback();
          r := Err(committed.error);
          LossAnswers(session.connection, r, from, from + SyncStatements(kind, old(session.committed), scope, full, response),
                      Outcome(kind, StoresOf(kind, old(session.committed), scope), full, response));
          return;
        }
        CommitsAnswer(kind, full, response, old(session.committed), scope, old(session.nextRunId), count, session.committed);
        return Ok(count);
    }
  }

  /** The bulk upsert of a master table's rows. */
  method UpsertMasterRows(connection: Connection, rows: map<Key, Record>, records: seq<Record>, ghost from: nat)
      returns (r: Result<(map<Key, Record>, nat)>)
    requires connection.Since(from)
    modifies connection`sent
    ensures connection.Met(r, from, old(connection.sent) + Chunks(KeyCount(MASTERS, records)))
    ensures r.Ok? ==> MastersPut(rows, records, r.value.0, r.value.1)
    ensures r.Err? ==> r.error == ConnectionLost
  {
    hide Connection.Calm, Connection.Loses, Upserted, KeyCount, Chunks, MASTERS, MastersPut;
    MastersFit();
    BulkPutsMasters(rows, records);
    var table := new Table(connection, rows);
    var count :- table.BulkUpsert(MASTERS, records, from);
    return Ok((table.rows, count));
  }

  /** The winners of the batch are put in, and counted. */
  ghost predicate MastersPut(rows: map<Key, Record>, records: seq<Record>, rows': map<Key, Record>, count: nat) {
    rows' == rows + Winners(Master, records) && count == |Winners(Master, records)|
  }

  lemma {:induction false} BulkPutsMasters(rows: map<Key, Record>, records: seq<Record>)
    ensures MastersPut(rows, records, Upserted(MASTERS, rows, records), KeyCount(MASTERS, records))
  {
    MasterBulk(rows, records);
    hide Winners, Upserted, KeyCount, MASTERS;
  }

  // ----- how many statements it takes at most -----

  function EntityStatements(kind: Kind, records: seq<Record>): nat {
    match kind
    case Master => Chunks(KeyCount(MASTERS, records))
    case Voucher => VoucherStatements(records)
    case PurchaseOrder => OrderStatements(records)
  }

  /** Entity table, archive and versions. */
  function StoreStatements(kind: Kind, changed: seq<Item>): nat {
    EntityStatements(kind, RecordsOf(changed)) + 2 * Chunks(|changed|)
  }

  /** The stored hashes, the changed items, the unchanged ones in the archive. */
  function FidelityStatements(kind: Kind, st: Stores, alterId: int, full: bool, items: seq<Item>): nat {
    var passing := Passing(items, alterId, full);
    var existing := LatestHashes(st.archive, GuidsOf(passing));
    1 + StoreStatements(kind, Changed(passing, existing)) + Chunks(|Unchanged(passing, existing)|)
  }

  function LegacyStatements(kind: Kind, alterId: int, full: bool, records: seq<Item>): nat {
    EntityStatements(kind, RecordsOf(Passing(records, alterId, full))) + 1
  }

  /** The checkpoint is read and saved around the pipeline. */
  function PipelineStatements(kind: Kind, st: Stores, full: bool, response: Response): nat {
    match response
    case Raised => 1
    case Fidelity(items) => 2 + FidelityStatements(kind, st, StartAlterId(st, full), full, items)
    case Legacy(records) => 1 + LegacyStatements(kind, StartAlterId(st, full), full, records)
  }

  /** A whole sync: an audit row, the pipeline, the commit. */
  ghost function SyncStatements(kind: Kind, db: Database, scope: Scope, full: bool, response: Response): nat {
    2 + PipelineStatements(kind, StoresOf(kind, db, scope), full, response)
  }

  // ----- what a sync commits -----

  function Parsed(response: Response): seq<Item> {
    match response
    case Fidelity(items) => items
    case Legacy(records) => records
    case Raised => []
  }

  /** A table without rows; one that was never written to is not told apart from it. */
  function NoRows(kind: Kind): Tables {
    var entity := match kind
      case Master => MasterRows(map[])
      case Voucher => VoucherRows(EMPTY_VOUCHERS)
      case PurchaseOrder => OrderRows(EMPTY_ORDERS);
    Tables(entity, map[], map[], None)
  }

  ghost predicate InOrder(kind: Kind, scope: Scope, db: Database) {
    scope in db.tables ==> db.tables[scope].entity.Valid(kind)
  }

  /** The stores of a scope; one that was never synced has no rows and no checkpoint. */
  ghost function StoresOf(kind: Kind, db: Database, scope: Scope): (st: Stores)
    ensures scope !in db.tables ==> st == Stores(map[], map[], map[], None)
  {
    NoVouchers();
    NoOrders();
    if scope in db.tables then db.tables[scope].AsStores() else NoRows(kind).AsStores()
  }

  /** The specified outcome of a sync: the stores it leaves, the number of records it reports and
      the counts of its audit row, or the error it raises. */
  ghost function Outcome(kind: Kind, st: Stores, full: bool, response: Response): Result<(Stores, nat, Counts)> {
    match response
    case Raised =>
      Err(FetchFailed)
    case Fidelity(items) =>
      var (st', counts) :- Pipeline.Sync(kind, st, full, items);
      Ok((st', counts.Total(), counts))
    case Legacy(records) =>
      var (st', count) :- LegacySync(kind, st, full, records);
      Ok((st', count, Counts(0, 0, 0)))
  }

  /** What the caller of a sync is told. */
  ghost predicate Answers(outcome: Result<(Stores, nat, Counts)>, r: Result<nat>) {
    match outcome
    case Ok((_, count, _)) => r == Ok(count)
    case Err(e) => r == Err(e)
  }

  /** One sync took `before` to `after`: the tables of its scope are as specified, one finished
      audit row was added, and nothing else changed. */
  ghost predicate Commits(kind: Kind, full: bool, response: Response, before: Database, scope: Scope,
                          id: nat, count: nat, after: Database) {
    && scope in after.tables && id in after.runs
    && var t, run := after.tables[scope], after.runs[id];
    && t.entity.Valid(kind)
    && run.scope == scope && run.status == Success && run.synced == count
    && Outcome(kind, StoresOf(kind, before, scope), full, response) == Ok((t.AsStores(), count, run.counts))
    && after == before.Put(scope, t).PutRun(id, run)
  }

  lemma {:induction false} NoRowsYet(kind: Kind, scope: Scope, db: Database, work: Database)
    requires InOrder(kind, scope, db)
    requires work == if scope in db.tables then db else db.Put(scope, NoRows(kind))
    ensures scope in work.tables && work.tables[scope].entity.Valid(kind)
    ensures work.tables[scope].AsStores() == StoresOf(kind, db, scope)
    ensures forall t :: work.Put(scope, t) == db.Put(scope, t)
  {
    NoVouchers();
    NoOrders();
  }

  /** An error is the specified one, or a statement was lost. */
  lemma {:induction false} LossAnswers(c: Connection, r: Result<nat>, from: nat, limit: nat, outcome: Result<(Stores, nat, Counts)>)
    requires c.Met(r, from, limit) && r.Err? && (r.error != ConnectionLost ==> outcome == Err(r.error))
    ensures c.Calm(from, limit) ==> Answers(outcome, r)
  {
    if c.Calm(from, limit) {
      CalmMeets(c, r, from, limit);
    }
  }

  lemma {:induction false} CommitsAnswer(kind: Kind, full: bool, response: Response, before: Database, scope: Scope,
                                         id: nat, count: nat, after: Database)
    requires Commits(kind, full, response, before, scope, id, count, after)
    ensures Answers(Outcome(kind, StoresOf(kind, before, scope), full, response), Ok(count))
  {
    hide Outcome, EntityTable.Valid, Tables.AsStores;
  }

  lemma {:induction false} CommitsFrom(kind: Kind, full: bool, response: Response, db: Database, before: Database,
                                       scope: Scope, id: nat, count: nat, after: Database)
    requires Commits(kind, full, response, before, scope, id, count, after)
    requires scope in before.tables && before.tables[scope].AsStores() == StoresOf(kind, db, scope)
    requires forall t :: before.Put(scope, t) == db.Put(scope, t)
    ensures Commits(kind, full, response, db, scope, id, count, after)
  {
    hide Outcome, EntityTable.Valid, EntityTable.View;
  }

  lemma {:induction false} CommitKeepsIds(kind: Kind, full: bool, response: Response, before: Database, scope: Scope,
                                          id: nat, count: nat, after: Database)
    requires Commits(kind, full, response, before, scope, id, count, after)
    requires forall i :: i in before.runs ==> i < id
    ensures forall i :: i in after.runs ==> i < id + 1
  {
    hide Outcome, EntityTable.Valid, EntityTable.View;
  }

  lemma {:induction false} FidelityKeepsCheckpoint(kind: Kind, st: Stores, alterId: int, full: bool, items: seq<Item>)
    ensures var r := RunFidelity(kind, st, alterId, full, items); r.Ok? ==> r.value.0.checkpoint == st.checkpoint
  {
    hide UpsertEntities, UpsertArchive, Pipeline.CreateVersions, Changed, Unchanged, Passing, LatestHashes, CountKnown;
  }

  /** The upsert-everything path for what passes. */
  lemma {:induction false} LegacyParts(kind: Kind, st: Stores, alterId: int, full: bool, records: seq<Item>)
    requires alterId == StartAlterId(st, full)
    ensures var passing := Passing(records, alterId, full);
            LegacySync(kind, st, full, records) ==
            if passing == [] then Ok((st, 0))
            else match UpsertEntities(kind, st.entity, RecordsOf(passing))
              case Err(e) => Err(e)
              case Ok(entity) =>
                var maxId := MaxAlterId(passing);
                Ok((st.(entity := entity, checkpoint := if maxId > alterId || full then Some(maxId) else st.checkpoint),
                    WinnerCount(kind, RecordsOf(passing))))
  {
    hide UpsertEntities, Passing, MaxAlterId, RecordsOf, WinnerCount;
  }

  lemma {:induction false} PassingAmong(items: seq<Item>, alterId: int, full: bool)
    ensures forall x :: x in Passing(items, alterId, full) ==> x in items
  {
  }

  lemma {:induction false} PassingWellTyped(kind: Kind, items: seq<Item>, alterId: int, full: bool)
    requires forall x :: x in items ==> WellTyped(kind, x.element.record)
    ensures forall r :: r in RecordsOf(Passing(items, alterId, full)) ==> WellTyped(kind, r)
  {
  }

  lemma {:induction false} RecordsWellTyped(kind: Kind, items: seq<Item>)
    requires forall x :: x in items ==> WellTyped(kind, x.element.record)
    ensures forall r :: r in RecordsOf(items) ==> WellTyped(kind, r)
  {
    forall r | r in RecordsOf(items) ensures WellTyped(kind, r) {
      var i :| 0 <= i < |items| && RecordsOf(items)[i] == r;
      assert items[i] in items;
    }
  }

  lemma {:induction false} NothingPasses(kind: Kind, st: Stores, alterId: int, full: bool, items: seq<Item>)
    requires Passing(items, alterId, full) == []
    ensures RunFidelity(kind, st, alterId, full, items) == Ok((st, Counts(0, 0, 0)))
  {
    hide Passing, UpsertArchive, Pipeline.CreateVersions, UpsertEntities, Changed, Unchanged, LatestHashes;
    NoParts(LatestHashes(st.archive, GuidsOf([])));
    EmptyParts(kind, st);
  }

  lemma {:induction false} NoParts(existing: map<Guid, Hash>)
    ensures Changed([], existing) == [] && Unchanged([], existing) == []
  {
  }

  lemma {:induction false} ChangedConcat(a: seq<Item>, b: seq<Item>, existing: map<Guid, Hash>)
    ensures Changed(a + b, existing) == Changed(a, existing) + Changed(b, existing)
  {
    if a == [] {
      assert a + b == b;
    } else {
      assert (a + b)[1..] == a[1..] + b;
      ChangedConcat(a[1..], b, existing);
      var head := if IsUnchanged(existing, a[0]) then [] else [a[0]];
      ParentChild.SeqPlusAssociates(head, Changed(a[1..], existing), Changed(b, existing));
    }
  }

  lemma {:induction false} UnchangedConcat(a: seq<Item>, b: seq<Item>, existing: map<Guid, Hash>)
    ensures Unchanged(a + b, existing) == Unchanged(a, existing) + Unchanged(b, existing)
  {
    if a == [] {
      assert a + b == b;
    } else {
      assert (a + b)[1..] == a[1..] + b;
      UnchangedConcat(a[1..], b, existing);
      var head := if IsUnchanged(existing, a[0]) then [a[0]] else [];
      ParentChild.SeqPlusAssociates(head, Unchanged(a[1..], existing), Unchanged(b, existing));
    }
  }

  lemma {:induction false} PartsOne(x: Item, existing: map<Guid, Hash>)
    ensures Changed([x], existing) == if IsUnchanged(existing, x) then [] else [x]
    ensures Unchanged([x], existing) == if IsUnchanged(existing, x) then [x] else []
  {
    hide IsUnchanged;
    NoParts(existing);
  }

  lemma {:induction false} PartsStep(items: seq<Item>, existing: map<Guid, Hash>, i: nat)
    requires i < |items|
    ensures Changed(items[..i + 1], existing) == Changed(items[..i], existing) + if IsUnchanged(existing, items[i]) then [] else [items[i]]
    ensures Unchanged(items[..i + 1], existing) == Unchanged(items[..i], existing) + if IsUnchanged(existing, items[i]) then [items[i]] else []
  {
    hide Changed, Unchanged, IsUnchanged;
    assert items[..i + 1] == items[..i] + [items[i]];
    ChangedConcat(items[..i], [items[i]], existing);
    UnchangedConcat(items[..i], [items[i]], existing);
    PartsOne(items[i], existing);
  }

  /** Empty batches leave every store as it is. */
  lemma {:induction false} EmptyParts(kind: Kind, st: Stores)
    ensures UpsertEntities(kind, st.entity, RecordsOf([])) == Ok(st.entity)
    ensures forall a :: UpsertArchive(a, []) == Ok(a)
    ensures Pipeline.CreateVersions(st.versions, []) == st.versions
  {
    assert RecordsOf([]) == [];
    assert st.entity + map[] == st.entity;
  }
}
