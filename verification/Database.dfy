/** The database, the transaction around a sync, and the repositories of the bookkeeping tables. */
module Database {
  import opened Wrappers
  import opened Records
  import opened Statements
  import opened Connection
  import opened Pipeline
  import opened Vouchers
  import opened PurchaseOrders

  /** All rows of one entity type of one company. */
  datatype Scope = Scope(company: string, entity: string)

  datatype Status = Running | Success | Failure

  /** An audit row. */
  datatype Run = Run(scope: Scope, status: Status, synced: nat, counts: Counts)

  datatype EntityTable =
    | MasterRows(rows: map<Key, Record>)
    | VoucherRows(vouchers: VoucherTables)
    | OrderRows(orders: OrderTables)
  {
    ghost predicate Valid(kind: Kind) {
      match this
      case MasterRows(_) => kind == Master
      case VoucherRows(v) => kind == Voucher && v.Valid()
      case OrderRows(o) => kind == PurchaseOrder && o.Valid()
    }

    ghost function View(): map<Key, Record> {
      match this
      case MasterRows(rows) => rows
      case VoucherRows(v) => v.View()
      case OrderRows(o) => o.View()
    }
  }

  datatype Tables = Tables(entity: EntityTable, archive: Archive, versions: Versions, checkpoint: Option<int>) {
    ghost function AsStores(): Stores {
      Stores(entity.View(), archive, versions, checkpoint)
    }
  }

  datatype Database = Database(tables: map<Scope, Tables>, runs: map<nat, Run>) {
    function Put(scope: Scope, t: Tables): Database {
      this.(tables := tables[scope := t])
    }

    function WithArchive(scope: Scope, archive: Archive): Database
      requires scope in tables
    {
      Put(scope, tables[scope].(archive := archive))
    }

    function WithVersions(scope: Scope, versions: Versions): Database
      requires scope in tables
    {
      Put(scope, tables[scope].(versions := versions))
    }

    function WithCheckpoint(scope: Scope, alterId: int): Database
      requires scope in tables
    {
      Put(scope, tables[scope].(checkpoint := Some(alterId)))
    }

    function WithEntity(scope: Scope, entity: EntityTable): Database
      requires scope in tables
    {
      Put(scope, tables[scope].(entity := entity))
    }

    function PutRun(id: nat, run: Run): Database {
      this.(runs := runs[id := run])
    }
  }

  /** A database session: `work` is what its transaction sees, `committed` what everyone else does. */
  class Session {
    const connection: Connection
    var committed: Database
    var work: Database
    var nextRunId: nat

    constructor (connection: Connection, db: Database, nextRunId: nat)
      ensures this.connection == connection && committed == db && work == db && this.nextRunId == nextRunId
    {
      this.connection := connection;
      committed, work := db, db;
      this.nextRunId := nextRunId;
    }

    /** The ids handed out so far are below the next one. */
    predicate Valid()
      reads this
    {
      forall id :: id in committed.runs ==> id < nextRunId
    }

    method Begin()
      modifies this`work
      ensures work == committed
    {
      work := committed;
    }

    /** A commit may be lost; then nothing is committed. */
    method Commit(ghost from: nat) returns (r: Result<()>)
      requires connection.Since(from)
      modifies this`committed, connection`sent
      ensures connection.Took(r, from, old(connection.sent) + 1)
      ensures r.Ok? ==> committed == work
      ensures r.Err? ==> r.error == ConnectionLost && committed == old(committed)
    {
      hide Connection.Calm, Connection.Loses;
      var reached :- connection.Send(from);
      committed := work;
      return Ok(());
    }

    method Rollback()
      modifies this`work
      ensures work == committed
    {
      work := committed;
    }
  }

  /** A chunk inserted, the rest is left to insert. */
  lemma {:induction false} IgnoreSlice<K, V>(t: map<K, V>, rows: seq<Row<K, V>>, i: nat, n: nat)
    requires i + n <= |rows|
    ensures InsertOrIgnore(t, rows[i..]) == InsertOrIgnore(InsertOrIgnore(t, rows[i..i + n]), rows[i + n..])
  {
    hide InsertOrIgnore;
    assert rows[i..] == rows[i..i + n] + rows[i + n..];
    InsertOrIgnoreConcat(t, rows[i..i + n], rows[i + n..]);
  }

  lemma {:induction false} NeverLost<K, V>(t: map<K, V>, rows: seq<Row<K, V>>, width: nat)
    ensures InsertOrUpdate(t, rows, width) != Err(ConnectionLost)
  {
  }

  lemma {:induction false} NothingToInsert<K, V>(t: map<K, V>, rows: seq<Row<K, V>>, width: nat)
    ensures InsertOrIgnore(t, rows[|rows|..]) == t && UpsertChunked(t, rows[|rows|..], width) == Ok(t)
  {
  }

  /** The same for an upsert. */
  lemma {:induction false} UpsertSlice<K, V>(t: map<K, V>, rows: seq<Row<K, V>>, i: nat, width: nat)
    requires i < |rows|
    ensures var n := Min(CHUNK_SIZE, |rows| - i);
            UpsertChunked(t, rows[i..], width) ==
            match InsertOrUpdate(t, rows[i..i + n], width)
            case Ok(t') => UpsertChunked(t', rows[i + n..], width)
            case Err(e) => Err(e)
    ensures InsertOrUpdate(t, rows[i..i + Min(CHUNK_SIZE, |rows| - i)], width) != Err(ConnectionLost)
  {
    hide InsertOrUpdate;
    var n := Min(CHUNK_SIZE, |rows| - i);
    NeverLost(t, rows[i..i + n], width);
    ChunkedStep(t, rows[i..], width);
    hide UpsertChunked;
    assert rows[i..][..n] == rows[i..i + n] && rows[i..][n..] == rows[i + n..];
  }

  lemma {:induction false} ChunkedStep<K, V>(t: map<K, V>, rows: seq<Row<K, V>>, width: nat)
    requires rows != []
    ensures var n := Min(CHUNK_SIZE, |rows|);
            UpsertChunked(t, rows, width) ==
            match InsertOrUpdate(t, rows[..n], width)
            case Ok(t') => UpsertChunked(t', rows[n..], width)
            case Err(e) => Err(e)
  {
    hide InsertOrUpdate;
  }

  class CheckpointRepository {
    const session: Session

    constructor (session: Session)
      ensures this.session == session
    {
      this.session := session;
    }

    method GetAlterId(scope: Scope, ghost from: nat) returns (r: Result<int>)
      requires scope in session.work.tables
      requires session.connection.Since(from)
      modifies session.connection`sent
      ensures session.connection.Took(r, from, old(session.connection.sent) + 1)
      ensures r.Ok? ==> r.value == match session.work.tables[scope].checkpoint case Some(a) => a case None => 0
      ensures r.Err? ==> r.error == ConnectionLost
    {
      hide Connection.Calm, Connection.Loses;
      var reached :- session.connection.Send(from);
      match session.work.tables[scope].checkpoint
      case Some(a) => return Ok(a);
      case None => return Ok(0);
    }

    method SaveAlterId(scope: Scope, alterId: int, ghost from: nat) returns (r: Result<()>)
      requires scope in session.work.tables
      requires session.connection.Since(from)
      modifies session`work, session.connection`sent
      ensures session.connection.Took(r, from, old(session.connection.sent) + 1)
      ensures session.work.runs == old(session.work).runs
      ensures r.Ok? ==> session.work == old(session.work).WithCheckpoint(scope, alterId)
      ensures r.Err? ==> r.error == ConnectionLost
    {
      hide Connection.Calm, Connection.Loses;
      var reached :- session.connection.Send(from);
      session.work := session.work.WithCheckpoint(scope, alterId);
      return Ok(());
    }

    /** Serial ids are not given back by a rollback. */
    method StartRun(scope: Scope, ghost from: nat) returns (r: Result<nat>)
      requires session.connection.Since(from)
      modifies session`work, session`nextRunId, session.connection`sent
      ensures session.connection.Took(r, from, old(session.connection.sent) + 1)
      ensures r.Ok? ==> r.value == old(session.nextRunId) && session.nextRunId == r.value + 1
      ensures r.Ok? ==> session.work == old(session.work).PutRun(r.value, Run(scope, Running, 0, Counts(0, 0, 0)))
      ensures r.Err? ==> r.error == ConnectionLost && session.nextRunId == old(session.nextRunId) && session.work == old(session.work)
    {
      hide Connection.Calm, Connection.Loses;
      var reached :- session.connection.Send(from);
      var id := session.nextRunId;
      session.nextRunId := id + 1;
      session.work := session.work.PutRun(id, Run(scope, Running, 0, Counts(0, 0, 0)));
      return Ok(id);
    }

    method FinishRun(id: nat, status: Status, synced: nat, counts: Counts)
      modifies session`work
      ensures session.work ==
              if id in old(session.work).runs
              then old(session.work).PutRun(id, Run(old(session.work).runs[id].scope, status, synced, counts))
              else old(session.work)
    {
      if id in session.work.runs {
        session.work := session.work.PutRun(id, Run(session.work.runs[id].scope, status, synced, counts));
      }
    }
  }

  class RawArchiveRepository {
    const session: Session

    constructor (session: Session)
      ensures this.session == session
    {
      this.session := session;
    }

    method GetLatestHashes(scope: Scope, guids: seq<Guid>, ghost from: nat) returns (r: Result<map<Guid, Hash>>)
      requires scope in session.work.tables
      requires session.connection.Since(from)
      modifies session.connection`sent
      ensures session.connection.Met(r, from, old(session.connection.sent) + 1)
      ensures r.Ok? ==> r.value == LatestHashes(session.work.tables[scope].archive, guids)
      ensures r.Err? ==> r.error == ConnectionLost
    {
      hide Connection.Calm, Connection.Loses;
      if guids == [] {
        return Ok(map[]);
      }
      var reached :- session.connection.Send(from);
      return Ok(LatestHashes(session.work.tables[scope].archive, guids));
    }

    /** Upserts in chunks: unless the connection is lost the outcome, error included, is the
        specification's. */
    method UpsertBatch(scope: Scope, items: seq<Item>, ghost from: nat) returns (r: Result<()>)
      requires scope in session.work.tables
      requires session.connection.Since(from)
      modifies session`work, session.connection`sent
      ensures session.connection.Took(r, from, old(session.connection.sent) + Chunks(|items|))
      ensures session.work.runs == old(session.work).runs
      ensures r.Ok? ==> UpsertArchive(old(session.work).tables[scope].archive, items).Ok?
      ensures r.Ok? ==> session.work == old(session.work).WithArchive(scope, UpsertArchive(old(session.work).tables[scope].archive, items).value)
      ensures r.Err? && r.error != ConnectionLost ==>
                UpsertArchive(old(session.work).tables[scope].archive, items) == Err(r.error)
    {
      hide Connection.Calm, Connection.Loses, InsertOrUpdate, UpsertChunked;
      ghost var before := session.work;
      ghost var archive := before.tables[scope].archive;
      var rows, i := ArchiveRows(items), 0;
      assert rows[0..] == rows;
      assert before.Put(scope, before.tables[scope]) == before;
      while i < |rows|
        invariant 0 <= i <= |rows|
        invariant scope in session.work.tables
        invariant session.connection.Since(from)
        invariant session.connection.sent + Chunks(|rows| - i) == old(session.connection.sent) + Chunks(|rows|)
        invariant session.work == before.WithArchive(scope, session.work.tables[scope].archive)
        invariant UpsertChunked(session.work.tables[scope].archive, rows[i..], ARCHIVE_WIDTH) ==
                  UpsertChunked(archive, rows, ARCHIVE_WIDTH)
      {
        var n := Min(CHUNK_SIZE, |rows| - i);
        UpsertSlice(session.work.tables[scope].archive, rows, i, ARCHIVE_WIDTH);
        var reached :- session.connection.Send(from);
        var archive' :- InsertOrUpdate(session.work.tables[scope].archive, rows[i..i + n], ARCHIVE_WIDTH);
        session.work := session.work.WithArchive(scope, archive');
        i := i + n;
      }
      NothingToInsert(session.work.tables[scope].archive, rows, ARCHIVE_WIDTH);
      return Ok(());
    }
  }

  class EntityVersionRepository {
    const session: Session

    constructor (session: Session)
      ensures this.session == session
    {
      this.session := session;
    }

    method CreateVersions(scope: Scope, items: seq<Item>, ghost from: nat) returns (r: Result<()>)
      requires scope in session.work.tables
      requires session.connection.Since(from)
      modifies session`work, session.connection`sent
      ensures session.connection.Took(r, from, old(session.connection.sent) + Chunks(|items|))
      ensures session.work.runs == old(session.work).runs
      ensures r.Ok? ==> session.work == old(session.work).WithVersions(scope, Pipeline.CreateVersions(old(session.work).tables[scope].versions, items))
      ensures r.Err? ==> r.error == ConnectionLost
    {
      hide Connection.Calm, Connection.Loses, InsertOrIgnore;
      ghost var before := session.work;
      ghost var versions := before.tables[scope].versions;
      var rows, i := VersionRows(items), 0;
      assert rows[0..] == rows;
      assert before.Put(scope, before.tables[scope]) == before;
      while i < |rows|
        invariant 0 <= i <= |rows|
        invariant scope in session.work.tables
        invariant session.connection.Since(from)
        invariant session.connection.sent + Chunks(|rows| - i) == old(session.connection.sent) + Chunks(|rows|)
        invariant session.work == before.WithVersions(scope, session.work.tables[scope].versions)
        invariant InsertOrIgnore(session.work.tables[scope].versions, rows[i..]) == InsertOrIgnore(versions, rows)
      {
        var n := Min(CHUNK_SIZE, |rows| - i);
        assert n * VERSION_WIDTH <= MAX_PARAMETERS;
        IgnoreSlice(session.work.tables[scope].versions, rows, i, n);
        var reached :- session.connection.Send(from);
        session.work := session.work.WithVersions(scope, InsertOrIgnore(session.work.tables[scope].versions, rows[i..i + n]));
        i := i + n;
      }
      NothingToInsert(session.work.tables[scope].versions, rows, VERSION_WIDTH);
      return Ok(());
    }
  }
}
