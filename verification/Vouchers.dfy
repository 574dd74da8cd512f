/** The voucher repository: header upsert, then delete and rebuild of three child tables. */
module Vouchers {
  import opened Wrappers
  import opened Records
  import opened Statements
  import opened Connection
  import opened Dedupe
  import opened ParentChild

  function LedgerOf(r: Record): seq<LedgerEntry> {
    if r.children.VoucherChildren? then r.children.ledger else []
  }

  function InventoryOf(r: Record): seq<InventoryEntry> {
    if r.children.VoucherChildren? then r.children.inventory else []
  }

  function GstOf(r: Record): seq<GstDetail> {
    if r.children.VoucherChildren? then r.children.gst else []
  }

  /** The voucher tables as a transaction sees them. */
  datatype VoucherTables = VoucherTables(
    headers: Headers,
    nextId: nat,
    ledger: seq<Child<LedgerEntry>>,
    inventory: seq<Child<InventoryEntry>>,
    gst: seq<Child<GstDetail>>)
  {
    /** Ids are sound and no child row lacks its header. */
    ghost predicate Valid() {
      IdsOk(headers, nextId) && NoOrphans(ledger, headers) && NoOrphans(inventory, headers) && NoOrphans(gst, headers)
    }

    ghost function ChildrenAt(): nat -> Children {
      (id: nat) => VoucherChildren(ChildrenOf(ledger, id), ChildrenOf(inventory, id), ChildrenOf(gst, id))
    }

    /** The vouchers with their child rows, by number and type. */
    ghost function View(): map<Key, Record> {
      Join(headers, ChildrenAt())
    }
  }

  const EMPTY_VOUCHERS := VoucherTables(map[], 0, [], [], [])

  lemma {:induction false} NoVouchers()
    ensures EMPTY_VOUCHERS.Valid() && EMPTY_VOUCHERS.View() == map[]
  {
  }

  /** The statements of a batch: headers, three deletes, three inserts. */
  function VoucherStatements(records: seq<Record>): nat {
    if records == [] then 0
    else
      var deduped := DedupedOf(Voucher, records);
      Chunks(|deduped|) + 3 + Chunks(ChildCount(deduped, LedgerOf)) + Chunks(ChildCount(deduped, InventoryOf)) +
      Chunks(ChildCount(deduped, GstOf))
  }

  class VoucherRepository {
    const connection: Connection
    var tables: VoucherTables

    constructor (connection: Connection, tables: VoucherTables)
      ensures this.connection == connection && this.tables == tables
    {
      this.connection, this.tables := connection, tables;
    }

    /** Upserts the winners of the batch: afterwards the table shows each winner with exactly its child
        rows, every other voucher with what it had, no orphans, and every known header under its old
        id.  Unless a statement is lost it fails exactly on more than 65,535 distinct vouchers. */
    method UpsertBatch(records: seq<Record>, ghost from: nat) returns (r: Result<nat>)
      requires tables.Valid()
      requires forall rec :: rec in records ==> WellTyped(Voucher, rec)
      requires connection.Since(from)
      modifies this, connection`sent
      ensures connection.Took(r, from, old(connection.sent) + VoucherStatements(records))
      ensures connection.Calm(from, old(connection.sent) + VoucherStatements(records)) ==>
                (r.Ok? <==> |Winners(Voucher, records)| <= 65_535)
      ensures r.Ok? ==> tables.Valid()
      ensures r.Ok? ==> tables.View() == old(tables).View() + Winners(Voucher, records)
      ensures r.Ok? ==> IdsKept(old(tables).headers, tables.headers)
      ensures r.Ok? ==> r.value == |Winners(Voucher, records)|
      ensures r.Err? ==> r.error == ConnectionLost || r.error == TooManyParameters
      ensures r == Err(TooManyParameters) ==> |Winners(Voucher, records)| > MAX_PARAMETERS
      ensures |Winners(Voucher, records)| > MAX_PARAMETERS ==> r.Err?
    {
      hide Winners, IdsOk, NoOrphans, ByKey, DistinctKeys, Join, DedupedOf, ChildCount, Chunks, VoucherTables.Valid, VoucherTables.View;
      if records == [] {
        NoRecords(tables);
        return Ok(0);
      }
      var deduped := DedupeBatch(Voucher, records);
      var written :- WriteBatch(connection, tables, deduped, Winners(Voucher, records), from);
      tables := written;
      return Ok(|deduped|);
    }
  }

  /** The statements of a deduped batch, `w` being its records by key. */
  method WriteBatch(connection: Connection, before: VoucherTables, deduped: seq<Record>, ghost w: map<Key, Record>, ghost from: nat)
      returns (r: Result<VoucherTables>)
    requires before.Valid()
    requires DistinctKeys(deduped) && ByKey(deduped) == w && forall k :: k in w ==> w[k].key == k && WellTyped(Voucher, w[k])
    requires connection.Since(from)
    modifies connection`sent
    ensures connection.Took(r, from, old(connection.sent) + Chunks(|deduped|) + 3 + Chunks(ChildCount(deduped, LedgerOf)) + Chunks(ChildCount(deduped, InventoryOf)) +
                           Chunks(ChildCount(deduped, GstOf)))
    ensures r.Ok? ==> r.value.Valid() && r.value.View() == before.View() + w && |w| <= MAX_PARAMETERS
    ensures r.Ok? ==> IdsKept(before.headers, r.value.headers)
    ensures r.Err? ==> r.error == ConnectionLost || (r.error == TooManyParameters && |w| > MAX_PARAMETERS)
  {
    hide Connection.Calm, Connection.Loses, IdsOk, NoOrphans, HeadersHold, IdsFor, ByKey, DistinctKeys, Join, Injective, Built, Without, ChildCount, Chunks, IdsKept, IdSet,
         VoucherTables.Valid, VoucherTables.View;
    ValidIds(before);
    var upserted :- UpsertHeaderRows(connection, before.headers, before.nextId, deduped, from);
    var (headers, nextId, ids) := upserted;
    AllUpserted(before.headers, deduped, headers, nextId, ids);
    var tables := before.(headers := headers, nextId := nextId);

    var voucherIds := IdSet(ids);
    IdsAreInjective(w, headers, nextId, ids);
    tables :- DeleteChildren(connection, tables, voucherIds, from);

    IdsStay(before.headers, w, headers);
    Rewrite(before, deduped, ids, headers, nextId, w);
    tables :- RebuildChildren(connection, tables, deduped, ids, from);
    return Ok(tables);
  }

  lemma {:induction false} ValidIds(tables: VoucherTables)
    requires tables.Valid()
    ensures IdsOk(tables.headers, tables.nextId)
  {
  }

  /** Step two: the stale child rows of the given vouchers. */
  method DeleteChildren(connection: Connection, tables: VoucherTables, ids: set<nat>, ghost from: nat) returns (r: Result<VoucherTables>)
    requires connection.Since(from)
    modifies connection`sent
    ensures connection.Took(r, from, old(connection.sent) + 3)
    ensures r.Ok? ==> |ids| <= MAX_PARAMETERS
    ensures r.Ok? ==> r.value == tables.(ledger := Without(tables.ledger, ids), inventory := Without(tables.inventory, ids),
                                         gst := Without(tables.gst, ids))
    ensures r.Err? ==> r.error == ConnectionLost || (r.error == TooManyParameters && |ids| > MAX_PARAMETERS)
  {
    hide Connection.Calm, Connection.Loses, Without;
    var ledger :- DeleteFrom(connection, tables.ledger, ids, from);
    var inventory :- DeleteFrom(connection, tables.inventory, ids, from);
    var gst :- DeleteFrom(connection, tables.gst, ids, from);
    return Ok(tables.(ledger := ledger, inventory := inventory, gst := gst));
  }

  /** Step three: the fresh child rows. */
  method InsertAll(connection: Connection, tables: VoucherTables,
                   ledger: seq<Child<LedgerEntry>>, inventory: seq<Child<InventoryEntry>>, gst: seq<Child<GstDetail>>, ghost from: nat)
      returns (r: Result<VoucherTables>)
    requires forall c :: c in ledger ==> HasHeader(tables.headers, c.parent)
    requires forall c :: c in inventory ==> HasHeader(tables.headers, c.parent)
    requires forall c :: c in gst ==> HasHeader(tables.headers, c.parent)
    requires connection.Since(from)
    modifies connection`sent
    ensures connection.Took(r, from, old(connection.sent) + Chunks(|ledger|) + Chunks(|inventory|) + Chunks(|gst|))
    ensures r.Ok? ==> r.value == tables.(ledger := tables.ledger + ledger, inventory := tables.inventory + inventory, gst := tables.gst + gst)
    ensures r.Err? ==> r.error == ConnectionLost
  {
    hide Connection.Calm, Connection.Loses, HasHeader, Chunks;
    var ledgerRows :- InsertChildren(connection, tables.ledger, tables.headers, ledger, from);
    var inventoryRows :- InsertChildren(connection, tables.inventory, tables.headers, inventory, from);
    var gstRows :- InsertChildren(connection, tables.gst, tables.headers, gst, from);
    return Ok(tables.(ledger := ledgerRows, inventory := inventoryRows, gst := gstRows));
  }

  method RebuildChildren(connection: Connection, tables: VoucherTables, deduped: seq<Record>, ids: map<Key, nat>, ghost from: nat)
      returns (r: Result<VoucherTables>)
    requires forall r :: r in deduped ==> r.key in ids
    requires forall c :: c in Built(deduped, ids, LedgerOf) ==> HasHeader(tables.headers, c.parent)
    requires forall c :: c in Built(deduped, ids, InventoryOf) ==> HasHeader(tables.headers, c.parent)
    requires forall c :: c in Built(deduped, ids, GstOf) ==> HasHeader(tables.headers, c.parent)
    requires connection.Since(from)
    modifies connection`sent
    ensures connection.Took(r, from, old(connection.sent) + Chunks(ChildCount(deduped, LedgerOf)) + Chunks(ChildCount(deduped, InventoryOf)) + Chunks(ChildCount(deduped, GstOf)))
    ensures r.Ok? ==> r.value == tables.(ledger := tables.ledger + Built(deduped, ids, LedgerOf),
                                         inventory := tables.inventory + Built(deduped, ids, InventoryOf),
                                         gst := tables.gst + Built(deduped, ids, GstOf))
    ensures r.Err? ==> r.error == ConnectionLost
  {
    hide Connection.Calm, Connection.Loses, Built, ChildCount, Chunks, HasHeader;
    var ledger, inventory, gst := BuildRows(deduped, ids);
    BuiltLength(deduped, ids, LedgerOf);
    BuiltLength(deduped, ids, InventoryOf);
    BuiltLength(deduped, ids, GstOf);
    r := InsertAll(connection, tables, ledger, inventory, gst, from);
  }

  /** The fresh rows of the three child tables. */
  method BuildRows(deduped: seq<Record>, ids: map<Key, nat>)
      returns (ledger: seq<Child<LedgerEntry>>, inventory: seq<Child<InventoryEntry>>, gst: seq<Child<GstDetail>>)
    requires forall r :: r in deduped ==> r.key in ids
    ensures ledger == Built(deduped, ids, LedgerOf)
    ensures inventory == Built(deduped, ids, InventoryOf)
    ensures gst == Built(deduped, ids, GstOf)
  {
    ledger, inventory, gst := [], [], [];
    assert deduped[..0] == [];
    for i := 0 to |deduped|
      invariant forall r :: r in deduped[..i] ==> r.key in ids
      invariant ledger == Built(deduped[..i], ids, LedgerOf)
      invariant inventory == Built(deduped[..i], ids, InventoryOf)
      invariant gst == Built(deduped[..i], ids, GstOf)
    {
      BuiltStep(deduped, ids, LedgerOf, i);
      BuiltStep(deduped, ids, InventoryOf, i);
      BuiltStep(deduped, ids, GstOf, i);
      var rec := deduped[i];
      ledger := AppendChildren(ledger, ids[rec.key], LedgerOf(rec));
      inventory := AppendChildren(inventory, ids[rec.key], InventoryOf(rec));
      gst := AppendChildren(gst, ids[rec.key], GstOf(rec));
    }
    assert deduped[..|deduped|] == deduped;
  }

  lemma {:induction false} NoRecords(tables: VoucherTables)
    ensures Winners(Voucher, []) == map[] && tables.View() + Winners(Voucher, []) == tables.View()
  {
    assert tables.View() + map[] == tables.View();
  }

  /** The tables after the rewrite. */
  ghost function After(before: VoucherTables, deduped: seq<Record>, ids: map<Key, nat>, headers: Headers, nextId: nat): VoucherTables
    requires forall r :: r in deduped ==> r.key in ids
  {
    VoucherTables(headers, nextId,
      Without(before.ledger, IdSet(ids)) + Built(deduped, ids, LedgerOf),
      Without(before.inventory, IdSet(ids)) + Built(deduped, ids, InventoryOf),
      Without(before.gst, IdSet(ids)) + Built(deduped, ids, GstOf))
  }

  lemma {:induction false} Rewrite(before: VoucherTables, deduped: seq<Record>, ids: map<Key, nat>, headers: Headers, nextId: nat,
                                   w: map<Key, Record>)
    requires before.Valid() && DistinctKeys(deduped) && ByKey(deduped) == w && Injective(ids)
    requires HeadersHold(before.headers, w, headers) && IdsOk(headers, nextId) && IdsFor(w, headers, ids)
    requires forall k :: k in w ==> w[k].key == k && WellTyped(Voucher, w[k])
    ensures forall r :: r in deduped ==> r.key in ids
    ensures After(before, deduped, ids, headers, nextId).Valid()
    ensures After(before, deduped, ids, headers, nextId).View() == before.View() + w
    ensures forall c :: c in Built(deduped, ids, LedgerOf) ==> HasHeader(headers, c.parent)
    ensures forall c :: c in Built(deduped, ids, InventoryOf) ==> HasHeader(headers, c.parent)
    ensures forall c :: c in Built(deduped, ids, GstOf) ==> HasHeader(headers, c.parent)
  {
    assert forall k :: k in ids <==> k in ByKey(deduped);
    hide HeadersHold, IdsOk, IdsFor, NoOrphans, ByKey, DistinctKeys, Built, Without, Injective, Join, HasHeader;
    RewriteTable(before.ledger, deduped, ids, LedgerOf);
    RewriteTable(before.inventory, deduped, ids, InventoryOf);
    RewriteTable(before.gst, deduped, ids, GstOf);
    RewriteKeepsParents(before.ledger, before.headers, deduped, ids, headers, LedgerOf);
    RewriteKeepsParents(before.inventory, before.headers, deduped, ids, headers, InventoryOf);
    RewriteKeepsParents(before.gst, before.headers, deduped, ids, headers, GstOf);
    var after := After(before, deduped, ids, headers, nextId);
    JoinRewritten(before.headers, w, headers, nextId, ids, before.ChildrenAt(), after.ChildrenAt());
  }
}
