/** The purchase-order repository: header upsert, then delete and rebuild of the item table. */
module PurchaseOrders {
  import opened Wrappers
  import opened Records
  import opened Statements
  import opened Connection
  import opened Dedupe
  import opened ParentChild

  function ItemsOf(r: Record): seq<OrderItem> {
    if r.children.OrderChildren? then r.children.items else []
  }

  /** The purchase-order tables as a transaction sees them. */
  datatype OrderTables = OrderTables(headers: Headers, nextId: nat, items: seq<Child<OrderItem>>) {
    ghost predicate Valid() {
      IdsOk(headers, nextId) && NoOrphans(items, headers)
    }

    ghost function ChildrenAt(): nat -> Children {
      (id: nat) => OrderChildren(ChildrenOf(items, id))
    }

    /** The orders with their items, by number. */
    ghost function View(): map<Key, Record> {
      Join(headers, ChildrenAt())
    }
  }

  const EMPTY_ORDERS := OrderTables(map[], 0, [])

  lemma {:induction false} NoOrders()
    ensures EMPTY_ORDERS.Valid() && EMPTY_ORDERS.View() == map[]
  {
  }

  /** The statements of a batch: headers, a delete, an insert. */
  function OrderStatements(records: seq<Record>): nat {
    if records == [] then 0
    else
      var deduped := DedupedOf(PurchaseOrder, records);
      Chunks(|deduped|) + 1 + Chunks(ChildCount(deduped, ItemsOf))
  }

  class PurchaseOrderRepository {
    const connection: Connection
    var tables: OrderTables

    constructor (connection: Connection, tables: OrderTables)
      ensures this.connection == connection && this.tables == tables
    {
      this.connection, this.tables := connection, tables;
    }

    /** Upserts the winners of the batch, each with exactly its items; the rest stays as it was. */
    method UpsertBatch(records: seq<Record>, ghost from: nat) returns (r: Result<nat>)
      requires tables.Valid()
      requires forall rec :: rec in records ==> WellTyped(PurchaseOrder, rec)
      requires connection.Since(from)
      modifies this, connection`sent
      ensures connection.Took(r, from, old(connection.sent) + OrderStatements(records))
      ensures connection.Calm(from, old(connection.sent) + OrderStatements(records)) ==>
                (r.Ok? <==> |Winners(PurchaseOrder, records)| <= 65_535)
      ensures r.Ok? ==> tables.Valid()
      ensures r.Ok? ==> tables.View() == old(tables).View() + Winners(PurchaseOrder, records)
      ensures r.Ok? ==> IdsKept(old(tables).headers, tables.headers)
      ensures r.Ok? ==> r.value == |Winners(PurchaseOrder, records)|
      ensures r.Err? ==> r.error == ConnectionLost || r.error == TooManyParameters
      ensures r == Err(TooManyParameters) ==> |Winners(PurchaseOrder, records)| > MAX_PARAMETERS
      ensures |Winners(PurchaseOrder, records)| > MAX_PARAMETERS ==> r.Err?
    {
      hide Winners, IdsOk, NoOrphans, ByKey, DistinctKeys, Join, DedupedOf, ChildCount, Chunks, OrderTables.Valid, OrderTables.View;
      if records == [] {
        NoRecords(tables);
        return Ok(0);
      }
      var deduped := DedupeBatch(PurchaseOrder, records);
      var written :- WriteBatch(connection, tables, deduped, Winners(PurchaseOrder, records), from);
      tables := written;
      return Ok(|deduped|);
    }
  }

  /** The statements of a deduped batch, `w` being its records by key. */
  method WriteBatch(connection: Connection, before: OrderTables, deduped: seq<Record>, ghost w: map<Key, Record>, ghost from: nat)
      returns (r: Result<OrderTables>)
    requires before.Valid()
    requires DistinctKeys(deduped) && ByKey(deduped) == w && forall k :: k in w ==> w[k].key == k && WellTyped(PurchaseOrder, w[k])
    requires connection.Since(from)
    modifies connection`sent
    ensures connection.Took(r, from, old(connection.sent) + Chunks(|deduped|) + 1 + Chunks(ChildCount(deduped, ItemsOf)))
    ensures r.Ok? ==> r.value.Valid() && r.value.View() == before.View() + w && |w| <= MAX_PARAMETERS
    ensures r.Ok? ==> IdsKept(before.headers, r.value.headers)
    ensures r.Err? ==> r.error == ConnectionLost || (r.error == TooManyParameters && |w| > MAX_PARAMETERS)
  {
    hide Connection.Calm, Connection.Loses, IdsOk, NoOrphans, HeadersHold, IdsFor, ByKey, DistinctKeys, Join, Injective, Built, Without, ChildCount, Chunks, IdsKept,
         IdSet, OrderTables.Valid, OrderTables.View;
    ValidIds(before);
    var upserted :- UpsertHeaderRows(connection, before.headers, before.nextId, deduped, from);
    var (headers, nextId, ids) := upserted;
    AllUpserted(before.headers, deduped, headers, nextId, ids);
    var tables := before.(headers := headers, nextId := nextId);

    var orderIds := IdSet(ids);
    IdsAreInjective(w, headers, nextId, ids);
    var items :- DeleteFrom(connection, tables.items, orderIds, from);
    tables := tables.(items := items);

    IdsStay(before.headers, w, headers);
    Rewrite(before, deduped, ids, headers, nextId, w);
    tables :- RebuildItems(connection, tables, deduped, ids, from);
    return Ok(tables);
  }

  method RebuildItems(connection: Connection, tables: OrderTables, deduped: seq<Record>, ids: map<Key, nat>, ghost from: nat)
      returns (r: Result<OrderTables>)
    requires forall r :: r in deduped ==> r.key in ids
    requires forall c :: c in Built(deduped, ids, ItemsOf) ==> HasHeader(tables.headers, c.parent)
    requires connection.Since(from)
    modifies connection`sent
    ensures connection.Took(r, from, old(connection.sent) + Chunks(ChildCount(deduped, ItemsOf)))
    ensures r.Ok? ==> r.value == tables.(items := tables.items + Built(deduped, ids, ItemsOf))
    ensures r.Err? ==> r.error == ConnectionLost
  {
    hide Connection.Calm, Connection.Loses, Built, ChildCount, Chunks, HasHeader;
    var rows := BuildRows(deduped, ids);
    BuiltLength(deduped, ids, ItemsOf);
    var items :- InsertChildren(connection, tables.items, tables.headers, rows, from);
    return Ok(tables.(items := items));
  }

  /** The tables after the rewrite. */
  ghost function After(before: OrderTables, deduped: seq<Record>, ids: map<Key, nat>, headers: Headers, nextId: nat): OrderTables
    requires forall r :: r in deduped ==> r.key in ids
  {
    OrderTables(headers, nextId, Without(before.items, IdSet(ids)) + Built(deduped, ids, ItemsOf))
  }

  lemma {:induction false} ValidIds(tables: OrderTables)
    requires tables.Valid()
    ensures IdsOk(tables.headers, tables.nextId)
  {
  }

  method BuildRows(deduped: seq<Record>, ids: map<Key, nat>) returns (rows: seq<Child<OrderItem>>)
    requires forall r :: r in deduped ==> r.key in ids
    ensures rows == Built(deduped, ids, ItemsOf)
  {
    rows := [];
    assert deduped[..0] == [];
    for i := 0 to |deduped|
      invariant forall r :: r in deduped[..i] ==> r.key in ids
      invariant rows == Built(deduped[..i], ids, ItemsOf)
    {
      BuiltStep(deduped, ids, ItemsOf, i);
      rows := AppendChildren(rows, ids[deduped[i].key], ItemsOf(deduped[i]));
    }
    assert deduped[..|deduped|] == deduped;
  }

  lemma {:induction false} NoRecords(tables: OrderTables)
    ensures Winners(PurchaseOrder, []) == map[] && tables.View() + Winners(PurchaseOrder, []) == tables.View()
  {
    assert tables.View() + map[] == tables.View();
  }

  /** The items of the tables, by header. */
  lemma {:induction false} ChildrenRewritten(before: OrderTables, after: OrderTables, ids: map<Key, nat>, w: map<Key, Record>)
    requires Rewritten(before.items, after.items, ids, w, ItemsOf)
    requires forall k :: k in w ==> WellTyped(PurchaseOrder, w[k])
    ensures forall k :: k in w && k in ids ==> after.ChildrenAt()(ids[k]) == w[k].children
    ensures forall id :: id !in IdSet(ids) ==> after.ChildrenAt()(id) == before.ChildrenAt()(id)
  {
    hide ChildrenOf, IdSet;
  }

  lemma {:induction false} Rewrite(before: OrderTables, deduped: seq<Record>, ids: map<Key, nat>, headers: Headers, nextId: nat,
                                   w: map<Key, Record>)
    requires before.Valid() && DistinctKeys(deduped) && ByKey(deduped) == w && Injective(ids)
    requires HeadersHold(before.headers, w, headers) && IdsOk(headers, nextId) && IdsFor(w, headers, ids)
    requires forall k :: k in w ==> w[k].key == k && WellTyped(PurchaseOrder, w[k])
    ensures forall r :: r in deduped ==> r.key in ids
    ensures After(before, deduped, ids, headers, nextId).Valid()
    ensures After(before, deduped, ids, headers, nextId).View() == before.View() + w
    ensures forall c :: c in Built(deduped, ids, ItemsOf) ==> HasHeader(headers, c.parent)
  {
    assert forall k :: k in ids <==> k in ByKey(deduped);
    hide HeadersHold, IdsOk, IdsFor, NoOrphans, ByKey, DistinctKeys, Built, Without, Injective, Join, HasHeader, IdSet;
    RewriteTable(before.items, deduped, ids, ItemsOf);
    RewriteKeepsParents(before.items, before.headers, deduped, ids, headers, ItemsOf);
    var after := After(before, deduped, ids, headers, nextId);
    ChildrenRewritten(before, after, ids, w);
    hide Rewritten, OrderTables.ChildrenAt, WellTyped;
    JoinRewritten(before.headers, w, headers, nextId, ids, before.ChildrenAt(), after.ChildrenAt());
  }
}
