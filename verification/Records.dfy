/** The entities: parsed records, the XML elements they come from, and the stored rows. */
module Records {

  type Guid = string  // may be blank
  type Hash = string

  /** The natural key of a row: the name of a master, the number of a purchase order,
      the number and type of a voucher.  `vtype` is blank for all but vouchers. */
  datatype Key = Key(name: string, vtype: string)

  /** Ten-thousandths, as the columns of type NUMERIC(18, 4) keep them. */
  type Amount = int

  datatype LedgerEntry = LedgerEntry(ledgerName: string, isDeemedPositive: bool, amount: Amount)

  datatype InventoryEntry = InventoryEntry(
    stockItemName: string, isDeemedPositive: bool,
    quantity: Amount, rate: Amount, amount: Amount, godownName: string)

  datatype GstDetail = GstDetail(
    hsnCode: string, taxableValue: Amount,
    igstAmount: Amount, cgstAmount: Amount, sgstAmount: Amount, gstType: string)

  datatype OrderItem = OrderItem(
    stockItemName: string, quantity: Amount, billedQty: Amount, rate: Amount, amount: Amount, godownName: string)

  datatype Children =
    | NoChildren
    | VoucherChildren(ledger: seq<LedgerEntry>, inventory: seq<InventoryEntry>, gst: seq<GstDetail>)
    | OrderChildren(items: seq<OrderItem>)

  /** A parsed record: what the normalised tables hold.  `fields` are the remaining columns. */
  datatype Record = Record(guid: Guid, key: Key, alterId: int, fields: map<string, string>, children: Children)

  /** An exported XML element: the record the parser reads from it and the tags it does not know. */
  datatype Element = Element(record: Record, unknown: map<string, string>)

  /** One entry of a parsed response: an element with the digest of its raw bytes.
      The raw archive keeps the latest item of each guid. */
  datatype Item = Item(element: Element, hash: Hash) {
    function Guid(): Guid { element.record.guid }
    function Key(): Key { element.record.key }
    function AlterId(): int { element.record.alterId }
  }

  datatype Kind = Master | Voucher | PurchaseOrder

  /** The children a record of each kind carries. */
  predicate WellTyped(kind: Kind, r: Record) {
    match kind
    case Master => r.children.NoChildren?
    case Voucher => r.children.VoucherChildren?
    case PurchaseOrder => r.children.OrderChildren?
  }
}
