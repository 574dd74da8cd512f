/** One sync of one entity type of one company, as a function on its stores.
    The methods of SyncService are proved against these functions. */
module Pipeline {
  import opened Wrappers
  import opened Records
  import opened Statements
  import opened Dedupe

  const ARCHIVE_WIDTH: nat := 12
  const VERSION_WIDTH: nat := 11

  type Archive = map<Guid, Item>
  type Versions = map<(Guid, Hash), Element>

  /** The four stores that a sync keeps in step.  `entity` is the normalised table,
      child rows included, by natural key. */
  datatype Stores = Stores(
    entity: map<Key, Record>,
    archive: Archive,
    versions: Versions,
    checkpoint: Option<int>)

  datatype Counts = Counts(inserted: nat, updated: nat, skipped: nat) {
    function Total(): nat { inserted + updated }
  }

  // ----- parts of the pipeline -----

  function SavedAlterId(st: Stores): int {
    match st.checkpoint case Some(a) => a case None => 0
  }

  /** The items above the checkpoint. */
  function Newer(items: seq<Item>, alterId: int): (newer: seq<Item>)
    ensures forall x :: x in newer <==> x in items && x.AlterId() > alterId
  {
    if items == [] then []
    else (if items[0].AlterId() > alterId then [items[0]] else []) + Newer(items[1..], alterId)
  }

  /** A full sync and a first sync look at everything. */
  function Passing(items: seq<Item>, alterId: int, full: bool): seq<Item> {
    if !full && alterId > 0 then Newer(items, alterId) else items
  }

  function GuidsOf(items: seq<Item>): (guids: seq<Guid>)
    ensures |guids| == |items|
    ensures forall i :: 0 <= i < |items| ==> guids[i] == items[i].Guid()
  {
    seq(|items|, i requires 0 <= i < |items| => items[i].Guid())
  }

  function RecordsOf(items: seq<Item>): (records: seq<Record>)
    ensures |records| == |items|
    ensures forall i :: 0 <= i < |items| ==> records[i] == items[i].element.record
  {
    seq(|items|, i requires 0 <= i < |items| => items[i].element.record)
  }

  /** The archived hashes of the given guids; a guid without a row does not appear. */
  function LatestHashes(archive: Archive, guids: seq<Guid>): (hashes: map<Guid, Hash>)
    ensures forall g :: g in hashes <==> g in archive && g in guids
    ensures forall g :: g in hashes ==> hashes[g] == archive[g].hash
  {
    if guids == [] then map[]
    else
      var rest := LatestHashes(archive, guids[1..]);
      if guids[0] in archive then rest[guids[0] := archive[guids[0]].hash] else rest
  }

  predicate IsUnchanged(existing: map<Guid, Hash>, x: Item) {
    x.Guid() in existing && existing[x.Guid()] == x.hash
  }

  /** The items whose hash is not the archived one. */
  function Changed(items: seq<Item>, existing: map<Guid, Hash>): (changed: seq<Item>)
    ensures forall x :: x in changed <==> x in items && !IsUnchanged(existing, x)
  {
    if items == [] then []
    else (if IsUnchanged(existing, items[0]) then [] else [items[0]]) + Changed(items[1..], existing)
  }

  /** The items whose hash is the archived one. */
  function Unchanged(items: seq<Item>, existing: map<Guid, Hash>): (same: seq<Item>)
    ensures forall x :: x in same <==> x in items && IsUnchanged(existing, x)
  {
    if items == [] then []
    else (if IsUnchanged(existing, items[0]) then [items[0]] else []) + Unchanged(items[1..], existing)
  }

  /** How many of the items have an archived hash, whatever it is. */
  function CountKnown(items: seq<Item>, existing: map<Guid, Hash>): (n: nat)
    ensures n <= |items|
  {
    if items == [] then 0
    else (if items[0].Guid() in existing then 1 else 0) + CountKnown(items[1..], existing)
  }

  /** The batch upsert of a repository: it fails only when the one unchunked DELETE of old child
      rows binds more parameters than a statement may carry. */
  function UpsertEntities(kind: Kind, t: map<Key, Record>, records: seq<Record>): Result<map<Key, Record>> {
    var w := Winners(kind, records);
    if !kind.Master? && |w| > MAX_PARAMETERS then Err(TooManyParameters) else Ok(t + w)
  }

  function ArchiveRows(items: seq<Item>): (rows: seq<Row<Guid, Item>>)
    ensures |rows| == |items|
    ensures forall i :: 0 <= i < |items| ==> rows[i] == Row(items[i].Guid(), items[i])
  {
    seq(|items|, i requires 0 <= i < |items| => Row(items[i].Guid(), items[i]))
  }

  function VersionRows(items: seq<Item>): (rows: seq<Row<(Guid, Hash), Element>>)
    ensures |rows| == |items|
    ensures forall i :: 0 <= i < |items| ==> rows[i] == Row((items[i].Guid(), items[i].hash), items[i].element)
  {
    seq(|items|, i requires 0 <= i < |items| => Row((items[i].Guid(), items[i].hash), items[i].element))
  }

  function UpsertArchive(t: Archive, items: seq<Item>): Result<Archive> {
    UpsertChunked(t, ArchiveRows(items), ARCHIVE_WIDTH)
  }

  function CreateVersions(t: Versions, items: seq<Item>): Versions {
    InsertOrIgnore(t, VersionRows(items))
  }

  /** max(..., default=0) over the alter ids of a response. */
  function MaxAlterId(items: seq<Item>): (m: int)
    ensures items == [] ==> m == 0
    ensures items != [] ==> exists x :: x in items && x.AlterId() == m
    ensures forall x :: x in items ==> x.AlterId() <= m
  {
    if |items| == 0 then 0
    else if |items| == 1 then items[0].AlterId()
    else
      var m := MaxAlterId(items[1..]);
      assert forall x :: x in items <==> x == items[0] || x in items[1..];
      if items[0].AlterId() > m then items[0].AlterId() else m
  }

  // ----- the two pipelines and the sync around them -----

  /** Hash-based dedupe, entity upsert, raw archive, versions. */
  function RunFidelity(kind: Kind, st: Stores, alterId: int, full: bool, items: seq<Item>): Result<(Stores, Counts)> {
    var passing := Passing(items, alterId, full);
    var existing := LatestHashes(st.archive, GuidsOf(passing));
    var changed, same := Changed(passing, existing), Unchanged(passing, existing);
    var entity :- UpsertEntities(kind, st.entity, RecordsOf(changed));
    var archive :- UpsertArchive(st.archive, changed);
    var versions := CreateVersions(st.versions, changed);
    var archive' :- UpsertArchive(archive, same);
    var updated := CountKnown(changed, existing);
    Ok((Stores(entity, archive', versions, st.checkpoint),
        Counts(|changed| - updated, updated, |same|)))
  }

  /** The checkpoint after a fidelity sync that counted `total` records. */
  function NextCheckpoint(st: Stores, alterId: int, full: bool, total: nat, items: seq<Item>): Option<int> {
    var maxId := MaxAlterId(items);
    if (total > 0 || full) && (maxId > alterId || full) then Some(maxId) else st.checkpoint
  }

  /** A sync whose checkpoint was read as `alterId`. */
  function SyncFrom(kind: Kind, st: Stores, alterId: int, full: bool, items: seq<Item>): Result<(Stores, Counts)> {
    var (st', counts) :- RunFidelity(kind, st, alterId, full, items);
    Ok((st'.(checkpoint := NextCheckpoint(st, alterId, full, counts.Total(), items)), counts))
  }

  function StartAlterId(st: Stores, full: bool): int {
    if full then 0 else SavedAlterId(st)
  }

  /** A whole sync that nothing interrupts. */
  function Sync(kind: Kind, st: Stores, full: bool, items: seq<Item>): Result<(Stores, Counts)> {
    SyncFrom(kind, st, StartAlterId(st, full), full, items)
  }

  /** The upsert-everything path.  Its checkpoint looks only at the records that pass the filter,
      and an empty response never moves it. */
  function LegacySync(kind: Kind, st: Stores, full: bool, items: seq<Item>): Result<(Stores, nat)> {
    var alterId := StartAlterId(st, full);
    var passing := Passing(items, alterId, full);
    if passing == [] then Ok((st, 0))
    else
      var records := RecordsOf(passing);
      var entity :- UpsertEntities(kind, st.entity, records);
      var maxId := MaxAlterId(passing);
      var checkpoint := if maxId > alterId || full then Some(maxId) else st.checkpoint;
      Ok((st.(entity := entity, checkpoint := checkpoint), WinnerCount(kind, records)))
  }
}
