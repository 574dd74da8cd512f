/** What one run of the pipeline does to the stores, for any response. */
module PipelineFacts {
  import opened Wrappers
  import opened Records
  import opened Statements
  import opened Dedupe
  import opened Pipeline

  // ----- filters -----

  ghost predicate DistinctGuids(items: seq<Item>) {
    forall i, j :: 0 <= i < j < |items| ==> items[i].Guid() != items[j].Guid()
  }

  /** The last item of each guid. */
  ghost function ByGuid(items: seq<Item>): (m: map<Guid, Item>)
    ensures forall g :: g in m ==> m[g] in items && m[g].Guid() == g
    ensures forall x :: x in items ==> x.Guid() in m
  {
    if items == [] then map[] else map[items[0].Guid() := items[0]] + ByGuid(items[1..])
  }

  /** With distinct guids an item is known by its guid. */
  lemma {:induction false} ByGuidFinds(items: seq<Item>)
    requires DistinctGuids(items)
    ensures forall x :: x in items ==> ByGuid(items)[x.Guid()] == x
  {
  }

  lemma {:induction false} DistinctGuidsTail(items: seq<Item>)
    requires items != [] && DistinctGuids(items)
    ensures DistinctGuids(items[1..])
    ensures items[0].Guid() !in ByGuid(items[1..])
    ensures forall y :: y in items[1..] ==> y.Guid() != items[0].Guid()
  {
  }

  lemma {:induction false} DistinctGuidsCons(x: Item, rest: seq<Item>)
    requires DistinctGuids(rest) && forall y :: y in rest ==> y.Guid() != x.Guid()
    ensures DistinctGuids([x] + rest)
  {
  }

  lemma {:induction false} DistinctNewer(items: seq<Item>, alterId: int)
    requires DistinctGuids(items)
    ensures DistinctGuids(Newer(items, alterId))
  {
    if items != [] {
      DistinctGuidsTail(items);
      DistinctNewer(items[1..], alterId);
      DistinctGuidsCons(items[0], Newer(items[1..], alterId));
      assert [] + Newer(items[1..], alterId) == Newer(items[1..], alterId);
    }
  }

  lemma {:induction false} DistinctPartition(items: seq<Item>, existing: map<Guid, Hash>)
    requires DistinctGuids(items)
    ensures DistinctGuids(Changed(items, existing)) && DistinctGuids(Unchanged(items, existing))
  {
    if items != [] {
      DistinctGuidsTail(items);
      var changed, same := Changed(items[1..], existing), Unchanged(items[1..], existing);
      DistinctPartition(items[1..], existing);
      assert DistinctGuids([items[0]] + changed) && DistinctGuids([items[0]] + same) by {
        hide Changed, Unchanged;
        DistinctGuidsCons(items[0], changed);
        DistinctGuidsCons(items[0], same);
      }
      hide DistinctGuids, IsUnchanged;
      assert [] + changed == changed && [] + same == same;
    }
  }

  lemma {:induction false} DistinctPassing(items: seq<Item>, alterId: int, full: bool)
    requires DistinctGuids(items)
    ensures DistinctGuids(Passing(items, alterId, full))
  {
    DistinctNewer(items, alterId);
  }

  /** The look-up of stored hashes sees, for the given items, what the archive holds. */
  lemma {:induction false} LatestHashesMeans(archive: Archive, items: seq<Item>)
    ensures var existing := LatestHashes(archive, GuidsOf(items));
            forall x :: x in items ==>
              (x.Guid() in existing <==> x.Guid() in archive) &&
              (IsUnchanged(existing, x) <==> x.Guid() in archive && archive[x.Guid()].hash == x.hash)
  {
    forall x | x in items ensures x.Guid() in GuidsOf(items) {
      var i :| 0 <= i < |items| && items[i] == x;
      assert GuidsOf(items)[i] == x.Guid();
    }
  }

  // ----- the raw archive -----

  lemma {:induction false} UpsertEachIsLast(t: Archive, items: seq<Item>)
    ensures UpsertEach(t, ArchiveRows(items)) == t + ByGuid(items)
    decreases |items|
  {
    if items == [] {
      assert t + ByGuid(items) == t;
    } else {
      var x := items[0];
      UpdateFirst(t, x.Guid(), x, ByGuid(items[1..]));
      UpsertEachIsLast(t[x.Guid() := x], items[1..]);
      assert ArchiveRows(items)[1..] == ArchiveRows(items[1..]);
    }
  }

  /** An archive upsert fails exactly when one of its chunks repeats a guid; when it succeeds each
      guid holds its last item. */
  lemma {:induction false} ArchiveUpsertMeans(t: Archive, items: seq<Item>)
    ensures UpsertArchive(t, items) ==
            if ChunksDistinct(ArchiveRows(items)) then Ok(t + ByGuid(items)) else Err(CardinalityViolation)
  {
    ChunkedRefinesEach(t, ArchiveRows(items), ARCHIVE_WIDTH);
    UpsertEachIsLast(t, items);
  }

  lemma {:induction false} DistinctArchiveRows(items: seq<Item>)
    requires DistinctGuids(items)
    ensures ChunksDistinct(ArchiveRows(items))
  {
    assert Distinct(KeysOf(ArchiveRows(items)));
    DistinctChunks(ArchiveRows(items));
  }

  /** Archiving the changed items and then the unchanged ones archives them all. */
  lemma {:induction false} ByGuidInTwoParts(items: seq<Item>, existing: map<Guid, Hash>)
    requires DistinctGuids(items)
    ensures ByGuid(Changed(items, existing)) + ByGuid(Unchanged(items, existing)) == ByGuid(items)
  {
    ByGuidFinds(items);
    Parts(items, Changed(items, existing), Unchanged(items, existing), x => IsUnchanged(existing, x),
          ByGuid(items), ByGuid(Changed(items, existing)), ByGuid(Unchanged(items, existing)));
  }

  lemma {:induction false} Parts(items: seq<Item>, changed: seq<Item>, same: seq<Item>, p: Item -> bool,
              m: map<Guid, Item>, mc: map<Guid, Item>, ms: map<Guid, Item>)
    requires forall g :: g in m ==> m[g] in items && m[g].Guid() == g
    requires forall g :: g in mc ==> mc[g] in changed && mc[g].Guid() == g
    requires forall g :: g in ms ==> ms[g] in same && ms[g].Guid() == g
    requires forall x :: x in items ==> x.Guid() in m && m[x.Guid()] == x
    requires forall x :: x in changed ==> x.Guid() in mc
    requires forall x :: x in same ==> x.Guid() in ms
    requires forall x :: x in changed <==> x in items && !p(x)
    requires forall x :: x in same <==> x in items && p(x)
    ensures mc + ms == m
  {
  }

  lemma {:induction false} RecordsMeans(items: seq<Item>)
    ensures forall r :: r in RecordsOf(items) <==> exists x :: x in items && x.element.record == r
  {
    forall r | r in RecordsOf(items) ensures exists x :: x in items && x.element.record == r {
      var i :| 0 <= i < |items| && RecordsOf(items)[i] == r;
      assert items[i] in items;
    }
    forall r | exists x :: x in items && x.element.record == r ensures r in RecordsOf(items) {
      var x :| x in items && x.element.record == r;
      var i :| 0 <= i < |items| && items[i] == x;
      assert RecordsOf(items)[i] == r;
    }
  }

  // ----- the whole pipeline on a response with distinct guids -----

  /** The items of a response that a run treats as new or changed. */
  ghost function ChangedItems(st: Stores, alterId: int, full: bool, items: seq<Item>): seq<Item> {
    var passing := Passing(items, alterId, full);
    Changed(passing, LatestHashes(st.archive, GuidsOf(passing)))
  }

  /** They are the items that pass the filter and whose hash the archive does not hold. */
  lemma {:induction false} ChangedItemsMeans(st: Stores, alterId: int, full: bool, items: seq<Item>)
    ensures forall x :: x in ChangedItems(st, alterId, full, items) <==>
              x in items && (full || alterId <= 0 || x.AlterId() > alterId) &&
              !(x.Guid() in st.archive && st.archive[x.Guid()].hash == x.hash)
  {
    LatestHashesMeans(st.archive, Passing(items, alterId, full));
  }

  ghost function UnchangedItems(st: Stores, alterId: int, full: bool, items: seq<Item>): seq<Item> {
    var passing := Passing(items, alterId, full);
    Unchanged(passing, LatestHashes(st.archive, GuidsOf(passing)))
  }

  /** More parents than the one DELETE of their child rows can name. */
  ghost predicate TooMany(kind: Kind, changed: seq<Item>) {
    !kind.Master? && |Winners(kind, RecordsOf(changed))| > MAX_PARAMETERS
  }

  /** A run on any response: it fails exactly when one 500-row chunk of the changed items, or of the
      unchanged ones, repeats a guid, or when more than 65,535 parents have their child rows deleted
      at once; otherwise each guid is archived with its last unchanged item, else its last changed one. */
  lemma {:induction false} FidelityOutcome(kind: Kind, st: Stores, alterId: int, full: bool, items: seq<Item>)
    ensures
      var changed, same := ChangedItems(st, alterId, full, items), UnchangedItems(st, alterId, full, items);
      match RunFidelity(kind, st, alterId, full, items)
      case Err(e) =>
        if TooMany(kind, changed) then e == TooManyParameters
        else e == CardinalityViolation && !(ChunksDistinct(ArchiveRows(changed)) && ChunksDistinct(ArchiveRows(same)))
      case Ok((st', c)) =>
        && !TooMany(kind, changed)
        && ChunksDistinct(ArchiveRows(changed)) && ChunksDistinct(ArchiveRows(same))
        && st' == Stores(st.entity + Winners(kind, RecordsOf(changed)), st.archive + ByGuid(changed) + ByGuid(same),
                         CreateVersions(st.versions, changed), st.checkpoint)
        && (var known := CountKnown(changed, LatestHashes(st.archive, GuidsOf(Passing(items, alterId, full))));
            c == Counts(|changed| - known, known, |same|))
  {
    hide Passing, LatestHashes, Changed, Unchanged, CountKnown, Winners, RecordsOf, CreateVersions, UpsertArchive, ByGuid, ChunksDistinct;
    ArchiveUpsertMeans(st.archive, ChangedItems(st, alterId, full, items));
    ArchiveUpsertMeans(st.archive + ByGuid(ChangedItems(st, alterId, full, items)), UnchangedItems(st, alterId, full, items));
  }

  /** With distinct guids a run fails only on the parameter ceiling, and otherwise archives every
      passing item and upserts and versions the changed ones. */
  lemma {:induction false} FidelityEffect(kind: Kind, st: Stores, alterId: int, full: bool, items: seq<Item>)
    requires DistinctGuids(items)
    ensures
      var changed := ChangedItems(st, alterId, full, items);
      match RunFidelity(kind, st, alterId, full, items)
      case Err(_) => TooMany(kind, changed)
      case Ok((st', c)) =>
        && !TooMany(kind, changed)
        && st' == Stores(st.entity + Winners(kind, RecordsOf(changed)), st.archive + ByGuid(Passing(items, alterId, full)),
                         CreateVersions(st.versions, changed), st.checkpoint)
        && c.Total() == |changed|
  {
    var passing := Passing(items, alterId, full);
    var changed, same := ChangedItems(st, alterId, full, items), UnchangedItems(st, alterId, full, items);
    DistinctPassing(items, alterId, full);
    DistinctPartition(passing, LatestHashes(st.archive, GuidsOf(passing)));
    DistinctArchiveRows(changed);
    DistinctArchiveRows(same);
    FidelityOutcome(kind, st, alterId, full, items);
    ByGuidInTwoParts(passing, LatestHashes(st.archive, GuidsOf(passing)));
    MapPlusAssociates(st.archive, ByGuid(changed), ByGuid(same));
  }

  // ----- counts and failures, for any response -----

  lemma {:induction false} PartitionCounts(items: seq<Item>, existing: map<Guid, Hash>)
    ensures |Changed(items, existing)| + |Unchanged(items, existing)| == |items|
  {
    if items != [] {
      PartitionCounts(items[1..], existing);
    }
  }

  /** Every record that passes the filter is counted once. */
  lemma {:induction false} CountsConserved(kind: Kind, st: Stores, alterId: int, full: bool, items: seq<Item>)
    requires RunFidelity(kind, st, alterId, full, items).Ok?
    ensures var c := RunFidelity(kind, st, alterId, full, items).value.1;
            c.inserted + c.updated + c.skipped == |Passing(items, alterId, full)|
  {
    hide RunFidelity;
    FidelityOutcome(kind, st, alterId, full, items);
    var passing := Passing(items, alterId, full);
    PartitionCounts(passing, LatestHashes(st.archive, GuidsOf(passing)));
  }

  /** Two items of the list bear the guid. */
  ghost predicate HasTwo(items: seq<Item>, g: Guid) {
    exists i, j :: 0 <= i < j < |items| && items[i].Guid() == g && items[j].Guid() == g
  }

  lemma {:induction false} TwoOf(x: Item, rest: seq<Item>, g: Guid)
    requires x.Guid() == g && exists y :: y in rest && y.Guid() == g
    ensures HasTwo([x] + rest, g)
  {
    var y :| y in rest && y.Guid() == g;
    var j :| 0 <= j < |rest| && rest[j] == y;
    assert ([x] + rest)[0].Guid() == g && ([x] + rest)[j + 1].Guid() == g;
  }

  lemma {:induction false} TwoMore(head: seq<Item>, rest: seq<Item>, g: Guid)
    requires HasTwo(rest, g)
    ensures HasTwo(head + rest, g)
  {
    var i, j :| 0 <= i < j < |rest| && rest[i].Guid() == g && rest[j].Guid() == g;
    assert (head + rest)[|head| + i] == rest[i] && (head + rest)[|head| + j] == rest[j];
  }

  lemma {:induction false} TwoPass(items: seq<Item>, alterId: int, i: nat, j: nat, g: Guid)
    requires i < j < |items| && items[i].Guid() == g && items[j].Guid() == g
    requires items[i].AlterId() > alterId && items[j].AlterId() > alterId
    ensures HasTwo(Newer(items, alterId), g)
  {
    hide HasTwo;
    var rest := Newer(items[1..], alterId);
    if i == 0 {
      assert items[1..][j - 1] == items[j];
      TwoOf(items[0], rest, g);
    } else {
      TwoPass(items[1..], alterId, i - 1, j - 1, g);
      TwoMore(if items[0].AlterId() > alterId then [items[0]] else [], rest, g);
    }
  }

  lemma {:induction false} TwoChanged(items: seq<Item>, existing: map<Guid, Hash>, i: nat, j: nat, g: Guid)
    requires i < j < |items| && items[i].Guid() == g && items[j].Guid() == g && g !in existing
    ensures HasTwo(Changed(items, existing), g)
  {
    hide HasTwo;
    var rest := Changed(items[1..], existing);
    if i == 0 {
      assert items[1..][j - 1] == items[j];
      TwoOf(items[0], rest, g);
    } else {
      TwoChanged(items[1..], existing, i - 1, j - 1, g);
      TwoMore(if IsUnchanged(existing, items[0]) then [] else [items[0]], rest, g);
    }
  }

  lemma {:induction false} TwoInOneChunk(items: seq<Item>, g: Guid)
    requires HasTwo(items, g) && |items| <= CHUNK_SIZE
    ensures !ChunksDistinct(ArchiveRows(items))
  {
    var i, j :| 0 <= i < j < |items| && items[i].Guid() == g && items[j].Guid() == g;
    var rows := ArchiveRows(items);
    assert rows[..|rows|] == rows;
    assert KeysOf(rows)[i] == KeysOf(rows)[j];
  }

  lemma {:induction false} NewerLength(items: seq<Item>, alterId: int)
    ensures |Newer(items, alterId)| <= |items|
  {
    if items != [] {
      NewerLength(items[1..], alterId);
    }
  }

  lemma {:induction false} WinnersSize(kind: Kind, records: seq<Record>)
    ensures |Winners(kind, records)| <= |records|
  {
    if records != [] {
      var n := |records| - 1;
      WinnersSize(kind, records[..n]);
      var w, r := Winners(kind, records[..n]), records[n];
      hide Winners;
      OneKeyMore(w, r.key, r);
    }
  }

  lemma {:induction false} OneKeyMore<K, V>(m: map<K, V>, k: K, v: V)
    ensures |m[k := v]| <= |m| + 1
  {
    assert m[k := v].Keys == m.Keys + {k};
  }

  lemma {:induction false} SmallBatch(kind: Kind, items: seq<Item>)
    requires |items| <= MAX_PARAMETERS
    ensures !TooMany(kind, items)
  {
    WinnersSize(kind, RecordsOf(items));
  }

  /** A guid that a small response repeats and the archive does not hold stops the sync when both items
      pass the filter; records without a guid share the blank one. */
  lemma {:induction false} RepeatedGuidFails(kind: Kind, st: Stores, full: bool, items: seq<Item>, i: nat, j: nat, g: Guid)
    requires i < j < |items| <= 500 && items[i].Guid() == g && items[j].Guid() == g
    requires g !in st.archive
    requires full || SavedAlterId(st) <= 0 || (items[i].AlterId() > SavedAlterId(st) && items[j].AlterId() > SavedAlterId(st))
    ensures Sync(kind, st, full, items) == Err(CardinalityViolation)
  {
    var alterId := StartAlterId(st, full);
    var passing := Passing(items, alterId, full);
    var changed := ChangedItems(st, alterId, full, items);
    assert HasTwo(passing, g) by {
      if !full && alterId > 0 {
        TwoPass(items, alterId, i, j, g);
      }
    }
    NewerLength(items, alterId);
    var existing := LatestHashes(st.archive, GuidsOf(passing));
    PartitionCounts(passing, existing);
    TwoStillThere(passing, existing, g);
    hide HasTwo, Newer, Changed, Unchanged, LatestHashes, RunFidelity, ChunksDistinct, Winners, TooMany;
    TwoInOneChunk(changed, g);
    SmallBatch(kind, changed);
    FidelityOutcome(kind, st, alterId, full, items);
  }

  /** The same guid in two statements of 500 rows is no failure: the later item stays. */
  lemma {:induction false} RepeatAcrossStatements(t: Archive, items: seq<Item>)
    requires 500 <= |items| <= 1_000 && DistinctGuids(items[..500]) && DistinctGuids(items[500..])
    ensures UpsertArchive(t, items) == Ok(t + ByGuid(items))
  {
    ArchiveUpsertMeans(t, items);
    hide UpsertArchive, ByGuid;
    var rows := ArchiveRows(items);
    assert rows[..500] == ArchiveRows(items[..500]) && rows[500..] == ArchiveRows(items[500..]);
    DistinctArchiveKeys(items[..500]);
    DistinctArchiveRows(items[500..]);
  }

  lemma {:induction false} DistinctArchiveKeys(items: seq<Item>)
    requires DistinctGuids(items)
    ensures Distinct(KeysOf(ArchiveRows(items)))
  {
  }

  lemma {:induction false} TwoStillThere(passing: seq<Item>, existing: map<Guid, Hash>, g: Guid)
    requires HasTwo(passing, g) && g !in existing
    ensures HasTwo(Changed(passing, existing), g)
  {
    var i, j :| 0 <= i < j < |passing| && passing[i].Guid() == g && passing[j].Guid() == g;
    TwoChanged(passing, existing, i, j, g);
  }

  lemma {:induction false} SubsetSize<T>(a: set<T>, b: set<T>)
    requires a <= b
    ensures |a| <= |b|
  {
    if a != {} {
      var x :| x in a;
      SubsetSize(a - {x}, b - {x});
    }
  }

  // ----- the archive grows by the inserted count -----

  lemma {:induction false} CountNewGuids(items: seq<Item>, existing: map<Guid, Hash>)
    requires DistinctGuids(items)
    ensures |ByGuid(items).Keys - existing.Keys| == |items| - CountKnown(items, existing)
  {
    if items != [] {
      var x, rest := items[0], items[1..];
      DistinctGuidsTail(items);
      CountNewGuids(rest, existing);
      ConsSize(x.Guid(), x, ByGuid(rest), existing.Keys);
    }
  }

  lemma {:induction false} ConsSize(g: Guid, x: Item, m: map<Guid, Item>, known: set<Guid>)
    requires g !in m
    ensures |(map[g := x] + m).Keys - known| == |m.Keys - known| + if g in known then 0 else 1
  {
    assert (map[g := x] + m).Keys - known == (m.Keys - known) + if g in known then {} else {g};
  }

  lemma {:induction false} UnionSize(before: set<Guid>, added: set<Guid>, known: set<Guid>)
    requires forall g :: g in added ==> (g in before <==> g in known)
    ensures |before + added| == |before| + |added - known|
  {
    assert before + added == before + (added - known);
  }

  /** With distinct guids the archive gains exactly `inserted` rows. */
  lemma {:induction false} ArchiveGrowsByInserted(kind: Kind, st: Stores, alterId: int, full: bool, items: seq<Item>)
    requires DistinctGuids(items)
    requires RunFidelity(kind, st, alterId, full, items).Ok?
    ensures var (st', c) := RunFidelity(kind, st, alterId, full, items).value;
            |st'.archive| == |st.archive| + c.inserted
  {
    var passing := Passing(items, alterId, full);
    var existing := LatestHashes(st.archive, GuidsOf(passing));
    FidelityEffect(kind, st, alterId, full, items);
    FidelityOutcome(kind, st, alterId, full, items);
    KnownSplits(passing, existing);
    DistinctPassing(items, alterId, full);
    LatestHashesMeans(st.archive, passing);
    hide RunFidelity, DistinctGuids, ByGuid;
    CountNewGuids(passing, existing);
    var m := ByGuid(passing);
    assert forall g :: g in m ==> m[g] in passing;
    UnionSize(st.archive.Keys, m.Keys, existing.Keys);
    assert (st.archive + m).Keys == st.archive.Keys + m.Keys;
  }

  /** An unchanged item always has an archived hash. */
  lemma {:induction false} KnownSplits(items: seq<Item>, existing: map<Guid, Hash>)
    ensures CountKnown(items, existing) == CountKnown(Changed(items, existing), existing) + |Unchanged(items, existing)|
    ensures |items| == |Changed(items, existing)| + |Unchanged(items, existing)|
  {
    if items != [] {
      KnownSplits(items[1..], existing);
      var changed := Changed(items, existing);
      assert IsUnchanged(existing, items[0]) ==> changed == Changed(items[1..], existing);
      assert !IsUnchanged(existing, items[0]) ==> changed[1..] == Changed(items[1..], existing);
    }
  }

  // ----- repeating a sync -----

  lemma {:induction false} AllUnchanged(items: seq<Item>, existing: map<Guid, Hash>)
    requires forall x :: x in items ==> IsUnchanged(existing, x)
    ensures Changed(items, existing) == [] && Unchanged(items, existing) == items
  {
    if items != [] {
      AllUnchanged(items[1..], existing);
      assert items == [items[0]] + items[1..];
    }
  }

  /** Items that the archive already holds pass through without a trace. */
  lemma {:induction false} ArchivedItemsAreIdle(kind: Kind, st: Stores, alterId: int, full: bool, items: seq<Item>)
    requires DistinctGuids(items)
    requires forall x :: x in Passing(items, alterId, full) ==> x.Guid() in st.archive && st.archive[x.Guid()] == x
    ensures RunFidelity(kind, st, alterId, full, items) ==
            Ok((st, Counts(0, 0, |Passing(items, alterId, full)|)))
  {
    var passing := Passing(items, alterId, full);
    var existing := LatestHashes(st.archive, GuidsOf(passing));
    DistinctPassing(items, alterId, full);
    LatestHashesMeans(st.archive, passing);
    AllUnchanged(passing, existing);
    DistinctArchiveRows(passing);
    AlreadyHeld(st.archive, passing);
    NoChange(kind, st, alterId, full, items);
  }

  lemma {:induction false} NoChange(kind: Kind, st: Stores, alterId: int, full: bool, items: seq<Item>)
    requires ChangedItems(st, alterId, full, items) == []
    requires ChunksDistinct(ArchiveRows(UnchangedItems(st, alterId, full, items)))
    requires st.archive + ByGuid([]) + ByGuid(UnchangedItems(st, alterId, full, items)) == st.archive
    ensures RunFidelity(kind, st, alterId, full, items) ==
            Ok((st, Counts(0, 0, |UnchangedItems(st, alterId, full, items)|)))
  {
    hide RunFidelity, LatestHashes, ChangedItems, UnchangedItems, ByGuid, Winners, RecordsOf, CreateVersions, ChunksDistinct, ArchiveRows,
         CountKnown, Passing, TooMany;
    FidelityOutcome(kind, st, alterId, full, items);
    NothingWritten(kind, st);
  }

  /** An empty part writes nothing. */
  lemma {:induction false} NothingWritten(kind: Kind, st: Stores)
    ensures st.entity + Winners(kind, RecordsOf([])) == st.entity
    ensures CreateVersions(st.versions, []) == st.versions
    ensures ChunksDistinct(ArchiveRows([])) && !TooMany(kind, [])
    ensures forall existing :: CountKnown([], existing) == 0
  {
    assert RecordsOf([]) == [];
    assert st.entity + map[] == st.entity;
  }

  lemma {:induction false} AlreadyHeld(archive: Archive, items: seq<Item>)
    requires forall x :: x in items ==> x.Guid() in archive && archive[x.Guid()] == x
    ensures archive + ByGuid([]) + ByGuid(items) == archive
  {
    assert archive + ByGuid([]) == archive;
  }

  /** A sync repeated at once with the same response counts nothing and leaves every store as it
      was, the checkpoint included, unless the first was incremental and the second is full. */
  lemma {:induction false} RepeatIsIdle(kind: Kind, st: Stores, full: bool, again: bool, items: seq<Item>)
    requires DistinctGuids(items)
    requires Sync(kind, st, full, items).Ok?
    requires again ==> full
    ensures var st' := Sync(kind, st, full, items).value.0;
            Sync(kind, st', again, items) ==
            Ok((st', Counts(0, 0, |Passing(items, StartAlterId(st', again), again)|)))
  {
    hide RunFidelity, ChangedItems, Winners, RecordsOf, CreateVersions, TooMany, ByGuid, DistinctGuids;
    var alterId := StartAlterId(st, full);
    FidelityEffect(kind, st, alterId, full, items);
    var st' := Sync(kind, st, full, items).value.0;
    var alterId' := StartAlterId(st', again);
    DistinctPassing(items, alterId, full);
    ByGuidFinds(Passing(items, alterId, full));
    forall x | x in Passing(items, alterId', again) ensures x in Passing(items, alterId, full) {
    }
    ArchivedItemsAreIdle(kind, st', alterId', again, items);
  }

  ghost predicate Held(archive: Archive, x: Item) {
    x.Guid() in archive && archive[x.Guid()].hash == x.hash
  }

  /** Any repetition, a full sync after an incremental one included, counts nothing exactly when the
      archive already held every item that the first sync filtered out and the second lets through. */
  lemma {:induction false} RepeatCountsNothing(kind: Kind, st: Stores, full: bool, again: bool, items: seq<Item>)
    requires DistinctGuids(items)
    requires Sync(kind, st, full, items).Ok?
    ensures var st' := Sync(kind, st, full, items).value.0;
            var r := Sync(kind, st', again, items);
            (r.Ok? && r.value.1.Total() == 0) <==>
            forall x :: x in Passing(items, StartAlterId(st', again), again) && x !in Passing(items, StartAlterId(st, full), full) ==>
              Held(st.archive, x)
  {
    hide ChangedItems, Passing, Held, Sync, DistinctGuids, ByGuid, TooMany, StartAlterId, RunFidelity;
    var alterId := StartAlterId(st, full);
    SyncCounts(kind, st, full, items);
    var st' := Sync(kind, st, full, items).value.0;
    var alterId' := StartAlterId(st', again);
    SyncCounts(kind, st', again, items);
    ChangedHere(st', alterId', again, items);
    PassingAreItems(items, alterId, full);
    PassingAreItems(items, alterId', again);
    DistinctPassing(items, alterId, full);
    PassingHeld(st.archive, items, Passing(items, alterId, full));
  }

  /** A sync of distinct guids archives what passes, and counts nothing when nothing changed. */
  lemma {:induction false} SyncCounts(kind: Kind, st: Stores, full: bool, items: seq<Item>)
    requires DistinctGuids(items)
    ensures var r, alterId := Sync(kind, st, full, items), StartAlterId(st, full);
            && (r.Ok? && r.value.1.Total() == 0 <==> ChangedItems(st, alterId, full, items) == [])
            && (r.Ok? ==> r.value.0.archive == st.archive + ByGuid(Passing(items, alterId, full)))
  {
    hide RunFidelity, ChangedItems, Winners, Passing, DistinctGuids, ByGuid;
    var alterId := StartAlterId(st, full);
    FidelityEffect(kind, st, alterId, full, items);
    NothingToUpsert(kind, ChangedItems(st, alterId, full, items));
  }

  lemma {:induction false} PassingAreItems(items: seq<Item>, alterId: int, full: bool)
    requires DistinctGuids(items)
    ensures forall x :: x in Passing(items, alterId, full) ==> x in items
  {
  }

  lemma {:induction false} NothingToUpsert(kind: Kind, changed: seq<Item>)
    ensures changed == [] ==> !TooMany(kind, changed)
  {
    if changed == [] {
      assert RecordsOf(changed) == [];
    }
  }

  lemma {:induction false} ChangedHere(st: Stores, alterId: int, full: bool, items: seq<Item>)
    ensures ChangedItems(st, alterId, full, items) == [] <==>
            forall x :: x in Passing(items, alterId, full) ==> Held(st.archive, x)
  {
    hide Passing;
    var passing := Passing(items, alterId, full);
    LatestHashesMeans(st.archive, passing);
    var changed := ChangedItems(st, alterId, full, items);
    if changed != [] {
      assert changed[0] in changed;
    }
  }

  lemma {:induction false} PassingHeld(archive: Archive, items: seq<Item>, passing: seq<Item>)
    requires DistinctGuids(items) && DistinctGuids(passing) && forall x :: x in passing ==> x in items
    ensures forall x :: x in items ==> (Held(archive + ByGuid(passing), x) <==> x in passing || Held(archive, x))
  {
    ByGuidFinds(items);
    ByGuidFinds(passing);
  }

  // ----- the version history -----

  /** Every archived hash has a version. */
  ghost predicate Audited(st: Stores) {
    forall g :: g in st.archive ==> (g, st.archive[g].hash) in st.versions
  }

  lemma {:induction false} VersionsHold(t: Versions, items: seq<Item>)
    ensures forall v :: v in t ==> v in CreateVersions(t, items) && CreateVersions(t, items)[v] == t[v]
    ensures forall x :: x in items ==> (x.Guid(), x.hash) in CreateVersions(t, items)
    ensures forall v :: v in CreateVersions(t, items) && v !in t ==>
              exists x :: x in items && v == (x.Guid(), x.hash) && CreateVersions(t, items)[v] == x.element
  {
    var rows := VersionRows(items);
    InsertOrIgnoreHolds(t, rows);
    hide InsertOrIgnore;
    forall x | x in items ensures (x.Guid(), x.hash) in KeySet(rows) {
      var i :| 0 <= i < |items| && items[i] == x;
      assert rows[i].key == (x.Guid(), x.hash);
    }
    forall v | v in CreateVersions(t, items) && v !in t
      ensures exists x :: x in items && v == (x.Guid(), x.hash) && CreateVersions(t, items)[v] == x.element
    {
      var i :| 0 <= i < |rows| && rows[i] == Row(v, CreateVersions(t, items)[v]);
      assert items[i] in items;
    }
  }

  /** Whatever the response, duplicate guids included, a sync keeps every version it finds and
      leaves every archived hash with a version. */
  lemma {:induction false} SyncKeepsAudit(kind: Kind, st: Stores, full: bool, items: seq<Item>)
    requires Audited(st)
    requires Sync(kind, st, full, items).Ok?
    ensures var st' := Sync(kind, st, full, items).value.0;
            Audited(st') && forall v :: v in st.versions ==> v in st'.versions && st'.versions[v] == st.versions[v]
  {
    var st' := Sync(kind, st, full, items).value.0;
    var passing := Passing(items, StartAlterId(st, full), full);
    var existing := LatestHashes(st.archive, GuidsOf(passing));
    var changed, same := Changed(passing, existing), Unchanged(passing, existing);
    VersionsHold(st.versions, changed);
    FidelityOutcome(kind, st, StartAlterId(st, full), full, items);
    forall g | g in st'.archive ensures (g, st'.archive[g].hash) in st'.versions {
      if g in ByGuid(same) {
        assert IsUnchanged(existing, ByGuid(same)[g]);
      }
    }
  }

  datatype Attempt = Attempt(full: bool, items: seq<Item>)

  /** One sync attempt on the committed stores: one that fails is rolled back. */
  function AfterAttempt(kind: Kind, st: Stores, a: Attempt): Stores {
    match Sync(kind, st, a.full, a.items)
    case Ok(done) => done.0
    case Err(_) => st
  }

  function AfterAttempts(kind: Kind, st: Stores, attempts: seq<Attempt>): Stores {
    if attempts == [] then st
    else AfterAttempt(kind, AfterAttempts(kind, st, attempts[..|attempts| - 1]), attempts[|attempts| - 1])
  }

  lemma {:induction false} AttemptKeepsAudit(kind: Kind, st: Stores, a: Attempt)
    requires Audited(st)
    ensures Audited(AfterAttempt(kind, st, a))
    ensures forall v :: v in st.versions ==> v in AfterAttempt(kind, st, a).versions
  {
    if Sync(kind, st, a.full, a.items).Ok? {
      SyncKeepsAudit(kind, st, a.full, a.items);
    }
  }

  lemma {:induction false} AttemptsKeepAudit(kind: Kind, st: Stores, attempts: seq<Attempt>)
    requires Audited(st)
    ensures Audited(AfterAttempts(kind, st, attempts))
  {
    if attempts != [] {
      var n := |attempts| - 1;
      AttemptsKeepAudit(kind, st, attempts[..n]);
      AttemptKeepsAudit(kind, AfterAttempts(kind, st, attempts[..n]), attempts[n]);
    }
  }

  /** Over any run of syncs of any responses: a hash the archive held after the first i attempts is
      among the versions after the first j, for every later j. */
  lemma {:induction false} AuditIsComplete(kind: Kind, st: Stores, attempts: seq<Attempt>, i: nat, j: nat, g: Guid)
    requires Audited(st)
    requires i <= j <= |attempts|
    requires g in AfterAttempts(kind, st, attempts[..i]).archive
    ensures (g, AfterAttempts(kind, st, attempts[..i]).archive[g].hash) in AfterAttempts(kind, st, attempts[..j]).versions
    decreases j
  {
    hide AfterAttempt, AfterAttempts;
    if i == j {
      AttemptsKeepAudit(kind, st, attempts[..i]);
    } else {
      AuditIsComplete(kind, st, attempts, i, j - 1, g);
      AttemptsKeepAudit(kind, st, attempts[..j - 1]);
      AttemptKeepsAudit(kind, AfterAttempts(kind, st, attempts[..j - 1]), attempts[j - 1]);
      AttemptsStep(kind, st, attempts, j - 1);
    }
  }

  lemma {:induction false} AttemptsStep(kind: Kind, st: Stores, attempts: seq<Attempt>, j: nat)
    requires j < |attempts|
    ensures AfterAttempts(kind, st, attempts[..j + 1]) ==
            AfterAttempt(kind, AfterAttempts(kind, st, attempts[..j]), attempts[j])
  {
    assert attempts[..j + 1][..j] == attempts[..j];
  }
}
