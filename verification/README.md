# Verification of the Tally sync

The repository copies records from a running TallyPrime company into PostgreSQL. Its core is an incremental
sync: export a whole entity type, drop what lies at or below the saved AlterID, skip what hashes as the raw
archive says, write the rest, archive it, append versions, and move the checkpoint, all in one transaction.
This project models that core and the parts it rests on, and proves exactly when the two shortcuts, the AlterID
filter and the hash comparison, lose nothing.

The model has three layers.

* **Functions on the stores.** `Statements` says what one INSERT statement does and what a chunked batch does;
  `Dedupe` which record of a batch a key is left with; `Pipeline` is one sync of one entity type as a function
  on its four stores (entity table, raw archive, versions, checkpoint); `PipelineFacts` is what that function
  does on any response; `AlterIdFilter` is when its AlterID filter loses nothing, and `KeyWinners` which record
  a key is left with, both with no assumption on the source.
* **The protocol.** `Protocol` is a state machine: records enter, change, are renamed and leave at any time, also
  between the steps Begin, Fetch and Commit or Abort of a sync. `Invariant` proves its invariant, `Theorems` the
  promises that follow for every run, `Lockstep` that a run of upsert-everything syncs goes the same way,
  `Overlap` what holds when several syncs are in flight, `Redigest` what
  holds when unedited records change their hashes, `Counterexamples` that the assumptions can be met and
  where the promises stop.
* **The program.** `BulkUpsert`, `Masters`, `ParentChild`, `Vouchers`, `PurchaseOrders`, `Database`, `SyncService`
  and `Engine` are the repositories, the transaction, the service and the engine as classes and methods with the
  source's loops and order of statements, proved against the functions. Any statement may be lost; which ones are
  is fixed by the environment (`Connection`), no call reports a loss that it did not meet, and the number of
  statements that each call sends is bounded.
  `Refinement` shows that a whole run of service calls is a run of the protocol; `Effects` treats runs of
  committed syncs of many entity types. `Streaming`, `TallyClient` and `Dates` are the byte stream, the retry
  loop and the date normalisation.

The invariant is short: the entity table is the version history seen through its keys (under each key ever
recorded it holds the version of the highest alter id), and every record stamped no higher than what committed
syncs have exported is archived as it is and lies below the checkpoint.

## Assumptions

`PipelineFacts`, `AlterIdFilter` and `KeyWinners` assume nothing of the source. The protocol assumes:

* A record's raw bytes contain its alter id (`app/parser/ledger.py:109`), and the digests of the elements that
  occur do not collide. `Protocol.ConfigExists` and `Counterexamples.RunsExist` show that this can be met for
  every kind of entity.
* The digest is a function of the element. The code hashes what `etree.tostring` gives (`app/parser/base.py:78`),
  which includes the text after the element as far as the parser has read, so an unedited record may hash
  differently in the next export. `Redigest` drops this assumption and proves agreement of archived elements and
  rows where keys are unique; what such a record adds is a version.
* An export is taken at one instant and lists each of its records once; Tally ignores the AlterID sent with the
  request (`app/tally_sdk/builder.py:17-22`). A record that enters the export, or changes in it, bears an alter id
  of its own that is higher than all exported so far. Three inputs break this. A voucher dated after the export
  that saved the checkpoint enters later under its old alter id (`app/services/voucher.py:36-45`). A closing
  balance (`app/parser/ledger.py:99`) changes without a new one. And while a voucher export is streamed
  (`app/services/voucher.py:52-59`) a record already read may change under an alter id below that of a record
  read later. An incremental sync does not see any of them; `AlterIdFilter` says so, and gives the condition, one
  that needs no assumption, under which nothing is lost.
* One sync of an entity type of a company runs at a time, or else the syncs commit in the order of their fetches
  (`Overlap`). The code enforces neither; `Counterexamples.OverlapIsNeverRepaired` shows what can happen.
* `uniqueKeys` (no two live records share a natural key; always so for masters) and `keepsKeys` (no record is
  deleted or renumbered) are parameters of the protocol; each theorem names the one it needs.

## Where the code differs from what one would expect

* Two records without a guid in one response of at most 500 make the archive statement fail, although
  `app/models/db/raw_archive.py:14-16` says blank guids are harmless (`PipelineFacts.RepeatedGuidFails`;
  `PipelineFacts.FidelityOutcome` has the exact condition).
* The failure row written at `app/services/base.py:121` is in the transaction that
  `app/database/session.py:28-30` rolls back: a failed sync leaves no audit row.
* A full sync may lower the checkpoint, to 0 on an empty response; the legacy path leaves it alone then.
* An incremental sync never stores a voucher that was entered before the checkpoint but dated after the export
  that saved it; a full sync does (`AlterIdFilter.PostDatedVoucherIsNotSeen`).
* When such a voucher shares number and type with a newer one that is already stored, the full sync does harm: it
  upserts the older voucher alone, over the newer one's row, where upserting everything would keep the newer one,
  and no later sync puts it back (`KeyWinners.LateVoucherOverwrites`; `KeyWinners.RowAfterSyncIff` has the exact
  condition). The deduplication by alter id (`app/repositories/postgres/voucher.py:47-55`) sees only the records
  that are new or changed.
* A full sync through the hash-skipping pipeline does not repair a voucher key whose winner was deleted while
  another live voucher shares it; the legacy path does (`Theorems.FullAgreesWithLegacy`,
  `Counterexamples.ShadowedVoucherIsNotRepaired`).
* A sync repeated at once changes and counts nothing, except that a full sync after an incremental one may find
  items that the checkpoint had hidden (`AlterIdFilter.RepeatIsIdleIff` and `PipelineFacts.RepeatCountsNothing`
  have the exact conditions).
* Beyond 65,535 vouchers a full upsert-everything sync fails, where the hash-skipping one, which deletes child rows
  of fewer vouchers, may succeed (`Lockstep.LegacyInLockstep`).

## Model

| member | source | states |
|---|---|---|
| Statements.ProposedIsEach | app/database/bulk.py:59-70 | rows inserted or updated by one statement leave what upserting them one by one leaves |
| Statements.ChunkedRefinesEach | app/repositories/postgres/raw_archive.py:94-110 | a batch cut into 500-row statements fails exactly when one chunk repeats a key, and otherwise equals the row-by-row upsert of the whole batch, keys repeated across chunks included |
| Statements.InsertOrIgnoreHolds | app/repositories/postgres/raw_archive.py:157-163 | ON CONFLICT DO NOTHING keeps every present row, adds exactly the proposed keys, and a new key holds a proposed row |
| Statements.InsertOrIgnoreConcat | app/repositories/postgres/raw_archive.py:157-163 | cutting such a batch into chunks does not change its result |
| Dedupe.Winners | app/repositories/postgres/voucher.py:47-55 | each key of a batch is left with a record of the batch under that key, and for vouchers and orders none of that key has a higher alter id |
| Dedupe.MasterWinnerIsLast | app/database/bulk.py:51-57 | in a master batch the last record of a key wins |
| Dedupe.WinnerIsFirstHighest | app/repositories/postgres/voucher.py:47-55 | in a voucher or order batch the first record of the highest alter id of a key wins |
| Dedupe.WinnersOrderFree | app/repositories/postgres/purchase_order.py:40-45 | when alter ids tell the records of a key apart, every permutation of the batch has the same winners |
| PipelineFacts.LatestHashesMeans | app/repositories/postgres/raw_archive.py:39-60 | the looked-up hash of an item is the archived one, and an item without a row has none |
| PipelineFacts.ArchiveUpsertMeans | app/repositories/postgres/raw_archive.py:94-110 | the archive upsert fails exactly when a chunk repeats a guid, and otherwise leaves each guid with its last item |
| PipelineFacts.ChangedItemsMeans | app/services/base.py:145-166 | an item is treated as new or changed if and only if it passes the AlterID filter and the archive does not hold its hash |
| PipelineFacts.FidelityOutcome | app/services/base.py:131-197 | for any response, repeated guids included: which error is raised and exactly when, and otherwise all four stores and the three counts |
| PipelineFacts.FidelityEffect | app/services/base.py:131-197 | with distinct guids only the parameter ceiling can fail the run, and every passing item ends in the archive |
| PipelineFacts.CountsConserved | app/services/base.py:168-197 | inserted, updated and skipped add up to the records that pass the filter |
| PipelineFacts.ArchiveGrowsByInserted | app/services/base.py:176-185 | with distinct guids the archive gains exactly `inserted` rows |
| PipelineFacts.RepeatedGuidFails | app/models/db/raw_archive.py:14-16 | in a response of at most 500 items, two that share a guid, such as the blank one, pass the filter and are not archived yet stop the sync with a cardinality violation, whatever else it lists |
| PipelineFacts.RepeatAcrossStatements | app/repositories/postgres/raw_archive.py:94-110 | guids that repeat only between the first 500 items and the rest are no failure; the later item stays |
| PipelineFacts.ArchivedItemsAreIdle | app/services/base.py:159-166 | items the archive already holds change no store and are all counted as skipped |
| AlterIdFilter.RepeatIsIdleIff | app/services/base.py:55-102 | a sync repeated at once, in either mode, leaves every store, the checkpoint included, and counts only skipped records, if and only if it is not a full one after an incremental one, or all that the incremental one dropped is archived as it stands and the saved checkpoint is the maximum of the response |
| PipelineFacts.RepeatCountsNothing | app/services/base.py:61-82 | any repetition counts nothing if and only if the archive already held every item that only the second filter lets through |
| PipelineFacts.SyncKeepsAudit | app/services/base.py:184-193 | whatever the response, a sync keeps every version and leaves every archived hash with a version |
| PipelineFacts.AuditIsComplete | app/repositories/postgres/raw_archive.py:157-163 | over any run of syncs and failures, a hash the archive ever held is among the versions at every later time |
| AlterIdFilter.FilterLosesNothingIff | app/services/base.py:145-146 | for any stores and any response of distinct guids, incremental and full sync leave the same entity table, archive and versions if and only if every item the filter drops is archived as it stands; the archive alone already decides it |
| AlterIdFilter.ModesFailAlike | app/services/base.py:145-146 | under that condition the two modes also fail alike |
| AlterIdFilter.FullShowsIncremental | app/services/base.py:145-146 | whenever a full sync of a response succeeds, so does an incremental one |
| AlterIdFilter.ExportAgreesIff | app/services/base.py:145-193 | after any successful sync of any response, an item of it is archived as it stands if and only if it passed the filter or was so archived before |
| AlterIdFilter.RunLosesNothingIff | app/services/base.py:55-102 | over any run of sync attempts, failed ones included, on any responses of distinct guids, the stores agree after every attempt with those of full syncs alone if and only if each attempt leaves what a full one would: all it drops is archived, or, where the full one fails, it fails too or changes nothing |
| AlterIdFilter.DroppedIsNotSeen | app/services/base.py:145-146 | an item at or below the checkpoint leaves its guid's archive row as it was, however it differs from it |
| AlterIdFilter.NeverSeen | app/services/base.py:145-146 | no run of incremental syncs sees a listed record that stays at or below the checkpoint |
| AlterIdFilter.FullSyncSees | app/services/base.py:61 | a full sync archives every item it lists |
| AlterIdFilter.PostDatedVoucherIsNotSeen | app/services/voucher.py:36-45 | a voucher entered before the checkpoint and dated after the export that saved it is never stored by any number of incremental syncs, and is by any full one |
| KeyWinners.WinnerOfPart | app/repositories/postgres/voucher.py:47-55 | a record that wins its key in a batch wins it in any part of the batch that contains it |
| KeyWinners.RowAfterSyncIff | app/services/base.py:159-174 | for any stores, mode and response of distinct guids, after a successful sync a listed key holds the response's winner if and only if the winner is itself new or changed, or nothing under the key is and the winner's row was there |
| KeyWinners.WinnersAfterEverySyncIff | app/services/base.py:159-174 | over any run of syncs of any responses, each sync that succeeds leaves every listed key with its winner if and only if that holds for each key |
| KeyWinners.LateVoucherOverwrites | app/repositories/postgres/voucher.py:47-55 | a full sync puts an older, late voucher over the newer one of the same number and type, where the legacy path keeps the newer one, and no later syncs of the two undo it |
| Invariant.NextKeepsInv | app/services/base.py:55-127 | every step of source and sync keeps the protocol's invariant |
| Invariant.RunKeepsInv | app/services/base.py:55-127 | the invariant holds in every state of every run, with edits anywhere between begin, fetch and commit |
| Protocol.ArchivedBelowHorizon | app/services/base.py:159-166 | in a reachable state an exported item hashes as archived exactly when it is stamped no later than the last committed fetch |
| Protocol.ConfigExists | app/parser/ledger.py:109 | the assumptions on digests can be met for every kind and flags by any elements whose alter ids differ |
| Theorems.HistoryDeterminesEntity | app/services/base.py:184-193 | in reachable states equal version histories mean equal entity tables |
| Theorems.CheckpointMeansAgreement | app/services/base.py:61-102 | in every state of every run of the protocol, each live record at or below the checkpoint has its current element in the archive and, where keys are unique, its current row under its key |
| Theorems.QuietCommitConverges | app/services/base.py:55-102 | a commit whose export still lists the source leaves every live record so |
| Theorems.SkippingIsSound | app/services/base.py:159-193 | in every state of every run with unique keys, a record whose archived hash is current has its current row in place, after renames and reuse of names too |
| Theorems.IncrementalRefinesFull | app/services/base.py:61-82 | from any reachable state and export, incremental and full sync fail alike or leave the same entity table, archive and versions; checkpoints differ only when the export has nothing above the old one |
| Theorems.NoveltyMovesCheckpoint | app/services/base.py:76-82 | in a reachable state an export holds something new exactly when its highest alter id exceeds the checkpoint |
| Theorems.CheckpointDiscipline | app/services/base.py:76-82 | the checkpoint never exceeds the highest alter id given out, only commits move it, a saved value is the export's highest alter id, incremental commits never lower it |
| Theorems.RowAfterCommit | app/services/base.py:159-193 | after a commit a key holds the export's winner if and only if no newer version was ever recorded under that key |
| Theorems.NeverShadowed | app/services/base.py:159-193 | with unique keys, or records that keep their keys, no newer version can be in the way |
| Theorems.CollisionWinner | app/repositories/postgres/voucher.py:50-164 | over whole runs without deletion or renumbering, after every commit a number and type shared by several vouchers holds header and child rows of the highest alter id of the export |
| Theorems.IncrementalAgreesWithLegacy | app/services/base.py:131-221 | from any reachable state the hash-skipping and the upsert-everything pipeline fail alike or leave the same entity table after an incremental sync |
| Theorems.FullAgreesWithLegacy | app/services/base.py:131-221 | a full upsert-everything sync succeeds if and only if the export keeps to the parameter ceiling; then the hash-skipping one does too and the tables agree if and only if no key of the export is shadowed by a newer version; beyond the ceiling they agree if and only if the hash-skipping one fails too or finds nothing new |
| Theorems.LegacyCheckpointAgrees | app/services/base.py:199-221 | both pipelines save the same checkpoint whenever the export's highest alter id exceeds the old one |
| Theorems.OnlyArchivedIsDropped | app/services/base.py:145-146 | in every reachable state the filter drops only items that are archived as they stand |
| Lockstep.LegacyInLockstep | app/services/base.py:131-221 | with unique keys, or records that keep theirs, a run of hash-skipping syncs and the same run of upsert-everything syncs, each with its own checkpoint and rolled back when it fails, have equal entity tables in every state if and only if each full commit keeps to the parameter ceiling with its whole export or finds nothing new |
| Overlap.RunKeepsWorld | app/services/base.py:55-127 | any number of overlapping syncs with possibly stale checkpoints keep the invariant in every state of a run that commits exports in the order of their fetches |
| Overlap.OverlapAgreement | app/services/base.py:61-102 | in every state of such a run each live record at or below the checkpoint is archived as it is and, where keys are unique, has its row |
| Overlap.AnyCommitKeepsAgreementIff | app/services/base.py:131-197 | from any reachable state, the commit of any export of distinct guids, overtaken ones included, keeps the agreement if and only if, for each record live at or below the horizon, it lets through nothing but that record under its guid and, where keys are unique, upserts nothing else under its key |
| Overlap.SingleRun | app/services/base.py:55-127 | every run with one sync at a time is such a run |
| Redigest.AgreementWithoutStableDigests | app/parser/base.py:68-82 | with unique keys, in every state of every run each live record at or below the checkpoint has its element archived and its row under its key, even if unedited records change their hashes |
| Redigest.QuietCommitWithoutStableDigests | app/parser/base.py:68-82 | after a commit whose export still lists the source, so does every live record |
| Counterexamples.RunsExist | app/services/base.py:55-102 | for every kind and flags there is a run in which a record is synced and then edited between fetch and commit of the next sync |
| Counterexamples.ShadowedVoucherIsNotRepaired | app/services/base.py:159-174 | a concrete run after which a full sync leaves a live voucher without its row, where the legacy path would restore it |
| Counterexamples.OverlapIsNeverRepaired | app/services/base.py:55-102 | two overlapping syncs and a rename that frees a name leave a wrong row that stays through any later syncs of the source, in any order of its records, incremental or full |
| BulkUpsert.LastRows | app/database/bulk.py:51-57 | the dedupe loop keeps one row for each key, the last |
| BulkUpsert.Table.Execute | app/database/bulk.py:59-70 | one statement: its effect, its errors, and the row count a driver may report; a lost connection is reported exactly when the statement was lost |
| BulkUpsert.Table.BulkUpsert | app/database/bulk.py:30-70 | it sends one statement for each 500 keys, fails exactly when one is lost, and else returns the number of distinct keys and leaves what upserting one row for each key leaves |
| BulkUpsert.DistinctRowsHold | app/database/bulk.py:59-70 | a key of the batch holds its row merged into what was there, every other key what it held |
| BulkUpsert.LastWinsIsRowByRow | app/database/bulk.py:48-70 | it equals the row-by-row upsert of the original list if and only if, for each repeated new key, the first row updated by the last is the last |
| BulkUpsert.ColumnsAreLawful | app/database/bulk.py:59-70 | whatever the update list, setting columns obeys the laws the former needs |
| BulkUpsert.CoveringColumns | app/database/bulk.py:48-70 | when conflict and update columns cover the row, bulk upsert always equals the row-by-row upsert |
| Masters.EveryUpdateListCovers | app/repositories/postgres/ledger.py:15-49 | the update list of each of the eight master tables covers its non-key columns, and no row binds more than 18 |
| Masters.ConflictReplacesRow | app/repositories/postgres/ledger.py:15-49 | in every master table the upsert of a record under a held name leaves exactly that record's row |
| Masters.RowsConflictByName | app/repositories/postgres/ledger.py:52-79 | rows of one company conflict exactly when their records have the same name |
| Masters.MasterBulkIsRowByRow | app/repositories/postgres/inventory.py:16-36 | in every master table a bulk upsert equals the row-by-row upsert of the batch as it came, within the parameter limit |
| Masters.MasterBulk | app/database/bulk.py:30-70 | the bulk upsert of a batch of records puts in the last of each name and returns their number |
| Masters.RowHoldsRecord | app/repositories/postgres/ledger.py:56-72 | the row bound for a record holds its name, guid, alter id and company and, in every other bound column but the time, the record's field of that name |
| Masters.RowsTellRecordsApart | app/repositories/postgres/ledger.py:56-72 | a record is read back from its row: records with equal rows agree in name, guid, alter id and every field the table keeps |
| Masters.ColumnsShowRecords | app/database/bulk.py:30-70 | in every master table the bulk upsert of the rows of a batch leaves the table of records with the batch's winners put in, each row holding its record cell by cell |
| Connection.Connection.Send | app/database/session.py:15-32 | one statement is counted, and lost exactly when the environment says so |
| ParentChild.DedupeBatch | app/repositories/postgres/voucher.py:47-55 | the dedupe dictionary and its values hold exactly the winners, one for each key |
| ParentChild.ExecuteHeaders | app/repositories/postgres/voucher.py:81-89 | one header statement: known keys keep their id, new ones get fresh ids, and RETURNING gives the id of each key |
| ParentChild.CollectIds | app/repositories/postgres/voucher.py:88-89 | the id map gains exactly the returned pairs |
| ParentChild.UpsertHeaderRows | app/repositories/postgres/voucher.py:57-89 | all chunks together upsert every header of the batch and map each key to its id |
| ParentChild.DeleteFrom | app/repositories/postgres/voucher.py:96-110 | the unchunked delete removes exactly the children of the given headers and fails only beyond 65,535 of them |
| ParentChild.InsertChildren | app/repositories/postgres/voucher.py:154-164 | the chunked inserts append the built rows in order and never meet a missing header |
| ParentChild.RewriteTable | app/repositories/postgres/voucher.py:96-164 | after delete and rebuild each header of the batch has exactly its record's children in order, every other header what it had |
| ParentChild.RewriteKeepsParents | app/repositories/postgres/voucher.py:96-164 | no child row is left or built without a header |
| ParentChild.JoinRewritten | app/repositories/postgres/voucher.py:57-164 | headers joined with children are the old table with the batch's records put in |
| Vouchers.VoucherRepository.UpsertBatch | app/repositories/postgres/voucher.py:41-166 | the joined voucher tables are the old ones with the winners put in, all three child tables included; ids are kept; it sends a stated number of statements, reports a lost connection exactly when one of them was lost, and where none is it succeeds if and only if there are at most 65,535 distinct vouchers |
| PurchaseOrders.PurchaseOrderRepository.UpsertBatch | app/repositories/postgres/purchase_order.py:34-107 | the same for purchase orders and their items |
| Database.Session.Commit | app/database/session.py:15-32 | a commit publishes the transaction's work, or nothing exactly when it is lost |
| Database.CheckpointRepository.GetAlterId | app/repositories/postgres/checkpoint.py:19-27 | the saved alter id, or 0 before the first sync |
| Database.CheckpointRepository.SaveAlterId | app/repositories/postgres/checkpoint.py:37-55 | sets the checkpoint of one scope and nothing else |
| Database.CheckpointRepository.StartRun | app/repositories/postgres/checkpoint.py:59-68 | adds one running row under a new id |
| Database.RawArchiveRepository.GetLatestHashes | app/repositories/postgres/raw_archive.py:39-60 | the archived hashes of the given guids; no statement for no guids |
| Database.RawArchiveRepository.UpsertBatch | app/repositories/postgres/raw_archive.py:62-110 | the chunk loop has the specified outcome, errors included, and touches only the archive of its scope |
| Database.EntityVersionRepository.CreateVersions | app/repositories/postgres/raw_archive.py:119-163 | the chunk loop adds the missing versions of the batch and touches only the versions of its scope |
| SyncService.SyncService.UpsertEntityBatch | app/services/base.py:172-174 | the repository of each kind leaves the table with the winners of the batch and returns their number |
| SyncService.SyncService.Partition | app/services/base.py:156-166 | splits the passing items into changed and unchanged ones, in order |
| SyncService.SyncService.CountChanged | app/services/base.py:176-182 | `updated` counts the changed items archived before, `inserted` the others |
| SyncService.SyncService.StoreChanged | app/services/base.py:171-189 | entity table, archive and versions after the changed items, or the error of the first statement that fails |
| SyncService.SyncService.RunFidelityPipeline | app/services/base.py:131-197 | unless the connection is lost, stores, counts and errors are those of the pipeline function |
| SyncService.SyncService.RunLegacyPipeline | app/services/base.py:199-221 | unless the connection is lost, stores, count, checkpoint and errors are those of the upsert-everything function |
| SyncService.SyncService.RunPipeline | app/services/base.py:61-104 | checkpoint read, pipeline and checkpoint rule together have the specified outcome |
| SyncService.SyncService.Attempt | app/services/base.py:57-127 | inside the transaction a success ends with one closed success row and the specified tables, a failure with its row closed as a failure |
| SyncService.StoresOf | app/repositories/postgres/checkpoint.py:19-27 | a scope that was never synced has no rows, no archive, no versions and no checkpoint |
| SyncService.SyncService.Sync | app/services/base.py:55-127 | all or nothing: an error leaves the whole committed database as it was; a success changes the tables of its scope as specified, adds one success row, and changes nothing else; where none of its statements, whose number is bounded, is lost, it returns or raises exactly what is specified |
| Refinement.ServiceCommitIsProtocolCommit | app/services/base.py:55-127 | a committed call of the service is a Commit step of the protocol |
| Refinement.ServiceSyncConverges | app/services/base.py:55-127 | after a committed call with a current export, every live record is archived and, where keys are unique, stands in the joined tables with all its children |
| Refinement.ServiceRunIsProtocolRun | app/services/base.py:55-127 | a whole run of service calls that commit or fail, source edits and syncs of other scopes is a run of the protocol on the tables of the scope |
| Refinement.FreshScopeStarts | app/repositories/postgres/checkpoint.py:19-27 | a database that never synced the scope is where such a run starts |
| Refinement.FirstSyncStoresAll | app/services/base.py:55-127 | the first sync of a scope counts and archives every listed record and, where keys are unique, stores it with all its children |
| Refinement.ServiceRunAgrees | app/services/base.py:55-127 | in every state of such a run the database agrees with the source on each live record at or below the saved checkpoint |
| Effects.OneRowPerCommit | app/repositories/postgres/checkpoint.py:59-95 | over any run of committed syncs each adds exactly one success row, no row is rewritten, and no running or failed row is ever visible |
| Effects.EffectsCommute | app/services/base.py:55-127 | committed syncs of different scopes leave the same database in every order |
| Effects.EachAlone | app/services/base.py:55-127 | a run over different scopes is as specified if and only if each sync is as specified on the database the run started from |
| Engine.SyncEngine.SyncEntity | app/sync/engine.py:37-55 | one entity, incrementally: its step, the database after it and the two dictionaries; it fails for a lost connection exactly when a statement was lost |
| Engine.SyncEngine.RunStep | app/sync/engine.py:67-82 | one entry of the order: absent, committed as specified, or failed with nothing changed, for the specified error or exactly when a statement was lost |
| Engine.SyncEngine.Sync | app/sync/engine.py:57-87 | the loop makes one step for each entry of the order, the database and both dictionaries follow from the steps, audit rows are numbered upwards, and no entry fails for a lost connection exactly when none of the statements was lost |
| Engine.RunIsFoldOfSuccesses | app/sync/engine.py:67-82 | a run leaves what its successful syncs alone leave; failures act as identity |
| Engine.RunIsLawful | app/sync/engine.py:67-82 | the successes of a run form a lawful run of committed syncs |
| Engine.ReportsCoverTheOrder | app/sync/engine.py:65-87 | for an order without repetition `synced` and `errors` are disjoint, cover exactly the ordered entities that have a service, and hold the counts of the audit rows and the errors raised |
| Engine.EntitiesAreIndependent | app/sync/engine.py:22-27 | for such an order each successful entity ends with what its sync alone on the starting database would have left |
| Engine.RunAddsOneRowPerSuccess | app/sync/engine.py:57-87 | a run adds one success row for each success and none for a failure |
| Streaming.IteratorIO.ReadInto | app/sync/streaming.py:18-29 | delivered bytes and remaining stream are the stream before, the rest of the buffer is left alone, a non-empty buffer gets 0 only at the end, and an exception of the iterator is passed on once everything was delivered |
| Streaming.ReadsConserve | app/sync/streaming.py:18-29 | for every chunk sequence and every sequence of buffer sizes, zero included, nothing is lost, added or reordered |
| Streaming.EnoughReadsDrain | app/sync/streaming.py:18-29 | as many non-empty reads as there are bytes deliver exactly the concatenation of the chunks, whether or not the stream breaks afterwards |
| Streaming.EmptyReadMeansDone | app/sync/streaming.py:18-29 | a read into a non-empty buffer is empty if and only if everything has been delivered and no exception is due, and raises if and only if one is |
| TallyClient.Request | app/client/tally_client.py:108-153 | at most max_retries posts, none after an answer of any kind; the caller gets the body of the reply or the error that the answer stands for, and a connection error exactly when every post allowed met nobody; it sleeps the backoff between posts only |
| TallyClient.TotalSleepIsBounded | app/client/tally_client.py:126-150 | for any number of retries and any settings all sleeping together is at most min((n-1) cap, base (2^(n-1) - 1) + (n-1)), a negative cap or base counting as 0 |
| TallyClient.WaitsNeverDecrease | app/client/tally_client.py:254-258 | a later wait is never shorter, whatever the jitter, if and only if the exponential part is at least a second or its double has reached the cap |
| TallyClient.SleepsAreSorted | app/client/tally_client.py:254-258 | with a base of a second or more the waits of a whole call never decrease |
| Dates.TallyDate | app/parser/base.py:134-152 | the loop over the formats computes the normal form |
| Dates.FormatsAreDisjoint | app/parser/base.py:35 | no text is accepted by two of the four formats |
| Dates.OrderOfFormatsIsIrrelevant | app/parser/base.py:148-152 | any order of the formats gives the same date |
| Dates.PrintedReadsBack | app/parser/base.py:35 | every format reads back every date it printed, two-digit years exactly from 1969 to 2068 |
| Dates.DisplayDateIsNormalised | app/parser/base.py:134-152 | a date shown in any of the formats, such as d-Mon-yy, is stored as its compact form |
| Dates.NamedDateIsStored | app/parser/base.py:134-152 | for each of the twelve names written out, every day and every two-digit year: d-Mon-yy is accepted exactly when the month has the day, and is stored as century, year, the digits of the month and day |
| Dates.LeapDays | app/parser/base.py:148-152 | the 29th of February is accepted in exactly the leap years |
| Dates.CaseDoesNotMatter | app/parser/base.py:35 | the name of a month is read in any case |
| Dates.PaddingIsRead | app/parser/base.py:35 | a one-digit day may be padded with a zero or a blank, a month with a zero only |
| Dates.OnlyDatesAreAccepted | app/parser/base.py:35 | a text that a format accepts shows the date that is read: year, month and day in that format's places, and nothing else |
| Dates.KnownDates | app/parser/base.py:134-152 | the dates of the unit tests, as literal texts |
| Dates.NormalisingIsIdempotent | app/parser/base.py:134-152 | normalising twice is normalising once exactly when the platform pads years or the date read is not before the year 1000 |
| Dates.CompactDatesSort | app/parser/base.py:134-152 | from the year 1000 on stored dates are ordered as strings exactly as in the calendar |

## Left out

- Overlapping syncs of one entity type: what the database part of each does is one step, so statements of two transactions do not interleave.
- Deletions: a deleted record keeps its rows, and a renamed one leaves its old-name row; agreement is about live records.
- The voucher export's date window: an export is the records it lists, and a record outside the window is not yet, or no longer, part of the source.
- The company table's key, which is the name alone: the database is modelled as tables for each company and entity type.
- Column widths, rounding to NUMERIC(18,4) and null handling of the tables: an amount is a number of ten-thousandths.
- Timestamps, parser and schema versions, run ids on archive and version rows, and the error text of a run.
- Serial ids beyond being unique, kept and, for runs, increasing.
- HTTP sessions, XML building, parsing and the fields of each entity: a response is a sequence of parsed records with their hashes.
- Theorems.CheckpointMeansAgreement: says nothing of a record that changes or enters the export at or below the checkpoint; AlterIdFilter.DroppedIsNotSeen says that it is not seen.
- Theorems.IncrementalRefinesFull: the same; AlterIdFilter.FilterLosesNothingIff has the exact condition for any response.
- Theorems.RowAfterCommit: says nothing of exports in which a record changed or entered at or below what was exported; KeyWinners.RowAfterSyncIff has the exact condition for any response.
- Theorems.CollisionWinner: the same; KeyWinners.WinnersAfterEverySyncIff has the exact condition over runs of any responses.
- Overlap.RunKeepsWorld: says nothing of runs that commit an overtaken export; Overlap.AnyCommitKeepsAgreementIff has the exact condition for such a commit.
- Overlap.OverlapAgreement: the same.
- Redigest.AgreementWithoutStableDigests: nothing is proved for shared keys when digests are not stable; KeyWinners.RowAfterSyncIff covers each sync.
- Dates.TallyDate: digits and month names are ASCII in the C locale; the text arrives stripped.
- Amounts, rates, quantities and unknown tags: single expressions without a property beyond their body.
- Scheduler, API, command line, settings, logging, health check and migrations.
