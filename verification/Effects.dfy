/** Runs of syncs over one database: committed syncs as effects, failed ones as nothing. */
module Effects {
  import opened Records
  import opened Statements
  import opened Database
  import opened SyncService

  /** What a committed sync writes: the tables of its scope and its audit row. */
  datatype Effect = Effect(scope: Scope, tables: Tables, id: nat, run: Run)

  /** What a sync is called with. */
  datatype Call = Call(kind: Kind, full: bool, response: Response)

  function Applied(db: Database, e: Effect): Database {
    db.Put(e.scope, e.tables).PutRun(e.id, e.run)
  }

  function AppliedAll(db: Database, effects: seq<Effect>): Database {
    if effects == [] then db
    else Applied(AppliedAll(db, effects[..|effects| - 1]), effects[|effects| - 1])
  }

  /** The effect is what the specification gives for the call on this database. */
  ghost predicate Specified(call: Call, db: Database, e: Effect) {
    Commits(call.kind, call.full, call.response, db, e.scope, e.id, e.run.synced, Applied(db, e))
  }

  /** Each effect is as specified on the database it found. */
  ghost predicate Lawful(calls: seq<Call>, db: Database, effects: seq<Effect>) {
    && |calls| == |effects|
    && forall i :: 0 <= i < |effects| ==> Specified(calls[i], AppliedAll(db, effects[..i]), effects[i])
  }

  ghost predicate DistinctScopes(effects: seq<Effect>) {
    forall i, j :: 0 <= i < j < |effects| ==> effects[i].scope != effects[j].scope
  }

  ghost predicate DistinctIds(effects: seq<Effect>) {
    forall i, j :: 0 <= i < j < |effects| ==> effects[i].id != effects[j].id
  }

  /** The ids of the effects are new to the database. */
  ghost predicate NewIds(db: Database, effects: seq<Effect>) {
    DistinctIds(effects) && forall e :: e in effects ==> e.id !in db.runs
  }

  /** A committed database holds the audit rows of finished, successful syncs and no other. */
  ghost predicate AllSucceeded(runs: map<nat, Run>) {
    forall id :: id in runs ==> runs[id].status == Success
  }

  function TableRows(effects: seq<Effect>): (rows: seq<Row<Scope, Tables>>)
    ensures |rows| == |effects|
    ensures forall i :: 0 <= i < |effects| ==> rows[i] == Row(effects[i].scope, effects[i].tables)
  {
    seq(|effects|, i requires 0 <= i < |effects| => Row(effects[i].scope, effects[i].tables))
  }

  function RunRows(effects: seq<Effect>): (rows: seq<Row<nat, Run>>)
    ensures |rows| == |effects|
    ensures forall i :: 0 <= i < |effects| ==> rows[i] == Row(effects[i].id, effects[i].run)
  {
    seq(|effects|, i requires 0 <= i < |effects| => Row(effects[i].id, effects[i].run))
  }

  lemma {:induction false} LastRow<K, V>(t: map<K, V>, rows: seq<Row<K, V>>)
    requires rows != []
    ensures var n := |rows| - 1; UpsertEach(t, rows) == UpsertEach(t, rows[..n])[rows[n].key := rows[n].value]
  {
    var n := |rows| - 1;
    assert rows == rows[..n] + [rows[n]];
    UpsertEachConcat(t, rows[..n], [rows[n]]);
    hide UpsertEach;
    OneRow(UpsertEach(t, rows[..n]), rows[n]);
  }

  lemma {:induction false} OneRow<K, V>(t: map<K, V>, r: Row<K, V>)
    ensures UpsertEach(t, [r]) == t[r.key := r.value]
  {
  }

  /** Effects are rows written to two tables. */
  lemma {:induction false} EffectsAreRows(db: Database, effects: seq<Effect>)
    ensures AppliedAll(db, effects).tables == UpsertEach(db.tables, TableRows(effects))
    ensures AppliedAll(db, effects).runs == UpsertEach(db.runs, RunRows(effects))
  {
    if effects != [] {
      var n := |effects| - 1;
      EffectsAreRows(db, effects[..n]);
      hide UpsertEach;
      LastRow(db.tables, TableRows(effects));
      LastRow(db.runs, RunRows(effects));
      assert TableRows(effects)[..n] == TableRows(effects[..n]);
      assert RunRows(effects)[..n] == RunRows(effects[..n]);
    }
  }

  // ----- audit rows -----

  lemma {:induction false} DropLast(db: Database, effects: seq<Effect>)
    requires effects != []
    ensures DistinctIds(effects) ==> DistinctIds(effects[..|effects| - 1])
    ensures NewIds(db, effects) ==> NewIds(db, effects[..|effects| - 1])
    ensures DistinctScopes(effects) ==> DistinctScopes(effects[..|effects| - 1])
  {
  }

  lemma {:induction false} LawfulPrefix(calls: seq<Call>, db: Database, effects: seq<Effect>, n: nat)
    requires Lawful(calls, db, effects) && n <= |effects|
    ensures Lawful(calls[..n], db, effects[..n])
  {
    hide Specified, AppliedAll;
    assert forall i {:trigger effects[..n][..i]} :: 0 <= i < n ==> effects[..n][..i] == effects[..i];
  }

  lemma {:induction false} OneMoreRun(runs: map<nat, Run>, id: nat, run: Run)
    requires id !in runs
    ensures |runs[id := run]| == |runs| + 1
  {
    assert runs[id := run].Keys == runs.Keys + {id};
  }

  /** The rows `added` are new, of successes, and the only difference. */
  ghost predicate RunsAdded(before: map<nat, Run>, added: seq<Effect>, after: map<nat, Run>) {
    && AllSucceeded(after)
    && |after| == |before| + |added|
    && (forall id :: id in before ==> id in after && after[id] == before[id])
    && (forall e :: e in added ==> e.id in after && after[e.id] == e.run)
    && (forall id :: id in after && id !in before ==> exists e :: e in added && e.id == id)
  }

  lemma {:induction false} RunAdded(before: map<nat, Run>, added: seq<Effect>, runs: map<nat, Run>, e: Effect)
    requires RunsAdded(before, added, runs) && e.run.status == Success && e.id !in before
    requires forall a :: a in added ==> a.id != e.id
    ensures RunsAdded(before, added + [e], runs[e.id := e.run])
  {
    assert e.id !in runs;
    OneMoreRun(runs, e.id, e.run);
    var after := runs[e.id := e.run];
    assert e in added + [e];
    forall id | id in after && id !in before ensures exists a :: a in added + [e] && a.id == id {
      if id != e.id {
        var a :| a in added && a.id == id;
        assert a in added + [e];
      }
    }
  }

  /** Every committed sync adds exactly one audit row, that of a success; no row is ever rewritten,
      and no failed or unfinished run is ever visible. */
  lemma {:induction false} OneRowPerCommit(calls: seq<Call>, db: Database, effects: seq<Effect>)
    requires Lawful(calls, db, effects) && NewIds(db, effects) && AllSucceeded(db.runs)
    ensures RunsAdded(db.runs, effects, AppliedAll(db, effects).runs)
    decreases |effects|
  {
    hide Specified, RunsAdded, Lawful, NewIds, DistinctIds, AllSucceeded;
    if effects == [] {
      NoRunAdded(db.runs);
    } else {
      var n := |effects| - 1;
      LawfulLength(calls, db, effects);
      LawfulPrefix(calls, db, effects, n);
      DropLast(db, effects);
      LastIsNew(db, effects);
      OneRowPerCommit(calls[..n], db, effects[..n]);
      LastSucceeded(calls, db, effects);
      assert effects == effects[..n] + [effects[n]];
      RunAdded(db.runs, effects[..n], AppliedAll(db, effects[..n]).runs, effects[n]);
    }
  }

  lemma {:induction false} LawfulLength(calls: seq<Call>, db: Database, effects: seq<Effect>)
    requires Lawful(calls, db, effects)
    ensures |calls| == |effects|
  {
    hide Specified, AppliedAll;
  }

  lemma {:induction false} LastIsNew(db: Database, effects: seq<Effect>)
    requires NewIds(db, effects) && effects != []
    ensures effects[|effects| - 1].id !in db.runs
    ensures forall e :: e in effects[..|effects| - 1] ==> e.id != effects[|effects| - 1].id
  {
  }

  lemma {:induction false} NoRunAdded(runs: map<nat, Run>)
    requires AllSucceeded(runs)
    ensures RunsAdded(runs, [], runs)
  {
  }

  lemma {:induction false} LastSucceeded(calls: seq<Call>, db: Database, effects: seq<Effect>)
    requires Lawful(calls, db, effects) && effects != []
    ensures effects[|effects| - 1].run.status == Success
  {
    hide Outcome, AppliedAll;
    var n := |effects| - 1;
    assert Specified(calls[n], AppliedAll(db, effects[..n]), effects[n]);
  }

  // ----- independence of entity types -----

  lemma {:induction false} RowsMatch(effects: seq<Effect>, others: seq<Effect>)
    requires forall e :: e in effects ==> e in others
    ensures forall r :: r in TableRows(effects) ==> r in TableRows(others)
    ensures forall r :: r in RunRows(effects) ==> r in RunRows(others)
  {
    forall r | r in TableRows(effects) ensures r in TableRows(others) {
      var i :| 0 <= i < |effects| && TableRows(effects)[i] == r;
      assert effects[i] in others;
      var j :| 0 <= j < |others| && others[j] == effects[i];
      assert TableRows(others)[j] == r;
    }
    forall r | r in RunRows(effects) ensures r in RunRows(others) {
      var i :| 0 <= i < |effects| && RunRows(effects)[i] == r;
      assert effects[i] in others;
      var j :| 0 <= j < |others| && others[j] == effects[i];
      assert RunRows(others)[j] == r;
    }
  }

  lemma {:induction false} RowsDistinct(effects: seq<Effect>)
    ensures DistinctScopes(effects) ==> Distinct(KeysOf(TableRows(effects)))
    ensures DistinctIds(effects) ==> Distinct(KeysOf(RunRows(effects)))
  {
  }

  /** Syncs of different entity types commute: in whatever order their effects are applied, the
      database is the same. */
  lemma {:induction false} EffectsCommute(db: Database, effects: seq<Effect>, others: seq<Effect>)
    requires DistinctScopes(effects) && DistinctIds(effects) && DistinctScopes(others) && DistinctIds(others)
    requires forall e :: e in effects <==> e in others
    ensures AppliedAll(db, effects) == AppliedAll(db, others)
  {
    hide AppliedAll, UpsertEach, TableRows, RunRows, Distinct, DistinctScopes, DistinctIds;
    EffectsAreRows(db, effects);
    EffectsAreRows(db, others);
    RowsDistinct(effects);
    RowsDistinct(others);
    RowsMatch(effects, others);
    RowsMatch(others, effects);
    EachInAnyOrder(db.tables, TableRows(effects), TableRows(others));
    EachInAnyOrder(db.runs, RunRows(effects), RunRows(others));
  }

  lemma {:induction false} UntouchedScope(db: Database, effects: seq<Effect>, s: Scope)
    requires forall e :: e in effects ==> e.scope != s
    ensures s in AppliedAll(db, effects).tables <==> s in db.tables
    ensures s in db.tables ==> AppliedAll(db, effects).tables[s] == db.tables[s]
  {
    if effects != [] {
      UntouchedScope(db, effects[..|effects| - 1], s);
    }
  }

  /** Whether an effect is as specified depends only on the tables of its own scope. */
  lemma {:induction false} SpecifiedElsewhere(call: Call, a: Database, b: Database, e: Effect)
    requires Specified(call, a, e)
    requires StoresOf(call.kind, a, e.scope) == StoresOf(call.kind, b, e.scope)
    ensures Specified(call, b, e)
  {
    hide Outcome, EntityTable.Valid, Tables.AsStores;
  }

  lemma {:induction false} EarlierElsewhere(db: Database, effects: seq<Effect>, i: nat, kind: Kind)
    requires DistinctScopes(effects) && i < |effects|
    ensures StoresOf(kind, AppliedAll(db, effects[..i]), effects[i].scope) == StoresOf(kind, db, effects[i].scope)
  {
    hide AppliedAll, Tables.AsStores, NoRows;
    UntouchedScope(db, effects[..i], effects[i].scope);
  }

  /** A run over different entity types gives each of them what its sync alone would have given. */
  lemma {:induction false} EachAlone(calls: seq<Call>, db: Database, effects: seq<Effect>)
    requires |calls| == |effects| && DistinctScopes(effects)
    ensures Lawful(calls, db, effects) <==> forall i :: 0 <= i < |effects| ==> Specified(calls[i], db, effects[i])
  {
    hide Specified, AppliedAll, StoresOf;
    forall i | 0 <= i < |effects|
      ensures Specified(calls[i], AppliedAll(db, effects[..i]), effects[i]) <==> Specified(calls[i], db, effects[i])
    {
      var before := AppliedAll(db, effects[..i]);
      EarlierElsewhere(db, effects, i, calls[i].kind);
      if Specified(calls[i], before, effects[i]) {
        SpecifiedElsewhere(calls[i], before, db, effects[i]);
      }
      if Specified(calls[i], db, effects[i]) {
        SpecifiedElsewhere(calls[i], db, before, effects[i]);
      }
    }
  }
}
