/** The engine: every configured entity type in order, a failure in one leaving the others alone. */
module Engine {
  import opened Wrappers
  import opened Records
  import opened Connection
  import opened Database
  import opened SyncService
  import opened Effects

  /** What became of one entry of the order. */
  datatype Step = Absent | Synced(effect: Effect) | Failed(error: Error)

  function EffectsOf(steps: seq<Step>): seq<Effect> {
    if steps == [] then []
    else EffectsOf(steps[..|steps| - 1]) + match steps[|steps| - 1] case Synced(e) => [e] case _ => []
  }

  /** The database after the steps: a failure changes nothing. */
  function After(db: Database, steps: seq<Step>): Database {
    if steps == [] then db
    else
      var before := After(db, steps[..|steps| - 1]);
      match steps[|steps| - 1] case Synced(e) => Applied(before, e) case _ => before
  }

  /** `result.synced` after the steps: of an entity listed twice, the later count. */
  function SyncedOf(order: seq<string>, steps: seq<Step>): map<string, nat>
    requires |order| == |steps|
    decreases |steps|
  {
    if steps == [] then map[]
    else
      var n := |steps| - 1;
      var rest := SyncedOf(order[..n], steps[..n]);
      match steps[n] case Synced(e) => rest[order[n] := e.run.synced] case _ => rest
  }

  /** `result.errors` after the steps. */
  function ErrorsOf(order: seq<string>, steps: seq<Step>): map<string, Error>
    requires |order| == |steps|
    decreases |steps|
  {
    if steps == [] then map[]
    else
      var n := |steps| - 1;
      var rest := ErrorsOf(order[..n], steps[..n]);
      match steps[n] case Failed(e) => rest[order[n] := e] case _ => rest
  }

  /** The step is what the entity's service makes of the response on the database it finds. */
  ghost predicate StepOf(services: map<string, SyncService>, company: string, full: bool, entity: string,
                         response: Response, db: Database, step: Step) {
    match step
    case Absent => entity !in services
    case Synced(e) =>
      && entity in services && e.scope == Scope(company, entity)
      && Specified(Call(services[entity].kind, full, response), db, e)
    case Failed(error) =>
      && entity in services
      && (error == ConnectionLost ||
          Outcome(services[entity].kind, StoresOf(services[entity].kind, db, Scope(company, entity)), full, response) == Err(error))
  }

  /** A run of the engine over its order. */
  ghost predicate RunOf(services: map<string, SyncService>, company: string, full: bool, order: seq<string>,
                        responses: seq<Response>, db: Database, steps: seq<Step>) {
    && |responses| == |steps| == |order|
    && forall i :: 0 <= i < |steps| ==>
         StepOf(services, company, full, order[i], responses[i], After(db, steps[..i]), steps[i])
  }

  /** The statements of one entry of the order, at most. */
  ghost function StepStatements(services: map<string, SyncService>, company: string, full: bool, entity: string,
                                response: Response, db: Database): nat {
    if entity in services then SyncStatements(services[entity].kind, db, Scope(company, entity), full, response) else 0
  }

  /** The statements of a run, at most. */
  ghost function RunStatements(services: map<string, SyncService>, company: string, full: bool, order: seq<string>,
                               responses: seq<Response>, db: Database, steps: seq<Step>): nat
    requires |order| == |responses| == |steps|
    decreases |steps|
  {
    if steps == [] then 0
    else
      var n := |steps| - 1;
      RunStatements(services, company, full, order[..n], responses[..n], db, steps[..n]) +
      StepStatements(services, company, full, order[n], responses[n], After(db, steps[..n]))
  }

  /** No entry failed for a lost connection. */
  ghost predicate NoneLost(steps: seq<Step>) {
    forall i :: 0 <= i < |steps| ==> steps[i] != Failed(ConnectionLost)
  }

  class SyncEngine {
    const services: map<string, SyncService>
    const order: seq<string>
    const session: Session

    constructor (services: map<string, SyncService>, order: seq<string>, session: Session)
      ensures this.services == services && this.order == order && this.session == session
    {
      this.services, this.order, this.session := services, order, session;
    }

    /** Services are registered under the names of their entity types and share one database. */
    predicate Registered() {
      forall e :: e in services ==> services[e].entity == e && services[e].session == session
    }

    ghost predicate Ready(company: string, db: Database) {
      forall e :: e in services ==> InOrder(services[e].kind, Scope(company, e), db)
    }

    predicate Readable(entity: string, response: Response) {
      entity in services ==> forall x :: x in Parsed(response) ==> WellTyped(services[entity].kind, x.element.record)
    }

    /** Syncs one entity, for an event trigger. */
    method SyncEntity(company: string, entity: string, response: Response)
        returns (synced: map<string, nat>, errors: map<string, Error>, ghost step: Step)
      requires Registered() && session.Valid() && Ready(company, session.committed) && Readable(entity, response)
      modifies session, session.connection`sent
      ensures old(session.connection.sent) <= session.connection.sent <=
              old(session.connection.sent) + StepStatements(services, company, false, entity, response, old(session.committed))
      ensures session.connection.Calm(old(session.connection.sent), session.connection.sent) <==> step != Failed(ConnectionLost)
      ensures session.Valid() && Ready(company, session.committed) && session.nextRunId >= old(session.nextRunId)
      ensures step.Synced? ==> old(session.nextRunId) <= step.effect.id < session.nextRunId
      ensures StepOf(services, company, false, entity, response, old(session.committed), step)
      ensures session.committed == After(old(session.committed), [step])
      ensures synced == SyncedOf([entity], [step]) && errors == ErrorsOf([entity], [step])
    {
      hide Ready, InOrder;
      var r;
      r, step := RunStep(company, entity, false, response);
      synced, errors := map[], map[];
      match r {
        case None =>
        case Some(Ok(count)) => synced := synced[entity := count];
        case Some(Err(e)) => errors := errors[entity := e];
      }
    }

    method RunStep(company: string, entity: string, full: bool, response: Response)
        returns (r: Option<Result<nat>>, ghost step: Step)
      requires Registered() && session.Valid() && Ready(company, session.committed) && Readable(entity, response)
      modifies session, session.connection`sent
      ensures old(session.connection.sent) <= session.connection.sent <=
              old(session.connection.sent) + StepStatements(services, company, full, entity, response, old(session.committed))
      ensures session.connection.Calm(old(session.connection.sent), session.connection.sent) <==> step != Failed(ConnectionLost)
      ensures session.Valid() && Ready(company, session.committed) && session.nextRunId >= old(session.nextRunId)
      ensures StepOf(services, company, full, entity, response, old(session.committed), step)
      ensures session.committed == match step case Synced(e) => Applied(old(session.committed), e) case _ => old(session.committed)
      ensures r == match step case Absent => None case Synced(e) => Some(Ok(e.run.synced)) case Failed(e) => Some(Err(e))
      ensures step.Synced? ==> old(session.nextRunId) <= step.effect.id < session.nextRunId
    {
      hide Outcome, EntityTable.Valid, StoresOf;
      if entity !in services {
        return None, Absent;
      }
      var service := services[entity];
      ghost var before, id, scope := session.committed, session.nextRunId, Scope(company, entity);
      var result := service.Sync(company, full, response);
      match result
      case Ok(count) =>
        ghost var effect := Effect(scope, session.committed.tables[scope], id, session.committed.runs[id]);
        assert Applied(before, effect) == session.committed;
        return Some(result), Synced(effect);
      case Err(e) =>
        return Some(result), Failed(e);
    }

    /** Syncs every configured entity in order. */
    method Sync(company: string, full: bool, responses: seq<Response>)
        returns (synced: map<string, nat>, errors: map<string, Error>, ghost steps: seq<Step>)
      requires Registered() && session.Valid() && Ready(company, session.committed)
      requires |responses| == |order| && forall i :: 0 <= i < |order| ==> Readable(order[i], responses[i])
      modifies session, session.connection`sent
      ensures |steps| == |order|
      ensures old(session.connection.sent) <= session.connection.sent <=
              old(session.connection.sent) + RunStatements(services, company, full, order, responses, old(session.committed), steps)
      ensures session.connection.Calm(old(session.connection.sent), session.connection.sent) <==> NoneLost(steps)
      ensures session.Valid() && Ready(company, session.committed) && session.nextRunId >= old(session.nextRunId)
      ensures RunOf(services, company, full, order, responses, old(session.committed), steps)
      ensures session.committed == After(old(session.committed), steps)
      ensures synced == SyncedOf(order, steps) && errors == ErrorsOf(order, steps)
      ensures Numbered(old(session.nextRunId), steps, session.nextRunId)
    {
      hide Ready, InOrder, Numbered, StepOf, RunOf, Parsed, After, SyncedOf, ErrorsOf, StepStatements, RunStatements, NoneLost,
           Connection.Calm, Connection.Loses;
      synced, errors, steps := map[], map[], [];
      NothingNumbered(session.nextRunId);
      ghost var db, from := session.committed, session.connection.sent;
      CalmAtFirst(session.connection);
      NothingRun(services, company, full, order, responses, db);
      for i := 0 to |order|
        invariant session.Valid() && Ready(company, session.committed) && session.nextRunId >= old(session.nextRunId)
        invariant |steps| == i && RunOf(services, company, full, order[..i], responses[..i], db, steps)
        invariant session.committed == After(db, steps)
        invariant synced == SyncedOf(order[..i], steps) && errors == ErrorsOf(order[..i], steps)
        invariant Numbered(old(session.nextRunId), steps, session.nextRunId)
        invariant from <= session.connection.sent <= from + RunStatements(services, company, full, order[..i], responses[..i], db, steps)
        invariant session.connection.Calm(from, session.connection.sent) <==> NoneLost(steps)
      {
        ghost var id, sent := session.nextRunId, session.connection.sent;
        var r, step := RunStep(company, order[i], full, responses[i]);
        match r {
          case None =>
          case Some(Ok(count)) => synced := synced[order[i] := count];
          case Some(Err(e)) => errors := errors[order[i] := e];
        }
        RunGrows(services, company, full, order, responses, db, steps, step, i);
        NumbersGrow(old(session.nextRunId), steps, id, step, session.nextRunId);
        ReportsGrow(order, steps, step, i, db);
        StatementsGrow(services, company, full, order, responses, db, steps, step, i);
        LossesGrow(session.connection, from, sent, session.connection.sent, steps, step);
        steps := steps + [step];
      }
      assert order[..|order|] == order && responses[..|order|] == responses;
    }
  }

  /** The audit rows of the steps are numbered upwards from `from` and below `to`. */
  ghost predicate Numbered(from: nat, steps: seq<Step>, to: nat) {
    && (forall i :: 0 <= i < |steps| && steps[i].Synced? ==> from <= steps[i].effect.id < to)
    && (forall i, j :: 0 <= i < j < |steps| && steps[i].Synced? && steps[j].Synced? ==> steps[i].effect.id < steps[j].effect.id)
  }

  lemma {:induction false} NothingNumbered(from: nat)
    ensures Numbered(from, [], from)
  {
  }

  lemma {:induction false} NumbersGrow(from: nat, steps: seq<Step>, id: nat, step: Step, to: nat)
    requires Numbered(from, steps, id) && from <= id <= to
    requires step.Synced? ==> id <= step.effect.id < to
    ensures Numbered(from, steps + [step], to)
  {
  }

  lemma {:induction false} NothingRun(services: map<string, SyncService>, company: string, full: bool, order: seq<string>,
                                      responses: seq<Response>, db: Database)
    ensures RunOf(services, company, full, order[..0], responses[..0], db, [])
    ensures After(db, []) == db && SyncedOf(order[..0], []) == map[] && ErrorsOf(order[..0], []) == map[]
    ensures NoneLost([])
  {
  }

  lemma {:induction false} StatementsGrow(services: map<string, SyncService>, company: string, full: bool, order: seq<string>,
                                          responses: seq<Response>, db: Database, steps: seq<Step>, step: Step, i: nat)
    requires |steps| == i < |order| && i < |responses|
    ensures RunStatements(services, company, full, order[..i + 1], responses[..i + 1], db, steps + [step]) ==
            RunStatements(services, company, full, order[..i], responses[..i], db, steps) +
            StepStatements(services, company, full, order[i], responses[i], After(db, steps))
  {
    hide StepStatements, After;
    assert order[..i + 1][..i] == order[..i] && responses[..i + 1][..i] == responses[..i] && (steps + [step])[..i] == steps;
  }

  /** An entry more, and the statements it sent. */
  lemma {:induction false} LossesGrow(c: Connection, from: nat, before: nat, after: nat, steps: seq<Step>, step: Step)
    requires from <= before <= after
    requires c.Calm(from, before) <==> NoneLost(steps)
    requires c.Calm(before, after) <==> step != Failed(ConnectionLost)
    ensures c.Calm(from, after) <==> NoneLost(steps + [step])
  {
    var all := steps + [step];
    assert all[|steps|] == step && forall i :: 0 <= i < |steps| ==> all[i] == steps[i];
    assert c.Calm(from, after) <==> c.Calm(from, before) && c.Calm(before, after);
  }

  lemma {:induction false} ReportsGrow(order: seq<string>, steps: seq<Step>, step: Step, i: nat, db: Database)
    requires |steps| == i < |order|
    ensures After(db, steps + [step]) == match step case Synced(e) => Applied(After(db, steps), e) case _ => After(db, steps)
    ensures SyncedOf(order[..i + 1], steps + [step]) ==
            match step case Synced(e) => SyncedOf(order[..i], steps)[order[i] := e.run.synced] case _ => SyncedOf(order[..i], steps)
    ensures ErrorsOf(order[..i + 1], steps + [step]) ==
            match step case Failed(e) => ErrorsOf(order[..i], steps)[order[i] := e] case _ => ErrorsOf(order[..i], steps)
  {
    assert (steps + [step])[..i] == steps && order[..i + 1][..i] == order[..i];
  }

  lemma {:induction false} RunGrows(services: map<string, SyncService>, company: string, full: bool, order: seq<string>,
                                    responses: seq<Response>, db: Database, steps: seq<Step>, step: Step, i: nat)
    requires i < |order| && i < |responses|
    requires RunOf(services, company, full, order[..i], responses[..i], db, steps)
    requires StepOf(services, company, full, order[i], responses[i], After(db, steps), step)
    ensures RunOf(services, company, full, order[..i + 1], responses[..i + 1], db, steps + [step])
  {
    hide StepOf, After;
    assert forall j {:trigger (steps + [step])[..j]} :: 0 <= j <= i ==> (steps + [step])[..j] == steps[..j];
    assert steps[..i] == steps;
  }

  // ----- what a run of the engine means -----

  /** The run is the fold of its successful entities; failed ones act as identity. */
  lemma {:induction false} RunIsFoldOfSuccesses(db: Database, steps: seq<Step>)
    ensures After(db, steps) == AppliedAll(db, EffectsOf(steps))
  {
    if steps != [] {
      var n := |steps| - 1;
      RunIsFoldOfSuccesses(db, steps[..n]);
      var rest := EffectsOf(steps[..n]);
      match steps[n]
      case Synced(e) => assert (rest + [e])[..|rest|] == rest;
      case _ => assert rest + [] == rest;
    }
  }

  /** The calls behind the effects of a run. */
  function CallsOf(services: map<string, SyncService>, full: bool, order: seq<string>,
                   responses: seq<Response>, steps: seq<Step>): seq<Call>
    requires |order| == |responses| == |steps|
    decreases |steps|
  {
    if steps == [] then []
    else
      var n := |steps| - 1;
      CallsOf(services, full, order[..n], responses[..n], steps[..n]) +
      if steps[n].Synced? && order[n] in services then [Call(services[order[n]].kind, full, responses[n])] else []
  }

  lemma {:induction false} LawfulGrows(calls: seq<Call>, db: Database, effects: seq<Effect>, call: Call, e: Effect)
    requires Lawful(calls, db, effects) && Specified(call, AppliedAll(db, effects), e)
    ensures Lawful(calls + [call], db, effects + [e])
  {
    hide Specified, AppliedAll;
    var all := effects + [e];
    assert forall i {:trigger all[..i]} :: 0 <= i <= |effects| ==> all[..i] == effects[..i];
    assert effects[..|effects|] == effects;
  }

  lemma {:induction false} RunPrefix(services: map<string, SyncService>, company: string, full: bool, order: seq<string>,
                                     responses: seq<Response>, db: Database, steps: seq<Step>, n: nat)
    requires RunOf(services, company, full, order, responses, db, steps) && n < |steps|
    ensures RunOf(services, company, full, order[..n], responses[..n], db, steps[..n])
    ensures StepOf(services, company, full, order[n], responses[n], After(db, steps[..n]), steps[n])
  {
    hide StepOf, After;
    assert forall j {:trigger steps[..n][..j]} :: 0 <= j < n ==> steps[..n][..j] == steps[..j];
  }

  /** A run of the engine is a lawful run of its successful syncs, so all that Effects says of those
      holds of it: one audit row each, and no trace of the failures. */
  lemma {:induction false} RunIsLawful(services: map<string, SyncService>, company: string, full: bool, order: seq<string>,
                                       responses: seq<Response>, db: Database, steps: seq<Step>)
    requires RunOf(services, company, full, order, responses, db, steps)
    ensures |order| == |responses| == |steps|
    ensures Lawful(CallsOf(services, full, order, responses, steps), db, EffectsOf(steps))
    decreases |steps|
  {
    if steps != [] {
      var n := |steps| - 1;
      RunPrefix(services, company, full, order, responses, db, steps, n);
      RunIsLawful(services, company, full, order[..n], responses[..n], db, steps[..n]);
      RunIsFoldOfSuccesses(db, steps[..n]);
      hide RunOf, Lawful, Specified, After, AppliedAll, Outcome, StoresOf;
      var calls, rest := CallsOf(services, full, order[..n], responses[..n], steps[..n]), EffectsOf(steps[..n]);
      match steps[n]
      case Synced(e) =>
        LawfulGrows(calls, db, rest, Call(services[order[n]].kind, full, responses[n]), e);
      case _ =>
        assert rest + [] == rest && calls + [] == calls;
    }
  }

  lemma {:induction false} EffectsComeFromSteps(steps: seq<Step>, e: Effect)
    requires e in EffectsOf(steps)
    ensures exists i :: 0 <= i < |steps| && steps[i] == Synced(e)
  {
    var n := |steps| - 1;
    if e in EffectsOf(steps[..n]) {
      EffectsComeFromSteps(steps[..n], e);
      var i :| 0 <= i < n && steps[..n][i] == Synced(e);
      assert steps[i] == Synced(e);
    }
  }

  ghost predicate NoRepeats(order: seq<string>) {
    forall i, j :: 0 <= i < j < |order| ==> order[i] != order[j]
  }

  /** For an order without repetition, `synced` and `errors` report exactly one outcome for each entity
      that has a service, and each count is that of the entity's audit row. */
  lemma {:induction false} ReportsCoverTheOrder(services: map<string, SyncService>, company: string, full: bool,
                                                order: seq<string>, responses: seq<Response>, db: Database, steps: seq<Step>)
    requires RunOf(services, company, full, order, responses, db, steps) && NoRepeats(order)
    ensures Reported(services, order, steps, SyncedOf(order, steps), ErrorsOf(order, steps))
    decreases |steps|
  {
    if steps == [] {
      NothingReported(services);
    } else {
      hide Specified, After, Outcome, StoresOf, RunOf, Reported, Covered, Told, NoRepeats;
      var n := |steps| - 1;
      RunPrefix(services, company, full, order, responses, db, steps, n);
      NoRepeatsPrefix(order, n);
      ReportsCoverTheOrder(services, company, full, order[..n], responses[..n], db, steps[..n]);
      ReportOne(services, order, steps, SyncedOf(order[..n], steps[..n]), ErrorsOf(order[..n], steps[..n]));
    }
  }

  /** The two dictionaries are apart and cover the entities of the order that have a service. */
  ghost predicate Covered(services: map<string, SyncService>, order: seq<string>,
                          synced: map<string, nat>, errors: map<string, Error>) {
    && synced.Keys !! errors.Keys
    && forall e :: e in synced.Keys + errors.Keys <==> e in order && e in services
  }

  /** They say what happened. */
  ghost predicate Told(order: seq<string>, steps: seq<Step>, synced: map<string, nat>, errors: map<string, Error>) {
    && |order| == |steps|
    && (forall i :: 0 <= i < |order| && steps[i].Synced? ==>
          order[i] in synced && synced[order[i]] == steps[i].effect.run.synced)
    && (forall i :: 0 <= i < |order| && steps[i].Failed? ==> order[i] in errors && errors[order[i]] == steps[i].error)
  }

  ghost predicate Reported(services: map<string, SyncService>, order: seq<string>, steps: seq<Step>,
                           synced: map<string, nat>, errors: map<string, Error>) {
    Covered(services, order, synced, errors) && Told(order, steps, synced, errors)
  }

  lemma {:induction false} NothingReported(services: map<string, SyncService>)
    ensures Reported(services, [], [], map[], map[])
  {
  }

  lemma {:induction false} NoRepeatsPrefix(order: seq<string>, n: nat)
    requires NoRepeats(order) && n < |order|
    ensures NoRepeats(order[..n]) && order[n] !in order[..n]
  {
  }

  lemma {:induction false} ReportOne(services: map<string, SyncService>, order: seq<string>, steps: seq<Step>,
                                     synced: map<string, nat>, errors: map<string, Error>)
    requires |order| == |steps| > 0
    requires var n := |steps| - 1; Reported(services, order[..n], steps[..n], synced, errors) && order[n] !in order[..n]
    requires order[|steps| - 1] in services <==> !steps[|steps| - 1].Absent?
    ensures var n := |steps| - 1;
            match steps[n]
            case Absent => Reported(services, order, steps, synced, errors)
            case Synced(e) => Reported(services, order, steps, synced[order[n] := e.run.synced], errors)
            case Failed(e) => Reported(services, order, steps, synced, errors[order[n] := e])
  {
    hide Covered, Told;
    var n := |steps| - 1;
    var entity := order[n];
    assert order == order[..n] + [entity] && steps == steps[..n] + [steps[n]];
    CoverOne(services, order[..n], entity, steps[n], synced, errors);
    TellOne(order[..n], steps[..n], entity, steps[n], synced, errors);
  }

  lemma {:induction false} CoverOne(services: map<string, SyncService>, order: seq<string>, entity: string, step: Step,
                                    synced: map<string, nat>, errors: map<string, Error>)
    requires Covered(services, order, synced, errors) && entity !in order
    requires entity in services <==> !step.Absent?
    ensures match step
            case Absent => Covered(services, order + [entity], synced, errors)
            case Synced(e) => Covered(services, order + [entity], synced[entity := e.run.synced], errors)
            case Failed(e) => Covered(services, order + [entity], synced, errors[entity := e])
  {
    assert entity !in synced.Keys + errors.Keys;
  }

  lemma {:induction false} TellOne(order: seq<string>, steps: seq<Step>, entity: string, step: Step,
                                   synced: map<string, nat>, errors: map<string, Error>)
    requires Told(order, steps, synced, errors) && entity !in order
    ensures match step
            case Absent => Told(order + [entity], steps + [step], synced, errors)
            case Synced(e) => Told(order + [entity], steps + [step], synced[entity := e.run.synced], errors)
            case Failed(e) => Told(order + [entity], steps + [step], synced, errors[entity := e])
  {
    assert forall i :: 0 <= i < |order| ==> order[i] != entity;
  }

  lemma {:induction false} StepsAreScoped(services: map<string, SyncService>, company: string, full: bool, order: seq<string>,
                                          responses: seq<Response>, db: Database, steps: seq<Step>)
    requires RunOf(services, company, full, order, responses, db, steps)
    ensures forall i :: 0 <= i < |steps| && steps[i].Synced? ==> steps[i].effect.scope == Scope(company, order[i])
  {
    hide Specified, After, Outcome, StoresOf;
    assert forall i :: 0 <= i < |steps| ==>
        StepOf(services, company, full, order[i], responses[i], After(db, steps[..i]), steps[i]);
  }

  lemma {:induction false} ScopesDiffer(company: string, order: seq<string>, steps: seq<Step>)
    requires |order| == |steps| && NoRepeats(order)
    requires forall i :: 0 <= i < |steps| && steps[i].Synced? ==> steps[i].effect.scope == Scope(company, order[i])
    ensures DistinctScopes(EffectsOf(steps))
    decreases |steps|
  {
    if steps != [] {
      var n := |steps| - 1;
      ScopesDiffer(company, order[..n], steps[..n]);
      var rest := EffectsOf(steps[..n]);
      forall e | e in rest ensures steps[n].Synced? ==> e.scope != steps[n].effect.scope {
        EffectsComeFromSteps(steps[..n], e);
        var i :| 0 <= i < n && steps[..n][i] == Synced(e);
        assert steps[i].effect == e && order[i] != order[n];
      }
    }
  }

  /** For an order without repetition, each successful entity of a run ends with what its sync alone
      would have left, whatever the others did and whichever of them failed. */
  lemma {:induction false} EntitiesAreIndependent(services: map<string, SyncService>, company: string, full: bool,
                                                  order: seq<string>, responses: seq<Response>, db: Database, steps: seq<Step>)
    requires RunOf(services, company, full, order, responses, db, steps) && NoRepeats(order)
    ensures |order| == |responses| == |steps| && DistinctScopes(EffectsOf(steps))
    ensures var calls, effects := CallsOf(services, full, order, responses, steps), EffectsOf(steps);
            && |calls| == |effects|
            && After(db, steps) == AppliedAll(db, effects)
            && forall i :: 0 <= i < |effects| ==> Specified(calls[i], db, effects[i])
  {
    hide StepOf, Specified, After, AppliedAll, EffectsOf, CallsOf, DistinctScopes, NoRepeats;
    RunIsLawful(services, company, full, order, responses, db, steps);
    RunIsFoldOfSuccesses(db, steps);
    StepsAreScoped(services, company, full, order, responses, db, steps);
    ScopesDiffer(company, order, steps);
    EachAlone(CallsOf(services, full, order, responses, steps), db, EffectsOf(steps));
  }

  lemma {:induction false} IdsAreNew(db: Database, steps: seq<Step>, from: nat, to: nat)
    requires Numbered(from, steps, to) && forall id :: id in db.runs ==> id < from
    ensures NewIds(db, EffectsOf(steps))
  {
    if steps != [] {
      var n := |steps| - 1;
      IdsAreNew(db, steps[..n], from, to);
      var rest := EffectsOf(steps[..n]);
      forall e | e in rest ensures e.id !in db.runs && (steps[n].Synced? ==> e.id < steps[n].effect.id) {
        EffectsComeFromSteps(steps[..n], e);
        var i :| 0 <= i < n && steps[..n][i] == Synced(e);
        assert steps[i].effect == e;
      }
    }
  }

  /** A run of the engine over a database of finished runs adds one finished row for each success
      and none for a failure. */
  lemma {:induction false} RunAddsOneRowPerSuccess(services: map<string, SyncService>, company: string, full: bool,
                                                   order: seq<string>, responses: seq<Response>, db: Database,
                                                   steps: seq<Step>, from: nat, to: nat)
    requires RunOf(services, company, full, order, responses, db, steps) && Numbered(from, steps, to)
    requires AllSucceeded(db.runs) && forall id :: id in db.runs ==> id < from
    ensures RunsAdded(db.runs, EffectsOf(steps), After(db, steps).runs)
  {
    hide RunOf, Lawful, NewIds, EffectsOf, After, AppliedAll, RunsAdded, Numbered, CallsOf;
    RunIsLawful(services, company, full, order, responses, db, steps);
    RunIsFoldOfSuccesses(db, steps);
    IdsAreNew(db, steps, from, to);
    OneRowPerCommit(CallsOf(services, full, order, responses, steps), db, EffectsOf(steps));
  }
}
