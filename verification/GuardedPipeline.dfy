/** The execution chokepoint: gates in a fixed order, then the executor, then one envelope. */
module GuardedPipeline {
  import opened Common
  import opened FailureMessages

  datatype Exc =
    | Bound(which: string)                                                      // `_ResourceLimit`
    | ExecutorError(code: int, text: string, sqlstate: Option<Sqlstate>)
    | AnyOther
    | Exit                                                                      // `SystemExit` and the like

  datatype Out<+T> = Got(value: T) | Raised(exc: Exc)

  datatype Refusal = Refusal(rule: string, detail: string, remediation: string)

  datatype Rows = Rows(cells: seq<string>, truncated: bool, identity: Option<string>, queryId: Option<string>)

  /** What the receipt is built from. */
  datatype Receipt = BeforeModel | Built(bounded: bool, sql: string, model: Option<string>, passDisabled: bool)

  datatype Status = Ok | Refused | Failed

  datatype Envelope = Envelope(status: Status, data: Option<Rows>, refusal: Option<Refusal>,
                               failure: Option<Failure>, receipt: Receipt)
  {
    /** Each payload is present exactly for its own status. */
    predicate Valid() {
      && (data.Some? <==> status == Ok)
      && (refusal.Some? <==> status == Refused)
      && (failure.Some? <==> status == Failed)
    }
  }

  datatype Creds = Creds(engine: Option<string>, dsn: string, searchPath: seq<string>)

  /** The pass may publish a model and a statement shape before it answers. */
  datatype Pass = Pass(answer: Out<(string, Option<Refusal>)>, model: Option<string>, shape: Option<string>)

  /** Everything the call asks of the outside, with the answer each would give or raise. */
  datatype World = World(
    hosted: bool,
    governed: bool,
    audit: Out<bool>,
    readOnly: Out<Option<Refusal>>,
    recon: Out<Option<Refusal>>,
    catalogQuery: Out<bool>,
    pass: bool -> Pass,
    credentials: Out<Creds>,
    mismatch: Creds -> Out<Option<Refusal>>,
    foreignCatalog: (string, Creds) -> Out<Option<Refusal>>,
    schemas: Option<string> -> seq<string>,
    usesSearchPath: Creds -> bool,
    executor: (string, Creds) -> Out<Option<Rows>>,
    firstLine: (string, Option<Sqlstate>) -> Option<string>,
    boundRefusal: string -> Refusal,              // by which time bound fired
    capRefusal: Option<string> -> Out<Refusal>,   // the row cap, by statement shape
    wantsCliDetail: bool)

  datatype Request = Request(sql: string, noSafety: bool, buildProfile: bool)

  const AUDIT_REFUSAL := Refusal("audit_unavailable",
    "the audit store is not reachable, so this call cannot be recorded",
    "Restore the audit database, then run the statement again.")

  const PRE_MODEL_RULES := {"read_only", "recon", "audit_unavailable", "datasource_required", "stale_model",
                            "example_required"}

  datatype Gate = Audit | ReadOnly | Recon | ModelPass | EngineMatch

  /** What the call does, in order. */
  datatype Mark = Passed(gate: Gate) | Ran(sql: string, creds: Creds)

  /** The context variables a call leaves behind. */
  datatype Carriers = Carriers(detail: Option<string>, cliDetail: Option<string>, identity: Option<string>,
                               queryId: Option<string>, outcome: Option<string>, model: Option<string>,
                               shape: Option<string>, posture: Option<bool>)

  // ---------------------------------------------------------------------------
  // Envelopes

  predicate PassDisabled(w: World) { w.hosted && !w.governed }

  function ReceiptFor(w: World, sql: string, bounded: bool, model: Option<string>): Receipt {
    Built(bounded, sql, model, PassDisabled(w))
  }

  function RefusalReceipt(w: World, r: Refusal, received: string, model: Option<string>): Receipt {
    if r.rule in PRE_MODEL_RULES then BeforeModel else ReceiptFor(w, received, true, model)
  }

  function RefusedEnvelope(w: World, r: Refusal, received: string, model: Option<string>): Envelope {
    Envelope(Refused, None, Some(r), None, RefusalReceipt(w, r, received, model))
  }

  function BoundEnvelope(w: World, r: Refusal, received: string, model: Option<string>): Envelope {
    Envelope(Refused, None, Some(r), None, ReceiptFor(w, received, true, model))
  }

  function FailedEnvelope(w: World, f: Failure, received: string, model: Option<string>): Envelope {
    Envelope(Failed, None, None, Some(f), ReceiptFor(w, received, true, model))
  }

  function OkEnvelope(w: World, rows: Rows, ran: string, model: Option<string>): Envelope {
    Envelope(Ok, Some(rows), None, None, ReceiptFor(w, ran, false, model))
  }

  // ---------------------------------------------------------------------------
  // The call as a function of the world and the request alone

  /** How the guarded block ends, with the carriers and the engine known by then. */
  datatype Ending = Ending(answer: Out<Envelope>, c: Carriers, engine: Option<string>, trail: seq<Mark>)

  function Cleared(w: World): Carriers {
    Carriers(None, None, None, None, None, None, None, Some(PassDisabled(w)))
  }

  predicate BuildProfile(w: World, q: Request) { q.buildProfile && !w.hosted }

  function Block(w: World, q: Request): Ending {
    var c := Cleared(w);
    match w.audit
    case Raised(x) => Ending(Raised(x), c, None, [])
    case Got(up) =>
      if !up then Ending(Got(RefusedEnvelope(w, AUDIT_REFUSAL, q.sql, None)), c, None, [])
      else AfterAudit(w, q, c, [Passed(Audit)])
  }

  function AfterAudit(w: World, q: Request, c: Carriers, trail: seq<Mark>): Ending {
    match w.readOnly
    case Raised(x) => Ending(Raised(x), c, None, trail)
    case Got(Some(r)) => Ending(Got(RefusedEnvelope(w, r, q.sql, c.model)), c, None, trail)
    case Got(None) => AfterReadOnly(w, q, c, trail + [Passed(ReadOnly)])
  }

  function AfterReadOnly(w: World, q: Request, c: Carriers, trail: seq<Mark>): Ending {
    match w.recon
    case Raised(x) => Ending(Raised(x), c, None, trail)
    case Got(None) => AfterRecon(w, q, c, trail + [Passed(Recon)])
    case Got(Some(r)) =>
      if !BuildProfile(w, q) then Ending(Got(RefusedEnvelope(w, r, q.sql, c.model)), c, None, trail)
      else
        match w.catalogQuery
        case Raised(x) => Ending(Raised(x), c, None, trail)
        case Got(ours) =>
          if ours then AfterRecon(w, q, c, trail + [Passed(Recon)])
          else Ending(Got(RefusedEnvelope(w, r, q.sql, c.model)), c, None, trail)
  }

  function AfterRecon(w: World, q: Request, c: Carriers, trail: seq<Mark>): Ending {
    if q.noSafety then AfterPass(w, q, q.sql, c, trail)
    else
      var pass := w.pass(BuildProfile(w, q));
      var c2 := c.(model := pass.model, shape := pass.shape);
      match pass.answer
      case Raised(x) => Ending(Raised(x), c2, None, trail)
      case Got((_, Some(r))) => Ending(Got(RefusedEnvelope(w, r, q.sql, c2.model)), c2, None, trail)
      case Got((sql, None)) => AfterPass(w, q, sql, c2, trail + [Passed(ModelPass)])
  }

  function AfterPass(w: World, q: Request, sql: string, c: Carriers, trail: seq<Mark>): Ending {
    match w.credentials
    case Raised(x) => Ending(Raised(x), c, None, trail)
    case Got(creds) =>
      if q.noSafety || PassDisabled(w) then Execute(w, q, sql, creds, c, trail)
      else
        match EngineFinding(w, sql, creds)
        case Raised(x) => Ending(Raised(x), c, creds.engine, trail)
        case Got(Some(r)) => Ending(Got(RefusedEnvelope(w, r, q.sql, c.model)), c, creds.engine, trail)
        case Got(None) => Execute(w, q, sql, creds, c, trail + [Passed(EngineMatch)])
  }

  /** `_engine_mismatch(…) or _foreign_catalog(…)` */
  function EngineFinding(w: World, sql: string, creds: Creds): Out<Option<Refusal>> {
    match w.mismatch(creds)
    case Got(None) => w.foreignCatalog(sql, creds)
    case found => found
  }

  function WithSearchPath(w: World, creds: Creds, model: Option<string>): Creds {
    if w.schemas(model) != [] && w.usesSearchPath(creds) then creds.(searchPath := w.schemas(model)) else creds
  }

  function Execute(w: World, q: Request, sql: string, creds: Creds, c: Carriers, trail: seq<Mark>): Ending {
    var used := WithSearchPath(w, creds, c.model);
    var trail2 := trail + [Ran(sql, used)];
    match w.executor(sql, used)
    case Raised(x) => Ending(Raised(x), c, creds.engine, trail2)
    case Got(None) => Ending(Raised(AnyOther), c, creds.engine, trail2)
    case Got(Some(rows)) =>
      var c2 := c.(identity := if rows.identity.Some? then rows.identity else c.identity,
                   queryId := if rows.queryId.Some? then rows.queryId else c.queryId);
      if !rows.truncated then Ending(Got(OkEnvelope(w, rows, sql, c.model)), c2, creds.engine, trail2)
      else
        match w.capRefusal(c.shape)
        case Raised(x) => Ending(Raised(x), c2, creds.engine, trail2)
        case Got(r) => Ending(Got(BoundEnvelope(w, r, q.sql, c.model)), c2, creds.engine, trail2)
  }

  /** The handlers around the block. */
  function Handled(t: Sentences, r: Reader, w: World, q: Request, e: Ending): Ending {
    if e.answer.Got? then e
    else match e.answer.exc
      case Exit => e
      case AnyOther => e.(answer := Got(FailedEnvelope(w, Failure(Other, t.unexpected), q.sql, e.c.model)))
      case Bound(which) => e.(answer := Got(BoundEnvelope(w, w.boundRefusal(which), q.sql, e.c.model)))
      case ExecutorError(code, text, sqlstate) =>
        var failure := FailureFor(t, r, e.engine, code, text, sqlstate);
        var c := if Authored(code) then e.c
                 else e.c.(detail := Some(text),
                           cliDetail := if code != 11 && w.wantsCliDetail then w.firstLine(text, sqlstate)
                             else e.c.cliDetail);
        e.(answer := Got(FailedEnvelope(w, failure, q.sql, e.c.model)), c := c)
  }

  function Guarded(t: Sentences, r: Reader, w: World, q: Request): Ending {
    Handled(t, r, w, q, Block(w, q))
  }

  // ---------------------------------------------------------------------------
  // The chokepoint

  class Chokepoint {
    var detail: Option<string>
    var cliDetail: Option<string>
    var identity: Option<string>
    var queryId: Option<string>
    var outcome: Option<string>
    var model: Option<string>
    var shape: Option<string>
    var posture: Option<bool>
    ghost var trail: seq<Mark>

    constructor ()
    {
      detail, cliDetail, identity, queryId, outcome, model, shape, posture :=
        None, None, None, None, None, None, None, None;
      trail := [];
    }

    function State(): Carriers
      reads this
    {
      Carriers(detail, cliDetail, identity, queryId, outcome, model, shape, posture)
    }

    /** Whatever an earlier call in this context left behind is gone. */
    method Clear(w: World)
      modifies this
      ensures State() == Cleared(w) && trail == []
    {
      detail, cliDetail, identity, queryId, outcome, model, shape := None, None, None, None, None, None, None;
      posture := Some(PassDisabled(w));
      trail := [];
    }

    /** **The answer, the carriers left behind and the steps taken depend on the world and the request
        alone**: not on what the carriers held before the call. */
    method ExecuteGuarded(t: Sentences, r: Reader, w: World, q: Request) returns (a: Out<Envelope>)
      modifies this
      ensures var e := Guarded(t, r, w, q); a == e.answer && State() == e.c && trail == e.trail
    {
      Clear(w);
      var done, engine := RunBlock(w, q);
      match done
      case Got(e) => a := done;
      case Raised(Exit) => a := done;
      case Raised(AnyOther) => a := Got(FailedEnvelope(w, Failure(Other, t.unexpected), q.sql, model));
      case Raised(Bound(which)) => a := Got(BoundEnvelope(w, w.boundRefusal(which), q.sql, model));
      case Raised(ExecutorError(code, text, sqlstate)) =>
        if !Authored(code) {
          detail := Some(text);
          if code != 11 && w.wantsCliDetail {
            cliDetail := w.firstLine(text, sqlstate);
          }
        }
        a := Got(FailedEnvelope(w, FailureFor(t, r, engine, code, text, sqlstate), q.sql, model));
    }

    /** The guarded block: the audit store, then the two gates no flag waives. */
    method RunBlock(w: World, q: Request) returns (a: Out<Envelope>, engine: Option<string>)
      requires State() == Cleared(w) && trail == []
      modifies this
      ensures var e := Block(w, q); a == e.answer && engine == e.engine && State() == e.c && trail == e.trail
    {
      hide AfterReadOnly;
      engine := None;
      if w.audit.Raised? {
        return Raised(w.audit.exc), engine;
      }
      if !w.audit.value {
        return Got(RefusedEnvelope(w, AUDIT_REFUSAL, q.sql, None)), engine;
      }
      trail := [Passed(Audit)];
      if w.readOnly.Raised? {
        return Raised(w.readOnly.exc), engine;
      }
      if w.readOnly.value.Some? {
        return Got(RefusedEnvelope(w, w.readOnly.value.value, q.sql, model)), engine;
      }
      trail := trail + [Passed(ReadOnly)];
      a, engine := RunRecon(w, q);
    }

    method RunRecon(w: World, q: Request) returns (a: Out<Envelope>, engine: Option<string>)
      modifies this
      ensures var e := AfterReadOnly(w, q, old(State()), old(trail));
              a == e.answer && engine == e.engine && State() == e.c && trail == e.trail
    {
      hide AfterRecon;
      engine := None;
      if w.recon.Raised? {
        return Raised(w.recon.exc), engine;
      }
      if w.recon.value.Some? {
        if !(q.buildProfile && !w.hosted) {
          return Got(RefusedEnvelope(w, w.recon.value.value, q.sql, model)), engine;
        }
        if w.catalogQuery.Raised? {
          return Raised(w.catalogQuery.exc), engine;
        }
        if !w.catalogQuery.value {
          return Got(RefusedEnvelope(w, w.recon.value.value, q.sql, model)), engine;
        }
      }
      trail := trail + [Passed(Recon)];
      a, engine := RunModelPass(w, q);
    }

    method RunModelPass(w: World, q: Request) returns (a: Out<Envelope>, engine: Option<string>)
      modifies this
      ensures var e := AfterRecon(w, q, old(State()), old(trail));
              a == e.answer && engine == e.engine && State() == e.c && trail == e.trail
    {
      hide AfterPass;
      engine := None;
      var sql := q.sql;
      if !q.noSafety {
        var pass := w.pass(BuildProfile(w, q));
        model, shape := pass.model, pass.shape;
        if pass.answer.Raised? {
          return Raised(pass.answer.exc), engine;
        }
        sql := pass.answer.value.0;
        if pass.answer.value.1.Some? {
          return Got(RefusedEnvelope(w, pass.answer.value.1.value, q.sql, model)), engine;
        }
        trail := trail + [Passed(ModelPass)];
      }
      a, engine := RunCredentials(w, q, sql);
    }

    method RunCredentials(w: World, q: Request, sql: string) returns (a: Out<Envelope>, engine: Option<string>)
      modifies this
      ensures var e := AfterPass(w, q, sql, old(State()), old(trail));
              a == e.answer && engine == e.engine && State() == e.c && trail == e.trail
    {
      hide Execute, EngineFinding;
      engine := None;
      if w.credentials.Raised? {
        return Raised(w.credentials.exc), engine;
      }
      var creds := w.credentials.value;
      engine := creds.engine;
      if !q.noSafety && !PassDisabled(w) {
        var found := EngineFinding(w, sql, creds);
        if found.Raised? {
          return Raised(found.exc), engine;
        }
        if found.value.Some? {
          return Got(RefusedEnvelope(w, found.value.value, q.sql, model)), engine;
        }
        trail := trail + [Passed(EngineMatch)];
      }
      a := RunVetted(w, q, sql, creds);
    }

    method RunVetted(w: World, q: Request, sql: string, creds: Creds) returns (a: Out<Envelope>)
      modifies this
      ensures var e := Execute(w, q, sql, creds, old(State()), old(trail));
              a == e.answer && e.engine == creds.engine && State() == e.c && trail == e.trail
    {
      var used := creds;
      if w.schemas(model) != [] && w.usesSearchPath(creds) {
        used := creds.(searchPath := w.schemas(model));
      }
      trail := trail + [Ran(sql, used)];
      var ran := w.executor(sql, used);
      if ran.Raised? {
        return Raised(ran.exc);
      }
      if ran.value.None? {
        return Raised(AnyOther);
      }
      var rows := ran.value.value;
      if rows.identity.Some? {
        identity := rows.identity;
      }
      if rows.queryId.Some? {
        queryId := rows.queryId;
      }
      if !rows.truncated {
        return Got(OkEnvelope(w, rows, sql, model));
      }
      var capped := w.capRefusal(shape);
      if capped.Raised? {
        return Raised(capped.exc);
      }
      a := Got(BoundEnvelope(w, capped.value, q.sql, model));
    }
  }

  // ---------------------------------------------------------------------------
  // Main results

  /** The gates a request must pass, in order. */
  function Gates(w: World, q: Request): seq<Mark> {
    [Passed(Audit), Passed(ReadOnly), Passed(Recon)]
    + (if q.noSafety then [] else [Passed(ModelPass)])
    + (if q.noSafety || PassDisabled(w) then [] else [Passed(EngineMatch)])
  }

  predicate RanAtAll(trail: seq<Mark>) {
    exists k :: 0 <= k < |trail| && trail[k].Ran?
  }

  /** **Exactly one envelope on every path, with its own payload and no other**; only what is no
      `Exception` escapes. */
  lemma Total(t: Sentences, r: Reader, w: World, q: Request)
    ensures var a := Guarded(t, r, w, q).answer; if a.Got? then a.value.Valid() else a.exc == Exit
  {
  }

  /** The statement the executor may be given. */
  function Vetted(w: World, q: Request): string {
    if q.noSafety || w.pass(BuildProfile(w, q)).answer.Raised? then q.sql else w.pass(BuildProfile(w, q)).answer.value.0
  }

  predicate GaveRows(w: World, ran: Mark) {
    ran.Ran? && w.executor(ran.sql, ran.creds).Got? && w.executor(ran.sql, ran.creds).value.Some?
    && !w.executor(ran.sql, ran.creds).value.value.truncated
  }

  predicate IsOk(e: Ending) { e.answer.Got? && e.answer.value.status == Ok }

  /** The executor ran last, behind all its gates, and the answer is `ok` exactly when it gave rows; or
      it did not run and the answer is not `ok`. */
  predicate Orderly(w: World, q: Request, e: Ending) {
    if RanAtAll(e.trail) then
      && |e.trail| == |Gates(w, q)| + 1 && e.trail[..|Gates(w, q)|] == Gates(w, q)
      && var ran := e.trail[|Gates(w, q)|];
         && ran.Ran? && ran.sql == Vetted(w, q)
         && (IsOk(e) <==> GaveRows(w, ran))
         && (IsOk(e) ==> e.answer.value.data == w.executor(ran.sql, ran.creds).value
                         && e.answer.value.receipt == ReceiptFor(w, ran.sql, false, e.c.model))
    else !IsOk(e)
  }

  predicate NoRun(trail: seq<Mark>) {
    forall k :: 0 <= k < |trail| ==> !trail[k].Ran?
  }

  lemma ExecuteOrderly(w: World, q: Request, creds: Creds, c: Carriers)
    ensures Orderly(w, q, Execute(w, q, Vetted(w, q), creds, c, Gates(w, q)))
  {
    var e := Execute(w, q, Vetted(w, q), creds, c, Gates(w, q));
    assert e.trail == Gates(w, q) + [Ran(Vetted(w, q), WithSearchPath(w, creds, c.model))];
    assert e.trail[|Gates(w, q)|].Ran?;
  }

  lemma PassOrderly(w: World, q: Request, c: Carriers, trail: seq<Mark>)
    requires NoRun(trail)
    requires trail == [Passed(Audit), Passed(ReadOnly), Passed(Recon)]
             + (if q.noSafety then [] else [Passed(ModelPass)])
    ensures Orderly(w, q, AfterPass(w, q, Vetted(w, q), c, trail))
  {
    hide Execute, EngineFinding, Vetted;
    if w.credentials.Got? {
      assert q.noSafety || PassDisabled(w) ==> trail == Gates(w, q);
      assert !(q.noSafety || PassDisabled(w)) ==> trail + [Passed(EngineMatch)] == Gates(w, q);
      ExecuteOrderly(w, q, w.credentials.value, c);
    }
  }

  lemma ReconOrderly(w: World, q: Request, c: Carriers, trail: seq<Mark>)
    requires trail == [Passed(Audit), Passed(ReadOnly), Passed(Recon)]
    ensures Orderly(w, q, AfterRecon(w, q, c, trail))
  {
    hide AfterPass, Gates;
    assert NoRun(trail);
    if q.noSafety {
      assert trail + [] == trail;
      PassOrderly(w, q, c, trail);
    } else {
      var pass := w.pass(BuildProfile(w, q));
      PassOrderly(w, q, c.(model := pass.model, shape := pass.shape), trail + [Passed(ModelPass)]);
    }
  }

  lemma BlockOrderly(w: World, q: Request)
    ensures Orderly(w, q, Block(w, q))
  {
    hide AfterRecon, Gates, Vetted;
    var trail := [Passed(Audit)] + [Passed(ReadOnly)] + [Passed(Recon)];
    assert trail == [Passed(Audit), Passed(ReadOnly), Passed(Recon)];
    ReconOrderly(w, q, Cleared(w), trail);
  }

  lemma HandledOrderly(t: Sentences, r: Reader, w: World, q: Request)
    ensures Orderly(w, q, Guarded(t, r, w, q)) && Guarded(t, r, w, q).trail == Block(w, q).trail
  {
    hide Block, Gates, Vetted, FailureFor;
    BlockOrderly(w, q);
  }

  // What the gates answered

  predicate ModelClear(w: World, q: Request) {
    q.noSafety || (w.pass(BuildProfile(w, q)).answer.Got? && w.pass(BuildProfile(w, q)).answer.value.1.None?)
  }

  predicate EngineClear(w: World, q: Request, sql: string) {
    && w.credentials.Got?
    && (q.noSafety || PassDisabled(w) || EngineFinding(w, sql, w.credentials.value) == Got(None))
  }

  /** Every gate that applies to the request passes it. */
  predicate AllClear(w: World, q: Request) {
    && w.audit == Got(true)
    && w.readOnly == Got(None)
    && (w.recon == Got(None) || (w.recon.Got? && BuildProfile(w, q) && w.catalogQuery == Got(true)))
    && ModelClear(w, q)
    && EngineClear(w, q, Vetted(w, q))
  }

  /** The model the pass published. */
  function ModelOf(w: World, q: Request): Option<string> {
    if q.noSafety then None else w.pass(BuildProfile(w, q)).model
  }

  predicate EndsIn(trail: seq<Mark>, m: Mark) { trail != [] && trail[|trail| - 1] == m }

  lemma PassRuns(w: World, q: Request, sql: string, c: Carriers, trail: seq<Mark>)
    requires NoRun(trail)
    ensures var after := AfterPass(w, q, sql, c, trail).trail;
            && (RanAtAll(after) <==> EngineClear(w, q, sql))
            && (RanAtAll(after) ==> EndsIn(after, Ran(sql, WithSearchPath(w, w.credentials.value, c.model))))
  {
    hide EngineFinding, WithSearchPath;
    if EngineClear(w, q, sql) {
      var after := AfterPass(w, q, sql, c, trail).trail;
      assert after[|after| - 1].Ran?;
    }
  }

  lemma ReconRuns(w: World, q: Request, c: Carriers, trail: seq<Mark>)
    requires NoRun(trail) && c.model == None
    ensures var after := AfterRecon(w, q, c, trail).trail;
            && (RanAtAll(after) <==> ModelClear(w, q) && EngineClear(w, q, Vetted(w, q)))
            && (RanAtAll(after) ==>
                  EndsIn(after, Ran(Vetted(w, q), WithSearchPath(w, w.credentials.value, ModelOf(w, q)))))
  {
    hide AfterPass, EngineClear, WithSearchPath, EndsIn;
    if q.noSafety {
      PassRuns(w, q, q.sql, c, trail);
    } else if w.pass(BuildProfile(w, q)).answer.Got? {
      var pass := w.pass(BuildProfile(w, q));
      PassRuns(w, q, pass.answer.value.0, c.(model := pass.model, shape := pass.shape), trail + [Passed(ModelPass)]);
    }
  }

  lemma BlockRuns(w: World, q: Request)
    ensures var trail := Block(w, q).trail;
            && (RanAtAll(trail) <==> AllClear(w, q))
            && (RanAtAll(trail) ==>
                  EndsIn(trail, Ran(Vetted(w, q), WithSearchPath(w, w.credentials.value, ModelOf(w, q)))))
  {
    hide AfterRecon, ModelClear, EngineClear, WithSearchPath, EndsIn, Vetted, ModelOf;
    var trail := [Passed(Audit)] + [Passed(ReadOnly)] + [Passed(Recon)];
    ReconRuns(w, q, Cleared(w), trail);
  }

  /** **The executor runs exactly when every gate that applies passes the call**: the audit store is up,
      the write and recon gates find nothing, and, unless waived, neither the model pass nor the engine
      check. It then runs once, last, behind those gates in their order, on the statement the model pass
      returned and on the vetted connection. */
  lemma ExecutorGated(t: Sentences, r: Reader, w: World, q: Request)
    ensures var trail := Guarded(t, r, w, q).trail;
            && (RanAtAll(trail) <==> AllClear(w, q))
            && (RanAtAll(trail) ==>
                  && |trail| == |Gates(w, q)| + 1 && trail[..|Gates(w, q)|] == Gates(w, q)
                  && EndsIn(trail, Ran(Vetted(w, q), WithSearchPath(w, w.credentials.value, ModelOf(w, q)))))
  {
    hide Guarded, Block, Gates, Vetted, AllClear, WithSearchPath;
    HandledOrderly(t, r, w, q);
    BlockRuns(w, q);
    AllClearCredentials(w, q);
  }

  lemma AllClearCredentials(w: World, q: Request)
    ensures AllClear(w, q) ==> w.credentials.Got?
  {
  }

  /** **A statement is answered `ok` exactly when the executor ran it and returned an untruncated
      result**, which is then the data. */
  lemma OkExactly(t: Sentences, r: Reader, w: World, q: Request)
    ensures var e := Guarded(t, r, w, q);
            IsOk(e) <==> RanAtAll(e.trail) && GaveRows(w, e.trail[|e.trail| - 1])
    ensures var e := Guarded(t, r, w, q);
            IsOk(e) ==>
              var ran := e.trail[|e.trail| - 1];
              && e.answer.value.data == w.executor(ran.sql, ran.creds).value
              && e.answer.value.receipt == ReceiptFor(w, ran.sql, false, e.c.model)
  {
    hide Guarded, Gates, Vetted, GaveRows;
    HandledOrderly(t, r, w, q);
  }

  /** **The write and recon gates hold whatever the flags**: `no_safety` and a served build profile waive
      neither. */
  lemma HardGates(t: Sentences, r: Reader, w: World, q: Request, refusal: Refusal)
    requires w.audit == Got(true)
    ensures w.readOnly == Got(Some(refusal)) ==>
              && Guarded(t, r, w, q).answer == Got(RefusedEnvelope(w, refusal, q.sql, None))
              && !RanAtAll(Guarded(t, r, w, q).trail)
    ensures w.readOnly == Got(None) && w.recon == Got(Some(refusal)) && (w.hosted || !q.buildProfile) ==>
              && Guarded(t, r, w, q).answer == Got(RefusedEnvelope(w, refusal, q.sql, None))
              && !RanAtAll(Guarded(t, r, w, q).trail)
  {
  }

  /** **Every answer that is not `ok` carries a receipt bounded to the statement the caller sent**, or one
      that says no model was consulted; a failure's message is fixed unless its code is an authored one. */
  lemma NotOkBounded(t: Sentences, r: Reader, w: World, q: Request)
    requires Guarded(t, r, w, q).answer.Got? && Guarded(t, r, w, q).answer.value.status != Ok
    ensures var e := Guarded(t, r, w, q);
            e.answer.value.receipt in {BeforeModel, ReceiptFor(w, q.sql, true, e.c.model)}
    ensures var e := Guarded(t, r, w, q);
            e.answer.value.status == Failed ==>
              Fixed(t, e.answer.value.failure.value.message)
              || (Block(w, q).answer.Raised? && Block(w, q).answer.exc.ExecutorError?
                  && Authored(Block(w, q).answer.exc.code))
  {
    var b := Block(w, q);
    if b.answer.Raised? && b.answer.exc.ExecutorError? {
      MessageFixed(t, r, b.engine, b.answer.exc.code, b.answer.exc.text, b.answer.exc.sqlstate);
    }
    assert Fixed(t, t.unexpected);
  }
}
