/** What the chokepoint answers in each world, and when: told from what the outside said, not from how the
    call went through it. */
module PipelineAnswers {
  import opened Common
  import opened FailureMessages
  import opened GuardedPipeline

  // ---------------------------------------------------------------------------
  // Where the call ends, by the world alone

  /** The hosted deployment has the model pass off. */
  predicate PassOff(w: World) { w.hosted && !w.governed }

  /** A build of a local profile. */
  predicate Building(w: World, q: Request) { q.buildProfile && !w.hosted }

  predicate ReconSet(w: World, q: Request) {
    w.recon == Got(None) || (w.recon.Got? && Building(w, q) && w.catalogQuery == Got(true))
  }

  predicate UpToRecon(w: World) { w.audit == Got(true) && w.readOnly == Got(None) }

  predicate UpToPass(w: World, q: Request) { UpToRecon(w) && ReconSet(w, q) }

  function PassOf(w: World, q: Request): Pass { w.pass(Building(w, q)) }

  predicate UpToCredentials(w: World, q: Request) {
    UpToPass(w, q) && (q.noSafety || (PassOf(w, q).answer.Got? && PassOf(w, q).answer.value.1 == None))
  }

  /** The statement the model pass gave back. */
  function Statement(w: World, q: Request): string
    requires UpToCredentials(w, q)
  {
    if q.noSafety then q.sql else PassOf(w, q).answer.value.0
  }

  function Model(w: World, q: Request): Option<string> {
    if q.noSafety then None else PassOf(w, q).model
  }

  function Shape(w: World, q: Request): Option<string> {
    if q.noSafety then None else PassOf(w, q).shape
  }

  predicate UpToEngine(w: World, q: Request) { UpToCredentials(w, q) && w.credentials.Got? }

  /** The two engine checks: the mismatch first, and the foreign catalog only when it finds nothing. */
  function EngineSays(w: World, q: Request): Out<Option<Refusal>>
    requires UpToEngine(w, q)
  {
    if q.noSafety || PassOff(w) then Got(None)
    else if w.mismatch(w.credentials.value) == Got(None) then w.foreignCatalog(Statement(w, q), w.credentials.value)
    else w.mismatch(w.credentials.value)
  }

  predicate UpToExecutor(w: World, q: Request) { UpToEngine(w, q) && EngineSays(w, q) == Got(None) }

  /** The connection with the model's schemas, where its engine takes a search path. */
  function Connection(w: World, q: Request): Creds
    requires UpToEngine(w, q)
  {
    var schemas := w.schemas(Model(w, q));
    if schemas != [] && w.usesSearchPath(w.credentials.value)
    then w.credentials.value.(searchPath := schemas) else w.credentials.value
  }

  function Ran(w: World, q: Request): Out<Option<Rows>>
    requires UpToExecutor(w, q)
  {
    w.executor(Statement(w, q), Connection(w, q))
  }

  predicate Truncated(w: World, q: Request) {
    UpToExecutor(w, q) && Ran(w, q).Got? && Ran(w, q).value.Some? && Ran(w, q).value.value.truncated
  }

  /** `x` was raised: by a gate, by the executor, or in telling a truncated result; an executor that
      returns nothing breaks the block. */
  predicate Raises(w: World, q: Request, x: Exc) {
    || w.audit == Raised(x)
    || (w.audit == Got(true) && w.readOnly == Raised(x))
    || (UpToRecon(w) && w.recon == Raised(x))
    || (UpToRecon(w) && w.recon.Got? && w.recon.value.Some? && Building(w, q) && w.catalogQuery == Raised(x))
    || (UpToPass(w, q) && !q.noSafety && PassOf(w, q).answer == Raised(x))
    || (UpToCredentials(w, q) && w.credentials == Raised(x))
    || (UpToEngine(w, q) && EngineSays(w, q) == Raised(x))
    || (UpToExecutor(w, q) && Ran(w, q) == Raised(x))
    || (UpToExecutor(w, q) && Ran(w, q) == Got(None) && x == AnyOther)
    || (Truncated(w, q) && w.capRefusal(Shape(w, q)) == Raised(x))
  }

  /** A gate refuses with `r`. */
  predicate Refuses(w: World, q: Request, r: Refusal) {
    || (w.audit == Got(false) && r == AUDIT_REFUSAL)
    || (w.audit == Got(true) && w.readOnly == Got(Some(r)))
    || (UpToRecon(w) && w.recon == Got(Some(r)) && !(Building(w, q) && w.catalogQuery != Got(false)))
    || (UpToPass(w, q) && !q.noSafety && PassOf(w, q).answer.Got? && PassOf(w, q).answer.value.1 == Some(r))
    || (UpToEngine(w, q) && EngineSays(w, q) == Got(Some(r)))
  }

  /** The rows to answer with. */
  predicate Answers(w: World, q: Request, rows: Rows) {
    UpToExecutor(w, q) && Ran(w, q) == Got(Some(rows)) && !rows.truncated
  }

  // ---------------------------------------------------------------------------
  // The answer of each

  /** The model published by the time the call ends. */
  function Published(w: World, q: Request): Option<string> {
    if UpToPass(w, q) && !q.noSafety then PassOf(w, q).model else None
  }

  function BoundedReceipt(w: World, q: Request): Receipt {
    Built(true, q.sql, Published(w, q), PassOff(w))
  }

  /** **Rows are answered `ok`**, with a receipt of the statement that ran. */
  lemma RowsAreOk(t: Sentences, r: Reader, w: World, q: Request, rows: Rows)
    requires Answers(w, q, rows)
    ensures Guarded(t, r, w, q).answer ==
            Got(Envelope(Ok, Some(rows), None, None, Built(false, Statement(w, q), Model(w, q), PassOff(w))))
    ensures Guarded(t, r, w, q).c ==
            Carriers(None, None, rows.identity, rows.queryId, None, Model(w, q), Shape(w, q), Some(PassOff(w)))
  {
  }

  /** **A gate's refusal is the answer**, with no receipt of a model exactly for the rules that come before
      one. */
  lemma GateRefuses(t: Sentences, r: Reader, w: World, q: Request, refusal: Refusal)
    requires Refuses(w, q, refusal)
    ensures Guarded(t, r, w, q).answer ==
            Got(Envelope(Refused, None, Some(refusal), None,
                         if refusal.rule in {"read_only", "recon", "audit_unavailable", "datasource_required",
                                             "stale_model", "example_required"}
                         then BeforeModel else BoundedReceipt(w, q)))
  {
  }

  /** **A truncated result is refused** by the shape of the statement, and its rows are dropped. */
  lemma CapRefuses(t: Sentences, r: Reader, w: World, q: Request)
    requires Truncated(w, q) && w.capRefusal(Shape(w, q)).Got?
    ensures Guarded(t, r, w, q).answer ==
            Got(Envelope(Refused, None, Some(w.capRefusal(Shape(w, q)).value), None, BoundedReceipt(w, q)))
  {
  }

  /** The engine known when an exception is raised: that of the credentials, once there are any. */
  function EngineKnown(w: World, q: Request): Option<string> {
    if UpToEngine(w, q) then w.credentials.value.engine else None
  }

  /** How the guarded block ends when `x` is raised. */
  ghost predicate BlockEnds(w: World, q: Request, x: Exc) {
    var e := Block(w, q);
    && e.answer == Raised(x) && e.engine == EngineKnown(w, q) && e.c.model == Published(w, q)
    && e.c.detail == None && e.c.cliDetail == None
  }

  lemma GatesRaise(w: World, q: Request, x: Exc)
    requires || w.audit == Raised(x)
             || (w.audit == Got(true) && w.readOnly == Raised(x))
             || (UpToRecon(w) && w.recon == Raised(x))
             || (UpToRecon(w) && w.recon.Got? && w.recon.value.Some? && Building(w, q) && w.catalogQuery == Raised(x))
    ensures BlockEnds(w, q, x)
  {
    hide AfterRecon;
  }

  lemma BlockToPass(w: World, q: Request)
    requires UpToPass(w, q)
    ensures Block(w, q) == AfterRecon(w, q, Cleared(w), [Passed(Audit), Passed(ReadOnly), Passed(Recon)])
  {
    hide AfterRecon;
    assert [Passed(Audit)] + [Passed(ReadOnly)] + [Passed(Recon)] == [Passed(Audit), Passed(ReadOnly), Passed(Recon)];
  }

  /** The carriers once the model pass is over. */
  function AfterModel(w: World, q: Request): Carriers {
    Cleared(w).(model := Model(w, q), shape := Shape(w, q))
  }

  lemma PassRaises(w: World, q: Request, x: Exc)
    requires UpToPass(w, q) && !q.noSafety && PassOf(w, q).answer == Raised(x)
    ensures BlockEnds(w, q, x)
  {
    hide AfterPass, Block;
    BlockToPass(w, q);
  }

  lemma BlockToCredentials(w: World, q: Request) returns (trail: seq<Mark>)
    requires UpToCredentials(w, q)
    ensures Block(w, q) == AfterPass(w, q, Statement(w, q), AfterModel(w, q), trail)
  {
    hide AfterPass, Block;
    BlockToPass(w, q);
    trail := [Passed(Audit), Passed(ReadOnly), Passed(Recon)];
    if !q.noSafety {
      trail := trail + [Passed(ModelPass)];
    }
  }

  lemma CredentialsRaise(w: World, q: Request, x: Exc)
    requires UpToCredentials(w, q) && w.credentials == Raised(x)
    ensures BlockEnds(w, q, x)
  {
    hide Block, Execute, EngineFinding;
    var trail := BlockToCredentials(w, q);
  }

  lemma FindingIs(w: World, q: Request)
    requires UpToEngine(w, q) && !q.noSafety && !PassOff(w)
    ensures EngineFinding(w, Statement(w, q), w.credentials.value) == EngineSays(w, q)
  {
  }

  lemma EngineRaises(w: World, q: Request, x: Exc)
    requires UpToEngine(w, q) && EngineSays(w, q) == Raised(x)
    ensures BlockEnds(w, q, x)
  {
    hide Block, Execute, EngineFinding;
    var trail := BlockToCredentials(w, q);
    FindingIs(w, q);
  }

  lemma BlockToExecutor(w: World, q: Request) returns (trail: seq<Mark>)
    requires UpToExecutor(w, q)
    ensures Block(w, q) == Execute(w, q, Statement(w, q), w.credentials.value, AfterModel(w, q), trail)
  {
    hide Block, Execute, EngineFinding;
    trail := BlockToCredentials(w, q);
    if !(q.noSafety || PassOff(w)) {
      FindingIs(w, q);
      trail := trail + [Passed(EngineMatch)];
    }
  }

  lemma ExecutorRaises(w: World, q: Request, x: Exc)
    requires UpToExecutor(w, q)
    requires || Ran(w, q) == Raised(x)
             || (Ran(w, q) == Got(None) && x == AnyOther)
             || (Truncated(w, q) && w.capRefusal(Shape(w, q)) == Raised(x))
    ensures BlockEnds(w, q, x)
  {
    hide Block;
    var trail := BlockToExecutor(w, q);
  }

  lemma BlockRaises(w: World, q: Request, x: Exc)
    requires Raises(w, q, x)
    ensures BlockEnds(w, q, x)
  {
    hide Block, BlockEnds, Ran, EngineSays, PassOf;
    if UpToExecutor(w, q) && (|| Ran(w, q) == Raised(x) || (Ran(w, q) == Got(None) && x == AnyOther)
                              || (Truncated(w, q) && w.capRefusal(Shape(w, q)) == Raised(x))) {
      ExecutorRaises(w, q, x);
    } else if UpToEngine(w, q) && EngineSays(w, q) == Raised(x) {
      EngineRaises(w, q, x);
    } else if UpToCredentials(w, q) && w.credentials == Raised(x) {
      CredentialsRaise(w, q, x);
    } else if UpToPass(w, q) && !q.noSafety && PassOf(w, q).answer == Raised(x) {
      PassRaises(w, q, x);
    } else {
      GatesRaise(w, q, x);
    }
  }

  /** **What an exception is answered with.** A time bound is refused, never reported as a failure; an
      executor's error gets its sentence; `Exit` goes through; anything else gets the one generic
      sentence. */
  lemma RaisedIs(t: Sentences, r: Reader, w: World, q: Request, x: Exc)
    requires Raises(w, q, x)
    ensures Guarded(t, r, w, q).answer ==
            match x
            case Exit => Raised(Exit)
            case Bound(which) =>
              Got(Envelope(Refused, None, Some(w.boundRefusal(which)), None, BoundedReceipt(w, q)))
            case AnyOther => Got(Envelope(Failed, None, None, Some(Failure(Other, t.unexpected)), BoundedReceipt(w, q)))
            case ExecutorError(code, text, sqlstate) =>
              Got(Envelope(Failed, None, None, Some(FailureFor(t, r, EngineKnown(w, q), code, text, sqlstate)),
                           BoundedReceipt(w, q)))
    ensures var c := Guarded(t, r, w, q).c;
            && c.detail == (if x.ExecutorError? && x.code != 2 && x.code != 3 then Some(x.text) else None)
            && c.cliDetail == (if x.ExecutorError? && x.code !in {2, 3, 11} && w.wantsCliDetail
                               then w.firstLine(x.text, x.sqlstate) else None)
  {
    hide FailureFor, Block, Raises, EngineKnown, Published;
    BlockRaises(w, q, x);
  }

  /** Every world ends the call in one of these ways, and in one only. */
  lemma OneEnding(w: World, q: Request)
    ensures || (exists rows :: Answers(w, q, rows))
            || (exists x :: Raises(w, q, x))
            || (exists refusal :: Refuses(w, q, refusal))
            || (Truncated(w, q) && w.capRefusal(Shape(w, q)).Got?)
  {
    match w.audit
    case Raised(x) => assert Raises(w, q, x);
    case Got(up) =>
      if !up {
        assert Refuses(w, q, AUDIT_REFUSAL);
      } else {
        match w.readOnly
        case Raised(x) => assert Raises(w, q, x);
        case Got(Some(r)) => assert Refuses(w, q, r);
        case Got(None) => ReconEnding(w, q);
      }
  }

  lemma ReconEnding(w: World, q: Request)
    requires UpToRecon(w)
    ensures || (exists rows :: Answers(w, q, rows))
            || (exists x :: Raises(w, q, x))
            || (exists refusal :: Refuses(w, q, refusal))
            || (Truncated(w, q) && w.capRefusal(Shape(w, q)).Got?)
  {
    match w.recon
    case Raised(x) => assert Raises(w, q, x);
    case Got(None) => PassEnding(w, q);
    case Got(Some(r)) =>
      if !Building(w, q) {
        assert Refuses(w, q, r);
      } else {
        match w.catalogQuery
        case Raised(x) => assert Raises(w, q, x);
        case Got(ours) =>
          if ours {
            PassEnding(w, q);
          } else {
            assert Refuses(w, q, r);
          }
      }
  }

  lemma PassEnding(w: World, q: Request)
    requires UpToPass(w, q)
    ensures || (exists rows :: Answers(w, q, rows))
            || (exists x :: Raises(w, q, x))
            || (exists refusal :: Refuses(w, q, refusal))
            || (Truncated(w, q) && w.capRefusal(Shape(w, q)).Got?)
  {
    if q.noSafety {
      CredentialsEnding(w, q);
    } else {
      match PassOf(w, q).answer
      case Raised(x) => assert Raises(w, q, x);
      case Got((_, Some(r))) => assert Refuses(w, q, r);
      case Got((_, None)) => CredentialsEnding(w, q);
    }
  }

  lemma CredentialsEnding(w: World, q: Request)
    requires UpToCredentials(w, q)
    ensures || (exists rows :: Answers(w, q, rows))
            || (exists x :: Raises(w, q, x))
            || (exists refusal :: Refuses(w, q, refusal))
            || (Truncated(w, q) && w.capRefusal(Shape(w, q)).Got?)
  {
    match w.credentials
    case Raised(x) => assert Raises(w, q, x);
    case Got(_) =>
      match EngineSays(w, q)
      case Raised(x) => assert Raises(w, q, x);
      case Got(Some(r)) => assert Refuses(w, q, r);
      case Got(None) =>
        match Ran(w, q)
        case Raised(x) => assert Raises(w, q, x);
        case Got(None) => assert Raises(w, q, AnyOther);
        case Got(Some(rows)) =>
          if !rows.truncated {
            assert Answers(w, q, rows);
          } else if w.capRefusal(Shape(w, q)).Raised? {
            assert Raises(w, q, w.capRefusal(Shape(w, q)).exc);
          }
  }

  /** **When an answer is refused and when it is failed.** Refused exactly when a gate refused, a time bound
      fired or the result was truncated; failed exactly when an exception was raised that is neither a
      bound nor `Exit`; `ok` exactly for untruncated rows; and only `Exit` escapes. */
  lemma StatusIff(t: Sentences, r: Reader, w: World, q: Request)
    ensures var a := Guarded(t, r, w, q).answer;
            && (a.Got? && a.value.status == Refused <==>
                  || (exists refusal :: Refuses(w, q, refusal))
                  || (exists which :: Raises(w, q, Bound(which)))
                  || (Truncated(w, q) && w.capRefusal(Shape(w, q)).Got?))
            && (a.Got? && a.value.status == Failed <==> exists x :: Raises(w, q, x) && !x.Bound? && !x.Exit?)
            && (a.Got? && a.value.status == Ok <==> exists rows :: Answers(w, q, rows))
            && (a == Raised(Exit) <==> Raises(w, q, Exit))
  {
    hide Guarded, Raises, Refuses, Answers, Truncated, Shape;
    OneEnding(w, q);
    forall rows | Answers(w, q, rows) ensures Guarded(t, r, w, q).answer.Got?
      && Guarded(t, r, w, q).answer.value.status == Ok {
      RowsAreOk(t, r, w, q, rows);
    }
    forall x | Refuses(w, q, x)
      ensures Guarded(t, r, w, q).answer.Got? && Guarded(t, r, w, q).answer.value.status == Refused
    {
      GateRefuses(t, r, w, q, x);
    }
    forall x | Raises(w, q, x)
      ensures match x
              case Exit => Guarded(t, r, w, q).answer == Raised(Exit)
              case Bound(_) => Guarded(t, r, w, q).answer.Got? && Guarded(t, r, w, q).answer.value.status == Refused
              case _ => Guarded(t, r, w, q).answer.Got? && Guarded(t, r, w, q).answer.value.status == Failed
    {
      RaisedIs(t, r, w, q, x);
    }
    if Truncated(w, q) && w.capRefusal(Shape(w, q)).Got? {
      CapRefuses(t, r, w, q);
    }
  }
}
