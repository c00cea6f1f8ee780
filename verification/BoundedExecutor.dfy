/** The bounded wait around an executor call: a caller and a worker per call, one shared counter of
    abandoned workers. */
module BoundedExecutor {
  import opened Common

  /** What the executor does in the end. */
  datatype Yield = Result(rows: string) | Error(exc: string)
  datatype Produced = Nothing | Just(y: Yield)

  /** The dictionary a caller shares with its worker. */
  datatype Box = Box(produced: Produced, finished: bool, abandoned: bool)

  datatype Answer = Saturated | OuterBoundExpired | Own(y: Yield)

  // ---------------------------------------------------------------------------
  // The three critical sections

  /** The worker's last section: free the slot if the caller has left. */
  function Finish(count: int, box: Box): (int, Box) {
    (if box.abandoned then count - 1 else count, box.(finished := true))
  }

  /** The caller's section after its wait: take a slot if the worker is not done. */
  function Decide(count: int, box: Box): (int, Box) {
    if box.finished then (count, box) else (count + 1, box.(abandoned := true))
  }

  class Outcome {
    var produced: Produced
    var finished: bool
    var abandoned: bool

    constructor ()
      ensures Value() == Box(Nothing, false, false)
    {
      produced, finished, abandoned := Nothing, false, false;
    }

    function Value(): Box
      reads this
    {
      Box(produced, finished, abandoned)
    }
  }

  class Executor {
    const cap: nat
    var abandonedWorkers: int

    constructor (cap: nat)
      ensures this.cap == cap && abandonedWorkers == 0
    {
      this.cap, abandonedWorkers := cap, 0;
    }

    /** Checked before the worker starts; it takes no slot. */
    method Admit() returns (ok: bool)
      ensures ok <==> abandonedWorkers < cap
    {
      ok := !(abandonedWorkers >= cap);
    }

    method FinishWorker(outcome: Outcome)
      modifies `abandonedWorkers, outcome`finished
      ensures (abandonedWorkers, outcome.Value()) == Finish(old(abandonedWorkers), old(outcome.Value()))
    {
      if outcome.abandoned {
        abandonedWorkers := abandonedWorkers - 1;
      }
      outcome.finished := true;
    }

    method DecideCaller(outcome: Outcome) returns (abandoned: bool)
      requires !outcome.abandoned
      modifies `abandonedWorkers, outcome`abandoned
      ensures (abandonedWorkers, outcome.Value()) == Decide(old(abandonedWorkers), old(outcome.Value()))
      ensures abandoned == outcome.abandoned
    {
      abandoned := !outcome.finished;
      if abandoned {
        abandonedWorkers := abandonedWorkers + 1;
        outcome.abandoned := true;
      }
    }
  }

  // ---------------------------------------------------------------------------
  // Any number of calls

  datatype Caller = Arrived | Refused | Waiting | Decided

  datatype Call = Call(caller: Caller, box: Box) {
    predicate Pending() { caller == Arrived || caller == Waiting }

    predicate Leaked() { box.abandoned && !box.finished }
  }

  datatype State = State(count: int, calls: seq<Call>)

  /** A step of one caller or one worker. The wait may end at any moment, by the clock or because
      the worker is done. */
  datatype Step =
    | Arrive
    | Admit(i: nat)
    | Produce(i: nat, y: Yield)
    | WorkerEnds(i: nat)
    | WaitEnds(i: nat)

  predicate Can(s: State, step: Step) {
    match step
    case Arrive => true
    case Admit(i) => i < |s.calls| && s.calls[i].caller == Arrived
    case Produce(i, _) => i < |s.calls| && s.calls[i].caller in {Waiting, Decided} && s.calls[i].box.produced == Nothing
    case WorkerEnds(i) => i < |s.calls| && s.calls[i].box.produced != Nothing && !s.calls[i].box.finished
    case WaitEnds(i) => i < |s.calls| && s.calls[i].caller == Waiting
  }

  function Do(cap: nat, s: State, step: Step): State
    requires Can(s, step)
  {
    match step
    case Arrive => s.(calls := s.calls + [Call(Arrived, Box(Nothing, false, false))])
    case Admit(i) =>
      s.(calls := s.calls[i := s.calls[i].(caller := if s.count >= cap then Refused else Waiting)])
    case Produce(i, y) => s.(calls := s.calls[i := s.calls[i].(box := s.calls[i].box.(produced := Just(y)))])
    case WorkerEnds(i) =>
      var (count, box) := Finish(s.count, s.calls[i].box);
      State(count, s.calls[i := s.calls[i].(box := box)])
    case WaitEnds(i) =>
      var (count, box) := Decide(s.count, s.calls[i].box);
      State(count, s.calls[i := Call(Decided, box)])
  }

  const INITIAL := State(0, [])

  predicate Legal(cap: nat, s: State, steps: seq<Step>)
    decreases |steps|
  {
    steps != [] ==> Can(s, steps[0]) && Legal(cap, Do(cap, s, steps[0]), steps[1..])
  }

  function Run(cap: nat, s: State, steps: seq<Step>): State
    requires Legal(cap, s, steps)
    decreases |steps|
  {
    if steps == [] then s else Run(cap, Do(cap, s, steps[0]), steps[1..])
  }

  /** What a call that has ended tells its caller. */
  function AnswerOf(c: Call): Answer
    requires c.caller == Refused || (c.caller == Decided && (c.box.abandoned || c.box.produced != Nothing))
  {
    if c.caller == Refused then Saturated
    else if c.box.abandoned then OuterBoundExpired
    else Own(c.box.produced.y)
  }

  // ---------------------------------------------------------------------------
  // Counting calls

  function Tally(calls: seq<Call>, p: Call -> bool): nat
    decreases |calls|
  {
    if calls == [] then 0 else (if p(calls[0]) then 1 else 0) + Tally(calls[1..], p)
  }

  lemma {:induction false} TallyUpdate(calls: seq<Call>, p: Call -> bool, i: nat, c: Call)
    requires i < |calls|
    ensures Tally(calls[i := c], p) == Tally(calls, p) - (if p(calls[i]) then 1 else 0) + (if p(c) then 1 else 0)
    decreases |calls|
  {
    if i == 0 {
      assert calls[i := c][1..] == calls[1..];
    } else {
      TallyUpdate(calls[1..], p, i - 1, c);
      assert calls[i := c][1..] == calls[1..][i - 1 := c];
    }
  }

  lemma {:induction false} TallyAppend(calls: seq<Call>, p: Call -> bool, c: Call)
    ensures Tally(calls + [c], p) == Tally(calls, p) + (if p(c) then 1 else 0)
    decreases |calls|
  {
    if calls == [] {
      assert calls + [c] == [c];
      assert Tally([c][1..], p) == 0;
    } else {
      TallyAppend(calls[1..], p, c);
      assert (calls + [c])[1..] == calls[1..] + [c];
    }
  }

  lemma {:induction false} TallyZero(calls: seq<Call>, p: Call -> bool)
    ensures Tally(calls, p) == 0 <==> forall i :: 0 <= i < |calls| ==> !p(calls[i])
    decreases |calls|
  {
    if calls != [] {
      TallyZero(calls[1..], p);
      assert (forall i :: 0 <= i < |calls| ==> !p(calls[i])) <==>
             !p(calls[0]) && forall i :: 0 <= i < |calls[1..]| ==> !p(calls[1..][i]) by {
        if !p(calls[0]) && forall i :: 0 <= i < |calls[1..]| ==> !p(calls[1..][i]) {
          forall i | 0 <= i < |calls| ensures !p(calls[i]) {
            if i > 0 { assert calls[i] == calls[1..][i - 1]; }
          }
        }
      }
    }
  }

  function Leaks(s: State): nat { Tally(s.calls, (c: Call) => c.Leaked()) }
  function Pending(s: State): nat { Tally(s.calls, (c: Call) => c.Pending()) }
  function Waits(s: State): nat { Tally(s.calls, (c: Call) => c.caller == Waiting) }

  // ---------------------------------------------------------------------------
  // The invariant

  predicate CallValid(c: Call) {
    && (c.box.finished ==> c.box.produced != Nothing)
    && (c.box.abandoned ==> c.caller == Decided)
    && (c.caller == Decided && !c.box.abandoned ==> c.box.finished)
    && (c.caller in {Arrived, Refused} ==> c.box == Box(Nothing, false, false))
  }

  predicate Inv(s: State) {
    s.count == Leaks(s) && forall i :: 0 <= i < |s.calls| ==> CallValid(s.calls[i])
  }

  /** How a step moves each tally. */
  lemma StepTallies(cap: nat, s: State, step: Step, p: Call -> bool)
    requires Can(s, step)
    ensures var t := Do(cap, s, step);
            if step.Arrive? then Tally(t.calls, p) == Tally(s.calls, p) + (if p(t.calls[|s.calls|]) then 1 else 0)
            else Tally(t.calls, p) == Tally(s.calls, p) - (if p(s.calls[step.i]) then 1 else 0)
                                                       + (if p(t.calls[step.i]) then 1 else 0)
  {
    var t := Do(cap, s, step);
    if step.Arrive? {
      TallyAppend(s.calls, p, t.calls[|s.calls|]);
    } else {
      TallyUpdate(s.calls, p, step.i, t.calls[step.i]);
    }
  }

  lemma StepKeeps(cap: nat, s: State, step: Step)
    requires Inv(s) && Can(s, step)
    ensures Inv(Do(cap, s, step))
  {
    StepTallies(cap, s, step, (c: Call) => c.Leaked());
  }

  lemma {:induction false} RunKeeps(cap: nat, s: State, steps: seq<Step>)
    requires Inv(s) && Legal(cap, s, steps)
    ensures Inv(Run(cap, s, steps))
    decreases |steps|
  {
    if steps != [] {
      StepKeeps(cap, s, steps[0]);
      RunKeeps(cap, Do(cap, s, steps[0]), steps[1..]);
    }
  }

  /** **The counter is exactly the number of abandoned calls whose worker is still running**: it is
      never negative, no slot is freed twice, and it is 0 once every abandoned worker is done. */
  lemma CounterExact(cap: nat, steps: seq<Step>)
    requires Legal(cap, INITIAL, steps)
    ensures var s := Run(cap, INITIAL, steps);
            && s.count == Leaks(s) >= 0
            && (s.count == 0 <==>
                  forall i :: 0 <= i < |s.calls| && s.calls[i].box.abandoned ==> s.calls[i].box.finished)
  {
    RunKeeps(cap, INITIAL, steps);
    var s := Run(cap, INITIAL, steps);
    TallyZero(s.calls, (c: Call) => c.Leaked());
  }

  // ---------------------------------------------------------------------------
  // The bound

  /** No state of the run has more than `n` callers that have neither been refused nor decided. */
  predicate AtMost(cap: nat, s: State, steps: seq<Step>, n: nat)
    requires Legal(cap, s, steps)
    decreases |steps|
  {
    Pending(s) <= n && (steps != [] ==> AtMost(cap, Do(cap, s, steps[0]), steps[1..], n))
  }

  lemma {:induction false} WaitsPend(calls: seq<Call>)
    ensures Tally(calls, (c: Call) => c.caller == Waiting) <= Tally(calls, (c: Call) => c.Pending())
    decreases |calls|
  {
    if calls != [] {
      WaitsPend(calls[1..]);
    }
  }

  lemma StepBounded(cap: nat, s: State, step: Step, n: nat)
    requires Inv(s) && Can(s, step) && s.count + Waits(s) <= cap - 1 + n && Pending(Do(cap, s, step)) <= n
    ensures Do(cap, s, step).count + Waits(Do(cap, s, step)) <= cap - 1 + n
  {
    StepTallies(cap, s, step, (c: Call) => c.caller == Waiting);
    WaitsPend(Do(cap, s, step).calls);
  }

  lemma {:induction false} RunBounded(cap: nat, s: State, steps: seq<Step>, n: nat)
    requires Inv(s) && Legal(cap, s, steps) && AtMost(cap, s, steps, n) && s.count + Waits(s) <= cap - 1 + n
    ensures Run(cap, s, steps).count + Waits(Run(cap, s, steps)) <= cap - 1 + n
    decreases |steps|
  {
    if steps != [] {
      StepKeeps(cap, s, steps[0]);
      var t := Do(cap, s, steps[0]);
      assert Pending(t) <= n;
      StepBounded(cap, s, steps[0], n);
      RunBounded(cap, t, steps[1..], n);
    }
  }

  /** **With at most `n` callers at once, at most `cap - 1 + n` workers are abandoned at once**: the
      check and the increment are separate sections, so the cap alone is not the bound. */
  lemma AbandonedBounded(cap: nat, steps: seq<Step>, n: nat)
    requires n >= 1 && Legal(cap, INITIAL, steps) && AtMost(cap, INITIAL, steps, n)
    ensures Run(cap, INITIAL, steps).count <= cap - 1 + n
  {
    RunBounded(cap, INITIAL, steps, n);
  }

  // ---------------------------------------------------------------------------
  // The answers

  /** **A call that has ended has one answer, for good**: saturated when its worker never started,
      expired, or what its own worker produced and finished with. */
  lemma {:induction false} AnswersFinal(cap: nat, s: State, steps: seq<Step>, i: nat)
    requires Inv(s) && Legal(cap, s, steps) && i < |s.calls| && !s.calls[i].Pending()
    ensures var t := Run(cap, s, steps);
            && i < |t.calls| && !t.calls[i].Pending() && CallValid(t.calls[i])
            && AnswerOf(t.calls[i]) == AnswerOf(s.calls[i])
            && (AnswerOf(s.calls[i]) == Saturated ==> t.calls[i].box.produced == Nothing)
            && (AnswerOf(s.calls[i]).Own? ==>
                  t.calls[i].box.finished && t.calls[i].box.produced == Just(AnswerOf(s.calls[i]).y))
    decreases |steps|
  {
    assert CallValid(s.calls[i]);
    if steps != [] {
      StepKeeps(cap, s, steps[0]);
      AnswersFinal(cap, Do(cap, s, steps[0]), steps[1..], i);
    }
  }

  // ---------------------------------------------------------------------------
  // The bound is reached

  const LEAKED := Call(Decided, Box(Nothing, false, true))
  const WAITING := Call(Waiting, Box(Nothing, false, false))
  const ARRIVED := Call(Arrived, Box(Nothing, false, false))

  function Row(k: nat, c: Call): seq<Call> { seq(k, _ => c) }

  /** `a` abandoned calls, then `w` waiting ones, then `r` that have just arrived. */
  function Mix(a: nat, w: nat, r: nat): State {
    State(a, Row(a, LEAKED) + Row(w, WAITING) + Row(r, ARRIVED))
  }

  ghost predicate Reaches(cap: nat, n: nat, s: State) {
    exists steps :: Legal(cap, INITIAL, steps) && AtMost(cap, INITIAL, steps, n) && Run(cap, INITIAL, steps) == s
  }

  lemma {:induction false} RunSnoc(cap: nat, s: State, steps: seq<Step>, step: Step, n: nat)
    requires Legal(cap, s, steps) && AtMost(cap, s, steps, n)
    requires Can(Run(cap, s, steps), step) && Pending(Do(cap, Run(cap, s, steps), step)) <= n
    ensures Legal(cap, s, steps + [step]) && AtMost(cap, s, steps + [step], n)
    ensures Run(cap, s, steps + [step]) == Do(cap, Run(cap, s, steps), step)
    decreases |steps|
  {
    if steps == [] {
      assert steps + [step] == [step];
      assert [step][1..] == [];
    } else {
      assert (steps + [step])[1..] == steps[1..] + [step];
      RunSnoc(cap, Do(cap, s, steps[0]), steps[1..], step, n);
    }
  }

  lemma Onward(cap: nat, n: nat, s: State, step: Step)
    requires Reaches(cap, n, s) && Can(s, step) && Pending(Do(cap, s, step)) <= n
    ensures Reaches(cap, n, Do(cap, s, step))
  {
    var steps :| Legal(cap, INITIAL, steps) && AtMost(cap, INITIAL, steps, n) && Run(cap, INITIAL, steps) == s;
    RunSnoc(cap, INITIAL, steps, step, n);
  }

  lemma {:induction false} TallyRows(a: seq<Call>, b: seq<Call>, p: Call -> bool)
    ensures Tally(a + b, p) == Tally(a, p) + Tally(b, p)
    decreases |a|
  {
    if a == [] {
      assert a + b == b;
    } else {
      TallyRows(a[1..], b, p);
      assert (a + b)[1..] == a[1..] + b;
    }
  }

  lemma {:induction false} TallyRow(k: nat, c: Call, p: Call -> bool)
    ensures Tally(Row(k, c), p) == if p(c) then k else 0
    decreases k
  {
    if k > 0 {
      TallyRow(k - 1, c, p);
      assert Row(k, c)[1..] == Row(k - 1, c);
    }
  }

  lemma MixPending(a: nat, w: nat, r: nat)
    ensures Pending(Mix(a, w, r)) == w + r
  {
    var p := (c: Call) => c.Pending();
    TallyRows(Row(a, LEAKED) + Row(w, WAITING), Row(r, ARRIVED), p);
    TallyRows(Row(a, LEAKED), Row(w, WAITING), p);
    TallyRow(a, LEAKED, p);
    TallyRow(w, WAITING, p);
    TallyRow(r, ARRIVED, p);
  }

  /** One more arrival, one more start below the cap, one more expiry. */
  lemma MixMoves(cap: nat, n: nat, a: nat, w: nat, r: nat)
    requires Reaches(cap, n, Mix(a, w, r)) && w + r <= n
    ensures w + r < n ==> Reaches(cap, n, Mix(a, w, r + 1))
    ensures r > 0 && a < cap ==> Reaches(cap, n, Mix(a, w + 1, r - 1))
    ensures w > 0 ==> Reaches(cap, n, Mix(a + 1, w - 1, r))
  {
    hide Reaches, Pending, Legal, AtMost;
    var s := Mix(a, w, r);
    if w + r < n {
      MixPending(a, w, r + 1);
      assert Do(cap, s, Arrive) == Mix(a, w, r + 1);
      Onward(cap, n, s, Arrive);
    }
    if r > 0 && a < cap {
      MixPending(a, w + 1, r - 1);
      assert Do(cap, s, Admit(a + w)) == Mix(a, w + 1, r - 1);
      Onward(cap, n, s, Admit(a + w));
    }
    if w > 0 {
      MixPending(a + 1, w - 1, r);
      assert Do(cap, s, WaitEnds(a)) == Mix(a + 1, w - 1, r);
      Onward(cap, n, s, WaitEnds(a));
    }
  }

  lemma InitialReached(cap: nat, n: nat)
    requires 1 <= n
    ensures Reaches(cap, n, Mix(0, 0, 0))
  {
    assert Mix(0, 0, 0) == INITIAL;
    MixPending(0, 0, 0);
    assert Legal(cap, INITIAL, []) && AtMost(cap, INITIAL, [], n) && Run(cap, INITIAL, []) == INITIAL;
  }

  lemma {:induction false} LeakOneByOne(cap: nat, n: nat, a: nat)
    requires 1 <= n && a <= cap
    ensures Reaches(cap, n, Mix(a, 0, 0))
    decreases a
  {
    hide Reaches, Legal, AtMost;
    if a == 0 {
      InitialReached(cap, n);
    } else {
      LeakOneByOne(cap, n, a - 1);
      MixMoves(cap, n, a - 1, 0, 0);
      MixMoves(cap, n, a - 1, 0, 1);
      MixMoves(cap, n, a - 1, 1, 0);
    }
  }

  lemma {:induction false} ArriveAll(cap: nat, n: nat, a: nat, r: nat)
    requires Reaches(cap, n, Mix(a, 0, 0)) && r <= n
    ensures Reaches(cap, n, Mix(a, 0, r))
    decreases r
  {
    if r > 0 {
      ArriveAll(cap, n, a, r - 1);
      MixMoves(cap, n, a, 0, r - 1);
    }
  }

  lemma {:induction false} StartAll(cap: nat, n: nat, a: nat, w: nat)
    requires Reaches(cap, n, Mix(a, 0, n)) && a < cap && w <= n
    ensures Reaches(cap, n, Mix(a, w, n - w))
    decreases w
  {
    if w > 0 {
      StartAll(cap, n, a, w - 1);
      MixMoves(cap, n, a, w - 1, n - w + 1);
    }
  }

  lemma {:induction false} ExpireAll(cap: nat, n: nat, a: nat, k: nat)
    requires Reaches(cap, n, Mix(a, n, 0)) && k <= n
    ensures Reaches(cap, n, Mix(a + k, n - k, 0))
    decreases k
  {
    if k > 0 {
      ExpireAll(cap, n, a, k - 1);
      MixMoves(cap, n, a + k - 1, n - k + 1, 0);
    }
  }

  /** **The bound is tight**: `n` callers that all pass the check at `cap - 1` go past the cap. */
  lemma BoundAttained(cap: nat, n: nat)
    requires cap >= 1 && n >= 1
    ensures exists steps :: Legal(cap, INITIAL, steps) && AtMost(cap, INITIAL, steps, n)
                            && Run(cap, INITIAL, steps).count == cap - 1 + n
  {
    LeakOneByOne(cap, n, cap - 1);
    ArriveAll(cap, n, cap - 1, n);
    StartAll(cap, n, cap - 1, n);
    ExpireAll(cap, n, cap - 1, n);
    var s := Mix(cap - 1 + n, 0, 0);
    assert Mix(cap - 1 + n, n - n, 0) == s;
    var steps :| Legal(cap, INITIAL, steps) && AtMost(cap, INITIAL, steps, n) && Run(cap, INITIAL, steps) == s;
  }

  // ---------------------------------------------------------------------------
  // Which answer a call gets

  lemma {:induction false} LastStep(cap: nat, s: State, steps: seq<Step>, last: Step)
    requires Legal(cap, s, steps + [last])
    ensures Legal(cap, s, steps) && Can(Run(cap, s, steps), last)
    ensures Run(cap, s, steps + [last]) == Do(cap, Run(cap, s, steps), last)
    decreases |steps|
  {
    hide Can, Do;
    if steps == [] {
      assert steps + [last] == [last];
      assert [last][1..] == [];
    } else {
      assert (steps + [last])[1..] == steps[1..] + [last];
      LastStep(cap, Do(cap, s, steps[0]), steps[1..], last);
    }
  }

  /** What the steps so far say of a call, and the call of them. */
  predicate Tells(s: State, steps: seq<Step>, i: nat) {
    if i < |s.calls| then
      var c := s.calls[i];
      && (c.box.finished <==> WorkerEnds(i) in steps)
      && (c.caller == Decided <==> WaitEnds(i) in steps)
      && (c.box.abandoned <==> WaitEnds(i) in steps && !Precedes(steps, WorkerEnds(i), WaitEnds(i)))
      && (c.box.produced != Nothing ==> Produce(i, c.box.produced.y) in steps)
    else
      WorkerEnds(i) !in steps && WaitEnds(i) !in steps
  }

  lemma StepTells(cap: nat, s: State, steps: seq<Step>, last: Step, i: nat)
    requires Can(s, last) && Tells(s, steps, i) && (i < |s.calls| ==> CallValid(s.calls[i]))
    ensures Tells(Do(cap, s, last), steps + [last], i)
  {
    hide Precedes;
    PrecedesSnoc(steps, last, WorkerEnds(i), WaitEnds(i));
    PrecedesHolds(steps, WorkerEnds(i), WaitEnds(i));
  }

  lemma {:induction false} RunTells(cap: nat, steps: seq<Step>, i: nat)
    requires Legal(cap, INITIAL, steps)
    ensures Tells(Run(cap, INITIAL, steps), steps, i)
    decreases |steps|
  {
    hide Tells, Can, Do;
    if steps == [] {
      NothingTold(i);
    } else {
      var front, last := steps[..|steps| - 1], steps[|steps| - 1];
      assert steps == front + [last];
      LastStep(cap, INITIAL, front, last);
      RunTells(cap, front, i);
      RunKeeps(cap, INITIAL, front);
      StepTells(cap, Run(cap, INITIAL, front), front, last, i);
    }
  }

  lemma NothingTold(i: nat)
    ensures Tells(INITIAL, [], i)
  {
  }

  /** **A call that was admitted and has ended gets its own outcome exactly when its worker's last
      section came before the end of its wait**, and is answered as expired otherwise, finished or
      not. The outcome is the one its worker produced. */
  lemma OwnIffWorkerFirst(cap: nat, steps: seq<Step>, i: nat)
    requires Legal(cap, INITIAL, steps) && i < |Run(cap, INITIAL, steps).calls|
    requires Run(cap, INITIAL, steps).calls[i].caller == Decided
    ensures var c := Run(cap, INITIAL, steps).calls[i];
            && CallValid(c) && WaitEnds(i) in steps
            && (AnswerOf(c).Own? <==> Precedes(steps, WorkerEnds(i), WaitEnds(i)))
            && (AnswerOf(c) == OuterBoundExpired <==> !Precedes(steps, WorkerEnds(i), WaitEnds(i)))
            && (AnswerOf(c).Own? ==> Produce(i, AnswerOf(c).y) in steps)
  {
    RunKeeps(cap, INITIAL, steps);
    RunTells(cap, steps, i);
  }

  /** So a call whose work is complete can still be answered as expired, when its caller takes the lock
      before its worker does. */
  lemma DoneYetExpired(cap: nat, y: Yield)
    requires cap >= 1
    ensures var steps := [Arrive, Admit(0), Produce(0, y), WaitEnds(0)];
            Legal(cap, INITIAL, steps)
            && var s := Run(cap, INITIAL, steps);
               |s.calls| == 1 && s.calls[0] == Call(Decided, Box(Just(y), false, true))
               && AnswerOf(s.calls[0]) == OuterBoundExpired
  {
    var s1 := Do(cap, INITIAL, Arrive);
    var s2 := Do(cap, s1, Admit(0));
    var s3 := Do(cap, s2, Produce(0, y));
    var s4 := Do(cap, s3, WaitEnds(0));
    var steps := [Arrive, Admit(0), Produce(0, y), WaitEnds(0)];
    assert steps[1..] == [Admit(0), Produce(0, y), WaitEnds(0)];
    assert steps[1..][1..] == [Produce(0, y), WaitEnds(0)];
    assert steps[1..][1..][1..] == [WaitEnds(0)];
    assert steps[1..][1..][1..][1..] == [];
    assert Legal(cap, s3, [WaitEnds(0)]) && Run(cap, s3, [WaitEnds(0)]) == s4;
    assert Legal(cap, s2, steps[1..][1..]) && Run(cap, s2, steps[1..][1..]) == s4;
    assert Legal(cap, s1, steps[1..]) && Run(cap, s1, steps[1..]) == s4;
  }

  // ---------------------------------------------------------------------------
  // Who is admitted

  lemma {:induction false} RunConcat(cap: nat, s: State, a: seq<Step>, b: seq<Step>)
    requires Legal(cap, s, a + b)
    ensures Legal(cap, s, a) && Legal(cap, Run(cap, s, a), b)
    ensures Run(cap, s, a + b) == Run(cap, Run(cap, s, a), b)
    decreases |a|
  {
    hide Can, Do;
    if a == [] {
      assert a + b == b;
    } else {
      assert (a + b)[1..] == a[1..] + b;
      RunConcat(cap, Do(cap, s, a[0]), a[1..], b);
    }
  }

  lemma {:induction false} AdmissionLasts(cap: nat, s: State, steps: seq<Step>, i: nat)
    requires Legal(cap, s, steps) && i < |s.calls| && s.calls[i].caller != Arrived
    ensures var t := Run(cap, s, steps);
            i < |t.calls| && t.calls[i].caller != Arrived
              && (t.calls[i].caller == Refused <==> s.calls[i].caller == Refused)
    decreases |steps|
  {
    if steps != [] {
      AdmissionLasts(cap, Do(cap, s, steps[0]), steps[1..], i);
    }
  }

  /** **A call is answered as saturated exactly when the counter stood at the cap, or past it, at its
      check**: it is then refused for good, and every other call's worker is started. */
  lemma SaturatedIff(cap: nat, before: seq<Step>, after: seq<Step>, i: nat)
    requires Legal(cap, INITIAL, before + ([Admit(i)] + after)) && Legal(cap, INITIAL, before)
    ensures var end := Run(cap, INITIAL, before + ([Admit(i)] + after));
            && i < |end.calls| && CallValid(end.calls[i])
            && (Run(cap, INITIAL, before).count >= cap ==>
                  end.calls[i].caller == Refused && AnswerOf(end.calls[i]) == Saturated)
            && (Run(cap, INITIAL, before).count < cap ==>
                  && end.calls[i].caller in {Waiting, Decided}
                  && (end.calls[i].caller == Decided ==> AnswerOf(end.calls[i]) != Saturated))
  {
    RunConcat(cap, INITIAL, before, [Admit(i)] + after);
    assert ([Admit(i)] + after)[1..] == after;
    var s := Run(cap, INITIAL, before);
    AdmissionLasts(cap, Do(cap, s, Admit(i)), after, i);
    RunKeeps(cap, INITIAL, before + ([Admit(i)] + after));
  }
}
