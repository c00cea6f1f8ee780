/** The per-statement watchdog, a timer against the statement it may cancel, and the connections a
    batch keeps open from one statement to the next. */
module Watchdog {
  import opened Common

  // ---------------------------------------------------------------------------
  // The two sections under the watchdog's lock, and the pool

  class Deadline {
    var fired: bool
    var disarmed: bool

    constructor ()
      ensures !fired && !disarmed
    {
      fired, disarmed := false, false;
    }

    /** The timer's section up to its cancel, which it sends while still holding the lock. */
    method Fire() returns (sends: bool)
      modifies `fired
      ensures sends <==> !disarmed
      ensures fired <==> old(fired) || !disarmed
    {
      if disarmed {
        return false;
      }
      fired := true;
      sends := true;
    }

    /** The statement's section when its block is left. */
    method Disarm()
      modifies `disarmed
      ensures disarmed
    {
      disarmed := true;
    }
  }

  /** The connection kept for `key`, or the next new one. */
  function HandedOut(pool: map<string, nat>, made: nat, key: string): nat {
    if key in pool then pool[key] else made
  }

  /** How many connections exist once that one has been handed out. */
  function MadeAfter(pool: map<string, nat>, made: nat, key: string): nat {
    if key in pool then made else made + 1
  }

  /** What stays pooled when the statement on `key` is over. */
  function Kept(pool: map<string, nat>, key: string, broken: bool): map<string, nat> {
    if broken then pool - {key} else pool
  }

  class BatchPool {
    var batch: bool
    var connections: map<string, nat>
    var made: nat

    constructor (batch: bool)
      ensures this.batch == batch && connections == map[] && made == 0
    {
      this.batch, connections, made := batch, map[], 0;
    }

    method SharedConnection(key: string) returns (conn: nat, shared: bool)
      modifies this
      ensures batch == old(batch) && shared == batch
      ensures conn == if batch then HandedOut(old(connections), old(made), key) else old(made)
      ensures made == if batch then MadeAfter(old(connections), old(made), key) else old(made) + 1
      ensures connections == if batch then old(connections)[key := conn] else old(connections)
    {
      shared := batch;
      if batch && key in connections {
        return connections[key], true;
      }
      conn := made;
      made := made + 1;
      if batch {
        connections := connections[key := conn];
      }
    }

    method ReleaseConnection(key: string, conn: nat, shared: bool, broken: bool) returns (closed: bool)
      modifies `connections
      ensures closed <==> !shared || broken
      ensures connections == if shared && batch then Kept(old(connections), key, broken) else old(connections)
    {
      if shared && !broken {
        return false;
      }
      if shared && batch {
        connections := connections - {key};
      }
      closed := true;
    }
  }

  // ---------------------------------------------------------------------------
  // One statement and its timer

  /** `Firing` and `Cancelled` hold the lock: the flag is set, and the cancel has yet to be sent or has
      been sent. */
  datatype Timer = Idle | Armed | Firing | Cancelled | Over

  datatype Outcome = Result | Limit | Failed

  /** Where the statement's own thread is: setting up its connection, running inside the block,
      returned from the driver, unwinding an error it has not classified yet or has, out of the block,
      or done. */
  datatype Body =
    | Preparing
    | Running
    | Returned
    | Raising
    | Classified(limit: bool)
    | LeftOk
    | LeftRaised(limit: bool)
    | Ended(outcome: Outcome)

  /** A statement on connection `conn`, with how often it was cancelled and raised an error. */
  datatype Dog = Dog(conn: nat, timer: Timer, fired: bool, disarmed: bool, body: Body, cancels: nat, errors: nat) {
    predicate LockFree() { timer != Firing && timer != Cancelled }
  }

  function NewDog(conn: nat): Dog {
    Dog(conn, Idle, false, false, Preparing, 0, 0)
  }

  datatype Move =
    | Arm             // the block is entered
    | SetupRaises
    | TimerFires
    | TimerSends
    | TimerLetsGo
    | TimerStandsDown // `Timer.cancel()` before it ran
    | DriverReturns
    | DriverRaises
    | Classify        // the flag is read in the `except`
    | Disarm
    | Settle          // the flag is read again, after the block
    | CommitRaises

  predicate CanMove(d: Dog, m: Move) {
    match m
    case Arm => d.body == Preparing
    case SetupRaises => d.body == Preparing
    case TimerFires => d.timer == Armed
    case TimerSends => d.timer == Firing
    case TimerLetsGo => d.timer == Cancelled
    case TimerStandsDown => d.timer == Armed && d.disarmed
    case DriverReturns => d.body == Running
    case DriverRaises => d.body == Running
    case Classify => d.body == Raising
    case Disarm => d.LockFree() && (d.body == Returned || d.body.Classified?)
    case Settle => d.body == LeftOk || d.body.LeftRaised?
    case CommitRaises => d.body == LeftOk && !d.fired
  }

  function Moved(d: Dog, m: Move): Dog
    requires CanMove(d, m)
  {
    match m
    case Arm => d.(body := Running, timer := Armed)
    case SetupRaises => d.(body := Ended(Failed), errors := d.errors + 1)
    case TimerFires => if d.disarmed then d.(timer := Over) else d.(timer := Firing, fired := true)
    case TimerSends => d.(timer := Cancelled, cancels := d.cancels + 1)
    case TimerLetsGo => d.(timer := Over)
    case TimerStandsDown => d.(timer := Over)
    case DriverReturns => d.(body := Returned)
    case DriverRaises => d.(body := Raising, errors := d.errors + 1)
    case Classify => d.(body := Classified(d.fired))
    case Disarm => d.(disarmed := true, body := if d.body == Returned then LeftOk else LeftRaised(d.body.limit))
    case Settle =>
      d.(body := Ended(if d.body == LeftOk then (if d.fired then Limit else Result)
                       else if d.body.limit then Limit else Failed))
    case CommitRaises => d.(body := Ended(Failed), errors := d.errors + 1)
  }

  // ---------------------------------------------------------------------------
  // A batch: one statement at a time, while timers of earlier ones may still be alive

  datatype State = State(pool: map<string, nat>, made: nat, dogs: seq<Dog>, key: Option<string>)

  datatype Step =
    | Open(key: string)
    | Act(i: nat, m: Move)
    | Release

  predicate Can(s: State, step: Step) {
    match step
    case Open(_) => s.key == None
    case Act(i, m) => i < |s.dogs| && CanMove(s.dogs[i], m)
    case Release => s.key != None && s.dogs != [] && s.dogs[|s.dogs| - 1].body.Ended?
  }

  function Do(s: State, step: Step): State
    requires Can(s, step)
  {
    match step
    case Open(key) =>
      var conn := HandedOut(s.pool, s.made, key);
      State(s.pool[key := conn], MadeAfter(s.pool, s.made, key), s.dogs + [NewDog(conn)], Some(key))
    case Act(i, m) => s.(dogs := s.dogs[i := Moved(s.dogs[i], m)])
    case Release =>
      s.(key := None,
         pool := Kept(s.pool, s.key.value, s.dogs[|s.dogs| - 1].body != Ended(Result)))
  }

  const INITIAL := State(map[], 0, [], None)

  predicate Legal(s: State, steps: seq<Step>)
    decreases |steps|
  {
    steps != [] ==> Can(s, steps[0]) && Legal(Do(s, steps[0]), steps[1..])
  }

  function Run(s: State, steps: seq<Step>): State
    requires Legal(s, steps)
    decreases |steps|
  {
    if steps == [] then s else Run(Do(s, steps[0]), steps[1..])
  }

  // ---------------------------------------------------------------------------
  // What each statement keeps

  predicate DogValid(d: Dog) {
    // the flag before the cancel, and at most one of each
    && (d.timer in {Idle, Armed} ==> !d.fired)
    && (d.timer in {Firing, Cancelled} ==> d.fired && !d.disarmed)
    && d.cancels == (if d.fired && d.timer != Firing then 1 else 0)
    && (!d.fired && d.timer == Over ==> d.disarmed)
    && (d.timer == Idle <==> d.body == Preparing || (d.body == Ended(Failed) && !d.disarmed))
    // the block is left by disarming
    && (d.body in {Preparing, Running, Returned, Raising} || d.body.Classified? ==> !d.disarmed)
    && (d.body == LeftOk || d.body.LeftRaised? || d.body in {Ended(Result), Ended(Limit)} ==> d.disarmed)
    // outcomes
    && ((d.body.Classified? || d.body.LeftRaised?) && d.body.limit ==> d.fired)
    && (d.body == Ended(Limit) ==> d.fired)
    && (d.body in {Preparing, Running, Returned, LeftOk} ==> d.errors == 0)
    && (d.body == Ended(Result) ==> !d.fired && d.errors == 0)
    && (d.body == Raising || d.body.Classified? || d.body.LeftRaised? || d.body == Ended(Failed) ==> d.errors == 1)
  }

  lemma MoveKeeps(d: Dog, m: Move)
    requires DogValid(d) && CanMove(d, m)
    ensures DogValid(Moved(d, m)) && Moved(d, m).conn == d.conn
    ensures d.disarmed ==>
              Moved(d, m).disarmed && Moved(d, m).fired == d.fired && Moved(d, m).cancels == d.cancels
    ensures d.body.Ended? ==> Moved(d, m).body == d.body && Moved(d, m).errors == d.errors
  {
  }

  /** How many statements have been released. */
  function Done(s: State): nat {
    if s.key == None || s.dogs == [] then |s.dogs| else |s.dogs| - 1
  }

  predicate DogsValid(s: State) {
    && (forall i :: 0 <= i < |s.dogs| ==> DogValid(s.dogs[i]) && s.dogs[i].conn < s.made)
    && (forall i :: 0 <= i < Done(s) ==> s.dogs[i].body.Ended?)
  }

  predicate PoolValid(s: State) {
    && (forall k :: k in s.pool ==> s.pool[k] < s.made)
    && (forall j, k :: j in s.pool && k in s.pool && s.pool[j] == s.pool[k] ==> j == k)
    && (s.key != None ==> s.dogs != [] && s.key.value in s.pool && s.pool[s.key.value] == s.dogs[|s.dogs| - 1].conn)
  }

  /** No statement that did not give a result has its connection in the pool. */
  predicate PoolClean(s: State) {
    forall i, k ::
      (0 <= i < Done(s) && k in s.pool && s.dogs[i].conn == s.pool[k]) ==> s.dogs[i].body == Ended(Result)
  }

  predicate Inv(s: State) {
    DogsValid(s) && PoolValid(s) && PoolClean(s)
  }

  lemma ActKeeps(s: State, i: nat, m: Move)
    requires Inv(s) && Can(s, Act(i, m))
    ensures Inv(Do(s, Act(i, m)))
  {
    hide DogValid, Moved, CanMove;
    MoveKeeps(s.dogs[i], m);
  }

  lemma OpenKeeps(s: State, key: string)
    requires Inv(s) && Can(s, Open(key))
    ensures Inv(Do(s, Open(key)))
  {
    hide DogValid;
    assert DogValid(NewDog(HandedOut(s.pool, s.made, key))) by { NewDogValid(HandedOut(s.pool, s.made, key)); }
  }

  lemma NewDogValid(conn: nat)
    ensures DogValid(NewDog(conn))
  {
  }

  lemma ReleaseKeeps(s: State)
    requires Inv(s) && Can(s, Release)
    ensures Inv(Do(s, Release))
  {
    hide DogValid;
  }

  lemma StepKeeps(s: State, step: Step)
    requires Inv(s) && Can(s, step)
    ensures Inv(Do(s, step))
  {
    hide Inv, Do;
    match step
    case Open(key) => OpenKeeps(s, key);
    case Act(i, m) => ActKeeps(s, i, m);
    case Release => ReleaseKeeps(s);
  }

  lemma {:induction false} RunKeeps(s: State, steps: seq<Step>)
    requires Inv(s) && Legal(s, steps)
    ensures Inv(Run(s, steps))
    decreases |steps|
  {
    if steps != [] {
      StepKeeps(s, steps[0]);
      RunKeeps(Do(s, steps[0]), steps[1..]);
    }
  }

  // ---------------------------------------------------------------------------
  // Main results

  /** **The flag is set before the cancel, and the cancel is sent at most once**; whenever an error is
      classified as ours, the flag was set; and a statement that gave a result has never been
      cancelled, then or in any later state. */
  lemma CancelSound(steps: seq<Step>, i: nat)
    requires Legal(INITIAL, steps) && i < |Run(INITIAL, steps).dogs|
    ensures var d := Run(INITIAL, steps).dogs[i];
            && d.cancels <= 1 && (d.cancels == 1 ==> d.fired)
            && (d.body == Ended(Result) ==> d.cancels == 0 && d.errors == 0 && !d.fired)
            && (d.body == Ended(Limit) ==> d.fired)
  {
    RunKeeps(INITIAL, steps);
  }

  /** **Nothing happens after the block is left**: the flag and the cancels stay as they are, however
      late the timer runs. */
  lemma {:induction false} NothingLate(s: State, steps: seq<Step>, i: nat)
    requires Inv(s) && Legal(s, steps) && i < |s.dogs| && s.dogs[i].disarmed
    ensures var t := Run(s, steps);
            i < |t.dogs| && t.dogs[i].disarmed && t.dogs[i].fired == s.dogs[i].fired
            && t.dogs[i].cancels == s.dogs[i].cancels
    decreases |steps|
  {
    if steps != [] {
      if steps[0].Act? {
        MoveKeeps(s.dogs[steps[0].i], steps[0].m);
      }
      StepKeeps(s, steps[0]);
      NothingLate(Do(s, steps[0]), steps[1..], i);
    }
  }

  // ---------------------------------------------------------------------------
  // Whose error it was

  /** What the steps so far say of a statement: its flag, the reading of it, and its outcome. */
  ghost predicate Tells(d: Dog, steps: seq<Step>, i: nat) {
    var fires, classify, disarm := Act(i, TimerFires), Act(i, Classify), Act(i, Disarm);
    // the flag
    && (!d.disarmed ==> disarm !in steps && (d.fired <==> fires in steps))
    && (d.disarmed ==> (d.fired <==> Precedes(steps, fires, disarm)))
    && (Act(i, TimerSends) in steps ==> fires in steps && d.fired)
    // the driver's answer, and the flag as it was read
    && (d.body in {Preparing, Running, Raising} ==> classify !in steps && Act(i, DriverReturns) !in steps)
    && (d.body in {Preparing, Running, Returned, LeftOk} ==> Act(i, DriverRaises) !in steps)
    && (d.body in {Returned, LeftOk} ==> classify !in steps && Act(i, DriverReturns) in steps)
    && (d.body.Classified? || d.body.LeftRaised? ==>
          Act(i, DriverReturns) !in steps && (d.body.limit <==> Precedes(steps, fires, classify)))
    && (d.body.Ended? ==> (d.body == Ended(Limit) <==> ReadAsSet(steps, i)))
    // an error of the set-up, of the driver or of the commit
    && (!d.body.Ended? ==> Act(i, SetupRaises) !in steps && Act(i, CommitRaises) !in steps)
    && (d.body == Raising || d.body.Classified? || d.body.LeftRaised? ==> Act(i, DriverRaises) in steps)
    && (d.body.Ended? ==> (d.body == Ended(Failed) <==> RaisedOwn(steps, i)))
    // an error behind a cancel
    && (CancelledFirst(steps, i) ==>
          && (d.body == Raising ==> d.fired)
          && (d.body.Classified? || d.body.LeftRaised? ==> d.body.limit)
          && (d.body.Ended? ==> d.body == Ended(Limit)))
  }

  /** The flag was set by the point it was read for good: in the handler of the driver's error, or
      behind the block when the driver returned. */
  ghost predicate ReadAsSet(steps: seq<Step>, i: nat) {
    || Precedes(steps, Act(i, TimerFires), Act(i, Classify))
    || (Act(i, DriverReturns) in steps && Precedes(steps, Act(i, TimerFires), Act(i, Disarm)))
  }

  /** The set-up or the commit raised, or the driver did and the flag was read as clear. */
  ghost predicate RaisedOwn(steps: seq<Step>, i: nat) {
    || Act(i, SetupRaises) in steps
    || Act(i, CommitRaises) in steps
    || (Act(i, DriverRaises) in steps && !Precedes(steps, Act(i, TimerFires), Act(i, Classify)))
  }

  /** The cancel was sent before the driver raised. */
  ghost predicate CancelledFirst(steps: seq<Step>, i: nat) {
    Precedes(steps, Act(i, TimerSends), Act(i, DriverRaises))
  }

  lemma PairsSnoc(steps: seq<Step>, last: Step, i: nat)
    ensures var fires := Act(i, TimerFires);
            && (forall m :: Precedes(steps + [last], fires, Act(i, m)) <==>
                  Precedes(steps, fires, Act(i, m)) || (fires in steps && last == Act(i, m)))
            && (CancelledFirst(steps + [last], i) <==>
                  CancelledFirst(steps, i) || (Act(i, TimerSends) in steps && last == Act(i, DriverRaises)))
            && (forall m :: Precedes(steps, fires, Act(i, m)) ==> Act(i, m) in steps)
            && (CancelledFirst(steps, i) ==> Act(i, DriverRaises) in steps)
            && (forall x :: x in steps + [last] <==> x in steps || x == last)
  {
    hide Precedes;
    forall m
      ensures Precedes(steps + [last], Act(i, TimerFires), Act(i, m)) <==>
              Precedes(steps, Act(i, TimerFires), Act(i, m)) || (Act(i, TimerFires) in steps && last == Act(i, m))
      ensures Precedes(steps, Act(i, TimerFires), Act(i, m)) ==> Act(i, m) in steps
    {
      PrecedesSnoc(steps, last, Act(i, TimerFires), Act(i, m));
      PrecedesHolds(steps, Act(i, TimerFires), Act(i, m));
    }
    PrecedesSnoc(steps, last, Act(i, TimerSends), Act(i, DriverRaises));
    PrecedesHolds(steps, Act(i, TimerSends), Act(i, DriverRaises));
  }

  lemma OwnStepTells(d: Dog, steps: seq<Step>, i: nat, m: Move)
    requires DogValid(d) && CanMove(d, m) && Tells(d, steps, i)
    ensures Tells(Moved(d, m), steps + [Act(i, m)], i)
  {
    PairsSnoc(steps, Act(i, m), i);
    hide Precedes, CancelledFirst;
  }

  lemma OtherStepTells(d: Dog, steps: seq<Step>, i: nat, last: Step)
    requires Tells(d, steps, i) && (last.Act? ==> last.i != i)
    ensures Tells(d, steps + [last], i)
  {
    PairsSnoc(steps, last, i);
    hide Precedes, CancelledFirst;
  }

  /** No step has touched the statement yet. */
  ghost predicate Untouched(steps: seq<Step>, i: nat) {
    forall m :: Act(i, m) !in steps
  }

  lemma NewTells(conn: nat, steps: seq<Step>, i: nat)
    requires Untouched(steps, i)
    ensures Tells(NewDog(conn), steps, i)
  {
    PrecedesHolds(steps, Act(i, TimerSends), Act(i, DriverRaises));
  }

  lemma {:induction false} LastStep(s: State, steps: seq<Step>, last: Step)
    requires Legal(s, steps + [last])
    ensures Legal(s, steps) && Can(Run(s, steps), last) && Run(s, steps + [last]) == Do(Run(s, steps), last)
    decreases |steps|
  {
    hide Can, Do;
    if steps == [] {
      assert steps + [last] == [last];
      assert [last][1..] == [];
    } else {
      assert (steps + [last])[1..] == steps[1..] + [last];
      LastStep(Do(s, steps[0]), steps[1..], last);
    }
  }

  lemma StepTells(s: State, steps: seq<Step>, last: Step, i: nat)
    requires Inv(s) && Can(s, last)
    requires if i < |s.dogs| then Tells(s.dogs[i], steps, i) else Untouched(steps, i)
    ensures var t := Do(s, last);
            if i < |t.dogs| then Tells(t.dogs[i], steps + [last], i) else Untouched(steps + [last], i)
  {
    hide Tells, DogValid, Moved, CanMove;
    if i < |s.dogs| {
      if last.Act? && last.i == i {
        OwnStepTells(s.dogs[i], steps, i, last.m);
      } else {
        OtherStepTells(s.dogs[i], steps, i, last);
      }
    } else if last.Open? && i == |s.dogs| {
      NewTells(HandedOut(s.pool, s.made, last.key), steps, i);
      OtherStepTells(NewDog(HandedOut(s.pool, s.made, last.key)), steps, i, last);
    }
  }

  lemma {:induction false} RunTells(steps: seq<Step>, i: nat)
    requires Legal(INITIAL, steps)
    ensures var s := Run(INITIAL, steps);
            if i < |s.dogs| then Tells(s.dogs[i], steps, i) else Untouched(steps, i)
    decreases |steps|
  {
    hide Tells, Can, Do, Inv;
    InitialHolds();
    if steps != [] {
      var front, last := steps[..|steps| - 1], steps[|steps| - 1];
      assert steps == front + [last];
      LastStep(INITIAL, front, last);
      RunTells(front, i);
      RunKeeps(INITIAL, front);
      StepTells(Run(INITIAL, front), front, last, i);
    }
  }

  lemma InitialHolds()
    ensures Inv(INITIAL)
  {
  }

  /** **A statement that has ended is refused as over its limit exactly when the flag was set by the
      point it was read**, and failed exactly when its set-up, its commit or, before the flag was set,
      its driver raised; an error the driver raised behind a cancel is never reported as the database's
      own. */
  lemma LimitIff(steps: seq<Step>, i: nat)
    requires Legal(INITIAL, steps) && i < |Run(INITIAL, steps).dogs| && Run(INITIAL, steps).dogs[i].body.Ended?
    ensures var d := Run(INITIAL, steps).dogs[i];
            && (d.body == Ended(Limit) <==> ReadAsSet(steps, i))
            && (d.body == Ended(Failed) <==> RaisedOwn(steps, i))
            && (CancelledFirst(steps, i) ==> d.body == Ended(Limit))
  {
    hide ReadAsSet, RaisedOwn, CancelledFirst;
    RunTells(steps, i);
  }

  /** **Every connection a batch hands out has never been cancelled and never raised an error.** */
  lemma HandedOutClean(steps: seq<Step>, key: string, i: nat)
    requires Legal(INITIAL, steps) && Can(Run(INITIAL, steps), Open(key))
    requires i < |Run(INITIAL, steps).dogs|
    requires Run(INITIAL, steps).dogs[i].conn == HandedOut(Run(INITIAL, steps).pool, Run(INITIAL, steps).made, key)
    ensures Run(INITIAL, steps).dogs[i].cancels == 0 && Run(INITIAL, steps).dogs[i].errors == 0
  {
    RunKeeps(INITIAL, steps);
  }

  // ---------------------------------------------------------------------------
  // Every statement can be left, whatever its timer is doing

  /** What the statement does next while nothing goes wrong, or its timer where it has to wait for it. */
  function Onward(d: Dog): Move
    requires !d.body.Ended?
  {
    match d.body
    case Preparing => Arm
    case Running => DriverReturns
    case Raising => Classify
    case LeftOk => Settle
    case LeftRaised(_) => Settle
    case _ => if d.timer == Firing then TimerSends else if d.timer == Cancelled then TimerLetsGo else Disarm
  }

  /** How far a statement is from its end. */
  function Distance(d: Dog): nat {
    (match d.body
     case Preparing => 16
     case Running => 12
     case Raising => 12
     case Returned => 8
     case Classified(_) => 8
     case LeftOk => 4
     case LeftRaised(_) => 4
     case Ended(_) => 0) +
    (if d.timer == Firing then 2 else if d.timer == Cancelled then 1 else 0)
  }

  lemma OnwardMoves(d: Dog)
    requires DogValid(d) && !d.body.Ended?
    ensures CanMove(d, Onward(d))
    ensures var e := Moved(d, Onward(d));
            && Distance(e) < Distance(d) && e.fired == d.fired
            && (d.body in {Preparing, Running, Returned, LeftOk} ==>
                  e.body in {Running, Returned, LeftOk, Ended(if d.fired then Limit else Result)})
  {
  }

  lemma EndedCancels(d: Dog)
    requires DogValid(d) && d.body in {Ended(Result), Ended(Limit)}
    ensures d.cancels == if d.fired then 1 else 0
  {
  }

  lemma {:induction false} Leave(s: State) returns (more: seq<Step>)
    requires Inv(s) && s.key.Some? && s.dogs != []
    ensures Legal(s, more) && Run(s, more).key == None && |Run(s, more).dogs| == |s.dogs|
    ensures var d, e := s.dogs[|s.dogs| - 1], Run(s, more).dogs[|s.dogs| - 1];
            && e.body.Ended?
            && (d.body in {Preparing, Running, Returned, LeftOk, Ended(if d.fired then Limit else Result)} ==>
                  e.body == Ended(if d.fired then Limit else Result) && e.cancels == if d.fired then 1 else 0)
    decreases if s.dogs == [] then 0 else Distance(s.dogs[|s.dogs| - 1])
  {
    hide DogValid, CanMove, Moved, Onward, PoolValid, PoolClean, Distance;
    var i := |s.dogs| - 1;
    var d := s.dogs[i];
    if d.body.Ended? {
      more := [Release];
      assert more[1..] == [];
      assert Run(s, more) == Do(s, Release);
      if d.body in {Ended(Result), Ended(Limit)} {
        EndedCancels(d);
      }
    } else {
      OnwardMoves(d);
      var step := Act(i, Onward(d));
      StepKeeps(s, step);
      var rest := Leave(Do(s, step));
      more := [step] + rest;
      assert more[1..] == rest;
    }
  }

  /** **No statement is stuck, and each can end either way**: from every reachable state in which one is
      open, and whatever its timer holds, some continuation releases it; and while it runs and its
      timer has not fired, one in which it gives its result uncancelled, and one in which it is
      cancelled once and refused as over its limit. */
  lemma NeverStuck(steps: seq<Step>, cut: bool) returns (more: seq<Step>)
    requires Legal(INITIAL, steps) && Run(INITIAL, steps).key.Some?
    ensures var s := Run(INITIAL, steps);
            && s.dogs != [] && Legal(s, more) && Run(s, more).key == None
            && var d := s.dogs[|s.dogs| - 1];
               d.body in {Preparing, Running} && !d.fired ==>
                 && |Run(s, more).dogs| == |s.dogs|
                 && Run(s, more).dogs[|s.dogs| - 1].body == Ended(if cut then Limit else Result)
                 && Run(s, more).dogs[|s.dogs| - 1].cancels == if cut then 1 else 0
  {
    hide Legal, Run, DogValid, Can, Do;
    RunKeeps(INITIAL, steps);
    var s := Run(INITIAL, steps);
    var d := s.dogs[|s.dogs| - 1];
    if cut && d.body in {Preparing, Running} && !d.fired {
      more := Cut(s);
    } else {
      more := Leave(s);
    }
  }

  /** The timer fires as soon as it runs. */
  lemma Cut(s: State) returns (more: seq<Step>)
    requires Inv(s) && s.key.Some? && s.dogs != []
    requires var d := s.dogs[|s.dogs| - 1]; d.body in {Preparing, Running} && !d.fired
    ensures Legal(s, more) && Run(s, more).key == None && |Run(s, more).dogs| == |s.dogs|
    ensures var e := Run(s, more).dogs[|s.dogs| - 1]; e.body == Ended(Limit) && e.cancels == 1
    decreases if s.dogs == [] || s.dogs[|s.dogs| - 1].body == Running then 0 else 1
  {
    hide PoolValid, PoolClean;
    var i := |s.dogs| - 1;
    var step := Act(i, if s.dogs[i].body == Running then TimerFires else Arm);
    assert DogValid(s.dogs[i]);
    StepKeeps(s, step);
    var rest: seq<Step>;
    if step.m == TimerFires {
      rest := Leave(Do(s, step));
    } else {
      rest := Cut(Do(s, step));
    }
    more := [step] + rest;
    assert more[1..] == rest;
  }

  // ---------------------------------------------------------------------------
  // Which connection the next statement gets

  lemma {:induction false} PoolStays(s: State, steps: seq<Step>, key: string)
    requires Legal(s, steps) && s.key != Some(key) && Open(key) !in steps
    ensures var t := Run(s, steps);
            && t.key != Some(key) && t.made >= s.made
            && (key in t.pool <==> key in s.pool) && (key in s.pool ==> t.pool[key] == s.pool[key])
    decreases |steps|
  {
    hide CanMove, Moved;
    if steps != [] {
      PoolStays(Do(s, steps[0]), steps[1..], key);
    }
  }

  /** **A connection is used again exactly when its last statement gave a result**: whatever runs on other
      keys in between, and however late old timers run, the next statement on a key gets the
      connection of the one before it if and only if that one ended with its result. */
  lemma ReusedIff(steps: seq<Step>, between: seq<Step>, key: string)
    requires Legal(INITIAL, steps) && Run(INITIAL, steps).key == Some(key)
    requires Can(Run(INITIAL, steps), Release) && Open(key) !in between
    requires Legal(Do(Run(INITIAL, steps), Release), between)
    requires Can(Run(Do(Run(INITIAL, steps), Release), between), Open(key))
    ensures var s := Run(INITIAL, steps);
            var t := Do(Run(Do(s, Release), between), Open(key));
            && t.dogs != []
            && (t.dogs[|t.dogs| - 1].conn == s.dogs[|s.dogs| - 1].conn <==>
                s.dogs[|s.dogs| - 1].body == Ended(Result))
  {
    hide Legal, Run, DogValid;
    RunKeeps(INITIAL, steps);
    PoolStays(Do(Run(INITIAL, steps), Release), between, key);
  }
}
