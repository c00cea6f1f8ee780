/** Several instances booting against one database: any interleaving of their runs, with failing
    scripts, lost connections and commits whose answer never arrives. */
module MigrationRuns {
  import opened Common
  import opened Migrations

  /** Where one call of `run_migrations` is: before the lock, holding it, in its loop, with a script run
      but not tracked, with both and not committed, or over. */
  datatype Pc = Starting | Holding | Looping | Scripted | Tracked | Finished | Failed

  /** One call: its connection, its plan and how far it is, what it read as applied, what it ran. */
  datatype Call = Call(pc: Pc, alive: bool, plan: seq<string>, at: nat, applied: set<string>, ran: seq<string>) {
    predicate Busy() { pc in {Holding, Looping, Scripted, Tracked} }
    predicate InLoop() { pc in {Looping, Scripted, Tracked} }
  }

  /** The committed tracking rows, the scripts of committed transactions in commit order, and the
      call whose session holds the lock. */
  datatype State = State(tracked: set<string>, log: seq<string>, lock: int, calls: seq<Call>)

  const FREE := -1
  const INITIAL := State({}, [], FREE, [])

  datatype Move =
    | Acquire
    | ReadApplied
    | Skip
    | RunScript
    | InsertRow
    | Commit
    | CommitLost(landed: bool)  // the connection dies during the commit
    | Finish                    // the loop is over: unlock and return
    | GiveUp(unlocks: bool)     // anything raised: roll back, try to unlock, raise
    | Drop                      // the connection dies, and its session lock with it
    | Notice                    // the next statement on a dead connection raises

  datatype Step = Boot(plan: seq<string>) | Act(i: nat, m: Move)

  predicate CanMove(s: State, i: nat, m: Move)
    requires i < |s.calls|
  {
    var c := s.calls[i];
    match m
    case Acquire => c.pc == Starting && c.alive && s.lock == FREE
    case ReadApplied => c.pc == Holding && c.alive
    case Skip => c.pc == Looping && c.alive && c.at < |c.plan| && c.plan[c.at] in c.applied
    case RunScript => c.pc == Looping && c.alive && c.at < |c.plan| && c.plan[c.at] !in c.applied
    case InsertRow => c.pc == Scripted && c.alive && c.at < |c.plan| && c.plan[c.at] !in s.tracked
    case Commit => c.pc == Tracked && c.alive && c.at < |c.plan|
    case CommitLost(_) => c.pc == Tracked && c.alive && c.at < |c.plan|
    case Finish => c.pc == Looping && c.alive && c.at == |c.plan|
    case GiveUp(_) => c.Busy() && c.alive
    case Drop => c.alive
    case Notice => c.Busy() && !c.alive
  }

  predicate Can(s: State, step: Step) {
    match step
    case Boot(_) => true
    case Act(i, m) => i < |s.calls| && CanMove(s, i, m)
  }

  function Freed(s: State, i: nat): int {
    if s.lock == i then FREE else s.lock
  }

  function Moved(s: State, i: nat, m: Move): State
    requires i < |s.calls| && CanMove(s, i, m)
  {
    var c := s.calls[i];
    match m
    case Acquire => s.(lock := i, calls := s.calls[i := c.(pc := Holding)])
    case ReadApplied => s.(calls := s.calls[i := c.(pc := Looping, applied := s.tracked)])
    case Skip => s.(calls := s.calls[i := c.(at := c.at + 1)])
    case RunScript => s.(calls := s.calls[i := c.(pc := Scripted)])
    case InsertRow => s.(calls := s.calls[i := c.(pc := Tracked)])
    case Commit =>
      var id := c.plan[c.at];
      s.(tracked := s.tracked + {id}, log := s.log + [id],
         calls := s.calls[i := c.(pc := Looping, at := c.at + 1, ran := c.ran + [id])])
    case CommitLost(landed) =>
      var id := c.plan[c.at];
      State(if landed then s.tracked + {id} else s.tracked, if landed then s.log + [id] else s.log,
            Freed(s, i), s.calls[i := c.(alive := false)])
    case Finish => s.(lock := Freed(s, i), calls := s.calls[i := c.(pc := Finished)])
    case GiveUp(unlocks) =>
      s.(lock := if unlocks then Freed(s, i) else s.lock, calls := s.calls[i := c.(pc := Pc.Failed)])
    case Drop => s.(lock := Freed(s, i), calls := s.calls[i := c.(alive := false)])
    case Notice => s.(calls := s.calls[i := c.(pc := Pc.Failed)])
  }

  function Do(s: State, step: Step): State
    requires Can(s, step)
  {
    match step
    case Boot(plan) => s.(calls := s.calls + [Call(Starting, true, plan, 0, {}, [])])
    case Act(i, m) => Moved(s, i, m)
  }

  predicate Legal(s: State, steps: seq<Step>)
    decreases |steps|
  {
    steps != [] ==> Can(s, steps[0]) && Legal(Do(s, steps[0]), steps[1..])
  }

  function Run(s: State, steps: seq<Step>): State
    requires Legal(s, steps)
    decreases |steps|
  {
    if steps == [] then s else Run(Do(s, steps[0]), steps[1..])
  }

  // ---------------------------------------------------------------------------
  // The invariant

  /** What a call has run is what was missing so far, and all of it is committed. */
  predicate CallValid(s: State, c: Call) {
    && c.at <= |c.plan|
    && c.ran == Missing(c.plan[..c.at], c.applied)
    && Ids(c.ran) <= s.tracked && c.applied <= s.tracked
    && (c.pc in {Starting, Holding} ==> c.at == 0)
    && (c.pc in {Scripted, Tracked} ==> c.at < |c.plan| && c.plan[c.at] !in c.applied)
    && (c.pc == Finished ==> c.at == |c.plan|)
  }

  /** A live call inside the bracket holds the lock, and then its reading of the table is current. */
  predicate LockValid(s: State, i: nat)
    requires i < |s.calls|
  {
    var c := s.calls[i];
    && (c.alive && c.Busy() ==> s.lock == i)
    && (c.alive && c.InLoop() ==> s.tracked == c.applied + Ids(c.ran))
    && (c.alive && c.pc == Tracked && c.at < |c.plan| ==> c.plan[c.at] !in s.tracked)
  }

  predicate RowsMatchScripts(s: State) {
    Unique(s.log) && Ids(s.log) == s.tracked
  }

  predicate Inv(s: State) {
    && RowsMatchScripts(s)
    && (forall i :: 0 <= i < |s.calls| ==> CallValid(s, s.calls[i]) && LockValid(s, i))
    && (forall i, j, id :: 0 <= i < j < |s.calls| && id in s.calls[i].ran ==> id !in s.calls[j].ran)
  }

  /** A live call in its loop finds the next id tracked exactly when it read it as applied or has just
      run it itself. */
  lemma NextTrackedIff(s: State, i: nat)
    requires Inv(s) && i < |s.calls| && s.calls[i].alive && s.calls[i].InLoop()
    requires s.calls[i].at < |s.calls[i].plan| && s.calls[i].plan[s.calls[i].at] !in s.calls[i].applied
    ensures var c := s.calls[i];
            c.plan[c.at] in s.tracked <==> c.plan[c.at] in c.plan[..c.at]
  {
    var c := s.calls[i];
    assert CallValid(s, c) && LockValid(s, i);
    MissingExact(c.plan[..c.at], c.applied, c.plan[c.at]);
  }

  lemma LogGrows(log: seq<string>, tracked: set<string>, id: string)
    requires Unique(log) && Ids(log) == tracked && id !in tracked
    ensures Unique(log + [id]) && Ids(log + [id]) == tracked + {id}
  {
    IdsConcat(log, [id]);
  }

  lemma Known(s: State, i: nat)
    requires Inv(s) && i < |s.calls|
    ensures RowsMatchScripts(s) && CallValid(s, s.calls[i]) && LockValid(s, i)
  {
  }

  /** A call that commits its next id has run what was missing up to there. */
  lemma CallCommits(s: State, t: State, c: Call)
    requires CallValid(s, c) && c.pc == Tracked && c.at < |c.plan|
    requires t.tracked == s.tracked + {c.plan[c.at]}
    ensures CallValid(t, c.(pc := Looping, at := c.at + 1, ran := c.ran + [c.plan[c.at]]))
  {
    hide Missing, Ids;
    var id := c.plan[c.at];
    MissingSnoc(c.plan[..c.at], id, c.applied);
    assert c.plan[..c.at] + [id] == c.plan[..c.at + 1];
    IdsConcat(c.ran, [id]);
  }

  lemma CommitOwn(s: State, i: nat)
    requires Inv(s) && Can(s, Act(i, Commit))
    ensures var t := Moved(s, i, Commit); RowsMatchScripts(t) && CallValid(t, t.calls[i]) && LockValid(t, i)
    ensures s.lock == i && s.calls[i].plan[s.calls[i].at] !in s.tracked
  {
    hide Missing, Ids, Unique, Inv, CallValid;
    var c := s.calls[i];
    var id := c.plan[c.at];
    Known(s, i);
    LogGrows(s.log, s.tracked, id);
    CallCommits(s, Moved(s, i, Commit), c);
    IdsConcat(c.ran, [id]);
  }

  lemma CommitKeeps(s: State, i: nat)
    requires Inv(s) && Can(s, Act(i, Commit))
    ensures Inv(Moved(s, i, Commit))
  {
    hide Missing, Unique, RowsMatchScripts;
    var t := Moved(s, i, Commit);
    CommitOwn(s, i);
    forall j | 0 <= j < |t.calls| && j != i ensures CallValid(t, t.calls[j]) && LockValid(t, j) {
      assert CallValid(s, s.calls[j]) && LockValid(s, j);
    }
    forall a, b, x | 0 <= a < b < |t.calls| && x in t.calls[a].ran ensures x !in t.calls[b].ran {
      assert CallValid(s, s.calls[a]) && CallValid(s, s.calls[b]);
    }
  }

  lemma LostKeeps(s: State, i: nat, landed: bool)
    requires Inv(s) && Can(s, Act(i, CommitLost(landed)))
    ensures Inv(Moved(s, i, CommitLost(landed)))
  {
    var c := s.calls[i];
    var t := Moved(s, i, CommitLost(landed));
    assert CallValid(s, c) && LockValid(s, i);
    LogGrows(s.log, s.tracked, c.plan[c.at]);
    forall j | 0 <= j < |t.calls| ensures CallValid(t, t.calls[j]) && LockValid(t, j) {
      assert CallValid(s, s.calls[j]) && LockValid(s, j);
    }
  }

  /** A change to one call that commits nothing and touches no one else's lock. */
  lemma OneCallKeeps(s: State, t: State, i: nat)
    requires Inv(s) && i < |s.calls| && |t.calls| == |s.calls| && t.calls == s.calls[i := t.calls[i]]
    requires t.tracked == s.tracked && t.log == s.log && t.calls[i].ran == s.calls[i].ran
    requires CallValid(t, t.calls[i]) && LockValid(t, i)
    requires t.lock == s.lock || s.lock == i || s.lock == FREE
    ensures Inv(t)
  {
    hide Missing, Unique, Ids;
    forall j | 0 <= j < |t.calls| && j != i ensures CallValid(t, t.calls[j]) && LockValid(t, j) {
      assert CallValid(s, s.calls[j]) && LockValid(s, j);
    }
  }

  lemma SkipHolds(s: State, c: Call)
    requires CallValid(s, c) && c.at < |c.plan| && c.plan[c.at] in c.applied && c.pc == Looping
    ensures CallValid(s, c.(at := c.at + 1))
  {
    MissingSnoc(c.plan[..c.at], c.plan[c.at], c.applied);
    assert c.plan[..c.at] + [c.plan[c.at]] == c.plan[..c.at + 1];
  }

  /** The moves that commit nothing. */
  lemma QuietKeeps(s: State, i: nat, m: Move)
    requires Inv(s) && Can(s, Act(i, m)) && !m.Commit? && !m.CommitLost?
    ensures Inv(Moved(s, i, m))
  {
    var t := Moved(s, i, m);
    var c := s.calls[i];
    assert CallValid(s, c) && LockValid(s, i);
    if m.Skip? {
      SkipHolds(s, c);
    }
    OneCallKeeps(s, t, i);
  }

  lemma BootKeeps(s: State, plan: seq<string>)
    requires Inv(s)
    ensures Inv(Do(s, Boot(plan)))
  {
    var t := Do(s, Boot(plan));
    forall j | 0 <= j < |t.calls| ensures CallValid(t, t.calls[j]) && LockValid(t, j) {
      if j < |s.calls| {
        assert CallValid(s, s.calls[j]) && LockValid(s, j);
      }
    }
  }

  lemma StepKeeps(s: State, step: Step)
    requires Inv(s) && Can(s, step)
    ensures Inv(Do(s, step))
  {
    hide Inv, Moved, CanMove;
    match step
    case Boot(plan) => BootKeeps(s, plan);
    case Act(i, m) =>
      match m
      case Commit => CommitKeeps(s, i);
      case CommitLost(landed) => LostKeeps(s, i, landed);
      case _ => QuietKeeps(s, i, m);
  }

  lemma {:induction false} RunKeeps(s: State, steps: seq<Step>)
    requires Inv(s) && Legal(s, steps)
    ensures Inv(Run(s, steps))
    decreases |steps|
  {
    hide Inv, Do, Can;
    if steps != [] {
      StepKeeps(s, steps[0]);
      RunKeeps(Do(s, steps[0]), steps[1..]);
    }
  }

  // ---------------------------------------------------------------------------
  // Main results

  /** **Each script runs in a committed transaction at most once, and exactly when it is tracked**;
      no script is run by two calls. */
  lemma ExactlyOnce(steps: seq<Step>, i: nat, j: nat, id: string)
    requires Legal(INITIAL, steps)
    ensures var s := Run(INITIAL, steps);
            && Unique(s.log) && (id in s.tracked <==> id in s.log)
            && (i < j < |s.calls| && id in s.calls[i].ran ==> id !in s.calls[j].ran && id in s.log)
  {
    InitialHolds();
    RunKeeps(INITIAL, steps);
    var s := Run(INITIAL, steps);
    if i < j < |s.calls| && id in s.calls[i].ran {
      assert CallValid(s, s.calls[i]);
    }
  }

  lemma InitialHolds()
    ensures Inv(INITIAL)
  {
  }

  /** **At most one live call is between lock and unlock.** */
  lemma OneAtATime(steps: seq<Step>, i: nat, j: nat)
    requires Legal(INITIAL, steps) && i < |Run(INITIAL, steps).calls| && j < |Run(INITIAL, steps).calls|
    requires Run(INITIAL, steps).calls[i].alive && Run(INITIAL, steps).calls[i].Busy()
    requires Run(INITIAL, steps).calls[j].alive && Run(INITIAL, steps).calls[j].Busy()
    ensures i == j
  {
    InitialHolds();
    RunKeeps(INITIAL, steps);
    assert LockValid(Run(INITIAL, steps), i) && LockValid(Run(INITIAL, steps), j);
  }

  /** **A call that returns ran exactly the ids it found missing, in plan order**, and its whole plan is
      applied from then on. */
  lemma FinishedApplied(steps: seq<Step>, i: nat, id: string)
    requires Legal(INITIAL, steps) && i < |Run(INITIAL, steps).calls| && Run(INITIAL, steps).calls[i].pc == Finished
    ensures var s := Run(INITIAL, steps);
            var c := s.calls[i];
            && c.ran == Missing(c.plan, c.applied)
            && (id in c.plan ==> id in s.tracked)
  {
    InitialHolds();
    RunKeeps(INITIAL, steps);
    var s := Run(INITIAL, steps);
    var c := s.calls[i];
    assert CallValid(s, c);
    assert c.plan[..|c.plan|] == c.plan;
    MissingExact(c.plan, c.applied, id);
  }

  /** **The tracking insert of a live call meets an existing key exactly when its own plan names the id
      a second time.** */
  lemma InsertConflictIff(steps: seq<Step>, i: nat)
    requires Legal(INITIAL, steps) && i < |Run(INITIAL, steps).calls|
    requires Run(INITIAL, steps).calls[i].pc == Scripted && Run(INITIAL, steps).calls[i].alive
    ensures var c := Run(INITIAL, steps).calls[i];
            && c.at < |c.plan|
            && (Can(Run(INITIAL, steps), Act(i, InsertRow)) <==> c.plan[c.at] !in c.plan[..c.at])
  {
    InitialHolds();
    RunKeeps(INITIAL, steps);
    assert CallValid(Run(INITIAL, steps), Run(INITIAL, steps).calls[i]);
    NextTrackedIff(Run(INITIAL, steps), i);
  }

  /** A call that read its whole plan as applied never runs a script. */
  lemma NothingToRun(s: State, i: nat)
    requires Inv(s) && i < |s.calls| && Ids(s.calls[i].plan) <= s.calls[i].applied
    ensures s.calls[i].ran == [] && s.calls[i].pc !in {Scripted, Tracked}
  {
    var c := s.calls[i];
    assert CallValid(s, c);
    forall id | id in c.plan[..c.at] ensures id in c.applied {
      assert id in Ids(c.plan);
    }
    NothingMissing(c.plan[..c.at], c.applied);
    if c.at < |c.plan| {
      assert c.plan[c.at] in Ids(c.plan);
    }
  }

  lemma {:induction false} RunConcat(s: State, a: seq<Step>, b: seq<Step>)
    requires Legal(s, a + b)
    ensures Legal(s, a) && Legal(Run(s, a), b) && Run(s, a + b) == Run(Run(s, a), b)
    decreases |a|
  {
    hide Can, Do;
    if a == [] {
      assert a + b == b;
    } else {
      assert (a + b)[1..] == a[1..] + b;
      RunConcat(Do(s, a[0]), a[1..], b);
    }
  }

  /** What a call has read stays what it works from. */
  predicate HasRead(s: State, i: nat, plan: seq<string>, applied: set<string>) {
    && i < |s.calls| && s.calls[i].pc !in {Starting, Holding}
    && s.calls[i].plan == plan && s.calls[i].applied == applied
  }

  lemma StepKeepsReading(s: State, step: Step, i: nat, plan: seq<string>, applied: set<string>)
    requires HasRead(s, i, plan, applied) && Can(s, step)
    ensures HasRead(Do(s, step), i, plan, applied)
  {
  }

  lemma {:induction false} RunKeepsReading(s: State, steps: seq<Step>, i: nat, plan: seq<string>, applied: set<string>)
    requires HasRead(s, i, plan, applied) && Legal(s, steps)
    ensures HasRead(Run(s, steps), i, plan, applied)
    decreases |steps|
  {
    hide HasRead, Can, Do;
    if steps != [] {
      StepKeepsReading(s, steps[0], i, plan, applied);
      RunKeepsReading(Do(s, steps[0]), steps[1..], i, plan, applied);
    }
  }

  /** **A rerun applies nothing**: a call that reads the tracking table after another call with its
      plan, or a larger one, has returned never runs a script. */
  lemma RerunAppliesNothing(before: seq<Step>, after: seq<Step>, i: nat, j: nat)
    requires Legal(INITIAL, before + ([Act(i, ReadApplied)] + after))
    requires Legal(INITIAL, before) && i < |Run(INITIAL, before).calls| && j < |Run(INITIAL, before).calls|
    requires Run(INITIAL, before).calls[j].pc == Finished
    requires Ids(Run(INITIAL, before).calls[i].plan) <= Ids(Run(INITIAL, before).calls[j].plan)
    ensures var end := Run(INITIAL, before + ([Act(i, ReadApplied)] + after));
            i < |end.calls| && end.calls[i].ran == [] && end.calls[i].pc !in {Scripted, Tracked}
  {
    hide Inv, Missing, CallValid;
    var read := Act(i, ReadApplied);
    RunConcat(INITIAL, before, [read] + after);
    assert ([read] + after)[1..] == after;
    InitialHolds();
    var s := Run(INITIAL, before);
    var t := Do(s, read);
    forall id | id in s.calls[i].plan ensures id in s.tracked {
      assert id in Ids(s.calls[i].plan);
      FinishedApplied(before, j, id);
    }
    RunKeepsReading(t, after, i, s.calls[i].plan, s.tracked);
    RunKeeps(INITIAL, before + ([read] + after));
    NothingToRun(Run(t, after), i);
  }
}
