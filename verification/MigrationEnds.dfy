/** Who holds the migration lock, and that every call can still finish. */
module MigrationEnds {
  import opened Common
  import opened Migrations
  import opened MigrationRuns

  // ---------------------------------------------------------------------------
  // Who holds the lock

  ghost predicate HolderTold(s: State, steps: seq<Step>, i: nat) {
    if i < |s.calls| then
      var c := s.calls[i];
      && (s.lock == i <==> c.alive && (c.Busy() || Act(i, GiveUp(false)) in steps))
      && (c.pc != Pc.Failed ==> Act(i, GiveUp(false)) !in steps)
    else
      s.lock != i && forall m :: Act(i, m) !in steps
  }

  lemma StepTold(s: State, steps: seq<Step>, last: Step, i: nat)
    requires Can(s, last) && s.lock >= FREE && HolderTold(s, steps, i)
    requires last.Act? ==> HolderTold(s, steps, last.i)
    ensures Do(s, last).lock >= FREE && HolderTold(Do(s, last), steps + [last], i)
  {
  }

  lemma LastStep(s: State, front: seq<Step>, last: Step)
    requires Legal(s, front + [last])
    ensures Legal(s, front) && Can(Run(s, front), last) && Run(s, front + [last]) == Do(Run(s, front), last)
  {
    hide Can, Do;
    RunConcat(s, front, [last]);
    assert [last][1..] == [];
  }

  lemma {:induction false} RunTold(steps: seq<Step>)
    requires Legal(INITIAL, steps)
    ensures Run(INITIAL, steps).lock >= FREE
    ensures forall i: nat :: HolderTold(Run(INITIAL, steps), steps, i)
    decreases |steps|
  {
    hide HolderTold, Can, Do;
    if steps == [] {
      NoneTold();
    } else {
      var front, last := steps[..|steps| - 1], steps[|steps| - 1];
      assert steps == front + [last];
      LastStep(INITIAL, front, last);
      RunTold(front);
      forall i: nat ensures HolderTold(Run(INITIAL, steps), steps, i) {
        StepTold(Run(INITIAL, front), front, last, i);
      }
      StepTold(Run(INITIAL, front), front, last, 0);
    }
  }

  lemma NoneTold()
    ensures INITIAL.lock >= FREE && forall i: nat :: HolderTold(INITIAL, [], i)
  {
  }

  /** **The lock is held exactly by a live session inside the bracket, or by one whose call failed and
      could not unlock**: a call that returned, and a connection that died, never keep it. */
  lemma HeldIff(steps: seq<Step>, i: nat)
    requires Legal(INITIAL, steps) && i < |Run(INITIAL, steps).calls|
    ensures var s := Run(INITIAL, steps);
            s.lock == i <==> s.calls[i].alive && (s.calls[i].Busy() || Act(i, GiveUp(false)) in steps)
  {
    hide Legal, Run;
    RunTold(steps);
    assert HolderTold(Run(INITIAL, steps), steps, i);
  }

  // ---------------------------------------------------------------------------
  // Every call can finish

  /** The next move of a call that nothing goes wrong for. */
  function Onward(c: Call): Move {
    match c.pc
    case Starting => Acquire
    case Holding => ReadApplied
    case Scripted => InsertRow
    case Tracked => Commit
    case _ =>
      if c.at >= |c.plan| then Finish
      else if c.plan[c.at] in c.applied then Skip
      else RunScript
  }

  function Left(c: Call): int {
    5 * (|c.plan| - c.at) +
    match c.pc
    case Starting => 4
    case Holding => 3
    case Looping => 2
    case Scripted => 1
    case _ => 0
  }

  predicate Ready(s: State, i: nat) {
    && i < |s.calls| && s.calls[i].alive && Unique(s.calls[i].plan)
    && (s.calls[i].Busy() || (s.calls[i].pc == Starting && s.lock == FREE))
  }

  predicate Own(steps: seq<Step>, i: nat) {
    forall k :: 0 <= k < |steps| ==> steps[k].Act? && steps[k].i == i
  }

  /** What one more move of a call leaves to do. */
  ghost predicate Closer(s: State, t: State, i: nat)
    requires i < |s.calls|
  {
    && |t.calls| == |s.calls|
    && var c, d := s.calls[i], t.calls[i];
       && d.plan == c.plan && c.ran <= d.ran
       && t.log == s.log + d.ran[|c.ran|..] && t.tracked == s.tracked + Ids(d.ran[|c.ran|..])
       && d.applied == if c.pc in {Starting, Holding} && d.pc !in {Starting, Holding} then s.tracked else c.applied
  }

  lemma MayInsert(s: State, i: nat)
    requires Inv(s) && Ready(s, i) && s.calls[i].pc == Scripted
    ensures CanMove(s, i, InsertRow)
  {
    hide Missing, Inv, CallValid, LockValid;
    var c := s.calls[i];
    Known(s, i);
    ScriptedValid(s, c);
    NextTrackedIff(s, i);
    forall k | 0 <= k < c.at ensures c.plan[k] != c.plan[c.at] {}
  }

  lemma ScriptedValid(s: State, c: Call)
    requires CallValid(s, c) && c.pc in {Scripted, Tracked}
    ensures c.at < |c.plan| && c.plan[c.at] !in c.applied
  {
  }

  lemma Bounded(s: State, i: nat)
    requires Inv(s) && i < |s.calls|
    ensures s.calls[i].at <= |s.calls[i].plan|
    ensures s.calls[i].alive && s.calls[i].Busy() ==> s.lock == i
    ensures s.calls[i].pc in {Scripted, Tracked} ==> s.calls[i].at < |s.calls[i].plan|
  {
    assert CallValid(s, s.calls[i]) && LockValid(s, i);
  }

  lemma OnwardRuns(s: State, i: nat)
    requires Inv(s) && Ready(s, i)
    ensures var m := Onward(s.calls[i]);
            && CanMove(s, i, m)
            && var t := Moved(s, i, m);
               && Closer(s, t, i) && 0 <= Left(t.calls[i]) < Left(s.calls[i])
               && (m != Finish ==> Ready(t, i))
               && (m == Finish ==> t.calls[i].pc == Finished && t.lock == FREE)
  {
    hide Inv, Missing, Unique;
    Bounded(s, i);
    if s.calls[i].pc == Scripted {
      MayInsert(s, i);
    }
  }

  lemma CloserOn(s: State, t: State, u: State, i: nat)
    requires i < |s.calls| && Closer(s, t, i) && Closer(t, u, i)
    requires t.calls[i].pc in {Starting, Holding} ==> t.tracked == s.tracked && s.calls[i].pc in {Starting, Holding}
    requires u.calls[i].pc == Finished
    ensures Closer(s, u, i)
  {
    hide Ids;
    var a, b, c := s.calls[i].ran, t.calls[i].ran, u.calls[i].ran;
    Slices(a, b, c);
    IdsConcat(b[|a|..], c[|b|..]);
    assert s.log + b[|a|..] + c[|b|..] == s.log + (b[|a|..] + c[|b|..]);
  }

  lemma Slices<T>(a: seq<T>, b: seq<T>, c: seq<T>)
    requires a <= b <= c
    ensures a <= c && c[|a|..] == b[|a|..] + c[|b|..]
  {
  }

  lemma EarlyMoves(s: State, i: nat)
    requires Inv(s) && Ready(s, i)
    ensures var m := Onward(s.calls[i]);
            CanMove(s, i, m) &&
            var t := Moved(s, i, m);
            t.calls[i].pc in {Starting, Holding} ==> t.tracked == s.tracked && s.calls[i].pc in {Starting, Holding}
  {
    hide Inv, Missing, Unique, Ids;
    OnwardRuns(s, i);
  }

  lemma {:induction false} Complete(s: State, i: nat) returns (more: seq<Step>)
    requires Inv(s) && Ready(s, i)
    ensures Legal(s, more) && Own(more, i)
    ensures var t := Run(s, more); Inv(t) && Closer(s, t, i) && t.calls[i].pc == Finished && t.lock == FREE
    decreases if i < |s.calls| then Left(s.calls[i]) else 0
  {
    hide Inv, CanMove, Moved, Closer, Onward, Left;
    var step := Act(i, Onward(s.calls[i]));
    OnwardRuns(s, i);
    StepKeeps(s, step);
    var t := Do(s, step);
    if step.m == Finish {
      more := [step];
      assert more[1..] == [];
      assert Run(t, []) == t;
    } else {
      var rest := Complete(t, i);
      more := [step] + rest;
      assert more[1..] == rest;
      EarlyMoves(s, i);
      CloserOn(s, t, Run(t, rest), i);
    }
  }

  /** **Every call can still finish**: from any reachable state, a live call whose plan repeats no id and
      that has not failed can go on to return, by its own moves alone unless another session holds the
      lock, and then after that connection's death. Its plan is applied then and the lock free; and a
      call that has yet to read the table runs exactly what is missing at that moment. */
  lemma CanFinish(steps: seq<Step>, i: nat) returns (more: seq<Step>)
    requires Legal(INITIAL, steps) && i < |Run(INITIAL, steps).calls|
    requires var c := Run(INITIAL, steps).calls[i];
             c.alive && Unique(c.plan) && c.pc !in {Finished, Pc.Failed}
    ensures var s := Run(INITIAL, steps);
            && Legal(s, more) && (s.lock in {FREE, i} ==> Own(more, i))
            && var t := Run(s, more);
               && i < |t.calls| && t.calls[i].pc == Finished && t.lock == FREE
               && (forall id :: id in t.tracked <==> id in s.tracked || id in s.calls[i].plan)
               && (s.calls[i].pc in {Starting, Holding} ==>
                     && t.calls[i].ran == Missing(s.calls[i].plan, s.tracked)
                     && t.log == s.log + Missing(s.calls[i].plan, s.tracked))
  {
    hide Legal, Run, Can, Do, HolderTold, Closer, Inv, CanMove, Moved;
    InitialHolds();
    RunKeeps(INITIAL, steps);
    RunTold(steps);
    var s := Run(INITIAL, steps);
    if Ready(s, i) {
      more := Complete(s, i);
      Finishes(s, Run(s, more), i);
    } else {
      var drop := HolderDrops(s, steps, i);
      var rest := Complete(Do(s, drop), i);
      more := [drop] + rest;
      Prefixed(s, drop, rest);
      Finishes(Do(s, drop), Run(s, more), i);
    }
  }

  lemma {:induction false} Snoc(s: State, front: seq<Step>, last: Step)
    requires Legal(s, front) && Can(Run(s, front), last)
    ensures Legal(s, front + [last]) && Run(s, front + [last]) == Do(Run(s, front), last)
    decreases |front|
  {
    hide Can, Do;
    if front == [] {
      assert front + [last] == [last] && [last][1..] == [];
    } else {
      Snoc(Do(s, front[0]), front[1..], last);
      Prefixed(s, front[0], front[1..] + [last]);
      assert [front[0]] + (front[1..] + [last]) == front + [last];
    }
  }

  /** So an instance that boots in any reachable state can finish, and leaves its whole plan applied. */
  lemma BootCanFinish(steps: seq<Step>, plan: seq<string>) returns (more: seq<Step>)
    requires Legal(INITIAL, steps) && Unique(plan)
    ensures Legal(INITIAL, steps + [Boot(plan)])
    ensures var s := Run(INITIAL, steps);
            var booted := Run(INITIAL, steps + [Boot(plan)]);
            && Legal(booted, more)
            && var t := Run(booted, more);
               && |s.calls| < |t.calls| && t.calls[|s.calls|].pc == Finished && t.lock == FREE
               && (forall id :: id in t.tracked <==> id in s.tracked || id in plan)
               && t.log == s.log + Missing(plan, s.tracked)
  {
    hide Legal, Run, Unique;
    Snoc(INITIAL, steps, Boot(plan));
    more := CanFinish(steps + [Boot(plan)], |Run(INITIAL, steps).calls|);
  }

  lemma Prefixed(s: State, first: Step, rest: seq<Step>)
    requires Can(s, first) && Legal(Do(s, first), rest)
    ensures Legal(s, [first] + rest) && Run(s, [first] + rest) == Run(Do(s, first), rest)
  {
    assert ([first] + rest)[1..] == rest;
  }

  /** The session that holds the lock can die, which frees it. */
  lemma HolderDrops(s: State, steps: seq<Step>, i: nat) returns (drop: Step)
    requires Inv(s) && s.lock >= FREE && (forall j: nat :: HolderTold(s, steps, j))
    requires i < |s.calls| && s.calls[i].alive && Unique(s.calls[i].plan) && s.calls[i].pc !in {Finished, Pc.Failed}
    requires !Ready(s, i)
    ensures Can(s, drop) && Inv(Do(s, drop)) && Ready(Do(s, drop), i)
    ensures var t := Do(s, drop);
            && s.lock !in {FREE, i} && t.tracked == s.tracked && t.log == s.log
            && t.calls[i] == s.calls[i]
  {
    hide Inv, Unique;
    assert HolderTold(s, steps, i) && HolderTold(s, steps, s.lock);
    drop := Act(s.lock, Drop);
    StepKeeps(s, drop);
  }

  lemma Finishes(s: State, t: State, i: nat)
    requires Inv(s) && Inv(t) && i < |s.calls| && Closer(s, t, i) && t.calls[i].pc == Finished
    ensures i < |t.calls|
    ensures forall id :: id in t.tracked <==> id in s.tracked || id in s.calls[i].plan
    ensures s.calls[i].pc in {Starting, Holding} ==>
              && t.calls[i].ran == Missing(s.calls[i].plan, s.tracked)
              && t.log == s.log + Missing(s.calls[i].plan, s.tracked)
  {
    hide Inv, Missing, LockValid;
    var c, d := s.calls[i], t.calls[i];
    Known(s, i);
    Known(t, i);
    assert d.plan[..|d.plan|] == d.plan && c.plan[..0] == [];
    forall id ensures id in d.ran <==> id in d.plan && id !in d.applied {
      MissingExact(d.plan, d.applied, id);
    }
    forall id | id in t.tracked ensures id in s.tracked || id in c.plan {
      if id !in s.tracked {
        assert id in Ids(d.ran[|c.ran|..]);
        assert id in d.ran;
      }
    }
    forall id | id in c.plan ensures id in t.tracked {
      assert id in d.applied || id in Ids(d.ran);
    }
    if c.pc in {Starting, Holding} {
      NothingYet(s, c);
      assert d.ran[0..] == d.ran;
    }
  }

  lemma NothingYet(s: State, c: Call)
    requires CallValid(s, c) && c.pc in {Starting, Holding}
    ensures c.ran == []
  {
  }
}
