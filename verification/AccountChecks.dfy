/** What every sign-in and every password write was checked against, and when each goes through. */
module AccountChecks {
  import opened Common
  import opened Accounts
  import opened AccountRuns

  lemma {:induction false} LastStep(env: Env, s: State, steps: seq<Step>, last: Step)
    requires Legal(env, s, steps + [last])
    ensures Legal(env, s, steps) && Can(Run(env, s, steps), last)
    ensures Run(env, s, steps + [last]) == Do(env, Run(env, s, steps), last)
    decreases |steps|
  {
    hide Can, Do;
    if steps == [] {
      assert steps + [last] == [last];
      assert [last][1..] == [];
    } else {
      assert (steps + [last])[1..] == steps[1..] + [last];
      LastStep(env, Do(env, s, steps[0]), steps[1..], last);
    }
  }

  // ---------------------------------------------------------------------------
  // Provider sign-ins

  /** The row may sign in at all. */
  predicate SwitchedOn(t: Table, name: string) {
    name in t.users && (t.users[name].status == "active" || t.users[name].status == "demo")
  }

  /** Step `j` signed up a name nobody had, or looked up an account that was switched on. */
  ghost predicate LetIn(env: Env, steps: seq<Step>, j: nat, name: string, provider: string, subject: string)
    requires j < |steps|
  {
    && Legal(env, INITIAL, steps[..j])
    && var t := Run(env, INITIAL, steps[..j]).t;
       || (steps[j] == SignUp(name, provider, subject) && name !in t.users)
       || (steps[j] == LookUpOidc(name, provider, subject) && SwitchedOn(t, name))
  }

  ghost predicate WasLetIn(env: Env, steps: seq<Step>, name: string, provider: string, subject: string) {
    exists j: nat :: j < |steps| && LetIn(env, steps, j, name, provider, subject)
  }

  lemma LetInLasts(env: Env, steps: seq<Step>, last: Step, name: string, provider: string, subject: string)
    requires WasLetIn(env, steps, name, provider, subject)
    ensures WasLetIn(env, steps + [last], name, provider, subject)
  {
    hide Legal;
    var j: nat :| j < |steps| && LetIn(env, steps, j, name, provider, subject);
    assert (steps + [last])[..j] == steps[..j];
    assert LetIn(env, steps + [last], j, name, provider, subject);
  }

  lemma LetInNow(env: Env, steps: seq<Step>, last: Step, name: string, provider: string, subject: string)
    requires Legal(env, INITIAL, steps)
    requires var t := Run(env, INITIAL, steps).t;
             || (last == SignUp(name, provider, subject) && name !in t.users)
             || (last == LookUpOidc(name, provider, subject) && SwitchedOn(t, name))
    ensures WasLetIn(env, steps + [last], name, provider, subject)
  {
    hide Legal, Run;
    assert (steps + [last])[..|steps|] == steps;
    assert LetIn(env, steps + [last], |steps|, name, provider, subject);
  }

  ghost predicate SignInsChecked(env: Env, s: State, steps: seq<Step>) {
    && (forall r :: r in s.claims ==> WasLetIn(env, steps, r.0, r.1, r.2))
    && (forall r :: r in s.claimed ==> WasLetIn(env, steps, r.0, r.1, r.2))
    && (forall r :: r in s.binds ==> WasLetIn(env, steps, r.0, r.1, r.2))
    && (forall r :: r in s.bound ==> WasLetIn(env, steps, r.0, r.1, r.2))
    && (forall i :: 0 <= i < |s.log| && s.log[i].LoggedIn? ==>
          WasLetIn(env, steps, s.log[i].name, s.log[i].provider, s.log[i].subject))
  }

  lemma SignInsLast(env: Env, s: State, steps: seq<Step>, last: Step)
    requires SignInsChecked(env, s, steps)
    ensures SignInsChecked(env, s, steps + [last])
  {
    hide WasLetIn;
    forall n, p, b | WasLetIn(env, steps, n, p, b) ensures WasLetIn(env, steps + [last], n, p, b) {
      LetInLasts(env, steps, last, n, p, b);
    }
  }

  /** Where what a step adds comes from. */
  lemma SourcesOf(env: Env, s: State, last: Step)
    requires Can(s, last)
    ensures var t := Do(env, s, last);
            && (forall n, p, b :: (n, p, b) in t.claims ==>
                  (n, p, b) in s.claims || (last == LookUpOidc(n, p, b) && SwitchedOn(s.t, n)))
            && (forall n, p, b :: (n, p, b) in t.binds ==>
                  (n, p, b) in s.binds || (last == LookUpOidc(n, p, b) && SwitchedOn(s.t, n)))
            && t.claimed <= s.claimed + s.claims && t.bound <= s.bound + s.binds
  {
    hide Create, ClaimOidc, Bind, SetUp, Reset, Rehash, SetStatus;
  }

  lemma LogSources(env: Env, s: State, last: Step, i: nat)
    requires Can(s, last) && i < |Do(env, s, last).log|
    ensures var e := Do(env, s, last).log[i];
            if i < |s.log| then e == s.log[i]
            else e.LoggedIn? ==>
                   || (e.name, e.provider, e.subject) in s.claimed + s.bound
                   || (last == SignUp(e.name, e.provider, e.subject) && e.name !in s.t.users)
  {
    hide Create, ClaimOidc, Bind, SetUp, Reset, Rehash, SetStatus;
  }

  lemma StepSignsIn(env: Env, steps: seq<Step>, last: Step)
    requires Legal(env, INITIAL, steps) && Can(Run(env, INITIAL, steps), last)
    requires SignInsChecked(env, Run(env, INITIAL, steps), steps)
    ensures SignInsChecked(env, Do(env, Run(env, INITIAL, steps), last), steps + [last])
  {
    hide Legal, Run, WasLetIn, Can, Do, SwitchedOn;
    var s := Run(env, INITIAL, steps);
    var t := Do(env, s, last);
    SignInsLast(env, s, steps, last);
    SourcesOf(env, s, last);
    forall n, p, b | last == LookUpOidc(n, p, b) && SwitchedOn(s.t, n)
      ensures WasLetIn(env, steps + [last], n, p, b)
    {
      LetInNow(env, steps, last, n, p, b);
    }
    forall i | 0 <= i < |t.log| && t.log[i].LoggedIn?
      ensures WasLetIn(env, steps + [last], t.log[i].name, t.log[i].provider, t.log[i].subject)
    {
      var e := t.log[i];
      LogSources(env, s, last, i);
      if i >= |s.log| && last == SignUp(e.name, e.provider, e.subject) && e.name !in s.t.users {
        LetInNow(env, steps, last, e.name, e.provider, e.subject);
      }
    }
  }

  lemma {:induction false} RunSignsIn(env: Env, steps: seq<Step>)
    requires Legal(env, INITIAL, steps)
    ensures SignInsChecked(env, Run(env, INITIAL, steps), steps)
    decreases |steps|
  {
    hide Can, Do, Legal, Run, SignInsChecked;
    if steps == [] {
      NobodyYet(env);
    } else {
      var front, last := steps[..|steps| - 1], steps[|steps| - 1];
      assert steps == front + [last];
      LastStep(env, INITIAL, front, last);
      RunSignsIn(env, front);
      StepSignsIn(env, front, last);
    }
  }

  lemma NobodyYet(env: Env)
    ensures SignInsChecked(env, Run(env, INITIAL, []), [])
  {
  }

  /** **Every provider sign-in was let in**: it signed up a new name, or the account was looked up by the
      same provider and subject at a moment when its status was `active` or `demo`. */
  lemma SignInWasChecked(env: Env, steps: seq<Step>, i: nat)
    requires Legal(env, INITIAL, steps)
    requires i < |Run(env, INITIAL, steps).log| && Run(env, INITIAL, steps).log[i].LoggedIn?
    ensures var e := Run(env, INITIAL, steps).log[i]; WasLetIn(env, steps, e.name, e.provider, e.subject)
  {
    hide Legal, Run, WasLetIn;
    RunSignsIn(env, steps);
  }

  /** **What a look-up allows**: a claim exactly of an account that is switched on and has neither a
      password nor a provider, a bind exactly of one that is switched on and has this provider. */
  lemma LookUpAllows(env: Env, s: State, n: string, p: string, b: string)
    ensures var t := Do(env, s, LookUpOidc(n, p, b));
            var claimable := n in s.t.users && (s.t.users[n].status == "active" || s.t.users[n].status == "demo")
                             && s.t.users[n].hash == None && s.t.users[n].provider == None;
            var bindable := n in s.t.users && (s.t.users[n].status == "active" || s.t.users[n].status == "demo")
                            && s.t.users[n].provider == Some(p);
            && t.claims == (if claimable then s.claims + {(n, p, b)} else s.claims)
            && t.binds == (if bindable then s.binds + {(n, p, b)} else s.binds)
            && t.t == s.t && t.log == s.log && t.claimed == s.claimed && t.bound == s.bound
  {
  }

  lemma ThreeSteps(env: Env, s: State, a: Step, b: Step, c: Step)
    requires Can(s, a) && Can(Do(env, s, a), b) && Can(Do(env, Do(env, s, a), b), c)
    ensures Legal(env, s, [a, b, c])
    ensures Run(env, s, [a, b, c]) == Do(env, Do(env, Do(env, s, a), b), c)
  {
    hide Can, Do;
    var s1 := Do(env, s, a);
    var s2 := Do(env, s1, b);
    assert [a, b, c][1..] == [b, c] && [b, c][1..] == [c] && [c][1..] == [];
    assert Legal(env, s2, [c]) && Run(env, s2, [c]) == Do(env, s2, c);
    assert Legal(env, s1, [b, c]) && Run(env, s1, [b, c]) == Do(env, s2, c);
  }

  /** **A sign-in that nothing interrupts succeeds** on a claimable account, which then carries its
      provider and subject; and on one of this provider exactly when no other subject is bound to it. */
  lemma SignInSucceeds(env: Env, s: State, n: string, p: string, b: string)
    requires n in s.t.users && (s.t.users[n].status == "active" || s.t.users[n].status == "demo")
    ensures s.t.users[n].hash == None && s.t.users[n].provider == None ==>
              var steps := [LookUpOidc(n, p, b), WriteClaim(n, p, b), CheckClaim(n, p, b)];
              && Legal(env, s, steps)
              && Run(env, s, steps).log == s.log + [Claimed(n, p, b), LoggedIn(n, p, b)]
              && n in Run(env, s, steps).t.users
              && Run(env, s, steps).t.users[n] == s.t.users[n].(provider := Some(p), subject := Some(b))
    ensures s.t.users[n].provider == Some(p) ==>
              var steps := [LookUpOidc(n, p, b), WriteBind(n, p, b), CheckBind(n, p, b)];
              && Legal(env, s, steps)
              && Run(env, s, steps).log == (if s.t.users[n].subject in {None, Some(b)} then s.log + [LoggedIn(n, p, b)]
                                            else s.log)
              && n in Run(env, s, steps).t.users
              && Run(env, s, steps).t.users[n] ==
                 (if s.t.users[n].subject == None then s.t.users[n].(subject := Some(b)) else s.t.users[n])
  {
    hide Legal, Run;
    if s.t.users[n].hash == None && s.t.users[n].provider == None {
      ThreeSteps(env, s, LookUpOidc(n, p, b), WriteClaim(n, p, b), CheckClaim(n, p, b));
      assert s.log + [Claimed(n, p, b)] + [LoggedIn(n, p, b)] == s.log + [Claimed(n, p, b), LoggedIn(n, p, b)];
    }
    if s.t.users[n].provider == Some(p) {
      ThreeSteps(env, s, LookUpOidc(n, p, b), WriteBind(n, p, b), CheckBind(n, p, b));
    }
  }

  lemma NewRow(env: Env, s: State, n: string, pw: Option<string>, p: Option<string>, status: string, k: string)
    ensures var t := Do(env, s, CreateUser(n, pw, p, status)).t;
            && (n in s.t.users ==> t.users == s.t.users)
            && (n !in s.t.users ==>
                  && n in t.users && t.users[n].provider == p && t.users[n].subject == None
                  && t.users[n].status == status && (t.users[n].hash.Some? <==> pw.Some?)
                  && (forall w :: Opens(t, n, w) <==> status == "active" && pw == Some(w))
                  && (k != n ==> (k in t.users <==> k in s.t.users) && (k in s.t.users ==> t.users[k] == s.t.users[k])))
  {
  }

  lemma SignUpRow(env: Env, s: State, n: string, p: string, b: string)
    ensures var t := Do(env, s, SignUp(n, p, b));
            && (n in s.t.users ==> t == s)
            && (n !in s.t.users ==>
                  && t.log == s.log + [LoggedIn(n, p, b)]
                  && n in t.t.users && t.t.users[n] == User(None, Some(p), Some(b), "demo"))
  {
  }

  /** **A name that is not taken signs up, and signs in from then on**: the first sign-in makes a demo account
      bound to the provider and the subject, and the same sign-in succeeds again. */
  lemma NewNameSignsIn(env: Env, s: State, n: string, p: string, b: string)
    requires n !in s.t.users
    ensures var steps := [SignUp(n, p, b), LookUpOidc(n, p, b), WriteBind(n, p, b), CheckBind(n, p, b)];
            && Legal(env, s, steps)
            && Run(env, s, steps).log == s.log + [LoggedIn(n, p, b), LoggedIn(n, p, b)]
            && n in Run(env, s, steps).t.users
            && Run(env, s, steps).t.users[n] == User(None, Some(p), Some(b), "demo")
  {
    hide Legal, Run, Do;
    var first := SignUp(n, p, b);
    var s1 := Do(env, s, first);
    SignUpRow(env, s, n, p, b);
    SignInSucceeds(env, s1, n, p, b);
    var rest := [LookUpOidc(n, p, b), WriteBind(n, p, b), CheckBind(n, p, b)];
    OneMore(env, s, first, rest);
    assert [first] + rest == [first, LookUpOidc(n, p, b), WriteBind(n, p, b), CheckBind(n, p, b)];
    assert s.log + [LoggedIn(n, p, b)] + [LoggedIn(n, p, b)] == s.log + [LoggedIn(n, p, b), LoggedIn(n, p, b)];
  }

  lemma OneMore(env: Env, s: State, first: Step, rest: seq<Step>)
    requires Can(s, first) && Legal(env, Do(env, s, first), rest)
    ensures Legal(env, s, [first] + rest) && Run(env, s, [first] + rest) == Run(env, Do(env, s, first), rest)
  {
    assert ([first] + rest)[1..] == rest;
  }

  // ---------------------------------------------------------------------------
  // Passwords

  /** **A first password goes through exactly on an account with neither a password nor a provider.** */
  lemma SetUpIff(env: Env, s: State, n: string, pw: string)
    ensures var t := Do(env, s, PostSetUp(n, pw));
            if n in s.t.users && s.t.users[n].hash == None && s.t.users[n].provider == None
            then && t.log == s.log + [WasSetUp(n)]
                 && t.t.users == s.t.users[n := s.t.users[n].(hash := Some(Hash(s.t.salts, pw)))]
            else t.log == s.log && t.t.users == s.t.users
  {
  }

  /** **A reset link lets a post through exactly for an active account without a provider whose hash has
      the link's marker**, and the write exactly while the row still has the hash the post read. */
  lemma ResetIff(env: Env, s: State, n: string, c: string, expected: Hash, pw: string)
    ensures (n, c) in s.links ==>
              var t := Do(env, s, PostReset(n, c));
              t.posts == if n in s.t.users && s.t.users[n].hash.Some? && s.t.users[n].provider == None
                            && s.t.users[n].status == "active" && env.fingerprint(s.t.users[n].hash.value) == c
                         then s.posts + {(n, c, s.t.users[n].hash.value)} else s.posts
    ensures (n, c, expected) in s.posts ==>
              var t := Do(env, s, WriteReset(n, c, expected, pw));
              if n in s.t.users && s.t.users[n].hash == Some(expected) && s.t.users[n].provider == None
                 && s.t.users[n].status == "active"
              then && t.log == s.log + [WasReset(n, c, expected)]
                   && t.t.users == s.t.users[n := s.t.users[n].(hash := Some(Hash(s.t.salts, pw)))]
              else t.log == s.log && t.t.users == s.t.users
  {
  }

  /** **A password lets in exactly on an active account whose hash it verifies against**, and only such a
      login has a rehash to write. */
  lemma LogInIff(env: Env, s: State, n: string, pw: string, outdated: bool)
    ensures var t := Do(env, s, LogIn(n, pw, outdated));
            && t.t == s.t && t.log == s.log
            && t.logins == if outdated && n in s.t.users && s.t.users[n].status == "active"
                              && s.t.users[n].hash.Some? && s.t.users[n].hash.value.password == pw
                           then s.logins + multiset{(n, pw)} else s.logins
  {
  }

  /** The marker in a link is that of the hash at some earlier moment. */
  ghost predicate MintedAt(env: Env, steps: seq<Step>, j: nat, name: string, cred: string)
    requires j < |steps|
  {
    && Legal(env, INITIAL, steps[..j]) && steps[j] == MintReset(name)
    && var t := Run(env, INITIAL, steps[..j]).t;
       name in t.users && t.users[name].hash.Some? && env.fingerprint(t.users[name].hash.value) == cred
  }

  ghost predicate WasMinted(env: Env, steps: seq<Step>, name: string, cred: string) {
    exists j: nat :: j < |steps| && MintedAt(env, steps, j, name, cred)
  }

  lemma MintedLasts(env: Env, steps: seq<Step>, last: Step, name: string, cred: string)
    requires WasMinted(env, steps, name, cred)
    ensures WasMinted(env, steps + [last], name, cred)
  {
    hide Legal;
    var j: nat :| j < |steps| && MintedAt(env, steps, j, name, cred);
    assert (steps + [last])[..j] == steps[..j];
    assert MintedAt(env, steps + [last], j, name, cred);
  }

  ghost predicate LinksMinted(env: Env, s: State, steps: seq<Step>) {
    && (forall r :: r in s.links ==> WasMinted(env, steps, r.0, r.1))
    && (forall r :: r in s.posts ==> (r.0, r.1) in s.links && env.fingerprint(r.2) == r.1)
    && (forall i :: 0 <= i < |s.log| && s.log[i].WasReset? ==>
          WasMinted(env, steps, s.log[i].name, s.log[i].cred) && env.fingerprint(s.log[i].spent) == s.log[i].cred)
  }

  lemma LinksLast(env: Env, s: State, steps: seq<Step>, last: Step)
    requires LinksMinted(env, s, steps)
    ensures LinksMinted(env, s, steps + [last])
  {
    hide WasMinted;
    forall n, c | WasMinted(env, steps, n, c) ensures WasMinted(env, steps + [last], n, c) {
      MintedLasts(env, steps, last, n, c);
    }
  }

  lemma StepMints(env: Env, steps: seq<Step>, last: Step)
    requires Legal(env, INITIAL, steps) && Can(Run(env, INITIAL, steps), last)
    requires LinksMinted(env, Run(env, INITIAL, steps), steps)
    ensures LinksMinted(env, Do(env, Run(env, INITIAL, steps), last), steps + [last])
  {
    hide Legal, Run, WasMinted, Create, ClaimOidc, Bind, SetUp, Reset, Rehash, SetStatus;
    var s := Run(env, INITIAL, steps);
    LinksLast(env, s, steps, last);
    if last.MintReset? {
      MintedNow(env, steps, last.name);
    }
  }

  lemma MintedNow(env: Env, steps: seq<Step>, name: string)
    requires Legal(env, INITIAL, steps) && Can(Run(env, INITIAL, steps), MintReset(name))
    ensures WasMinted(env, steps + [MintReset(name)], name,
                      env.fingerprint(Run(env, INITIAL, steps).t.users[name].hash.value))
  {
    hide Legal, Run;
    var all := steps + [MintReset(name)];
    assert all[..|steps|] == steps;
    assert MintedAt(env, all, |steps|, name, env.fingerprint(Run(env, INITIAL, steps).t.users[name].hash.value));
  }

  lemma {:induction false} RunMints(env: Env, steps: seq<Step>)
    requires Legal(env, INITIAL, steps)
    ensures LinksMinted(env, Run(env, INITIAL, steps), steps)
    decreases |steps|
  {
    hide Can, Do, Legal, Run, LinksMinted;
    if steps == [] {
      NoLinksYet(env);
    } else {
      var front, last := steps[..|steps| - 1], steps[|steps| - 1];
      assert steps == front + [last];
      LastStep(env, INITIAL, front, last);
      RunMints(env, front);
      StepMints(env, front, last);
    }
  }

  lemma NoLinksYet(env: Env)
    ensures LinksMinted(env, Run(env, INITIAL, []), [])
  {
  }

  /** **Every reset used a link that was minted for the account**, and spent a hash with the link's
      marker. */
  lemma ResetWasLinked(env: Env, steps: seq<Step>, i: nat)
    requires Legal(env, INITIAL, steps)
    requires i < |Run(env, INITIAL, steps).log| && Run(env, INITIAL, steps).log[i].WasReset?
    ensures var e := Run(env, INITIAL, steps).log[i];
            WasMinted(env, steps, e.name, e.cred) && env.fingerprint(e.spent) == e.cred
  {
    hide Legal, Run, WasMinted;
    RunMints(env, steps);
  }
}
