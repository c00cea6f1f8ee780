/** Reset links over both tables: the password and the sessions change in one transaction. */
module ResetLinks {
  import opened IsoStamp
  import A = AccountRuns
  import Accounts
  import T = TokenRuns
  import TokenSafety
  import TokenTables

  datatype State = State(acc: A.State, tok: T.State)

  datatype Step = OnAccounts(a: A.Step) | OnTokens(t: T.Step)

  datatype Env = Env(accounts: A.Env, tokens: TokenTables.Env)

  /** The write of a reset that moves a row. */
  ghost predicate Resets(s: State, step: Step) {
    step.OnAccounts? && step.a.WriteReset? && Accounts.CanReset(s.acc.t, step.a.name, step.a.expected)
  }

  ghost predicate Can(s: State, step: Step) {
    match step
    case OnAccounts(a) => A.Can(s.acc, a)
    case OnTokens(t) => T.Can(s.tok, t)
  }

  /** `_write_password`: a reset that moved a row revokes that user's tokens before the one commit. */
  ghost function Do(env: Env, s: State, step: Step): State
    requires Can(s, step)
  {
    match step
    case OnAccounts(a) =>
      var acc := A.Do(env.accounts, s.acc, a);
      State(acc, if Resets(s, step) then T.Do(env.tokens, s.tok, T.RevokeAll(a.name)) else s.tok)
    case OnTokens(t) => s.(tok := T.Do(env.tokens, s.tok, t))
  }

  ghost function Start(now: Stamp): State { State(A.INITIAL, T.Start(now)) }

  ghost predicate Legal(env: Env, s: State, steps: seq<Step>)
    decreases |steps|
  {
    steps != [] ==> Can(s, steps[0]) && Legal(env, Do(env, s, steps[0]), steps[1..])
  }

  ghost function Run(env: Env, s: State, steps: seq<Step>): State
    requires Legal(env, s, steps)
    decreases |steps|
  {
    if steps == [] then s else Run(env, Do(env, s, steps[0]), steps[1..])
  }

  ghost predicate Reached(env: Env, s: State) {
    exists now, steps :: Legal(env, Start(now), steps) && s == Run(env, Start(now), steps)
  }

  ghost predicate Inv(env: Env, s: State) {
    && A.Inv(env.accounts, s.acc)
    && T.Inv(env.tokens, s.tok)
    && TokenSafety.IssuesLater(s.tok.h)
  }

  lemma LogGrows(env: Env, tok: T.State, t: T.Step)
    requires T.Can(tok, t)
    ensures tok.h.log <= T.Do(env.tokens, tok, t).h.log
  {
    hide TokenTables.MintCode, TokenTables.Exchange, TokenTables.Overwrite, TokenTables.Rotate, TokenTables.BurnFamily,
         TokenTables.RevokeUser, TokenTables.ReadCode, TokenTables.ReadToken;
  }

  lemma TokensKeep(env: Env, tok: T.State, t: T.Step)
    requires T.Inv(env.tokens, tok) && TokenSafety.IssuesLater(tok.h) && T.Can(tok, t)
    ensures T.Inv(env.tokens, T.Do(env.tokens, tok, t)) && TokenSafety.IssuesLater(T.Do(env.tokens, tok, t).h)
    ensures tok.h.log <= T.Do(env.tokens, tok, t).h.log
  {
    hide T.Inv, TokenSafety.IssuesLater, T.Do, T.Can;
    LogGrows(env, tok, t);
    T.StepKeeps(env.tokens, tok, t);
    TokenSafety.StepIssuesLater(env.tokens, tok, t);
  }

  lemma StepKeeps(env: Env, s: State, step: Step)
    requires Inv(env, s) && Can(s, step)
    ensures Inv(env, Do(env, s, step))
    ensures s.tok.h.log <= Do(env, s, step).tok.h.log
  {
    hide A.Inv, T.Inv, TokenSafety.IssuesLater, A.Do, A.Can, T.Do, Accounts.CanReset;
    match step
    case OnAccounts(a) =>
      A.StepKeeps(env.accounts, s.acc, a);
      if Resets(s, step) {
        TokensKeep(env, s.tok, T.RevokeAll(a.name));
      }
    case OnTokens(t) => TokensKeep(env, s.tok, t);
  }

  lemma {:induction false} RunKeeps(env: Env, s: State, steps: seq<Step>)
    requires Inv(env, s) && Legal(env, s, steps)
    ensures Inv(env, Run(env, s, steps)) && s.tok.h.log <= Run(env, s, steps).tok.h.log
    decreases |steps|
  {
    hide Inv, Do, Can;
    if steps != [] {
      StepKeeps(env, s, steps[0]);
      RunKeeps(env, Do(env, s, steps[0]), steps[1..]);
    }
  }

  lemma ReachedInv(env: Env, s: State)
    requires Reached(env, s)
    ensures Inv(env, s)
  {
    var now, steps :| Legal(env, Start(now), steps) && s == Run(env, Start(now), steps);
    StartHolds(env, now);
    hide Inv;
    RunKeeps(env, Start(now), steps);
  }

  lemma StartHolds(env: Env, now: Stamp)
    ensures Inv(env, Start(now))
  {
    A.InitialHolds(env.accounts);
    TokenSafety.StartHolds(env.tokens, now);
  }

  /** **A successful reset leaves its user without a live refresh token, in the same transaction**; a
      refused one leaves the tokens alone. */
  lemma ResetRevokes(env: Env, s: State, a: A.Step)
    requires a.WriteReset? && A.Can(s.acc, a)
    ensures var t := Do(env, s, OnAccounts(a));
            if Accounts.CanReset(s.acc.t, a.name, a.expected) then
              && t.acc.log == s.acc.log + [A.WasReset(a.name, a.cred, a.expected)]
              && (forall k :: TokenTables.Live(t.tok.tables, k) ==> t.tok.tables.tokens[k].user != a.name)
              && (forall k :: TokenTables.Live(s.tok.tables, k) && s.tok.tables.tokens[k].user != a.name ==>
                   TokenTables.Live(t.tok.tables, k))
            else t.tok == s.tok && t.acc.t.users == s.acc.t.users
  {
  }

  /** **Any refresh or access token that user is issued after the reset is of a lineage whose code was
      exchanged after the reset.** */
  lemma IssuedAfterReset(env: Env, s: State, a: A.Step, steps: seq<Step>, k: nat)
    requires Reached(env, s) && A.Can(s.acc, a) && a.WriteReset? && Resets(s, OnAccounts(a))
    requires Legal(env, Do(env, s, OnAccounts(a)), steps)
    requires var h := Run(env, Do(env, s, OnAccounts(a)), steps).tok.h;
             |s.tok.h.log| <= k < |h.log| && h.log[k].Issues() && h.log[k].user == a.name
    ensures var h := Run(env, Do(env, s, OnAccounts(a)), steps).tok.h;
            var root := TokenSafety.Root(h, k);
            |s.tok.h.log| < root && h.log[root].Exchanged? && h.log[root].user == a.name
  {
    hide Inv, A.Do, A.Can, TokenSafety.Root, Run, Legal, Reached;
    ReachedInv(env, s);
    var t := Do(env, s, OnAccounts(a));
    StepKeeps(env, s, OnAccounts(a));
    RunKeeps(env, t, steps);
    var u := Run(env, t, steps);
    var i := |s.tok.h.log|;
    assert u.tok.h.log[i] == t.tok.h.log[i] == T.Revoked(a.name);
    LaterLineage(env, u, i, k);
  }

  lemma LaterLineage(env: Env, s: State, i: nat, k: nat)
    requires Inv(env, s) && i <= k < |s.tok.h.log| && s.tok.h.log[i].Revoked?
    requires s.tok.h.log[k].Issues() && s.tok.h.log[k].user == s.tok.h.log[i].user
    ensures i < TokenSafety.Root(s.tok.h, k) && s.tok.h.log[TokenSafety.Root(s.tok.h, k)].Exchanged?
    ensures s.tok.h.log[TokenSafety.Root(s.tok.h, k)].user == s.tok.h.log[k].user
  {
    hide A.Inv, T.TokenInv, T.CodesAgree, T.ReadsAgree, T.Indexed, TokenSafety.Root;
    TokenSafety.LineageOf(env.tokens, s.tok.h, k);
    assert TokenSafety.Ends(s.tok.h.log[i], T.Birth(k, s.tok.h.log[k].family, s.tok.h.log[k].user));
  }

  /** **And any row of that user that is live at a later time is of such a lineage too.** */
  lemma LiveAfterReset(env: Env, s: State, a: A.Step, steps: seq<Step>, token: string)
    requires Reached(env, s) && A.Can(s.acc, a) && a.WriteReset? && Resets(s, OnAccounts(a))
    requires Legal(env, Do(env, s, OnAccounts(a)), steps)
    requires var t := Run(env, Do(env, s, OnAccounts(a)), steps).tok.tables;
             TokenTables.Live(t, token) && t.tokens[token].user == a.name
    ensures var u := Run(env, Do(env, s, OnAccounts(a)), steps).tok;
            var family := u.tables.tokens[token].family;
            family in u.h.roots && |s.tok.h.log| < u.h.roots[family] < |u.h.log|
            && u.h.log[u.h.roots[family]].Exchanged?
  {
    hide Inv, A.Do, A.Can, Run, Legal, Reached;
    ReachedInv(env, s);
    var t := Do(env, s, OnAccounts(a));
    StepKeeps(env, s, OnAccounts(a));
    RunKeeps(env, t, steps);
    var u := Run(env, t, steps);
    var i := |s.tok.h.log|;
    assert u.tok.h.log[i] == t.tok.h.log[i] == T.Revoked(a.name);
    LiveIsLater(env, u, i, token);
  }

  lemma LiveIsLater(env: Env, s: State, i: nat, token: string)
    requires Inv(env, s) && i < |s.tok.h.log| && s.tok.h.log[i].Revoked?
    requires TokenTables.Live(s.tok.tables, token) && s.tok.tables.tokens[token].user == s.tok.h.log[i].user
    ensures var h, family := s.tok.h, s.tok.tables.tokens[token].family;
            family in h.roots && i < h.roots[family] < |h.log| && h.log[h.roots[family]].Exchanged?
  {
    hide A.Inv, T.CodesAgree, T.ReadsAgree, T.BurnsHold, T.OneLivePerFamily, T.SpentRowsKept, T.EntryIndexed;
    assert T.OnlyLater(s.tok.tables, s.tok.h, s.tok.h.log[i].user, i);
  }
}
