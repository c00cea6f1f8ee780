/** What every run of the token endpoint guarantees. */
module TokenSafety {
  import opened IsoStamp
  import opened TokenTables
  import opened TokenRuns

  /** `s` is the state after some run from an empty database. */
  ghost predicate Reached(env: Env, s: State) {
    exists start, steps :: Legal(env, Start(start), steps) && s == Run(env, Start(start), steps)
  }

  lemma StartHolds(env: Env, start: Stamp)
    ensures Inv(env, Start(start)) && Surviving(Start(start).tables, Start(start).h)
  {
  }

  lemma ReachedInv(env: Env, s: State)
    requires Reached(env, s)
    ensures Inv(env, s) && Surviving(s.tables, s.h)
  {
    hide Inv, Surviving;
    var start, steps :| Legal(env, Start(start), steps) && s == Run(env, Start(start), steps);
    StartHolds(env, start);
    RunKeeps(env, Start(start), steps);
    RunSurvives(env, Start(start), steps);
  }

  /** **Each code and each refresh token is exchanged at most once**, no secret is issued twice and no
      two exchanges share a family; an exchanged code was minted earlier, for the same user. */
  lemma ExchangedOnce(env: Env, s: State, i: nat, j: nat)
    requires Reached(env, s)
    requires i < |s.h.log| && j < |s.h.log|
    ensures var h := s.h;
            var a, b := h.log[i], h.log[j];
            && (a.Exchanged? && b.Exchanged? && (a.code == b.code || a.family == b.family) ==> i == j)
            && (a.Renewed? && b.Renewed? && a.spent == b.spent ==> i == j)
            && (a.Issues() && b.Issues() && a.token == b.token ==> i == j)
    ensures var h := s.h;
            h.log[i].Exchanged? ==>
              h.log[i].code in h.minted && h.minted[h.log[i].code].at < i
              && h.log[h.minted[h.log[i].code].at] == Minted(h.log[i].code, h.log[i].user)
  {
    ReachedInv(env, s);
    var h := s.h;
    assert EntryIndexed(env, h, i, h.log[i]);
    assert EntryIndexed(env, h, j, h.log[j]);
  }

  /** The exchange at the start of the chain of renewals that ends in entry `i`. */
  ghost function Root(h: History, i: nat): (r: nat)
    requires i < |h.log|
    ensures r <= i
    decreases i
  {
    var e := h.log[i];
    if e.Renewed? && e.spent in h.born && h.born[e.spent].at < i then Root(h, h.born[e.spent].at) else i
  }

  /** Along every chain of renewals family, user and `sid` stay those of its exchange. */
  lemma {:induction false} LineageOf(env: Env, h: History, i: nat)
    requires Indexed(env, h) && i < |h.log| && h.log[i].Issues()
    ensures h.log[Root(h, i)].Exchanged?
    ensures h.log[Root(h, i)].family == h.log[i].family && h.log[Root(h, i)].user == h.log[i].user
    ensures h.log[Root(h, i)].sid == h.log[i].sid == env.sid(h.log[i].family)
    ensures h.log[i].family in h.roots && h.roots[h.log[i].family] == Root(h, i)
    decreases i
  {
    assert EntryIndexed(env, h, i, h.log[i]);
    if h.log[i].Renewed? {
      assert IssuedAs(h, h.log[i].spent, h.born[h.log[i].spent]);
      LineageOf(env, h, h.born[h.log[i].spent].at);
    }
  }

  /** **Every access token of a lineage carries the `sid` and the user of its exchange**, and two
      access tokens are of one lineage exactly when they are of one family. */
  lemma LineageKeepsSid(env: Env, s: State, i: nat, j: nat)
    requires Reached(env, s)
    requires i < |s.h.log| && j < |s.h.log|
    requires s.h.log[i].Issues() && s.h.log[j].Issues()
    ensures var h := s.h;
            var root := Root(h, i);
            && root <= i && h.log[root].Exchanged?
            && h.log[root].sid == h.log[i].sid && h.log[root].user == h.log[i].user
            && (Root(h, j) == root <==> h.log[j].family == h.log[i].family)
  {
    ReachedInv(env, s);
    LineageOf(env, s.h, i);
    LineageOf(env, s.h, j);
  }

  /** **Each family has at most one live row**, held by a token issued in that family. */
  lemma OneLiveRow(env: Env, s: State, a: string, b: string)
    requires Reached(env, s)
    ensures var t := s.tables;
            Live(t, a) && Live(t, b) && t.tokens[a].family == t.tokens[b].family ==> a == b
  {
    ReachedInv(env, s);
  }

  // ---------------------------------------------------------------------------
  // Which tokens still work

  predicate Ends(e: Event, b: Birth) {
    e == Burned(b.family) || e == Revoked(b.user)
  }

  /** The token was renewed, or its family was burned or its user revoked after it was issued. */
  ghost predicate Ended(h: History, token: string)
    requires token in h.born
  {
    || token in h.spent
    || exists i :: h.born[token].at < i < |h.log| && Ends(h.log[i], h.born[token])
  }

  ghost predicate Surviving(t: Tables, h: History) {
    forall k :: k in h.born && !Ended(h, k) ==> Live(t, k)
  }

  /** An entry in the log ends what it ended for good. */
  lemma EndedLasts(h: History, g: History, e: Event, token: string)
    requires Extends(h, g, e) && token in h.born && Ended(h, token)
    ensures Ended(g, token)
  {
    if token !in h.spent {
      var i :| h.born[token].at < i < |h.log| && Ends(h.log[i], h.born[token]);
      assert g.log[i] == h.log[i];
    }
  }

  /** Whatever a step does to the tables, a token that has not ended stays live. */
  lemma SurvivingLasts(h: History, g: History, e: Event, t: Tables, u: Tables)
    requires Surviving(t, h) && Extends(h, g, e)
    requires forall k :: k in g.born && k !in h.born ==> Live(u, k)
    requires forall k :: k in h.born && Live(t, k) && !Live(u, k) ==> Ended(g, k)
    ensures Surviving(u, g)
  {
    forall k | k in g.born && !Ended(g, k) ensures Live(u, k) {
      if k in h.born && Ended(h, k) {
        EndedLasts(h, g, e, k);
      }
    }
  }

  lemma ExchangeSurvives(env: Env, s: State, code: string, row: CodeRow, token: string, family: string, expires: Stamp)
    requires Inv(env, s) && Surviving(s.tables, s.h) && Can(s, WriteExchange(code, row, token, family, expires))
    ensures var n := Do(env, s, WriteExchange(code, row, token, family, expires)); Surviving(n.tables, n.h)
  {
    hide Indexed, TokenInv, CodesAgree, ReadsAgree, Ended;
    if Unused(s.tables, code) {
      var g := s.h.NoteExchange(code, token, family, row.user, env.sid(family));
      var e := Exchanged(code, token, family, row.user, env.sid(family));
      ExchangeCodes(s.tables, s.h, s.codeReads, code, row, token, family, expires, env.sid(family));
      ExchangeIndexed(env, s.h, code, token, family, row.user);
      SurvivingLasts(s.h, g, e, s.tables, Exchange(s.tables, code, row, token, family, expires));
    }
  }

  lemma RenewalSurvives(env: Env, s: State, rotate: bool, shown: string, held: TokenRow, token: string, expires: Stamp)
    requires Inv(env, s) && Surviving(s.tables, s.h) && Can(s, WriteRenewal(rotate, shown, held, token, expires))
    ensures var n := Do(env, s, WriteRenewal(rotate, shown, held, token, expires)); Surviving(n.tables, n.h)
  {
    hide Indexed, CodesAgree, OneLivePerFamily, BurnsHold, RevocationsHold, SpentRowsKept;
    if Live(s.tables, shown) {
      var e := Renewed(shown, token, held.family, held.user, env.sid(held.family), rotate,
                       s.tables.tokens[shown].expires);
      assert (shown, held) in s.tokenReads;
      assert Belongs(s.h, shown, held);
      RenewalIndexed(env, s.h, e);
      SurvivingLasts(s.h, s.h.NoteRenewal(e), e, s.tables,
                     Do(env, s, WriteRenewal(rotate, shown, held, token, expires)).tables);
    }
  }

  lemma RevokingSurvives(env: Env, s: State, which: TokenRow -> bool, e: Event)
    requires Inv(env, s) && Surviving(s.tables, s.h) && (e.Burned? || e.Revoked?)
    requires forall r: TokenRow :: which(r) ==> Ends(e, Birth(0, r.family, r.user))
    ensures Surviving(RevokeWhere(s.tables, which), s.h.Note(e))
  {
    hide CodesAgree, OneLivePerFamily, BurnsHold, RevocationsHold, SpentRowsKept, ReadsAgree;
    var g, u := s.h.Note(e), RevokeWhere(s.tables, which);
    assert Extends(s.h, g, e);
    forall k | k in s.h.born && Live(s.tables, k) && !Live(u, k) ensures Ended(g, k) {
      assert Belongs(s.h, k, s.tables.tokens[k]);
      assert IssuedAs(s.h, k, s.h.born[k]);
      assert g.log[|s.h.log|] == e;
      assert Ends(e, g.born[k]);
    }
    SurvivingLasts(s.h, g, e, s.tables, u);
  }

  lemma MintSurvives(env: Env, s: State, code: string, row: CodeRow)
    requires Inv(env, s) && Surviving(s.tables, s.h) && Can(s, Mint(code, row))
    ensures var n := Do(env, s, Mint(code, row)); Surviving(n.tables, n.h)
  {
    hide Indexed, TokenInv, CodesAgree, ReadsAgree, Ended;
    MintIndexed(env, s.h, code, row.user);
    SurvivingLasts(s.h, s.h.NoteMint(code, row.user), Minted(code, row.user), s.tables,
                   MintCode(s.tables, code, row, s.now));
  }

  lemma StepSurvives(env: Env, s: State, step: Step)
    requires Inv(env, s) && Surviving(s.tables, s.h) && Can(s, step)
    ensures Surviving(Do(env, s, step).tables, Do(env, s, step).h)
  {
    hide Inv, Surviving;
    match step
    case Mint(code, row) => MintSurvives(env, s, code, row);
    case WriteExchange(code, row, token, family, expires) =>
      ExchangeSurvives(env, s, code, row, token, family, expires);
    case WriteRenewal(rotate, shown, held, token, expires) =>
      RenewalSurvives(env, s, rotate, shown, held, token, expires);
    case WriteBurn(family) => RevokingSurvives(env, s, (r: TokenRow) => r.family == family, Burned(family));
    case RevokeAll(user) => RevokingSurvives(env, s, (r: TokenRow) => r.user == user && !r.revoked, Revoked(user));
    case _ =>
  }

  lemma {:induction false} RunSurvives(env: Env, s: State, steps: seq<Step>)
    requires Inv(env, s) && Surviving(s.tables, s.h) && Legal(env, s, steps)
    ensures Surviving(Run(env, s, steps).tables, Run(env, s, steps).h)
    decreases |steps|
  {
    hide Inv, Surviving;
    if steps != [] {
      StepKeeps(env, s, steps[0]);
      StepSurvives(env, s, steps[0]);
      RunSurvives(env, Do(env, s, steps[0]), steps[1..]);
    }
  }

  lemma LiveNotEnded(t: Tables, h: History, token: string)
    requires IndexesPoint(h) && RowsBelong(t, h) && BurnsHold(t, h) && RevocationsHold(t, h) && Live(t, token)
    ensures token in h.born && !Ended(h, token)
  {
    assert Belongs(h, token, t.tokens[token]);
    assert IssuedAs(h, token, h.born[token]);
    var b := h.born[token];
    forall i | b.at < i < |h.log| ensures !Ends(h.log[i], b) {
      if h.log[i].Burned? {
        assert FamilyDead(t, h.log[i].family);
      } else if h.log[i].Revoked? {
        assert OnlyLater(t, h, h.log[i].user, i);
      }
    }
  }

  /** **A refresh token is live exactly when** it was issued and has since neither been renewed, nor
      seen its family burned, nor its user revoked. In particular a burned family never has a live
      row again, and clean-up takes no live row. */
  lemma LiveExactly(env: Env, s: State, token: string)
    requires Reached(env, s)
    ensures Live(s.tables, token) <==> token in s.h.born && !Ended(s.h, token)
  {
    hide CodesAgree, ReadsAgree, IndexesPoint, RowsBelong, BurnsHold, RevocationsHold, Ended, EntryIndexed;
    ReachedInv(env, s);
    if Live(s.tables, token) {
      LiveNotEnded(s.tables, s.h, token);
    }
  }

  /** **After a user's tokens are revoked, a live row of that user descends from a later exchange.** */
  lemma RevocationOutlived(env: Env, s: State, i: nat, token: string)
    requires Reached(env, s)
    requires i < |s.h.log|
    requires s.h.log[i].Revoked? && Live(s.tables, token)
    requires s.tables.tokens[token].user == s.h.log[i].user
    ensures var h := s.h;
            token in h.born && h.born[token].at < |h.log| && i < Root(h, h.born[token].at)
            && h.log[Root(h, h.born[token].at)].Exchanged?
  {
    ReachedInv(env, s);
    hide CodesAgree, ReadsAgree, OneLivePerFamily, SpentRowsKept, BurnsHold;
    assert Belongs(s.h, token, s.tables.tokens[token]);
    assert IssuedAs(s.h, token, s.h.born[token]);
    assert OnlyLater(s.tables, s.h, s.h.log[i].user, i);
    LineageOf(env, s.h, s.h.born[token].at);
  }

  // ---------------------------------------------------------------------------
  // Replay detection

  /** **A spent token shown again before its expiry is recognised exactly when it was rotated out**:
      clean-up never takes that row early, and an overwritten token leaves no row to recognise. */
  lemma ReplayExact(env: Env, s: State, i: nat, form: RefreshForm)
    requires Reached(env, s)
    requires i < |s.h.log| && s.h.log[i].Renewed?
    requires form.token == s.h.log[i].spent && form.token != ""
    requires !s.h.log[i].expiry.Before(s.now)
    ensures ReadToken(s.tables, form, s.now, true) ==
            if s.h.log[i].rotated then Replayed(s.h.log[i].family) else TokenDenied(TokenInvalid)
  {
    ReachedInv(env, s);
    hide Indexed, CodesAgree, ReadsAgree, OneLivePerFamily, RowsBelong, BurnsHold, RevocationsHold;
    assert SpentRowKept(s.tables, s.now, s.h.log[i]);
    ExpiredIsPast(s.h.log[i].expiry, s.now, s.now);
  }

  lemma {:induction false} LogGrows(env: Env, s: State, steps: seq<Step>)
    requires Legal(env, s, steps)
    ensures s.h.log <= Run(env, s, steps).h.log
    decreases |steps|
  {
    if steps != [] {
      LogGrows(env, Do(env, s, steps[0]), steps[1..]);
    }
  }

  lemma BurnedStays(env: Env, s: State, steps: seq<Step>, i: nat)
    requires Inv(env, s) && Legal(env, s, steps) && i < |s.h.log| && s.h.log[i].Burned?
    ensures FamilyDead(Run(env, s, steps).tables, s.h.log[i].family)
  {
    RunKeeps(env, s, steps);
    LogGrows(env, s, steps);
    assert Run(env, s, steps).h.log[i] == s.h.log[i];
  }

  /** Burning `family` may be written now, and whatever follows it has no live row then. */
  ghost predicate BurnsForGood(env: Env, s: State, family: string, rest: seq<Step>) {
    && Can(s, WriteBurn(family))
    && (Legal(env, Do(env, s, WriteBurn(family)), rest) ==>
         FamilyDead(Run(env, Do(env, s, WriteBurn(family)), rest).tables, family))
  }

  lemma ReadKnown(env: Env, s: State, family: string, rest: seq<Step>)
    requires Inv(env, s) && family in s.replays
    ensures BurnsForGood(env, s, family, rest)
  {
    hide Inv, Legal;
    StepKeeps(env, s, WriteBurn(family));
    var burned := Do(env, s, WriteBurn(family));
    if Legal(env, burned, rest) {
      BurnedStays(env, burned, rest, |s.h.log|);
    }
  }

  /** **Such a replay may be answered by a burn, and that leaves the family without a live row for good.** */
  lemma ReplayBurns(env: Env, s: State, i: nat, form: RefreshForm, rest: seq<Step>)
    requires Reached(env, s)
    requires i < |s.h.log| && s.h.log[i].Renewed?
    requires s.h.log[i].rotated
    requires form.token == s.h.log[i].spent && form.token != ""
    requires !s.h.log[i].expiry.Before(s.now)
    ensures BurnsForGood(env, Do(env, s, LookUpToken(form, true)), s.h.log[i].family, rest)
  {
    hide *;
    ReachedInv(env, s);
    ReplayExact(env, s, i, form);
    LookUpSees(env, s, form, s.h.log[i].family);
    ReadKnown(env, Do(env, s, LookUpToken(form, true)), s.h.log[i].family, rest);
  }

  lemma LookUpSees(env: Env, s: State, form: RefreshForm, family: string)
    requires Inv(env, s) && ReadToken(s.tables, form, s.now, true) == Replayed(family)
    ensures Can(s, LookUpToken(form, true)) && Inv(env, Do(env, s, LookUpToken(form, true)))
    ensures family in Do(env, s, LookUpToken(form, true)).replays
  {
    hide Inv, ReadToken;
    StepKeeps(env, s, LookUpToken(form, true));
  }

  // ---------------------------------------------------------------------------
  // Nothing is issued from an ended lineage

  /** Whatever is issued after a revocation of its user, or a burn of its family, is of a lineage
      opened after that. */
  ghost predicate IssuesLater(h: History) {
    forall i, k ::
      (0 <= i < k < |h.log| && h.log[k].Issues() && Ends(h.log[i], Birth(k, h.log[k].family, h.log[k].user))) ==>
        h.log[k].family in h.roots && i < h.roots[h.log[k].family]
  }

  lemma IssuesLast(h: History, g: History, e: Event)
    requires IssuesLater(h) && Extends(h, g, e)
    requires e.Issues() ==>
               e.family in g.roots
               && forall i :: 0 <= i < |h.log| && Ends(h.log[i], Birth(|h.log|, e.family, e.user)) ==>
                 i < g.roots[e.family]
    ensures IssuesLater(g)
  {
    forall i, k | 0 <= i < k < |g.log| && g.log[k].Issues() && Ends(g.log[i], Birth(k, g.log[k].family, g.log[k].user))
      ensures g.log[k].family in g.roots && i < g.roots[g.log[k].family]
    {
      assert g.log[i] == h.log[i];
      if k < |h.log| {
        assert g.log[k] == h.log[k];
      }
    }
  }

  lemma RenewalIssuesLater(env: Env, s: State, rotate: bool, shown: string, held: TokenRow, token: string,
                           expires: Stamp)
    requires Inv(env, s) && IssuesLater(s.h) && Can(s, WriteRenewal(rotate, shown, held, token, expires))
    ensures IssuesLater(Do(env, s, WriteRenewal(rotate, shown, held, token, expires)).h)
  {
    hide Indexed, CodesAgree, OneLivePerFamily, SpentRowsKept, IssuesLater, Extends;
    if Live(s.tables, shown) {
      var row := s.tables.tokens[shown];
      var e := Renewed(shown, token, held.family, held.user, env.sid(held.family), rotate, row.expires);
      assert (shown, held) in s.tokenReads;
      assert Belongs(s.h, shown, held) && Belongs(s.h, shown, row);
      RenewalIndexed(env, s.h, e);
      IssuesLast(s.h, s.h.NoteRenewal(e), e);
    }
  }

  lemma ExchangeIssuesLater(env: Env, s: State, code: string, row: CodeRow, token: string, family: string,
                            expires: Stamp)
    requires Inv(env, s) && IssuesLater(s.h) && Can(s, WriteExchange(code, row, token, family, expires))
    ensures IssuesLater(Do(env, s, WriteExchange(code, row, token, family, expires)).h)
  {
    hide Indexed, TokenInv, CodesAgree, ReadsAgree, IssuesLater;
    if Unused(s.tables, code) {
      ExchangeCodes(s.tables, s.h, s.codeReads, code, row, token, family, expires, env.sid(family));
      ExchangeIndexed(env, s.h, code, token, family, row.user);
      IssuesLast(s.h, s.h.NoteExchange(code, token, family, row.user, env.sid(family)),
                 Exchanged(code, token, family, row.user, env.sid(family)));
    }
  }

  lemma StepIssuesLater(env: Env, s: State, step: Step)
    requires Inv(env, s) && IssuesLater(s.h) && Can(s, step)
    ensures IssuesLater(Do(env, s, step).h)
  {
    hide TokenInv, CodesAgree, ReadsAgree, IssuesLater, Indexed;
    match step
    case Mint(code, row) =>
      MintIndexed(env, s.h, code, row.user);
      IssuesLast(s.h, s.h.NoteMint(code, row.user), Minted(code, row.user));
    case WriteExchange(code, row, token, family, expires) =>
      ExchangeIssuesLater(env, s, code, row, token, family, expires);
    case WriteRenewal(rotate, shown, held, token, expires) =>
      RenewalIssuesLater(env, s, rotate, shown, held, token, expires);
    case WriteBurn(family) => NoteIssuesLater(s.h, Burned(family));
    case RevokeAll(user) => NoteIssuesLater(s.h, Revoked(user));
    case _ =>
  }

  lemma NoteIssuesLater(h: History, e: Event)
    requires IssuesLater(h) && !e.Issues()
    ensures IssuesLater(h.Note(e))
  {
    IssuesLast(h, h.Note(e), e);
  }

  lemma {:induction false} RunIssuesLater(env: Env, s: State, steps: seq<Step>)
    requires Inv(env, s) && IssuesLater(s.h) && Legal(env, s, steps)
    ensures IssuesLater(Run(env, s, steps).h)
    decreases |steps|
  {
    hide Inv, IssuesLater;
    if steps != [] {
      StepKeeps(env, s, steps[0]);
      StepIssuesLater(env, s, steps[0]);
      RunIssuesLater(env, Do(env, s, steps[0]), steps[1..]);
    }
  }

  /** **No token is ever issued in a family after it was burned, and every token issued to a user after
      a revocation is of a lineage opened after it.** */
  lemma NothingIssuedAfter(env: Env, s: State, i: nat, k: nat)
    requires Reached(env, s) && i < k < |s.h.log| && s.h.log[k].Issues()
    ensures s.h.log[i].Burned? ==> s.h.log[k].family != s.h.log[i].family
    ensures s.h.log[i].Revoked? && s.h.log[k].user == s.h.log[i].user ==> i < Root(s.h, k)
  {
    ReachedInv(env, s);
    ReachedIssuesLater(env, s);
    hide TokenInv, CodesAgree, ReadsAgree, Root, IndexesPoint;
    assert EntryIndexed(env, s.h, i, s.h.log[i]);
    LineageOf(env, s.h, k);
  }

  lemma ReachedIssuesLater(env: Env, s: State)
    requires Reached(env, s)
    ensures IssuesLater(s.h)
  {
    var start, steps :| Legal(env, Start(start), steps) && s == Run(env, Start(start), steps);
    StartHolds(env, start);
    hide Inv;
    RunIssuesLater(env, Start(start), steps);
  }
}
