/** What every exchange of a code and every renewal of a refresh token was checked against, and what each
    writes. */
module TokenChecks {
  import opened IsoStamp
  import opened TokenTables
  import opened TokenRuns

  /** The stored row of the form's code passes every check of the grant. */
  ghost predicate Passes(env: Env, s: State, form: CodeForm, row: CodeRow) {
    && form.code in s.tables.codes && s.tables.codes[form.code] == row
    && !row.used
    && !row.expires.Before(s.now)
    && form.redirect == row.redirect
    && form.verifier != "" && row.challenge != "" && env.challenge(form.verifier) == row.challenge
  }

  /** Step `j` looked up `code`, minted before as `row`, and the form passed. */
  ghost predicate LookedUp(env: Env, start: Stamp, steps: seq<Step>, j: nat, form: CodeForm, row: CodeRow)
    requires j < |steps|
  {
    && steps[j] == LookUpCode(form, true)
    && Mint(form.code, row) in steps[..j]
    && Legal(env, Start(start), steps[..j])
    && Passes(env, Run(env, Start(start), steps[..j]), form, row)
  }

  ghost predicate Justified(env: Env, start: Stamp, steps: seq<Step>, code: string, row: CodeRow) {
    exists j: nat, form ::
      j < |steps| && LookedUp(env, start, steps, j, form, row) && form.code == code
  }

  /** A write that handed out `e`'s token, behind a look-up that justified it. */
  ghost predicate Backed(env: Env, start: Stamp, steps: seq<Step>, e: Event)
    requires e.Exchanged?
  {
    exists k: nat, row, expires ::
      && k < |steps| && steps[k] == WriteExchange(e.code, row, e.token, e.family, expires)
      && row.user == e.user && Justified(env, start, steps[..k], e.code, row)
  }

  lemma {:induction false} LastStep(env: Env, s: State, steps: seq<Step>, last: Step)
    requires Legal(env, s, steps + [last])
    ensures Legal(env, s, steps) && Can(Run(env, s, steps), last)
    ensures Run(env, s, steps + [last]) == Do(env, Run(env, s, steps), last)
    decreases |steps|
  {
    hide Can, Do;
    if steps == [] {
      assert steps + [last] == [last];
      assert [last][1..] == [];
    } else {
      assert (steps + [last])[1..] == steps[1..] + [last];
      LastStep(env, Do(env, s, steps[0]), steps[1..], last);
    }
  }

  lemma JustifiedLasts(env: Env, start: Stamp, steps: seq<Step>, last: Step, code: string, row: CodeRow)
    requires Justified(env, start, steps, code, row)
    ensures Justified(env, start, steps + [last], code, row)
  {
    hide Legal, Passes;
    var j: nat, form :| j < |steps| && LookedUp(env, start, steps, j, form, row) && form.code == code;
    assert (steps + [last])[..j] == steps[..j];
    assert LookedUp(env, start, steps + [last], j, form, row);
  }

  lemma BackedLasts(env: Env, start: Stamp, steps: seq<Step>, last: Step, e: Event)
    requires e.Exchanged? && Backed(env, start, steps, e)
    ensures Backed(env, start, steps + [last], e)
  {
    hide Justified;
    var k: nat, row, expires :|
      && k < |steps| && steps[k] == WriteExchange(e.code, row, e.token, e.family, expires)
      && row.user == e.user && Justified(env, start, steps[..k], e.code, row);
    assert (steps + [last])[..k] == steps[..k] && (steps + [last])[k] == steps[k];
  }

  /** Every row was minted as it stands, every passed read is justified, every exchange backed. */
  ghost predicate MintedAsStored(s: State, steps: seq<Step>) {
    forall c :: c in s.tables.codes ==> Mint(c, s.tables.codes[c].(used := false)) in steps
  }

  ghost predicate ReadsJustified(env: Env, start: Stamp, s: State, steps: seq<Step>) {
    forall p :: p in s.codeReads ==> Justified(env, start, steps, p.0, p.1)
  }

  ghost predicate ExchangesBacked(env: Env, start: Stamp, s: State, steps: seq<Step>) {
    forall i :: 0 <= i < |s.h.log| && s.h.log[i].Exchanged? ==> Backed(env, start, steps, s.h.log[i])
  }

  lemma MintsLast(env: Env, s: State, steps: seq<Step>, last: Step)
    requires MintedAsStored(s, steps) && Can(s, last)
    ensures MintedAsStored(Do(env, s, last), steps + [last])
  {
    var t := Do(env, s, last);
    forall c | c in t.tables.codes
      ensures Mint(c, t.tables.codes[c].(used := false)) in steps + [last]
    {
      if last.Mint? && c == last.code {
        assert (steps + [last])[|steps|] == Mint(c, t.tables.codes[c]);
      } else {
        assert c in s.tables.codes;
      }
    }
  }

  lemma ReadPasses(env: Env, s: State, form: CodeForm, canSign: bool, row: CodeRow)
    requires ReadCode(env, s.tables, form, s.now, canSign) == CodeReady(form.code, row)
    ensures canSign && Passes(env, s, form, row)
  {
    ExpiredIsPast(row.expires, s.now, s.now);
  }

  lemma ReadsLast(env: Env, start: Stamp, steps: seq<Step>, last: Step)
    requires Legal(env, Start(start), steps) && Can(Run(env, Start(start), steps), last)
    requires var s := Run(env, Start(start), steps); MintedAsStored(s, steps) && ReadsJustified(env, start, s, steps)
    ensures var s := Run(env, Start(start), steps);
            ReadsJustified(env, start, Do(env, s, last), steps + [last])
  {
    hide Legal, Passes, Run, Justified;
    var s := Run(env, Start(start), steps);
    var t := Do(env, s, last);
    forall p | p in t.codeReads
      ensures Justified(env, start, steps + [last], p.0, p.1)
    {
      if p in s.codeReads {
        JustifiedLasts(env, start, steps, last, p.0, p.1);
      } else {
        ReadAdds(env, s, last, p);
        ReadPasses(env, s, last.form, last.canSign, p.1);
        LookUpJustifies(env, start, steps, last.form, p.1);
      }
    }
  }

  lemma ReadAdds(env: Env, s: State, last: Step, p: (string, CodeRow))
    requires Can(s, last) && p in Do(env, s, last).codeReads && p !in s.codeReads
    ensures last.LookUpCode? && p.0 == last.form.code
    ensures ReadCode(env, s.tables, last.form, s.now, last.canSign) == CodeReady(last.form.code, p.1)
  {
  }

  lemma LookUpJustifies(env: Env, start: Stamp, steps: seq<Step>, form: CodeForm, row: CodeRow)
    requires Legal(env, Start(start), steps) && MintedAsStored(Run(env, Start(start), steps), steps)
    requires Passes(env, Run(env, Start(start), steps), form, row)
    ensures Justified(env, start, steps + [LookUpCode(form, true)], form.code, row)
  {
    hide Legal, Run;
    var all := steps + [LookUpCode(form, true)];
    assert all[..|steps|] == steps;
    assert row.(used := false) == row;
    assert LookedUp(env, start, all, |steps|, form, row);
  }

  lemma ExchangesLast(env: Env, start: Stamp, s: State, steps: seq<Step>, last: Step)
    requires Can(s, last) && ReadsJustified(env, start, s, steps) && ExchangesBacked(env, start, s, steps)
    ensures ExchangesBacked(env, start, Do(env, s, last), steps + [last])
  {
    hide Justified;
    var t := Do(env, s, last);
    forall i | 0 <= i < |t.h.log| && t.h.log[i].Exchanged?
      ensures Backed(env, start, steps + [last], t.h.log[i])
    {
      LogAdds(env, s, last, i);
      if i < |s.h.log| {
        BackedLasts(env, start, steps, last, s.h.log[i]);
      } else {
        assert (steps + [last])[..|steps|] == steps && (steps + [last])[|steps|] == last;
      }
    }
  }

  lemma LogAdds(env: Env, s: State, last: Step, i: nat)
    requires Can(s, last) && i < |Do(env, s, last).h.log|
    ensures var t := Do(env, s, last);
            if i < |s.h.log| then t.h.log[i] == s.h.log[i]
            else t.h.log[i].Exchanged? ==>
                   && last.WriteExchange? && (last.code, last.row) in s.codeReads
                   && t.h.log[i].code == last.code && t.h.log[i].token == last.token
                   && t.h.log[i].family == last.family && t.h.log[i].user == last.row.user
  {
  }

  lemma {:induction false} RunChecked(env: Env, start: Stamp, steps: seq<Step>)
    requires Legal(env, Start(start), steps)
    ensures var s := Run(env, Start(start), steps);
            && MintedAsStored(s, steps) && ReadsJustified(env, start, s, steps) && ExchangesBacked(env, start, s, steps)
    decreases |steps|
  {
    hide Can, Do, MintedAsStored, ReadsJustified, ExchangesBacked, Legal, Run;
    if steps == [] {
      NothingYet(env, start);
    } else {
      var front, last := steps[..|steps| - 1], steps[|steps| - 1];
      assert steps == front + [last];
      LastStep(env, Start(start), front, last);
      RunChecked(env, start, front);
      MintsLast(env, Run(env, Start(start), front), front, last);
      ReadsLast(env, start, front, last);
      ExchangesLast(env, start, Run(env, Start(start), front), front, last);
    }
  }

  lemma NothingYet(env: Env, start: Stamp)
    ensures var s := Run(env, Start(start), []);
            && MintedAsStored(s, []) && ReadsJustified(env, start, s, []) && ExchangesBacked(env, start, s, [])
  {
  }

  /** **Every code exchange follows a look-up that found the code unused and unexpired**, as it was
      minted, with the redirect of its row and a verifier whose challenge is the one in its row. */
  lemma ExchangeWasChecked(env: Env, start: Stamp, steps: seq<Step>, i: nat)
    requires Legal(env, Start(start), steps)
    requires i < |Run(env, Start(start), steps).h.log| && Run(env, Start(start), steps).h.log[i].Exchanged?
    ensures Backed(env, start, steps, Run(env, Start(start), steps).h.log[i])
  {
    hide Legal, Run, Backed;
    RunChecked(env, start, steps);
  }

  // ---------------------------------------------------------------------------
  // Renewals

  /** The stored row of the form's token passes every check of the grant. */
  ghost predicate Renewable(s: State, form: RefreshForm, held: TokenRow) {
    && form.token != "" && form.token in s.tables.tokens && s.tables.tokens[form.token] == held
    && !held.revoked
    && !held.expires.Before(s.now)
    && (form.client == "" || held.client == "" || form.client == held.client)
  }

  /** Step `j` looked up a token whose row then was `held`, and the form passed. */
  ghost predicate TokenLookedUp(env: Env, start: Stamp, steps: seq<Step>, j: nat, form: RefreshForm, held: TokenRow)
    requires j < |steps|
  {
    && steps[j] == LookUpToken(form, true)
    && Legal(env, Start(start), steps[..j])
    && Renewable(Run(env, Start(start), steps[..j]), form, held)
  }

  ghost predicate TokenJustified(env: Env, start: Stamp, steps: seq<Step>, token: string, held: TokenRow) {
    exists j: nat, form ::
      j < |steps| && TokenLookedUp(env, start, steps, j, form, held) && form.token == token
  }

  /** A write that handed out `e`'s token, behind a look-up that justified it. */
  ghost predicate RenewalBacked(env: Env, start: Stamp, steps: seq<Step>, e: Event)
    requires e.Renewed?
  {
    exists k: nat, held, expires ::
      && k < |steps| && steps[k] == WriteRenewal(e.rotated, e.spent, held, e.token, expires)
      && held.family == e.family && held.user == e.user
      && TokenJustified(env, start, steps[..k], e.spent, held)
  }

  lemma TokenJustifiedLasts(env: Env, start: Stamp, steps: seq<Step>, last: Step, token: string, held: TokenRow)
    requires TokenJustified(env, start, steps, token, held)
    ensures TokenJustified(env, start, steps + [last], token, held)
  {
    hide Legal, Renewable;
    var j: nat, form :| j < |steps| && TokenLookedUp(env, start, steps, j, form, held) && form.token == token;
    assert (steps + [last])[..j] == steps[..j];
    assert TokenLookedUp(env, start, steps + [last], j, form, held);
  }

  lemma RenewalBackedLasts(env: Env, start: Stamp, steps: seq<Step>, last: Step, e: Event)
    requires e.Renewed? && RenewalBacked(env, start, steps, e)
    ensures RenewalBacked(env, start, steps + [last], e)
  {
    hide TokenJustified;
    var k: nat, held, expires :|
      && k < |steps| && steps[k] == WriteRenewal(e.rotated, e.spent, held, e.token, expires)
      && held.family == e.family && held.user == e.user
      && TokenJustified(env, start, steps[..k], e.spent, held);
    assert (steps + [last])[..k] == steps[..k] && (steps + [last])[k] == steps[k];
  }

  ghost predicate TokenReadsJustified(env: Env, start: Stamp, s: State, steps: seq<Step>) {
    forall p :: p in s.tokenReads ==> TokenJustified(env, start, steps, p.0, p.1)
  }

  ghost predicate RenewalsBacked(env: Env, start: Stamp, s: State, steps: seq<Step>) {
    forall i :: 0 <= i < |s.h.log| && s.h.log[i].Renewed? ==> RenewalBacked(env, start, steps, s.h.log[i])
  }

  lemma TokenReadAdds(env: Env, s: State, last: Step, p: (string, TokenRow))
    requires Can(s, last) && p in Do(env, s, last).tokenReads && p !in s.tokenReads
    ensures last.LookUpToken? && p.0 == last.refresh.token
    ensures ReadToken(s.tables, last.refresh, s.now, last.canSign) == TokenReady(last.refresh.token, p.1)
  {
  }

  lemma TokenReadsLast(env: Env, start: Stamp, steps: seq<Step>, last: Step)
    requires Legal(env, Start(start), steps) && Can(Run(env, Start(start), steps), last)
    requires TokenReadsJustified(env, start, Run(env, Start(start), steps), steps)
    ensures TokenReadsJustified(env, start, Do(env, Run(env, Start(start), steps), last), steps + [last])
  {
    hide Legal, Renewable, Run, TokenJustified, ReadToken;
    var s := Run(env, Start(start), steps);
    var t := Do(env, s, last);
    forall p | p in t.tokenReads
      ensures TokenJustified(env, start, steps + [last], p.0, p.1)
    {
      if p in s.tokenReads {
        TokenJustifiedLasts(env, start, steps, last, p.0, p.1);
      } else {
        TokenReadAdds(env, s, last, p);
        RenewableIff(s, last.refresh, last.canSign, p.1);
        TokenLookUpJustifies(env, start, steps, last.refresh, p.1);
      }
    }
  }

  lemma TokenLookUpJustifies(env: Env, start: Stamp, steps: seq<Step>, form: RefreshForm, held: TokenRow)
    requires Legal(env, Start(start), steps) && Renewable(Run(env, Start(start), steps), form, held)
    ensures TokenJustified(env, start, steps + [LookUpToken(form, true)], form.token, held)
  {
    hide Legal, Run, Renewable;
    var all := steps + [LookUpToken(form, true)];
    assert all[..|steps|] == steps;
    assert TokenLookedUp(env, start, all, |steps|, form, held);
  }

  lemma RenewalLogAdds(env: Env, s: State, last: Step, i: nat)
    requires Can(s, last) && i < |Do(env, s, last).h.log|
    ensures var t := Do(env, s, last);
            if i < |s.h.log| then t.h.log[i] == s.h.log[i]
            else t.h.log[i].Renewed? ==>
                   && last.WriteRenewal? && (last.shown, last.held) in s.tokenReads
                   && t.h.log[i].rotated == last.rotate && t.h.log[i].spent == last.shown
                   && t.h.log[i].token == last.token
                   && t.h.log[i].family == last.held.family && t.h.log[i].user == last.held.user
  {
  }

  lemma RenewalsLast(env: Env, start: Stamp, s: State, steps: seq<Step>, last: Step)
    requires Can(s, last) && TokenReadsJustified(env, start, s, steps) && RenewalsBacked(env, start, s, steps)
    ensures RenewalsBacked(env, start, Do(env, s, last), steps + [last])
  {
    hide TokenJustified;
    var t := Do(env, s, last);
    forall i | 0 <= i < |t.h.log| && t.h.log[i].Renewed?
      ensures RenewalBacked(env, start, steps + [last], t.h.log[i])
    {
      RenewalLogAdds(env, s, last, i);
      if i < |s.h.log| {
        RenewalBackedLasts(env, start, steps, last, s.h.log[i]);
      } else {
        assert (steps + [last])[..|steps|] == steps && (steps + [last])[|steps|] == last;
      }
    }
  }

  lemma {:induction false} RenewalsChecked(env: Env, start: Stamp, steps: seq<Step>)
    requires Legal(env, Start(start), steps)
    ensures var s := Run(env, Start(start), steps);
            TokenReadsJustified(env, start, s, steps) && RenewalsBacked(env, start, s, steps)
    decreases |steps|
  {
    hide Can, Do, TokenReadsJustified, RenewalsBacked, Legal, Run;
    if steps == [] {
      NoRenewalsYet(env, start);
    } else {
      var front, last := steps[..|steps| - 1], steps[|steps| - 1];
      assert steps == front + [last];
      LastStep(env, Start(start), front, last);
      RenewalsChecked(env, start, front);
      TokenReadsLast(env, start, front, last);
      RenewalsLast(env, start, Run(env, Start(start), front), front, last);
    }
  }

  lemma NoRenewalsYet(env: Env, start: Stamp)
    ensures var s := Run(env, Start(start), []);
            TokenReadsJustified(env, start, s, []) && RenewalsBacked(env, start, s, [])
  {
  }

  /** **Every renewal follows a look-up that found the shown token's row unrevoked and unexpired**, with
      equal client ids where the form and the row both have one. */
  lemma RenewalWasChecked(env: Env, start: Stamp, steps: seq<Step>, i: nat)
    requires Legal(env, Start(start), steps)
    requires i < |Run(env, Start(start), steps).h.log| && Run(env, Start(start), steps).h.log[i].Renewed?
    ensures RenewalBacked(env, start, steps, Run(env, Start(start), steps).h.log[i])
  {
    hide Legal, Run, RenewalBacked;
    RenewalsChecked(env, start, steps);
  }

  // ---------------------------------------------------------------------------
  // Who is let through, and what a write then does

  /** **A code form is let through exactly when its row passes every check** and the server can sign. */
  lemma PassesIff(env: Env, s: State, form: CodeForm, canSign: bool, row: CodeRow)
    ensures ReadCode(env, s.tables, form, s.now, canSign) == CodeReady(form.code, row) <==>
            canSign && Passes(env, s, form, row)
  {
    ExpiredIsPast(row.expires, s.now, s.now);
  }

  /** **Which error a code form gets**: that of the first check that fails, and of signing only when all
      others pass. */
  lemma CodeErrorIff(env: Env, s: State, form: CodeForm, canSign: bool)
    ensures var read := ReadCode(env, s.tables, form, s.now, canSign);
            var found := form.code in s.tables.codes && !s.tables.codes[form.code].used;
            && (read == CodeDenied(CodeInvalid) <==> !found)
            && (found ==>
                  var row := s.tables.codes[form.code];
                  var proved := form.verifier != "" && row.challenge != ""
                                && env.challenge(form.verifier) == row.challenge;
                  && (read == CodeDenied(CodeExpired) <==> row.expires.Before(s.now))
                  && (read == CodeDenied(RedirectMismatch) <==>
                      !row.expires.Before(s.now) && form.redirect != row.redirect)
                  && (read == CodeDenied(PkceFailed) <==>
                      !row.expires.Before(s.now) && form.redirect == row.redirect && !proved)
                  && (read == CodeDenied(CannotSign) <==> !canSign && Passes(env, s, form, row)))
  {
    if form.code in s.tables.codes {
      ExpiredIsPast(s.tables.codes[form.code].expires, s.now, s.now);
    }
  }

  /** **A refresh form is let through exactly when its row passes every check**, and a revoked row is
      recognised as a replay whatever else it says. */
  lemma RenewableIff(s: State, form: RefreshForm, canSign: bool, held: TokenRow)
    ensures ReadToken(s.tables, form, s.now, canSign) == TokenReady(form.token, held) <==>
            canSign && Renewable(s, form, held)
    ensures ReadToken(s.tables, form, s.now, canSign) == Replayed(held.family) <==>
            && canSign && form.token != "" && form.token in s.tables.tokens
            && s.tables.tokens[form.token].revoked && s.tables.tokens[form.token].family == held.family
    ensures ReadToken(s.tables, form, s.now, canSign) == TokenDenied(TokenExpired) <==>
            && canSign && form.token != "" && form.token in s.tables.tokens
            && !s.tables.tokens[form.token].revoked && s.tables.tokens[form.token].expires.Before(s.now)
    ensures ReadToken(s.tables, form, s.now, canSign) == TokenDenied(TokenRequired) <==> form.token == ""
    ensures ReadToken(s.tables, form, s.now, canSign) == TokenDenied(CannotSign) <==> form.token != "" && !canSign
    ensures ReadToken(s.tables, form, s.now, canSign) == TokenDenied(TokenInvalid) <==>
            canSign && form.token != "" && form.token !in s.tables.tokens
    ensures ReadToken(s.tables, form, s.now, canSign) == TokenDenied(ClientMismatch) <==>
            && canSign && form.token != "" && form.token in s.tables.tokens
            && var row := s.tables.tokens[form.token];
               !row.revoked && !row.expires.Before(s.now)
               && form.client != "" && row.client != "" && form.client != row.client
  {
    if form.token in s.tables.tokens {
      ExpiredIsPast(s.tables.tokens[form.token].expires, s.now, s.now);
    }
  }

  /** **A write that may be taken issues**: a code still unused, or a token still live, gives a new live
      row with exactly what the write asked for, and one more entry in the log. */
  lemma WritesIssue(env: Env, s: State, code: string, row: CodeRow, rotate: bool, shown: string, held: TokenRow,
                    token: string, family: string, expires: Stamp)
    ensures Can(s, WriteExchange(code, row, token, family, expires)) && code in s.tables.codes
            && !s.tables.codes[code].used ==>
              var t := Do(env, s, WriteExchange(code, row, token, family, expires));
              && t.h.log == s.h.log + [Exchanged(code, token, family, row.user, env.sid(family))]
              && token in t.tables.tokens
              && t.tables.tokens[token] == TokenRow(family, row.client, row.user, expires, false)
              && code in t.tables.codes && t.tables.codes[code].used
    ensures Can(s, WriteRenewal(rotate, shown, held, token, expires)) && shown in s.tables.tokens
            && !s.tables.tokens[shown].revoked ==>
              var t := Do(env, s, WriteRenewal(rotate, shown, held, token, expires));
              && t.h.log == s.h.log + [Renewed(shown, token, held.family, held.user, env.sid(held.family), rotate,
                                               s.tables.tokens[shown].expires)]
              && token in t.tables.tokens
              && !t.tables.tokens[token].revoked
              && t.tables.tokens[token].expires == expires
  {
  }

  /** **The clean-ups remove exactly what they may**: used or expired codes, and revoked tokens past
      their expiry; every other row stays as it is. */
  lemma CleanupsExact(t: Tables, now: Stamp, k: string)
    ensures k in CleanCodes(t, now).codes <==> k in t.codes && !t.codes[k].used && !t.codes[k].expires.Before(now)
    ensures k in CleanTokens(t, now).tokens <==>
            k in t.tokens && !(t.tokens[k].revoked && t.tokens[k].expires.Before(now))
    ensures k in CleanCodes(t, now).codes ==> CleanCodes(t, now).codes[k] == t.codes[k]
    ensures k in CleanTokens(t, now).tokens ==> CleanTokens(t, now).tokens[k] == t.tokens[k]
    ensures CleanCodes(t, now).tokens == t.tokens && CleanTokens(t, now).codes == t.codes
  {
    if k in t.codes {
      ExpiredIsPast(t.codes[k].expires, now, now);
    }
    if k in t.tokens {
      ExpiredIsPast(t.tokens[k].expires, now, now);
    }
  }

  lemma MintAdds(env: Env, s: State, code: string, row: CodeRow, k: string)
    requires Can(s, Mint(code, row))
    ensures var t := Do(env, s, Mint(code, row));
            && t.h.log == s.h.log + [Minted(code, row.user)] && t.tables.tokens == s.tables.tokens && t.now == s.now
            && code in t.tables.codes && t.tables.codes[code] == row
            && (k != code ==>
                (k in t.tables.codes <==>
                 k in s.tables.codes && !s.tables.codes[k].used && !s.tables.codes[k].expires.Before(s.now)))
            && t.h.born == s.h.born && t.h.roots == s.h.roots
  {
    CleanupsExact(s.tables, s.now, k);
  }

  lemma FiveSteps(env: Env, s: State, a: Step, b: Step, c: Step, d: Step, e: Step)
    requires Can(s, a) && Can(Do(env, s, a), b) && Can(Do(env, Do(env, s, a), b), c)
    requires var s3 := Do(env, Do(env, Do(env, s, a), b), c); Can(s3, d) && Can(Do(env, s3, d), e)
    ensures Legal(env, s, [a, b, c, d, e])
    ensures Run(env, s, [a, b, c, d, e]) == Do(env, Do(env, Do(env, Do(env, Do(env, s, a), b), c), d), e)
  {
    hide Can, Do;
    var s1 := Do(env, s, a);
    var s2 := Do(env, s1, b);
    var s3 := Do(env, s2, c);
    var s4 := Do(env, s3, d);
    assert [a, b, c, d, e][1..] == [b, c, d, e] && [b, c, d, e][1..] == [c, d, e] && [c, d, e][1..] == [d, e];
    assert [d, e][1..] == [e] && [e][1..] == [];
    assert Legal(env, s4, [e]) && Run(env, s4, [e]) == Do(env, s4, e);
    assert Legal(env, s3, [d, e]) && Run(env, s3, [d, e]) == Do(env, s4, e);
    assert Legal(env, s2, [c, d, e]) && Run(env, s2, [c, d, e]) == Do(env, s4, e);
    assert Legal(env, s1, [b, c, d, e]) && Run(env, s1, [b, c, d, e]) == Do(env, s4, e);
  }

  lemma CodeSteps(env: Env, s: State, form: CodeForm, row: CodeRow, token: string, family: string, expires: Stamp)
    requires Passes(env, s, form, row) && token !in s.h.born && family !in s.h.roots
    ensures var s1 := Do(env, s, LookUpCode(form, true));
            var step := WriteExchange(form.code, row, token, family, expires);
            && Can(s1, step)
            && var s2 := Do(env, s1, step);
               && s2.h.log == s.h.log + [Exchanged(form.code, token, family, row.user, env.sid(family))]
               && token in s2.tables.tokens
               && s2.tables.tokens[token] == TokenRow(family, row.client, row.user, expires, false)
               && s2.now == s.now && forall k :: k in s2.h.born ==> k in s.h.born || k == token
  {
    PassesIff(env, s, form, true, row);
  }

  lemma TokenSteps(env: Env, s: State, form: RefreshForm, held: TokenRow, rotate: bool, token: string, expires: Stamp)
    requires Renewable(s, form, held) && token !in s.h.born
    ensures var s1 := Do(env, s, LookUpToken(form, true));
            var step := WriteRenewal(rotate, form.token, held, token, expires);
            && Can(s1, step)
            && var s2 := Do(env, s1, step);
               && s2.h.log == s.h.log + [Renewed(form.token, token, held.family, held.user, env.sid(held.family),
                                                 rotate, held.expires)]
               && token in s2.tables.tokens
               && s2.tables.tokens[token] == TokenRow(held.family, held.client, held.user, expires, false)
               && (token != form.token ==> !Live(s2.tables, form.token))
  {
    RenewableIff(s, form, true, held);
  }

  /** **A flow that nothing interrupts succeeds**: a code minted now, shown with its redirect and a verifier
      of its challenge, is exchanged, and the token from it is renewed, in either mode, by its own client
      or one that gives no id; the successor is then live and the token it came from is not. */
  lemma FlowSucceeds(env: Env, s: State, row: CodeRow, form: CodeForm, client: string, rotate: bool,
                     token: string, family: string, expires: Stamp, next: string, later: Stamp)
    requires Can(s, Mint(form.code, row)) && !row.expires.Before(s.now) && form.redirect == row.redirect
    requires form.verifier != "" && row.challenge != "" && env.challenge(form.verifier) == row.challenge
    requires token != "" && token !in s.h.born && next !in s.h.born && next != token && family !in s.h.roots
    requires !expires.Before(s.now) && client in {"", row.client}
    ensures var held := TokenRow(family, row.client, row.user, expires, false);
            var steps := [Mint(form.code, row), LookUpCode(form, true),
                          WriteExchange(form.code, row, token, family, expires),
                          LookUpToken(RefreshForm(token, client), true),
                          WriteRenewal(rotate, token, held, next, later)];
            && Legal(env, s, steps)
            && var t := Run(env, s, steps);
               && t.h.log == s.h.log + [Minted(form.code, row.user),
                                        Exchanged(form.code, token, family, row.user, env.sid(family)),
                                        Renewed(token, next, family, row.user, env.sid(family), rotate, expires)]
               && Live(t.tables, next) && t.tables.tokens[next] == held.(expires := later) && !Live(t.tables, token)
  {
    hide Do, Legal, Run, Passes, Renewable;
    var held := TokenRow(family, row.client, row.user, expires, false);
    var mint := Mint(form.code, row);
    var s1 := Do(env, s, mint);
    MintAdds(env, s, form.code, row, form.code);
    MintedPasses(env, s1, row, form);
    CodeSteps(env, s1, form, row, token, family, expires);
    var write := WriteExchange(form.code, row, token, family, expires);
    var s3 := Do(env, Do(env, s1, LookUpCode(form, true)), write);
    IssuedRenewable(s3, RefreshForm(token, client), held);
    TokenSteps(env, s3, RefreshForm(token, client), held, rotate, next, later);
    var read := LookUpToken(RefreshForm(token, client), true);
    var renew := WriteRenewal(rotate, token, held, next, later);
    FiveSteps(env, s, mint, LookUpCode(form, true), write, read, renew);
    Appended(s.h.log, Minted(form.code, row.user), Exchanged(form.code, token, family, row.user, env.sid(family)),
             Renewed(token, next, family, row.user, env.sid(family), rotate, expires));
  }

  lemma Appended<T>(s: seq<T>, a: T, b: T, c: T)
    ensures s + [a] + [b] + [c] == s + [a, b, c]
  {
  }

  lemma MintedPasses(env: Env, s: State, row: CodeRow, form: CodeForm)
    requires form.code in s.tables.codes && s.tables.codes[form.code] == row && !row.used
    requires !row.expires.Before(s.now) && form.redirect == row.redirect
    requires form.verifier != "" && row.challenge != "" && env.challenge(form.verifier) == row.challenge
    ensures Passes(env, s, form, row)
  {
  }

  lemma IssuedRenewable(s: State, form: RefreshForm, held: TokenRow)
    requires form.token != "" && form.token in s.tables.tokens && s.tables.tokens[form.token] == held
    requires !held.revoked && !held.expires.Before(s.now) && form.client in {"", held.client}
    ensures Renewable(s, form, held)
  {
  }

  // ---------------------------------------------------------------------------
  // Whose client a lineage is

  /** The client recorded by the exchange that opened each family. */
  ghost function Clients(env: Env, start: Stamp, steps: seq<Step>): map<string, string>
    requires Legal(env, Start(start), steps)
    decreases |steps|
  {
    if steps == [] then map[]
    else
      var front, last := steps[..|steps| - 1], steps[|steps| - 1];
      assert steps == front + [last];
      LastStep(env, Start(start), front, last);
      var s := Run(env, Start(start), front);
      if last.WriteExchange? && last.code in s.tables.codes && !s.tables.codes[last.code].used
      then Clients(env, start, front)[last.family := last.row.client]
      else Clients(env, start, front)
  }

  ghost predicate ClientsAgree(s: State, clients: map<string, string>) {
    && (forall k :: k in s.tables.tokens ==>
          s.tables.tokens[k].family in clients && s.tables.tokens[k].client == clients[s.tables.tokens[k].family])
    && (forall p :: p in s.tokenReads ==> p.1.family in clients && p.1.client == clients[p.1.family])
    && (forall f :: f in clients ==> f in s.h.roots)
  }

  lemma ClientsExchange(env: Env, s: State, last: Step, clients: map<string, string>)
    requires last.WriteExchange? && Can(s, last) && ClientsAgree(s, clients)
    ensures ClientsAgree(Do(env, s, last),
                         if last.code in s.tables.codes && !s.tables.codes[last.code].used
                         then clients[last.family := last.row.client] else clients)
  {
    hide CleanCodes, CleanTokens, RevokeWhere, ReadCode, ReadToken, Rotate, Overwrite;
  }

  lemma ClientsRenewal(env: Env, s: State, last: Step, clients: map<string, string>)
    requires last.WriteRenewal? && Can(s, last) && ClientsAgree(s, clients)
    ensures ClientsAgree(Do(env, s, last), clients)
  {
    hide CleanCodes, RevokeWhere, ReadCode, ReadToken, Exchange, MintCode;
  }

  lemma ClientsRead(env: Env, s: State, last: Step, clients: map<string, string>)
    requires last.LookUpToken? && Can(s, last) && ClientsAgree(s, clients)
    ensures ClientsAgree(Do(env, s, last), clients)
  {
    hide CleanCodes, CleanTokens, RevokeWhere, ReadCode, Exchange, MintCode, Rotate, Overwrite;
  }

  lemma ClientsOther(env: Env, s: State, last: Step, clients: map<string, string>)
    requires !last.WriteExchange? && !last.WriteRenewal? && !last.LookUpToken?
    requires Can(s, last) && ClientsAgree(s, clients)
    ensures ClientsAgree(Do(env, s, last), clients)
  {
    hide CleanTokens, ReadCode, ReadToken, Exchange, Rotate, Overwrite;
  }

  lemma ClientsLast(env: Env, s: State, last: Step, clients: map<string, string>)
    requires Can(s, last) && ClientsAgree(s, clients)
    ensures ClientsAgree(Do(env, s, last),
                         if last.WriteExchange? && last.code in s.tables.codes && !s.tables.codes[last.code].used
                         then clients[last.family := last.row.client] else clients)
  {
    hide Can, Do, ClientsAgree;
    match last
    case WriteExchange(_, _, _, _, _) => ClientsExchange(env, s, last, clients);
    case WriteRenewal(_, _, _, _, _) => ClientsRenewal(env, s, last, clients);
    case LookUpToken(_, _) => ClientsRead(env, s, last, clients);
    case _ => ClientsOther(env, s, last, clients);
  }

  lemma {:induction false} RunClients(env: Env, start: Stamp, steps: seq<Step>)
    requires Legal(env, Start(start), steps)
    ensures ClientsAgree(Run(env, Start(start), steps), Clients(env, start, steps))
    decreases |steps|
  {
    hide Can, Do, ClientsAgree, Legal, Run;
    if steps == [] {
      NoClientsYet(env, start);
    } else {
      var front, last := steps[..|steps| - 1], steps[|steps| - 1];
      assert steps == front + [last];
      LastStep(env, Start(start), front, last);
      RunClients(env, start, front);
      ClientsLast(env, Run(env, Start(start), front), last, Clients(env, start, front));
    }
  }

  lemma NoClientsYet(env: Env, start: Stamp)
    ensures ClientsAgree(Run(env, Start(start), []), map[])
  {
  }

  /** **Every row carries the client that the exchange of its lineage recorded**, through every renewal in
      either mode. */
  lemma LineageKeepsClient(env: Env, start: Stamp, steps: seq<Step>, token: string)
    requires Legal(env, Start(start), steps) && token in Run(env, Start(start), steps).tables.tokens
    ensures var row := Run(env, Start(start), steps).tables.tokens[token];
            row.family in Clients(env, start, steps) && row.client == Clients(env, start, steps)[row.family]
  {
    hide Legal, Run, Clients;
    RunClients(env, start, steps);
  }
}
