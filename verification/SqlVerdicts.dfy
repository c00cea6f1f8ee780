/** What the gates answer, told on the grammar and on positions of the visible text. */
module SqlVerdicts {
  import opened Common
  import opened SqlText
  import opened SqlLexer
  import opened SqlGrammar
  import opened Neutralizer
  import opened SqlWelding
  import opened SqlSpans
  import opened SqlGates

  ghost predicate AllSpace(al: Alphabet, s: string) {
    forall k :: 0 <= k < |s| ==> al.space(s[k])
  }

  ghost predicate NoSpace(al: Alphabet, s: string) {
    forall k :: 0 <= k < |s| ==> !al.space(s[k])
  }

  /** The statement's one reading. */
  ghost predicate ReadsAs(al: Alphabet, sql: string, segs: seq<Seg>) {
    NonEmpty(segs) && Parses(al, segs, sql)
  }

  /** A form the engines read differently opens where the constructs before it end. */
  ghost predicate LiveForm(al: Alphabet, sql: string, form: Ambiguity) {
    exists before :: NonEmpty(before) && LeavesForm(al, before, sql, form)
  }

  /** The analysis copy of a reading. */
  function CopyOf(al: Alphabet, segs: seq<Seg>): string {
    Strip(al, Render(al, NOTHING, segs).text)
  }

  lemma MissingIffBlank(al: Alphabet, sql: string)
    ensures Missing(al, Some(sql)) <==> AllSpace(al, sql)
  {
    hide Strip, Squeeze;
    SqueezeStrip(al, sql);
    SqueezeEmpty(al, sql);
    SqueezeEmpty(al, Strip(al, sql));
    StripStrips(al, sql);
  }

  /** The neutralizer's answer, by the grammar alone. */
  lemma ReadIff(al: Alphabet, sql: string, segs: seq<Seg>)
    ensures Lex(al, sql) == Tokens(segs) <==> ReadsAs(al, sql, segs)
    ensures ReadsAs(al, sql, segs) ==>
              Neutralize(al, sql).Done? && Neutralize(al, sql).value.text == CopyOf(al, segs)
  {
    hide Lex, Render, Parses, NonEmpty;
    LexIffParses(al, sql, segs);
  }

  lemma RejectedIff(al: Alphabet, sql: string, form: Ambiguity)
    ensures Neutralize(al, sql) == Rejected(form) <==> LiveForm(al, sql, form)
  {
    hide Lex, LeavesForm, NonEmpty, Finish, Render;
    if Lex(al, sql).Ambiguous? {
      AmbiguousIffLive(al, sql, Lex(al, sql).before, Lex(al, sql).form);
    }
    if before :| NonEmpty(before) && LeavesForm(al, before, sql, form) {
      AmbiguousIffLive(al, sql, before, form);
    }
  }

  lemma DoneReads(al: Alphabet, sql: string) returns (segs: seq<Seg>)
    requires Neutralize(al, sql).Done?
    ensures ReadsAs(al, sql, segs) && Neutralize(al, sql).value.text == CopyOf(al, segs)
  {
    hide Lex, Render, Parses, NonEmpty, Finish;
    segs := Lex(al, sql).segs;
    ReadIff(al, sql, segs);
  }

  // ---------------------------------------------------------------------------
  // Statements the gates cannot read

  /** **A statement is refused as unreadable exactly when it is not blank, within the cap, and an
      ambiguous form is live in it.** */
  lemma UnreadableIff(al: Alphabet, pol: Policy, sql: string, form: Ambiguity)
    ensures CheckReadOnly(al, pol, Some(sql)) == Refused(Unreadable(form)) <==>
            !AllSpace(al, sql) && |sql| <= 50_000 && LiveForm(al, sql, form)
    ensures CheckReadOnly(al, pol, None) == Refused(Empty)
    ensures AllSpace(al, sql) ==> CheckReadOnly(al, pol, Some(sql)) == Refused(Empty)
    ensures !AllSpace(al, sql) && |sql| > 50_000 ==> CheckReadOnly(al, pol, Some(sql)) == Refused(TooLong)
  {
    hide Neutralize, AllSpace, LiveForm, Missing, Judge;
    MissingIffBlank(al, sql);
    RejectedIff(al, sql, form);
    NoneMissing(al);
    if Neutralize(al, sql).Done? {
      JudgeReads(al, pol, DropSemicolon(al, Neutralize(al, sql).value.text));
    }
  }

  lemma NoneMissing(al: Alphabet)
    ensures Missing(al, None)
  {
  }

  lemma JudgeReads(al: Alphabet, pol: Policy, text: string)
    ensures Judge(al, pol, text).Refused? ==> !Judge(al, pol, text).step.Unreadable?
  {
    hide OpensAsQuery, HasDeniedWord, HasRowLock, Runs, Units;
  }

  // ---------------------------------------------------------------------------
  // The rungs, by position

  /** Nothing but whitespace follows a semicolon. */
  ghost predicate OneStatement(al: Alphabet, s: string) {
    forall k :: 0 <= k < |s| && s[k] == ';' ==> forall j :: k < j < |s| ==> al.space(s[j])
  }

  lemma OneStatementIff(al: Alphabet, s: string)
    ensures OneStatement(al, s) <==> ';' !in WithoutFinal(Squeeze(al, s))
  {
    if ';' !in WithoutFinal(Squeeze(al, s)) {
      SemicolonIsLast(al, s);
    }
    if OneStatement(al, s) {
      LastIsFinal(al, s);
    }
  }

  lemma SqueezeSplit(al: Alphabet, left: string, c: char, right: string)
    requires !al.space(c)
    ensures Squeeze(al, left + [c] + right) == Squeeze(al, left) + [c] + Squeeze(al, right)
  {
    SqueezeConcat(al, left + [c], right);
    SqueezeConcat(al, left, [c]);
    assert [c][1..] == "";
    assert Squeeze(al, [c]) == [c];
  }

  lemma LastIsFinal(al: Alphabet, s: string)
    requires OneStatement(al, s)
    ensures ';' !in WithoutFinal(Squeeze(al, s))
  {
    hide Squeeze;
    assert ';' in PUNCTUATION;
    if ';' in s {
      var k :| 0 <= k < |s| && s[k] == ';';
      var left, right := s[..k], s[k + 1..];
      assert s == left + [';'] + right;
      SqueezeSplit(al, left, ';', right);
      SqueezeBlank(al, right);
      forall j | 0 <= j < |left| ensures left[j] != ';' {
        assert s[j] == left[j];
      }
      SqueezeKeeps(al, left, ';');
    } else {
      SqueezeKeeps(al, s, ';');
    }
  }

  /** The first word of the text is an opener, and only whitespace and `(` come before it. */
  ghost predicate QueryOpens(al: Alphabet, pol: Policy, s: string) {
    exists a: nat, b: nat ::
      && MaximalRun(al, s, a, b) && pol.opener(s[a..b])
      && forall k :: 0 <= k < a ==> al.space(s[k]) || s[k] == '('
  }

  lemma {:induction false} OpeningIs(al: Alphabet, s: string, n: nat)
    requires n <= |s| && (forall k :: 0 <= k < n ==> al.space(s[k]) || s[k] == '(')
    requires n < |s| ==> !al.space(s[n]) && s[n] != '('
    ensures OpeningLength(al, s) == n
    decreases n
  {
    if n > 0 {
      OpeningIs(al, s[1..], n - 1);
    }
  }

  lemma {:induction false} OpeningCovers(al: Alphabet, s: string)
    ensures var n := OpeningLength(al, s);
            && (forall k :: 0 <= k < n ==> al.space(s[k]) || s[k] == '(')
            && (n < |s| ==> !al.space(s[n]) && s[n] != '(')
    decreases |s|
  {
    if s != [] && (al.space(s[0]) || s[0] == '(') {
      OpeningCovers(al, s[1..]);
      forall k | 0 <= k < OpeningLength(al, s) ensures al.space(s[k]) || s[k] == '(' {
        if k > 0 {
          assert s[k] == s[1..][k - 1];
        }
      }
    }
  }

  lemma QueryOpensIff(al: Alphabet, pol: Policy, s: string)
    ensures QueryOpens(al, pol, s) <==> OpensAsQuery(al, pol, s)
  {
    hide OpeningLength, RunLength;
    assert '(' in PUNCTUATION;
    var n := OpeningLength(al, s);
    OpeningCovers(al, s);
    var rest := s[n..];
    if OpensAsQuery(al, pol, s) {
      var m := RunLength(al, rest);
      RunStands(al, s, n);
      assert s[n..n + m] == rest[..m];
    }
    if a: nat, b: nat :|
      && MaximalRun(al, s, a, b) && pol.opener(s[a..b])
      && forall k :: 0 <= k < a ==> al.space(s[k]) || s[k] == '(' {
      OpeningIs(al, s, a);
      RunMovesLeft(al, s, a, a, b);
      RunLengthIs(al, rest, b - a);
      assert rest[..b - a] == s[a..b];
    }
  }

  /** The run at a word character that no word character precedes. */
  lemma RunStands(al: Alphabet, s: string, n: nat)
    requires n < |s| && al.Word(s[n]) && (n > 0 ==> !al.Word(s[n - 1]))
    ensures MaximalRun(al, s, n, n + RunLength(al, s[n..]))
  {
    var rest := s[n..];
    var m := RunLength(al, rest);
    forall k | n <= k < n + m ensures al.Word(s[k]) {
      assert s[k] == rest[k - n];
    }
    assert n + m < |s| ==> s[n + m] == rest[m];
    assert rest[0] == s[n];
  }

  /** A final `;` is no opening. */
  lemma {:induction false} FinalOpensNothing(al: Alphabet, pol: Policy, shown: string, words: seq<string>)
    ensures OpensShown(al, pol, WithoutFinal(shown), words) <==> OpensShown(al, pol, shown, words)
    decreases |shown|
  {
    assert ';' in PUNCTUATION;
    if StartsWith(shown, '(') {
      var rest := shown[1..];
      FinalOpensNothing(al, pol, rest, words);
      assert shown[Parens(shown)..] == rest[Parens(rest)..];
      var cut := WithoutFinal(shown);
      assert cut[1..] == WithoutFinal(rest);
      assert cut[Parens(cut)..] == cut[1..][Parens(cut[1..])..];
    } else {
      assert shown[0..] == shown;
      var cut := WithoutFinal(shown);
      assert cut[0..] == cut;
    }
  }

  // Row-lock clauses

  /** From `from` on the words stand one after the other, with nothing but whitespace before each. */
  ghost predicate RowFrom(al: Alphabet, pol: Policy, s: string, from: nat, words: seq<LockWord>)
    decreases |words|
  {
    words == [] ||
    exists a: nat, b: nat ::
      && from <= a && MaximalRun(al, s, a, b) && pol.lockWord(s[a..b]) == words[0]
      && (forall k :: from <= k < a ==> al.space(s[k]))
      && RowFrom(al, pol, s, b, words[1..])
  }

  /** The words stand somewhere in the text, from `from` on. */
  ghost predicate PhraseFrom(al: Alphabet, pol: Policy, s: string, from: nat, words: seq<LockWord>)
    requires words != []
  {
    exists a: nat, b: nat ::
      && from <= a && MaximalRun(al, s, a, b) && pol.lockWord(s[a..b]) == words[0]
      && RowFrom(al, pol, s, b, words[1..])
  }

  ghost predicate Phrase(al: Alphabet, pol: Policy, s: string, words: seq<LockWord>)
    requires words != []
  {
    PhraseFrom(al, pol, s, 0, words)
  }

  /** FOR UPDATE, FOR SHARE, FOR NO KEY UPDATE or FOR KEY SHARE stands in the text. */
  ghost predicate LocksRows(al: Alphabet, pol: Policy, s: string) {
    || Phrase(al, pol, s, [For, Update])
    || Phrase(al, pol, s, [For, Share])
    || Phrase(al, pol, s, [For, No, Key, Update])
    || Phrase(al, pol, s, [For, Key, Share])
  }

  /** The tokens open with these words. */
  ghost predicate TokensOpen(al: Alphabet, pol: Policy, tokens: seq<string>, words: seq<LockWord>) {
    forall i :: 0 <= i < |words| ==> WordAt(al, pol, tokens, i) == words[i]
  }

  ghost predicate TokensHold(al: Alphabet, pol: Policy, tokens: seq<string>, words: seq<LockWord>) {
    exists k :: 0 <= k <= |tokens| && TokensOpen(al, pol, tokens[k..], words)
  }

  lemma WordAtTail(al: Alphabet, pol: Policy, tokens: seq<string>, k: nat, i: nat)
    requires k <= |tokens|
    ensures WordAt(al, pol, tokens[k..], i) == WordAt(al, pol, tokens, k + i)
  {
  }

  lemma LockIsPhrase(al: Alphabet, pol: Policy, tokens: seq<string>)
    ensures HasRowLock(al, pol, tokens) <==>
            || TokensHold(al, pol, tokens, [For, Update])
            || TokensHold(al, pol, tokens, [For, Share])
            || TokensHold(al, pol, tokens, [For, No, Key, Update])
            || TokensHold(al, pol, tokens, [For, Key, Share])
  {
    forall k: nat, i: nat | k <= |tokens|
      ensures WordAt(al, pol, tokens[k..], i) == WordAt(al, pol, tokens, k + i)
    {
      WordAtTail(al, pol, tokens, k, i);
    }
    forall k: nat | k <= |tokens|
      ensures LocksAt(al, pol, tokens, k) <==>
              || TokensOpen(al, pol, tokens[k..], [For, Update])
              || TokensOpen(al, pol, tokens[k..], [For, Share])
              || TokensOpen(al, pol, tokens[k..], [For, No, Key, Update])
              || TokensOpen(al, pol, tokens[k..], [For, Key, Share])
    {
      OpensTwo(al, pol, tokens[k..], For, Update);
      OpensTwo(al, pol, tokens[k..], For, Share);
      OpensThree(al, pol, tokens[k..], For, Key, Share);
      OpensFour(al, pol, tokens[k..], For, No, Key, Update);
      assert WordAt(al, pol, tokens[k..], 0) == WordAt(al, pol, tokens, k);
      assert WordAt(al, pol, tokens[k..], 1) == WordAt(al, pol, tokens, k + 1);
      assert WordAt(al, pol, tokens[k..], 2) == WordAt(al, pol, tokens, k + 2);
      assert WordAt(al, pol, tokens[k..], 3) == WordAt(al, pol, tokens, k + 3);
    }
  }

  lemma OpensTwo(al: Alphabet, pol: Policy, tokens: seq<string>, a: LockWord, b: LockWord)
    ensures TokensOpen(al, pol, tokens, [a, b]) <==> WordAt(al, pol, tokens, 0) == a && WordAt(al, pol, tokens, 1) == b
  {
    assert [a, b][0] == a && [a, b][1] == b;
  }

  lemma OpensThree(al: Alphabet, pol: Policy, tokens: seq<string>, a: LockWord, b: LockWord, c: LockWord)
    ensures TokensOpen(al, pol, tokens, [a, b, c]) <==>
            && WordAt(al, pol, tokens, 0) == a && WordAt(al, pol, tokens, 1) == b && WordAt(al, pol, tokens, 2) == c
  {
    assert [a, b, c][0] == a && [a, b, c][1] == b && [a, b, c][2] == c;
  }

  lemma OpensFour(al: Alphabet, pol: Policy, tokens: seq<string>, a: LockWord, b: LockWord, c: LockWord, d: LockWord)
    ensures TokensOpen(al, pol, tokens, [a, b, c, d]) <==>
            && WordAt(al, pol, tokens, 0) == a && WordAt(al, pol, tokens, 1) == b
            && WordAt(al, pol, tokens, 2) == c && WordAt(al, pol, tokens, 3) == d
  {
    assert [a, b, c, d][0] == a && [a, b, c, d][1] == b && [a, b, c, d][2] == c && [a, b, c, d][3] == d;
  }

  /** Position `n` cuts no word in two. */
  ghost predicate Cuts(al: Alphabet, s: string, n: nat) {
    n <= |s| && (0 < n < |s| && al.Word(s[n - 1]) ==> !al.Word(s[n]))
  }

  lemma UnitsAt(al: Alphabet, s: string, from: nat)
    requires from < |s|
    ensures Units(al, s[from..]) ==
            if al.space(s[from]) then Units(al, s[from + 1..])
            else if !al.Word(s[from]) then [[s[from]]] + Units(al, s[from + 1..])
            else
              var m := RunLength(al, s[from..]);
              [s[from..from + m]] + Units(al, s[from + m..])
  {
    hide RunLength;
    var t := s[from..];
    assert t[1..] == s[from + 1..];
    if al.Word(s[from]) {
      var m := RunLength(al, t);
      assert t[m..] == s[from + m..] && t[..m] == s[from..from + m];
    }
  }

  lemma OpensStep(al: Alphabet, pol: Policy, first: string, rest: seq<string>, words: seq<LockWord>)
    requires words != []
    ensures TokensOpen(al, pol, [first] + rest, words) <==>
            WordAt(al, pol, [first] + rest, 0) == words[0] && TokensOpen(al, pol, rest, words[1..])
  {
    var tokens := [first] + rest;
    forall i: nat
      ensures WordAt(al, pol, tokens, i + 1) == WordAt(al, pol, rest, i)
    {
    }
    if WordAt(al, pol, tokens, 0) == words[0] && TokensOpen(al, pol, rest, words[1..]) {
      forall i | 0 <= i < |words| ensures WordAt(al, pol, tokens, i) == words[i] {
        if i > 0 {
          assert WordAt(al, pol, tokens, (i - 1) + 1) == WordAt(al, pol, rest, i - 1) == words[1..][i - 1];
        }
      }
    }
    if TokensOpen(al, pol, tokens, words) {
      forall i | 0 <= i < |words[1..]| ensures WordAt(al, pol, rest, i) == words[1..][i] {
        assert WordAt(al, pol, tokens, i + 1) == words[i + 1];
      }
    }
  }

  ghost predicate Named(words: seq<LockWord>) {
    forall i :: 0 <= i < |words| ==> words[i] != AnyOther
  }

  lemma RowStep(al: Alphabet, pol: Policy, s: string, from: nat, words: seq<LockWord>)
    requires Cuts(al, s, from) && words != []
    ensures from == |s| ==> !RowFrom(al, pol, s, from, words)
    ensures from < |s| && al.space(s[from]) ==>
              (RowFrom(al, pol, s, from, words) <==> RowFrom(al, pol, s, from + 1, words))
    ensures from < |s| && !al.space(s[from]) && !al.Word(s[from]) ==> !RowFrom(al, pol, s, from, words)
    ensures from < |s| && al.Word(s[from]) ==>
              var b := from + RunLength(al, s[from..]);
              (RowFrom(al, pol, s, from, words) <==>
               pol.lockWord(s[from..b]) == words[0] && RowFrom(al, pol, s, b, words[1..]))
  {
    hide RunLength;
    if from < |s| && al.Word(s[from]) {
      RunStands(al, s, from);
      var b := from + RunLength(al, s[from..]);
      if RowFrom(al, pol, s, from, words) {
        var a: nat, b': nat :|
          && from <= a && MaximalRun(al, s, a, b') && pol.lockWord(s[a..b']) == words[0]
          && (forall k :: from <= k < a ==> al.space(s[k]))
          && RowFrom(al, pol, s, b', words[1..]);
        assert a == from;
        SameEnd(al, s, from, b, b');
      }
    } else if from < |s| && al.space(s[from]) {
      if RowFrom(al, pol, s, from + 1, words) {
        var a: nat, b: nat :|
          && from + 1 <= a && MaximalRun(al, s, a, b) && pol.lockWord(s[a..b]) == words[0]
          && (forall k :: from + 1 <= k < a ==> al.space(s[k]))
          && RowFrom(al, pol, s, b, words[1..]);
        assert forall k :: from <= k < a ==> al.space(s[k]);
      }
      if RowFrom(al, pol, s, from, words) {
        var a: nat, b: nat :|
          && from <= a && MaximalRun(al, s, a, b) && pol.lockWord(s[a..b]) == words[0]
          && (forall k :: from <= k < a ==> al.space(s[k]))
          && RowFrom(al, pol, s, b, words[1..]);
        assert al.Word(s[a]);
        assert from + 1 <= a;
      }
    }
  }

  lemma SameEnd(al: Alphabet, s: string, a: nat, b: nat, b': nat)
    requires MaximalRun(al, s, a, b) && MaximalRun(al, s, a, b')
    ensures b == b'
  {
  }

  /** Neighbouring tokens are words with nothing but whitespace between them. */
  lemma {:induction false} OpenIffRow(al: Alphabet, pol: Policy, s: string, from: nat, words: seq<LockWord>)
    requires from <= |s| && Cuts(al, s, from) && Named(words)
    ensures TokensOpen(al, pol, Units(al, s[from..]), words) <==> RowFrom(al, pol, s, from, words)
    decreases |s| - from
  {
    hide Units, RunLength, RowFrom, TokensOpen, Cuts;
    CutsBound(al, s, from);
    if words == [] {
      NoWords(al, pol, Units(al, s[from..]), s, from);
    } else if from == |s| {
      RowStep(al, pol, s, from, words);
      assert s[from..] == [];
      NothingOpen(al, pol, words);
    } else {
      CutsOnward(al, s, from);
      RowStep(al, pol, s, from, words);
      UnitsAt(al, s, from);
      if al.space(s[from]) {
        OpenIffRow(al, pol, s, from + 1, words);
      } else if !al.Word(s[from]) {
        OpensStep(al, pol, [s[from]], Units(al, s[from + 1..]), words);
      } else {
        var b := from + RunLength(al, s[from..]);
        RunStands(al, s, from);
        OpensStep(al, pol, s[from..b], Units(al, s[b..]), words);
        OpenIffRow(al, pol, s, b, words[1..]);
      }
    }
  }

  lemma NoWords(al: Alphabet, pol: Policy, tokens: seq<string>, s: string, from: nat)
    ensures TokensOpen(al, pol, tokens, []) && RowFrom(al, pol, s, from, [])
  {
  }

  lemma NothingOpen(al: Alphabet, pol: Policy, words: seq<LockWord>)
    requires words != [] && Named(words)
    ensures Units(al, []) == [] && !TokensOpen(al, pol, [], words)
  {
    assert WordAt(al, pol, [], 0) == AnyOther;
  }

  lemma CutsOnward(al: Alphabet, s: string, from: nat)
    requires Cuts(al, s, from) && from < |s|
    ensures !al.Word(s[from]) ==> Cuts(al, s, from + 1)
    ensures al.Word(s[from]) ==> Cuts(al, s, from + RunLength(al, s[from..])) && RunLength(al, s[from..]) > 0
    ensures al.Word(s[from]) ==> (from > 0 ==> !al.Word(s[from - 1]))
  {
    if al.Word(s[from]) {
      RunStands(al, s, from);
    }
  }

  lemma HoldsStep(al: Alphabet, pol: Policy, first: string, rest: seq<string>, words: seq<LockWord>)
    ensures TokensHold(al, pol, [first] + rest, words) <==>
            TokensOpen(al, pol, [first] + rest, words) || TokensHold(al, pol, rest, words)
  {
    hide TokensOpen;
    var tokens := [first] + rest;
    assert tokens[0..] == tokens;
    forall k | 0 <= k <= |rest| ensures tokens[k + 1..] == rest[k..] {
    }
    if k :| 0 <= k <= |tokens| && TokensOpen(al, pol, tokens[k..], words) {
      if k > 0 {
        assert tokens[(k - 1) + 1..] == rest[k - 1..];
      }
    }
    if k :| 0 <= k <= |rest| && TokensOpen(al, pol, rest[k..], words) {
      assert TokensOpen(al, pol, tokens[k + 1..], words);
    }
  }

  lemma PhraseStep(al: Alphabet, pol: Policy, s: string, from: nat, words: seq<LockWord>)
    requires Cuts(al, s, from) && words != []
    ensures from == |s| ==> !PhraseFrom(al, pol, s, from, words)
    ensures from < |s| && !al.Word(s[from]) ==>
              (PhraseFrom(al, pol, s, from, words) <==> PhraseFrom(al, pol, s, from + 1, words))
    ensures from < |s| && al.Word(s[from]) ==>
              var b := from + RunLength(al, s[from..]);
              PhraseFrom(al, pol, s, from, words) <==>
              || (pol.lockWord(s[from..b]) == words[0] && RowFrom(al, pol, s, b, words[1..]))
              || PhraseFrom(al, pol, s, b, words)
  {
    hide RunLength, RowFrom;
    if from < |s| && al.Word(s[from]) {
      RunStands(al, s, from);
      var b := from + RunLength(al, s[from..]);
      if PhraseFrom(al, pol, s, from, words) {
        var a: nat, b': nat :|
          && from <= a && MaximalRun(al, s, a, b') && pol.lockWord(s[a..b']) == words[0]
          && RowFrom(al, pol, s, b', words[1..]);
        if a == from {
          SameEnd(al, s, from, b, b');
        } else {
          assert b <= a;
        }
      }
    }
  }

  lemma {:induction false} HoldIffPhrase(al: Alphabet, pol: Policy, s: string, from: nat, words: seq<LockWord>)
    requires from <= |s| && Cuts(al, s, from) && words != [] && Named(words)
    ensures TokensHold(al, pol, Units(al, s[from..]), words) <==> PhraseFrom(al, pol, s, from, words)
    decreases |s| - from
  {
    hide Units, RunLength, RowFrom, TokensOpen, Cuts, PhraseFrom, TokensHold, MaximalRun;
    PhraseStep(al, pol, s, from, words);
    CutsBound(al, s, from);
    if from == |s| {
      assert s[from..] == [];
      NothingHeld(al, pol, words);
    } else {
      CutsOnward(al, s, from);
      UnitsAt(al, s, from);
      if !al.Word(s[from]) {
        HoldIffPhrase(al, pol, s, from + 1, words);
        if !al.space(s[from]) {
          HoldsStep(al, pol, [s[from]], Units(al, s[from + 1..]), words);
          OpensStep(al, pol, [s[from]], Units(al, s[from + 1..]), words);
        }
      } else {
        var b := from + RunLength(al, s[from..]);
        HoldIffPhrase(al, pol, s, b, words);
        HoldsStep(al, pol, s[from..b], Units(al, s[b..]), words);
        OpensStep(al, pol, s[from..b], Units(al, s[b..]), words);
        OpenIffRow(al, pol, s, b, words[1..]);
        assert s[from..b][0] == s[from];
      }
    }
  }

  lemma CutsBound(al: Alphabet, s: string, from: nat)
    requires Cuts(al, s, from)
    ensures from <= |s|
  {
  }

  lemma NothingHeld(al: Alphabet, pol: Policy, words: seq<LockWord>)
    requires words != [] && Named(words)
    ensures Units(al, []) == [] && !TokensHold(al, pol, [], words)
  {
    NothingOpen(al, pol, words);
  }

  lemma LocksIff(al: Alphabet, pol: Policy, s: string)
    ensures LocksRows(al, pol, s) <==> HasRowLock(al, pol, Units(al, s))
  {
    hide Units, TokensHold, HasRowLock, PhraseFrom;
    assert s[0..] == s;
    LockIsPhrase(al, pol, Units(al, s));
    HoldIffPhrase(al, pol, s, 0, [For, Update]);
    HoldIffPhrase(al, pol, s, 0, [For, Share]);
    HoldIffPhrase(al, pol, s, 0, [For, No, Key, Update]);
    HoldIffPhrase(al, pol, s, 0, [For, Key, Share]);
  }

  /** A final `;` is no part of a row-lock clause. */
  lemma SemicolonLocksNothing(al: Alphabet, pol: Policy, tokens: seq<string>)
    ensures HasRowLock(al, pol, tokens + [";"]) <==> HasRowLock(al, pol, tokens)
  {
    assert ';' in PUNCTUATION;
    forall k: nat
      ensures WordAt(al, pol, tokens + [";"], k) == WordAt(al, pol, tokens, k)
    {
    }
    forall k: nat
      ensures LocksAt(al, pol, tokens + [";"], k) <==> LocksAt(al, pol, tokens, k)
    {
      SameWordsLock(al, pol, tokens + [";"], tokens, k);
    }
    if HasRowLock(al, pol, tokens + [";"]) {
      var k: nat :| k < |tokens + [";"]| && LocksAt(al, pol, tokens + [";"], k);
      assert WordAt(al, pol, tokens, k) == For;
    }
  }

  lemma SameWordsLock(al: Alphabet, pol: Policy, a: seq<string>, b: seq<string>, k: nat)
    requires forall i: nat :: WordAt(al, pol, a, i) == WordAt(al, pol, b, i)
    ensures LocksAt(al, pol, a, k) <==> LocksAt(al, pol, b, k)
  {
    assert WordAt(al, pol, a, k + 1) == WordAt(al, pol, b, k + 1);
    assert WordAt(al, pol, a, k + 2) == WordAt(al, pol, b, k + 2);
    assert WordAt(al, pol, a, k + 3) == WordAt(al, pol, b, k + 3);
  }

  lemma UnitsStep(al: Alphabet, s: string)
    ensures Units(al, s) ==
            if s == [] then []
            else if al.space(s[0]) then Units(al, s[1..])
            else if !al.Word(s[0]) then [[s[0]]] + Units(al, s[1..])
            else [s[..RunLength(al, s)]] + Units(al, s[RunLength(al, s)..])
  {
  }

  /** A run at the start of `a` is one at the start of `a + b`. */
  lemma RunThrough(al: Alphabet, a: string, b: string)
    requires StartsWord(al, a) && !(EndsWord(al, a) && StartsWord(al, b))
    ensures var n := RunLength(al, a);
            && 0 < n && RunLength(al, a + b) == n
            && (a + b)[..n] == a[..n] && (a + b)[n..] == a[n..] + b
            && !(EndsWord(al, a[n..]) && StartsWord(al, b))
  {
    hide RunLength;
    var n := RunLength(al, a);
    assert forall k :: 0 <= k < n ==> (a + b)[k] == a[k];
    assert n == |a| ==> al.Word(a[n - 1]);
    RunLengthIs(al, a + b, n);
  }

  lemma Joined<T>(x: seq<T>, a: seq<T>, b: seq<T>)
    ensures x + (a + b) == x + a + b
  {
  }

  lemma {:induction false} UnitsConcat(al: Alphabet, a: string, b: string)
    requires !(EndsWord(al, a) && StartsWord(al, b))
    ensures Units(al, a + b) == Units(al, a) + Units(al, b)
    decreases |a|
  {
    hide Units, RunLength;
    UnitsStep(al, a);
    if a == [] {
      assert a + b == b;
    } else if !al.Word(a[0]) {
      UnitsStep(al, a + b);
      UnitsConcat(al, a[1..], b);
      assert (a + b)[1..] == a[1..] + b;
      Joined([[a[0]]], Units(al, a[1..]), Units(al, b));
    } else {
      UnitsStep(al, a + b);
      var n := RunLength(al, a);
      RunThrough(al, a, b);
      UnitsConcat(al, a[n..], b);
      Joined([a[..n]], Units(al, a[n..]), Units(al, b));
    }
  }

  lemma {:induction false} UnitsBlank(al: Alphabet, s: string)
    requires AllSpace(al, s)
    ensures Units(al, s) == []
    decreases |s|
  {
    if s != [] {
      UnitsBlank(al, s[1..]);
    }
  }

  lemma UnitsRStrip(al: Alphabet, s: string)
    ensures Units(al, RStrip(al, s)) == Units(al, s)
  {
    hide Units;
    var n := Tail(al, s);
    UnitsBlank(al, s[n..]);
    UnitsConcat(al, s[..n], s[n..]);
    assert s == s[..n] + s[n..];
  }

  /** Dropping the final `;` of a stripped text drops one token, or none. */
  lemma DropSemicolonUnits(al: Alphabet, pol: Policy, text: string)
    ensures HasRowLock(al, pol, Units(al, DropSemicolon(al, text))) <==> HasRowLock(al, pol, Units(al, text))
  {
    hide Units, HasRowLock, RStrip;
    if EndsWith(text, ';') {
      var head := text[..|text| - 1];
      assert text == head + ";";
      assert ';' in PUNCTUATION;
      UnitsConcat(al, head, ";");
      SemicolonUnit(al);
      UnitsRStrip(al, head);
      SemicolonLocksNothing(al, pol, Units(al, head));
    }
  }

  lemma SemicolonUnit(al: Alphabet)
    ensures Units(al, ";") == [";"]
  {
    assert ';' in PUNCTUATION;
    assert ";"[1..] == "";
    assert [";"[0]] == ";";
  }

  // ---------------------------------------------------------------------------
  // Statements the read-only gate lets through

  /** `t` is `text` without its one allowed final `;` and the whitespace before that. */
  ghost predicate Trims(al: Alphabet, text: string, t: string) {
    if EndsWith(text, ';') then
      && t <= text && |t| < |text| && AllSpace(al, text[|t|..|text| - 1])
      && (t != [] ==> !al.space(t[|t| - 1]))
    else t == text
  }

  lemma TrimsIff(al: Alphabet, text: string, t: string)
    ensures Trims(al, text, t) <==> t == DropSemicolon(al, text)
  {
    if EndsWith(text, ';') {
      var head := text[..|text| - 1];
      var n := Tail(al, head);
      assert DropSemicolon(al, text) == head[..n] == text[..n];
      if t == DropSemicolon(al, text) {
        var gap := text[n..|text| - 1];
        forall k | 0 <= k < |gap| ensures al.space(gap[k]) {
          assert gap[k] == head[n + k];
        }
      }
      if Trims(al, text, t) {
        var gap := text[|t|..|text| - 1];
        forall k | |t| <= k < |head| ensures al.space(head[k]) {
          assert head[k] == gap[k - |t|];
        }
        assert t != [] ==> t[|t| - 1] == head[|t| - 1];
        assert |t| == n;
      }
    }
  }

  /** What is visible of an acceptable statement, told by its positions: one statement, opened by a
      query word, without a denied word or a row-lock clause; and its copy calls no denied function. */
  ghost predicate Acceptable(al: Alphabet, pol: Policy, segs: seq<Seg>) {
    var shown := Visible(segs);
    && OneStatement(al, shown)
    && QueryOpens(al, pol, shown)
    && (forall a: nat, b: nat :: MaximalRun(al, shown, a, b) ==> !pol.denied(shown[a..b]))
    && !LocksRows(al, pol, shown)
    && (forall t :: Trims(al, CopyOf(al, segs), t) ==> !pol.dangerousCall(t))
  }

  lemma DeniedIff(al: Alphabet, pol: Policy, s: string)
    ensures HasDeniedWord(pol, Runs(al, s)) <==> exists a: nat, b: nat :: MaximalRun(al, s, a, b) && pol.denied(s[a..b])
  {
    hide Runs;
    if HasDeniedWord(pol, Runs(al, s)) {
      var k :| 0 <= k < |Runs(al, s)| && pol.denied(Runs(al, s)[k]);
      RunsAreMaximal(al, s, Runs(al, s)[k]);
    }
    if a: nat, b: nat :| MaximalRun(al, s, a, b) && pol.denied(s[a..b]) {
      RunsAreMaximal(al, s, s[a..b]);
    }
  }

  lemma LadderAllows(al: Alphabet, pol: Policy, text: string, visible: string)
    ensures Ladder(al, pol, text, visible) == Allowed <==>
            && ';' !in WithoutFinal(Squeeze(al, visible))
            && OpensShown(al, pol, WithoutFinal(Squeeze(al, visible)), Runs(al, visible))
            && !HasDeniedWord(pol, Runs(al, visible))
            && !HasRowLock(al, pol, Woven(al, Runs(al, visible), WithoutFinal(Squeeze(al, visible))))
            && !pol.dangerousCall(text)
  {
    hide Squeeze, Runs, WithoutFinal, HasDeniedWord, HasRowLock, Woven;
  }

  lemma WovenLocks(al: Alphabet, pol: Policy, text: string, visible: string)
    requires Stripped(al, text)
    requires Runs(al, text) == Runs(al, visible) && Squeeze(al, text) == Squeeze(al, visible)
    ensures HasRowLock(al, pol, Woven(al, Runs(al, visible), WithoutFinal(Squeeze(al, visible)))) <==>
            LocksRows(al, pol, visible)
  {
    hide Squeeze, Runs, DropSemicolon, WithoutFinal, HasRowLock, Units, Woven, LocksRows, Stripped;
    DropSemicolonShows(al, text);
    TokensAreWoven(al, DropSemicolon(al, text));
    DropSemicolonUnits(al, pol, text);
    TokensAreWoven(al, text);
    TokensAreWoven(al, visible);
    LocksIff(al, pol, visible);
  }

  /** **The read-only gate lets exactly these statements through**: not blank, within the cap, with a
      reading, and that acceptable. */
  lemma AllowedIff(al: Alphabet, pol: Policy, sql: string)
    ensures CheckReadOnly(al, pol, Some(sql)) == Allowed <==>
            && !AllSpace(al, sql) && |sql| <= 50_000
            && exists segs :: ReadsAs(al, sql, segs) && Acceptable(al, pol, segs)
  {
    hide CheckReadOnly, AllSpace, ReadsAs, Acceptable, LiveForm, Missing, Lex, Neutralize;
    MissingIffBlank(al, sql);
    if Neutralize(al, sql).Done? {
      var segs := DoneReads(al, sql);
      if !AllSpace(al, sql) && |sql| <= 50_000 {
        ReadableAllowed(al, pol, sql, segs);
      } else {
        NotRead(al, pol, sql);
      }
      forall other | ReadsAs(al, sql, other) ensures other == segs {
        ReadIff(al, sql, other);
        ReadIff(al, sql, segs);
      }
    } else {
      NotRead(al, pol, sql);
      ReadableDone(al, sql);
    }
  }

  lemma ReadableDone(al: Alphabet, sql: string)
    ensures forall segs :: ReadsAs(al, sql, segs) ==> Neutralize(al, sql).Done?
  {
    hide ReadsAs, Neutralize;
    forall segs | ReadsAs(al, sql, segs) ensures Neutralize(al, sql).Done? {
      ReadIff(al, sql, segs);
    }
  }

  lemma NotRead(al: Alphabet, pol: Policy, sql: string)
    requires Missing(al, Some(sql)) || |sql| > 50_000 || Neutralize(al, sql).Rejected?
    ensures CheckReadOnly(al, pol, Some(sql)) != Allowed
  {
    hide Missing, Neutralize, Judge;
  }

  lemma ReadableAllowed(al: Alphabet, pol: Policy, sql: string, segs: seq<Seg>)
    requires ReadsAs(al, sql, segs) && !AllSpace(al, sql) && |sql| <= 50_000
    ensures CheckReadOnly(al, pol, Some(sql)) == Allowed <==> Acceptable(al, pol, segs)
  {
    hide CheckReadOnly, AllSpace, ReadsAs, Lex, Neutralize, Missing, Ladder, Squeeze, Runs, WithoutFinal, OpensShown,
         HasDeniedWord, HasRowLock, Woven, OneStatement, QueryOpens, LocksRows, Visible, MaximalRun, Trims, Strip,
         Render, OpensAsQuery, DropSemicolon, Stripped, CopyOf;
    var shown, copy := Visible(segs), CopyOf(al, segs);
    MissingIffBlank(al, sql);
    ReadIff(al, sql, segs);
    ReadOnlyExact(al, pol, sql, segs);
    TextShowsVisible(al, sql, segs);
    LadderAllows(al, pol, DropSemicolon(al, copy), shown);
    OneStatementIff(al, shown);
    QueryOpensIff(al, pol, shown);
    OpensIffShown(al, pol, shown);
    FinalOpensNothing(al, pol, Squeeze(al, shown), Runs(al, shown));
    DeniedIff(al, pol, shown);
    CopyStripped(al, segs);
    WovenLocks(al, pol, copy, shown);
    forall t ensures Trims(al, copy, t) <==> t == DropSemicolon(al, copy) {
      TrimsIff(al, copy, t);
    }
  }

  lemma CopyStripped(al: Alphabet, segs: seq<Seg>)
    ensures Stripped(al, CopyOf(al, segs))
  {
    StripStrips(al, Render(al, NOTHING, segs).text);
  }

  // ---------------------------------------------------------------------------
  // The metadata gate

  /** Some niladic word of the reading, not qualified by a dot, stands outside every closed identifier. */
  ghost predicate NiladicIn(al: Alphabet, niladic: string -> bool, segs: seq<Seg>) {
    NiladicOutside(al, niladic, Render(al, NOTHING, segs), Cells(al, [], segs, 0, 0))
  }

  /** **The metadata gate fires exactly when** the statement has a reading and its copy calls a metadata
      function, holds a niladic one or casts to a register type; it answers unparseable exactly on a live
      ambiguous form; and a blank statement is left to the other gate. */
  lemma ReconIff(al: Alphabet, pol: Policy, sql: string, form: Ambiguity)
    ensures CheckNoRecon(al, pol, Some(sql)) == Recon <==>
            && !AllSpace(al, sql)
            && exists segs ::
                 && ReadsAs(al, sql, segs)
                 && (|| pol.reconCall(CopyOf(al, segs)) || pol.reconCast(CopyOf(al, segs))
                     || NiladicIn(al, pol.niladic, segs))
    ensures CheckNoRecon(al, pol, Some(sql)) == Unparseable(form) <==> !AllSpace(al, sql) && LiveForm(al, sql, form)
    ensures CheckNoRecon(al, pol, None) == Clear
  {
    hide AllSpace, ReadsAs, LiveForm, Missing, Lex, Neutralize, NiladicHit, NiladicOutside, Render, Cells, CopyOf;
    MissingIffBlank(al, sql);
    NoneMissing(al);
    RejectedIff(al, sql, form);
    if Neutralize(al, sql).Done? {
      var segs := DoneReads(al, sql);
      ReadIff(al, sql, segs);
      NiladicExact(al, pol.niladic, sql, segs);
    }
    forall segs | ReadsAs(al, sql, segs)
      ensures Neutralize(al, sql).Done? && Neutralize(al, sql).value.text == CopyOf(al, segs)
      ensures NiladicHit(al, pol.niladic, Neutralize(al, sql).value) <==> NiladicIn(al, pol.niladic, segs)
    {
      ReadIff(al, sql, segs);
      NiladicExact(al, pol.niladic, sql, segs);
    }
  }
}
