/** The gates over the analysis copy: the read-only ladder, the recon gate and the fingerprint. */
module SqlGates {
  import opened Common
  import opened SqlText
  import opened SqlLexer
  import opened SqlGrammar
  import opened Neutralizer
  import opened SqlWelding
  import opened SqlSpans

  const MAX_SQL_CHARS := 50_000

  /** The words of a row-lock clause, in any case. */
  datatype LockWord = For | Update | Share | No | Key | AnyOther

  /** What the compiled patterns say. The lists behind them are data and stay opaque: `denied`,
      `opener`, `lockWord` and `niladic` answer for one whole word, the others search a whole text. */
  datatype Policy = Policy(
    denied: string -> bool,         // `\b(INSERT|UPDATE|…)\b`, any case
    opener: string -> bool,         // SELECT or WITH, any case
    lockWord: string -> LockWord,   // FOR, UPDATE, SHARE, NO and KEY
    dangerousCall: string -> bool,  // a deny-listed function name with its `(`
    reconCall: string -> bool,      // a metadata function name with its `(`
    niladic: string -> bool,        // current_user and its relatives, any case
    reconCast: string -> bool)      // a cast to a register type

  datatype Step =
    | Empty
    | TooLong
    | Unreadable(form: Ambiguity)
    | MultiStatement
    | NotASelect
    | DeniedKeyword
    | RowLock
    | DangerousCall

  datatype Verdict = Allowed | Refused(step: Step)

  predicate Missing(al: Alphabet, sql: Option<string>) {
    sql.None? || Strip(al, sql.value) == ""
  }

  predicate EndsWith(s: string, c: char) {
    s != [] && s[|s| - 1] == c
  }

  /** The text without its one allowed trailing `;`. */
  function DropSemicolon(al: Alphabet, text: string): string {
    if EndsWith(text, ';') then RStrip(al, text[..|text| - 1]) else text
  }

  /** How much of a text `^[\s(]*` covers. */
  function OpeningLength(al: Alphabet, s: string): (n: nat)
    ensures n <= |s|
  {
    if s != [] && (al.space(s[0]) || s[0] == '(') then 1 + OpeningLength(al, s[1..]) else 0
  }

  /** `^[\s(]*(?:SELECT|WITH)\b` matches. */
  predicate OpensAsQuery(al: Alphabet, pol: Policy, s: string) {
    var rest := s[OpeningLength(al, s)..];
    StartsWord(al, rest) && pol.opener(rest[..RunLength(al, rest)])
  }

  predicate HasDeniedWord(pol: Policy, words: seq<string>) {
    exists k :: 0 <= k < |words| && pol.denied(words[k])
  }

  /** The words of a text and its other non-blank characters, in order. */
  function Units(al: Alphabet, s: string): seq<string> {
    if s == [] then []
    else if al.space(s[0]) then Units(al, s[1..])
    else if !al.Word(s[0]) then [[s[0]]] + Units(al, s[1..])
    else
      var n := RunLength(al, s);
      [s[..n]] + Units(al, s[n..])
  }

  function WordAt(al: Alphabet, pol: Policy, tokens: seq<string>, k: nat): LockWord {
    if k < |tokens| && StartsWord(al, tokens[k]) then pol.lockWord(tokens[k]) else AnyOther
  }

  /** `\bFOR\s+(UPDATE|SHARE|NO\s+KEY\s+UPDATE|KEY\s+SHARE)\b`: words with nothing but whitespace between
      them are neighbouring tokens. */
  predicate HasRowLock(al: Alphabet, pol: Policy, tokens: seq<string>) {
    exists k: nat :: k < |tokens| && LocksAt(al, pol, tokens, k)
  }

  predicate LocksAt(al: Alphabet, pol: Policy, tokens: seq<string>, k: nat) {
    && WordAt(al, pol, tokens, k) == For
    && match WordAt(al, pol, tokens, k + 1)
       case Update => true
       case Share => true
       case No => WordAt(al, pol, tokens, k + 2) == Key && WordAt(al, pol, tokens, k + 3) == Update
       case Key => WordAt(al, pol, tokens, k + 2) == Share
       case _ => false
  }

  /** `check_read_only` */
  function CheckReadOnly(al: Alphabet, pol: Policy, sql: Option<string>): Verdict {
    if Missing(al, sql) then Refused(Empty)
    else if |sql.value| > MAX_SQL_CHARS then Refused(TooLong)
    else match Neutralize(al, sql.value)
      case Rejected(form) => Refused(Unreadable(form))
      case Done(v) => Judge(al, pol, DropSemicolon(al, v.text))
  }

  /** The rungs of the ladder that read the analysis copy. */
  function Judge(al: Alphabet, pol: Policy, text: string): Verdict {
    if text == "" then Refused(Empty)
    else if ';' in text then Refused(MultiStatement)
    else if !OpensAsQuery(al, pol, text) then Refused(NotASelect)
    else if HasDeniedWord(pol, Runs(al, text)) then Refused(DeniedKeyword)
    else if HasRowLock(al, pol, Units(al, text)) then Refused(RowLock)
    else if pol.dangerousCall(text) then Refused(DangerousCall)
    else Allowed
  }

  datatype ReconVerdict = Clear | Unparseable(form: Ambiguity) | Recon

  /** `check_no_recon` */
  ghost function CheckNoRecon(al: Alphabet, pol: Policy, sql: Option<string>): ReconVerdict {
    if Missing(al, sql) then Clear
    else match Neutralize(al, sql.value)
      case Rejected(form) => Unparseable(form)
      case Done(v) =>
        if pol.reconCall(v.text) || NiladicHit(al, pol.niladic, v) || pol.reconCast(v.text)
        then Recon else Clear
  }

  /** `str.split()`: the whitespace-separated pieces. */
  function Pieces(al: Alphabet, s: string): seq<string>
    decreases |s|
  {
    if s == [] then []
    else if al.space(s[0]) then Pieces(al, s[1..])
    else
      var n := PieceLength(al, s);
      [s[..n]] + Pieces(al, s[n..])
  }

  function PieceLength(al: Alphabet, s: string): (n: nat)
    ensures n <= |s|
    ensures s != [] && !al.space(s[0]) ==> n > 0
  {
    if s == [] || al.space(s[0]) then 0 else 1 + PieceLength(al, s[1..])
  }

  function JoinWithSpaces(pieces: seq<string>): string {
    if pieces == [] then []
    else if |pieces| == 1 then pieces[0]
    else pieces[0] + " " + JoinWithSpaces(pieces[1..])
  }

  /** `statement_fingerprint` */
  function Fingerprint(al: Alphabet, sql: Option<string>): Option<string> {
    if Missing(al, sql) then None
    else match Neutralize(al, sql.value)
      case Rejected(_) => None
      case Done(v) =>
        var text := if EndsWith(v.text, ';') then v.text[..|v.text| - 1] else v.text;
        var shape := JoinWithSpaces(Pieces(al, text));
        if shape == "" then None else Some(shape)
  }

  // ---------------------------------------------------------------------------
  // The ladder, told on the visible statement
  // ---------------------------------------------------------------------------

  /** `s` without a final `;`. */
  function WithoutFinal(s: string): string {
    if EndsWith(s, ';') then s[..|s| - 1] else s
  }

  lemma {:induction false} SqueezeKeeps(al: Alphabet, s: string, c: char)
    requires !al.space(c)
    ensures c in Squeeze(al, s) <==> c in s
    decreases |s|
  {
    if s != [] {
      SqueezeKeeps(al, s[1..], c);
    }
  }

  lemma {:induction false} SqueezeEmpty(al: Alphabet, s: string)
    ensures Squeeze(al, s) == "" <==> forall k :: 0 <= k < |s| ==> al.space(s[k])
    decreases |s|
  {
    if s != [] {
      SqueezeEmpty(al, s[1..]);
      if forall k :: 0 <= k < |s| ==> al.space(s[k]) {
        assert forall k :: 0 <= k < |s[1..]| ==> s[1..][k] == s[k + 1];
      }
    }
  }

  /** A stripped text neither starts nor ends with whitespace. */
  ghost predicate Stripped(al: Alphabet, s: string) {
    s != "" ==> !al.space(s[0]) && !al.space(s[|s| - 1])
  }

  lemma StripStrips(al: Alphabet, s: string)
    ensures Stripped(al, Strip(al, s))
  {
    var t := LStrip(al, s);
    var u := RStrip(al, t);
    if u != "" {
      assert u[0] == t[0] && t[0] == s[Lead(al, s)];
    }
  }

  /** Dropping the trailing `;` changes no word, and removes one final `;` from what is not blank. */
  lemma DropSemicolonShows(al: Alphabet, text: string)
    requires Stripped(al, text)
    ensures Runs(al, DropSemicolon(al, text)) == Runs(al, text)
    ensures Squeeze(al, DropSemicolon(al, text)) == WithoutFinal(Squeeze(al, text))
  {
    if text != "" {
      var head, last := text[..|text| - 1], text[|text| - 1];
      assert text == head + [last];
      SqueezeConcat(al, head, [last]);
      assert Squeeze(al, [last]) == [last];
      if last == ';' {
        RunsConcat(al, head, ";");
        RunsBlank(al, ";");
        RunsRStrip(al, head);
        SqueezeRStrip(al, head);
        assert Squeeze(al, text)[..|Squeeze(al, text)| - 1] == Squeeze(al, head);
      }
    }
  }

  lemma DropSemicolonEmpty(al: Alphabet, text: string)
    requires Stripped(al, text)
    ensures DropSemicolon(al, text) == "" <==> Squeeze(al, DropSemicolon(al, text)) == ""
  {
    var t := DropSemicolon(al, text);
    SqueezeEmpty(al, t);
    if t != "" {
      assert !al.space(t[|t| - 1]);
    }
  }

  /** How many `(` a text opens with. */
  function Parens(s: string): (n: nat)
    ensures n <= |s|
  {
    if StartsWith(s, '(') then 1 + Parens(s[1..]) else 0
  }

  /** Of a text shown without its whitespace, and of its words: nothing but `(` comes before the first
      word, and that word is an opener. */
  predicate OpensShown(al: Alphabet, pol: Policy, shown: string, words: seq<string>) {
    && StartsWord(al, shown[Parens(shown)..])
    && words != [] && pol.opener(words[0])
  }

  /** The opening pattern matches exactly when the first thing shown behind any `(` is an opener. */
  lemma {:induction false} OpensIffShown(al: Alphabet, pol: Policy, s: string)
    ensures OpensAsQuery(al, pol, s) <==> OpensShown(al, pol, Squeeze(al, s), Runs(al, s))
    decreases |s|
  {
    assert '(' in PUNCTUATION;
    if s != [] && (al.space(s[0]) || s[0] == '(') {
      OpensIffShown(al, pol, s[1..]);
      OpeningSkips(al, pol, s);
      if s[0] == '(' {
        assert Squeeze(al, s)[1..] == Squeeze(al, s[1..]);
        assert Squeeze(al, s)[1..][Parens(Squeeze(al, s)[1..])..] == Squeeze(al, s)[Parens(Squeeze(al, s))..];
      }
    } else if s != [] {
      assert s[0..] == s;
      assert Squeeze(al, s)[0] == s[0];
      assert Squeeze(al, s)[0..] == Squeeze(al, s);
    }
  }

  lemma OpeningSkips(al: Alphabet, pol: Policy, s: string)
    requires s != [] && (al.space(s[0]) || s[0] == '(')
    ensures OpensAsQuery(al, pol, s) <==> OpensAsQuery(al, pol, s[1..])
    ensures Runs(al, s) == Runs(al, s[1..])
  {
    assert '(' in PUNCTUATION;
    assert s[OpeningLength(al, s)..] == s[1..][OpeningLength(al, s[1..])..];
  }

  /** The tokens of a text, told from its words and its non-blank characters. */
  function Woven(al: Alphabet, words: seq<string>, shown: string): seq<string>
    decreases |shown|
  {
    if shown == [] then []
    else if !al.Word(shown[0]) then [[shown[0]]] + Woven(al, words, shown[1..])
    else if words == [] || words[0] == [] || |words[0]| > |shown| then []
    else [words[0]] + Woven(al, words[1..], shown[|words[0]|..])
  }

  lemma {:induction false} SqueezeWord(al: Alphabet, s: string, n: nat)
    requires n <= |s| && forall k :: 0 <= k < n ==> al.Word(s[k])
    ensures Squeeze(al, s) == s[..n] + Squeeze(al, s[n..])
    decreases n
  {
    if n > 0 {
      SqueezeWord(al, s[1..], n - 1);
      assert s[1..][n - 1..] == s[n..];
      assert s[..n] == [s[0]] + s[1..][..n - 1];
    } else {
      assert s[0..] == s;
    }
  }

  lemma {:induction false} TokensAreWoven(al: Alphabet, s: string)
    ensures Units(al, s) == Woven(al, Runs(al, s), Squeeze(al, s))
    decreases |s|
  {
    if s != [] && al.Word(s[0]) {
      var n := RunLength(al, s);
      SqueezeWord(al, s, n);
      TokensAreWoven(al, s[n..]);
      assert Squeeze(al, s)[0] == s[0];
      assert Squeeze(al, s)[n..] == Squeeze(al, s[n..]);
      assert Runs(al, s)[1..] == Runs(al, s[n..]);
    } else if s != [] {
      TokensAreWoven(al, s[1..]);
      if !al.space(s[0]) {
        assert Squeeze(al, s)[1..] == Squeeze(al, s[1..]);
      }
    }
  }

  /** What `Judge` says of an analysis copy of a statement that shows `visible`. Only the last rung looks
      at the copy itself: a function name may be put together from an identifier and what precedes it. */
  function Ladder(al: Alphabet, pol: Policy, text: string, visible: string): Verdict {
    var shown := WithoutFinal(Squeeze(al, visible));
    if shown == "" then Refused(Empty)
    else if ';' in shown then Refused(MultiStatement)
    else if !OpensShown(al, pol, shown, Runs(al, visible)) then Refused(NotASelect)
    else if HasDeniedWord(pol, Runs(al, visible)) then Refused(DeniedKeyword)
    else if HasRowLock(al, pol, Woven(al, Runs(al, visible), shown)) then Refused(RowLock)
    else if pol.dangerousCall(text) then Refused(DangerousCall)
    else Allowed
  }

  lemma JudgeExact(al: Alphabet, pol: Policy, text: string, visible: string)
    requires Stripped(al, text)
    requires Runs(al, text) == Runs(al, visible) && Squeeze(al, text) == Squeeze(al, visible)
    ensures Judge(al, pol, DropSemicolon(al, text)) == Ladder(al, pol, DropSemicolon(al, text), visible)
  {
    hide Squeeze, Runs, DropSemicolon, WithoutFinal, OpensAsQuery, OpensShown, HasDeniedWord, HasRowLock, Units, Woven,
         Stripped;
    DropSemicolonShows(al, text);
    DropSemicolonEmpty(al, text);
    SqueezeKeeps(al, DropSemicolon(al, text), ';');
    OpensIffShown(al, pol, DropSemicolon(al, text));
    TokensAreWoven(al, DropSemicolon(al, text));
  }

  /** **The ladder is decided by the visible statement.** For a readable statement within the cap,
      emptiness, statement count, opening word, denied keywords and row-lock clauses are exactly those of
      the statement with its comments and literals blanked, its identifiers unquoted and every construct
      kept apart; the function pattern is matched on the copy. */
  lemma ReadOnlyExact(al: Alphabet, pol: Policy, sql: string, segs: seq<Seg>)
    requires Lex(al, sql) == Tokens(segs)
    requires !Missing(al, Some(sql)) && |sql| <= MAX_SQL_CHARS
    ensures Neutralize(al, sql).Done?
    ensures CheckReadOnly(al, pol, Some(sql))
         == Ladder(al, pol, DropSemicolon(al, Neutralize(al, sql).value.text), Visible(segs))
  {
    NeutralizeTokens(al, sql, segs);
    TextShowsVisible(al, sql, segs);
    StripStrips(al, Render(al, NOTHING, segs).text);
    JudgeExact(al, pol, Neutralize(al, sql).value.text, Visible(segs));
  }

  // ---------------------------------------------------------------------------
  // Back to the input: no word of any construct is a denied keyword
  // ---------------------------------------------------------------------------

  lemma {:induction false} VisibleConcat(a: seq<Seg>, b: seq<Seg>)
    ensures Visible(a + b) == Visible(a) + Visible(b)
    decreases |a|
  {
    hide Shown;
    if a == [] {
      assert a + b == b;
    } else {
      VisibleConcat(a[1..], b);
      assert (a + b)[1..] == a[1..] + b;
    }
  }

  /** The characters of a stretch of the statement's own text. */
  function OwnText(segs: seq<Seg>): string
    requires forall k :: 0 <= k < |segs| ==> segs[k].Plain?
  {
    seq(|segs|, k requires 0 <= k < |segs| => segs[k].c)
  }

  lemma {:induction false} VisibleOwn(segs: seq<Seg>)
    requires forall k :: 0 <= k < |segs| ==> segs[k].Plain?
    ensures Visible(segs) == OwnText(segs)
    decreases |segs|
  {
    if segs != [] {
      VisibleOwn(segs[1..]);
      assert OwnText(segs) == [segs[0].c] + OwnText(segs[1..]);
    }
  }

  lemma {:induction false} VisibleEnds(al: Alphabet, a: seq<Seg>)
    requires a != [] ==> !a[|a| - 1].Plain?
    ensures !EndsWord(al, Visible(a))
  {
    if a != [] {
      var last := a[|a| - 1];
      assert a == a[..|a| - 1] + [last];
      VisibleConcat(a[..|a| - 1], [last]);
      assert Visible([last]) == Shown(last) + Visible([last][1..]);
    }
  }

  lemma VisibleBegins(al: Alphabet, b: seq<Seg>)
    requires b != [] ==> !b[0].Plain?
    ensures !StartsWord(al, Visible(b))
  {
  }

  lemma MiddleRuns(al: Alphabet, left: string, middle: string, right: string)
    requires !EndsWord(al, left) && !StartsWord(al, right)
    ensures Runs(al, left + middle + right) == Runs(al, left) + Runs(al, middle) + Runs(al, right)
  {
    RunsConcat(al, left, middle);
    RunsConcat(al, left + middle, right);
  }

  /** Every word of an identifier's unescaped content is a word of the visible statement. */
  lemma VisibleAround(a: seq<Seg>, name: Seg, b: seq<Seg>)
    requires name.Name?
    ensures Visible(a + [name] + b) == (Visible(a) + " ") + name.content + (" " + Visible(b))
  {
    VisibleConcat(a, [name]);
    VisibleConcat(a + [name], b);
    assert Visible([name]) == Shown(name) + Visible([name][1..]) == " " + name.content + " ";
    hide Visible;
    Regroup(Visible(a), name.content, Visible(b));
  }

  lemma Regroup(left: string, middle: string, right: string)
    ensures left + (" " + middle + " ") + right == (left + " ") + middle + (" " + right)
  {
  }

  lemma NameRunsShown(al: Alphabet, a: seq<Seg>, name: Seg, b: seq<Seg>, w: string)
    requires name.Name? && w in Runs(al, name.content)
    ensures w in Runs(al, Visible(a + [name] + b))
  {
    VisibleAround(a, name, b);
    hide Visible, Runs;
    MiddleRuns(al, Visible(a) + " ", name.content, " " + Visible(b));
  }

  /** Every word of a maximal stretch of the statement's own text is a word of the visible one. */
  lemma OwnRunsShown(al: Alphabet, a: seq<Seg>, own: seq<Seg>, b: seq<Seg>, w: string)
    requires forall k :: 0 <= k < |own| ==> own[k].Plain?
    requires (a != [] ==> !a[|a| - 1].Plain?) && (b != [] ==> !b[0].Plain?)
    requires w in Runs(al, OwnText(own))
    ensures w in Runs(al, Visible(a + own + b))
  {
    VisibleConcat(a, own);
    VisibleConcat(a + own, b);
    VisibleOwn(own);
    VisibleEnds(al, a);
    VisibleBegins(al, b);
    MiddleRuns(al, Visible(a), OwnText(own), Visible(b));
  }

  lemma AcceptedWords(al: Alphabet, pol: Policy, sql: string, segs: seq<Seg>, w: string)
    requires Lex(al, sql) == Tokens(segs)
    requires CheckReadOnly(al, pol, Some(sql)) == Allowed
    requires w in Runs(al, Visible(segs))
    ensures !pol.denied(w)
  {
    ReadOnlyExact(al, pol, sql, segs);
  }

  /** **What an accepted statement cannot hold**: no word of an identifier's unescaped content,
      closed or not, is a denied keyword. */
  lemma AcceptedNames(al: Alphabet, pol: Policy, sql: string, a: seq<Seg>, name: Seg, b: seq<Seg>, w: string)
    requires Lex(al, sql) == Tokens(a + [name] + b) && name.Name?
    requires CheckReadOnly(al, pol, Some(sql)) == Allowed
    requires w in Runs(al, name.content)
    ensures !pol.denied(w)
  {
    NameRunsShown(al, a, name, b, w);
    AcceptedWords(al, pol, sql, a + [name] + b, w);
  }

  /** Nor is any word of a stretch of its own text, between two other constructs or the ends. */
  lemma AcceptedOwnText(al: Alphabet, pol: Policy, sql: string, a: seq<Seg>, own: seq<Seg>, b: seq<Seg>, w: string)
    requires Lex(al, sql) == Tokens(a + own + b)
    requires forall k :: 0 <= k < |own| ==> own[k].Plain?
    requires (a != [] ==> !a[|a| - 1].Plain?) && (b != [] ==> !b[0].Plain?)
    requires CheckReadOnly(al, pol, Some(sql)) == Allowed
    requires w in Runs(al, OwnText(own))
    ensures !pol.denied(w)
  {
    OwnRunsShown(al, a, own, b, w);
    AcceptedWords(al, pol, sql, a + own + b, w);
  }

  /** And what is visible of it has no `;` except as its last non-blank character. */
  lemma AcceptedIsOneStatement(al: Alphabet, pol: Policy, sql: string, segs: seq<Seg>)
    requires Lex(al, sql) == Tokens(segs)
    requires CheckReadOnly(al, pol, Some(sql)) == Allowed
    ensures forall k :: 0 <= k < |Visible(segs)| && Visible(segs)[k] == ';' ==>
              forall j :: k < j < |Visible(segs)| ==> al.space(Visible(segs)[j])
  {
    ReadOnlyExact(al, pol, sql, segs);
    SemicolonIsLast(al, Visible(segs));
  }

  lemma NothingAfter(al: Alphabet, s: string, k: nat)
    requires k < |s| && s[k] == ';'
    requires ';' !in WithoutFinal(Squeeze(al, s))
    ensures Squeeze(al, s[k + 1..]) == ""
  {
    assert s == s[..k] + [';'] + s[k + 1..];
    SqueezeConcat(al, s[..k] + [';'], s[k + 1..]);
    SqueezeConcat(al, s[..k], ";");
    assert Squeeze(al, ";") == ";";
    var left, right := Squeeze(al, s[..k]), Squeeze(al, s[k + 1..]);
    assert Squeeze(al, s) == left + [';'] + right;
    hide Squeeze;
    assert Squeeze(al, s)[|left|] == ';';
  }

  lemma SemicolonIsLast(al: Alphabet, s: string)
    requires ';' !in WithoutFinal(Squeeze(al, s))
    ensures forall k :: 0 <= k < |s| && s[k] == ';' ==> forall j :: k < j < |s| ==> al.space(s[j])
  {
    forall k | 0 <= k < |s| && s[k] == ';'
      ensures forall j :: k < j < |s| ==> al.space(s[j])
    {
      NothingAfter(al, s, k);
      SqueezeEmpty(al, s[k + 1..]);
      assert forall j :: k < j < |s| ==> s[j] == s[k + 1..][j - k - 1];
    }
  }
}
