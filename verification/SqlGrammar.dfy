/** The lexer and the grammar agree: a statement has at most one reading, and the lexer finds it. */
module SqlGrammar {
  import opened Common
  import opened SqlText
  import opened SqlLexer

  lemma LineCommentHead(s: string, raw: string)
    requires Opens(s, '-', '-')
    requires |s| > 2 ==> CommentGap(s[2])
    ensures raw <= s && IsLineComment(raw, s[|raw|..]) <==> raw == s[..2 + LineLength(s[2..])]
  {
    var n := LineLength(s[2..]);
    if raw == s[..2 + n] {
      assert forall k :: 2 <= k < |raw| ==> raw[k] == s[2..][k - 2];
    }
    if raw <= s && IsLineComment(raw, s[|raw|..]) {
      assert |raw| >= 2 + n;
      assert |raw| <= 2 + n;
    }
  }

  lemma AtShift(s: string, pat: string, n: nat, k: nat)
    requires n <= |s|
    ensures At(s[n..], pat, k) <==> At(s, pat, n + k)
  {
    if n + k + |pat| <= |s| {
      assert s[n..][k..k + |pat|] == s[n + k..n + k + |pat|];
    }
  }

  lemma AtPrefix(raw: string, s: string, pat: string, k: nat)
    requires raw <= s
    ensures At(raw, pat, k) <==> At(s, pat, k) && k + |pat| <= |raw|
  {
    if k + |pat| <= |raw| {
      assert raw[k..k + |pat|] == s[k..k + |pat|];
    }
  }

  /** A pattern's first place in `s[n..]`, told in positions of `s`. */
  lemma FindFrom(s: string, pat: string, n: nat)
    requires pat != [] && n <= |s|
    ensures match Find(s[n..], pat)
            case Some(k) => At(s, pat, n + k) && forall j: nat :: n <= j < n + k ==> !At(s, pat, j)
            case None => forall j: nat :: n <= j ==> !At(s, pat, j)
  {
    forall j: nat | n <= j
      ensures At(s[n..], pat, j - n) <==> At(s, pat, j)
    {
      AtShift(s, pat, n, j - n);
    }
  }

  /** Told in positions of the statement: the comment ends behind the first closer past its opener, or
      with the statement. */
  ghost predicate ClosesAt(s: string, raw: string) {
    if |raw| >= 4 && At(s, "*/", |raw| - 2) then forall k: nat :: 2 <= k < |raw| - 2 ==> !At(s, "*/", k)
    else raw == s && forall k: nat :: 2 <= k ==> !At(s, "*/", k)
  }

  lemma BlockCommentCloses(s: string, raw: string)
    requires Opens(s, '/', '*') && !StartsWith(s[2..], '!') && raw <= s
    ensures IsBlockComment(raw, s[|raw|..]) <==> |raw| >= 2 && ClosesAt(s, raw)
  {
    hide At;
    forall k: nat
      ensures At(raw, "*/", k) <==> At(s, "*/", k) && k + 2 <= |raw|
    {
      AtPrefix(raw, s, "*/", k);
    }
    assert |raw| > 2 ==> raw[2..][0] == s[2..][0];
    assert s[|raw|..] == [] <==> raw == s;
    assert |raw| >= 4 ==> (At(raw, "*/", |raw| - 2) <==> At(s, "*/", |raw| - 2));
  }

  lemma ClosesIff(s: string, raw: string)
    requires |s| >= 2 && raw <= s
    ensures |raw| >= 2 && ClosesAt(s, raw) <==>
            match Find(s[2..], "*/")
            case Some(k) => 2 + k + 2 <= |s| && raw == s[..2 + k + 2]
            case None => raw == s
  {
    hide At, Find;
    FindFrom(s, "*/", 2);
    if Find(s[2..], "*/").Some? {
      var k: nat := 2 + Find(s[2..], "*/").value;
      AtBounded(s, "*/", k);
      if |raw| == k + 2 {
        assert |raw| - 2 == k;
      }
      if |raw| >= 2 && ClosesAt(s, raw) {
        assert |raw| >= 4 && At(s, "*/", |raw| - 2);
      }
    }
  }

  lemma AtBounded(s: string, pat: string, k: nat)
    requires At(s, pat, k)
    ensures k + |pat| <= |s|
  {
  }

  lemma BlockCommentHead(s: string, raw: string)
    requires Opens(s, '/', '*')
    requires !StartsWith(s[2..], '!')
    ensures raw <= s && IsBlockComment(raw, s[|raw|..]) <==>
            match Find(s[2..], "*/")
            case Some(k) => raw == s[..2 + k + 2]
            case None => raw == s
  {
    hide At, Find, IsBlockComment, ClosesAt;
    if raw <= s {
      BlockCommentCloses(s, raw);
      ClosesIff(s, raw);
    }
    if Find(s[2..], "*/").Some? {
      AtBounded(s[2..], "*/", Find(s[2..], "*/").value);
      assert s[..2 + Find(s[2..], "*/").value + 2] <= s;
    }
  }

  lemma TagLengthIs(al: Alphabet, s: string, m: nat)
    requires 2 <= m <= |s| && s[0] == '$' && s[m - 1] == '$'
    requires forall k :: 1 <= k < m - 1 ==> al.Word(s[k])
    ensures TagLength(al, s) == Some(m)
  {
    assert '$' in PUNCTUATION;
    assert s[1..][m - 2] == '$';
    RunLengthIs(al, s[1..], m - 2);
  }

  /** A tag is a tag of every longer and every shorter text that still holds it. */
  lemma TagKept(al: Alphabet, raw: string, s: string, m: nat)
    requires raw <= s && m <= |raw|
    ensures TagLength(al, raw) == Some(m) <==> TagLength(al, s) == Some(m)
  {
    if TagLength(al, raw) == Some(m) {
      TagLengthIs(al, s, m);
    }
    if TagLength(al, s) == Some(m) {
      TagLengthIs(al, raw, m);
    }
  }

  /** The tag stands at `m + k` for the first time after its opening. */
  ghost predicate ClosesFirst(s: string, m: nat, k: nat)
    requires m <= |s|
  {
    At(s, s[..m], m + k) && forall j: nat :: m <= j < m + k ==> !At(s, s[..m], j)
  }

  lemma DollarLengthIs(al: Alphabet, s: string, m: nat)
    requires TagLength(al, s) == Some(m)
    ensures match DollarLength(al, s)
            case Some(n) => 2 * m <= n <= |s| && ClosesFirst(s, m, n - 2 * m)
            case None => forall j: nat :: m <= j ==> !At(s, s[..m], j)
  {
    hide TagLength, At, Find;
    FindFrom(s, s[..m], m);
  }

  lemma ClosesFirstUnique(s: string, m: nat, k: nat, k': nat)
    requires m <= |s| && ClosesFirst(s, m, k) && ClosesFirst(s, m, k')
    ensures k == k'
  {
    hide At;
  }

  lemma IsDollarCloses(al: Alphabet, raw: string, s: string, m: nat)
    requires raw <= s && TagLength(al, raw) == Some(m) && 2 * m <= |raw|
    ensures IsDollar(al, raw) <==> ClosesFirst(s, m, |raw| - 2 * m)
  {
    hide TagLength, At;
    assert raw[..m] == s[..m];
    forall k: nat
      ensures At(raw, s[..m], k) <==> At(s, s[..m], k) && k + m <= |raw|
    {
      AtPrefix(raw, s, s[..m], k);
    }
  }

  lemma DollarFits(al: Alphabet, s: string, raw: string)
    requires raw <= s && IsDollar(al, raw)
    ensures DollarLength(al, s) == Some(|raw|)
  {
    hide TagLength, At, DollarLength;
    var m := TagLength(al, raw).value;
    TagKept(al, raw, s, m);
    DollarLengthIs(al, s, m);
    IsDollarCloses(al, raw, s, m);
    assert At(s, s[..m], m + (|raw| - 2 * m));
    ClosesFirstUnique(s, m, |raw| - 2 * m, DollarLength(al, s).value - 2 * m);
  }

  lemma DollarTagged(al: Alphabet, s: string)
    requires DollarLength(al, s).Some?
    ensures TagLength(al, s).Some?
  {
    hide TagLength, Find;
  }

  lemma DollarTaken(al: Alphabet, s: string)
    requires DollarLength(al, s).Some?
    ensures IsDollar(al, s[..DollarLength(al, s).value])
  {
    hide TagLength, At, DollarLength, IsDollar, ClosesFirst;
    DollarTagged(al, s);
    var m := TagLength(al, s).value;
    var raw := s[..DollarLength(al, s).value];
    DollarLengthIs(al, s, m);
    TagKept(al, raw, s, m);
    IsDollarCloses(al, raw, s, m);
  }

  lemma DollarHead(al: Alphabet, s: string, raw: string)
    requires StartsWith(s, '$')
    ensures raw <= s && IsDollar(al, raw) <==>
            DollarLength(al, s).Some? && raw == s[..DollarLength(al, s).value]
  {
    hide DollarLength, IsDollar;
    if raw <= s && IsDollar(al, raw) {
      DollarFits(al, s, raw);
    }
    if DollarLength(al, s).Some? {
      DollarTaken(al, s);
    }
  }

  lemma DollarOpensNothing(al: Alphabet, s: string)
    requires StartsWith(s, '$')
    ensures OpensNothing(al, s) <==> DollarLength(al, s).None?
  {
    hide TagLength, At, Find;
    if TagLength(al, s).Some? {
      DollarLengthIs(al, s, TagLength(al, s).value);
    }
  }

  lemma PlainTaken(al: Alphabet, s: string, c: char)
    requires s != [] && s[0] == c && Fits(al, Plain(c), s[1..])
    ensures HeadOf(al, s) == Take(Plain(c))
  {
    hide Find, LineLength, Consume, DollarLength, OpensNothing;
    assert s == [c] + s[1..];
    if c == '$' {
      DollarOpensNothing(al, s);
    }
  }

  lemma LineCommentTaken(al: Alphabet, s: string, raw: string)
    requires raw <= s && IsLineComment(raw, s[|raw|..])
    ensures HeadOf(al, s) == Take(Blank(raw))
  {
    hide Find, LineLength, Consume, DollarLength;
    LineCommentHead(s, raw);
  }

  lemma BlockCommentTaken(al: Alphabet, s: string, raw: string)
    requires raw <= s && IsBlockComment(raw, s[|raw|..])
    ensures HeadOf(al, s) == Take(Blank(raw))
  {
    hide Find, LineLength, Consume, DollarLength, At;
    assert |s| > 2 && |raw| > 2 ==> s[2..][0] == raw[2..][0];
    BlockCommentHead(s, raw);
  }

  lemma StringTaken(al: Alphabet, s: string, raw: string)
    requires raw <= s && IsString(raw, s[|raw|..])
    ensures HeadOf(al, s) == Take(Blank(raw))
  {
    hide Find, LineLength, Consume, DollarLength;
    var content, closed :| IsDelimited('\'', raw, content, closed, s[|raw|..]);
    ConsumeIsDelimited('\'', s, raw, content, closed);
  }

  lemma DollarLiteralTaken(al: Alphabet, s: string, raw: string)
    requires raw <= s && IsDollar(al, raw)
    ensures HeadOf(al, s) == Take(Blank(raw))
  {
    hide HeadOf, Find, At, DollarLength;
    assert StartsWith(s, '$');
    DollarIsHead(al, s);
    DollarHead(al, s, raw);
  }

  lemma NameTaken(al: Alphabet, s: string, raw: string, content: string, closed: bool)
    requires raw <= s && IsDelimited('"', raw, content, closed, s[|raw|..])
    ensures HeadOf(al, s) == Take(Name(raw, content, closed))
  {
    hide Find, LineLength, Consume, DollarLength;
    ConsumeIsDelimited('"', s, raw, content, closed);
  }

  lemma FitsIsTaken(al: Alphabet, s: string, seg: Seg)
    requires seg.Raw() != [] && seg.Raw() <= s
    requires Fits(al, seg, s[|seg.Raw()|..])
    ensures HeadOf(al, s) == Take(seg)
  {
    hide HeadOf, IsLineComment, IsBlockComment, IsString, IsDollar, IsDelimited;
    var rest := s[|seg.Raw()|..];
    match seg
    case Plain(c) => PlainTaken(al, s, c);
    case Blank(raw) =>
      if IsLineComment(raw, rest) {
        LineCommentTaken(al, s, raw);
      } else if IsBlockComment(raw, rest) {
        BlockCommentTaken(al, s, raw);
      } else if IsString(raw, rest) {
        StringTaken(al, s, raw);
      } else {
        DollarLiteralTaken(al, s, raw);
      }
    case Name(raw, content, closed) => NameTaken(al, s, raw, content, closed);
  }

  lemma LineCommentFits(al: Alphabet, s: string)
    requires Opens(s, '-', '-') && HeadOf(al, s).Take?
    ensures var seg := HeadOf(al, s).seg; Fits(al, seg, s[|seg.Raw()|..])
  {
    hide Find, LineLength, Consume, DollarLength, IsBlockComment, IsString, IsDollar;
    LineCommentHead(s, HeadOf(al, s).seg.Raw());
  }

  lemma BlockCommentFits(al: Alphabet, s: string)
    requires Opens(s, '/', '*') && HeadOf(al, s).Take?
    ensures var seg := HeadOf(al, s).seg; Fits(al, seg, s[|seg.Raw()|..])
  {
    hide At, Find, LineLength, Consume, DollarLength, IsLineComment, IsBlockComment, IsString, IsDollar;
    BlockCommentHead(s, HeadOf(al, s).seg.Raw());
  }

  lemma StringFits(al: Alphabet, s: string)
    requires StartsWith(s, '\'')
    ensures HeadOf(al, s).Take?
    ensures var seg := HeadOf(al, s).seg; Fits(al, seg, s[|seg.Raw()|..])
  {
    hide Find, LineLength, Consume, DollarLength, IsLineComment, IsBlockComment, IsDelimited, IsDollar;
    var b := Consume('\'', s[1..]);
    ConsumeIsDelimited('\'', s, HeadOf(al, s).seg.Raw(), b.content, b.closed);
  }

  lemma NameFits(al: Alphabet, s: string)
    requires StartsWith(s, '"')
    ensures HeadOf(al, s).Take?
    ensures var seg := HeadOf(al, s).seg; Fits(al, seg, s[|seg.Raw()|..])
  {
    hide Find, LineLength, Consume, DollarLength, IsLineComment, IsBlockComment, IsDelimited, IsDollar;
    var b := Consume('"', s[1..]);
    ConsumeIsDelimited('"', s, HeadOf(al, s).seg.Raw(), b.content, b.closed);
  }

  lemma DollarSignFits(al: Alphabet, s: string)
    requires StartsWith(s, '$')
    ensures HeadOf(al, s).Take?
    ensures var seg := HeadOf(al, s).seg; Fits(al, seg, s[|seg.Raw()|..])
  {
    hide HeadOf, At, Find, TagLength, DollarLength, OpensNothing, IsLineComment, IsBlockComment, IsString, IsDollar;
    DollarIsHead(al, s);
    DollarHead(al, s, HeadOf(al, s).seg.Raw());
    DollarOpensNothing(al, s);
    assert s == "$" + s[1..];
  }

  lemma TakenFits(al: Alphabet, s: string)
    requires s != [] && HeadOf(al, s).Take?
    ensures var seg := HeadOf(al, s).seg; Fits(al, seg, s[|seg.Raw()|..])
  {
    hide At, Find, LineLength, Consume, DollarLength, OpensNothing, IsLineComment, IsBlockComment, IsString,
         IsDelimited, IsDollar;
    if Opens(s, '-', '-') {
      LineCommentFits(al, s);
    } else if Opens(s, '/', '*') {
      BlockCommentFits(al, s);
    } else if s[0] == '\'' {
      StringFits(al, s);
    } else if s[0] == '"' {
      NameFits(al, s);
    } else if s[0] == '$' {
      DollarSignFits(al, s);
    }
  }

  /** The lexer refuses a text exactly when it opens with an ambiguous form. */
  lemma RefusedIffAmbiguous(al: Alphabet, s: string, form: Ambiguity)
    requires s != []
    ensures HeadOf(al, s) == Refuse(form) <==> OpensWith(s, form)
  {
    hide Find, LineLength, Consume, DollarLength;
    if |s| > 2 {
      assert s[2..][0] == s[2];
    }
  }

  /** **The lexer is the grammar's only reading.** It returns `segs` exactly when they cut the whole
      statement into constructs that each fit where they stand. */
  lemma {:induction false} LexIffParses(al: Alphabet, s: string, segs: seq<Seg>)
    ensures Lex(al, s) == Tokens(segs) <==> NonEmpty(segs) && Parses(al, segs, s)
    decreases |s|
  {
    if s != [] {
      var h := HeadOf(al, s);
      if h.Take? {
        var raw := h.seg.Raw();
        TakenFits(al, s);
        if segs != [] {
          LexIffParses(al, s[|raw|..], segs[1..]);
          assert segs == [segs[0]] + segs[1..];
        }
      }
      if segs != [] && segs[0].Raw() != [] && Parses(al, segs, s) {
        FitsIsTaken(al, s, segs[0]);
      }
      if Lex(al, s).Tokens? && Lex(al, s).segs == segs {
        assert segs[1..] == Lex(al, s[|h.seg.Raw()|..]).segs;
      }
    } else if segs != [] && Parses(al, segs, s) {
      assert segs[0].Raw() == [];
    }
  }

  ghost predicate NonEmpty(segs: seq<Seg>) {
    forall k :: 0 <= k < |segs| ==> segs[k].Raw() != []
  }

  /** Cut by `before`, the statement leaves a text that opens with the ambiguous form. */
  ghost predicate LeavesForm(al: Alphabet, before: seq<Seg>, s: string, form: Ambiguity) {
    exists rest: string :: ParsesTo(al, before, s, rest) && OpensWith(rest, form)
  }

  lemma LeavesFormStep(al: Alphabet, before: seq<Seg>, s: string, form: Ambiguity)
    ensures LeavesForm(al, before, s, form) <==>
            if before == [] then OpensWith(s, form)
            else
              var raw := before[0].Raw();
              raw <= s && Fits(al, before[0], s[|raw|..]) && LeavesForm(al, before[1..], s[|raw|..], form)
  {
    hide Fits, OpensWith;
    if before == [] {
      assert ParsesTo(al, before, s, s);
    } else if before[0].Raw() <= s && Fits(al, before[0], s[|before[0].Raw()|..]) {
      forall rest: string
        ensures ParsesTo(al, before, s, rest) <==> ParsesTo(al, before[1..], s[|before[0].Raw()|..], rest)
      {
      }
    }
  }

  lemma LexStep(al: Alphabet, s: string, before: seq<Seg>, form: Ambiguity)
    requires s != []
    ensures HeadOf(al, s).Refuse? ==>
              (Lex(al, s) == Ambiguous(before, form) <==> before == [] && HeadOf(al, s).form == form)
    ensures HeadOf(al, s).Take? ==>
              (Lex(al, s) == Ambiguous(before, form) <==>
                 && before != [] && before[0] == HeadOf(al, s).seg
                 && Lex(al, s[|HeadOf(al, s).seg.Raw()|..]) == Ambiguous(before[1..], form))
  {
    hide HeadOf;
    assert before != [] ==> before == [before[0]] + before[1..];
    if HeadOf(al, s).Take? {
      var seg := HeadOf(al, s).seg;
      if Lex(al, s[|seg.Raw()|..]).Ambiguous? {
        var more := Lex(al, s[|seg.Raw()|..]).before;
        assert ([seg] + more)[1..] == more;
      }
    }
  }

  lemma NonEmptyStep(segs: seq<Seg>)
    ensures NonEmpty(segs) <==> segs == [] || (segs[0].Raw() != [] && NonEmpty(segs[1..]))
  {
  }

  lemma NothingOpens(al: Alphabet, before: seq<Seg>, form: Ambiguity)
    requires NonEmpty(before)
    ensures Lex(al, []) != Ambiguous(before, form) && !LeavesForm(al, before, [], form)
  {
    LeavesFormStep(al, before, [], form);
  }

  /** **A statement is refused exactly on a live ambiguous form**: one that opens where the
      constructs before it end. */
  lemma {:induction false} AmbiguousIffLive(al: Alphabet, s: string, before: seq<Seg>, form: Ambiguity)
    ensures Lex(al, s) == Ambiguous(before, form) <==> NonEmpty(before) && LeavesForm(al, before, s, form)
    decreases |s|
  {
    hide HeadOf, Fits, OpensWith, Lex, NonEmpty, LeavesForm;
    NonEmptyStep(before);
    if s == [] {
      LexEmpty(al);
      if NonEmpty(before) {
        NothingOpens(al, before, form);
      }
    } else {
      LexStep(al, s, before, form);
      LeavesFormStep(al, before, s, form);
      RefusedIffAmbiguous(al, s, form);
      if HeadOf(al, s).Take? {
        TakenFits(al, s);
      }
      if before != [] && before[0].Raw() != [] && before[0].Raw() <= s {
        var raw := before[0].Raw();
        if Fits(al, before[0], s[|raw|..]) {
          FitsIsTaken(al, s, before[0]);
        }
        AmbiguousIffLive(al, s[|raw|..], before[1..], form);
      }
    }
  }

  lemma LexEmpty(al: Alphabet)
    ensures Lex(al, []) == Tokens([])
  {
  }

  /** The constructs partition the statement. */
  lemma {:induction false} LexPartitions(al: Alphabet, s: string)
    ensures match Lex(al, s)
            case Tokens(segs) => RawAll(segs) == s
            case Ambiguous(before, _) => RawAll(before) <= s
    decreases |s|
  {
    if s != [] && HeadOf(al, s).Take? {
      var seg := HeadOf(al, s).seg;
      LexPartitions(al, s[|seg.Raw()|..]);
      match Lex(al, s[|seg.Raw()|..])
      case Tokens(segs) => assert ([seg] + segs)[1..] == segs;
      case Ambiguous(before, _) => assert ([seg] + before)[1..] == before;
    }
  }
}
