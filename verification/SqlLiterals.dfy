/** Literal independence: what a closed string literal or a comment says never reaches a verdict. */
module SqlLiterals {
  import opened Common
  import opened SqlText
  import opened SqlLexer
  import opened SqlGrammar
  import opened Neutralizer
  import opened SqlSpans
  import opened SqlGates

  datatype Kind = StringLiteral | BlockComment | LineComment

  function Fill(kind: Kind, body: string): string {
    match kind
    case StringLiteral => Delimited('\'', body)
    case BlockComment => "/*" + body + "*/"
    case LineComment => "--" + body
  }

  /** `body` can be the body of such a construct in front of `after`. */
  ghost predicate WellFormed(kind: Kind, body: string, after: string) {
    match kind
    case StringLiteral => !StartsWith(after, '\'')
    case BlockComment => !StartsWith(body, '!') && forall k: nat :: !At(body, "*/", k)
    case LineComment =>
      && (body != [] ==> CommentGap(body[0]))
      && (forall k :: 0 <= k < |body| ==> !LineBreak(body[k]))
      && (after != [] ==> LineBreak(after[0]))
  }

  lemma BlockBodyCloses(body: string, k: nat)
    requires forall j: nat :: !At(body, "*/", j)
    ensures At("/*" + body + "*/", "*/", k) && k >= 2 ==> k == |body| + 2
    ensures At("/*" + body + "*/", "*/", |body| + 2)
  {
    var raw := "/*" + body + "*/";
    assert raw[|body| + 2..|body| + 4] == "*/";
    if 2 <= k <= |body| {
      assert raw[k..k + 2] == body[k - 2..k];
      assert !At(body, "*/", k - 2);
    } else if k == |body| + 1 {
      assert raw[k + 1] == '*' && raw[k..k + 2][1] == raw[k + 1];
      StarNoSlash(raw[k..k + 2]);
    }
  }

  lemma StarNoSlash(pair: string)
    requires |pair| == 2 && pair[1] == '*'
    ensures pair != "*/"
  {
    assert "*/"[1] == '/';
  }

  /** A well-formed filling is one blank construct. */
  lemma FillFits(al: Alphabet, kind: Kind, body: string, after: string)
    requires WellFormed(kind, body, after)
    ensures Fits(al, Blank(Fill(kind, body)), after)
  {
    var raw := Fill(kind, body);
    match kind
    case StringLiteral =>
      assert IsDelimited('\'', raw, body, true, after);
    case BlockComment =>
      forall k: nat
        ensures At(raw, "*/", k) && k >= 2 ==> k == |body| + 2
      {
        BlockBodyCloses(body, k);
      }
      BlockBodyCloses(body, 0);
      assert raw[2..] == body + "*/";
    case LineComment =>
  }

  /** The lexer reaches position `n` of `s` between two constructs. */
  predicate Reaches(al: Alphabet, s: string, n: nat)
    requires n <= |s|
    decreases |s|
  {
    n == 0 || match HeadOf(al, s)
              case Refuse(_) => false
              case Take(seg) => |seg.Raw()| <= n && Reaches(al, s[|seg.Raw()|..], n - |seg.Raw()|)
  }

  /** `tag` was opened among the first `n` characters of `s` by a `$` read as a plain character,
      because the tag does not stand again behind it. */
  predicate LeftOpen(al: Alphabet, s: string, n: nat, tag: string)
    requires n <= |s|
    decreases |s|
  {
    n > 0 && match HeadOf(al, s)
             case Refuse(_) => false
             case Take(seg) =>
               || (seg == Plain('$') && TagLength(al, s) == Some(|tag|) && tag <= s)
               || (|seg.Raw()| <= n && LeftOpen(al, s[|seg.Raw()|..], n - |seg.Raw()|, tag))
  }

  ghost predicate Stands(s: string, tag: string) {
    exists k: nat :: At(s, tag, k)
  }

  /** `tag` stands in `y + q` from a place inside `y`. */
  ghost predicate StandsFrom(y: string, q: string, tag: string) {
    exists k: nat :: k < |y| && At(y + q, tag, k)
  }

  ghost predicate TagShaped(al: Alphabet, tag: string) {
    && 2 <= |tag| && tag[0] == '$'
    && forall k :: 0 <= k < |tag| ==> al.Word(tag[k]) || tag[k] == '$'
  }

  lemma TagIsShaped(al: Alphabet, s: string, m: nat)
    requires TagLength(al, s) == Some(m)
    ensures m <= |s| && TagShaped(al, s[..m])
  {
  }

  // ---------------------------------------------------------------------------
  // Where a tag can stand around a literal
  // ---------------------------------------------------------------------------

  lemma PrefixStep(s: string, pat: string)
    ensures pat <= s <==> pat == [] || (s != [] && s[0] == pat[0] && pat[1..] <= s[1..])
  {
    if pat != [] && s != [] && s[0] == pat[0] && pat[1..] <= s[1..] {
      assert pat == [pat[0]] + pat[1..] && s == [s[0]] + s[1..];
    }
  }

  lemma {:induction false} DoubleKeepsPrefix(q: char, s: string, pat: string)
    requires q !in pat
    ensures pat <= Double(q, s) <==> pat <= s
    decreases |s|
  {
    hide *;
    var d := Double(q, s);
    PrefixStep(s, pat);
    PrefixStep(d, pat);
    DoubleStep(q, s);
    if s != [] && pat != [] {
      assert pat[0] in pat && forall c :: c in pat[1..] ==> c in pat;
      if s[0] != q {
        DoubleKeepsPrefix(q, s[1..], pat[1..]);
        assert d[1..] == Double(q, s[1..]);
      }
    }
  }

  lemma StandsStep(s: string, pat: string)
    requires pat != []
    ensures Stands(s, pat) <==> s != [] && (pat <= s || Stands(s[1..], pat))
  {
    if k: nat :| At(s, pat, k) {
      if k > 0 {
        AtTail(s, pat, k);
      }
    }
    if s != [] && pat <= s {
      assert At(s, pat, 0);
    }
    if s != [] && Stands(s[1..], pat) {
      var k: nat :| At(s[1..], pat, k);
      AtTail(s, pat, k + 1);
    }
  }

  lemma {:induction false} DoubleKeepsStanding(q: char, s: string, pat: string)
    requires pat != [] && q !in pat
    ensures Stands(Double(q, s), pat) <==> Stands(s, pat)
    decreases |s|
  {
    hide Stands;
    var d := Double(q, s);
    StandsStep(s, pat);
    StandsStep(d, pat);
    assert pat[0] in pat;
    if s != [] {
      DoubleKeepsPrefix(q, s, pat);
      DoubleKeepsStanding(q, s[1..], pat);
      if s[0] == q {
        StandsStep(d[1..], pat);
        assert d[1..][1..] == Double(q, s[1..]);
      } else {
        assert d[1..] == Double(q, s[1..]);
      }
    }
  }

  /** A pattern that stands between two barriers lies wholly between them. */
  lemma StandsBetween(s: string, pat: string, k: nat, start: nat, end: nat, limit: nat)
    requires pat != [] && At(s, pat, k)
    requires start <= end <= limit <= |s| && k < limit
    requires forall j :: 0 <= j < start ==> s[j] !in pat
    requires forall j :: end <= j < limit ==> s[j] !in pat
    requires end < |s| ==> s[end] !in pat
    ensures start <= k && k + |pat| <= end
  {
    assert forall j :: k <= j < k + |pat| ==> s[j] == s[k..k + |pat|][j - k] == pat[j - k];
    assert s[k] in pat;
    assert end < |s| ==> end < k || k + |pat| <= end;
  }

  lemma AtInside(before: string, mid: string, rest: string, pat: string, k: nat)
    requires k + |pat| <= |mid|
    ensures At(before + mid + rest, pat, |before| + k) <==> At(mid, pat, k)
  {
    assert (before + mid + rest)[|before| + k..|before| + k + |pat|] == mid[k..k + |pat|];
  }

  /** Between two texts no character of which belongs to the pattern, the pattern stands exactly
      where the middle holds it. */
  lemma StandsInside(before: string, mid: string, after: string, q: string, pat: string)
    requires pat != []
    requires forall c :: c in before + after ==> c !in pat
    requires after + q != [] ==> (after + q)[0] !in pat
    ensures StandsFrom(before + mid + after, q, pat) <==> Stands(mid, pat)
  {
    hide At;
    var y := before + mid + after;
    assert y + q == before + mid + (after + q);
    if k: nat :| At(mid, pat, k) {
      AtFits(mid, pat, k);
      AtInside(before, mid, after + q, pat, k);
    }
    if k: nat :| k < |y| && At(y + q, pat, k) {
      Barriers(before, mid, after, q);
      StandsBetween(y + q, pat, k, |before|, |before| + |mid|, |y|);
      AtInside(before, mid, after + q, pat, k - |before|);
    }
  }

  lemma AtFits(s: string, pat: string, k: nat)
    requires At(s, pat, k)
    ensures k + |pat| <= |s|
  {
  }

  lemma Barriers(before: string, mid: string, after: string, q: string)
    ensures var s, end, limit := before + mid + after + q, |before| + |mid|, |before + mid + after|;
            && (forall j :: 0 <= j < |before| ==> s[j] in before + after)
            && (forall j :: end <= j < limit ==> s[j] in before + after)
            && (end < |s| ==> s[end] == (after + q)[0])
  {
    var s, both := before + mid + after + q, before + after;
    assert forall j :: 0 <= j < |before| ==> s[j] == both[j];
    assert forall j :: |before| + |mid| <= j < |before + mid + after| ==> s[j] == both[j - |mid|];
  }

  lemma NoTagChar(al: Alphabet, tag: string, c: char)
    requires TagShaped(al, tag) && !al.Word(c) && c != '$'
    ensures c !in tag
  {
  }

  /** A tag stands from inside a literal exactly when it stands in the body. */
  lemma StandsInBody(al: Alphabet, kind: Kind, body: string, q: string, tag: string)
    requires WellFormed(kind, body, q) && TagShaped(al, tag)
    ensures StandsFrom(Fill(kind, body), q, tag) <==> Stands(body, tag)
  {
    hide Stands, StandsFrom;
    assert '\'' in PUNCTUATION && '/' in PUNCTUATION && '*' in PUNCTUATION && '-' in PUNCTUATION;
    forall c | c in "'/*-\r\n"
      ensures c !in tag
    {
      NoTagChar(al, tag, c);
    }
    match kind
    case StringLiteral =>
      DoubleKeepsStanding('\'', body, tag);
      StandsInside("'", Double('\'', body), "'", q, tag);
      assert Fill(kind, body) == "'" + Double('\'', body) + "'";
    case BlockComment =>
      StandsInside("/*", body, "*/", q, tag);
    case LineComment =>
      StandsInside("--", body, "", q, tag);
      assert "--" + body + "" == "--" + body;
  }

  /** Two texts that open with the same character, which ends any tag before it. */
  ghost predicate Alike(al: Alphabet, x: string, y: string) {
    x != [] && y != [] && x[0] == y[0] && !al.Word(x[0]) && x[0] != '$'
  }

  lemma FillAlike(al: Alphabet, kind: Kind, b1: string, b2: string)
    ensures Alike(al, Fill(kind, b1), Fill(kind, b2))
  {
    assert '\'' in PUNCTUATION && '/' in PUNCTUATION && '-' in PUNCTUATION;
  }

  /** A pattern keeps clear of a place whose character it does not have. */
  lemma TagMisses(s: string, tag: string, k: nat, place: nat)
    requires At(s, tag, k) && place < |s| && s[place] !in tag
    ensures place < k || k + |tag| <= place
  {
    assert forall j :: k <= j < k + |tag| ==> s[j] == s[k..k + |tag|][j - k] == tag[j - k] && s[j] in tag;
  }

  lemma AtBehind(a: string, b: string, pat: string, k: nat)
    ensures At(a + b, pat, |a| + k) <==> At(b, pat, k)
  {
    if k + |pat| <= |b| {
      assert (a + b)[|a| + k..|a| + k + |pat|] == b[k..k + |pat|];
    }
  }

  /** A tag in front of `y` stands before it, from inside it, or behind it; the first and the last
      are places in front of and behind `x` as well. */
  lemma TagPlaces(al: Alphabet, u: string, x: string, y: string, q: string, tag: string, k: nat)
    requires Alike(al, x, y) && TagShaped(al, tag)
    requires At(u + y + q, tag, k)
    ensures if k + |tag| <= |u| then At(u + x + q, tag, k)
            else |u| <= k && (if k < |u| + |y| then At(y + q, tag, k - |u|)
                              else At(u + x + q, tag, k - |y| + |x|))
  {
    hide At;
    var s := u + y + q;
    assert s[|u|] == y[0];
    TagMisses(s, tag, k, |u|);
    if k + |tag| <= |u| {
      AtPrefix(u, u + y + q, tag, k);
      AtPrefix(u, u + x + q, tag, k);
    } else if k < |u| + |y| {
      TagBehind(u, y, q, tag, k - |u|);
    } else {
      var i := k - |u| - |y|;
      AtBehind(u + y, q, tag, i);
      AtBehind(u + x, q, tag, i);
      assert |u + y| + i == k && |u + x| + i == k - |y| + |x|;
    }
  }

  lemma TagBehind(u: string, y: string, q: string, tag: string, k: nat)
    ensures At(u + y + q, tag, |u| + k) <==> At(y + q, tag, k)
  {
    hide At;
    assert u + y + q == u + (y + q);
    AtBehind(u, y + q, tag, k);
  }

  /** A tag in front of the swapped text is the same tag after the swap. */
  lemma SameTag(al: Alphabet, u: string, x: string, y: string, q: string)
    requires Alike(al, x, y) && u != []
    ensures TagLength(al, u + x + q) == TagLength(al, u + y + q)
    ensures TagLength(al, u + x + q).Some? ==>
              var m := TagLength(al, u + x + q).value;
              m <= |u| && (u + x + q)[..m] == (u + y + q)[..m] == u[..m]
  {
    TagInFront(al, u, x, q);
    TagInFront(al, u, y, q);
  }

  lemma TagInFront(al: Alphabet, u: string, x: string, q: string)
    requires x != [] && !al.Word(x[0]) && x[0] != '$' && u != []
    ensures TagLength(al, u + x + q) == TagLength(al, u)
    ensures TagLength(al, u).Some? ==> (u + x + q)[..TagLength(al, u).value] == u[..TagLength(al, u).value]
  {
    var s := u + x + q;
    assert s[..|u|] == u && s[|u|] == x[0];
    if TagLength(al, s).Some? {
      var m := TagLength(al, s).value;
      assert m <= |u|;
      TagKept(al, u, s, m);
    }
    if TagLength(al, u).Some? {
      TagKept(al, u, s, TagLength(al, u).value);
    }
  }

  /** An opener whose tag never stood again stays open exactly if the new text does not hold it. */
  lemma StaysOpenIff(al: Alphabet, u: string, x: string, y: string, q: string)
    requires Alike(al, x, y) && u != []
    requires OpensNothing(al, u + x + q)
    ensures match TagLength(al, u + x + q)
            case None => OpensNothing(al, u + y + q)
            case Some(m) =>
              OpensNothing(al, u + y + q) <==> !StandsFrom(y, q, (u + x + q)[..m])
  {
    hide At, TagLength;
    SameTag(al, u, x, y, q);
    var s, t := u + x + q, u + y + q;
    if TagLength(al, s).Some? {
      var m := TagLength(al, s).value;
      var tag := s[..m];
      TagIsShaped(al, s, m);
      assert forall k: nat :: m <= k ==> !At(s, tag, k);
      if k: nat :| m <= k && At(t, tag, k) {
        TagPlaces(al, u, x, y, q, tag, k);
      }
      if k: nat :| k < |y| && At(y + q, tag, k) {
        TagBehind(u, y, q, tag, k);
      }
    }
  }

  // ---------------------------------------------------------------------------
  // The constructs before the swap
  // ---------------------------------------------------------------------------

  /** A construct looks no further than the next character, dollar tags apart. */
  lemma FitsStill(al: Alphabet, seg: Seg, r1: string, r2: string)
    requires r1 != [] && r2 != [] && r1[0] == r2[0]
    requires Fits(al, seg, r1)
    requires seg == Plain('$') ==> OpensNothing(al, "$" + r2)
    ensures Fits(al, seg, r2)
  {
    hide OpensNothing, IsDollar;
    if seg.Blank? && IsString(seg.raw, r1) {
      var content, closed :| IsDelimited('\'', seg.raw, content, closed, r1);
      assert IsDelimited('\'', seg.raw, content, closed, r2);
    }
  }

  lemma TakenRaw(al: Alphabet, s: string)
    requires s != [] && HeadOf(al, s).Take?
    ensures HeadOf(al, s).seg.Raw() != [] && HeadOf(al, s).seg.Raw() <= s
  {
  }

  lemma AlikeOpens(al: Alphabet, x: string, y: string)
    requires Alike(al, x, y)
    ensures x != [] && y != [] && x[0] == y[0]
  {
  }

  /** A construct that ends before the swapped text is the same construct after the swap, unless it
      is a `$` whose tag the new text closes. */
  lemma HeadStill(al: Alphabet, u: string, x: string, y: string, q: string)
    requires Alike(al, x, y) && u != []
    requires HeadOf(al, u + x + q).Take? && |HeadOf(al, u + x + q).seg.Raw()| <= |u|
    requires HeadOf(al, u + x + q).seg == Plain('$') ==> OpensNothing(al, u + y + q)
    ensures HeadOf(al, u + y + q) == HeadOf(al, u + x + q)
  {
    hide HeadOf, Fits, OpensNothing, Alike;
    var s, t := u + x + q, u + y + q;
    var seg := HeadOf(al, s).seg;
    var raw := seg.Raw();
    var u' := u[|raw|..];
    TakenFits(al, s);
    TakenRaw(al, s);
    AlikeOpens(al, x, y);
    assert raw == u[..|raw|];
    assert s[|raw|..] == u' + x + q;
    assert t[|raw|..] == u' + y + q;
    assert t[..|raw|] == raw;
    assert (u' + x + q)[0] == (u' + y + q)[0];
    if seg == Plain('$') {
      assert t == "$" + (u' + y + q);
    }
    FitsStill(al, seg, s[|raw|..], t[|raw|..]);
    FitsIsTaken(al, t, seg);
  }

  lemma DollarHeadOpens(al: Alphabet, s: string)
    requires s != [] && HeadOf(al, s) == Take(Plain('$'))
    ensures StartsWith(s, '$') && OpensNothing(al, s)
  {
    hide HeadOf, OpensNothing, DollarLength;
    TakenRaw(al, s);
    DollarIsHead(al, s);
    DollarOpensNothing(al, s);
  }

  /** Once its tag closes in the swapped text, a `$` opens a literal that runs past it. */
  lemma SwallowsIfClosed(al: Alphabet, u: string, x: string, y: string, q: string)
    requires Alike(al, x, y) && StartsWith(u, '$')
    requires OpensNothing(al, u + x + q) && !OpensNothing(al, u + y + q)
    ensures HeadOf(al, u + y + q).Take? && HeadOf(al, u + y + q).seg.Blank?
    ensures |HeadOf(al, u + y + q).seg.Raw()| > |u|
  {
    hide HeadOf, At, TagLength, DollarLength;
    var s, t := u + x + q, u + y + q;
    SameTag(al, u, x, y, q);
    var m := TagLength(al, t).value;
    DollarOpensNothing(al, t);
    DollarIsHead(al, t);
    DollarLengthIs(al, t, m);
    var n := DollarLength(al, t).value;
    TagIsShaped(al, t, m);
    assert At(t, t[..m], n - m) by {
      assert m + (n - 2 * m) == n - m;
    }
    TagPlaces(al, u, x, y, q, t[..m], n - m);
  }

  lemma ReachesStep(al: Alphabet, u: string, x: string, q: string)
    requires u != [] && x != []
    ensures Reaches(al, u + x + q, |u|) <==>
            && HeadOf(al, u + x + q).Take? && |HeadOf(al, u + x + q).seg.Raw()| <= |u|
            && var u' := u[|HeadOf(al, u + x + q).seg.Raw()|..]; Reaches(al, u' + x + q, |u'|)
  {
    hide HeadOf;
    var s := u + x + q;
    if HeadOf(al, s).Take? && |HeadOf(al, s).seg.Raw()| <= |u| {
      assert s[|HeadOf(al, s).seg.Raw()|..] == u[|HeadOf(al, s).seg.Raw()|..] + x + q;
    }
  }

  /** The tag of a `$` read plainly in front of `x`. */
  ghost predicate OwnTag(al: Alphabet, s: string, tag: string) {
    s != [] && HeadOf(al, s) == Take(Plain('$')) && TagLength(al, s) == Some(|tag|) && tag <= s
  }

  lemma LeftOpenStep(al: Alphabet, u: string, x: string, q: string)
    requires u != [] && x != []
    requires HeadOf(al, u + x + q).Take? && |HeadOf(al, u + x + q).seg.Raw()| <= |u|
    ensures var u' := u[|HeadOf(al, u + x + q).seg.Raw()|..];
            forall tag ::
              LeftOpen(al, u + x + q, |u|, tag) <==>
              OwnTag(al, u + x + q, tag) || LeftOpen(al, u' + x + q, |u'|, tag)
  {
    hide HeadOf, TagLength;
    var s, seg := u + x + q, HeadOf(al, u + x + q).seg;
    assert s[|seg.Raw()|..] == u[|seg.Raw()|..] + x + q;
  }

  /** Of a `$` read plainly before the swap: it is read plainly after it, unless its tag stands in the
      new text. */
  lemma DollarStaysIff(al: Alphabet, u: string, x: string, y: string, q: string)
    requires Alike(al, x, y) && u != []
    requires HeadOf(al, u + x + q) == Take(Plain('$'))
    ensures if exists tag :: OwnTag(al, u + x + q, tag) && StandsFrom(y, q, tag)
            then HeadOf(al, u + y + q).Take? && HeadOf(al, u + y + q).seg.Blank?
                 && |HeadOf(al, u + y + q).seg.Raw()| > |u|
            else HeadOf(al, u + y + q) == Take(Plain('$'))
  {
    hide HeadOf, Alike, OpensNothing, StandsFrom, TagLength;
    var s, t := u + x + q, u + y + q;
    DollarHeadOpens(al, s);
    StaysOpenIff(al, u, x, y, q);
    if OpensNothing(al, t) {
      HeadStill(al, u, x, y, q);
    } else {
      assert OwnTag(al, s, s[..TagLength(al, s).value]);
      SwallowsIfClosed(al, u, x, y, q);
    }
    forall tag | OwnTag(al, s, tag)
      ensures TagLength(al, s).Some? && tag == s[..TagLength(al, s).value]
    {
    }
  }

  /** Whether the lexer still reaches the swapped text is decided by the tags left open before it. */
  lemma {:induction false} ReachesIff(al: Alphabet, u: string, x: string, y: string, q: string)
    requires Alike(al, x, y)
    requires Reaches(al, u + x + q, |u|)
    ensures Reaches(al, u + y + q, |u|) <==>
            forall tag :: LeftOpen(al, u + x + q, |u|, tag) ==> !StandsFrom(y, q, tag)
    decreases |u|
  {
    hide HeadOf, Alike, StandsFrom, Reaches, LeftOpen, OwnTag;
    var s := u + x + q;
    if u == [] {
      NothingBefore(al, x, y, q);
      return;
    }
    AlikeOpens(al, x, y);
    ReachesStep(al, u, x, q);
    ReachesStep(al, u, y, q);
    LeftOpenStep(al, u, x, q);
    TakenRaw(al, s);
    OwnIsDollar(al, s);
    ReachesIff(al, u[|HeadOf(al, s).seg.Raw()|..], x, y, q);
    if HeadOf(al, s).seg == Plain('$') {
      DollarStaysIff(al, u, x, y, q);
    } else {
      HeadStill(al, u, x, y, q);
    }
  }

  lemma NothingBefore(al: Alphabet, x: string, y: string, q: string)
    ensures Reaches(al, [] + x + q, 0) && Reaches(al, [] + y + q, 0)
    ensures forall tag :: !LeftOpen(al, [] + x + q, 0, tag)
  {
  }

  lemma OwnIsDollar(al: Alphabet, s: string)
    requires s != []
    ensures (exists tag :: OwnTag(al, s, tag)) ==> HeadOf(al, s) == Take(Plain('$'))
  {
  }

  // ---------------------------------------------------------------------------
  // The copy after the swap
  // ---------------------------------------------------------------------------

  lemma EmitStill(al: Alphabet, acc: Out, seg: Seg, u: string, x: string, y: string, q: string)
    requires x != [] && y != [] && x[0] == y[0]
    ensures Emit(al, acc, seg, u + x + q) == Emit(al, acc, seg, u + y + q)
  {
    assert (u + x + q)[0] == (u + y + q)[0];
  }

  lemma BlankScans(al: Alphabet, acc: Out, x: string, q: string)
    requires x != [] && Fits(al, Blank(x), q)
    ensures Scan(al, acc, x + q) == Scan(al, Out(acc.text + " ", acc.spans), q)
  {
    hide HeadOf, Fits;
    var s := x + q;
    assert s[|x|..] == q;
    FitsIsTaken(al, s, Blank(x));
  }

  lemma ScanTakes(al: Alphabet, acc: Out, s: string)
    requires s != [] && HeadOf(al, s).Take?
    ensures var seg := HeadOf(al, s).seg;
            var rest := s[|seg.Raw()|..];
            Scan(al, acc, s) == Scan(al, Emit(al, acc, seg, rest), rest)
  {
    hide HeadOf, Emit;
  }

  /** The two constructs at the front of both texts, wherever each ends, when the lexer reaches the
      swapped text from both sides. */
  lemma HeadsAgree(al: Alphabet, u: string, x: string, y: string, q: string)
    requires Alike(al, x, y) && u != []
    requires Reaches(al, u + x + q, |u|) && Reaches(al, u + y + q, |u|)
    ensures HeadOf(al, u + y + q) == HeadOf(al, u + x + q)
  {
    hide HeadOf, Alike, OwnTag, StandsFrom, Reaches;
    AlikeOpens(al, x, y);
    ReachesStep(al, u, x, q);
    ReachesStep(al, u, y, q);
    if HeadOf(al, u + x + q).seg == Plain('$') {
      DollarStaysIff(al, u, x, y, q);
    } else {
      HeadStill(al, u, x, y, q);
    }
  }

  /** Past a construct both texts share, the scans go on from one output. */
  lemma ScanBoth(al: Alphabet, acc: Out, u: string, x: string, y: string, q: string)
    requires x != [] && y != [] && x[0] == y[0] && u != []
    requires HeadOf(al, u + x + q).Take? && |HeadOf(al, u + x + q).seg.Raw()| <= |u|
    requires HeadOf(al, u + y + q) == HeadOf(al, u + x + q)
    ensures var seg := HeadOf(al, u + x + q).seg;
            var u' := u[|seg.Raw()|..];
            var next := Emit(al, acc, seg, u' + x + q);
            && Scan(al, acc, u + x + q) == Scan(al, next, u' + x + q)
            && Scan(al, acc, u + y + q) == Scan(al, next, u' + y + q)
  {
    hide HeadOf, Emit, Scan;
    var s, t := u + x + q, u + y + q;
    var seg := HeadOf(al, s).seg;
    var u' := u[|seg.Raw()|..];
    ScanTakes(al, acc, s);
    ScanTakes(al, acc, t);
    assert s[|seg.Raw()|..] == u' + x + q;
    assert t[|seg.Raw()|..] == u' + y + q;
    EmitStill(al, acc, seg, u', x, y, q);
  }

  lemma {:induction false} ScanStill(al: Alphabet, acc: Out, u: string, x: string, y: string, q: string)
    requires Alike(al, x, y)
    requires x != [] && y != [] && Fits(al, Blank(x), q) && Fits(al, Blank(y), q)
    requires Reaches(al, u + x + q, |u|) && Reaches(al, u + y + q, |u|)
    ensures Scan(al, acc, u + x + q) == Scan(al, acc, u + y + q)
    decreases |u|
  {
    hide Emit, Fits, Alike, HeadOf, Scan, Reaches;
    if u == [] {
      assert [] + x + q == x + q && [] + y + q == y + q;
      BlankScans(al, acc, x, q);
      BlankScans(al, acc, y, q);
      return;
    }
    AlikeOpens(al, x, y);
    ReachesStep(al, u, x, q);
    ReachesStep(al, u, y, q);
    HeadsAgree(al, u, x, y, q);
    TakenRaw(al, u + x + q);
    ScanBoth(al, acc, u, x, y, q);
    var seg := HeadOf(al, u + x + q).seg;
    var u' := u[|seg.Raw()|..];
    ScanStill(al, Emit(al, acc, seg, u' + x + q), u', x, y, q);
  }

  lemma {:induction false} ScanKeeps(al: Alphabet, acc: Out, s: string)
    ensures Scan(al, acc, s).Emitted? ==> acc.text <= Scan(al, acc, s).out.text
    decreases |s|
  {
    if s != [] && HeadOf(al, s).Take? {
      var seg := HeadOf(al, s).seg;
      var rest := s[|seg.Raw()|..];
      assert acc.text <= Emit(al, acc, seg, rest).text;
      hide Emit;
      ScanKeeps(al, Emit(al, acc, seg, rest), rest);
    }
  }

  /** Where a `$` read plainly on one side opens a literal on the other, the emitted texts part. */
  lemma DollarParts(al: Alphabet, acc: Out, s: string, t: string)
    requires s != [] && HeadOf(al, s) == Take(Plain('$'))
    requires t != [] && HeadOf(al, t).Take? && HeadOf(al, t).seg.Blank?
    requires Scan(al, acc, s).Emitted?
    ensures Scan(al, acc, s) != Scan(al, acc, t)
  {
    hide HeadOf, Scan;
    ScanTakes(al, acc, s);
    ScanTakes(al, acc, t);
    ScanKeeps(al, Out(acc.text + ['$'], acc.spans), s[1..]);
    ScanKeeps(al, Out(acc.text + " ", acc.spans), t[|HeadOf(al, t).seg.Raw()|..]);
    if Scan(al, acc, t).Emitted? {
      var a, b := Scan(al, acc, s).out.text, Scan(al, acc, t).out.text;
      assert a[|acc.text|] == '$' && b[|acc.text|] == ' ';
    }
  }

  lemma {:induction false} ScanParts(al: Alphabet, acc: Out, u: string, x: string, y: string, q: string)
    requires Alike(al, x, y)
    requires Reaches(al, u + x + q, |u|) && !Reaches(al, u + y + q, |u|)
    requires Scan(al, acc, u + x + q).Emitted?
    ensures Scan(al, acc, u + x + q) != Scan(al, acc, u + y + q)
    decreases |u|
  {
    hide Emit, Alike, HeadOf, Scan, Reaches, OwnTag, StandsFrom;
    if u == [] {
      NothingBefore(al, x, y, q);
      return;
    }
    var s, t := u + x + q, u + y + q;
    AlikeOpens(al, x, y);
    ReachesStep(al, u, x, q);
    ReachesStep(al, u, y, q);
    TakenRaw(al, s);
    if HeadOf(al, s).seg == Plain('$') {
      DollarStaysIff(al, u, x, y, q);
      if HeadOf(al, t) != HeadOf(al, s) {
        DollarParts(al, acc, s, t);
        return;
      }
    } else {
      HeadStill(al, u, x, y, q);
    }
    ScanBoth(al, acc, u, x, y, q);
    var u' := u[|HeadOf(al, s).seg.Raw()|..];
    ScanParts(al, Emit(al, acc, HeadOf(al, s).seg, u' + x + q), u', x, y, q);
  }

  /** No tag left open in front of the first body stands in the second. */
  ghost predicate TagsKeptOut(al: Alphabet, p: string, kind: Kind, b1: string, b2: string, q: string) {
    forall tag :: LeftOpen(al, p + Fill(kind, b1) + q, |p|, tag) ==> !Stands(b2, tag)
  }

  lemma {:induction false} LeftOpenShaped(al: Alphabet, s: string, n: nat, tag: string)
    requires n <= |s| && LeftOpen(al, s, n, tag)
    ensures TagShaped(al, tag)
    decreases |s|
  {
    hide HeadOf, TagShaped, TagLength;
    if TagLength(al, s) == Some(|tag|) && tag <= s {
      TagIsShaped(al, s, |tag|);
      assert s[..|tag|] == tag;
    } else {
      var raw := HeadOf(al, s).seg.Raw();
      LeftOpenShaped(al, s[|raw|..], n - |raw|, tag);
    }
  }

  /** **When a body matters.** Where the lexer meets a closed string literal or a comment, it meets
      the one with another well-formed body exactly when no tag left open before it stands in that
      body; and if the statement is readable, the text and spans emitted for the two agree exactly
      then. */
  lemma BodyMattersIff(al: Alphabet, p: string, kind: Kind, b1: string, b2: string, q: string)
    requires WellFormed(kind, b1, q) && WellFormed(kind, b2, q)
    requires Reaches(al, p + Fill(kind, b1) + q, |p|)
    ensures var s1, s2 := p + Fill(kind, b1) + q, p + Fill(kind, b2) + q;
            && (Reaches(al, s2, |p|) <==> TagsKeptOut(al, p, kind, b1, b2, q))
            && (Scan(al, NOTHING, s1).Emitted? ==>
                  (Scan(al, NOTHING, s1) == Scan(al, NOTHING, s2) <==> TagsKeptOut(al, p, kind, b1, b2, q)))
  {
    hide LeftOpen, Stands, StandsFrom, Scan, Fits, WellFormed, Alike, TagShaped, Fill, Reaches;
    var x, y := Fill(kind, b1), Fill(kind, b2);
    FillAlike(al, kind, b1, b2);
    AlikeOpens(al, x, y);
    ReachesIff(al, p, x, y, q);
    forall tag | LeftOpen(al, p + x + q, |p|, tag)
      ensures StandsFrom(y, q, tag) <==> Stands(b2, tag)
    {
      LeftOpenShaped(al, p + x + q, |p|, tag);
      StandsInBody(al, kind, b2, q, tag);
    }
    if Reaches(al, p + y + q, |p|) {
      FillFits(al, kind, b1, q);
      FillFits(al, kind, b2, q);
      ScanStill(al, NOTHING, p, x, y, q);
    } else if Scan(al, NOTHING, p + x + q).Emitted? {
      ScanParts(al, NOTHING, p, x, y, q);
    }
  }

  /** **Literal independence.** So swapping the body of a closed string literal or a comment for
      another well-formed one that no tag left open before it stands in leaves the analysis copy and
      its spans unchanged, and with them every ambiguity refusal. */
  lemma BodyIsIrrelevant(al: Alphabet, p: string, kind: Kind, b1: string, b2: string, q: string)
    requires WellFormed(kind, b1, q) && WellFormed(kind, b2, q)
    requires Reaches(al, p + Fill(kind, b1) + q, |p|)
    requires TagsKeptOut(al, p, kind, b1, b2, q)
    ensures Neutralize(al, p + Fill(kind, b1) + q) == Neutralize(al, p + Fill(kind, b2) + q)
  {
    hide Neutralize, Scan, Fits, WellFormed, Alike, Fill, TagsKeptOut;
    var x, y := Fill(kind, b1), Fill(kind, b2);
    FillFits(al, kind, b1, q);
    FillFits(al, kind, b2, q);
    FillAlike(al, kind, b1, b2);
    AlikeOpens(al, x, y);
    BodyMattersIff(al, p, kind, b1, b2, q);
    ScanStill(al, NOTHING, p, x, y, q);
    NeutralizeIsScan(al, p + x + q);
    NeutralizeIsScan(al, p + y + q);
  }

  lemma NotMissing(al: Alphabet, s: string, k: nat)
    requires k < |s| && !al.space(s[k])
    ensures !Missing(al, Some(s))
  {
    SqueezeStrip(al, s);
    SqueezeEmpty(al, s);
  }

  lemma FilledNotMissing(al: Alphabet, p: string, kind: Kind, b: string, q: string)
    ensures !Missing(al, Some(p + Fill(kind, b) + q))
  {
    var s := p + Fill(kind, b) + q;
    assert s[|p|] == Fill(kind, b)[0];
    assert '\'' in PUNCTUATION && '/' in PUNCTUATION && '-' in PUNCTUATION;
    NotMissing(al, s, |p|);
  }

  /** So no verdict and no fingerprint depends on it, for statements within the length cap. */
  lemma VerdictsIgnoreBodies(al: Alphabet, pol: Policy, p: string, kind: Kind, b1: string, b2: string, q: string)
    requires WellFormed(kind, b1, q) && WellFormed(kind, b2, q)
    requires Reaches(al, p + Fill(kind, b1) + q, |p|)
    requires TagsKeptOut(al, p, kind, b1, b2, q)
    ensures var s1, s2 := Some(p + Fill(kind, b1) + q), Some(p + Fill(kind, b2) + q);
            && Fingerprint(al, s1) == Fingerprint(al, s2)
            && CheckNoRecon(al, pol, s1) == CheckNoRecon(al, pol, s2)
            && (|s1.value| <= MAX_SQL_CHARS && |s2.value| <= MAX_SQL_CHARS ==>
                  CheckReadOnly(al, pol, s1) == CheckReadOnly(al, pol, s2))
  {
    BodyIsIrrelevant(al, p, kind, b1, b2, q);
    FilledNotMissing(al, p, kind, b1, q);
    FilledNotMissing(al, p, kind, b2, q);
    hide Neutralize, Missing, NiladicHit, Judge, Fill;
  }

  lemma NotDollarTag(al: Alphabet, s: string, m: nat)
    requires StartsWith(s, '$')
    requires TagLength(al, s).None? || (TagLength(al, s) == Some(m) && '$' !in s[m..])
    ensures HeadOf(al, s) == Take(Plain('$'))
  {
    hide HeadOf, TagLength, Find;
    DollarIsHead(al, s);
    if TagLength(al, s).Some? {
      NotFound(s[m..], s[..m]);
    }
  }

  lemma NotFound(s: string, pat: string)
    requires pat != [] && pat[0] !in s
    ensures Find(s, pat).None?
  {
    forall k: nat
      ensures !At(s, pat, k)
    {
      if k + |pat| <= |s| {
        assert s[k..k + |pat|][0] in s;
      }
    }
  }

  /** The condition on `$` is needed: a tag that only the body closes swallows the literal's start. */
  lemma DollarBodyMatters(al: Alphabet)
    requires al.Word('a')
    ensures var s1, s2 := "$a$ " + Fill(StringLiteral, "a"), "$a$ " + Fill(StringLiteral, "$a$");
            Reaches(al, s1, 4) && Neutralize(al, s1) != Neutralize(al, s2)
  {
    var s1, s2 := "$a$ " + Fill(StringLiteral, "a"), "$a$ " + Fill(StringLiteral, "$a$");
    Spelled();
    TagStaysOpen(al);
    TagSwallows(al);
  }

  lemma Spelled()
    ensures "$a$ " + Fill(StringLiteral, "a") == "$a$ 'a'"
    ensures "$a$ " + Fill(StringLiteral, "$a$") == "$a$ '$a$'"
  {
    assert "a"[1..] == "";
    assert Double('\'', "a") == "a";
    assert "$a$"[1..] == "a$" && "a$"[1..] == "$" && "$"[1..] == "";
    assert Double('\'', "$") == "$";
    assert Double('\'', "a$") == "a$";
    assert Double('\'', "$a$") == "$a$";
  }

  lemma OpenTagHeads(al: Alphabet)
    requires al.Word('a')
    ensures HeadOf(al, "$a$ 'a'") == Take(Plain('$'))
    ensures HeadOf(al, "a$ 'a'") == Take(Plain('a'))
    ensures HeadOf(al, "$ 'a'") == Take(Plain('$'))
    ensures HeadOf(al, " 'a'") == Take(Plain(' '))
  {
    var s := "$a$ 'a'";
    assert s[3..] == " 'a'";
    TagLengthIs(al, s, 3);
    NotDollarTag(al, s, 3);
    var t := "$ 'a'";
    assert t[1..] == " 'a'";
    RunLengthIs(al, t[1..], 0);
    NotDollarTag(al, t, 0);
  }

  lemma TagStaysOpen(al: Alphabet)
    requires al.Word('a')
    ensures var s := "$a$ 'a'";
            Reaches(al, s, 4) && Neutralize(al, s) != Done(Neutralized("", []))
  {
    hide HeadOf, Neutralize, Lex;
    var s := "$a$ 'a'";
    assert '$' in PUNCTUATION;
    OpenTagHeads(al);
    var s', s'', s3 := "a$ 'a'", "$ 'a'", " 'a'";
    assert s[1..] == s' && s'[1..] == s'' && s''[1..] == s3;
    assert Reaches(al, s3[1..], 0);
    assert Reaches(al, s3, 1);
    assert Reaches(al, s'', 2);
    assert Reaches(al, s', 3);
    NeutralizeIsScan(al, s);
    var acc := Emit(al, NOTHING, Plain('$'), s');
    assert acc.text == "$";
    ScanKeeps(al, acc, s');
    assert Scan(al, NOTHING, s) == Scan(al, acc, s');
    if Scan(al, acc, s').Emitted? {
      var text := Scan(al, acc, s').out.text;
      assert !al.space(text[0]);
      SqueezeStrip(al, text);
      SqueezeEmpty(al, text);
    }
  }

  lemma TagSwallows(al: Alphabet)
    requires al.Word('a')
    ensures Neutralize(al, "$a$ '$a$'") == Done(Neutralized("", []))
  {
    hide HeadOf, Find, DollarLength, Neutralize, Strip;
    var s := "$a$ '$a$'";
    TagClosesInBody(al);
    QuoteLeft(al);
    NeutralizeIsScan(al, s);
    assert s[8..] == "'";
    var acc := Out(" ", []);
    assert Scan(al, NOTHING, s) == Scan(al, acc, "'");
    assert Scan(al, acc, "'") == Emitted(Out("  ", []));
    BlankStrips(al);
  }

  lemma BlankStrips(al: Alphabet)
    ensures Strip(al, "  ") == ""
  {
    SqueezeStrip(al, "  ");
    SqueezeBlank(al, "  ");
    StripStrips(al, "  ");
    SqueezeEmpty(al, Strip(al, "  "));
  }

  lemma BodyHoldsTag()
    ensures Find(" '$a$'", "$a$") == Some(2)
  {
    var rest := " '$a$'";
    assert At(rest, "$a$", 2) by {
      assert rest[2..5] == "$a$";
    }
    assert !At(rest, "$a$", 0) by {
      assert rest[0..3][0] == ' ';
    }
    assert !At(rest, "$a$", 1) by {
      assert rest[1..4][0] == '\'';
    }
    FindIsFirst(rest, "$a$", 2);
  }

  lemma TagClosesInBody(al: Alphabet)
    requires al.Word('a')
    ensures HeadOf(al, "$a$ '$a$'") == Take(Blank("$a$ '$a$"))
  {
    hide HeadOf, TagLength, Find, At;
    var s := "$a$ '$a$'";
    DollarIsHead(al, s);
    TagLengthIs(al, s, 3);
    BodyHoldsTag();
    assert s[3..] == " '$a$'" && s[..3] == "$a$";
    assert s[..8] == "$a$ '$a$";
  }

  lemma QuoteLeft(al: Alphabet)
    ensures HeadOf(al, "'") == Take(Blank("'"))
  {
    var quote := "'";
    assert quote[1..] == "";
    assert quote[..1] == quote;
  }
}
