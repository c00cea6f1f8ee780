/** The analysis copy, told construct by construct: what is kept, and exactly where a separator stands. */
module SqlCopies {
  import opened Common
  import opened SqlText
  import opened SqlLexer
  import opened SqlGrammar
  import opened Neutralizer
  import opened SqlVerdicts

  /** A word character of the statement's own text. */
  predicate WordChar(al: Alphabet, seg: Seg) { seg.Plain? && al.Word(seg.c) }

  function Gap(b: bool): string { if b then " " else "" }

  /** An identifier has a word character right in front of its opening quote. */
  predicate Led(al: Alphabet, segs: seq<Seg>, k: nat)
    requires k < |segs|
  {
    k > 0 && WordChar(al, segs[k - 1])
  }

  /** It has one right behind its closing quote. */
  predicate Trailed(al: Alphabet, segs: seq<Seg>, k: nat)
    requires k < |segs|
  {
    k + 1 < |segs| && WordChar(al, segs[k + 1])
  }

  /** What the k-th construct shows. */
  function ShownAt(al: Alphabet, segs: seq<Seg>, k: nat): string
    requires k < |segs|
  {
    match segs[k]
    case Plain(c) => [c]
    case Blank(_) => " "
    case Name(_, content, _) => Gap(Led(al, segs, k)) + content + Gap(Trailed(al, segs, k))
  }

  function Shown(al: Alphabet, segs: seq<Seg>, upto: nat): string
    requires upto <= |segs|
  {
    if upto == 0 then "" else Shown(al, segs, upto - 1) + ShownAt(al, segs, upto - 1)
  }

  /** Where the content of the k-th construct stands. */
  function ContentSpan(al: Alphabet, segs: seq<Seg>, k: nat): Span
    requires k < |segs| && segs[k].Name?
  {
    var at := |Shown(al, segs, k)| + |Gap(Led(al, segs, k))|;
    (at, at + |segs[k].content|)
  }

  function ClosedSpans(al: Alphabet, segs: seq<Seg>, upto: nat): seq<Span>
    requires upto <= |segs|
  {
    if upto == 0 then []
    else
      var seg := segs[upto - 1];
      ClosedSpans(al, segs, upto - 1)
      + (if seg.Name? && seg.closed then [ContentSpan(al, segs, upto - 1)] else [])
  }

  // ---------------------------------------------------------------------------
  // What stands next to an identifier

  lemma ParsesTail(al: Alphabet, segs: seq<Seg>, s: string)
    requires segs != [] && Parses(al, segs, s)
    ensures segs[0].Raw() <= s && Fits(al, segs[0], s[|segs[0].Raw()|..])
    ensures Parses(al, segs[1..], s[|segs[0].Raw()|..])
  {
    hide Fits;
  }

  lemma {:induction false} FitsAt(al: Alphabet, segs: seq<Seg>, sql: string, k: nat)
    requires Parses(al, segs, sql) && k < |segs|
    ensures Fits(al, segs[k], RawAll(segs[k + 1..]))
    decreases |segs|
  {
    hide Fits, Parses, RawAll;
    ParsesTail(al, segs, sql);
    var rest := sql[|segs[0].Raw()|..];
    if k == 0 {
      RawOf(al, segs[1..], rest);
    } else {
      FitsAt(al, segs[1..], rest, k - 1);
      assert segs[1..][k..] == segs[k + 1..];
    }
  }

  lemma {:induction false} RawOf(al: Alphabet, segs: seq<Seg>, s: string)
    requires Parses(al, segs, s)
    ensures RawAll(segs) == s
    decreases |segs|
  {
    hide Fits;
    if segs != [] {
      RawOf(al, segs[1..], s[|segs[0].Raw()|..]);
    }
  }

  /** The first character of a construct. */
  lemma FirstChar(al: Alphabet, seg: Seg, rest: string)
    requires Fits(al, seg, rest) && seg.Raw() != []
    ensures StartsWord(al, seg.Raw()) <==> WordChar(al, seg)
    ensures seg.Name? ==> StartsWith(seg.Raw(), '"')
  {
    if seg.Blank? {
      if IsString(seg.raw, rest) {
        var content, closed :| IsDelimited('\'', seg.raw, content, closed, rest);
        assert seg.raw[0] == '\'';
      }
      assert seg.raw[0] in PUNCTUATION;
    } else if seg.Name? {
      assert seg.raw[0] == '"' && '"' in PUNCTUATION;
    }
  }

  lemma NextStands(al: Alphabet, segs: seq<Seg>, sql: string, k: nat)
    requires ReadsAs(al, sql, segs) && k < |segs|
    ensures StartsWord(al, RawAll(segs[k + 1..])) <==> Trailed(al, segs, k)
    ensures StartsWith(RawAll(segs[k + 1..]), '"') <== k + 1 < |segs| && segs[k + 1].Name?
  {
    if k + 1 < |segs| {
      FitsAt(al, segs, sql, k + 1);
      FirstChar(al, segs[k + 1], RawAll(segs[k + 2..]));
      assert segs[k + 1..][0] == segs[k + 1] && segs[k + 1..][1..] == segs[k + 2..];
    } else {
      assert segs[k + 1..] == [];
    }
  }

  /** No identifier stands right behind another: the quotes would be an escape. */
  lemma NamesApart(al: Alphabet, segs: seq<Seg>, sql: string, k: nat)
    requires ReadsAs(al, sql, segs) && k + 1 < |segs| && segs[k + 1].Name?
    ensures !segs[k].Name?
  {
    FitsAt(al, segs, sql, k);
    NextStands(al, segs, sql, k);
  }

  lemma EndsWithOne(al: Alphabet, before: string, c: char)
    ensures EndsWord(al, before + [c]) <==> al.Word(c)
  {
  }

  lemma LastShown(al: Alphabet, segs: seq<Seg>, sql: string, k: nat)
    requires ReadsAs(al, sql, segs) && k < |segs| && segs[k].Name?
    ensures EndsWord(al, Shown(al, segs, k)) <==> Led(al, segs, k)
  {
    hide ReadsAs, EndsWord;
    if k == 0 {
      NothingEnds(al, segs);
    } else {
      NamesApart(al, segs, sql, k - 1);
      var before := Shown(al, segs, k - 1);
      match segs[k - 1]
      case Plain(c) => EndsWithOne(al, before, c);
      case Blank(_) => EndsWithOne(al, before, ' ');
      case Name(_, _, _) =>
    }
  }

  lemma NothingEnds(al: Alphabet, segs: seq<Seg>)
    ensures !EndsWord(al, Shown(al, segs, 0))
  {
  }

  // ---------------------------------------------------------------------------
  // The copy

  lemma EmitOne(al: Alphabet, before: string, spans: seq<Span>, seg: Seg, next: string)
    requires !seg.Name?
    ensures Emit(al, Out(before, spans), seg, next) == Out(before + (if seg.Plain? then [seg.c] else " "), spans)
  {
  }

  lemma EmitName(al: Alphabet, before: string, spans: seq<Span>, seg: Seg, next: string, led: bool, trailed: bool)
    requires seg.Name? && (EndsWord(al, before) <==> led) && (StartsWord(al, next) <==> trailed)
    ensures var at := |before| + |Gap(led)|;
            Emit(al, Out(before, spans), seg, next) ==
            Out(before + (Gap(led) + seg.content + Gap(trailed)),
                if seg.closed then spans + [(at, at + |seg.content|)] else spans)
  {
    assert before + (Gap(led) + seg.content + Gap(trailed)) == before + Gap(led) + seg.content + Gap(trailed);
    assert before + "" == before && before + Gap(led) + seg.content + "" == before + Gap(led) + seg.content;
  }

  lemma ShownStep(al: Alphabet, segs: seq<Seg>, k: nat)
    requires k < |segs|
    ensures Shown(al, segs, k + 1) == Shown(al, segs, k) + ShownAt(al, segs, k)
    ensures ClosedSpans(al, segs, k + 1) ==
            if segs[k].Name? && segs[k].closed then ClosedSpans(al, segs, k) + [ContentSpan(al, segs, k)]
            else ClosedSpans(al, segs, k)
  {
    hide ShownAt, ContentSpan;
  }

  lemma EmitShows(al: Alphabet, segs: seq<Seg>, sql: string, k: nat)
    requires ReadsAs(al, sql, segs) && k < |segs|
    ensures Emit(al, Out(Shown(al, segs, k), ClosedSpans(al, segs, k)), segs[k], RawAll(segs[k + 1..])) ==
            Out(Shown(al, segs, k + 1), ClosedSpans(al, segs, k + 1))
  {
    hide ReadsAs, RawAll, Trailed, Led, Shown, ClosedSpans, EndsWord, StartsWord, Emit;
    ShownStep(al, segs, k);
    if !segs[k].Name? {
      EmitOne(al, Shown(al, segs, k), ClosedSpans(al, segs, k), segs[k], RawAll(segs[k + 1..]));
    } else {
      NextStands(al, segs, sql, k);
      LastShown(al, segs, sql, k);
      EmitName(al, Shown(al, segs, k), ClosedSpans(al, segs, k), segs[k], RawAll(segs[k + 1..]),
               Led(al, segs, k), Trailed(al, segs, k));
    }
  }

  lemma {:induction false} RenderShows(al: Alphabet, segs: seq<Seg>, sql: string, k: nat)
    requires ReadsAs(al, sql, segs) && k <= |segs|
    ensures Render(al, Out(Shown(al, segs, k), ClosedSpans(al, segs, k)), segs[k..]) ==
            Out(Shown(al, segs, |segs|), ClosedSpans(al, segs, |segs|))
    decreases |segs| - k
  {
    hide ReadsAs, Emit, Shown, ClosedSpans;
    if k < |segs| {
      EmitShows(al, segs, sql, k);
      RenderShows(al, segs, sql, k + 1);
      assert segs[k..][1..] == segs[k + 1..];
    }
  }

  /** `text` is `s` from `a` on without the whitespace around it. */
  ghost predicate StripsTo(al: Alphabet, s: string, a: nat, text: string) {
    && a + |text| <= |s| && text == s[a..a + |text|]
    && (forall k :: 0 <= k < |s| && !(a <= k < a + |text|) ==> al.space(s[k]))
    && (text != [] ==> !al.space(text[0]) && !al.space(text[|text| - 1]))
  }

  lemma StripIs(al: Alphabet, s: string)
    ensures StripsTo(al, s, Lead(al, s), Strip(al, s))
  {
    hide Lead, Tail;
    var a := Lead(al, s);
    var t := LStrip(al, s);
    var n := Tail(al, t);
    var text := t[..n];
    assert text == Strip(al, s) && |text| == n && a + n <= |s|;
    assert text == s[a..a + n];
    forall k | 0 <= k < |s| && !(a <= k < a + n) ensures al.space(s[k]) {
      if k >= a {
        assert s[k] == t[k - a];
      }
    }
    if text != [] {
      assert t[0] == s[a];
    }
  }

  lemma {:induction false} KeepIff(spans: seq<Span>, lead: nat, limit: nat, p: nat, q: nat)
    ensures (p, q) in Keep(spans, lead, limit) <==> p < q <= limit && (lead + p, lead + q) in spans
    decreases |spans|
  {
    if spans != [] {
      KeepIff(spans[1..], lead, limit, p, q);
      var first, rest := spans[0], Keep(spans[1..], lead, limit);
      assert (lead + p, lead + q) in spans <==> (lead + p, lead + q) == first || (lead + p, lead + q) in spans[1..];
      if lead <= first.0 < first.1 <= lead + limit {
        var kept: Span := (first.0 - lead, first.1 - lead);
        assert Keep(spans, lead, limit) == [kept] + rest;
        assert (p, q) in [kept] + rest <==> (p, q) == kept || (p, q) in rest;
      } else {
        assert Keep(spans, lead, limit) == rest;
      }
    }
  }

  lemma NothingShown(al: Alphabet, segs: seq<Seg>)
    ensures Out(Shown(al, segs, 0), ClosedSpans(al, segs, 0)) == NOTHING && segs[0..] == segs
  {
  }

  /** **The copy, exactly**: each character of the statement's own text as it is, one space for each comment and
      each literal, and each identifier without its quotes, with a space for a quote exactly where that
      quote stood next to a word character of the statement's own text; all of it without the whitespace
      around it. The spans are those of the closed identifiers' contents that are not empty and that the strip
      left whole. */
  lemma CopyIs(al: Alphabet, sql: string, segs: seq<Seg>) returns (lead: nat)
    requires ReadsAs(al, sql, segs)
    ensures Neutralize(al, sql).Done?
    ensures var v := Neutralize(al, sql).value;
            && StripsTo(al, Shown(al, segs, |segs|), lead, v.text)
            && forall p: nat, q: nat ::
                 (p, q) in v.quoted <==>
                 p < q <= |v.text| && (lead + p, lead + q) in ClosedSpans(al, segs, |segs|)
  {
    hide ReadsAs, Render, Shown, ClosedSpans, Strip, StripsTo, Keep;
    ReadIff(al, sql, segs);
    RenderShows(al, segs, sql, 0);
    NothingShown(al, segs);
    var raw := Shown(al, segs, |segs|);
    lead := Lead(al, raw);
    StripIs(al, raw);
    assert Lex(al, sql) == Tokens(segs);
    assert Render(al, NOTHING, segs) == Out(raw, ClosedSpans(al, segs, |segs|));
    var v := Neutralize(al, sql).value;
    assert v == Finish(al, Out(raw, ClosedSpans(al, segs, |segs|)));
    forall p: nat, q: nat
      ensures (p, q) in v.quoted <==> p < q <= |v.text| && (lead + p, lead + q) in ClosedSpans(al, segs, |segs|)
    {
      KeepIff(ClosedSpans(al, segs, |segs|), lead, |v.text|, p, q);
    }
  }
}
