/** The recorded identifier spans: what they hold, which survive the strip, and why skipping them is
    neither an over-refusal nor an under-refusal. */
module SqlSpans {
  import opened SqlText
  import opened SqlLexer
  import opened SqlGrammar
  import opened Neutralizer
  import opened SqlWelding

  predicate Closes(seg: Seg) {
    seg.Name? && seg.closed
  }

  function NameOf(seg: Seg): seq<string> {
    if Closes(seg) then [seg.content] else []
  }

  function IndexOf(seg: Seg, k: nat): seq<nat> {
    if Closes(seg) then [k] else []
  }

  /** The contents of the identifiers whose closing quote was there, in order. */
  function ClosedNames(segs: seq<Seg>): seq<string> {
    if segs == [] then [] else NameOf(segs[0]) + ClosedNames(segs[1..])
  }

  /** Which constructs those are, the first construct being the k-th. */
  function ClosedIndices(segs: seq<Seg>, k: nat): seq<nat> {
    if segs == [] then [] else IndexOf(segs[0], k) + ClosedIndices(segs[1..], k + 1)
  }

  ghost predicate Ordered(spans: seq<Span>, limit: nat) {
    && (forall m :: 0 <= m < |spans| ==> spans[m].0 <= spans[m].1 <= limit)
    && (forall m, m' :: 0 <= m < m' < |spans| ==> spans[m].1 <= spans[m'].0)
  }

  /** The m-th span holds the m-th name. */
  ghost predicate Holds(out: Out, names: seq<string>) {
    && |out.spans| == |names|
    && Ordered(out.spans, |out.text|)
    && forall m :: 0 <= m < |names| ==> out.text[out.spans[m].0..out.spans[m].1] == names[m]
  }

  /** `Emit` appends; a closed identifier's span starts at the returned place. */
  lemma EmitExtends(al: Alphabet, acc: Out, seg: Seg, next: string) returns (s: nat)
    ensures acc.text <= Emit(al, acc, seg, next).text
    ensures !Closes(seg) ==> Emit(al, acc, seg, next).spans == acc.spans
    ensures Closes(seg) ==>
              var out := Emit(al, acc, seg, next);
              var e := s + |seg.content|;
              && |acc.text| <= s && e <= |out.text|
              && out.text[s..e] == seg.content
              && out.spans == acc.spans + [(s, e)]
  {
    s := if EndsWord(al, acc.text) then |acc.text| + 1 else |acc.text|;
    if Closes(seg) {
      var lead := if EndsWord(al, acc.text) then acc.text + " " else acc.text;
      var out := Emit(al, acc, seg, next);
      assert out.text[..s + |seg.content|] == lead + seg.content;
      assert out.text[s..s + |seg.content|] == (lead + seg.content)[s..];
    }
  }

  lemma EmitHolds(al: Alphabet, acc: Out, seg: Seg, next: string, names: seq<string>)
    requires Holds(acc, names)
    ensures Holds(Emit(al, acc, seg, next), names + NameOf(seg))
  {
    hide Emit;
    var out := Emit(al, acc, seg, next);
    var s := EmitExtends(al, acc, seg, next);
    if !Closes(seg) {
      assert names + NameOf(seg) == names;
    }
  }

  lemma {:induction false} RenderHolds(al: Alphabet, acc: Out, segs: seq<Seg>, names: seq<string>)
    requires Holds(acc, names)
    ensures Holds(Render(al, acc, segs), names + ClosedNames(segs))
    decreases |segs|
  {
    hide Emit, Holds, RawAll, Render, ClosedNames, NameOf;
    RenderStep(al, acc, segs);
    NamesStep(segs, names);
    if segs != [] {
      EmitHolds(al, acc, segs[0], RawAll(segs[1..]), names);
      RenderHolds(al, Emit(al, acc, segs[0], RawAll(segs[1..])), segs[1..], names + NameOf(segs[0]));
    }
  }

  lemma NamesStep(segs: seq<Seg>, names: seq<string>)
    ensures if segs == [] then names + ClosedNames(segs) == names
            else names + ClosedNames(segs) == names + NameOf(segs[0]) + ClosedNames(segs[1..])
  {
    hide NameOf;
  }

  lemma RenderStep(al: Alphabet, acc: Out, segs: seq<Seg>)
    ensures Render(al, acc, segs) ==
            if segs == [] then acc
            else Render(al, Emit(al, acc, segs[0], RawAll(segs[1..])), segs[1..])
  {
    hide Emit;
  }

  /** A span survives the strip when it holds something and lost nothing at either end. */
  predicate Survives(span: Span, lead: nat, limit: nat) {
    lead <= span.0 < span.1 <= lead + limit
  }

  lemma {:induction false} KeepIsFilter(spans: seq<Span>, lead: nat, limit: nat, q: Span)
    ensures q in Keep(spans, lead, limit) <==>
            (q.0 + lead, q.1 + lead) in spans && Survives((q.0 + lead, q.1 + lead), lead, limit)
    decreases |spans|
  {
    if spans != [] {
      KeepIsFilter(spans[1..], lead, limit, q);
      assert (q.0 + lead, q.1 + lead) in spans <==>
             spans[0] == (q.0 + lead, q.1 + lead) || (q.0 + lead, q.1 + lead) in spans[1..];
    }
  }

  lemma {:induction false} KeepOrdered(spans: seq<Span>, lead: nat, limit: nat, total: nat)
    requires Ordered(spans, total)
    ensures Ordered(Keep(spans, lead, limit), limit)
    ensures forall q :: q in Keep(spans, lead, limit) ==> q.0 < q.1
    decreases |spans|
  {
    if spans != [] {
      KeepOrdered(spans[1..], lead, limit, total);
      var rest := Keep(spans[1..], lead, limit);
      if Survives(spans[0], lead, limit) {
        forall m | 0 <= m < |rest|
          ensures spans[0].1 - lead <= rest[m].0
        {
          KeepIsFilter(spans[1..], lead, limit, rest[m]);
        }
      }
    }
  }

  lemma StripIsSlice(al: Alphabet, raw: string)
    ensures var lead, text := Lead(al, raw), Strip(al, raw);
            lead + |text| <= |raw| && text == raw[lead..lead + |text|]
  {
  }

  lemma StripSlice(raw: string, text: string, lead: nat, s: nat, e: nat)
    requires lead + |text| <= |raw| && text == raw[lead..lead + |text|]
    requires lead <= s <= e <= lead + |text|
    ensures text[s - lead..e - lead] == raw[s..e]
  {
    forall k | 0 <= k < e - s
      ensures text[s - lead..e - lead][k] == raw[s..e][k]
    {
      assert text[s - lead + k] == raw[s + k];
    }
  }

  lemma KeptHolds(out: Out, names: seq<string>, text: string, lead: nat, q: Span)
    requires Holds(out, names)
    requires lead + |text| <= |out.text| && text == out.text[lead..lead + |text|]
    requires q in Keep(out.spans, lead, |text|)
    ensures q.0 < q.1 <= |text| && text[q.0..q.1] in names
  {
    KeepIsFilter(out.spans, lead, |text|, q);
    var m :| 0 <= m < |out.spans| && out.spans[m] == (q.0 + lead, q.1 + lead);
    StripSlice(out.text, text, lead, q.0 + lead, q.1 + lead);
    assert text[q.0..q.1] == names[m];
  }

  lemma NeutralizeTokens(al: Alphabet, sql: string, segs: seq<Seg>)
    requires Lex(al, sql) == Tokens(segs)
    ensures Neutralize(al, sql) == Done(Finish(al, Render(al, NOTHING, segs)))
  {
  }

  lemma FinishSpans(al: Alphabet, out: Out, names: seq<string>)
    requires Holds(out, names)
    ensures var v := Finish(al, out);
            && Ordered(v.quoted, |v.text|)
            && (forall q :: q in v.quoted ==> q.0 < q.1 <= |v.text| && v.text[q.0..q.1] in names)
  {
    var v := Finish(al, out);
    KeepOrdered(out.spans, Lead(al, out.text), |v.text|, |out.text|);
    StripIsSlice(al, out.text);
    hide Strip, Keep, Holds, Ordered, Lead;
    forall q | q in v.quoted
      ensures q.0 < q.1 <= |v.text| && v.text[q.0..q.1] in names
    {
      KeptHolds(out, names, v.text, Lead(al, out.text), q);
    }
  }

  lemma StatementHolds(al: Alphabet, segs: seq<Seg>)
    ensures Holds(Render(al, NOTHING, segs), ClosedNames(segs))
  {
    RenderHolds(al, NOTHING, segs, []);
    assert [] + ClosedNames(segs) == ClosedNames(segs);
  }

  /** **What a reported span means**: the spans are in range, in order, disjoint and not empty, and
      each names, in the stripped text, the unescaped content of a closed identifier. */
  lemma QuotedSpans(al: Alphabet, sql: string, segs: seq<Seg>)
    requires Lex(al, sql) == Tokens(segs)
    ensures Neutralize(al, sql).Done?
    ensures var v := Neutralize(al, sql).value;
            && Ordered(v.quoted, |v.text|)
            && (forall q :: q in v.quoted ==>
                  q.0 < q.1 <= |v.text| && v.text[q.0..q.1] in ClosedNames(segs))
  {
    StatementHolds(al, segs);
    FinishSpans(al, Render(al, NOTHING, segs), ClosedNames(segs));
  }

  /** In the frame before the strip, `q` is a span that holds something the strip left whole. */
  ghost predicate SurvivesStrip(al: Alphabet, out: Out, q: Span) {
    var lead := Lead(al, out.text);
    var raw := (q.0 + lead, q.1 + lead);
    raw in out.spans && Survives(raw, lead, |Strip(al, out.text)|)
  }

  /** **Which identifiers are reported**: in the frame before the strip, the m-th span holds the m-th
      closed identifier; it is reported exactly when it holds something and the strip left it whole. */
  lemma QuotedSpansComplete(al: Alphabet, sql: string, segs: seq<Seg>, q: Span)
    requires Lex(al, sql) == Tokens(segs)
    ensures Neutralize(al, sql).Done?
    ensures Holds(Render(al, NOTHING, segs), ClosedNames(segs))
    ensures q in Neutralize(al, sql).value.quoted <==> SurvivesStrip(al, Render(al, NOTHING, segs), q)
  {
    hide *;
    StatementHolds(al, segs);
    NeutralizeTokens(al, sql, segs);
    FinishKeeps(al, Render(al, NOTHING, segs), q);
  }

  lemma FinishKeeps(al: Alphabet, out: Out, q: Span)
    ensures q in Finish(al, out).quoted <==> SurvivesStrip(al, out, q)
  {
    hide Strip, Lead, Keep;
    KeepIsFilter(out.spans, Lead(al, out.text), |Strip(al, out.text)|, q);
  }

  // ---------------------------------------------------------------------------
  // Spans and provenance agree
  // ---------------------------------------------------------------------------

  /** The m-th span covers exactly the characters of the m-th closed identifier. */
  ghost predicate Covers(cells: seq<Cell>, spans: seq<Span>, ks: seq<nat>) {
    && |spans| == |ks|
    && (forall m, p :: 0 <= m < |spans| && 0 <= p < |cells| ==>
          (spans[m].0 <= p < spans[m].1 <==> cells[p].place == Ident(ks[m], true)))
    && (forall p :: 0 <= p < |cells| && cells[p].place.Ident? && cells[p].place.closed ==>
          cells[p].place.k in ks)
  }

  /** The cells, spans and closed constructs of everything before the k-th construct. */
  ghost predicate Tracks(cells: seq<Cell>, spans: seq<Span>, ks: seq<nat>, k: nat) {
    && Covers(cells, spans, ks)
    && Ordered(spans, |cells|)
    && (forall p :: 0 <= p < |cells| && cells[p].place.Ident? ==> cells[p].place.k < k)
    && (forall m :: 0 <= m < |ks| ==> ks[m] < k)
  }

  lemma {:induction false} ContentPlaces(content: string, at: nat, place: Place)
    ensures var cells := ContentCells(content, at, place);
            |cells| == |content| && forall p :: 0 <= p < |cells| ==> cells[p].place == place
    decreases |content|
  {
    if content != [] {
      ContentPlaces(content[1..], if content[0] == '"' then at + 2 else at + 1, place);
    }
  }

  ghost predicate Unquoted(cells: seq<Cell>, k: nat) {
    forall p :: 0 <= p < |cells| && cells[p].place.Ident? ==> !cells[p].place.closed && cells[p].place.k == k
  }

  lemma TracksOther(cells: seq<Cell>, spans: seq<Span>, ks: seq<nat>, k: nat, more: seq<Cell>)
    requires Tracks(cells, spans, ks, k) && Unquoted(more, k)
    ensures Tracks(cells + more, spans, ks, k + 1)
  {
    var all := cells + more;
    forall p | 0 <= p < |all|
      ensures p < |cells| ==> all[p] == cells[p]
      ensures p >= |cells| ==> all[p] == more[p - |cells|]
    {
    }
  }

  lemma TracksSpace(cells: seq<Cell>, spans: seq<Span>, ks: seq<nat>, k: nat)
    requires Tracks(cells, spans, ks, k)
    ensures Tracks(cells + [SEPARATOR], spans, ks, k)
  {
    var all := cells + [SEPARATOR];
    forall p | 0 <= p < |all|
      ensures p < |cells| ==> all[p] == cells[p]
    {
    }
  }

  lemma TracksName(cells: seq<Cell>, spans: seq<Span>, ks: seq<nat>, k: nat, inner: seq<Cell>)
    requires Tracks(cells, spans, ks, k)
    requires forall p :: 0 <= p < |inner| ==> inner[p].place == Ident(k, true)
    ensures Tracks(cells + inner, spans + [(|cells|, |cells| + |inner|)], ks + [k], k + 1)
  {
    var all := cells + inner;
    var spans' := spans + [(|cells|, |cells| + |inner|)];
    var ks' := ks + [k];
    forall p | 0 <= p < |all|
      ensures p < |cells| ==> all[p] == cells[p]
      ensures p >= |cells| ==> all[p] == inner[p - |cells|]
    {
    }
    forall m, p | 0 <= m < |spans'| && 0 <= p < |all|
      ensures spans'[m].0 <= p < spans'[m].1 <==> all[p].place == Ident(ks'[m], true)
    {
      if m < |spans| && p >= |cells| {
        assert all[p].place == Ident(k, true) && ks[m] < k;
      }
    }
    forall p | 0 <= p < |all| && all[p].place.Ident? && all[p].place.closed
      ensures all[p].place.k in ks'
    {
      assert ks'[|ks|] == k;
    }
  }

  lemma EmitTracks(al: Alphabet, acc: Out, cells: seq<Cell>, ks: seq<nat>, seg: Seg, k: nat, at: nat, next: string)
    requires Chars(cells) == acc.text && Tracks(cells, acc.spans, ks, k)
    ensures Tracks(EmitCells(al, cells, seg, k, at, next), Emit(al, acc, seg, next).spans,
                   ks + IndexOf(seg, k), k + 1)
  {
    hide Tracks;
    assert !Closes(seg) ==> ks + IndexOf(seg, k) == ks;
    match seg
    case Plain(c) =>
      TracksOther(cells, acc.spans, ks, k, [Cell(c, Own, at)]);
    case Blank(_) =>
      TracksOther(cells, acc.spans, ks, k, [SEPARATOR]);
    case Name(_, content, closed) =>
      var inner := ContentCells(content, at + 1, Ident(k, closed));
      ContentPlaces(content, at + 1, Ident(k, closed));
      var lead := if EndsWord(al, acc.text) then cells + [SEPARATOR] else cells;
      TracksSpace(cells, acc.spans, ks, k);
      if closed {
        TracksName(lead, acc.spans, ks, k, inner);
        TracksSpace(lead + inner, acc.spans + [(|lead|, |lead| + |inner|)], ks + [k], k + 1);
      } else {
        TracksOther(lead, acc.spans, ks, k, inner);
        TracksSpace(lead + inner, acc.spans, ks, k + 1);
      }
  }

  lemma IndicesStep(segs: seq<Seg>, ks: seq<nat>, k: nat)
    ensures if segs == [] then ks + ClosedIndices(segs, k) == ks
            else ks + ClosedIndices(segs, k) == ks + IndexOf(segs[0], k) + ClosedIndices(segs[1..], k + 1)
  {
    hide IndexOf;
  }

  lemma {:induction false} RenderTracks(al: Alphabet, acc: Out, cells: seq<Cell>, ks: seq<nat>,
                                        segs: seq<Seg>, k: nat, at: nat)
    requires Chars(cells) == acc.text && Tracks(cells, acc.spans, ks, k)
    ensures Tracks(Cells(al, cells, segs, k, at), Render(al, acc, segs).spans,
                   ks + ClosedIndices(segs, k), k + |segs|)
    decreases |segs|
  {
    hide Tracks, Emit, EmitCells, Chars, Cells, Render, ClosedIndices, IndexOf, RawAll;
    RenderStep(al, acc, segs);
    IndicesStep(segs, ks, k);
    CellsStep(al, cells, segs, k, at);
    if segs != [] {
      var next := RawAll(segs[1..]);
      var acc' := Emit(al, acc, segs[0], next);
      var cells' := EmitCells(al, cells, segs[0], k, at, next);
      EmitChars(al, cells, acc.spans, segs[0], k, at, next);
      assert acc == Out(Chars(cells), acc.spans);
      EmitTracks(al, acc, cells, ks, segs[0], k, at, next);
      RenderTracks(al, acc', cells', ks + IndexOf(segs[0], k), segs[1..], k + 1, at + |segs[0].Raw()|);
    }
  }

  /** A run of word characters never leaves the construct it starts in. */
  lemma {:induction false} RunStaysInPlace(al: Alphabet, cells: seq<Cell>, a: nat, p: nat)
    requires Unwelded(al, cells)
    requires a <= p < |cells| && forall k :: a <= k <= p ==> al.Word(cells[k].c)
    ensures cells[p].place == cells[a].place
    decreases p - a
  {
    if a < p {
      RunStaysInPlace(al, cells, a, p - 1);
      assert Follows(cells[p - 1], cells[p]);
    }
  }

  // ---------------------------------------------------------------------------
  // The consumer of the spans
  // ---------------------------------------------------------------------------

  /** The word at `[a, b)` is one the niladic pattern matches: `(?<!\.)\b(…)\b`. */
  ghost predicate NiladicAt(al: Alphabet, niladic: string -> bool, text: string, a: nat, b: nat) {
    MaximalRun(al, text, a, b) && niladic(text[a..b]) && !(a > 0 && text[a - 1] == '.')
  }

  ghost predicate Skipped(quoted: seq<Span>, a: nat, b: nat) {
    exists q :: q in quoted && q.0 <= a && b <= q.1
  }

  /** `_recon_niladic_hit`: a niladic word outside every reported span. */
  ghost predicate NiladicHit(al: Alphabet, niladic: string -> bool, v: Neutralized) {
    exists a: nat, b: nat :: NiladicAt(al, niladic, v.text, a, b) && !Skipped(v.quoted, a, b)
  }

  /** The p-th emitted character came from a closed identifier, all of which the strip left. */
  ghost predicate WhollyQuoted(out: Out, cells: seq<Cell>, p: nat, lead: nat, limit: nat) {
    && p < |cells| && cells[p].place.Ident? && cells[p].place.closed
    && exists m :: 0 <= m < |out.spans| && out.spans[m].0 <= p < out.spans[m].1
                   && Survives(out.spans[m], lead, limit)
  }

  lemma RunInRaw(al: Alphabet, raw: string, cells: seq<Cell>, text: string, lead: nat, a: nat, b: nat)
    requires Chars(cells) == raw
    requires lead + |text| <= |raw| && text == raw[lead..lead + |text|]
    requires MaximalRun(al, text, a, b)
    ensures lead + b <= |cells|
    ensures forall p :: lead + a <= p < lead + b ==> al.Word(cells[p].c)
  {
    forall p | lead + a <= p < lead + b
      ensures al.Word(cells[p].c)
    {
      assert raw[p] == text[p - lead];
    }
  }

  lemma SkippedIsQuoted(out: Out, cells: seq<Cell>, ks: seq<nat>, limit: nat, lead: nat, a: nat, b: nat)
    requires Covers(cells, out.spans, ks)
    requires lead + b <= |cells| && a < b
    requires Skipped(Keep(out.spans, lead, limit), a, b)
    ensures WhollyQuoted(out, cells, lead + a, lead, limit)
  {
    var q :| q in Keep(out.spans, lead, limit) && q.0 <= a && b <= q.1;
    KeepIsFilter(out.spans, lead, limit, q);
    var m :| 0 <= m < |out.spans| && out.spans[m] == (q.0 + lead, q.1 + lead);
    assert cells[lead + a].place == Ident(ks[m], true);
  }

  lemma QuotedIsSkipped(al: Alphabet, out: Out, cells: seq<Cell>, ks: seq<nat>, limit: nat, lead: nat, a: nat, b: nat)
    requires Covers(cells, out.spans, ks) && Unwelded(al, cells)
    requires lead + b <= |cells| && a < b
    requires forall p :: lead + a <= p < lead + b ==> al.Word(cells[p].c)
    requires WhollyQuoted(out, cells, lead + a, lead, limit)
    ensures Skipped(Keep(out.spans, lead, limit), a, b)
  {
    var p := lead + a;
    var m :| 0 <= m < |out.spans| && out.spans[m].0 <= p < out.spans[m].1
             && Survives(out.spans[m], lead, limit);
    RunStaysInPlace(al, cells, p, lead + b - 1);
    hide Unwelded;
    assert cells[lead + b - 1].place == Ident(ks[m], true);
    var q := (out.spans[m].0 - lead, out.spans[m].1 - lead);
    KeepIsFilter(out.spans, lead, limit, q);
    assert q in Keep(out.spans, lead, limit);
  }

  lemma SkippedIffQuoted(al: Alphabet, out: Out, cells: seq<Cell>, ks: seq<nat>, text: string, lead: nat,
                         a: nat, b: nat)
    requires Chars(cells) == out.text && Unwelded(al, cells) && Covers(cells, out.spans, ks)
    requires lead + |text| <= |out.text| && text == out.text[lead..lead + |text|]
    requires MaximalRun(al, text, a, b)
    ensures Skipped(Keep(out.spans, lead, |text|), a, b) <==> WhollyQuoted(out, cells, lead + a, lead, |text|)
  {
    RunInRaw(al, out.text, cells, text, lead, a, b);
    hide Skipped, WhollyQuoted, Covers, Unwelded, Keep;
    if Skipped(Keep(out.spans, lead, |text|), a, b) {
      SkippedIsQuoted(out, cells, ks, |text|, lead, a, b);
    }
    if WhollyQuoted(out, cells, lead + a, lead, |text|) {
      QuotedIsSkipped(al, out, cells, ks, |text|, lead, a, b);
    }
  }

  /** The cells of a lexed statement, with everything known about them. */
  lemma StatementCells(al: Alphabet, sql: string, segs: seq<Seg>)
    requires Lex(al, sql) == Tokens(segs)
    ensures var cells := Cells(al, [], segs, 0, 0);
            var out := Render(al, NOTHING, segs);
            && Chars(cells) == out.text
            && Unwelded(al, cells)
            && Covers(cells, out.spans, ClosedIndices(segs, 0))
  {
    NoWelding(al, sql, segs);
    RenderTracks(al, NOTHING, [], [], segs, 0, 0);
    assert [] + ClosedIndices(segs, 0) == ClosedIndices(segs, 0);
  }

  /** A niladic word, not qualified by a dot, stands outside every closed identifier, or inside one
      the strip cut into. */
  ghost predicate NiladicOutside(al: Alphabet, niladic: string -> bool, out: Out, cells: seq<Cell>) {
    var v := Finish(al, out);
    var lead := Lead(al, out.text);
    exists a: nat, b: nat :: NiladicAt(al, niladic, v.text, a, b)
                             && !WhollyQuoted(out, cells, lead + a, lead, |v.text|)
  }

  lemma FinishNiladic(al: Alphabet, niladic: string -> bool, out: Out, cells: seq<Cell>, ks: seq<nat>)
    requires Chars(cells) == out.text && Unwelded(al, cells) && Covers(cells, out.spans, ks)
    ensures NiladicHit(al, niladic, Finish(al, out)) <==> NiladicOutside(al, niladic, out, cells)
  {
    var v := Finish(al, out);
    var lead := Lead(al, out.text);
    StripIsSlice(al, out.text);
    hide Strip, Keep, Covers, Unwelded, Chars, WhollyQuoted, Skipped, Lead;
    forall a: nat, b: nat | NiladicAt(al, niladic, v.text, a, b)
      ensures Skipped(v.quoted, a, b) <==> WhollyQuoted(out, cells, lead + a, lead, |v.text|)
    {
      SkippedIffQuoted(al, out, cells, ks, v.text, lead, a, b);
    }
  }

  /** **The niladic matcher is exact.** It fires exactly when some niladic word, not qualified by a
      dot, stands outside every closed identifier of the statement, or inside one the strip cut into. */
  lemma NiladicExact(al: Alphabet, niladic: string -> bool, sql: string, segs: seq<Seg>)
    requires Lex(al, sql) == Tokens(segs)
    ensures Neutralize(al, sql).Done?
    ensures NiladicHit(al, niladic, Neutralize(al, sql).value)
            <==> NiladicOutside(al, niladic, Render(al, NOTHING, segs), Cells(al, [], segs, 0, 0))
  {
    StatementCells(al, sql, segs);
    NeutralizeTokens(al, sql, segs);
    FinishNiladic(al, niladic, Render(al, NOTHING, segs), Cells(al, [], segs, 0, 0), ClosedIndices(segs, 0));
  }
}
