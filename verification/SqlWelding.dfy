/** What the analysis copy keeps: no two words are welded, no word or semicolon is lost or made up,
    and the recorded spans hold the closed identifiers. */
module SqlWelding {
  import opened SqlText
  import opened SqlLexer
  import opened SqlGrammar
  import opened Neutralizer

  // ---------------------------------------------------------------------------
  // Provenance: where each emitted character came from
  // ---------------------------------------------------------------------------

  /** The construct a character belongs to: the statement's own text, the identifier that is the
      k-th construct, or a separator the lexer supplied. */
  datatype Place = Own | Ident(k: nat, closed: bool) | Supplied

  datatype Cell = Cell(c: char, place: Place, origin: nat)

  const SEPARATOR := Cell(' ', Supplied, 0)

  function Chars(cells: seq<Cell>): string {
    seq(|cells|, k requires 0 <= k < |cells| => cells[k].c)
  }

  /** The unescaped content of an identifier whose content starts at input position `at`. */
  function ContentCells(content: string, at: nat, place: Place): seq<Cell> {
    if content == [] then []
    else [Cell(content[0], place, at)]
         + ContentCells(content[1..], if content[0] == '"' then at + 2 else at + 1, place)
  }

  /** `Emit`, character by character: the k-th construct, which starts at input position `at`. */
  function EmitCells(al: Alphabet, acc: seq<Cell>, seg: Seg, k: nat, at: nat, next: string): seq<Cell> {
    match seg
    case Plain(c) => acc + [Cell(c, Own, at)]
    case Blank(_) => acc + [SEPARATOR]
    case Name(_, content, closed) =>
      var lead := if EndsWord(al, Chars(acc)) then acc + [SEPARATOR] else acc;
      var named := lead + ContentCells(content, at + 1, Ident(k, closed));
      if StartsWord(al, next) then named + [SEPARATOR] else named
  }

  function Cells(al: Alphabet, acc: seq<Cell>, segs: seq<Seg>, k: nat, at: nat): seq<Cell>
    decreases |segs|
  {
    if segs == [] then acc
    else Cells(al, EmitCells(al, acc, segs[0], k, at, RawAll(segs[1..])), segs[1..], k + 1,
               at + |segs[0].Raw()|)
  }

  lemma CharsConcat(a: seq<Cell>, b: seq<Cell>)
    ensures Chars(a + b) == Chars(a) + Chars(b)
  {
  }

  lemma {:induction false} ContentChars(content: string, at: nat, place: Place)
    ensures Chars(ContentCells(content, at, place)) == content
    decreases |content|
  {
    if content != [] {
      var at' := if content[0] == '"' then at + 2 else at + 1;
      ContentChars(content[1..], at', place);
      CharsConcat([Cell(content[0], place, at)], ContentCells(content[1..], at', place));
    }
  }

  lemma EmitChars(al: Alphabet, acc: seq<Cell>, spans: seq<Span>, seg: Seg, k: nat, at: nat, next: string)
    ensures Chars(EmitCells(al, acc, seg, k, at, next)) == Emit(al, Out(Chars(acc), spans), seg, next).text
  {
    if seg.Name? {
      ContentChars(seg.content, at + 1, Ident(k, seg.closed));
      var inner := ContentCells(seg.content, at + 1, Ident(k, seg.closed));
      var lead := if EndsWord(al, Chars(acc)) then acc + [SEPARATOR] else acc;
      CharsConcat(acc, [SEPARATOR]);
      CharsConcat(lead, inner);
      CharsConcat(lead + inner, [SEPARATOR]);
    }
  }

  /** The cells spell the emitted text. */
  lemma {:induction false} CellsSpell(al: Alphabet, acc: seq<Cell>, spans: seq<Span>, segs: seq<Seg>, k: nat, at: nat)
    ensures Chars(Cells(al, acc, segs, k, at)) == Render(al, Out(Chars(acc), spans), segs).text
    decreases |segs|
  {
    if segs != [] {
      var next := RawAll(segs[1..]);
      EmitChars(al, acc, spans, segs[0], k, at, next);
      var out := Emit(al, Out(Chars(acc), spans), segs[0], next);
      CellsSpell(al, EmitCells(al, acc, segs[0], k, at, next), out.spans, segs[1..], k + 1,
                 at + |segs[0].Raw()|);
    }
  }

  /** `b` is the character right after `a` in the input, inside the same construct. */
  predicate Follows(a: Cell, b: Cell) {
    !b.place.Supplied? && a.place == b.place && b.origin == a.origin + 1
  }

  /** Adjacent word characters come from adjacent input positions of one construct. */
  ghost predicate Unwelded(al: Alphabet, cells: seq<Cell>) {
    forall p, q {:trigger cells[p], cells[q]} ::
      0 <= p && q == p + 1 && q < |cells| && al.Word(cells[p].c) && al.Word(cells[q].c) ==>
      Follows(cells[p], cells[q])
  }

  predicate EndsWordCell(al: Alphabet, cells: seq<Cell>) {
    cells != [] && al.Word(cells[|cells| - 1].c)
  }

  /** If the input goes on with a word character right after an emitted one, the emitted one is the
      input's previous character, from the statement's own text. */
  ghost predicate Seam(al: Alphabet, cells: seq<Cell>, at: nat, next: string) {
    EndsWordCell(al, cells) && StartsWord(al, next) ==>
      cells[|cells| - 1].place.Own? && cells[|cells| - 1].origin + 1 == at
  }

  lemma UnweldedConcat(al: Alphabet, a: seq<Cell>, b: seq<Cell>)
    requires Unwelded(al, a) && Unwelded(al, b)
    requires a != [] && b != [] && al.Word(a[|a| - 1].c) && al.Word(b[0].c) ==> Follows(a[|a| - 1], b[0])
    ensures Unwelded(al, a + b)
  {
    var cells := a + b;
    forall p, q {:trigger cells[p], cells[q]} |
        0 <= p && q == p + 1 && q < |cells| && al.Word(cells[p].c) && al.Word(cells[q].c)
      ensures Follows(cells[p], cells[q])
    {
      if p >= |a| {
        assert cells[p] == b[p - |a|] && cells[q] == b[q - |a|];
      } else if q < |a| {
        assert cells[p] == a[p] && cells[q] == a[q];
      }
    }
  }

  lemma UnweldedOne(al: Alphabet, cell: Cell)
    ensures Unwelded(al, [cell])
  {
  }

  lemma {:induction false} ContentUnwelded(al: Alphabet, content: string, at: nat, place: Place)
    requires !place.Supplied?
    ensures Unwelded(al, ContentCells(content, at, place))
    ensures content == [] <==> ContentCells(content, at, place) == []
    ensures content != [] ==> ContentCells(content, at, place)[0] == Cell(content[0], place, at)
    decreases |content|
  {
    if content != [] {
      var at' := if content[0] == '"' then at + 2 else at + 1;
      ContentUnwelded(al, content[1..], at', place);
      UnweldedOne(al, Cell(content[0], place, at));
      UnweldedConcat(al, [Cell(content[0], place, at)], ContentCells(content[1..], at', place));
    }
  }

  lemma EmitNameUnwelded(al: Alphabet, acc: seq<Cell>, content: string, at: nat, place: Place,
                         before: bool, after: bool)
    requires Unwelded(al, acc) && !place.Supplied?
    requires EndsWordCell(al, acc) ==> before
    ensures var lead := if before then acc + [SEPARATOR] else acc;
            var named := lead + ContentCells(content, at, place);
            && Unwelded(al, if after then named + [SEPARATOR] else named)
            && !EndsWordCell(al, lead)
  {
    UnweldedOne(al, SEPARATOR);
    UnweldedConcat(al, acc, [SEPARATOR]);
    var lead := if before then acc + [SEPARATOR] else acc;
    ContentUnwelded(al, content, at, place);
    var inner := ContentCells(content, at, place);
    UnweldedConcat(al, lead, inner);
    UnweldedConcat(al, lead + inner, [SEPARATOR]);
  }

  lemma EmitUnwelded(al: Alphabet, acc: seq<Cell>, seg: Seg, k: nat, at: nat, next: string)
    requires Unwelded(al, acc) && Seam(al, acc, at, seg.Raw() + next)
    ensures Unwelded(al, EmitCells(al, acc, seg, k, at, next))
    ensures Seam(al, EmitCells(al, acc, seg, k, at, next), at + |seg.Raw()|, next)
  {
    match seg
    case Plain(c) =>
      UnweldedOne(al, Cell(c, Own, at));
      UnweldedConcat(al, acc, [Cell(c, Own, at)]);
    case Blank(_) =>
      UnweldedOne(al, SEPARATOR);
      UnweldedConcat(al, acc, [SEPARATOR]);
    case Name(_, content, closed) =>
      EmitNameUnwelded(al, acc, content, at + 1, Ident(k, closed), EndsWord(al, Chars(acc)),
                       StartsWord(al, next));
  }

  lemma {:induction false} CellsUnwelded(al: Alphabet, acc: seq<Cell>, segs: seq<Seg>, k: nat, at: nat)
    requires Unwelded(al, acc) && Seam(al, acc, at, RawAll(segs))
    ensures Unwelded(al, Cells(al, acc, segs, k, at))
    decreases |segs|
  {
    if segs != [] {
      var next := RawAll(segs[1..]);
      var acc' := EmitCells(al, acc, segs[0], k, at, next);
      EmitUnwelded(al, acc, segs[0], k, at, next);
      CellsUnwelded(al, acc', segs[1..], k + 1, at + |segs[0].Raw()|);
    }
  }

  /** Every character the lexer did not supply is the input's character at its origin. */
  ghost predicate FromInput(cells: seq<Cell>, sql: string) {
    forall p :: 0 <= p < |cells| && !cells[p].place.Supplied? ==>
      cells[p].origin < |sql| && sql[cells[p].origin] == cells[p].c
  }

  lemma FromInputConcat(a: seq<Cell>, b: seq<Cell>, sql: string)
    requires FromInput(a, sql) && FromInput(b, sql)
    ensures FromInput(a + b, sql)
  {
    forall p | 0 <= p < |a + b|
      ensures (a + b)[p] == if p < |a| then a[p] else b[p - |a|]
    {
    }
  }

  lemma {:induction false} ContentFromInput(content: string, at: nat, place: Place, sql: string)
    requires at <= |sql| && Double('"', content) <= sql[at..]
    ensures FromInput(ContentCells(content, at, place), sql)
    decreases |content|
  {
    if content != [] {
      var width := if content[0] == '"' then 2 else 1;
      var tail := Double('"', content[1..]);
      assert Double('"', content) == Double('"', content)[..width] + tail;
      assert sql[at..][width..] == sql[at + width..];
      assert tail <= sql[at + width..] by {
        assert sql[at..][..width + |tail|] == Double('"', content);
        assert sql[at..][width..][..|tail|] == tail;
      }
      assert sql[at] == Double('"', content)[0];
      ContentFromInput(content[1..], at + width, place, sql);
      FromInputConcat([Cell(content[0], place, at)], ContentCells(content[1..], at + width, place), sql);
    }
  }

  /** Behind its opening quote an identifier has its content, escaped. */
  lemma NameBody(al: Alphabet, seg: Seg, rest: string, s: string)
    requires seg.Name? && Fits(al, seg, rest) && seg.Raw() <= s
    ensures s != [] && Double('"', seg.content) <= s[1..]
  {
    var raw, body := seg.raw, Double('"', seg.content);
    assert raw == if seg.closed then ['"'] + body + ['"'] else ['"'] + body;
    assert s[1..][..|body|] == raw[1..1 + |body|] == body;
  }

  lemma NameFromInput(al: Alphabet, acc: seq<Cell>, seg: Seg, k: nat, at: nat, next: string, sql: string)
    requires seg.Name? && at + 1 <= |sql| && Double('"', seg.content) <= sql[at + 1..] && FromInput(acc, sql)
    requires FromInput([SEPARATOR], sql)
    ensures FromInput(EmitCells(al, acc, seg, k, at, next), sql)
  {
    hide FromInput, Double, ContentCells, EndsWord, StartsWord, Chars;
    var inner := ContentCells(seg.content, at + 1, Ident(k, seg.closed));
    var lead := if EndsWord(al, Chars(acc)) then acc + [SEPARATOR] else acc;
    FromInputConcat(acc, [SEPARATOR], sql);
    ContentFromInput(seg.content, at + 1, Ident(k, seg.closed), sql);
    FromInputConcat(lead, inner, sql);
    FromInputConcat(lead + inner, [SEPARATOR], sql);
  }

  lemma EmitFromInput(al: Alphabet, acc: seq<Cell>, seg: Seg, k: nat, at: nat, next: string, sql: string)
    requires at + |seg.Raw()| <= |sql| && seg.Raw() <= sql[at..]
    requires Fits(al, seg, sql[at..][|seg.Raw()|..])
    requires FromInput(acc, sql)
    ensures FromInput(EmitCells(al, acc, seg, k, at, next), sql)
  {
    hide Fits, Double;
    if seg.Name? {
      NameBody(al, seg, sql[at..][|seg.Raw()|..], sql[at..]);
      assert sql[at..][1..] == sql[at + 1..];
      NameFromInput(al, acc, seg, k, at, next, sql);
    } else if seg.Plain? {
      assert sql[at] == seg.c;
      FromInputConcat(acc, [Cell(seg.c, Own, at)], sql);
    } else {
      FromInputConcat(acc, [SEPARATOR], sql);
    }
  }

  lemma CellsStep(al: Alphabet, acc: seq<Cell>, segs: seq<Seg>, k: nat, at: nat)
    ensures Cells(al, acc, segs, k, at) ==
            if segs == [] then acc
            else Cells(al, EmitCells(al, acc, segs[0], k, at, RawAll(segs[1..])), segs[1..], k + 1,
                       at + |segs[0].Raw()|)
  {
    hide EmitCells;
  }

  lemma ParsesStep(al: Alphabet, segs: seq<Seg>, at: nat, sql: string)
    requires segs != [] && at <= |sql| && Parses(al, segs, sql[at..])
    ensures at + |segs[0].Raw()| <= |sql| && segs[0].Raw() <= sql[at..]
    ensures Fits(al, segs[0], sql[at..][|segs[0].Raw()|..])
    ensures Parses(al, segs[1..], sql[at + |segs[0].Raw()|..])
  {
    hide Fits;
    assert sql[at..][|segs[0].Raw()|..] == sql[at + |segs[0].Raw()|..];
  }

  lemma {:induction false} CellsFromInput(al: Alphabet, acc: seq<Cell>, segs: seq<Seg>, k: nat, at: nat, sql: string)
    requires at <= |sql| && Parses(al, segs, sql[at..]) && FromInput(acc, sql)
    ensures FromInput(Cells(al, acc, segs, k, at), sql)
    decreases |segs|
  {
    hide EmitCells, Fits, FromInput, Parses, RawAll, Cells;
    CellsStep(al, acc, segs, k, at);
    if segs == [] {
      return;
    }
    ParsesStep(al, segs, at, sql);
    EmitFromInput(al, acc, segs[0], k, at, RawAll(segs[1..]), sql);
    CellsFromInput(al, EmitCells(al, acc, segs[0], k, at, RawAll(segs[1..])), segs[1..], k + 1,
                   at + |segs[0].Raw()|, sql);
  }

  /** **No welding.** Every character of the emitted text is the input's, unless the lexer supplied
      it as a separator; and every two adjacent word characters are adjacent in the input, inside one
      construct. The lexer never makes a word out of two. */
  lemma NoWelding(al: Alphabet, sql: string, segs: seq<Seg>)
    requires Lex(al, sql) == Tokens(segs)
    ensures var cells := Cells(al, [], segs, 0, 0);
            && Chars(cells) == Render(al, NOTHING, segs).text
            && FromInput(cells, sql)
            && Unwelded(al, cells)
  {
    CellsSpell(al, [], [], segs, 0, 0);
    CellsUnwelded(al, [], segs, 0, 0);
    assert Chars([]) == "";
    LexIffParses(al, sql, segs);
    assert sql[0..] == sql;
    CellsFromInput(al, [], segs, 0, 0, sql);
  }

  // ---------------------------------------------------------------------------
  // Nothing lost: the supplied separators are as good as separators everywhere
  // ---------------------------------------------------------------------------

  function Shown(seg: Seg): string {
    match seg
    case Plain(c) => [c]
    case Blank(_) => " "
    case Name(_, content, _) => " " + content + " "
  }

  /** What is visible of a statement, every construct boundary spelled out with a space. */
  function Visible(segs: seq<Seg>): string {
    if segs == [] then [] else Shown(segs[0]) + Visible(segs[1..])
  }

  /** A space at a seam that welds nothing changes no run. */
  lemma SpaceAtSeam(al: Alphabet, a: string, b: string)
    requires !(EndsWord(al, a) && StartsWord(al, b))
    ensures Runs(al, a + " " + b) == Runs(al, a + b)
  {
    RunsConcat(al, a, " ");
    RunsBlank(al, " ");
    RunsConcat(al, a + " ", b);
    RunsConcat(al, a, b);
  }

  lemma VisibleStart(al: Alphabet, segs: seq<Seg>)
    requires NonEmpty(segs) && !StartsWord(al, RawAll(segs))
    ensures !StartsWord(al, Visible(segs))
  {
    if segs != [] {
      assert RawAll(segs)[0] == segs[0].Raw()[0];
    }
  }

  lemma RightSeparator(al: Alphabet, text: string, next: string, rest: string)
    requires !StartsWord(al, next) ==> !StartsWord(al, rest)
    ensures var named := if StartsWord(al, next) then text + " " else text;
            Runs(al, named + rest) == Runs(al, text + (" " + rest))
  {
    if !StartsWord(al, next) {
      SpaceAtSeam(al, text, rest);
    }
    assert text + " " + rest == text + (" " + rest);
  }

  lemma LeftSeparator(al: Alphabet, acc: string, inner: string)
    ensures var lead := if EndsWord(al, acc) then acc + " " else acc;
            Runs(al, lead + inner) == Runs(al, acc + (" " + inner))
  {
    if !EndsWord(al, acc) {
      SpaceAtSeam(al, acc, inner);
    }
    assert acc + " " + inner == acc + (" " + inner);
  }

  lemma NameRuns(al: Alphabet, acc: string, content: string, next: string, rest: string)
    requires !StartsWord(al, next) ==> !StartsWord(al, rest)
    ensures var lead := if EndsWord(al, acc) then acc + " " else acc;
            var named := if StartsWord(al, next) then lead + content + " " else lead + content;
            Runs(al, named + rest) == Runs(al, acc + (" " + content + " " + rest))
  {
    var lead := if EndsWord(al, acc) then acc + " " else acc;
    RightSeparator(al, lead + content, next, rest);
    assert lead + content + (" " + rest) == lead + (content + " " + rest);
    LeftSeparator(al, acc, content + " " + rest);
    assert " " + (content + " " + rest) == " " + content + " " + rest;
  }

  lemma EmitRuns(al: Alphabet, acc: Out, seg: Seg, segs: seq<Seg>)
    requires NonEmpty(segs)
    ensures Runs(al, Emit(al, acc, seg, RawAll(segs)).text + Visible(segs))
         == Runs(al, acc.text + (Shown(seg) + Visible(segs)))
  {
    hide Runs, RawAll, Visible, NonEmpty;
    var rest := Visible(segs);
    match seg
    case Plain(c) => Regrouped(acc.text, [c], rest);
    case Blank(_) => Regrouped(acc.text, " ", rest);
    case Name(_, content, _) =>
      if !StartsWord(al, RawAll(segs)) {
        VisibleStart(al, segs);
      }
      NameRuns(al, acc.text, content, RawAll(segs), rest);
  }

  lemma Regrouped(a: string, b: string, c: string)
    ensures a + b + c == a + (b + c)
  {
  }

  lemma {:induction false} RenderRuns(al: Alphabet, acc: Out, segs: seq<Seg>)
    requires NonEmpty(segs)
    ensures Runs(al, Render(al, acc, segs).text) == Runs(al, acc.text + Visible(segs))
    decreases |segs|
  {
    if segs == [] {
      assert acc.text + [] == acc.text;
    } else {
      EmitRuns(al, acc, segs[0], segs[1..]);
      RenderRuns(al, Emit(al, acc, segs[0], RawAll(segs[1..])), segs[1..]);
    }
  }

  lemma SqueezeSpace(al: Alphabet, s: string)
    ensures Squeeze(al, s + " ") == Squeeze(al, s)
    ensures Squeeze(al, " " + s) == Squeeze(al, s)
  {
    SqueezeBlank(al, " ");
    SqueezeConcat(al, s, " ");
    SqueezeConcat(al, " ", s);
  }

  lemma EmitSqueeze(al: Alphabet, acc: Out, seg: Seg, next: string)
    ensures Squeeze(al, Emit(al, acc, seg, next).text) == Squeeze(al, acc.text) + Squeeze(al, Shown(seg))
  {
    match seg
    case Plain(c) =>
      SqueezeConcat(al, acc.text, [c]);
    case Blank(_) =>
      SqueezeConcat(al, acc.text, " ");
    case Name(_, content, _) =>
      var lead := if EndsWord(al, acc.text) then acc.text + " " else acc.text;
      SqueezeSpace(al, acc.text);
      SqueezeConcat(al, lead, content);
      SqueezeSpace(al, lead + content);
      SqueezeSpace(al, content);
      SqueezeSpace(al, " " + content);
  }

  lemma {:induction false} RenderSqueeze(al: Alphabet, acc: Out, segs: seq<Seg>)
    ensures Squeeze(al, Render(al, acc, segs).text) == Squeeze(al, acc.text) + Squeeze(al, Visible(segs))
    decreases |segs|
  {
    if segs != [] {
      var acc' := Emit(al, acc, segs[0], RawAll(segs[1..]));
      EmitSqueeze(al, acc, segs[0], RawAll(segs[1..]));
      RenderSqueeze(al, acc', segs[1..]);
      SqueezeConcat(al, Shown(segs[0]), Visible(segs[1..]));
    }
  }

  lemma {:induction false} LexNonEmpty(al: Alphabet, s: string, segs: seq<Seg>)
    requires Lex(al, s) == Tokens(segs)
    ensures NonEmpty(segs)
  {
    LexIffParses(al, s, segs);
  }

  /** **Nothing lost, nothing made up.** The words of the analysis copy are exactly the words of the
      visible statement with every construct kept apart, and so is everything that is not blank. */
  lemma TextShowsVisible(al: Alphabet, sql: string, segs: seq<Seg>)
    requires Lex(al, sql) == Tokens(segs)
    ensures Neutralize(al, sql).Done?
    ensures var text := Neutralize(al, sql).value.text;
            && Runs(al, text) == Runs(al, Visible(segs))
            && Squeeze(al, text) == Squeeze(al, Visible(segs))
  {
    var out := Render(al, NOTHING, segs);
    LexNonEmpty(al, sql, segs);
    RenderRuns(al, NOTHING, segs);
    RenderSqueeze(al, NOTHING, segs);
    RunsStrip(al, out.text);
    SqueezeStrip(al, out.text);
    assert "" + Visible(segs) == Visible(segs);
  }
}
