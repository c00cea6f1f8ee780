/** The analysis copy of a statement: what the reference lexer's constructs emit, and the single
    left-to-right index loop that computes it. */
module Neutralizer {
  import opened Common
  import opened SqlText
  import opened SqlLexer

  type Span = (nat, nat)

  /** The text emitted so far and where each closed identifier's content lies in it. */
  datatype Out = Out(text: string, spans: seq<Span>)

  datatype Neutralized = Neutralized(text: string, quoted: seq<Span>)

  datatype Result = Done(value: Neutralized) | Rejected(form: Ambiguity)

  const NOTHING := Out("", [])

  /** What one construct adds, given the input that follows it. An identifier loses its quotes, and
      a separator stands in for each quote that kept two word characters apart. */
  function Emit(al: Alphabet, acc: Out, seg: Seg, next: string): Out {
    match seg
    case Plain(c) => Out(acc.text + [c], acc.spans)
    case Blank(_) => Out(acc.text + " ", acc.spans)
    case Name(_, content, closed) =>
      var lead := if EndsWord(al, acc.text) then acc.text + " " else acc.text;
      var named := lead + content;
      Out(if StartsWord(al, next) then named + " " else named,
          if closed then acc.spans + [(|lead|, |named|)] else acc.spans)
  }

  function Render(al: Alphabet, acc: Out, segs: seq<Seg>): Out
    decreases |segs|
  {
    if segs == [] then acc
    else Render(al, Emit(al, acc, segs[0], RawAll(segs[1..])), segs[1..])
  }

  /** Strip the emitted text and move the spans into the stripped frame, dropping those the strip
      disturbed and those that hold nothing. */
  function Finish(al: Alphabet, out: Out): Neutralized {
    var text := Strip(al, out.text);
    Neutralized(text, Keep(out.spans, Lead(al, out.text), |text|))
  }

  function Keep(spans: seq<Span>, lead: nat, limit: nat): seq<Span> {
    if spans == [] then []
    else
      var (s, e) := spans[0];
      var rest := Keep(spans[1..], lead, limit);
      if lead <= s < e <= lead + limit then [(s - lead, e - lead)] + rest else rest
  }

  /** The analysis copy, from the reference lexer. */
  function Neutralize(al: Alphabet, sql: string): Result {
    match Lex(al, sql)
    case Tokens(segs) => Done(Finish(al, Render(al, NOTHING, segs)))
    case Ambiguous(_, form) => Rejected(form)
  }

  // ---------------------------------------------------------------------------
  // The index loop
  // ---------------------------------------------------------------------------

  datatype Scanned = Emitted(out: Out) | Halted(form: Ambiguity)

  /** Lexing and emitting in one pass: what the loop still has to do from a given point. */
  function Scan(al: Alphabet, acc: Out, s: string): Scanned
    decreases |s|
  {
    if s == [] then Emitted(acc)
    else match HeadOf(al, s)
      case Refuse(form) => Halted(form)
      case Take(seg) =>
        var rest := s[|seg.Raw()|..];
        Scan(al, Emit(al, acc, seg, rest), rest)
  }

  lemma {:induction false} ScanIsLexThenRender(al: Alphabet, acc: Out, s: string)
    ensures match Lex(al, s)
            case Tokens(segs) => RawAll(segs) == s && Scan(al, acc, s) == Emitted(Render(al, acc, segs))
            case Ambiguous(_, form) => Scan(al, acc, s) == Halted(form)
    decreases |s|
  {
    if s != [] && HeadOf(al, s).Take? {
      var seg := HeadOf(al, s).seg;
      var rest := s[|seg.Raw()|..];
      ScanIsLexThenRender(al, Emit(al, acc, seg, rest), rest);
      if Lex(al, rest).Tokens? {
        assert ([seg] + Lex(al, rest).segs)[1..] == Lex(al, rest).segs;
      }
    }
  }

  function Join(chunks: seq<string>): string {
    if chunks == [] then [] else Join(chunks[..|chunks| - 1]) + chunks[|chunks| - 1]
  }

  lemma JoinSnoc(chunks: seq<string>, chunk: string)
    ensures Join(chunks + [chunk]) == Join(chunks) + chunk
  {
    assert (chunks + [chunk])[..|chunks|] == chunks;
  }

  /** The last character emitted, skipping empty chunks; empty when nothing was. */
  method LastEmitted(chunks: seq<string>) returns (last: string)
    ensures last == if Join(chunks) == [] then [] else [Join(chunks)[|Join(chunks)| - 1]]
  {
    var k := |chunks|;
    assert chunks[..k] == chunks;
    while k > 0
      invariant 0 <= k <= |chunks|
      invariant Join(chunks) == Join(chunks[..k])
    {
      assert chunks[..k][..k - 1] == chunks[..k - 1];
      if chunks[k - 1] != [] {
        return [chunks[k - 1][|chunks[k - 1]| - 1]];
      }
      k := k - 1;
    }
    return [];
  }

  method LineEnd(sql: string, start: nat) returns (j: nat)
    requires start <= |sql|
    ensures j == start + LineLength(sql[start..])
  {
    j := start;
    while j < |sql| && !LineBreak(sql[j])
      invariant start <= j <= |sql|
      invariant start + LineLength(sql[start..]) == j + LineLength(sql[j..])
    {
      assert sql[j..][1..] == sql[j + 1..];
      j := j + 1;
    }
  }

  /** Past the close of the string literal whose opening quote is before `start`. */
  method LiteralEnd(sql: string, start: nat) returns (j: nat)
    requires start <= |sql|
    ensures j == start + Consume('\'', sql[start..]).length
  {
    j := start;
    while j < |sql|
      invariant start <= j <= |sql|
      invariant start + Consume('\'', sql[start..]).length == j + Consume('\'', sql[j..]).length
    {
      if sql[j] == '\'' {
        if j + 1 < |sql| && sql[j + 1] == '\'' {
          assert sql[j..][2..] == sql[j + 2..];
          j := j + 2;
          continue;
        }
        j := j + 1;
        return;
      }
      assert sql[j..][1..] == sql[j + 1..];
      j := j + 1;
    }
  }

  /** What is still to come once `buf` has been read up to `j`. */
  ghost function Remaining(q: char, sql: string, start: nat, j: nat, buf: string): Body
    requires start <= j <= |sql|
  {
    var rest := Consume(q, sql[j..]);
    Body(j - start + rest.length, buf + rest.content, rest.closed)
  }

  lemma ReadOn(q: char, sql: string, start: nat, j: nat, buf: string)
    requires start <= j < |sql|
    ensures sql[j] != q ==> Remaining(q, sql, start, j, buf) == Remaining(q, sql, start, j + 1, buf + [sql[j]])
    ensures sql[j] == q && j + 1 < |sql| && sql[j + 1] == q ==>
              Remaining(q, sql, start, j, buf) == Remaining(q, sql, start, j + 2, buf + [q])
    ensures sql[j] == q && !(j + 1 < |sql| && sql[j + 1] == q) ==>
              Remaining(q, sql, start, j, buf) == Body(j + 1 - start, buf, true)
  {
    var s := sql[j..];
    assert s[1..] == sql[j + 1..];
    if sql[j] != q {
      var inner := Consume(q, sql[j + 1..]).content;
      assert buf + ([sql[j]] + inner) == buf + [sql[j]] + inner;
    } else if j + 1 < |sql| && sql[j + 1] == q {
      assert s[2..] == sql[j + 2..];
      var inner := Consume(q, sql[j + 2..]).content;
      assert buf + ([q] + inner) == buf + [q] + inner;
    } else {
      assert buf + [] == buf;
    }
  }

  lemma RemainingStarts(q: char, sql: string, start: nat)
    requires start <= |sql|
    ensures Remaining(q, sql, start, start, []) == Consume(q, sql[start..])
  {
    assert [] + Consume(q, sql[start..]).content == Consume(q, sql[start..]).content;
  }

  lemma RemainingEnds(q: char, sql: string, start: nat, buf: string)
    requires start <= |sql|
    ensures Remaining(q, sql, start, |sql|, buf) == Body(|sql| - start, buf, false)
  {
    assert sql[|sql|..] == [];
    assert buf + [] == buf;
  }

  /** The identifier whose opening quote is before `start`: where it ends, its unescaped content,
      and whether its closing quote was there. */
  method ReadName(sql: string, start: nat) returns (j: nat, buf: string, closed: bool)
    requires start <= |sql|
    ensures start <= j <= |sql| && Consume('"', sql[start..]) == Body(j - start, buf, closed)
  {
    hide Remaining, Consume;
    j, buf, closed := start, [], false;
    RemainingStarts('"', sql, start);
    while j < |sql|
      invariant start <= j <= |sql|
      invariant !closed
      invariant Remaining('"', sql, start, j, buf) == Consume('"', sql[start..])
    {
      ReadOn('"', sql, start, j, buf);
      if sql[j] == '"' {
        if j + 1 < |sql| && sql[j + 1] == '"' {
          buf := buf + ['"'];
          j := j + 2;
          continue;
        }
        j := j + 1;
        closed := true;
        return;
      }
      buf := buf + [sql[j]];
      j := j + 1;
    }
    RemainingEnds('"', sql, start, buf);
  }

  lemma Advance(al: Alphabet, acc: Out, sql: string, i: nat, seg: Seg)
    requires i < |sql| && HeadOf(al, sql[i..]) == Take(seg)
    ensures i + |seg.Raw()| <= |sql|
    ensures var j := i + |seg.Raw()|;
            Scan(al, acc, sql[i..]) == Scan(al, Emit(al, acc, seg, sql[j..]), sql[j..])
  {
    hide HeadOf, Emit;
    assert sql[i..][|seg.Raw()|..] == sql[i + |seg.Raw()|..];
  }

  lemma ScanRefused(al: Alphabet, acc: Out, s: string, form: Ambiguity)
    requires s != [] && HeadOf(al, s) == Refuse(form)
    ensures Scan(al, acc, s) == Halted(form)
  {
    hide HeadOf;
  }

  lemma ScanEnds(al: Alphabet, acc: Out)
    ensures Scan(al, acc, []) == Emitted(acc)
  {
  }

  lemma FinishIs(al: Alphabet, out: Out)
    ensures var text := Strip(al, out.text);
            Finish(al, out) == Neutralized(text, Keep(out.spans, Lead(al, out.text), |text|))
  {
  }

  /** Emit one chunk: `out.append` with the running width beside it. */
  method EmitChunk(out: seq<string>, width: nat, chunk: string) returns (out': seq<string>, width': nat)
    requires width == |Join(out)|
    ensures out' == out + [chunk] && Join(out') == Join(out) + chunk
    ensures width' == |Join(out')|
  {
    JoinSnoc(out, chunk);
    out', width' := out + [chunk], width + |chunk|;
  }

  /** Emit an identifier's content, with a separator on each side where its quote was keeping two
      word characters apart, and record the content's span if its closing quote was there. */
  method EmitName(al: Alphabet, out: seq<string>, spans: seq<Span>, width: nat, ghost raw: string,
                  content: string, closed: bool, next: string)
    returns (out': seq<string>, spans': seq<Span>, width': nat)
    requires width == |Join(out)|
    ensures width' == |Join(out')|
    ensures Out(Join(out'), spans') == Emit(al, Out(Join(out), spans), Name(raw, content, closed), next)
  {
    out', spans', width' := out, spans, width;
    var last := LastEmitted(out);
    if last != [] && al.Word(last[0]) {
      out', width' := EmitChunk(out', width', " ");
    }
    var start := width';
    out', width' := EmitChunk(out', width', content);
    if closed {
      spans' := spans + [(start, width')];
    }
    if StartsWord(al, next) {
      out', width' := EmitChunk(out', width', " ");
    }
  }

  lemma BlockCommentAt(al: Alphabet, sql: string, i: nat, j: nat)
    requires i < |sql| && Opens(sql[i..], '/', '*') && (i + 2 < |sql| ==> sql[i + 2] != '!')
    requires var end := Find(sql[i + 2..], "*/");
             j == if end.None? then |sql| else i + 2 + end.value + 2
    ensures j <= |sql| && HeadOf(al, sql[i..]) == Take(Blank(sql[i..j]))
  {
    var rest := sql[i..];
    assert rest[2..] == sql[i + 2..];
    assert rest[..j - i] == sql[i..j];
  }

  lemma LineCommentAt(al: Alphabet, sql: string, i: nat, j: nat)
    requires i < |sql| && Opens(sql[i..], '-', '-') && (i + 2 < |sql| ==> CommentGap(sql[i + 2]))
    requires j == i + 2 + LineLength(sql[i + 2..])
    ensures i < j <= |sql| && HeadOf(al, sql[i..]) == Take(Blank(sql[i..j]))
  {
    hide Consume, Find, LineLength, DollarLength;
    var rest := sql[i..];
    assert i + 2 < |sql| ==> rest[2] == sql[i + 2];
    assert rest[2..] == sql[i + 2..];
    assert rest[..j - i] == sql[i..j];
  }

  lemma LiteralHead(al: Alphabet, s: string)
    requires StartsWith(s, '\'')
    ensures HeadOf(al, s) == Take(Blank(s[..1 + Consume('\'', s[1..]).length]))
  {
    hide Consume, Find, LineLength, DollarLength;
  }

  lemma NameHead(al: Alphabet, s: string)
    requires StartsWith(s, '"')
    ensures HeadOf(al, s) == var b := Consume('"', s[1..]); Take(Name(s[..1 + b.length], b.content, b.closed))
  {
    hide Consume, Find, LineLength, DollarLength;
  }

  lemma LiteralAt(al: Alphabet, sql: string, i: nat, j: nat)
    requires i < |sql| && sql[i] == '\''
    requires j == i + 1 + Consume('\'', sql[i + 1..]).length
    ensures j <= |sql| && HeadOf(al, sql[i..]) == Take(Blank(sql[i..j]))
  {
    hide HeadOf, Consume;
    var rest := sql[i..];
    assert rest[1..] == sql[i + 1..];
    assert rest[..j - i] == sql[i..j];
    LiteralHead(al, rest);
  }

  lemma NameAt(al: Alphabet, sql: string, i: nat, j: nat, content: string, closed: bool)
    requires i < |sql| && sql[i] == '"' && i < j <= |sql|
    requires Consume('"', sql[i + 1..]) == Body(j - (i + 1), content, closed)
    ensures HeadOf(al, sql[i..]) == Take(Name(sql[i..j], content, closed))
  {
    hide HeadOf, Consume;
    NameHead(al, sql[i..]);
    var rest := sql[i..];
    assert rest[1..] == sql[i + 1..];
    assert rest[..j - i] == sql[i..j];
  }

  lemma DollarAt(al: Alphabet, sql: string, i: nat)
    requires i < |sql| && sql[i] == '$'
    ensures HeadOf(al, sql[i..]) ==
            match DollarLength(al, sql[i..])
            case Some(n) => Take(Blank(sql[i..i + n]))
            case None => Take(Plain('$'))
  {
    hide HeadOf, DollarLength;
    DollarIsHead(al, sql[i..]);
    if DollarLength(al, sql[i..]).Some? {
      var n := DollarLength(al, sql[i..]).value;
      assert sql[i..][..n] == sql[i..i + n];
    }
  }

  lemma AmbiguousAt(al: Alphabet, sql: string, i: nat)
    requires i < |sql|
    ensures Opens(sql[i..], '-', '-') && i + 2 < |sql| && !CommentGap(sql[i + 2]) ==>
              HeadOf(al, sql[i..]) == Refuse(BareLineComment)
    ensures Opens(sql[i..], '/', '*') && i + 2 < |sql| && sql[i + 2] == '!' ==>
              HeadOf(al, sql[i..]) == Refuse(ExecutableComment)
    ensures sql[i] == '#' ==> HeadOf(al, sql[i..]) == Refuse(Hash)
  {
    var rest := sql[i..];
    if i + 2 < |sql| {
      assert rest[2] == sql[i + 2] && rest[2..][0] == sql[i + 2];
    }
  }

  lemma PlainAt(al: Alphabet, sql: string, i: nat)
    requires i < |sql| && !(Opens(sql[i..], '-', '-')) && !(Opens(sql[i..], '/', '*'))
    requires sql[i] != '#' && sql[i] != '\'' && sql[i] != '"' && sql[i] != '$'
    ensures HeadOf(al, sql[i..]) == Take(Plain(sql[i]))
  {
  }

  /** The text from `i` is a construct the loop blanks out and ends at `j`, or a form it refuses. */
  ghost predicate Skipped(al: Alphabet, sql: string, i: nat, halt: Option<Ambiguity>, j: nat)
    requires i < |sql|
  {
    if halt.Some? then HeadOf(al, sql[i..]) == Refuse(halt.value)
    else i < j <= |sql| && HeadOf(al, sql[i..]) == Take(Blank(sql[i..j]))
  }

  method SkipLineComment(al: Alphabet, sql: string, i: nat) returns (halt: Option<Ambiguity>, j: nat)
    requires i < |sql| && Opens(sql[i..], '-', '-')
    ensures Skipped(al, sql, i, halt, j)
  {
    halt, j := None, i;
    if i + 2 < |sql| && !CommentGap(sql[i + 2]) {
      AmbiguousAt(al, sql, i);
      halt := Some(BareLineComment);
    } else {
      j := LineEnd(sql, i + 2);
      LineCommentAt(al, sql, i, j);
    }
  }

  method SkipBlockComment(al: Alphabet, sql: string, i: nat) returns (halt: Option<Ambiguity>, j: nat)
    requires i < |sql| && Opens(sql[i..], '/', '*')
    ensures Skipped(al, sql, i, halt, j)
  {
    halt, j := None, i;
    if i + 2 < |sql| && sql[i + 2] == '!' {
      AmbiguousAt(al, sql, i);
      halt := Some(ExecutableComment);
    } else {
      var end := Find(sql[i + 2..], "*/");
      j := if end.None? then |sql| else i + 2 + end.value + 2;
      BlockCommentAt(al, sql, i, j);
    }
  }

  lemma NeutralizeIsScan(al: Alphabet, s: string)
    ensures Neutralize(al, s) == match Scan(al, NOTHING, s)
                                 case Emitted(out) => Done(Finish(al, out))
                                 case Halted(form) => Rejected(form)
  {
    hide Lex, Scan, Render, Finish;
    ScanIsLexThenRender(al, NOTHING, s);
  }

  /** One turn of the loop: commit to whatever opens at `i`, emit what it leaves, and skip to its
      own close. */
  method ReadConstruct(al: Alphabet, sql: string, i: nat, out: seq<string>, spans: seq<Span>, width: nat)
    returns (halt: Option<Ambiguity>, j: nat, out': seq<string>, spans': seq<Span>, width': nat)
    requires i < |sql| && width == |Join(out)|
    ensures match HeadOf(al, sql[i..])
            case Refuse(form) => halt == Some(form)
            case Take(seg) =>
              && halt.None?
              && j == i + |seg.Raw()| <= |sql|
              && width' == |Join(out')|
              && Out(Join(out'), spans') == Emit(al, Out(Join(out), spans), seg, sql[j..])
  {
    hide HeadOf, Join, Find, Consume, LineLength, DollarLength;
    halt, j, out', spans', width' := None, i + 1, out, spans, width;
    var two := sql[i..if i + 2 <= |sql| then i + 2 else |sql|];
    if two == "--" {
      halt, j := SkipLineComment(al, sql, i);
      out', width' := EmitChunk(out, width, " ");
    } else if two == "/*" {
      halt, j := SkipBlockComment(al, sql, i);
      out', width' := EmitChunk(out, width, " ");
    } else if sql[i] == '#' {
      AmbiguousAt(al, sql, i);
      halt := Some(Hash);
    } else if sql[i] == '\'' {
      j := LiteralEnd(sql, i + 1);
      LiteralAt(al, sql, i, j);
      out', width' := EmitChunk(out, width, " ");
    } else if sql[i] == '"' {
      var buf, closed;
      j, buf, closed := ReadName(sql, i + 1);
      NameAt(al, sql, i, j, buf, closed);
      out', spans', width' := EmitName(al, out, spans, width, sql[i..j], buf, closed, sql[j..]);
    } else if sql[i] == '$' {
      DollarAt(al, sql, i);
      var close := DollarLength(al, sql[i..]);
      if close.Some? {
        j := i + close.value;
        out', width' := EmitChunk(out, width, " ");
      } else {
        out', width' := EmitChunk(out, width, "$");
      }
    } else {
      PlainAt(al, sql, i);
      out', width' := EmitChunk(out, width, [sql[i]]);
    }
  }

  /** `_neutralize`: one pass over the statement by index, with the emitted chunks, their running
      width and the identifier spans kept as it goes. */
  method NeutralizeStatement(al: Alphabet, sql: string) returns (r: Result)
    ensures r == Neutralize(al, sql)
  {
    hide Neutralize, HeadOf, Emit, Scan, Finish, Strip, Keep, Lead;
    var out: seq<string> := [];
    var spans: seq<Span> := [];
    var width := 0;
    var i, n := 0, |sql|;
    assert sql[0..] == sql;
    NeutralizeIsScan(al, sql);
    while i < n
      invariant 0 <= i <= n
      invariant width == |Join(out)|
      invariant Scan(al, Out(Join(out), spans), sql[i..]) == Scan(al, NOTHING, sql)
    {
      ghost var acc := Out(Join(out), spans);
      var halt, j, out', spans', width' := ReadConstruct(al, sql, i, out, spans, width);
      if halt.Some? {
        ScanRefused(al, acc, sql[i..], halt.value);
        return Rejected(halt.value);
      }
      Advance(al, acc, sql, i, HeadOf(al, sql[i..]).seg);
      i, out, spans, width := j, out', spans', width';
    }
    assert sql[n..] == [];
    ScanEnds(al, Out(Join(out), spans));
    var raw := Join(out);
    var text := Strip(al, raw);
    var kept := Keep(spans, Lead(al, raw), |text|);
    FinishIs(al, Out(raw, spans));
    return Done(Neutralized(text, kept));
  }
}
