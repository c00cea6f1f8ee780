/** The reference lexer: the first construct opened at a live position wins. It works on what is
    left of the statement, with no index, no output and no bookkeeping. */
module SqlLexer {
  import opened Common
  import opened SqlText

  /** One construct of a statement, with the input text it covers. */
  datatype Seg =
    | Plain(c: char)                                    // a character outside every construct
    | Blank(raw: string)                                // a comment, a string or a dollar literal
    | Name(raw: string, content: string, closed: bool)  // a double-quoted identifier
  {
    function Raw(): string {
      match this
      case Plain(c) => [c]
      case Blank(raw) => raw
      case Name(raw, _, _) => raw
    }
  }

  /** The forms the engines read differently, which the lexer refuses rather than resolves. */
  datatype Ambiguity = BareLineComment | ExecutableComment | Hash

  datatype Head = Take(seg: Seg) | Refuse(form: Ambiguity)

  datatype Lexed = Tokens(segs: seq<Seg>) | Ambiguous(before: seq<Seg>, form: Ambiguity)

  /** The characters that may follow `--` for it to be a comment on every engine. */
  predicate CommentGap(c: char) {
    c == ' ' || c == '\t' || c == '\r' || c == '\n' || c == '\U{000C}'
  }

  predicate LineBreak(c: char) {
    c == '\r' || c == '\n'
  }

  function LineLength(s: string): (n: nat)
    ensures n <= |s|
    ensures forall k :: 0 <= k < n ==> !LineBreak(s[k])
    ensures n < |s| ==> LineBreak(s[n])
  {
    if s == [] || LineBreak(s[0]) then 0 else 1 + LineLength(s[1..])
  }

  /** Each delimiter `q` of `s` written twice, as standard SQL escapes it. */
  function Double(q: char, s: string): string {
    if s == [] then []
    else if s[0] == q then [q, q] + Double(q, s[1..])
    else [s[0]] + Double(q, s[1..])
  }

  /** `s` as a closed literal or identifier delimited by `q`. */
  function Delimited(q: char, s: string): string {
    [q] + Double(q, s) + [q]
  }

  /** `_quote_ident`: the identifier the engine reads back as `name`. */
  function QuoteIdent(name: string): string {
    Delimited('"', name)
  }

  /** What an opened `q`-delimited construct covers of the text after its opening delimiter. */
  datatype Body = Body(length: nat, content: string, closed: bool)

  function Consume(q: char, s: string): (b: Body)
    ensures b.length <= |s|
  {
    if s == [] then Body(0, [], false)
    else if s[0] != q then
      var b := Consume(q, s[1..]);
      Body(1 + b.length, [s[0]] + b.content, b.closed)
    else if |s| > 1 && s[1] == q then
      var b := Consume(q, s[2..]);
      Body(2 + b.length, [q] + b.content, b.closed)
    else Body(1, [], true)
  }

  /** The construct that opens a non-empty text. */
  function HeadOf(al: Alphabet, s: string): (h: Head)
    requires s != []
    ensures h.Take? ==> h.seg.Raw() != [] && h.seg.Raw() <= s
  {
    if Opens(s, '-', '-') then
      if |s| > 2 && !CommentGap(s[2]) then Refuse(BareLineComment)
      else Take(Blank(s[..2 + LineLength(s[2..])]))
    else if Opens(s, '/', '*') then
      if StartsWith(s[2..], '!') then Refuse(ExecutableComment)
      else match Find(s[2..], "*/")
        case Some(k) => Take(Blank(s[..2 + k + 2]))
        case None => Take(Blank(s))
    else if s[0] == '#' then Refuse(Hash)
    else if s[0] == '\'' then Take(Blank(s[..1 + Consume('\'', s[1..]).length]))
    else if s[0] == '"' then
      var b := Consume('"', s[1..]);
      Take(Name(s[..1 + b.length], b.content, b.closed))
    else if s[0] == '$' then
      match DollarLength(al, s)
      case Some(n) => Take(Blank(s[..n]))
      case None => Take(Plain('$'))
    else Take(Plain(s[0]))
  }

  /** The length of the tag `$word$` the text opens with. */
  function TagLength(al: Alphabet, s: string): (r: Option<nat>)
    ensures r.Some? ==> 2 <= r.value <= |s| && s[0] == '$' && s[r.value - 1] == '$'
    ensures r.Some? ==> forall k :: 1 <= k < r.value - 1 ==> al.Word(s[k])
  {
    if !StartsWith(s, '$') then None
    else
      var n := RunLength(al, s[1..]);
      assert forall k :: 1 <= k < n + 1 ==> s[k] == s[1..][k - 1];
      if n + 1 < |s| && s[n + 1] == '$' then Some(n + 2) else None
  }

  /** The length of the dollar-quoted literal the text opens with: a tag, then the first place the
      same tag stands again. A tag that never closes opens nothing. */
  function DollarLength(al: Alphabet, s: string): (r: Option<nat>)
    ensures r.Some? ==> 0 < r.value <= |s|
  {
    match TagLength(al, s)
    case None => None
    case Some(m) =>
      match Find(s[m..], s[..m])
      case Some(k) => Some(m + k + m)
      case None => None
  }

  function Lex(al: Alphabet, s: string): Lexed {
    if s == [] then Tokens([])
    else match HeadOf(al, s)
      case Refuse(form) => Ambiguous([], form)
      case Take(seg) => Before(seg, Lex(al, s[|seg.Raw()|..]))
  }

  function Before(seg: Seg, rest: Lexed): Lexed {
    match rest
    case Tokens(segs) => Tokens([seg] + segs)
    case Ambiguous(before, form) => Ambiguous([seg] + before, form)
  }

  function RawAll(segs: seq<Seg>): string {
    if segs == [] then [] else segs[0].Raw() + RawAll(segs[1..])
  }

  // ---------------------------------------------------------------------------
  // The grammar: which construct may stand where, said without scanning
  // ---------------------------------------------------------------------------

  ghost predicate IsLineComment(raw: string, rest: string) {
    && Opens(raw, '-', '-')
    && (|raw| > 2 ==> raw[2] in {' ', '\t', '\r', '\n', '\U{000C}'})
    && (forall k :: 2 <= k < |raw| ==> raw[k] !in {'\r', '\n'})
    && (rest != [] ==> rest[0] in {'\r', '\n'})
  }

  ghost predicate IsBlockComment(raw: string, rest: string) {
    && Opens(raw, '/', '*')
    && !StartsWith(raw[2..], '!')
    && (if |raw| >= 4 && At(raw, "*/", |raw| - 2)
        then forall k: nat :: 2 <= k < |raw| - 2 ==> !At(raw, "*/", k)
        else rest == [] && forall k: nat :: 2 <= k ==> !At(raw, "*/", k))
  }

  /** A closed construct is its content delimited, and the next character does not reopen it; an
      unclosed one runs to the end of the statement. */
  ghost predicate IsDelimited(q: char, raw: string, content: string, closed: bool, rest: string) {
    if closed then raw == Delimited(q, content) && !StartsWith(rest, q)
    else raw == [q] + Double(q, content) && rest == []
  }

  ghost predicate IsString(raw: string, rest: string) {
    exists content: string, closed: bool :: IsDelimited('\'', raw, content, closed, rest)
  }

  /** A tag, and the same tag again at the end and nowhere in between. */
  ghost predicate IsDollar(al: Alphabet, raw: string) {
    match TagLength(al, raw)
    case None => false
    case Some(m) =>
      && 2 * m <= |raw|
      && At(raw, raw[..m], |raw| - m)
      && forall k: nat :: m <= k < |raw| - m ==> !At(raw, raw[..m], k)
  }

  /** A `$` whose tag is malformed or never stands again. */
  ghost predicate OpensNothing(al: Alphabet, s: string) {
    match TagLength(al, s)
    case None => true
    case Some(m) => forall k: nat :: m <= k ==> !At(s, s[..m], k)
  }

  ghost predicate Fits(al: Alphabet, seg: Seg, rest: string) {
    match seg
    case Plain(c) =>
      && c != '#' && c != '\'' && c != '"'
      && !(c == '-' && StartsWith(rest, '-'))
      && !(c == '/' && StartsWith(rest, '*'))
      && (c == '$' ==> OpensNothing(al, "$" + rest))
    case Blank(raw) =>
      || IsLineComment(raw, rest)
      || IsBlockComment(raw, rest)
      || IsString(raw, rest)
      || IsDollar(al, raw)
    case Name(raw, content, closed) => IsDelimited('"', raw, content, closed, rest)
  }

  /** The text opens with a form the engines disagree on. */
  ghost predicate OpensWith(s: string, form: Ambiguity) {
    match form
    case BareLineComment => Opens(s, '-', '-') && |s| > 2 && s[2] !in {' ', '\t', '\r', '\n', '\U{000C}'}
    case ExecutableComment => Opens(s, '/', '*') && |s| > 2 && s[2] == '!'
    case Hash => StartsWith(s, '#')
  }

  /** `segs` cuts `s` into constructs, each fitting in front of what follows it. */
  ghost predicate Parses(al: Alphabet, segs: seq<Seg>, s: string)
    decreases |segs|
  {
    if segs == [] then s == []
    else
      && segs[0].Raw() <= s
      && Fits(al, segs[0], s[|segs[0].Raw()|..])
      && Parses(al, segs[1..], s[|segs[0].Raw()|..])
  }

  /** The same, with `rest` left over. */
  ghost predicate ParsesTo(al: Alphabet, segs: seq<Seg>, s: string, rest: string)
    decreases |segs|
  {
    if segs == [] then s == rest
    else
      && segs[0].Raw() <= s
      && Fits(al, segs[0], s[|segs[0].Raw()|..])
      && ParsesTo(al, segs[1..], s[|segs[0].Raw()|..], rest)
  }

  lemma DollarIsHead(al: Alphabet, s: string)
    requires StartsWith(s, '$')
    ensures HeadOf(al, s) == match DollarLength(al, s)
                             case Some(n) => Take(Blank(s[..n]))
                             case None => Take(Plain('$'))
  {
    hide DollarLength;
  }

  // ---------------------------------------------------------------------------
  // Delimited constructs
  // ---------------------------------------------------------------------------

  lemma {:induction false} ConsumeShape(q: char, s: string)
    ensures var b := Consume(q, s);
            if b.closed
            then s[..b.length] == Double(q, b.content) + [q] && !StartsWith(s[b.length..], q)
            else s == Double(q, b.content) && b.length == |s|
    decreases |s|
  {
    hide Double, Consume;
    ConsumeStep(q, s);
    DoubleStep(q, Consume(q, s).content);
    if s != [] && s[0] != q {
      var b := Consume(q, s[1..]);
      ConsumeShape(q, s[1..]);
      assert ([s[0]] + b.content)[1..] == b.content;
      assert s == [s[0]] + s[1..];
      assert s[..1 + b.length] == [s[0]] + s[1..][..b.length];
    } else if |s| > 1 && s[1] == q {
      var b := Consume(q, s[2..]);
      ConsumeShape(q, s[2..]);
      assert ([q] + b.content)[1..] == b.content;
      assert s == [q, q] + s[2..];
      assert s[..2 + b.length] == [q, q] + s[2..][..b.length];
    } else if s != [] {
      assert s[..1] == [] + [q];
    }
  }

  lemma ConsumeStep(q: char, s: string)
    ensures Consume(q, s) ==
            if s == [] then Body(0, [], false)
            else if s[0] != q then
              var b := Consume(q, s[1..]);
              Body(1 + b.length, [s[0]] + b.content, b.closed)
            else if |s| > 1 && s[1] == q then
              var b := Consume(q, s[2..]);
              Body(2 + b.length, [q] + b.content, b.closed)
            else Body(1, [], true)
  {
  }

  lemma DoubleStep(q: char, s: string)
    ensures Double(q, s) ==
            if s == [] then [] else (if s[0] == q then [q, q] else [s[0]]) + Double(q, s[1..])
  {
  }

  /** Reading over one doubled or ordinary character. */
  lemma ConsumeOver(q: char, c: char, inner: string)
    ensures var b := Consume(q, inner);
            Consume(q, (if c == q then [q, q] else [c]) + inner) ==
            Body((if c == q then 2 else 1) + b.length, [c] + b.content, b.closed)
  {
    hide Consume;
    var s := (if c == q then [q, q] else [c]) + inner;
    ConsumeStep(q, s);
    assert s[if c == q then 2 else 1..] == inner;
  }

  lemma {:induction false} ConsumeClosed(q: char, content: string, rest: string)
    requires !StartsWith(rest, q)
    ensures Consume(q, Double(q, content) + [q] + rest) == Body(|Double(q, content)| + 1, content, true)
    decreases |content|
  {
    hide Consume, Double;
    var s := Double(q, content) + [q] + rest;
    DoubleStep(q, content);
    if content == [] {
      assert s == [q] + rest;
      ConsumeStep(q, s);
      assert |s| > 1 ==> s[1] == rest[0];
    } else {
      ConsumeClosed(q, content[1..], rest);
      var inner := Double(q, content[1..]) + [q] + rest;
      assert content == [content[0]] + content[1..];
      assert s == (if content[0] == q then [q, q] else [content[0]]) + inner;
      ConsumeOver(q, content[0], inner);
    }
  }

  lemma {:induction false} ConsumeOpen(q: char, content: string)
    ensures Consume(q, Double(q, content)) == Body(|Double(q, content)|, content, false)
    decreases |content|
  {
    hide Consume, Double;
    DoubleStep(q, content);
    if content == [] {
      ConsumeStep(q, []);
    } else {
      ConsumeOpen(q, content[1..]);
      assert content == [content[0]] + content[1..];
      ConsumeOver(q, content[0], Double(q, content[1..]));
    }
  }

  lemma ConsumedIsDelimited(q: char, s: string)
    requires StartsWith(s, q)
    ensures var b := Consume(q, s[1..]);
            IsDelimited(q, s[..1 + b.length], b.content, b.closed, s[1 + b.length..])
  {
    var b := Consume(q, s[1..]);
    ConsumeShape(q, s[1..]);
    assert s[..1 + b.length] == [q] + s[1..][..b.length];
    assert s[1 + b.length..] == s[1..][b.length..];
  }

  lemma DelimitedIsConsumed(q: char, raw: string, content: string, closed: bool, rest: string)
    requires IsDelimited(q, raw, content, closed, rest)
    ensures raw != [] && Consume(q, (raw + rest)[1..]) == Body(|raw| - 1, content, closed)
  {
    if closed {
      assert (raw + rest)[1..] == Double(q, content) + [q] + rest;
      ConsumeClosed(q, content, rest);
    } else {
      assert (raw + rest)[1..] == Double(q, content);
      ConsumeOpen(q, content);
    }
  }

  /** Scanning for the closing delimiter finds exactly the delimited prefix the grammar allows. */
  lemma ConsumeIsDelimited(q: char, s: string, raw: string, content: string, closed: bool)
    requires StartsWith(s, q)
    ensures raw <= s && IsDelimited(q, raw, content, closed, s[|raw|..]) <==>
            var b := Consume(q, s[1..]);
            raw == s[..1 + b.length] && content == b.content && closed == b.closed
  {
    var b := Consume(q, s[1..]);
    ConsumedIsDelimited(q, s);
    if raw <= s && IsDelimited(q, raw, content, closed, s[|raw|..]) {
      DelimitedIsConsumed(q, raw, content, closed, s[|raw|..]);
      assert raw + s[|raw|..] == s;
    }
  }

  /** The identifier `_quote_ident` writes lexes back to the name it was given, in front of exactly
      those texts that do not themselves continue the quotation. */
  lemma QuoteIdentRoundTrip(al: Alphabet, name: string, rest: string)
    ensures HeadOf(al, QuoteIdent(name) + rest) == Take(Name(QuoteIdent(name), name, true))
            <==> !StartsWith(rest, '"')
  {
    var raw := QuoteIdent(name);
    var s := raw + rest;
    ConsumeIsDelimited('"', s, raw, name, true);
    assert s[|raw|..] == rest;
    assert s[0] == '"';
  }
}
