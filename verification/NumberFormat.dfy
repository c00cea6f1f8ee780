/** One result cell, printed exactly. */
module NumberFormat {
  import opened Common
  import opened Numerals
  import opened DigitGroups

  /** A finite `Decimal`: its sign, the number its digits spell, and its exponent. An integer has
      exponent 0. */
  datatype Number = Number(negative: bool, coefficient: nat, exponent: int)

  const MAX_EXPANDED_EXPONENT := 400

  function Digits(d: Number): string { Decimal(d.coefficient) }

  /** `Decimal.adjusted()` */
  function Adjusted(d: Number): int { d.exponent + |Digits(d)| - 1 }

  predicate Expandable(d: Number) {
    d.exponent <= MAX_EXPANDED_EXPONENT && -Adjusted(d) <= MAX_EXPANDED_EXPONENT
  }

  // ---------------------------------------------------------------------------
  // format(d, "f")

  /** A zero loses a positive exponent before it is printed. */
  function PrintedExponent(d: Number): int {
    if d.coefficient == 0 && d.exponent > 0 then 0 else d.exponent
  }

  function DotPlace(d: Number): int { PrintedExponent(d) + |Digits(d)| }

  function IntPart(d: Number): string {
    var s, dot := Digits(d), DotPlace(d);
    if dot < 0 then "0"
    else if dot > |s| then s + Zeros(dot - |s|)
    else if s[..dot] == "" then "0"
    else s[..dot]
  }

  function FracPart(d: Number): string {
    var s, dot := Digits(d), DotPlace(d);
    if dot < 0 then Zeros(-dot) + s
    else if dot > |s| then ""
    else s[dot..]
  }

  function Fixed(d: Number): string {
    (if d.negative then "-" else "") + IntPart(d) + (if FracPart(d) == "" then "" else "." + FracPart(d))
  }

  function RStripChar(s: string, c: char): (r: string)
    ensures r <= s
  {
    if s != [] && s[|s| - 1] == c then RStripChar(s[..|s| - 1], c) else s
  }

  /** `_plain_number` */
  function Plain(d: Number): Option<string> {
    if !Expandable(d) then None
    else
      var text := Fixed(d);
      var short := if '.' in text then RStripChar(RStripChar(text, '0'), '.') else text;
      Some(if short == "-0" || short == "+0" then "0" else short)
  }

  predicate IsSign(c: char) { c == '+' || c == '-' }

  function LStripSigns(s: string): string {
    if s != [] && IsSign(s[0]) then LStripSigns(s[1..]) else s
  }

  function DotAt(s: string): (n: nat)
    ensures n <= |s| && (n < |s| ==> s[n] == '.') && forall k :: 0 <= k < n ==> s[k] != '.'
  {
    if s == [] || s[0] == '.' then 0 else 1 + DotAt(s[1..])
  }

  /** `_group_number` */
  function GroupNumber(text: string): string {
    var sign := if text != [] && text[0] == '-' then "-" else "";
    var rest := LStripSigns(text);
    var n := DotAt(rest);
    sign + GroupWestern(rest[..n]) + rest[n..]
  }

  /** `format_cell` of a number without a unit; `raw` is `str` of it. */
  function FormatCell(d: Number, raw: string): string {
    match Plain(d)
    case Some(plain) => GroupNumber(plain)
    case None => raw
  }

  // ---------------------------------------------------------------------------
  // Reading a printed number

  /** A number as `value` over a power of ten with `places` digits. */
  datatype Reading = Reading(negative: bool, value: nat, places: nat)

  function Read(text: string): Reading {
    var negative := text != [] && text[0] == '-';
    var rest := if negative then text[1..] else text;
    var n := DotAt(rest);
    if n == |rest| then Reading(negative, Value(rest), 0)
    else Reading(negative, Value(rest[..n] + rest[n + 1..]), |rest| - n - 1)
  }

  function Up(e: int): nat { if e > 0 then e else 0 }

  /** `r` is exactly `d`: `value / 10^places == ±coefficient * 10^exponent`. */
  predicate Exactly(d: Number, r: Reading) {
    && r.negative == (d.negative && d.coefficient != 0)
    && r.value * Pow10(Up(-d.exponent)) == d.coefficient * Pow10(Up(d.exponent)) * Pow10(r.places)
  }

  // ---------------------------------------------------------------------------
  // The parts

  predicate Canonical(s: string) {
    AllDigits(s) && s != [] && (s[0] == '0' ==> s == "0")
  }

  lemma IntPartCanonical(d: Number)
    ensures Canonical(IntPart(d)) && AllDigits(FracPart(d))
  {
    DecimalReads(d.coefficient);
  }

  lemma ZeroText()
    ensures Value("0") == 0 && Pow10(0) == 1 && Decimal(0) == "0"
  {
    assert "0"[..0] == [];
  }

  /** Leading zeros do not count. */
  lemma LeadingZeros(k: nat, s: string)
    ensures Value("0" + (Zeros(k) + s)) == Value(s) && Value("0" + s) == Value(s)
  {
    hide Value, Pow10;
    ZeroText();
    ValueZeros(k);
    ValueConcat("0", Zeros(k) + s);
    ValueConcat(Zeros(k), s);
    ValueConcat("0", s);
  }

  /** Together the two parts spell the coefficient, moved by a non-negative exponent. */
  lemma PartsSpell(d: Number)
    ensures var e := PrintedExponent(d);
            && |FracPart(d)| == Up(-e)
            && Value(IntPart(d) + FracPart(d)) == d.coefficient * Pow10(Up(e))
  {
    hide Value, Pow10, Decimal, Zeros;
    ZeroText();
    var s, dot, e := Digits(d), DotPlace(d), PrintedExponent(d);
    DecimalReads(d.coefficient);
    if dot < 0 {
      LeadingZeros(-dot, s);
    } else if dot > |s| {
      ValueZeros(e);
      ValueConcat(s, Zeros(e));
      assert IntPart(d) + FracPart(d) == s + Zeros(e);
    } else if dot == 0 {
      LeadingZeros(0, s);
      assert s[..0] == "" && s[0..] == s;
    } else {
      assert s[..dot] + s[dot..] == s;
    }
  }

  /** What stripping takes off is zeros. */
  lemma {:induction false} StripTakesZeros(s: string)
    ensures var r := RStripChar(s, '0');
            && s == r + Zeros(|s| - |r|)
            && (r != [] ==> r[|r| - 1] != '0')
    decreases |s|
  {
    if s != [] && s[|s| - 1] == '0' {
      StripTakesZeros(s[..|s| - 1]);
      var r := RStripChar(s, '0');
      assert s == s[..|s| - 1] + "0";
      assert Zeros(|s| - |r|) == Zeros(|s| - |r| - 1) + "0";
    }
  }

  lemma {:induction false} StripBehind(a: string, s: string, c: char)
    requires a != [] && a[|a| - 1] != c
    ensures RStripChar(a + s, c) == a + RStripChar(s, c)
    decreases |s|
  {
    if s == [] {
      assert a + s == a;
    } else if s[|s| - 1] == c {
      StripBehind(a, s[..|s| - 1], c);
      assert (a + s)[..|a + s| - 1] == a + s[..|s| - 1];
    }
  }

  function Stripped(d: Number): string { RStripChar(FracPart(d), '0') }

  function SignOf(d: Number): string { if d.negative && d.coefficient != 0 then "-" else "" }

  function Assembled(sign: string, int_: string, frac: string): string {
    sign + int_ + (if frac == "" then "" else "." + frac)
  }

  lemma StripStops(s: string, c: char)
    ensures s == "" || s[|s| - 1] != c ==> RStripChar(s, c) == s
    ensures RStripChar([c], c) == ""
  {
    assert [c][..0] == "";
  }

  lemma LastChar(a: string, b: string)
    requires b != []
    ensures (a + b)[|a + b| - 1] == b[|b| - 1]
  {
  }

  /** The two strips of the text act on its fraction alone, and take the point with them when nothing
      of the fraction is left. */
  lemma StripsFraction(front: string, frac: string)
    requires front != [] && front[|front| - 1] != '.' && AllDigits(frac) && frac != ""
    ensures RStripChar(RStripChar(front + "." + frac, '0'), '.') ==
            front + (if RStripChar(frac, '0') == "" then "" else "." + RStripChar(frac, '0'))
  {
    hide RStripChar, AllDigits;
    LastChar(front, ".");
    StripBehind(front + ".", frac, '0');
    if RStripChar(frac, '0') == "" {
      StripBehind(front, ".", '.');
      StripStops(".", '.');
      assert front + "." + "" == front + "." && front + "" == front;
    } else {
      PointStays(front, frac);
    }
  }

  lemma PointStays(front: string, frac: string)
    requires AllDigits(frac) && RStripChar(frac, '0') != ""
    ensures RStripChar(front + "." + RStripChar(frac, '0'), '.') == front + ("." + RStripChar(frac, '0'))
  {
    hide RStripChar;
    var r := RStripChar(frac, '0');
    assert r[|r| - 1] == frac[|r| - 1];
    LastChar(front + ".", r);
    StripStops(front + "." + r, '.');
    assert front + ("." + r) == front + "." + r;
  }

  /** The coefficient is zero exactly when every printed digit is. */
  lemma ZeroParts(d: Number)
    ensures d.coefficient == 0 <==> IntPart(d) == "0" && Stripped(d) == ""
  {
    hide Value, Pow10, Decimal, Zeros, IntPart, FracPart, RStripChar, Digits, AllDigits;
    if d.coefficient == 0 {
      ZeroPrints(d);
    }
    PartsSpell(d);
    var i, f := IntPart(d), FracPart(d);
    StripTakesZeros(f);
    ZeroText();
    ValueConcat(i, f);
    ValueZeros(|f|);
    if i == "0" && Stripped(d) == "" {
      assert f == Zeros(|f|) by { assert "" + Zeros(|f|) == Zeros(|f|); }
    }
  }

  lemma ZeroPrints(d: Number)
    requires d.coefficient == 0
    ensures IntPart(d) == "0" && Stripped(d) == ""
  {
    hide Decimal, Zeros, RStripChar;
    ZeroText();
    var dot := DotPlace(d);
    if dot < 0 {
      OneMoreZero(-dot);
      AllZeros(-dot + 1);
    } else if dot == 0 {
      OneMoreZero(0);
      AllZeros(1);
    } else {
      StripStops("", '0');
    }
  }

  lemma OneMoreZero(k: nat)
    ensures Zeros(k + 1) == Zeros(k) + "0" && Zeros(0) == "" && Zeros(1) == "0"
  {
  }

  lemma {:induction false} AllZeros(k: nat)
    ensures RStripChar(Zeros(k), '0') == ""
    decreases k
  {
    if k > 0 {
      AllZeros(k - 1);
      assert Zeros(k)[..k - 1] == Zeros(k - 1);
    }
  }

  /** The printed text, part by part. */
  lemma PlainParts(d: Number)
    requires Expandable(d)
    ensures Plain(d) == Some(Assembled(SignOf(d), IntPart(d), Stripped(d)))
  {
    hide IntPart, FracPart, RStripChar, Digits;
    var i, f := IntPart(d), FracPart(d);
    var sign := if d.negative then "-" else "";
    IntPartCanonical(d);
    ZeroParts(d);
    var text := Fixed(d);
    assert '.' !in sign + i by {
      forall k | 0 <= k < |sign + i| ensures (sign + i)[k] != '.' {
        if k >= |sign| { assert (sign + i)[k] == i[k - |sign|]; }
      }
    }
    var short := if '.' in text then RStripChar(RStripChar(text, '0'), '.') else text;
    if f == "" {
      StripStops("", '0');
      assert text == sign + i;
    } else {
      assert text == sign + i + "." + f;
      assert text[|sign + i|] == '.';
      assert (sign + i)[|sign + i| - 1] == i[|i| - 1];
      StripsFraction(sign + i, f);
    }
    assert short == Assembled(sign, i, Stripped(d));
    ShortZero(sign, i, Stripped(d));
    assert Assembled("", "0", "") == "0";
  }

  lemma ShortZero(sign: string, i: string, f: string)
    requires (sign == "" || sign == "-") && Canonical(i)
    ensures Assembled(sign, i, f) == "-0" <==> sign == "-" && i == "0" && f == ""
    ensures Assembled(sign, i, f) != "+0"
  {
    var t := Assembled(sign, i, f);
    if sign == "-" {
      assert t[1..] == i + (if f == "" then "" else "." + f);
    } else {
      assert t[0] == i[0];
    }
  }
}
