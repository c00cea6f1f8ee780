/** What a printed number says: its value, its length and that equal numbers print alike. */
module NumberExact {
  import opened Common
  import opened Numerals
  import opened DigitGroups
  import opened NumberFormat

  predicate Text(sign: string, i: string, f: string) {
    (sign == "" || sign == "-") && Canonical(i) && AllDigits(f)
  }

  /** The text behind the sign, cut at its point. */
  lemma Cut(i: string, f: string)
    requires Canonical(i) && AllDigits(f)
    ensures var rest := i + (if f == "" then "" else "." + f);
            && DotAt(rest) == |i| && rest[..|i|] == i
            && rest[|i|..] == (if f == "" then "" else "." + f)
            && (f != "" ==> rest[|i| + 1..] == f)
            && rest[0] == i[0]
  {
    hide DotAt;
    var rest := i + (if f == "" then "" else "." + f);
    assert forall k :: 0 <= k < |i| ==> rest[k] == i[k] && IsDigit(i[k]);
    if f == "" {
      assert rest == i;
    } else {
      assert rest[|i|] == '.';
    }
  }

  lemma Behind(sign: string, i: string, f: string)
    requires Text(sign, i, f)
    ensures var t := Assembled(sign, i, f);
            var rest := i + (if f == "" then "" else "." + f);
            && t == sign + rest && (sign == "-" ==> t[1..] == rest) && (sign == "" ==> t == rest)
            && rest != "" && IsDigit(rest[0])
  {
    hide LStripSigns, DotAt;
    var rest := i + (if f == "" then "" else "." + f);
    assert rest[0] == i[0] && Assembled(sign, i, f) == sign + rest;
    assert "" + rest == rest && ("-" + rest)[1..] == rest;
  }

  lemma Shape(sign: string, i: string, f: string)
    requires Text(sign, i, f)
    ensures var t := Assembled(sign, i, f);
            var rest := i + (if f == "" then "" else "." + f);
            && t == sign + rest && (sign == "-" <==> t[0] == '-') && (sign == "-" ==> t[1..] == rest)
              && (sign == "" ==> t == rest)
            && LStripSigns(t) == rest
  {
    hide LStripSigns, DotAt, Assembled, Canonical, AllDigits;
    var rest := i + (if f == "" then "" else "." + f);
    Behind(sign, i, f);
    SignsStop(rest);
    SignsStep(Assembled(sign, i, f));
  }

  lemma SignsStep(s: string)
    ensures s != [] && s[0] == '-' ==> LStripSigns(s) == LStripSigns(s[1..])
  {
  }

  lemma SignsStop(s: string)
    requires s != [] && IsDigit(s[0])
    ensures LStripSigns(s) == s
  {
  }

  lemma ReadsBack(sign: string, i: string, f: string)
    requires Text(sign, i, f)
    ensures Read(Assembled(sign, i, f)) == Reading(sign == "-", Value(i + f), |f|)
  {
    hide Value, Canonical, AllDigits, LStripSigns, Assembled, DotAt;
    Shape(sign, i, f);
    Cut(i, f);
    if f == "" {
      assert i + f == i && i + "" == i;
    }
  }

  lemma Grouped(sign: string, i: string, f: string)
    requires Text(sign, i, f)
    ensures GroupNumber(Assembled(sign, i, f)) == sign + GroupWestern(i) + (if f == "" then "" else "." + f)
  {
    hide GroupWestern, Canonical, AllDigits, LStripSigns;
    Shape(sign, i, f);
    Cut(i, f);
  }

  lemma Ungrouped(sign: string, i: string, f: string)
    requires Text(sign, i, f)
    ensures NoCommas(GroupNumber(Assembled(sign, i, f))) == Assembled(sign, i, f)
  {
    Grouped(sign, i, f);
    var tail := if f == "" then "" else "." + f;
    assert ',' !in sign && ',' !in tail;
    hide GroupWestern, NoCommas, AllDigits;
    var parts := WesternShape(i);
    NoCommasConcat(sign + GroupWestern(i), tail);
    NoCommasConcat(sign, GroupWestern(i));
    NoCommasPlain(sign);
    NoCommasPlain(tail);
  }

  // ---------------------------------------------------------------------------
  // The value

  lemma Moved(v: nat, k: nat, c: nat, p: nat)
    requires v * Pow10(k) == c
    ensures v * Pow10(k + p) == c * Pow10(p)
  {
    PowSum(k, p);
    Assoc(v, Pow10(k), Pow10(p));
  }

  lemma Assoc(a: int, b: int, c: int)
    ensures a * (b * c) == (a * b) * c
  {
  }

  lemma StrippedValue(d: Number)
    ensures var f, g := FracPart(d), Stripped(d);
            && AllDigits(g) && |g| <= |f|
            && (g != "" ==> g[|g| - 1] != '0')
            && Value(IntPart(d) + f) == Value(IntPart(d) + g) * Pow10(|f| - |g|)
  {
    hide IntPart, FracPart, Value, Pow10, RStripChar;
    var i, f, g := IntPart(d), FracPart(d), Stripped(d);
    IntPartCanonical(d);
    StripTakesZeros(f);
    assert i + f == (i + g) + Zeros(|f| - |g|);
    ValueConcat(i + g, Zeros(|f| - |g|));
    ValueZeros(|f| - |g|);
  }

  lemma Times1(a: int)
    ensures a * Pow10(0) == a && Pow10(0) == 1
  {
  }

  lemma PartsExact(d: Number)
    ensures Exactly(d, Reading(SignOf(d) == "-", Value(IntPart(d) + Stripped(d)), |Stripped(d)|))
  {
    hide IntPart, FracPart, Value, Pow10, RStripChar, Digits, AllDigits;
    PartsSpell(d);
    StrippedValue(d);
    var v, p, k := Value(IntPart(d) + Stripped(d)), |Stripped(d)|, |FracPart(d)| - |Stripped(d)|;
    var c := d.coefficient;
    Times1(v);
    Times1(c);
    if d.exponent <= 0 {
      assert v * Pow10(k) == c;
      Moved(v, k, c, p);
    } else if c == 0 {
      assert v * Pow10(k) == 0;
    } else {
      assert v == c * Pow10(d.exponent) && p == 0;
      Times1(c * Pow10(d.exponent));
    }
  }

  /** **Taking the commas out of a printed cell and reading it gives back the exact number.** */
  lemma FormatExact(d: Number, raw: string)
    requires Expandable(d)
    ensures Exactly(d, Read(NoCommas(FormatCell(d, raw))))
    ensures FormatCell(d, raw) == SignOf(d) + GroupWestern(IntPart(d))
            + (if Stripped(d) == "" then "" else "." + Stripped(d))
  {
    hide IntPart, FracPart, Value, Pow10, RStripChar, Digits, GroupWestern, NoCommas, GroupNumber, Read, Assembled,
         Exactly, Stripped;
    PlainParts(d);
    IntPartCanonical(d);
    StrippedValue(d);
    Ungrouped(SignOf(d), IntPart(d), Stripped(d));
    Grouped(SignOf(d), IntPart(d), Stripped(d));
    ReadsBack(SignOf(d), IntPart(d), Stripped(d));
    PartsExact(d);
  }

  /** **Which numbers are printed in full**: those whose exponent is at most 400 and whose first digit stands
      at most 400 places behind the point, and they read back exactly; every other cell is the text the
      number came with. */
  lemma PrintedInFullIff(d: Number, raw: string)
    ensures if d.exponent <= 400 && d.exponent + |Decimal(d.coefficient)| - 1 >= -400
            then Exactly(d, Read(NoCommas(FormatCell(d, raw))))
            else FormatCell(d, raw) == raw
  {
    hide Exactly, NoCommas, Read, GroupNumber, Fixed, RStripChar;
    if Expandable(d) {
      FormatExact(d, raw);
    }
  }

  // ---------------------------------------------------------------------------
  // The length

  /** **A coefficient of `n` digits prints in at most `n + 402` characters** before it is grouped. */
  lemma LengthBounded(d: Number)
    requires Expandable(d)
    ensures |Plain(d).value| <= |Digits(d)| + 402
  {
    hide Decimal;
    PlainParts(d);
  }

  /** The bound is reached: a negative number whose last digit is not zero, as small as may be. */
  lemma LengthAttained(coefficient: nat)
    requires coefficient % 10 != 0
    ensures var n := |Decimal(coefficient)|;
            var d := Number(true, coefficient, -399 - n);
            Expandable(d) && |Plain(d).value| == n + 402
  {
    hide RStripChar;
    var n := |Decimal(coefficient)|;
    var d := Number(true, coefficient, -399 - n);
    DecimalReads(coefficient);
    hide Decimal, Zeros;
    var f := FracPart(d);
    assert f == Zeros(399) + Digits(d);
    LastChar(Zeros(399), Digits(d));
    assert f[|f| - 1] != '0';
    StripStops(f, '0');
    PlainParts(d);
  }

  // ---------------------------------------------------------------------------
  // Equal numbers print alike

  /** Two numbers are the same real. */
  predicate SameNumber(a: Number, b: Number) {
    if a.coefficient == 0 || b.coefficient == 0 then a.coefficient == b.coefficient
    else
      a.negative == b.negative
      && a.coefficient * Pow10(Up(a.exponent)) * Pow10(Up(-b.exponent)) ==
         b.coefficient * Pow10(Up(b.exponent)) * Pow10(Up(-a.exponent))
  }

  lemma DigitReads(c: char)
    requires IsDigit(c)
    ensures Digit(DigitValue(c)) == c
    ensures c != '0' ==> DigitValue(c) > 0
  {
  }

  /** One more digit behind the decimal text of a number that is not zero. */
  lemma DecimalSnoc(v: nat, c: char)
    requires v > 0 && IsDigit(c)
    ensures Decimal(10 * v + DigitValue(c)) == Decimal(v) + [c]
  {
    hide Decimal, DigitValue;
    var d := DigitValue(c);
    DecimalStep(10 * v + d);
    DigitReads(c);
    assert (10 * v + d) / 10 == v && (10 * v + d) % 10 == d;
  }

  lemma DecimalDigit(c: char)
    requires IsDigit(c)
    ensures Decimal(DigitValue(c)) == [c]
  {
    DecimalStep(DigitValue(c));
    DigitReads(c);
  }

  lemma {:induction false} PositiveIfNoZero(s: string)
    requires s != [] && AllDigits(s) && s[0] != '0'
    ensures Value(s) > 0
    decreases |s|
  {
    hide Value, DigitValue;
    var n := |s| - 1;
    assert s == s[..n] + [s[n]];
    ValueSnoc(s[..n], s[n]);
    if n > 0 {
      PositiveIfNoZero(s[..n]);
    } else {
      DigitReads(s[n]);
    }
  }

  /** A canonical whole part is the decimal text of its value. */
  lemma {:induction false} CanonicalIs(s: string)
    requires Canonical(s)
    ensures Decimal(Value(s)) == s
    decreases |s|
  {
    hide Value, Decimal, Canonical;
    CanonicalDigits(s);
    var n := |s| - 1;
    var front, c := s[..n], s[n];
    assert s == front + [c];
    ValueSnoc(front, c);
    if front == "" {
      ValueEmpty();
      DecimalDigit(c);
    } else {
      FrontCanonical(s);
      CanonicalIs(front);
      PositiveIfNoZero(front);
      DecimalSnoc(Value(front), c);
    }
  }

  lemma CanonicalDigits(s: string)
    requires Canonical(s)
    ensures s != [] && AllDigits(s)
  {
  }

  lemma FrontCanonical(s: string)
    requires Canonical(s) && |s| > 1
    ensures Canonical(s[..|s| - 1]) && AllDigits(s[..|s| - 1]) && s[..|s| - 1][0] != '0'
  {
  }

  /** Whole part and fraction are told by the value and the number of places. */
  lemma PartsTold(i: string, f: string, j: string, g: string)
    requires Canonical(i) && Canonical(j) && AllDigits(f) && AllDigits(g)
    requires |f| == |g| && Value(i + f) == Value(j + g)
    ensures i == j && f == g
  {
    hide Value, Pow10, Decimal, Canonical;
    ValueConcat(i, f);
    ValueConcat(j, g);
    ValueBound(f);
    ValueBound(g);
    DivMod(Value(i), Value(f), Value(j), Value(g), Pow10(|f|));
    SameLengthSameValue(f, g);
    CanonicalIs(i);
    CanonicalIs(j);
  }

  lemma DivMod(a: nat, r: nat, b: nat, s: nat, p: nat)
    requires a * p + r == b * p + s && r < p && s < p
    ensures a == b && r == s
  {
    Smaller(a - b, p);
  }

  lemma Smaller(k: int, p: int)
    requires p > 0
    ensures -p < k * p < p ==> k == 0
    ensures k * p == 0 <==> k == 0
  {
    if k >= 1 {
      assert k * p >= p;
    } else if k <= -1 {
      assert k * p <= -p;
    }
  }

  /** Two readings of one number whose last place is not zero have equally many places. */
  lemma PlacesTold(v: nat, p: nat, w: nat, q: nat)
    requires v * Pow10(q) == w * Pow10(p)
    requires (p > 0 ==> v % 10 != 0) && (q > 0 ==> w % 10 != 0)
    ensures p == q && v == w
  {
    if p < q {
      Cancel(v, p, w, q);
    } else if q < p {
      Cancel(w, q, v, p);
    } else {
      CancelBoth(v, w, Pow10(p));
    }
  }

  lemma CancelBoth(a: nat, b: nat, p: nat)
    requires a * p == b * p && p > 0
    ensures a == b
  {
    Smaller(a - b, p);
  }

  lemma Cancel(v: nat, p: nat, w: nat, q: nat)
    requires p < q && v * Pow10(q) == w * Pow10(p)
    ensures w % 10 == 0
  {
    PowSum(q - p - 1, p + 1);
    var x := Pow10(q - p - 1);
    assert Pow10(q) == x * Pow10(p + 1);
    Assoc(v, x, Pow10(p + 1));
    Assoc(v * x, 10, Pow10(p));
    assert v * Pow10(q) == (v * x * 10) * Pow10(p);
    CancelBoth(v * x * 10, w, Pow10(p));
  }

  lemma LastPlace(i: string, g: string)
    requires AllDigits(g) && (g != "" ==> g[|g| - 1] != '0')
    ensures |g| > 0 ==> Value(i + g) % 10 != 0
  {
    if g != "" {
      LastChar(i, g);
    }
  }

  lemma ReadingOf(d: Number) returns (v: nat, p: nat)
    ensures v == Value(IntPart(d) + Stripped(d)) && p == |Stripped(d)|
    ensures v * Pow10(Up(-d.exponent)) == d.coefficient * Pow10(Up(d.exponent)) * Pow10(p)
    ensures p > 0 ==> v % 10 != 0
  {
    hide IntPart, Stripped, Value, Pow10;
    v, p := Value(IntPart(d) + Stripped(d)), |Stripped(d)|;
    PartsExact(d);
    StrippedValue(d);
    LastPlace(IntPart(d), Stripped(d));
  }

  /** Readings agree exactly when the numbers do. */
  lemma CrossMultiplied(v: nat, a: nat, ca: nat, p: nat, w: nat, b: nat, cb: nat, q: nat)
    requires v * a == ca * p && w * b == cb * q && a > 0 && b > 0 && p > 0 && q > 0
    ensures v * q == w * p <==> ca * b == cb * a
  {
    if v * q == w * p {
      CancelBoth(ca * b, cb * a, p * q);
    }
    if ca * b == cb * a {
      CancelBoth(v * q, w * p, a * b);
    }
  }

  /** **Numbers print the same text exactly when they are the same number**, however their digits and
      exponents are split. */
  lemma PrintsAlike(a: Number, b: Number)
    requires Expandable(a) && Expandable(b)
    ensures Plain(a) == Plain(b) <==> SameNumber(a, b)
  {
    hide IntPart, Stripped, Value, Pow10, Plain, Expandable;
    var v, p := ReadingOf(a);
    var w, q := ReadingOf(b);
    CrossMultiplied(v, Pow10(Up(-a.exponent)), a.coefficient * Pow10(Up(a.exponent)), Pow10(p),
                    w, Pow10(Up(-b.exponent)), b.coefficient * Pow10(Up(b.exponent)), Pow10(q));
    SameReadings(a, b, v, p, w, q);
  }

  lemma SameReadings(a: Number, b: Number, v: nat, p: nat, w: nat, q: nat)
    requires Expandable(a) && Expandable(b)
    requires v == Value(IntPart(a) + Stripped(a)) && p == |Stripped(a)| && (p > 0 ==> v % 10 != 0)
    requires w == Value(IntPart(b) + Stripped(b)) && q == |Stripped(b)| && (q > 0 ==> w % 10 != 0)
    ensures Plain(a) == Plain(b) <==> SignOf(a) == SignOf(b) && v * Pow10(q) == w * Pow10(p)
  {
    hide IntPart, Stripped, Value, Pow10, Plain, Expandable, Canonical, AllDigits;
    PlainParts(a);
    PlainParts(b);
    IntPartCanonical(a);
    IntPartCanonical(b);
    StrippedValue(a);
    StrippedValue(b);
    ReadsBack(SignOf(a), IntPart(a), Stripped(a));
    ReadsBack(SignOf(b), IntPart(b), Stripped(b));
    if SignOf(a) == SignOf(b) && v * Pow10(q) == w * Pow10(p) {
      PlacesTold(v, p, w, q);
      PartsTold(IntPart(a), Stripped(a), IntPart(b), Stripped(b));
    }
  }
}
