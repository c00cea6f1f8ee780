/** UTC instants and the text they are stored and compared as. */
module IsoStamp {
  import opened Numerals

  /** An aware UTC datetime, field by field. */
  datatype Instant = Instant(year: nat, month: nat, day: nat, hour: nat, minute: nat, second: nat, micro: nat) {
    predicate Valid() {
      && year < 10_000 && month < 100 && day < 100 && hour < 100 && minute < 100 && second < 100
      && micro < 1_000_000
    }

    /** Chronological order. */
    predicate Before(that: Instant) {
      if year != that.year then year < that.year
      else if month != that.month then month < that.month
      else if day != that.day then day < that.day
      else if hour != that.hour then hour < that.hour
      else if minute != that.minute then minute < that.minute
      else if second != that.second then second < that.second
      else micro < that.micro
    }
  }

  type Stamp = i: Instant | i.Valid() witness Instant(2000, 1, 1, 0, 0, 0, 0)

  /** `n` in decimal, padded with zeros to `width` digits. */
  function Pad(width: nat, n: nat): (s: string)
    ensures |s| == width
  {
    if width == 0 then [] else Pad(width - 1, n / 10) + [Digit(n % 10)]
  }

  /** `datetime.isoformat()` of an aware UTC instant: the fraction is left out when it is zero. */
  function Iso(i: Instant): string {
    Pad(4, i.year) + "-" + Pad(2, i.month) + "-" + Pad(2, i.day) + "T"
    + Pad(2, i.hour) + ":" + Pad(2, i.minute) + ":" + Pad(2, i.second) + Fraction(i.micro)
  }

  function Fraction(micro: nat): string {
    (if micro == 0 then "" else "." + Pad(6, micro)) + "+00:00"
  }

  /** The order of strings by code point, a prefix first. */
  predicate TextLess(a: string, b: string) {
    if b == [] then false
    else if a == [] then true
    else if a[0] != b[0] then a[0] < b[0]
    else TextLess(a[1..], b[1..])
  }

  /** `expires_at < now`, as SQL and Python compare the stored text. */
  predicate Expired(expires: Stamp, now: Stamp) {
    TextLess(Iso(expires), Iso(now))
  }

  // ---------------------------------------------------------------------------

  lemma {:induction false} LessPrefix(p: string, q: string, x: string, y: string)
    requires |p| == |q|
    ensures TextLess(p + x, q + y) <==> if p == q then TextLess(x, y) else TextLess(p, q)
    decreases |p|
  {
    if p == [] {
      assert p + x == x && q + y == y;
    } else {
      LessPrefix(p[1..], q[1..], x, y);
      assert (p + x)[1..] == p[1..] + x && (q + y)[1..] == q[1..] + y;
      assert p == q <==> p[0] == q[0] && p[1..] == q[1..];
    }
  }

  /** Padded numbers order as numbers, and are equal only when the numbers are. */
  lemma {:induction false} PadOrder(width: nat, m: nat, n: nat)
    requires m < Pow10(width) && n < Pow10(width)
    ensures TextLess(Pad(width, m), Pad(width, n)) <==> m < n
    ensures Pad(width, m) == Pad(width, n) <==> m == n
    decreases width
  {
    if width > 0 {
      PadOrder(width - 1, m / 10, n / 10);
      var p, q := Pad(width - 1, m / 10), Pad(width - 1, n / 10);
      var x, y := [Digit(m % 10)], [Digit(n % 10)];
      LessPrefix(p, q, x, y);
      assert p + x == q + y <==> p == q && x == y by {
        if p + x == q + y {
          assert (p + x)[..|p|] == p && (q + y)[..|q|] == q;
          assert (p + x)[|p|..] == x && (q + y)[|q|..] == y;
        }
      }
    }
  }

  /** Comparing one padded field, then what follows it. */
  lemma FieldOrder(width: nat, m: nat, n: nat, mark: string, x: string, y: string)
    requires m < Pow10(width) && n < Pow10(width)
    ensures TextLess(Pad(width, m) + mark + x, Pad(width, n) + mark + y) <==>
            if m != n then m < n else TextLess(x, y)
  {
    PadOrder(width, m, n);
    assert Pad(width, m) + mark + x == Pad(width, m) + (mark + x);
    assert Pad(width, n) + mark + y == Pad(width, n) + (mark + y);
    LessPrefix(Pad(width, m), Pad(width, n), mark + x, mark + y);
    LessPrefix(mark, mark, x, y);
  }

  /** A missing fraction sorts before every fraction, because `+` sorts before `.`. */
  lemma FractionOrder(m: nat, n: nat)
    requires m < 1_000_000 && n < 1_000_000
    ensures TextLess(Fraction(m), Fraction(n)) <==> m < n
  {
    var zone := "+00:00";
    assert Pow10(6) == 1_000_000 by {
      assert Pow10(3) == 1_000;
      assert Pow10(6) == 10 * (10 * (10 * Pow10(3)));
    }
    if m > 0 && n > 0 {
      PadOrder(6, m, n);
      assert Fraction(m) == "." + (Pad(6, m) + zone);
      assert Fraction(n) == "." + (Pad(6, n) + zone);
      LessPrefix(".", ".", Pad(6, m) + zone, Pad(6, n) + zone);
      LessPrefix(Pad(6, m), Pad(6, n), zone, zone);
      Irreflexive(zone);
    } else if m == 0 && n == 0 {
      Irreflexive(Fraction(0));
    } else {
      assert Fraction(m)[0] == if m == 0 then '+' else '.';
      assert Fraction(n)[0] == if n == 0 then '+' else '.';
    }
  }

  lemma {:induction false} Irreflexive(s: string)
    ensures !TextLess(s, s)
    decreases |s|
  {
    if s != [] {
      Irreflexive(s[1..]);
    }
  }

  function Tail2(i: Instant): string { Pad(2, i.second) + "" + Fraction(i.micro) }
  function Tail3(i: Instant): string { Pad(2, i.minute) + ":" + Tail2(i) }
  function Tail4(i: Instant): string { Pad(2, i.hour) + ":" + Tail3(i) }
  function Tail5(i: Instant): string { Pad(2, i.day) + "T" + Tail4(i) }
  function Tail6(i: Instant): string { Pad(2, i.month) + "-" + Tail5(i) }

  lemma IsoNested(i: Instant)
    ensures Iso(i) == Pad(4, i.year) + "-" + Tail6(i)
  {
  }

  /** **The stored text orders as time does**, with a fraction or without one. */
  lemma IsoOrder(a: Stamp, b: Stamp)
    ensures TextLess(Iso(a), Iso(b)) <==> a.Before(b)
  {
    assert Pow10(2) == 100 && Pow10(4) == 10_000 by {
      assert Pow10(4) == 10 * (10 * Pow10(2));
    }
    hide Pad, Fraction, TextLess, Pow10;
    IsoNested(a);
    IsoNested(b);
    FractionOrder(a.micro, b.micro);
    FieldOrder(2, a.second, b.second, "", Fraction(a.micro), Fraction(b.micro));
    FieldOrder(2, a.minute, b.minute, ":", Tail2(a), Tail2(b));
    FieldOrder(2, a.hour, b.hour, ":", Tail3(a), Tail3(b));
    FieldOrder(2, a.day, b.day, "T", Tail4(a), Tail4(b));
    FieldOrder(2, a.month, b.month, "-", Tail5(a), Tail5(b));
    FieldOrder(4, a.year, b.year, "-", Tail6(a), Tail6(b));
  }

  /** So "expired" means what it says, and stays true as the clock moves on. */
  lemma ExpiredIsPast(expires: Stamp, now: Stamp, later: Stamp)
    ensures Expired(expires, now) <==> expires.Before(now)
    ensures Expired(expires, now) && !later.Before(now) ==> Expired(expires, later)
  {
    IsoOrder(expires, now);
    IsoOrder(expires, later);
  }

  // ---------------------------------------------------------------------------
  // Text order

  predicate TextLe(a: string, b: string) {
    a == b || TextLess(a, b)
  }

  lemma {:induction false} TextTransitive(a: string, b: string, c: string)
    requires TextLe(a, b) && TextLe(b, c)
    ensures TextLe(a, c)
    decreases |a|
  {
    if a != b && b != c && a != [] {
      if a[0] == b[0] == c[0] {
        assert a == [a[0]] + a[1..] && b == [b[0]] + b[1..] && c == [c[0]] + c[1..];
        TextTransitive(a[1..], b[1..], c[1..]);
      }
    }
  }

  lemma {:induction false} TextTotal(a: string, b: string)
    ensures TextLe(a, b) || TextLe(b, a)
    decreases |a|
  {
    if a != [] && b != [] && a[0] == b[0] {
      TextTotal(a[1..], b[1..]);
      assert a == [a[0]] + a[1..] && b == [b[0]] + b[1..];
    }
  }
}
