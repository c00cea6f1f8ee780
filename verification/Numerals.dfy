/** Decimal digit strings and the numbers they stand for. */
module Numerals {

  predicate IsDigit(c: char) { '0' <= c <= '9' }

  predicate AllDigits(s: string) {
    forall k :: 0 <= k < |s| ==> IsDigit(s[k])
  }

  function Digit(n: nat): (c: char)
    requires n < 10
    ensures IsDigit(c)
  {
    '0' + (n as char)
  }

  function DigitValue(c: char): (n: nat)
    ensures n < 10
  {
    if IsDigit(c) then (c - '0') as nat else 0
  }

  function Decimal(n: nat): (s: string)
    ensures s != []
  {
    if n < 10 then [Digit(n)] else Decimal(n / 10) + [Digit(n % 10)]
  }

  lemma DecimalStep(n: nat)
    ensures Decimal(n) == if n < 10 then [Digit(n)] else Decimal(n / 10) + [Digit(n % 10)]
  {
  }

  function Value(s: string): nat {
    if s == [] then 0 else 10 * Value(s[..|s| - 1]) + DigitValue(s[|s| - 1])
  }

  function Pow10(k: nat): (p: nat)
    ensures p > 0
  {
    if k == 0 then 1 else 10 * Pow10(k - 1)
  }

  function Zeros(k: nat): (s: string)
    ensures |s| == k && AllDigits(s) && forall i :: 0 <= i < k ==> s[i] == '0'
  {
    if k == 0 then [] else Zeros(k - 1) + "0"
  }

  /** A number reads back from its digits, which are digits with no needless leading zero. */
  lemma {:induction false} DecimalReads(n: nat)
    ensures Value(Decimal(n)) == n && AllDigits(Decimal(n))
    ensures Decimal(n)[0] == '0' ==> n == 0
    ensures n == 0 ==> Decimal(n) == "0"
    ensures DigitValue(Decimal(n)[|Decimal(n)| - 1]) == n % 10
    decreases n
  {
    if n >= 10 {
      DecimalReads(n / 10);
      var front := Decimal(n / 10);
      assert Decimal(n)[..|front|] == front;
    } else {
      assert Decimal(n)[..0] == [];
    }
  }

  lemma {:induction false} PowSum(a: nat, b: nat)
    ensures Pow10(a + b) == Pow10(a) * Pow10(b)
    decreases b
  {
    if b > 0 {
      PowSum(a, b - 1);
      assert Pow10(a + b) == 10 * (Pow10(a) * Pow10(b - 1));
    }
  }

  /** Reading two strings one after the other. */
  lemma {:induction false} ValueConcat(a: string, b: string)
    ensures Value(a + b) == Value(a) * Pow10(|b|) + Value(b)
    decreases |b|
  {
    hide Value, IsDigit;
    if b == [] {
      assert a + b == a;
      ValueEmpty();
    } else {
      var c := b[..|b| - 1];
      ValueConcat(a, c);
      ValueSnoc(a + c, b[|b| - 1]);
      ValueSnoc(c, b[|b| - 1]);
      assert a + b == a + c + [b[|b| - 1]] && b == c + [b[|b| - 1]];
    }
  }

  lemma ValueEmpty()
    ensures Value([]) == 0
  {
  }

  lemma ValueSnoc(s: string, c: char)
    ensures Value(s + [c]) == 10 * Value(s) + DigitValue(c)
  {
    assert (s + [c])[..|s|] == s;
  }

  lemma {:induction false} ValueZeros(k: nat)
    ensures Value(Zeros(k)) == 0
    decreases k
  {
    if k > 0 {
      ValueZeros(k - 1);
      assert Zeros(k)[..k - 1] == Zeros(k - 1);
    }
  }

  lemma {:induction false} ValueBound(s: string)
    ensures Value(s) < Pow10(|s|)
    decreases |s|
  {
    if s != [] {
      ValueBound(s[..|s| - 1]);
    }
  }

  /** Digit strings of one length are told apart by their value. */
  lemma {:induction false} SameLengthSameValue(a: string, b: string)
    requires |a| == |b| && AllDigits(a) && AllDigits(b) && Value(a) == Value(b)
    ensures a == b
    decreases |a|
  {
    hide Value, Decimal, Pow10;
    if a != [] {
      var n := |a| - 1;
      var x, y := a[..n], b[..n];
      assert a == x + [a[n]] && b == y + [b[n]];
      ValueSnoc(x, a[n]);
      ValueSnoc(y, b[n]);
      assert DigitValue(a[n]) == DigitValue(b[n]);
      SameLengthSameValue(x, y);
    }
  }
}
