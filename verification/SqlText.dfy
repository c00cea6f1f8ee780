/** Characters, substrings and word runs: the text vocabulary shared by the SQL guard. */
module SqlText {
  import opened Common

  /** What `str.isalnum` and `str.isspace` answer. The Unicode tables themselves are not modelled:
      every result holds for any pair of tables that agrees with the few ASCII facts in `Lawful`. */
  datatype CharTable = CharTable(alnum: char -> bool, space: char -> bool) {

    /** The regex class `\w`. */
    predicate Word(c: char) {
      alnum(c) || c == '_'
    }

    ghost predicate Lawful() {
      && space(' ') && space('\r') && space('\n')
      && !space('_')
      && (forall c :: alnum(c) ==> !space(c))
      && (forall c :: c in PUNCTUATION ==> !alnum(c) && !space(c))
    }
  }

  const PUNCTUATION: string := "#'\"$-/*;.("

  type Alphabet = t: CharTable | t.Lawful()
    witness CharTable(c => 'a' <= c <= 'z', c => c == ' ' || c == '\r' || c == '\n')

  predicate StartsWith(s: string, c: char) {
    s != [] && s[0] == c
  }

  predicate Opens(s: string, a: char, b: char) {
    |s| >= 2 && s[0] == a && s[1] == b
  }

  predicate EndsWord(al: Alphabet, s: string) {
    s != [] && al.Word(s[|s| - 1])
  }

  predicate StartsWord(al: Alphabet, s: string) {
    s != [] && al.Word(s[0])
  }

  // ---------------------------------------------------------------------------
  // Substrings
  // ---------------------------------------------------------------------------

  /** `pat` stands at position `k` of `s`. */
  predicate At(s: string, pat: string, k: nat) {
    k + |pat| <= |s| && s[k..k + |pat|] == pat
  }

  lemma AtTail(s: string, pat: string, k: nat)
    requires s != [] && 0 < k
    ensures At(s, pat, k) <==> At(s[1..], pat, k - 1)
  {
    if k + |pat| <= |s| {
      assert s[k..k + |pat|] == s[1..][k - 1..k - 1 + |pat|];
    }
  }

  /** `str.find` for a non-empty pattern: the first place it stands. */
  function Find(s: string, pat: string): (r: Option<nat>)
    requires pat != []
    ensures r.Some? ==> At(s, pat, r.value)
    ensures r.Some? ==> forall k: nat :: k < r.value ==> !At(s, pat, k)
    ensures r.None? ==> forall k: nat :: !At(s, pat, k)
  {
    if |s| < |pat| then None
    else if s[..|pat|] == pat then Some(0)
    else
      var r := Find(s[1..], pat);
      assert forall k: nat :: 0 < k ==> (At(s, pat, k) <==> At(s[1..], pat, k - 1)) by {
        forall k: nat | 0 < k
          ensures At(s, pat, k) <==> At(s[1..], pat, k - 1)
        {
          AtTail(s, pat, k);
        }
      }
      match r
      case None => None
      case Some(k) => Some(k + 1)
  }

  lemma FindIsFirst(s: string, pat: string, k: nat)
    requires pat != []
    requires At(s, pat, k)
    requires forall j: nat :: j < k ==> !At(s, pat, j)
    ensures Find(s, pat) == Some(k)
  {
    var r := Find(s, pat);
    assert r.Some?;
  }

  // ---------------------------------------------------------------------------
  // Whitespace
  // ---------------------------------------------------------------------------

  /** How many leading characters `lstrip` removes. */
  function Lead(al: Alphabet, s: string): (n: nat)
    ensures n <= |s|
    ensures forall k :: 0 <= k < n ==> al.space(s[k])
    ensures n < |s| ==> !al.space(s[n])
  {
    if s == [] || !al.space(s[0]) then 0 else 1 + Lead(al, s[1..])
  }

  /** Where the text ends once `rstrip` has removed its trailing whitespace. */
  function Tail(al: Alphabet, s: string): (n: nat)
    ensures n <= |s|
    ensures forall k :: n <= k < |s| ==> al.space(s[k])
    ensures n > 0 ==> !al.space(s[n - 1])
  {
    if s == [] || !al.space(s[|s| - 1]) then |s| else Tail(al, s[..|s| - 1])
  }

  function LStrip(al: Alphabet, s: string): string { s[Lead(al, s)..] }

  function RStrip(al: Alphabet, s: string): string { s[..Tail(al, s)] }

  function Strip(al: Alphabet, s: string): string { RStrip(al, LStrip(al, s)) }

  /** `s` with every whitespace character removed. */
  function Squeeze(al: Alphabet, s: string): string {
    if s == [] then []
    else if al.space(s[0]) then Squeeze(al, s[1..])
    else [s[0]] + Squeeze(al, s[1..])
  }

  lemma {:induction false} SqueezeConcat(al: Alphabet, a: string, b: string)
    ensures Squeeze(al, a + b) == Squeeze(al, a) + Squeeze(al, b)
  {
    if a == [] {
      assert a + b == b;
    } else {
      SqueezeConcat(al, a[1..], b);
      assert (a + b)[1..] == a[1..] + b;
    }
  }

  lemma {:induction false} SqueezeBlank(al: Alphabet, s: string)
    requires forall k :: 0 <= k < |s| ==> al.space(s[k])
    ensures Squeeze(al, s) == []
  {
    if s != [] {
      SqueezeBlank(al, s[1..]);
    }
  }

  lemma SqueezeLStrip(al: Alphabet, s: string)
    ensures Squeeze(al, LStrip(al, s)) == Squeeze(al, s)
  {
    var n := Lead(al, s);
    SqueezeBlank(al, s[..n]);
    SqueezeConcat(al, s[..n], s[n..]);
    assert s == s[..n] + s[n..];
  }

  lemma SqueezeRStrip(al: Alphabet, s: string)
    ensures Squeeze(al, RStrip(al, s)) == Squeeze(al, s)
  {
    var n := Tail(al, s);
    SqueezeBlank(al, s[n..]);
    SqueezeConcat(al, s[..n], s[n..]);
    assert s == s[..n] + s[n..];
  }

  lemma SqueezeStrip(al: Alphabet, s: string)
    ensures Squeeze(al, Strip(al, s)) == Squeeze(al, s)
  {
    SqueezeLStrip(al, s);
    SqueezeRStrip(al, LStrip(al, s));
  }

  // ---------------------------------------------------------------------------
  // Word runs: what a pattern anchored with `\b` on both sides can match
  // ---------------------------------------------------------------------------

  /** The number of word characters `s` opens with. */
  function RunLength(al: Alphabet, s: string): (n: nat)
    ensures n <= |s|
    ensures forall k :: 0 <= k < n ==> al.Word(s[k])
    ensures n < |s| ==> !al.Word(s[n])
  {
    if s == [] || !al.Word(s[0]) then 0 else 1 + RunLength(al, s[1..])
  }

  lemma RunLengthIs(al: Alphabet, s: string, n: nat)
    requires n <= |s|
    requires forall k :: 0 <= k < n ==> al.Word(s[k])
    requires n < |s| ==> !al.Word(s[n])
    ensures RunLength(al, s) == n
  {
    var m := RunLength(al, s);
  }

  /** The maximal runs of word characters of `s`, left to right. */
  function Runs(al: Alphabet, s: string): seq<string> {
    if s == [] then []
    else if !al.Word(s[0]) then Runs(al, s[1..])
    else
      var n := RunLength(al, s);
      [s[..n]] + Runs(al, s[n..])
  }

  /** Joining two texts adds no run and loses none, as long as the seam does not weld two words. */
  lemma RunsStep(al: Alphabet, s: string)
    ensures Runs(al, s) ==
            if s == [] then []
            else if !al.Word(s[0]) then Runs(al, s[1..])
            else [s[..RunLength(al, s)]] + Runs(al, s[RunLength(al, s)..])
  {
  }

  lemma {:induction false} RunsConcat(al: Alphabet, a: string, b: string)
    requires !(EndsWord(al, a) && StartsWord(al, b))
    ensures Runs(al, a + b) == Runs(al, a) + Runs(al, b)
    decreases |a|
  {
    hide Runs, RunLength;
    RunsStep(al, a);
    RunsStep(al, a + b);
    if a == [] {
      assert a + b == b;
    } else if !al.Word(a[0]) {
      RunsConcat(al, a[1..], b);
      assert (a + b)[1..] == a[1..] + b;
    } else {
      var n := RunLength(al, a);
      assert n > 0;
      assert forall k :: 0 <= k < n ==> (a + b)[k] == a[k];
      assert n == |a| ==> al.Word(a[n - 1]);
      RunLengthIs(al, a + b, n);
      assert (a + b)[..n] == a[..n];
      assert (a + b)[n..] == a[n..] + b;
      RunsConcat(al, a[n..], b);
    }
  }

  lemma {:induction false} RunsBlank(al: Alphabet, s: string)
    requires forall k :: 0 <= k < |s| ==> !al.Word(s[k])
    ensures Runs(al, s) == []
  {
    if s != [] {
      RunsBlank(al, s[1..]);
    }
  }

  lemma SpaceIsNoWord(al: Alphabet, s: string)
    requires forall k :: 0 <= k < |s| ==> al.space(s[k])
    ensures forall k :: 0 <= k < |s| ==> !al.Word(s[k])
  {
  }

  lemma RunsLStrip(al: Alphabet, s: string)
    ensures Runs(al, LStrip(al, s)) == Runs(al, s)
  {
    var n := Lead(al, s);
    SpaceIsNoWord(al, s[..n]);
    RunsBlank(al, s[..n]);
    RunsConcat(al, s[..n], s[n..]);
    assert s == s[..n] + s[n..];
  }

  lemma RunsRStrip(al: Alphabet, s: string)
    ensures Runs(al, RStrip(al, s)) == Runs(al, s)
  {
    var n := Tail(al, s);
    SpaceIsNoWord(al, s[n..]);
    RunsBlank(al, s[n..]);
    RunsConcat(al, s[..n], s[n..]);
    assert s == s[..n] + s[n..];
  }

  lemma RunsStrip(al: Alphabet, s: string)
    ensures Runs(al, Strip(al, s)) == Runs(al, s)
  {
    RunsLStrip(al, s);
    RunsRStrip(al, LStrip(al, s));
  }

  /** `s[a..b]` is a maximal run of word characters of `s`. */
  ghost predicate MaximalRun(al: Alphabet, s: string, a: nat, b: nat) {
    && a < b <= |s|
    && (forall k :: a <= k < b ==> al.Word(s[k]))
    && (a > 0 ==> !al.Word(s[a - 1]))
    && (b < |s| ==> !al.Word(s[b]))
  }

  lemma RunMovesRight(al: Alphabet, s: string, n: nat, a: nat, b: nat)
    requires 0 < n <= |s|
    requires n < |s| ==> !(al.Word(s[n - 1]) && al.Word(s[n]))
    requires MaximalRun(al, s[n..], a, b)
    ensures MaximalRun(al, s, n + a, n + b)
    ensures s[n + a..n + b] == s[n..][a..b]
  {
    assert forall k :: n + a <= k < n + b ==> s[k] == s[n..][k - n];
  }

  lemma RunMovesLeft(al: Alphabet, s: string, n: nat, a: nat, b: nat)
    requires n <= a
    requires MaximalRun(al, s, a, b)
    ensures MaximalRun(al, s[n..], a - n, b - n)
    ensures s[a..b] == s[n..][a - n..b - n]
  {
    hide Lead, Tail, RunLength, Runs;
    var t := s[n..];
    forall k | a - n <= k < b - n ensures al.Word(t[k]) {
      assert t[k] == s[n + k];
    }
    assert a > n ==> t[a - n - 1] == s[a - 1];
    assert b < |s| ==> t[b - n] == s[b];
    SliceMoves(s, n, a, b);
  }

  lemma SliceMoves(s: string, n: nat, a: nat, b: nat)
    requires n <= a <= b <= |s|
    ensures s[a..b] == s[n..][a - n..b - n]
  {
  }

  lemma {:induction false} RunIsListed(al: Alphabet, s: string, a: nat, b: nat)
    requires MaximalRun(al, s, a, b)
    ensures s[a..b] in Runs(al, s)
    decreases |s|
  {
    hide Runs;
    RunsStep(al, s);
    if !al.Word(s[0]) {
      RunMovesLeft(al, s, 1, a, b);
      RunIsListed(al, s[1..], a - 1, b - 1);
      assert s[1..][a - 1..b - 1] == s[a..b];
    } else if a == 0 {
      RunLengthIs(al, s, b);
    } else {
      var n := RunLength(al, s);
      RunMovesLeft(al, s, n, a, b);
      RunIsListed(al, s[n..], a - n, b - n);
      assert s[n..][a - n..b - n] == s[a..b];
    }
  }

  lemma {:induction false} ListedIsRun(al: Alphabet, s: string, w: string) returns (a: nat, b: nat)
    requires w in Runs(al, s)
    ensures MaximalRun(al, s, a, b) && s[a..b] == w
    decreases |s|
  {
    var n := if al.Word(s[0]) then RunLength(al, s) else 1;
    if al.Word(s[0]) && s[..n] == w {
      a, b := 0, n;
    } else {
      var a', b' := ListedIsRun(al, s[n..], w);
      RunMovesRight(al, s, n, a', b');
      a, b := n + a', n + b';
    }
  }

  /** `Runs` lists exactly the maximal runs. */
  lemma RunsAreMaximal(al: Alphabet, s: string, w: string)
    ensures w in Runs(al, s) <==> exists a: nat, b: nat :: MaximalRun(al, s, a, b) && s[a..b] == w
  {
    if w in Runs(al, s) {
      var a, b := ListedIsRun(al, s, w);
    }
    if a: nat, b: nat :| MaximalRun(al, s, a, b) && s[a..b] == w {
      RunIsListed(al, s, a, b);
    }
  }
}
