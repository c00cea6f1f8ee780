/** Digit grouping by reversing, chunking and reversing back. */
module DigitGroups {

  function Reversed(s: string): (r: string)
    ensures |r| == |s|
  {
    if s == [] then [] else Reversed(s[1..]) + [s[0]]
  }

  function Chunks(s: string, k: nat): seq<string>
    requires k > 0
  {
    if s == [] then []
    else if |s| <= k then [s]
    else [s[..k]] + Chunks(s[k..], k)
  }

  /** `",".join` */
  function Join(parts: seq<string>): string {
    if parts == [] then []
    else if |parts| == 1 then parts[0]
    else parts[0] + "," + Join(parts[1..])
  }

  function GroupWestern(digits: string): string {
    Reversed(Join(Chunks(Reversed(digits), 3)))
  }

  function GroupIndian(digits: string): string {
    if |digits| <= 3 then digits
    else
      var head, tail := digits[..|digits| - 3], digits[|digits| - 3..];
      Reversed(Join(Chunks(Reversed(head), 2))) + "," + tail
  }

  /** The groups of `k` counted from the right. */
  function RightGroups(s: string, k: nat): (parts: seq<string>)
    requires k > 0
    ensures parts != []
  {
    if |s| <= k then [s] else RightGroups(s[..|s| - k], k) + [s[|s| - k..]]
  }

  function Concat(parts: seq<string>): string {
    if parts == [] then [] else parts[0] + Concat(parts[1..])
  }

  // ---------------------------------------------------------------------------

  lemma {:induction false} ReversedConcat(a: string, b: string)
    ensures Reversed(a + b) == Reversed(b) + Reversed(a)
    decreases |a|
  {
    if a == [] {
      assert a + b == b;
    } else {
      ReversedConcat(a[1..], b);
      assert (a + b)[1..] == a[1..] + b;
      assert Reversed(a + b) == (Reversed(b) + Reversed(a[1..])) + [a[0]];
    }
  }

  lemma {:induction false} ReversedTwice(s: string)
    ensures Reversed(Reversed(s)) == s
    decreases |s|
  {
    if s != [] {
      ReversedTwice(s[1..]);
      ReversedConcat(Reversed(s[1..]), [s[0]]);
      assert Reversed([s[0]]) == [s[0]] by { assert [s[0]][1..] == []; }
    }
  }

  lemma {:induction false} JoinSnoc(parts: seq<string>, last: string)
    requires parts != []
    ensures Join(parts + [last]) == Join(parts) + "," + last
    decreases |parts|
  {
    if |parts| == 1 {
      assert (parts + [last])[1..] == [last];
    } else {
      JoinSnoc(parts[1..], last);
      assert (parts + [last])[1..] == parts[1..] + [last];
      assert Join(parts + [last]) == parts[0] + "," + (Join(parts[1..]) + "," + last);
    }
  }

  lemma ReversedJoin(t: string, rest: string)
    ensures Reversed(t + "," + rest) == Reversed(rest) + "," + Reversed(t)
  {
    hide Reversed;
    ReversedConcat(t + ",", rest);
    ReversedConcat(t, ",");
    ReversedComma();
    assert Reversed(rest) + ("," + Reversed(t)) == Reversed(rest) + "," + Reversed(t);
  }

  lemma ReversedComma()
    ensures Reversed(",") == ","
  {
    assert ","[1..] == [];
  }

  /** **Reversing, chunking, joining and reversing groups from the right.** */
  lemma {:induction false} ChunkingGroupsRight(s: string, k: nat)
    requires k > 0
    ensures Reversed(Join(Chunks(Reversed(s), k))) == Join(RightGroups(s, k))
    decreases |s|
  {
    if |s| <= k {
      ReversedTwice(s);
    } else {
      hide Reversed, Chunks, Join;
      var head, tail := s[..|s| - k], s[|s| - k..];
      assert s == head + tail;
      ReversedConcat(head, tail);
      ReversedJoin(Reversed(tail), Join(Chunks(Reversed(head), k)));
      ReversedTwice(tail);
      ChunkingGroupsRight(head, k);
      JoinSnoc(RightGroups(head, k), tail);
    }
  }

  /** All groups but the first are full, the first is not empty, and together they are the digits. */
  lemma {:induction false} RightGroupsShape(s: string, k: nat)
    requires k > 0
    ensures var parts := RightGroups(s, k);
            && Concat(parts) == s
            && (s != [] ==> 1 <= |parts[0]| <= k)
            && (forall i :: 1 <= i < |parts| ==> |parts[i]| == k)
            && (forall i :: 0 <= i < |parts| ==> forall c :: c in parts[i] ==> c in s)
    decreases |s|
  {
    if |s| > k {
      var head, tail := s[..|s| - k], s[|s| - k..];
      RightGroupsShape(head, k);
      ConcatSnoc(RightGroups(head, k), tail);
      assert s == head + tail;
    } else {
      assert Concat([s][1..]) == [];
    }
  }

  lemma {:induction false} ConcatSnoc(parts: seq<string>, last: string)
    ensures Concat(parts + [last]) == Concat(parts) + last
    decreases |parts|
  {
    if parts == [] {
      assert Concat([last][1..]) == [];
    } else {
      ConcatSnoc(parts[1..], last);
      assert (parts + [last])[1..] == parts[1..] + [last];
      assert Concat(parts + [last]) == parts[0] + (Concat(parts[1..]) + last);
    }
  }

  function NoCommas(s: string): string {
    if s == [] then [] else (if s[0] == ',' then [] else [s[0]]) + NoCommas(s[1..])
  }

  lemma NoCommasStep(s: string)
    ensures NoCommas(s) == if s == [] then [] else (if s[0] == ',' then [] else [s[0]]) + NoCommas(s[1..])
  {
  }

  lemma Grouped(a: string, b: string, c: string)
    ensures a + (b + c) == (a + b) + c
  {
  }

  lemma {:induction false} NoCommasConcat(a: string, b: string)
    ensures NoCommas(a + b) == NoCommas(a) + NoCommas(b)
    decreases |a|
  {
    hide *;
    NoCommasStep(a);
    if a == [] {
      assert a + b == b;
    } else {
      NoCommasConcat(a[1..], b);
      NoCommasStep(a + b);
      assert (a + b)[1..] == a[1..] + b;
      Grouped(if a[0] == ',' then [] else [a[0]], NoCommas(a[1..]), NoCommas(b));
    }
  }

  lemma {:induction false} NoCommasPlain(s: string)
    requires ',' !in s
    ensures NoCommas(s) == s
    decreases |s|
  {
    if s != [] {
      NoCommasPlain(s[1..]);
    }
  }

  lemma CommaGone()
    ensures NoCommas(",") == [] && NoCommas([]) == []
  {
    assert ","[1..] == [];
  }

  lemma {:induction false} NoCommasJoin(parts: seq<string>)
    requires forall i :: 0 <= i < |parts| ==> ',' !in parts[i]
    ensures NoCommas(Join(parts)) == Concat(parts)
    decreases |parts|
  {
    hide NoCommas;
    CommaGone();
    if parts != [] {
      NoCommasPlain(parts[0]);
      if |parts| == 1 {
        assert Concat(parts[1..]) == [];
      } else {
        NoCommasJoin(parts[1..]);
        NoCommasConcat(parts[0] + ",", Join(parts[1..]));
        NoCommasConcat(parts[0], ",");
        assert parts[0] + [] == parts[0];
      }
    }
  }

  /** **Western groups are of three digits**, the first of one to three, and taking the commas out gives
      the digits back. */
  lemma WesternShape(digits: string) returns (parts: seq<string>)
    requires digits != [] && ',' !in digits
    ensures GroupWestern(digits) == Join(parts) && parts != []
    ensures 1 <= |parts[0]| <= 3 && forall i :: 1 <= i < |parts| ==> |parts[i]| == 3
    ensures Concat(parts) == digits && NoCommas(GroupWestern(digits)) == digits
  {
    hide Reversed, Chunks, Join, RightGroups, Concat, NoCommas;
    parts := RightGroups(digits, 3);
    ChunkingGroupsRight(digits, 3);
    RightGroupsShape(digits, 3);
    NoCommasJoin(parts);
  }

  lemma OnePart(s: string)
    ensures Join([s]) == s && Concat([s]) == s
  {
    assert Concat([s][1..]) == [];
  }

  /** **Indian groups are of two digits, the last of three**, and the first of one or two unless it is
      the only one. */
  lemma IndianShape(digits: string) returns (parts: seq<string>)
    requires digits != [] && ',' !in digits
    ensures GroupIndian(digits) == Join(parts) && parts != []
    ensures |parts| == 1 ==> 1 <= |parts[0]| <= 3
    ensures |parts| > 1 ==> 1 <= |parts[0]| <= 2 && |parts[|parts| - 1]| == 3
    ensures forall i :: 1 <= i < |parts| - 1 ==> |parts[i]| == 2
    ensures Concat(parts) == digits && NoCommas(GroupIndian(digits)) == digits
  {
    hide Reversed, Chunks, Join, RightGroups, Concat, NoCommas;
    if |digits| <= 3 {
      parts := [digits];
      NoCommasPlain(digits);
      OnePart(digits);
    } else {
      var head, tail := digits[..|digits| - 3], digits[|digits| - 3..];
      assert digits == head + tail;
      var groups := RightGroups(head, 2);
      ChunkingGroupsRight(head, 2);
      RightGroupsShape(head, 2);
      JoinSnoc(groups, tail);
      ConcatSnoc(groups, tail);
      parts := groups + [tail];
      NoCommasJoin(parts);
    }
  }
}
