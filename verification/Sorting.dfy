/** A stable sort, as `sorted` and ORDER BY use one. */
module Sorting {

  ghost predicate TotalOrder<T(!new)>(le: (T, T) -> bool) {
    && (forall a, b :: le(a, b) || le(b, a))
    && (forall a, b, c :: le(a, b) && le(b, c) ==> le(a, c))
  }

  ghost predicate Ordered<T>(s: seq<T>, le: (T, T) -> bool) {
    forall i, j :: 0 <= i < j < |s| ==> le(s[i], s[j])
  }

  /** `x` goes in front of the first element it is not above. */
  function Insert<T>(x: T, s: seq<T>, le: (T, T) -> bool): (r: seq<T>)
    ensures |r| == |s| + 1
  {
    if s == [] || le(x, s[0]) then [x] + s else [s[0]] + Insert(x, s[1..], le)
  }

  function Sorted<T>(s: seq<T>, le: (T, T) -> bool): (r: seq<T>)
    ensures |r| == |s|
  {
    if s == [] then [] else Insert(s[0], Sorted(s[1..], le), le)
  }

  lemma {:induction false} InsertHolds<T>(x: T, s: seq<T>, le: (T, T) -> bool)
    ensures multiset(Insert(x, s, le)) == multiset(s) + multiset{x}
    decreases |s|
  {
    if s != [] {
      assert s == [s[0]] + s[1..];
      if !le(x, s[0]) {
        InsertHolds(x, s[1..], le);
      }
    }
  }

  lemma {:induction false} InsertOrdered<T(!new)>(x: T, s: seq<T>, le: (T, T) -> bool)
    requires TotalOrder(le) && Ordered(s, le)
    ensures Ordered(Insert(x, s, le), le)
    decreases |s|
  {
    var r := Insert(x, s, le);
    if s != [] && !le(x, s[0]) {
      InsertOrdered(x, s[1..], le);
      var tail := Insert(x, s[1..], le);
      InsertHolds(x, s[1..], le);
      forall j | 0 <= j < |tail| ensures le(s[0], tail[j]) {
        assert tail[j] in multiset(tail);
        assert tail[j] == x || tail[j] in s[1..];
      }
    } else if s != [] {
      forall j | 0 <= j < |s| ensures le(x, s[j]) {
        assert le(x, s[0]);
        assert j > 0 ==> le(s[0], s[j]);
      }
    }
  }

  /** The sort is a permutation. */
  lemma {:induction false} SortedHolds<T>(s: seq<T>, le: (T, T) -> bool)
    ensures multiset(Sorted(s, le)) == multiset(s)
    decreases |s|
  {
    if s != [] {
      SortedHolds(s[1..], le);
      InsertHolds(s[0], Sorted(s[1..], le), le);
      assert s == [s[0]] + s[1..];
    }
  }

  /** The sort is in order. */
  lemma {:induction false} SortedOrdered<T(!new)>(s: seq<T>, le: (T, T) -> bool)
    requires TotalOrder(le)
    ensures Ordered(Sorted(s, le), le)
    decreases |s|
  {
    if s != [] {
      SortedOrdered(s[1..], le);
      InsertOrdered(s[0], Sorted(s[1..], le), le);
    }
  }

  /** What is in order stays as it is. */
  lemma {:induction false} SortedStays<T>(s: seq<T>, le: (T, T) -> bool)
    requires Ordered(s, le)
    ensures Sorted(s, le) == s
    decreases |s|
  {
    if s != [] {
      SortedStays(s[1..], le);
      assert s == [s[0]] + s[1..];
    }
  }

  function Keep<T>(s: seq<T>, p: T -> bool): seq<T> {
    if s == [] then [] else (if p(s[0]) then [s[0]] else []) + Keep(s[1..], p)
  }

  ghost predicate Alike<T(!new)>(le: (T, T) -> bool, p: T -> bool) {
    forall a, b :: p(a) && p(b) ==> le(a, b)
  }

  lemma KeepCons<T>(x: T, s: seq<T>, p: T -> bool)
    ensures Keep([x] + s, p) == (if p(x) then [x] else []) + Keep(s, p)
  {
    assert ([x] + s)[1..] == s;
  }

  lemma {:induction false} InsertStable<T(!new)>(x: T, s: seq<T>, le: (T, T) -> bool, p: T -> bool)
    requires Alike(le, p)
    ensures Keep(Insert(x, s, le), p) == (if p(x) then [x] else []) + Keep(s, p)
    decreases |s|
  {
    hide Keep;
    if s == [] || le(x, s[0]) {
      KeepCons(x, s, p);
    } else {
      assert !(p(x) && p(s[0]));
      InsertStable(x, s[1..], le, p);
      KeepCons(s[0], Insert(x, s[1..], le), p);
      KeepCons(s[0], s[1..], p);
      assert s == [s[0]] + s[1..];
    }
  }

  /** **The sort is stable**: elements that are all equal to each other keep their order. */
  lemma {:induction false} SortedStable<T(!new)>(s: seq<T>, le: (T, T) -> bool, p: T -> bool)
    requires Alike(le, p)
    ensures Keep(Sorted(s, le), p) == Keep(s, p)
    decreases |s|
  {
    hide Alike;
    if s != [] {
      SortedStable(s[1..], le, p);
      InsertStable(s[0], Sorted(s[1..], le), le, p);
    }
  }
}
