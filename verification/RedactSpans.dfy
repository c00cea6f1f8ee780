/** Redacting spans of a line: sort, merge, and splice from the back. */
module RedactSpans {
  import opened Sorting

  const REDACTED: string := "<redacted>"

  type Span = (int, int)

  predicate SpanLe(a: Span, b: Span) {
    a.0 < b.0 || (a.0 == b.0 && a.1 <= b.1)
  }

  predicate Covered(spans: seq<Span>, p: int) {
    exists i :: 0 <= i < |spans| && spans[i].0 <= p < spans[i].1
  }

  /** The line read from left to right: one marker for every maximal block of covered positions, and
      every other character as it is. */
  function Redacted(line: string, spans: seq<Span>, from: nat): string
    requires from <= |line|
    decreases |line| - from
  {
    if from == |line| then []
    else if !Covered(spans, from) then [line[from]] + Redacted(line, spans, from + 1)
    else if from > 0 && Covered(spans, from - 1) then Redacted(line, spans, from + 1)
    else REDACTED + Redacted(line, spans, from + 1)
  }

  function NonEmpty(spans: seq<Span>): seq<Span> {
    if spans == [] then []
    else (if spans[0].1 > spans[0].0 then [spans[0]] else []) + NonEmpty(spans[1..])
  }

  predicate InRange(line: string, spans: seq<Span>) {
    forall i :: 0 <= i < |spans| && spans[i].0 < spans[i].1 ==> 0 <= spans[i].0 && spans[i].1 <= |line|
  }

  /** Non-empty spans in the line, apart from each other and in order. */
  predicate Apart(line: string, spans: seq<Span>) {
    && (forall i :: 0 <= i < |spans| ==> 0 <= spans[i].0 < spans[i].1 <= |line|)
    && (forall i, j :: 0 <= i < j < |spans| ==> spans[i].1 < spans[j].0)
  }

  // ---------------------------------------------------------------------------
  // Coverage

  lemma {:induction false} NonEmptyHolds(spans: seq<Span>, s: Span)
    ensures s in NonEmpty(spans) <==> s in spans && s.1 > s.0
    decreases |spans|
  {
    if spans != [] {
      NonEmptyHolds(spans[1..], s);
      assert spans == [spans[0]] + spans[1..];
    }
  }

  lemma SameCover(a: seq<Span>, b: seq<Span>, p: int)
    requires forall s :: s in b && s.1 > s.0 ==> s in a
    ensures Covered(b, p) ==> Covered(a, p)
  {
    if Covered(b, p) {
      var i :| 0 <= i < |b| && b[i].0 <= p < b[i].1;
      var j :| 0 <= j < |a| && a[j] == b[i];
    }
  }

  /** Sorting and dropping empty spans cover the same positions. */
  lemma SortedCovers(spans: seq<Span>, r: seq<Span>, p: int)
    requires r == Sorted(NonEmpty(spans), (a, b) => SpanLe(a, b))
    ensures Covered(r, p) <==> Covered(spans, p)
    ensures forall s :: s in r ==> s in spans && s.1 > s.0
    ensures forall i, j :: 0 <= i < j < |r| ==> r[i].0 <= r[j].0
  {
    var le := (a, b) => SpanLe(a, b);
    SortedHolds(NonEmpty(spans), le);
    SortedOrdered(NonEmpty(spans), le);
    forall i, j | 0 <= i < j < |r| ensures r[i].0 <= r[j].0 {
      assert le(r[i], r[j]);
    }
    forall s ensures s in r <==> s in spans && s.1 > s.0 {
      assert s in r <==> s in multiset(r);
      assert s in NonEmpty(spans) <==> s in multiset(NonEmpty(spans));
      NonEmptyHolds(spans, s);
    }
    SameCover(spans, r, p);
    SameCover(r, spans, p);
  }

  // ---------------------------------------------------------------------------
  // Reading a stretch

  lemma {:induction false} PlainStretch(line: string, spans: seq<Span>, a: nat, b: nat)
    requires a <= b <= |line| && forall p :: a <= p < b ==> !Covered(spans, p)
    ensures Redacted(line, spans, a) == line[a..b] + Redacted(line, spans, b)
    decreases b - a
  {
    hide Covered;
    if a < b {
      PlainStretch(line, spans, a + 1, b);
    } else {
      assert line[a..b] == [];
    }
  }

  lemma {:induction false} BlockTail(line: string, spans: seq<Span>, a: nat, b: nat)
    requires 0 < a <= b <= |line| && forall p :: a - 1 <= p < b ==> Covered(spans, p)
    ensures Redacted(line, spans, a) == Redacted(line, spans, b)
    decreases b - a
  {
    hide Covered;
    if a < b {
      BlockTail(line, spans, a + 1, b);
    }
  }

  /** A maximal block reads as one marker. */
  lemma BlockStretch(line: string, spans: seq<Span>, a: nat, b: nat)
    requires a < b <= |line| && (forall p :: a <= p < b ==> Covered(spans, p)) && !Covered(spans, a - 1)
    ensures Redacted(line, spans, a) == REDACTED + Redacted(line, spans, b)
  {
    hide Covered;
    BlockTail(line, spans, a + 1, b);
  }

  /** Between two neighbouring spans of a merged list nothing is covered, and each is one block. */
  lemma ApartCovers(line: string, spans: seq<Span>, k: nat)
    requires Apart(line, spans) && k < |spans|
    ensures forall p :: spans[k].0 <= p < spans[k].1 ==> Covered(spans, p)
    ensures !Covered(spans, spans[k].0 - 1)
    ensures forall p :: spans[k].1 <= p < (if k + 1 < |spans| then spans[k + 1].0 else |line|) ==> !Covered(spans, p)
  {
  }

  lemma {:induction false} CoverOnly(line: string, a: seq<Span>, b: seq<Span>, from: nat)
    requires from <= |line| && forall p :: Covered(a, p) <==> Covered(b, p)
    ensures Redacted(line, a, from) == Redacted(line, b, from)
    decreases |line| - from
  {
    hide Covered;
    if from < |line| {
      CoverOnly(line, a, b, from + 1);
    }
  }

  // ---------------------------------------------------------------------------
  // The method

  method Merge(line: string, sorted: seq<Span>) returns (merged: seq<Span>)
    requires forall i :: 0 <= i < |sorted| ==> 0 <= sorted[i].0 < sorted[i].1 <= |line|
    requires forall i, j :: 0 <= i < j < |sorted| ==> sorted[i].0 <= sorted[j].0
    ensures Apart(line, merged)
    ensures forall p :: Covered(merged, p) <==> Covered(sorted, p)
  {
    hide Covered;
    merged := [];
    var i := 0;
    while i < |sorted|
      invariant 0 <= i <= |sorted|
      invariant Apart(line, merged)
      invariant merged != [] ==> forall j :: i <= j < |sorted| ==> merged[|merged| - 1].0 <= sorted[j].0
      invariant forall p :: Covered(merged, p) <==> Covered(sorted[..i], p)
    {
      var s, e := sorted[i].0, sorted[i].1;
      ghost var before := merged;
      if merged != [] && s <= merged[|merged| - 1].1 {
        var last := merged[|merged| - 1];
        merged := merged[|merged| - 1 := (last.0, if last.1 < e then e else last.1)];
        CoverExtended(before, merged, sorted[i]);
      } else {
        merged := merged + [(s, e)];
        CoverAppended(before, (s, e));
      }
      CoverAppended(sorted[..i], sorted[i]);
      assert sorted[..i + 1] == sorted[..i] + [sorted[i]];
      i := i + 1;
    }
    assert sorted[..|sorted|] == sorted;
  }

  lemma CoverAppended(spans: seq<Span>, s: Span)
    ensures forall p :: Covered(spans + [s], p) <==> Covered(spans, p) || s.0 <= p < s.1
  {
    forall p ensures Covered(spans + [s], p) <==> Covered(spans, p) || s.0 <= p < s.1 {
      assert (spans + [s])[|spans|] == s;
      if Covered(spans, p) {
        var i :| 0 <= i < |spans| && spans[i].0 <= p < spans[i].1;
        assert (spans + [s])[i] == spans[i];
      }
    }
  }

  /** Widening the last span to reach the end of one that starts inside or right behind it. */
  lemma CoverExtended(a: seq<Span>, b: seq<Span>, s: Span)
    requires a != [] && a[|a| - 1].0 <= s.0 <= a[|a| - 1].1 && s.0 < s.1
    requires b == a[|a| - 1 := (a[|a| - 1].0, if a[|a| - 1].1 < s.1 then s.1 else a[|a| - 1].1)]
    ensures forall p :: Covered(b, p) <==> Covered(a, p) || s.0 <= p < s.1
  {
    hide Covered;
    var front, last := a[..|a| - 1], a[|a| - 1];
    assert a == front + [last] && b == front + [b[|a| - 1]];
    CoverAppended(front, last);
    CoverAppended(front, b[|a| - 1]);
  }

  /** **Sorting, merging and splicing from the back equals reading from the left**, for spans in any
      order, overlapping or touching or empty. */
  method Redact(line: string, spans: seq<Span>) returns (r: string)
    requires InRange(line, spans)
    ensures r == Redacted(line, spans, 0)
  {
    hide Covered, Redacted, Sorted, NonEmpty;
    var sorted := Sorted(NonEmpty(spans), (a, b) => SpanLe(a, b));
    forall p ensures Covered(sorted, p) <==> Covered(spans, p) { SortedCovers(spans, sorted, p); }
    SortedCovers(spans, sorted, 0);
    forall i | 0 <= i < |sorted| ensures 0 <= sorted[i].0 < sorted[i].1 <= |line| {
      assert sorted[i] in sorted;
    }
    var merged := Merge(line, sorted);
    r := line;
    LineRead(line, merged);
    var k := |merged|;
    ghost var edge: nat := |line|;
    while k > 0
      invariant 0 <= k <= |merged|
      invariant edge == if k < |merged| then merged[k].0 else |line|
      invariant r == line[..edge] + Redacted(line, merged, edge)
    {
      k := k - 1;
      var s, e := merged[k].0, merged[k].1;
      ApartCovers(line, merged, k);
      PlainStretch(line, merged, e, edge);
      BlockStretch(line, merged, s, e);
      assert r[..s] == line[..s];
      assert r[e..] == line[e..edge] + Redacted(line, merged, edge);
      r := r[..s] + REDACTED + r[e..];
      edge := s;
    }
    StartPlain(line, merged);
    PlainStretch(line, merged, 0, edge);
    CoverOnly(line, merged, spans, 0);
  }

  lemma LineRead(line: string, spans: seq<Span>)
    ensures Redacted(line, spans, |line|) == []
  {
  }

  lemma StartPlain(line: string, spans: seq<Span>)
    requires Apart(line, spans)
    ensures forall p :: 0 <= p < (if |spans| > 0 then spans[0].0 else |line|) ==> !Covered(spans, p)
  {
  }

  // ---------------------------------------------------------------------------
  // What the reading keeps

  /** **Nothing under a span survives**: two lines that differ only there are redacted alike. */
  lemma {:induction false} HidesSpans(a: string, b: string, spans: seq<Span>, from: nat)
    requires |a| == |b| && from <= |a|
    requires forall p :: 0 <= p < |a| && !Covered(spans, p) ==> a[p] == b[p]
    ensures Redacted(a, spans, from) == Redacted(b, spans, from)
    decreases |a| - from
  {
    hide Covered;
    if from < |a| {
      HidesSpans(a, b, spans, from + 1);
    }
  }
}
