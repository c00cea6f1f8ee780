/** The fingerprint: the single-spaced text of the analysis copy's pieces. */
module SqlShapes {
  import opened Common
  import opened SqlText
  import opened SqlLexer
  import opened SqlGrammar
  import opened Neutralizer
  import opened SqlGates
  import opened SqlVerdicts

  /** `pieces` are the maximal stretches of `s` without whitespace, in order. */
  ghost predicate Splits(al: Alphabet, s: string, pieces: seq<string>)
    decreases |pieces|
  {
    if pieces == [] then AllSpace(al, s)
    else exists a: nat, b: nat ::
      && a < b <= |s| && AllSpace(al, s[..a]) && NoSpace(al, s[a..b]) && pieces[0] == s[a..b]
      && (b < |s| ==> al.space(s[b]))
      && Splits(al, s[b..], pieces[1..])
  }

  /** One plain space between pieces, and none around them. */
  ghost predicate SingleSpaced(al: Alphabet, s: string) {
    && s != "" && !al.space(s[0]) && !al.space(s[|s| - 1])
    && forall k :: 0 <= k < |s| - 1 && al.space(s[k]) ==> s[k] == ' ' && !al.space(s[k + 1])
  }

  ghost predicate Solid(al: Alphabet, pieces: seq<string>) {
    forall i :: 0 <= i < |pieces| ==> pieces[i] != "" && NoSpace(al, pieces[i])
  }

  lemma PiecesStep(al: Alphabet, s: string)
    ensures Pieces(al, s) ==
            if s == [] then []
            else if al.space(s[0]) then Pieces(al, s[1..])
            else [s[..PieceLength(al, s)]] + Pieces(al, s[PieceLength(al, s)..])
  {
  }

  lemma {:induction false} PieceLengthIs(al: Alphabet, s: string, n: nat)
    requires n <= |s| && NoSpace(al, s[..n]) && (n < |s| ==> al.space(s[n]))
    ensures PieceLength(al, s) == n
    decreases |s|
  {
    if n > 0 {
      assert s[..n][0] == s[0];
      var head := s[1..][..n - 1];
      forall k | 0 <= k < n - 1 ensures !al.space(head[k]) {
        assert head[k] == s[..n][k + 1];
      }
      PieceLengthIs(al, s[1..], n - 1);
    }
  }

  lemma {:induction false} PieceLengthCovers(al: Alphabet, s: string)
    ensures var n := PieceLength(al, s); NoSpace(al, s[..n]) && (n < |s| ==> al.space(s[n]))
    decreases |s|
  {
    if s != [] && !al.space(s[0]) {
      PieceLengthCovers(al, s[1..]);
      var n := PieceLength(al, s);
      forall k | 0 <= k < n ensures !al.space(s[..n][k]) {
        if k > 0 {
          assert s[..n][k] == s[1..][..n - 1][k - 1];
        }
      }
    }
  }

  lemma {:induction false} PiecesSkip(al: Alphabet, s: string, a: nat)
    requires a <= |s| && AllSpace(al, s[..a])
    ensures Pieces(al, s) == Pieces(al, s[a..])
    decreases a
  {
    hide Pieces;
    PiecesStep(al, s);
    if a == 0 {
      assert s[0..] == s;
    } else {
      assert s[..a][0] == s[0];
      var head := s[1..][..a - 1];
      forall k | 0 <= k < a - 1 ensures al.space(head[k]) {
        assert head[k] == s[..a][k + 1];
      }
      PiecesSkip(al, s[1..], a - 1);
      assert s[1..][a - 1..] == s[a..];
    }
  }

  lemma PiecesHead(al: Alphabet, s: string, b: nat)
    requires 0 < b <= |s| && NoSpace(al, s[..b]) && (b < |s| ==> al.space(s[b]))
    ensures Pieces(al, s) == [s[..b]] + Pieces(al, s[b..])
  {
    hide Pieces, PieceLength;
    PiecesStep(al, s);
    assert s[..b][0] == s[0];
    PieceLengthIs(al, s, b);
  }

  lemma AtPiece(al: Alphabet, s: string, a: nat, b: nat)
    requires a < b <= |s| && AllSpace(al, s[..a]) && NoSpace(al, s[a..b]) && (b < |s| ==> al.space(s[b]))
    ensures Pieces(al, s) == [s[a..b]] + Pieces(al, s[b..])
  {
    hide Pieces, AllSpace, NoSpace;
    PiecesSkip(al, s, a);
    var t := s[a..];
    assert t[..b - a] == s[a..b] && t[b - a..] == s[b..];
    PiecesHead(al, t, b - a);
  }

  lemma {:induction false} BlankHasNone(al: Alphabet, s: string)
    ensures Pieces(al, s) == [] <==> AllSpace(al, s)
    decreases |s|
  {
    if s != [] {
      BlankHasNone(al, s[1..]);
      if AllSpace(al, s[1..]) && al.space(s[0]) {
        forall k | 0 <= k < |s| ensures al.space(s[k]) {
          if k > 0 {
            assert s[k] == s[1..][k - 1];
          }
        }
      }
      if AllSpace(al, s) {
        forall k | 0 <= k < |s[1..]| ensures al.space(s[1..][k]) {
          assert s[1..][k] == s[k + 1];
        }
      }
    }
  }

  /** Where the first piece of a text stands. */
  lemma FirstPiece(al: Alphabet, s: string) returns (a: nat, b: nat)
    requires Pieces(al, s) != []
    ensures a < b <= |s| && AllSpace(al, s[..a]) && NoSpace(al, s[a..b]) && (b < |s| ==> al.space(s[b]))
    ensures Pieces(al, s) == [s[a..b]] + Pieces(al, s[b..])
  {
    hide Pieces, PieceLength;
    BlankHasNone(al, s);
    a := Lead(al, s);
    var t := s[a..];
    LeadBlank(al, s);
    PieceLengthCovers(al, t);
    SomePiece(al, t);
    b := a + PieceLength(al, t);
    assert t[..b - a] == s[a..b];
    assert b < |s| ==> s[b] == t[b - a];
    AtPiece(al, s, a, b);
  }

  lemma LeadBlank(al: Alphabet, s: string)
    requires !AllSpace(al, s)
    ensures Lead(al, s) < |s| && AllSpace(al, s[..Lead(al, s)]) && !al.space(s[Lead(al, s)])
  {
  }

  lemma SomePiece(al: Alphabet, t: string)
    requires t != [] && !al.space(t[0])
    ensures PieceLength(al, t) > 0
  {
  }

  lemma {:induction false} SplitsIff(al: Alphabet, s: string, pieces: seq<string>)
    ensures Splits(al, s, pieces) <==> pieces == Pieces(al, s)
    decreases |pieces|
  {
    hide Pieces, AllSpace, NoSpace;
    BlankHasNone(al, s);
    if pieces != [] {
      if Splits(al, s, pieces) {
        var a: nat, b: nat :|
          && a < b <= |s| && AllSpace(al, s[..a]) && NoSpace(al, s[a..b]) && pieces[0] == s[a..b]
          && (b < |s| ==> al.space(s[b]))
          && Splits(al, s[b..], pieces[1..]);
        SplitsIff(al, s[b..], pieces[1..]);
        AtPiece(al, s, a, b);
      }
      if pieces == Pieces(al, s) {
        var a, b := FirstPiece(al, s);
        SplitsIff(al, s[b..], pieces[1..]);
      }
    }
  }

  lemma {:induction false} PiecesSolid(al: Alphabet, s: string)
    ensures Solid(al, Pieces(al, s))
    decreases |s|
  {
    hide Pieces, AllSpace;
    if Pieces(al, s) != [] {
      var a, b := FirstPiece(al, s);
      PiecesSolid(al, s[b..]);
    }
  }

  lemma JoinStep(pieces: seq<string>)
    ensures JoinWithSpaces(pieces) ==
            if pieces == [] then [] else if |pieces| == 1 then pieces[0]
              else pieces[0] + " " + JoinWithSpaces(pieces[1..])
  {
  }

  /** The joined text is single-spaced and splits into the pieces it was joined from. */
  lemma {:induction false} JoinedSplits(al: Alphabet, pieces: seq<string>)
    requires pieces != [] && Solid(al, pieces)
    ensures SingleSpaced(al, JoinWithSpaces(pieces)) && Pieces(al, JoinWithSpaces(pieces)) == pieces
    decreases |pieces|
  {
    hide Pieces, JoinWithSpaces;
    JoinStep(pieces);
    var w := pieces[0];
    if |pieces| == 1 {
      assert w[..|w|] == w;
      PiecesHead(al, w, |w|);
      BlankHasNone(al, []);
      assert w[|w|..] == [];
    } else {
      var rest := JoinWithSpaces(pieces[1..]);
      JoinedSplits(al, pieces[1..]);
      var s := w + " " + rest;
      assert s[..|w|] == w && s[|w|..] == " " + rest && (" " + rest)[1..] == rest;
      PiecesHead(al, s, |w|);
      assert (" " + rest)[..1] == " ";
      PiecesSkip(al, " " + rest, 1);
      OneSpace(al, w, rest);
    }
  }

  lemma OneSpace(al: Alphabet, w: string, rest: string)
    requires w != "" && NoSpace(al, w) && SingleSpaced(al, rest)
    ensures SingleSpaced(al, w + " " + rest)
  {
    var s := w + " " + rest;
    assert s[|s| - 1] == rest[|rest| - 1];
    assert forall j :: 0 <= j < |w| ==> s[j] == w[j];
    forall k | 0 <= k < |s| - 1 && al.space(s[k]) ensures s[k] == ' ' && !al.space(s[k + 1]) {
      if k == |w| {
        assert s[k + 1] == rest[0];
      } else if k > |w| {
        assert s[k] == rest[k - |w| - 1] && s[k + 1] == rest[k - |w|];
      }
    }
  }

  /** A single-spaced text is the join of its pieces. */
  lemma {:induction false} SingleSpacedJoins(al: Alphabet, s: string)
    requires SingleSpaced(al, s)
    ensures JoinWithSpaces(Pieces(al, s)) == s && Pieces(al, s) != []
    decreases |s|
  {
    hide Pieces, JoinWithSpaces, PieceLength;
    SomePiece(al, s);
    PieceLengthCovers(al, s);
    var b := PieceLength(al, s);
    PiecesHead(al, s, b);
    JoinStep(Pieces(al, s));
    if b == |s| {
      assert s[b..] == [];
      BlankHasNone(al, []);
    } else {
      var rest := s[b + 1..];
      assert s[b] == ' ' && !al.space(s[b + 1]);
      assert s[b..][..1] == [s[b]] && s[b..][1..] == rest;
      PiecesSkip(al, s[b..], 1);
      TailSingleSpaced(al, s, b + 1);
      SingleSpacedJoins(al, rest);
      assert s == s[..b] + " " + rest;
    }
  }

  lemma TailSingleSpaced(al: Alphabet, s: string, n: nat)
    requires SingleSpaced(al, s) && n < |s| && !al.space(s[n])
    ensures SingleSpaced(al, s[n..])
  {
    var t := s[n..];
    assert t[|t| - 1] == s[|s| - 1];
    forall k | 0 <= k < |t| - 1 && al.space(t[k]) ensures t[k] == ' ' && !al.space(t[k + 1]) {
      assert t[k] == s[n + k] && t[k + 1] == s[n + k + 1];
    }
  }

  /** **A fingerprint is the single-spaced text with the pieces of the statement's copy**, less a final
      `;`; there is none exactly for a statement that is blank, has no reading, or shows nothing. */
  lemma FingerprintIff(al: Alphabet, sql: string, shape: string)
    ensures Fingerprint(al, Some(sql)) == Some(shape) <==>
            && !AllSpace(al, sql) && SingleSpaced(al, shape)
            && exists segs, pieces ::
                 ReadsAs(al, sql, segs)
                 && Splits(al, WithoutFinal(CopyOf(al, segs)), pieces) && Splits(al, shape, pieces)
    ensures Fingerprint(al, None) == None
  {
    hide AllSpace, ReadsAs, Missing, Neutralize, CopyOf, SingleSpaced, Pieces, JoinWithSpaces, Splits, WithoutFinal,
         Fingerprint;
    MissingIffBlank(al, sql);
    NoneMissing(al);
    ReadableDone(al, sql);
    FingerprintIs(al, sql, shape);
    if Neutralize(al, sql).Done? {
      var segs := DoneReads(al, sql);
      forall other | ReadsAs(al, sql, other) ensures other == segs {
        ReadIff(al, sql, other);
        ReadIff(al, sql, segs);
      }
      var body := WithoutFinal(CopyOf(al, segs));
      ShapeOf(al, body, shape);
      forall pieces
        ensures Splits(al, body, pieces) <==> pieces == Pieces(al, body)
        ensures Splits(al, shape, pieces) <==> pieces == Pieces(al, shape)
      {
        SplitsIff(al, body, pieces);
        SplitsIff(al, shape, pieces);
      }
      assert Splits(al, body, Pieces(al, body));
      assert Splits(al, shape, Pieces(al, body)) <==> Pieces(al, body) == Pieces(al, shape);
      assert Neutralize(al, sql).value.text == CopyOf(al, segs);
    }
  }

  lemma FingerprintIs(al: Alphabet, sql: string, shape: string)
    ensures Fingerprint(al, Some(sql)) == Some(shape) <==>
            && !Missing(al, Some(sql)) && Neutralize(al, sql).Done? && shape != ""
            && shape == JoinWithSpaces(Pieces(al, WithoutFinal(Neutralize(al, sql).value.text)))
    ensures Missing(al, None) ==> Fingerprint(al, None) == None
  {
    hide Missing, Neutralize, JoinWithSpaces, Pieces;
  }

  lemma ShapeOf(al: Alphabet, body: string, shape: string)
    ensures JoinWithSpaces(Pieces(al, body)) == shape && shape != "" <==>
            SingleSpaced(al, shape) && Pieces(al, shape) == Pieces(al, body)
  {
    hide Pieces, JoinWithSpaces, NoSpace;
    PiecesSolid(al, body);
    JoinStep(Pieces(al, body));
    if Pieces(al, body) != [] {
      JoinedSplits(al, Pieces(al, body));
    }
    if SingleSpaced(al, shape) {
      SingleSpacedJoins(al, shape);
    }
  }
}
