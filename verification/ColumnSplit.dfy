/**
 Splitting a column list at its top-level commas
 (services/project_schema_generator.py).
 */
module ColumnSplit {
  import opened Text

  /** The nesting behind one more character; it never falls below zero. */
  function Nest(depth: nat, c: char): nat {
    if c == '(' then depth + 1 else if c == ')' then (if depth > 0 then depth - 1 else 0) else depth
  }

  function DepthFrom(depth: nat, s: string): nat {
    if s == "" then depth else Nest(DepthFrom(depth, s[..|s|-1]), s[|s|-1])
  }

  function Depth(s: string): nat {
    DepthFrom(0, s)
  }

  predicate CutsAt(s: string, i: int) {
    0 <= i < |s| && s[i] == ',' && Depth(s[..i]) == 0
  }

  /** No comma of `s` stands outside all parentheses. */
  ghost predicate Whole(s: string) {
    forall i | 0 <= i < |s| :: !CutsAt(s, i)
  }

  /** The text between the cuts, with the last stretch at the end. */
  function Segments(s: string): (r: seq<string>)
    ensures r != []
  {
    if s == "" then [""]
    else
      var init, c := s[..|s|-1], s[|s|-1];
      var r := Segments(init);
      if CutsAt(s, |s| - 1) then r + [""] else r[..|r|-1] + [r[|r|-1] + [c]]
  }

  /** Stripped, and without the blank ones. */
  function Pieces(segments: seq<string>): seq<string> {
    if segments == [] then []
    else
      var r, p := Pieces(segments[..|segments|-1]), Strip(segments[|segments|-1]);
      if p != "" then r + [p] else r
  }

  function Split(s: string): seq<string> {
    Pieces(Segments(s))
  }

  method SplitColumnList(raw: string) returns (parts: seq<string>)
    ensures parts == Split(raw)
  {
    parts := [];
    var buffer := "";
    var depth := 0;
    ghost var closed: seq<string> := [];
    for k := 0 to |raw|
      invariant depth == Depth(raw[..k])
      invariant Segments(raw[..k]) == closed + [buffer]
      invariant parts == Pieces(closed)
    {
      var c := raw[k];
      var done := raw[..k+1];
      assert done[..k] == raw[..k] && done[k] == c;
      if c == '(' {
        depth := depth + 1;
      } else if c == ')' {
        depth := if depth - 1 > 0 then depth - 1 else 0;
      }
      if c == ',' && depth == 0 {
        assert CutsAt(done, k);
        var piece := Strip(buffer);
        if piece != "" {
          parts := parts + [piece];
        }
        closed := closed + [buffer];
        buffer := "";
        continue;
      }
      assert !CutsAt(done, k);
      assert (closed + [buffer])[..|closed|] == closed;
      buffer := buffer + [c];
    }
    assert raw[..|raw|] == raw;
    var tail := Strip(buffer);
    if tail != "" {
      parts := parts + [tail];
    }
  }

  // ----- nesting ---------------------------------------------------------------------

  lemma {:induction false} DepthConcat(d: nat, a: string, b: string)
    ensures DepthFrom(d, a + b) == DepthFrom(DepthFrom(d, a), b)
    decreases |b|
  {
    if b == "" {
      assert a + b == a;
    } else {
      assert (a + b)[..|a+b|-1] == a + b[..|b|-1];
      DepthConcat(d, a, b[..|b|-1]);
    }
  }

  /** How many more parentheses are opened than closed. */
  function Surplus(s: string): int {
    if s == "" then 0
    else
      var n, c := Surplus(s[..|s|-1]), s[|s|-1];
      if c == '(' then n + 1 else if c == ')' then n - 1 else n
  }

  lemma SurplusSnoc(s: string, c: char)
    ensures Surplus(s + [c]) == Surplus(s) + if c == '(' then 1 else if c == ')' then -1 else 0
  {
    assert (s + [c])[..|s|] == s;
  }

  /** The nesting is the greatest surplus of any stretch up to here: closing parentheses that open nowhere do not count. */
  lemma {:induction false} DepthIsGreatestSurplus(s: string) returns (i: nat)
    ensures i <= |s| && Depth(s) == Surplus(s[i..])
    ensures forall j | 0 <= j <= |s| :: Surplus(s[j..]) <= Depth(s)
  {
    if s == "" {
      i := 0;
    } else {
      var init, c := s[..|s|-1], s[|s|-1];
      i := DepthIsGreatestSurplus(init);
      forall j | 0 <= j <= |init|
        ensures Surplus(s[j..]) == Surplus(init[j..]) + if c == '(' then 1 else if c == ')' then -1 else 0
      {
        assert s[j..] == init[j..] + [c];
        SurplusSnoc(init[j..], c);
      }
      assert Surplus(s[|s|..]) == 0;
      if c == ')' && Depth(init) == 0 {
        i := |s|;
      }
    }
  }

  /** A cut is a comma before which no stretch opens more parentheses than it closes. */
  lemma CutsOutsideParentheses(s: string, i: int)
    ensures CutsAt(s, i) <==> 0 <= i < |s| && s[i] == ',' && forall j | 0 <= j <= i :: Surplus(s[..i][j..]) <= 0
  {
    if 0 <= i < |s| {
      var k := DepthIsGreatestSurplus(s[..i]);
      assert Surplus(s[..i][i..]) == 0;
    }
  }

  lemma DepthAfterCut(a: string, b: string)
    requires Depth(a) == 0
    ensures Depth(a + "," + b) == Depth(b)
  {
    DepthConcat(0, a + ",", b);
    assert (a + ",")[..|a|] == a;
  }

  /** White space does not nest. */
  lemma {:induction false} DepthOfLStrip(d: nat, s: string)
    ensures DepthFrom(d, LStrip(s)) == DepthFrom(d, s)
    decreases |s|
  {
    if s != "" && IsSpace(s[0]) {
      DepthOfLStrip(d, s[1..]);
      DepthConcat(d, [s[0]], s[1..]);
      assert s == [s[0]] + s[1..];
      assert DepthFrom(d, [s[0]]) == d by { assert [s[0]][..0] == ""; }
    }
  }

  lemma {:induction false} DepthOfRStrip(d: nat, s: string)
    ensures DepthFrom(d, RStrip(s)) == DepthFrom(d, s)
  {
    if s != "" && IsSpace(s[|s|-1]) {
      DepthOfRStrip(d, s[..|s|-1]);
    }
  }

  // ----- what a split is ----------------------------------------------------------------

  /** Joined by commas the segments are the text, no segment holds a cut, and each one but the last closes
      all its parentheses. */
  ghost predicate IsSplit(s: string, segments: seq<string>) {
    && segments != [] && Join(segments, ",") == s
    && AllWhole(segments)
  }

  ghost predicate AllWhole(segments: seq<string>) {
    && (forall k | 0 <= k < |segments| :: Whole(segments[k]))
    && forall k | 0 <= k < |segments| - 1 :: Depth(segments[k]) == 0
  }

  lemma {:induction false} JoinSnoc(parts: seq<string>, last: string)
    ensures Join(parts + [last], ",") == if parts == [] then last else Join(parts, ",") + "," + last
  {
    if |parts| > 0 {
      assert (parts + [last])[1..] == parts[1..] + [last];
      JoinSnoc(parts[1..], last);
      if |parts| == 1 {
        assert parts[1..] == [];
      } else {
        assert parts[0] + "," + (Join(parts[1..], ",") + "," + last) == (parts[0] + "," + Join(parts[1..], ",")) + "," + last;
      }
    }
  }

  lemma WholeGrows(s: string, c: char)
    requires Whole(s) && !(c == ',' && Depth(s) == 0)
    ensures Whole(s + [c])
  {
    var t := s + [c];
    forall i | 0 <= i < |t|
      ensures !CutsAt(t, i)
    {
      if i < |s| {
        assert t[..i] == s[..i];
        assert !CutsAt(s, i);
      } else {
        assert t[..i] == s;
      }
    }
  }

  lemma SplitAfterCut(init: string, r: seq<string>)
    requires IsSplit(init, r) && Depth(r[|r|-1]) == 0
    ensures IsSplit(init + ",", r + [""])
  {
    JoinSnoc(r, "");
    assert Join(r, ",") + "," + "" == init + ",";
    var s := r + [""];
    forall k | 0 <= k < |s|
      ensures Whole(s[k]) && (k < |s| - 1 ==> Depth(s[k]) == 0)
    {
      if k < |r| {
        assert s[k] == r[k];
      }
    }
  }

  lemma SplitExtended(front: seq<string>, last: string, c: char)
    requires AllWhole(front + [last]) && !(c == ',' && Depth(last) == 0)
    ensures IsSplit(Join(front + [last], ",") + [c], front + [last + [c]])
  {
    var r, s := front + [last], front + [last + [c]];
    JoinSnoc(front, last);
    JoinSnoc(front, last + [c]);
    if front != [] {
      assert Join(front, ",") + "," + (last + [c]) == (Join(front, ",") + "," + last) + [c];
    }
    assert Whole(r[|front|]);
    WholeGrows(last, c);
    forall k | 0 <= k < |s|
      ensures Whole(s[k]) && (k < |s| - 1 ==> Depth(s[k]) == 0)
    {
      if k < |front| {
        assert s[k] == r[k];
      }
    }
  }

  /** Cutting at exactly the commas outside parentheses. */
  lemma {:induction false} SegmentsSplit(s: string)
    ensures IsSplit(s, Segments(s))
    ensures Depth(Segments(s)[|Segments(s)|-1]) == Depth(s)
    decreases |s|
  {
    if s == "" {
      assert Join([""], ",") == "";
    } else {
      var init, c := s[..|s|-1], s[|s|-1];
      SegmentsSplit(init);
      var r := Segments(init);
      var front, last := r[..|r|-1], r[|r|-1];
      assert s == init + [c];
      if CutsAt(s, |s| - 1) {
        SplitAfterCut(init, r);
      } else {
        assert r == front + [last];
        SplitExtended(front, last, c);
        assert (last + [c])[..|last|] == last;
      }
    }
  }

  lemma {:induction false} SegmentsOfWhole(s: string)
    requires Whole(s)
    ensures Segments(s) == [s]
    decreases |s|
  {
    if s != "" {
      var init := s[..|s|-1];
      WholeInit(s);
      SegmentsOfWhole(init);
      assert s == init + [s[|s|-1]];
    }
  }

  lemma WholeInit(s: string)
    requires Whole(s) && s != ""
    ensures Whole(s[..|s|-1]) && !CutsAt(s, |s| - 1)
  {
    var init := s[..|s|-1];
    forall i | 0 <= i < |init|
      ensures !CutsAt(init, i)
    {
      assert init[..i] == s[..i];
      assert !CutsAt(s, i);
    }
  }

  lemma {:induction false} SegmentsAfterCut(a: string, b: string)
    requires Depth(a) == 0 && Whole(b)
    ensures Segments(a + "," + b) == Segments(a) + [b]
    decreases |b|
  {
    var s := a + "," + b;
    if b == "" {
      assert s[..|s|-1] == a;
      assert CutsAt(s, |a|);
    } else {
      var init, c := b[..|b|-1], b[|b|-1];
      WholeInit(b);
      SegmentsAfterCut(a, init);
      DepthAfterCut(a, init);
      assert s[..|s|-1] == a + "," + init && s[|s|-1] == c;
      assert CutsAt(s, |s| - 1) <==> CutsAt(b, |b| - 1);
      assert (Segments(a) + [init])[..|Segments(a)|] == Segments(a);
      assert b == init + [c];
    }
  }

  /** There is only one way to split a text. */
  lemma {:induction false} SplitIsUnique(segments: seq<string>)
    requires segments != [] && AllWhole(segments)
    ensures Segments(Join(segments, ",")) == segments
    ensures Depth(Join(segments, ",")) == Depth(segments[|segments|-1])
    decreases |segments|
  {
    var front, last := segments[..|segments|-1], segments[|segments|-1];
    assert segments == front + [last];
    JoinSnoc(front, last);
    if front == [] {
      SegmentsOfWhole(last);
    } else {
      SplitIsUnique(front);
      SegmentsAfterCut(Join(front, ","), last);
      DepthAfterCut(Join(front, ","), last);
    }
  }

  // ----- splitting again -------------------------------------------------------------------

  lemma {:induction false} WholeOfLStrip(s: string)
    requires Whole(s)
    ensures Whole(LStrip(s))
    decreases |s|
  {
    if s != "" && IsSpace(s[0]) {
      var t := s[1..];
      forall i | 0 <= i < |t|
        ensures !CutsAt(t, i)
      {
        assert s[..i+1] == [s[0]] + t[..i];
        DepthConcat(0, [s[0]], t[..i]);
        assert Depth([s[0]]) == 0 by { assert [s[0]][..0] == ""; }
        assert !CutsAt(s, i + 1);
      }
      WholeOfLStrip(t);
    }
  }

  lemma {:induction false} WholeOfRStrip(s: string)
    requires Whole(s)
    ensures Whole(RStrip(s))
    decreases |s|
  {
    if s != "" && IsSpace(s[|s|-1]) {
      var t := s[..|s|-1];
      forall i | 0 <= i < |t|
        ensures !CutsAt(t, i)
      {
        assert t[..i] == s[..i];
        assert !CutsAt(s, i);
      }
      WholeOfRStrip(t);
    }
  }

  lemma StripKeeps(s: string)
    requires Whole(s)
    ensures Whole(Strip(s)) && Depth(Strip(s)) == Depth(s)
  {
    WholeOfLStrip(s);
    WholeOfRStrip(LStrip(s));
    DepthOfLStrip(0, s);
    DepthOfRStrip(0, LStrip(s));
  }

  ghost predicate AllStripped(pieces: seq<string>) {
    forall k | 0 <= k < |pieces| :: pieces[k] != "" && Strip(pieces[k]) == pieces[k]
  }

  lemma {:induction false} PiecesAreWhole(segments: seq<string>)
    requires AllWhole(segments)
    ensures AllWhole(Pieces(segments)) && AllStripped(Pieces(segments))
    ensures (forall k | 0 <= k < |segments| :: Depth(segments[k]) == 0) ==>
              forall k | 0 <= k < |Pieces(segments)| :: Depth(Pieces(segments)[k]) == 0
    decreases |segments|
  {
    if segments != [] {
      var front, last := segments[..|segments|-1], segments[|segments|-1];
      PiecesAreWhole(front);
      StripKeeps(last);
      assert forall k | 0 <= k < |front| :: Depth(front[k]) == 0;
    }
  }

  /** The pieces are the stretches in their order, stripped, but for the blank ones. */
  lemma {:induction false} PiecesJoin(a: seq<string>, b: seq<string>)
    ensures Pieces(a + b) == Pieces(a) + Pieces(b)
  {
    if b == [] {
      assert a + b == a;
    } else {
      PiecesJoin(a, b[..|b|-1]);
      assert (a + b)[..|a+b|-1] == a + b[..|b|-1];
    }
  }

  lemma PiecesOfOne(segment: string)
    ensures Pieces([segment]) == if Strip(segment) != "" then [Strip(segment)] else []
  {
    assert [segment][..0] == [];
  }

  lemma {:induction false} PiecesOfStripped(pieces: seq<string>)
    requires AllStripped(pieces)
    ensures Pieces(pieces) == pieces
  {
    if pieces != [] {
      var init, p := pieces[..|pieces|-1], pieces[|pieces|-1];
      assert p != "" && Strip(p) == p;
      PiecesOfStripped(init);
      assert pieces == init + [p];
    }
  }

  /** Splitting any piece again gives that piece, and nothing else. */
  lemma PieceStaysWhole(s: string, k: nat)
    requires k < |Split(s)|
    ensures Split(Split(s)[k]) == [Split(s)[k]]
  {
    SegmentsSplit(s);
    PiecesAreWhole(Segments(s));
    var p := Split(s)[k];
    SegmentsOfWhole(p);
    PiecesOfStripped([p]);
  }

  /** Splitting the pieces joined by commas gives the same pieces. */
  lemma RejoinedSplitsTheSame(s: string)
    ensures Split(Join(Split(s), ",")) == Split(s)
  {
    SegmentsSplit(s);
    PiecesAreWhole(Segments(s));
    var pieces := Split(s);
    if pieces == [] {
      assert Segments("") == [""];
      assert Strip("") == "";
      assert [""][..0] == [];
    } else {
      SplitIsUnique(pieces);
      PiecesOfStripped(pieces);
    }
  }
}
