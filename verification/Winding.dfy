/** Winding of the facet outlines: the shoelace sum, and reversing outlines that run the other way round. */
module Winding {
  import opened Geometry

  function Cross(a: Pt, b: Pt): real { a.x * b.y - b.x * a.y }

  /** The cross products of the first `i` pairs of neighbours, without the pair that closes the polygon. */
  function Open(pts: seq<Pt>, i: nat): real
    requires i == 0 || i < |pts|
  {
    if i == 0 then 0.0 else Open(pts, i - 1) + Cross(pts[i - 1], pts[i])
  }

  /** Half the shoelace sum; its sign tells which way round the outline runs. */
  function SignedArea(pts: seq<Pt>): real {
    if pts == [] then 0.0 else (Open(pts, |pts| - 1) + Cross(pts[|pts| - 1], pts[0])) / 2.0
  }

  function Reversed(pts: seq<Pt>): seq<Pt> {
    seq(|pts|, i requires 0 <= i < |pts| => pts[|pts| - 1 - i])
  }

  /** `signed_area`: the loop over all edges, the closing one included. */
  method ComputeSignedArea(pts: seq<Pt>) returns (area: real)
    ensures area == SignedArea(pts)
  {
    var s := 0.0;
    for i := 0 to |pts|
      invariant i < |pts| ==> s == Open(pts, i)
      invariant i == |pts| ==> s / 2.0 == SignedArea(pts)
    {
      WrapsAround(i, |pts|);
      var a := pts[i];
      var b := pts[(i + 1) % |pts|];
      s := s + (a.x * b.y - b.x * a.y);
      assert i + 1 < |pts| ==> s == Open(pts, i + 1);
    }
    area := s / 2.0;
  }

  // ---------- what area it is ----------

  lemma OpenOf(pts: seq<Pt>)
    ensures |pts| >= 1 ==> Open(pts, 0) == 0.0
    ensures |pts| >= 2 ==> Open(pts, 1) == Cross(pts[0], pts[1])
    ensures |pts| >= 3 ==> Open(pts, 2) == Cross(pts[0], pts[1]) + Cross(pts[1], pts[2])
    ensures |pts| >= 4 ==> Open(pts, 3) == Cross(pts[0], pts[1]) + Cross(pts[1], pts[2]) + Cross(pts[2], pts[3])
  {
    if |pts| >= 4 {
      assert Open(pts, 3) == Open(pts, 2) + Cross(pts[2], pts[3]);
    }
    if |pts| >= 3 {
      assert Open(pts, 2) == Open(pts, 1) + Cross(pts[1], pts[2]);
    }
  }

  /** A triangle's area is half the cross product of two of its sides. */
  lemma TriangleArea(a: Pt, b: Pt, c: Pt, pts: seq<Pt>)
    requires pts == [a, b, c]
    ensures 2.0 * SignedArea(pts) == (b.x - a.x) * (c.y - a.y) - (c.x - a.x) * (b.y - a.y)
  {
    OpenOf(pts);
  }

  /** A rectangle's is its width times its height, if it runs along the width first. */
  lemma RectangleArea(x0: real, y0: real, x1: real, y1: real, pts: seq<Pt>)
    requires pts == [Pt(x0, y0), Pt(x1, y0), Pt(x1, y1), Pt(x0, y1)]
    ensures SignedArea(pts) == (x1 - x0) * (y1 - y0)
  {
    OpenOf(pts);
  }

  lemma {:induction false} OpenPrefix(pts: seq<Pt>, front: seq<Pt>, i: nat)
    requires front <= pts && i < |front|
    ensures Open(front, i) == Open(pts, i)
  {
    if i > 0 {
      OpenPrefix(pts, front, i - 1);
    }
  }

  lemma {:induction false} OpenSuffix(pts: seq<Pt>, rest: seq<Pt>, k: nat, j: nat)
    requires k + j < |pts| && rest == [pts[0]] + pts[k..]
    ensures Open(rest, j + 1) == Cross(pts[0], pts[k]) + Open(pts, k + j) - Open(pts, k)
  {
    if j > 0 {
      OpenSuffix(pts, rest, k, j - 1);
      assert rest[j] == pts[k + j - 1] && rest[j + 1] == pts[k + j];
    } else {
      OpenOf(rest);
    }
  }

  /** Cutting an outline in two along a line between two of its corners shares its area out. */
  lemma AreasAdd(pts: seq<Pt>, k: nat)
    requires k < |pts|
    ensures SignedArea(pts) == SignedArea(pts[..k + 1]) + SignedArea([pts[0]] + pts[k..])
  {
    var front, rest := pts[..k + 1], [pts[0]] + pts[k..];
    OpenPrefix(pts, front, k);
    OpenSuffix(pts, rest, k, |pts| - 1 - k);
    CrossSwapped(pts[0], pts[k]);
    assert rest[|rest| - 1] == pts[|pts| - 1];
  }

  // ---------- reversal ----------

  lemma {:induction false} OpenReversed(pts: seq<Pt>, i: nat)
    requires pts != [] && (i == 0 || i < |pts|)
    ensures Open(Reversed(pts), i) == Open(pts, |pts| - 1 - i) - Open(pts, |pts| - 1)
    decreases i
  {
    if i > 0 {
      var k := |pts| - 1 - i;
      OpenReversed(pts, i - 1);
      assert Reversed(pts)[i - 1] == pts[k + 1] && Reversed(pts)[i] == pts[k];
    }
  }

  /** Running an outline backwards negates its area. */
  lemma ReversalNegatesArea(pts: seq<Pt>)
    ensures SignedArea(Reversed(pts)) == -SignedArea(pts)
  {
    if pts != [] {
      OpenReversed(pts, |pts| - 1);
    }
  }

  // ---------- normalisation ----------

  /** The sign the source compares; like the floating-point one it has no zero. */
  function Signum(x: real): real { if x < 0.0 then -1.0 else 1.0 }

  method ReverseInPlace(a: array<Pt>)
    modifies a
    ensures a[..] == Reversed(old(a[..]))
  {
    var i, n := 0, a.Length;
    while i < n / 2
      invariant 0 <= i <= n / 2
      invariant forall k :: 0 <= k < i ==> a[k] == old(a[n - 1 - k]) && a[n - 1 - k] == old(a[k])
      invariant forall k :: i <= k < n - i ==> a[k] == old(a[k])
    {
      a[i], a[n - 1 - i] := a[n - 1 - i], a[i];
      i := i + 1;
    }
  }

  /** What normalisation leaves of an outline. */
  function Oriented(pts: seq<Pt>, targetSign: real): seq<Pt> {
    if Signum(SignedArea(pts)) != Signum(targetSign) then Reversed(pts) else pts
  }

  method Orient(a: array<Pt>, targetSign: real)
    modifies a
    ensures a[..] == Oriented(old(a[..]), targetSign)
  {
    var area := ComputeSignedArea(a[..]);
    if Signum(area) != Signum(targetSign) {
      ReverseInPlace(a);
    }
  }

  /**
   After normalisation an outline runs the target's way round, or has no area to tell; it keeps the size of its
   area, and normalising again changes nothing.
   */
  lemma OrientedRunsTheTargetWay(pts: seq<Pt>, targetSign: real)
    ensures var r := Oriented(pts, targetSign);
            && (SignedArea(r) != 0.0 ==> Signum(SignedArea(r)) == Signum(targetSign))
            && (SignedArea(r) == SignedArea(pts) || SignedArea(r) == -SignedArea(pts))
            && (SignedArea(pts) != 0.0 ==> Oriented(r, targetSign) == r)
  {
    ReversalNegatesArea(pts);
  }

  /** The one outline normalisation would flip for ever: no area, and a target that runs the negative way. */
  lemma OrientedIsStable(pts: seq<Pt>, targetSign: real)
    ensures Oriented(Oriented(pts, targetSign), targetSign) == Oriented(pts, targetSign)
       <==> SignedArea(pts) != 0.0 || targetSign >= 0.0 || Reversed(pts) == pts
  {
    ReversalNegatesArea(pts);
  }

  /** A line there and back is such an outline: it is turned round every time. */
  lemma LineIsTurnedAgain(a: Pt, b: Pt)
    requires a != b
    ensures SignedArea([a, b]) == 0.0 && Oriented(Oriented([a, b], -1.0), -1.0) != Oriented([a, b], -1.0)
  {
    var line := [a, b];
    LineHasNoArea(line);
    assert Reversed(line)[0] == b;
    OrientedIsStable(line, -1.0);
  }

  lemma LineHasNoArea(line: seq<Pt>)
    requires |line| == 2
    ensures SignedArea(line) == 0.0
  {
    assert Open(line, 1) == Open(line, 0) + Cross(line[0], line[1]);
    CrossSwapped(line[0], line[1]);
  }

  lemma CrossSwapped(a: Pt, b: Pt)
    ensures Cross(b, a) == -Cross(a, b)
  {}
}
