/** `resample`: points evenly spaced by arc length along a closed polygon, found with one moving cursor. */
module Resample {
  import opened Geometry
  import opened Distance

  type Hypot = (real, real) -> real

  // ---------- arc length ----------

  /** The vertex after the `i`-th; after the last one comes the first again. */
  function After(pts: seq<Pt>, i: nat): Pt
    requires i < |pts|
  {
    if i + 1 == |pts| then pts[0] else pts[i + 1]
  }

  function Seg(hypot: Hypot, pts: seq<Pt>, i: nat): real
    requires i < |pts|
  {
    Dist(hypot, pts[i], After(pts, i))
  }

  /** The length of the first `i` edges. */
  function Walked(hypot: Hypot, pts: seq<Pt>, i: nat): real
    requires i <= |pts|
  {
    if i == 0 then 0.0 else Walked(hypot, pts, i - 1) + Seg(hypot, pts, i - 1)
  }

  function Perimeter(hypot: Hypot, pts: seq<Pt>): real { Walked(hypot, pts, |pts|) }

  /** `q` is a fraction `f` along the `i`-th edge, and the walk to it has length `s`. */
  ghost predicate OnEdge(hypot: Hypot, pts: seq<Pt>, s: real, q: Pt, i: nat, f: real) {
    && i < |pts|
    && 0.0 <= f <= 1.0
    && q == Lerp(pts[i], After(pts, i), f)
    && s == Walked(hypot, pts, i) + f * Seg(hypot, pts, i)
  }

  /** `q` is the point of the polygon at arc length `s` from the first vertex. */
  ghost predicate AtArc(hypot: Hypot, pts: seq<Pt>, s: real, q: Pt) {
    exists i: nat, f: real :: OnEdge(hypot, pts, s, q, i, f)
  }

  /** The arc length of the `j`-th of `n` samples. */
  function ArcOf(total: real, n: nat, j: nat): real
    requires n > 0
  {
    j as real * (total / n as real)
  }

  /** Walked lengths add up edge by edge, and an edge's is that of the straight line to the next vertex. */
  lemma EdgesAre(hypot: Hypot, pts: seq<Pt>, i: nat, a: Pt, b: Pt, d: real)
    requires IsHypot(hypot) && i < |pts| && a == pts[i] && b == pts[if i + 1 == |pts| then 0 else i + 1]
    requires d == Walked(hypot, pts, i + 1) - Walked(hypot, pts, i)
    ensures Walked(hypot, pts, 0) == 0.0
    ensures d >= 0.0 && d * d == (b.x - a.x) * (b.x - a.x) + (b.y - a.y) * (b.y - a.y)
  {
    DistanceMeans(hypot, a, b, d);
  }

  /** Samples are equally far apart along the outline; one more would be at its end. */
  lemma ArcsAre(total: real, n: nat, j: nat)
    requires n > 0
    ensures ArcOf(total, n, 0) == 0.0 && ArcOf(total, n, n) == total
    ensures ArcOf(total, n, j + 1) - ArcOf(total, n, j) == total / n as real
  {}

  // ---------- walking never takes a short cut ----------

  lemma SegNonNegative(hypot: Hypot, pts: seq<Pt>, i: nat)
    requires IsHypot(hypot) && i < |pts|
    ensures Seg(hypot, pts, i) >= 0.0
  {
    var _ := Square(hypot, After(pts, i).x - pts[i].x, After(pts, i).y - pts[i].y);
  }

  lemma {:induction false} WalkedGrows(hypot: Hypot, pts: seq<Pt>, i: nat, j: nat)
    requires IsHypot(hypot) && i <= j <= |pts|
    ensures 0.0 <= Walked(hypot, pts, i) <= Walked(hypot, pts, j)
    decreases j
  {
    if i < j {
      SegNonNegative(hypot, pts, j - 1);
      WalkedGrows(hypot, pts, i, j - 1);
    } else if i > 0 {
      SegNonNegative(hypot, pts, i - 1);
      WalkedGrows(hypot, pts, i - 1, i - 1);
    }
  }

  lemma {:induction false} BetweenVertices(hypot: Hypot, pts: seq<Pt>, i: nat, j: nat)
    requires IsHypot(hypot) && i <= j < |pts|
    ensures Dist(hypot, pts[i], pts[j]) <= Walked(hypot, pts, j) - Walked(hypot, pts, i)
    decreases j
  {
    if i == j {
      ZeroMeansSame(hypot, pts[i], pts[j]);
    } else {
      BetweenVertices(hypot, pts, i, j - 1);
      Triangle(hypot, pts[i], pts[j - 1], pts[j]);
      assert After(pts, j - 1) == pts[j];
    }
  }

  /** From a point on an edge to the end of that edge. */
  lemma ToEdgeEnd(hypot: Hypot, pts: seq<Pt>, s: real, q: Pt, i: nat, f: real)
    requires IsHypot(hypot) && OnEdge(hypot, pts, s, q, i, f)
    ensures Dist(hypot, q, After(pts, i)) == Walked(hypot, pts, i + 1) - s
  {
    AlongSegment(hypot, pts[i], After(pts, i), f, 1.0);
    LerpEnds(pts[i], After(pts, i));
    assert (1.0 - f) * Seg(hypot, pts, i) == Seg(hypot, pts, i) - f * Seg(hypot, pts, i);
  }

  lemma FromEdgeStart(hypot: Hypot, pts: seq<Pt>, s: real, q: Pt, i: nat, f: real)
    requires IsHypot(hypot) && OnEdge(hypot, pts, s, q, i, f)
    ensures Dist(hypot, pts[i], q) == s - Walked(hypot, pts, i)
  {
    FromStart(hypot, pts[i], After(pts, i), f);
  }

  lemma ChordOnOneEdge(hypot: Hypot, pts: seq<Pt>, s: real, q: Pt, f: real, t: real, r: Pt, g: real, i: nat)
    requires IsHypot(hypot) && OnEdge(hypot, pts, s, q, i, f) && OnEdge(hypot, pts, t, r, i, g) && f <= g
    ensures Dist(hypot, q, r) == t - s
  {
    AlongSegment(hypot, pts[i], After(pts, i), f, g);
    assert (g - f) * Seg(hypot, pts, i) == g * Seg(hypot, pts, i) - f * Seg(hypot, pts, i);
  }

  lemma ChordAcrossEdges(hypot: Hypot, pts: seq<Pt>, s: real, q: Pt, i: nat, f: real, t: real, r: Pt, j: nat, g: real)
    requires IsHypot(hypot) && OnEdge(hypot, pts, s, q, i, f) && OnEdge(hypot, pts, t, r, j, g) && i < j
    ensures Dist(hypot, q, r) <= t - s
  {
    assert After(pts, i) == pts[i + 1];
    ToEdgeEnd(hypot, pts, s, q, i, f);
    FromEdgeStart(hypot, pts, t, r, j, g);
    BetweenVertices(hypot, pts, i + 1, j);
    Triangle(hypot, q, pts[i + 1], pts[j]);
    Triangle(hypot, q, pts[j], r);
  }

  lemma ChordOnEdges(hypot: Hypot, pts: seq<Pt>, s: real, q: Pt, i: nat, f: real, t: real, r: Pt, j: nat, g: real)
    requires IsHypot(hypot) && OnEdge(hypot, pts, s, q, i, f) && OnEdge(hypot, pts, t, r, j, g) && s <= t
    ensures Dist(hypot, q, r) <= t - s
  {
    Symmetric(hypot, q, r);
    if i < j {
      ChordAcrossEdges(hypot, pts, s, q, i, f, t, r, j, g);
    } else if i > j {
      ChordAcrossEdges(hypot, pts, t, r, j, g, s, q, i, f);
    } else if f <= g {
      ChordOnOneEdge(hypot, pts, s, q, f, t, r, g, i);
    } else {
      ChordOnOneEdge(hypot, pts, t, r, g, s, q, f, i);
    }
  }

  lemma EdgeOf(hypot: Hypot, pts: seq<Pt>, s: real, q: Pt) returns (i: nat, f: real)
    requires AtArc(hypot, pts, s, q)
    ensures OnEdge(hypot, pts, s, q, i, f)
  {
    i, f :| OnEdge(hypot, pts, s, q, i, f);
  }

  /** The straight distance between two points of the polygon is at most the walk between them. */
  lemma ChordAtMostArc(hypot: Hypot, pts: seq<Pt>, s: real, q: Pt, t: real, r: Pt)
    requires IsHypot(hypot) && AtArc(hypot, pts, s, q) && AtArc(hypot, pts, t, r) && s <= t
    ensures Dist(hypot, q, r) <= t - s
  {
    var i, f := EdgeOf(hypot, pts, s, q);
    var j, g := EdgeOf(hypot, pts, t, r);
    ChordOnEdges(hypot, pts, s, q, i, f, t, r, j, g);
  }

  /** An arc length names one point. */
  lemma ArcPointUnique(hypot: Hypot, pts: seq<Pt>, s: real, q: Pt, r: Pt)
    requires IsHypot(hypot) && AtArc(hypot, pts, s, q) && AtArc(hypot, pts, s, r)
    ensures q == r
  {
    ChordAtMostArc(hypot, pts, s, q, s, r);
    var d := Square(hypot, r.x - q.x, r.y - q.y);
    ZeroMeansSame(hypot, q, r);
  }

  /** The walk starts at the first vertex and, once around, ends there. */
  lemma SeamPoint(hypot: Hypot, pts: seq<Pt>)
    requires IsHypot(hypot) && pts != []
    ensures AtArc(hypot, pts, 0.0, pts[0]) && AtArc(hypot, pts, Perimeter(hypot, pts), pts[0])
  {
    var last := |pts| - 1;
    LerpEnds(pts[0], After(pts, 0));
    LerpEnds(pts[last], After(pts, last));
    assert OnEdge(hypot, pts, 0.0, pts[0], 0, 0.0);
    assert After(pts, last) == pts[0];
    assert OnEdge(hypot, pts, Perimeter(hypot, pts), pts[0], last, 1.0);
  }

  // ---------- the method ----------

  /** Every sample is the point at its share of the perimeter. */
  ghost predicate EvenlySpaced(hypot: Hypot, pts: seq<Pt>, out: seq<Pt>, n: nat) {
    |out| <= n && forall j :: 0 <= j < |out| ==> AtArc(hypot, pts, ArcOf(Perimeter(hypot, pts), n, j), out[j])
  }

  lemma ShareBounds(total: real, n: nat, j: nat)
    requires total >= 0.0 && j < n
    ensures 0.0 <= ArcOf(total, n, j) <= total
    ensures ArcOf(total, n, j) <= ArcOf(total, n, j + 1) == ArcOf(total, n, j) + total / n as real
    ensures ArcOf(total, n, n) == total
  {}

  method EdgeLengths(hypot: Hypot, pts: seq<Pt>) returns (seg: seq<real>, total: real)
    ensures |seg| == |pts| && forall i :: 0 <= i < |pts| ==> seg[i] == Seg(hypot, pts, i)
    ensures total == Perimeter(hypot, pts)
  {
    seg, total := [], 0.0;
    for i := 0 to |pts|
      invariant |seg| == i && forall k :: 0 <= k < i ==> seg[k] == Seg(hypot, pts, k)
      invariant total == Walked(hypot, pts, i)
    {
      var a := pts[i];
      WrapsAround(i, |pts|);
      var b := pts[(i + 1) % |pts|];
      var d := hypot(b.x - a.x, b.y - a.y);
      seg := seg + [d];
      total := total + d;
    }
  }

  /** Moves the cursor to the edge that holds arc length `dist`. */
  method Advance(hypot: Hypot, pts: seq<Pt>, seg: seq<real>, dist: real, i0: nat, acc0: real)
    returns (i: nat, acc: real)
    requires IsHypot(hypot) && |seg| == |pts| && forall k :: 0 <= k < |pts| ==> seg[k] == Seg(hypot, pts, k)
    requires i0 < |pts| && acc0 == Walked(hypot, pts, i0) <= dist <= Perimeter(hypot, pts)
    ensures i0 <= i < |pts| && acc == Walked(hypot, pts, i) <= dist <= acc + seg[i]
  {
    i, acc := i0, acc0;
    while i < |seg| - 1 && acc + seg[i] < dist
      invariant i0 <= i < |pts| && acc == Walked(hypot, pts, i) <= dist
    {
      acc := acc + seg[i];
      i := i + 1;
    }
  }

  /** The point of the cursor's edge at arc length `dist`. */
  method PointOn(hypot: Hypot, pts: seq<Pt>, seg: seq<real>, i: nat, acc: real, dist: real) returns (q: Pt)
    requires i < |pts| == |seg| && seg[i] == Seg(hypot, pts, i)
    requires acc == Walked(hypot, pts, i) <= dist <= acc + seg[i]
    ensures AtArc(hypot, pts, dist, q)
  {
    var a := pts[i];
    WrapsAround(i, |pts|);
    var b := pts[(i + 1) % |pts|];
    var f := if seg[i] > 0.0 then (dist - acc) / seg[i] else 0.0;
    q := Pt(a.x + (b.x - a.x) * f, a.y + (b.y - a.y) * f);
    assert OnEdge(hypot, pts, dist, q, i, f);
  }

  /** The cursor: an edge, and the length walked before it, not beyond the `j`-th sample. */
  ghost predicate CursorAt(hypot: Hypot, pts: seq<Pt>, n: nat, j: nat, i: nat, acc: real)
    requires n > 0
  {
    i < |pts| && acc == Walked(hypot, pts, i) <= ArcOf(Perimeter(hypot, pts), n, j)
  }

  /** Where the `j`-th sample lies: not beyond the perimeter, and before the next one. */
  lemma DistBounds(hypot: Hypot, pts: seq<Pt>, step: real, n: nat, j: nat) returns (dist: real)
    requires IsHypot(hypot) && j < n && step == Perimeter(hypot, pts) / n as real
    ensures dist == j as real * step == ArcOf(Perimeter(hypot, pts), n, j) <= Perimeter(hypot, pts)
    ensures dist <= ArcOf(Perimeter(hypot, pts), n, j + 1)
  {
    dist := j as real * step;
    WalkedGrows(hypot, pts, 0, |pts|);
    ShareBounds(Perimeter(hypot, pts), n, j);
  }

  /** One pass of the sampling loop: moves the cursor, and finds the `j`-th sample there. */
  method Sample(hypot: Hypot, pts: seq<Pt>, seg: seq<real>, step: real, n: nat, j: nat, i0: nat, acc0: real)
    returns (i: nat, acc: real, q: Pt)
    requires IsHypot(hypot) && |seg| == |pts| && forall k :: 0 <= k < |pts| ==> seg[k] == Seg(hypot, pts, k)
    requires j < n && step == Perimeter(hypot, pts) / n as real && CursorAt(hypot, pts, n, j, i0, acc0)
    ensures CursorAt(hypot, pts, n, j + 1, i, acc)
    ensures AtArc(hypot, pts, ArcOf(Perimeter(hypot, pts), n, j), q)
  {
    var dist := j as real * step;
    ghost var d := DistBounds(hypot, pts, step, n, j);
    i, acc := Advance(hypot, pts, seg, dist, i0, acc0);
    q := PointOn(hypot, pts, seg, i, acc, dist);
  }

  /** `resample`.  An empty outline can only be asked for no points: the source would index out of bounds. */
  method Resample(hypot: Hypot, pts: seq<Pt>, n: nat) returns (out: seq<Pt>)
    requires IsHypot(hypot) && (n > 0 ==> pts != [])
    ensures |out| == n && EvenlySpaced(hypot, pts, out, n)
  {
    var seg, total := EdgeLengths(hypot, pts);
    out := [];
    if n == 0 {
      return;
    }
    var step := total / n as real;
    var i, acc := 0, 0.0;
    assert ArcOf(total, n, 0) == 0.0;
    for j := 0 to n
      invariant |out| == j && EvenlySpaced(hypot, pts, out, n)
      invariant CursorAt(hypot, pts, n, j, i, acc)
    {
      var q;
      i, acc, q := Sample(hypot, pts, seg, step, n, j, i, acc);
      out := out + [q];
    }
  }

  /** The sample after the last stands for the whole perimeter: it is the first vertex again. */
  lemma NextSample(hypot: Hypot, pts: seq<Pt>, out: seq<Pt>, n: nat, j: nat)
    requires IsHypot(hypot) && pts != [] && j < n == |out| && EvenlySpaced(hypot, pts, out, n) && out[0] == pts[0]
    ensures AtArc(hypot, pts, ArcOf(Perimeter(hypot, pts), n, j + 1), After(out, j))
  {
    if j + 1 == n {
      SeamPoint(hypot, pts);
      WalkedGrows(hypot, pts, 0, |pts|);
      ShareBounds(Perimeter(hypot, pts), n, j);
      assert After(out, j) == pts[0];
    } else {
      assert After(out, j) == out[j + 1];
    }
  }

  /**
   What even spacing gives: the samples start at the first vertex, and neighbouring samples, the last and the
   first included, are at most one step of the perimeter apart.
   */
  lemma SamplesAreClose(hypot: Hypot, pts: seq<Pt>, out: seq<Pt>, n: nat)
    requires IsHypot(hypot) && n > 0 && pts != [] && |out| == n && EvenlySpaced(hypot, pts, out, n)
    ensures out[0] == pts[0]
    ensures forall j :: 0 <= j < n ==> Dist(hypot, out[j], After(out, j)) <= Perimeter(hypot, pts) / n as real
  {
    var total := Perimeter(hypot, pts);
    WalkedGrows(hypot, pts, 0, |pts|);
    SeamPoint(hypot, pts);
    assert ArcOf(total, n, 0) == 0.0;
    ArcPointUnique(hypot, pts, 0.0, out[0], pts[0]);
    forall j | 0 <= j < n
      ensures Dist(hypot, out[j], After(out, j)) <= total / n as real
    {
      ShareBounds(total, n, j);
      NextSample(hypot, pts, out, n, j);
      ChordAtMostArc(hypot, pts, ArcOf(total, n, j), out[j], ArcOf(total, n, j + 1), After(out, j));
    }
  }
}
