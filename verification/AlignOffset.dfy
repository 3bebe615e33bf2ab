/** `align_offset`: the cyclic offset that best matches an outline to a stroke, searched for with early exits. */
module AlignOffset {
  import opened Wrappers
  import opened Geometry
  import Distance

  /** A point in polar coordinates. */
  datatype Polar = Polar(rad: real, ang: real)

  function Placed(cos: real -> real, sin: real -> real, arc: Polar, base: real, cx: real, cy: real): Pt {
    Pt(cx + arc.rad * cos(base + arc.ang), cy + arc.rad * sin(base + arc.ang))
  }

  // ---------- the cost of an offset ----------

  /** The index `o` places after `k`, cyclically. */
  function Shifted(k: nat, o: nat, n: nat): (j: nat)
    requires k < n && o < n
    ensures j < n
  {
    if k + o < n then k + o else k + o - n
  }

  function SquaredDistance(a: Pt, b: Pt): (d: real)
    ensures d >= 0.0
  {
    var dx, dy := a.x - b.x, a.y - b.y;
    assert dx * dx >= 0.0 && dy * dy >= 0.0;
    dx * dx + dy * dy
  }

  function Term(src: seq<Pt>, tgt: seq<Pt>, o: nat, k: nat): real
    requires |src| == |tgt| && k < |src| && o < |src|
  {
    SquaredDistance(src[k], tgt[Shifted(k, o, |src|)])
  }

  /** The squared distances of every fourth point from the `k`-th on. */
  function CostFrom(src: seq<Pt>, tgt: seq<Pt>, o: nat, k: nat): (c: real)
    requires |src| == |tgt| && o < |src|
    ensures c >= 0.0
    decreases |src| - k
  {
    if k >= |src| then 0.0 else Term(src, tgt, o, k) + CostFrom(src, tgt, o, k + 4)
  }

  function Cost(src: seq<Pt>, tgt: seq<Pt>, o: nat): real
    requires |src| == |tgt| && o < |src|
  {
    CostFrom(src, tgt, o, 0)
  }

  // ---------- what is summed ----------

  function Sum(terms: seq<real>, i: nat): real
    decreases |terms| - i
  {
    if i >= |terms| then 0.0 else terms[i] + Sum(terms, i + 1)
  }

  /** The squared distance of point `k` from the point of the stroke `o` places further on, cyclically. */
  predicate IsTerm(src: seq<Pt>, tgt: seq<Pt>, o: nat, k: nat, term: real)
    requires |src| == |tgt| && o < |src|
  {
    && k < |src|
    && var a, b := src[k], tgt[if k + o < |src| then k + o else k + o - |src|];
       term == (a.x - b.x) * (a.x - b.x) + (a.y - b.y) * (a.y - b.y)
  }

  /** One term for each of the points 0, 4, 8 and so on. */
  predicate AreTerms(src: seq<Pt>, tgt: seq<Pt>, o: nat, terms: seq<real>)
    requires |src| == |tgt| && o < |src|
  {
    4 * |terms| >= |src| && forall m :: 0 <= m < |terms| ==> IsTerm(src, tgt, o, 4 * m, terms[m])
  }

  lemma TermInside(src: seq<Pt>, tgt: seq<Pt>, o: nat, m: nat, terms: seq<real>)
    requires |src| == |tgt| && o < |src| && AreTerms(src, tgt, o, terms) && m < |terms|
    ensures 4 * m < |src|
  {
    assert IsTerm(src, tgt, o, 4 * m, terms[m]);
  }

  lemma TermIs(src: seq<Pt>, tgt: seq<Pt>, o: nat, k: nat, term: real)
    requires |src| == |tgt| && o < |src| && IsTerm(src, tgt, o, k, term)
    ensures Term(src, tgt, o, k) == term
  {}

  lemma {:induction false} CostFromIsSum(
      src: seq<Pt>, tgt: seq<Pt>, o: nat, k: nat, m: nat, terms: seq<real>)
    requires |src| == |tgt| && o < |src| && AreTerms(src, tgt, o, terms) && k == 4 * m
    ensures CostFrom(src, tgt, o, k) == Sum(terms, m)
    decreases |src| - k
  {
    if m < |terms| {
      TermInside(src, tgt, o, m, terms);
    }
    if k < |src| {
      TermIs(src, tgt, o, k, terms[m]);
      CostFromIsSum(src, tgt, o, k + 4, m + 1, terms);
    }
  }

  /** The cost of an offset is the sum of the squared distances of every fourth point, and of no others. */
  lemma CostIsSum(src: seq<Pt>, tgt: seq<Pt>, o: nat, terms: seq<real>)
    requires |src| == |tgt| && o < |src| && AreTerms(src, tgt, o, terms)
    ensures Cost(src, tgt, o) == Sum(terms, 0)
  {
    CostFromIsSum(src, tgt, o, 0, 0, terms);
  }

  /** Where a point of the stroke is placed: its radius away, to the right at angle 0, down at a quarter turn. */
  lemma PlacedAround(cos: real -> real, sin: real -> real, arc: Polar, base: real, cx: real, cy: real, a: real, p: Pt)
    requires a == base + arc.ang && p == Placed(cos, sin, arc, base, cx, cy)
    ensures cos(a) == 1.0 && sin(a) == 0.0 ==> p == Pt(cx + arc.rad, cy)
    ensures cos(a) == 0.0 && sin(a) == 1.0 ==> p == Pt(cx, cy + arc.rad)
    ensures cos(a) * cos(a) + sin(a) * sin(a) == 1.0 ==> SquaredDistance(p, Pt(cx, cy)) == arc.rad * arc.rad
  {
    if cos(a) * cos(a) + sin(a) * sin(a) == 1.0 {
      Circle(arc.rad, cos(a), sin(a));
    }
  }

  lemma Circle(r: real, c: real, s: real)
    requires c * c + s * s == 1.0
    ensures r * c * (r * c) + r * s * (r * s) == r * r
  {
    assert r * c * (r * c) + r * s * (r * s) == r * r * (c * c + s * s);
  }

  // ---------- the search ----------

  lemma ShiftedIsModulo(k: nat, o: nat, n: nat)
    requires k < n && o < n
    ensures (k + o) % n == Shifted(k, o, n)
  {}

  /** The inner loop: the cost of an offset, or a partial sum that is already no better than `bestErr`. */
  method OffsetError(src: seq<Pt>, tgt: seq<Pt>, o: nat, bestErr: Option<real>) returns (err: real)
    requires |src| == |tgt| && o < |src|
    ensures err <= Cost(src, tgt, o)
    ensures err == Cost(src, tgt, o) || (bestErr.Some? && err >= bestErr.value)
  {
    err := 0.0;
    var k := 0;
    while k < |src|
      invariant err + CostFrom(src, tgt, o, k) == Cost(src, tgt, o)
      decreases |src| - k
    {
      ShiftedIsModulo(k, o, |src|);
      var j := (k + o) % |src|;
      var dx, dy := src[k].x - tgt[j].x, src[k].y - tgt[j].y;
      err := err + (dx * dx + dy * dy);
      assert err + CostFrom(src, tgt, o, k + 4) == Cost(src, tgt, o);
      if bestErr.Some? && err >= bestErr.value {
        break;
      }
      k := k + 4;
    }
  }

  /** `best` is the first of the offsets below `n` with the least cost. */
  ghost predicate FirstBest(src: seq<Pt>, tgt: seq<Pt>, n: nat, best: nat)
    requires |src| == |tgt| && n <= |src|
  {
    && best < n
    && (forall o :: 0 <= o < n ==> Cost(src, tgt, best) <= Cost(src, tgt, o))
    && (forall o :: 0 <= o < best ==> Cost(src, tgt, best) < Cost(src, tgt, o))
  }

  method BestOffset(src: seq<Pt>, tgt: seq<Pt>) returns (best: nat)
    requires |src| == |tgt|
    ensures if src == [] then best == 0 else FirstBest(src, tgt, |src|, best)
  {
    best := 0;
    var bestErr: Option<real> := None;
    for o := 0 to |src|
      invariant o == 0 ==> bestErr.None? && best == 0
      invariant o > 0 ==> FirstBest(src, tgt, o, best) && bestErr == Some(Cost(src, tgt, best))
    {
      var err := OffsetError(src, tgt, o, bestErr);
      if bestErr.None? || err < bestErr.value {
        bestErr := Some(err);
        best := o;
      }
    }
  }

  /** The stroke's points around the centroid, as the source places them before searching. */
  function Targets(
      cos: real -> real, sin: real -> real, arc: seq<Polar>, base: real, cx: real, cy: real, n: nat): seq<Pt>
    requires n <= |arc|
  {
    seq(n, i requires 0 <= i < n => Placed(cos, sin, arc[i], base, cx, cy))
  }

  /**
   `align_offset`: the least of the offsets whose summed squared distance is minimal among all of them.  Offsets
   given up early are never better than the answer.
   */
  method AlignOffset(
      cos: real -> real, sin: real -> real, src: seq<Pt>, arc: seq<Polar>, base: real, cx: real, cy: real)
    returns (best: nat)
    requires |src| <= |arc|
    ensures var tgt := Targets(cos, sin, arc, base, cx, cy, |src|);
            if src == [] then best == 0 else FirstBest(src, tgt, |src|, best)
  {
    var tgt: seq<Pt> := [];
    for i := 0 to |src|
      invariant tgt == Targets(cos, sin, arc, base, cx, cy, i)
    {
      tgt := tgt + [Placed(cos, sin, arc[i], base, cx, cy)];
      assert tgt == Targets(cos, sin, arc, base, cx, cy, i + 1);
    }
    best := BestOffset(src, tgt);
  }

  // ---------- what the answer is good for ----------

  lemma {:induction false} RotationCostsNothing(src: seq<Pt>, tgt: seq<Pt>, r: nat, k: nat)
    requires |src| == |tgt| && r < |src|
    requires forall i :: 0 <= i < |src| ==> tgt[Shifted(i, r, |src|)] == src[i]
    ensures CostFrom(src, tgt, r, k) == 0.0
    decreases |src| - k
  {
    if k < |src| {
      RotationCostsNothing(src, tgt, r, k + 4);
    }
  }

  lemma {:induction false} FreeMeansMatched(src: seq<Pt>, tgt: seq<Pt>, o: nat, k: nat, m: nat)
    requires |src| == |tgt| && o < |src| && CostFrom(src, tgt, o, k) == 0.0 && k + 4 * m < |src|
    ensures src[k + 4 * m] == tgt[Shifted(k + 4 * m, o, |src|)]
    decreases m
  {
    if m == 0 {
      ZeroDistance(src[k], tgt[Shifted(k, o, |src|)]);
    } else {
      FreeMeansMatched(src, tgt, o, k + 4, m - 1);
    }
  }

  lemma ZeroDistance(a: Pt, b: Pt)
    requires SquaredDistance(a, b) == 0.0
    ensures a == b
  {
    var dx, dy := a.x - b.x, a.y - b.y;
    assert dx * dx >= 0.0 && dy * dy >= 0.0;
    Distance.ZeroSquare(dx);
    Distance.ZeroSquare(dy);
  }

  /**
   When the stroke is the outline itself, rotated by any number of places, the answer matches every fourth point
   of the outline exactly, and no smaller offset does.
   */
  lemma RotationIsFound(src: seq<Pt>, tgt: seq<Pt>, r: nat, best: nat)
    requires |src| == |tgt| && r < |src| && FirstBest(src, tgt, |src|, best)
    requires forall i :: 0 <= i < |src| ==> tgt[Shifted(i, r, |src|)] == src[i]
    ensures best <= r
    ensures forall m: nat :: 4 * m < |src| ==> src[4 * m] == tgt[Shifted(4 * m, best, |src|)]
  {
    RotationCostsNothing(src, tgt, r, 0);
    assert Cost(src, tgt, best) <= Cost(src, tgt, r) == 0.0;
    forall m: nat | 4 * m < |src|
      ensures src[4 * m] == tgt[Shifted(4 * m, best, |src|)]
    {
      FreeMeansMatched(src, tgt, best, 0, m);
    }
  }
}
