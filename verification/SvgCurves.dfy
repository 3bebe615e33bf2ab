/** What the flattened curves of an outline are, in terms of their control points. */
module SvgCurves {
  import opened Wrappers
  import opened Geometry
  import opened SvgPath

  // ---------- de Casteljau ----------

  function Along(a: real, b: real, t: real): real { a + (b - a) * t }

  function QuadAt(a: real, b: real, c: real, t: real): real { Along(Along(a, b, t), Along(b, c, t), t) }

  function CubicAt(a: real, b: real, c: real, d: real, t: real): real {
    Along(QuadAt(a, b, c, t), QuadAt(b, c, d, t), t)
  }

  lemma CubicWeights(a: real, b: real, c: real, d: real, t: real)
    ensures CubicAt(a, b, c, d, t) == CubicMix(a, b, c, d, t)
  {}

  lemma TwiceDivided(p0: Pt, c: Pt, p2: Pt, t: real)
    ensures Lerp(Lerp(p0, c, t), Lerp(c, p2, t), t) == Pt(QuadAt(p0.x, c.x, p2.x, t), QuadAt(p0.y, c.y, p2.y, t))
  {}

  lemma CubicPointAt(p0: Pt, c1: Pt, c2: Pt, p3: Pt, t: real)
    ensures CubicPoint(p0, c1, c2, p3, t) == Pt(CubicAt(p0.x, c1.x, c2.x, p3.x, t), CubicAt(p0.y, c1.y, c2.y, p3.y, t))
  {
    CubicWeights(p0.x, c1.x, c2.x, p3.x, t);
    CubicWeights(p0.y, c1.y, c2.y, p3.y, t);
  }

  /** The points of a curve are those of de Casteljau's construction: repeated division of the control polygon. */
  lemma CubicIsDeCasteljau(p0: Pt, c1: Pt, c2: Pt, p3: Pt, t: real)
    ensures var a, b, c := Lerp(p0, c1, t), Lerp(c1, c2, t), Lerp(c2, p3, t);
            CubicPoint(p0, c1, c2, p3, t) == Lerp(Lerp(a, b, t), Lerp(b, c, t), t)
  {
    TwiceDivided(p0, c1, c2, t);
    TwiceDivided(c1, c2, p3, t);
    CubicPointAt(p0, c1, c2, p3, t);
  }

  lemma QuadIsDeCasteljau(p0: Pt, c: Pt, p2: Pt, t: real)
    ensures QuadPoint(p0, c, p2, t) == Lerp(Lerp(p0, c, t), Lerp(c, p2, t), t)
  {}

  // ---------- where a curve lies ----------

  lemma AlongBetween(a: real, b: real, t: real, lo: real, hi: real)
    requires 0.0 <= t <= 1.0 && lo <= a <= hi && lo <= b <= hi
    ensures lo <= Along(a, b, t) <= hi
  {
    if a <= b {
      StepUp(a, b, t);
    } else {
      StepUp(b, a, 1.0 - t);
    }
  }

  lemma StepUp(a: real, b: real, t: real)
    requires 0.0 <= t <= 1.0 && a <= b
    ensures a <= Along(a, b, t) <= b
  {
    Product(b - a, t);
    Product(b - a, 1.0 - t);
  }

  lemma Product(x: real, y: real)
    requires x >= 0.0 && y >= 0.0
    ensures x * y >= 0.0
  {}

  predicate InBox(p: Pt, lo: Pt, hi: Pt) { lo.x <= p.x <= hi.x && lo.y <= p.y <= hi.y }

  lemma LerpInBox(a: Pt, b: Pt, t: real, lo: Pt, hi: Pt)
    requires 0.0 <= t <= 1.0 && InBox(a, lo, hi) && InBox(b, lo, hi)
    ensures InBox(Lerp(a, b, t), lo, hi)
  {
    AlongBetween(a.x, b.x, t, lo.x, hi.x);
    AlongBetween(a.y, b.y, t, lo.y, hi.y);
  }

  /** A flattened cubic has 48 points, ends exactly at its end point, and never leaves the box of its control points. */
  lemma CubicStaysInBox(p0: Pt, c1: Pt, c2: Pt, p3: Pt, lo: Pt, hi: Pt)
    requires InBox(p0, lo, hi) && InBox(c1, lo, hi) && InBox(c2, lo, hi) && InBox(p3, lo, hi)
    ensures |Cubic(p0, c1, c2, p3)| == CURVE_SUBDIV && Cubic(p0, c1, c2, p3)[CURVE_SUBDIV - 1] == p3
    ensures forall i :: 0 <= i < CURVE_SUBDIV ==> InBox(Cubic(p0, c1, c2, p3)[i], lo, hi)
  {
    forall i | 0 <= i < CURVE_SUBDIV
      ensures InBox(Cubic(p0, c1, c2, p3)[i], lo, hi)
    {
      CubicInBox(p0, c1, c2, p3, Param(i + 1), lo, hi);
    }
  }

  lemma CubicInBox(p0: Pt, c1: Pt, c2: Pt, p3: Pt, t: real, lo: Pt, hi: Pt)
    requires 0.0 <= t <= 1.0
    requires InBox(p0, lo, hi) && InBox(c1, lo, hi) && InBox(c2, lo, hi) && InBox(p3, lo, hi)
    ensures InBox(CubicPoint(p0, c1, c2, p3, t), lo, hi)
  {
    CubicIsDeCasteljau(p0, c1, c2, p3, t);
    var a, b, c := Lerp(p0, c1, t), Lerp(c1, c2, t), Lerp(c2, p3, t);
    LerpInBox(p0, c1, t, lo, hi);
    LerpInBox(c1, c2, t, lo, hi);
    LerpInBox(c2, p3, t, lo, hi);
    LerpInBox(a, b, t, lo, hi);
    LerpInBox(b, c, t, lo, hi);
    LerpInBox(Lerp(a, b, t), Lerp(b, c, t), t, lo, hi);
  }

  // ---------- smooth curves ----------

  /** A smooth curve goes on in the direction of the last one: the pen is midway between the two controls. */
  lemma SmoothCurvesJoin(pen: Pen, c: Pt, op: Op)
    requires WellFormed(op) && pen.cubic == Some(c) && Upper(op.cmd) == 'S'
    ensures var m := Mirror(pen.cubic, pen.cur);
            && Lerp(c, m, 0.5) == pen.cur
            && pen.out + Cubic(pen.cur, m, Exec(pen, op).cubic.value, Exec(pen, op).cur) == Exec(pen, op).out
  {}
}
