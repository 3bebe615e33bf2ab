/** Euclidean distance: what follows from `hypot` being the root of a sum of squares. */
module Distance {
  import opened Geometry

  /** `hypot(x, y)` is the non-negative number whose square is x^2 + y^2. */
  ghost predicate IsHypotAt(hypot: (real, real) -> real, x: real, y: real) {
    hypot(x, y) >= 0.0 && hypot(x, y) * hypot(x, y) == x * x + y * y
  }

  ghost predicate IsHypot(hypot: (real, real) -> real) {
    forall x, y :: IsHypotAt(hypot, x, y)
  }

  function Dist(hypot: (real, real) -> real, a: Pt, b: Pt): real {
    hypot(b.x - a.x, b.y - a.y)
  }

  /** The distance of two points, by Pythagoras. */
  lemma DistanceMeans(hypot: (real, real) -> real, a: Pt, b: Pt, d: real)
    requires IsHypot(hypot) && d == Dist(hypot, a, b)
    ensures d >= 0.0 && d * d == (b.x - a.x) * (b.x - a.x) + (b.y - a.y) * (b.y - a.y)
  {
    assert IsHypotAt(hypot, b.x - a.x, b.y - a.y);
  }

  // ---------- arithmetic ----------

  lemma SquareOrder(a: real, b: real)
    requires b >= 0.0 && a * a <= b * b
    ensures a <= b
  {
    if a > b {
      Widen(a, b);
    }
  }

  lemma Widen(a: real, b: real)
    requires a > b >= 0.0
    ensures a * a > b * b
  {
    var u, v := a - b, a + b;
    assert u > 0.0 && v > 0.0;
    assert u * v > 0.0;
    assert a * a - b * b == u * v;
  }

  lemma ZeroSquare(a: real)
    requires a * a == 0.0
    ensures a == 0.0
  {
    if a != 0.0 {
      var m := if a > 0.0 then a else -a;
      Widen(m, 0.0);
    }
  }

  lemma SameSquare(a: real, b: real)
    requires a >= 0.0 && b >= 0.0 && a * a == b * b
    ensures a == b
  {
    SquareOrder(a, b);
    SquareOrder(b, a);
  }

  /** Cauchy's inequality, squared: (ux + vy)^2 <= (u^2 + v^2)(x^2 + y^2). */
  lemma Cauchy(u: real, v: real, x: real, y: real)
    ensures (u * x + v * y) * (u * x + v * y) <= (u * u + v * v) * (x * x + y * y)
  {}

  // ---------- the laws of a metric ----------

  lemma Square(hypot: (real, real) -> real, x: real, y: real) returns (h: real)
    requires IsHypot(hypot)
    ensures h == hypot(x, y) >= 0.0 && h * h == x * x + y * y
  {
    assert IsHypotAt(hypot, x, y);
    h := hypot(x, y);
  }

  /** The longer side of a triangle of vectors is at most the sum of the others. */
  lemma TriangleOfVectors(hypot: (real, real) -> real, u: real, v: real, x: real, y: real)
    requires IsHypot(hypot)
    ensures hypot(u + x, v + y) <= hypot(u, v) + hypot(x, y)
  {
    var a := Square(hypot, u, v);
    var b := Square(hypot, x, y);
    var c := Square(hypot, u + x, v + y);
    var dot := u * x + v * y;
    Cauchy(u, v, x, y);
    assert dot * dot <= (a * b) * (a * b);
    assert a * b >= 0.0;
    SquareOrder(dot, a * b);
    assert (a + b) * (a + b) == a * a + 2.0 * (a * b) + b * b;
    SquareOrder(c, a + b);
  }

  lemma Triangle(hypot: (real, real) -> real, a: Pt, b: Pt, c: Pt)
    requires IsHypot(hypot)
    ensures Dist(hypot, a, c) <= Dist(hypot, a, b) + Dist(hypot, b, c)
  {
    TriangleOfVectors(hypot, b.x - a.x, b.y - a.y, c.x - b.x, c.y - b.y);
    assert b.x - a.x + (c.x - b.x) == c.x - a.x;
    assert b.y - a.y + (c.y - b.y) == c.y - a.y;
  }

  lemma Symmetric(hypot: (real, real) -> real, a: Pt, b: Pt)
    requires IsHypot(hypot)
    ensures Dist(hypot, a, b) == Dist(hypot, b, a)
  {
    var x, y := b.x - a.x, b.y - a.y;
    var d := Square(hypot, x, y);
    var e := Square(hypot, a.x - b.x, a.y - b.y);
    assert a.x - b.x == -x && a.y - b.y == -y;
    SameSquare(d, e);
  }

  lemma ZeroMeansSame(hypot: (real, real) -> real, a: Pt, b: Pt)
    requires IsHypot(hypot)
    ensures Dist(hypot, a, b) == 0.0 <==> a == b
  {
    var x, y := b.x - a.x, b.y - a.y;
    var d := Square(hypot, x, y);
    if d == 0.0 {
      assert x * x >= 0.0 && y * y >= 0.0;
      assert x * x == 0.0 && y * y == 0.0;
      ZeroSquare(x);
      ZeroSquare(y);
    }
    if a == b {
      ZeroSquare(d);
    }
  }

  lemma ScaledVector(hypot: (real, real) -> real, k: real, x: real, y: real)
    requires IsHypot(hypot) && k >= 0.0
    ensures hypot(k * x, k * y) == k * hypot(x, y)
  {
    var d := Square(hypot, x, y);
    var e := Square(hypot, k * x, k * y);
    SameSquare(e, k * d);
  }

  /** Distances along a segment are proportional to the fractions covered. */
  lemma AlongSegment(hypot: (real, real) -> real, a: Pt, b: Pt, f: real, g: real)
    requires IsHypot(hypot) && f <= g
    ensures Dist(hypot, Lerp(a, b, f), Lerp(a, b, g)) == (g - f) * Dist(hypot, a, b)
  {
    var p, q := Lerp(a, b, f), Lerp(a, b, g);
    var k, x, y := g - f, b.x - a.x, b.y - a.y;
    assert q.x - p.x == k * x && q.y - p.y == k * y;
    ScaledVector(hypot, k, x, y);
  }

  lemma LerpEnds(a: Pt, b: Pt)
    ensures Lerp(a, b, 0.0) == a && Lerp(a, b, 1.0) == b
  {}

  lemma FromStart(hypot: (real, real) -> real, a: Pt, b: Pt, f: real)
    requires IsHypot(hypot) && 0.0 <= f
    ensures Dist(hypot, a, Lerp(a, b, f)) == f * Dist(hypot, a, b)
  {
    LerpEnds(a, b);
    AlongSegment(hypot, a, b, 0.0, f);
  }
}
