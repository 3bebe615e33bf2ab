/** What each command draws, in its numbers alone: where lines land, and which control points curves have. */
module SvgMeaning {
  import opened Wrappers
  import opened Geometry
  import opened SvgPath
  import opened SvgCurves

  /** The point at `t` of the cubic with these controls, by repeated division. */
  function CubicDivided(p0: Pt, c1: Pt, c2: Pt, p: Pt, t: real): Pt {
    var a, b, c := Lerp(p0, c1, t), Lerp(c1, c2, t), Lerp(c2, p, t);
    Lerp(Lerp(a, b, t), Lerp(b, c, t), t)
  }

  function QuadDivided(p0: Pt, c: Pt, p: Pt, t: real): Pt { Lerp(Lerp(p0, c, t), Lerp(c, p, t), t) }

  /** After `pen` a straight line was drawn to `p`, in the same subpath. */
  predicate DrawsLine(pen: Pen, next: Pen, p: Pt) {
    next.out == pen.out + [p] && next.cur == p && next.start == pen.start && next.cubic == None && next.quad == None
  }

  /** After `pen` forty-eight points were drawn, those of the curve from the pen to `p` with controls `c1`, `c2`. */
  ghost predicate DrawsCubic(pen: Pen, next: Pen, c1: Pt, c2: Pt, p: Pt) {
    && |next.out| == |pen.out| + 48 && pen.out <= next.out
    && (forall k :: |pen.out| <= k < |pen.out| + 48 ==>
          next.out[k] == CubicDivided(pen.cur, c1, c2, p, (k - |pen.out| + 1) as real / 48.0))
    && next.cur == p && next.start == pen.start && next.cubic == Some(c2) && next.quad == None
  }

  ghost predicate DrawsQuad(pen: Pen, next: Pen, c: Pt, p: Pt) {
    && |next.out| == |pen.out| + 48 && pen.out <= next.out
    && (forall k :: |pen.out| <= k < |pen.out| + 48 ==>
          next.out[k] == QuadDivided(pen.cur, c, p, (k - |pen.out| + 1) as real / 48.0))
    && next.cur == p && next.start == pen.start && next.cubic == None && next.quad == Some(c)
  }

  lemma CubicToDraws(pen: Pen, c1: Pt, c2: Pt, p: Pt)
    ensures DrawsCubic(pen, CubicTo(pen, c1, c2, p), c1, c2, p)
  {
    forall i | 0 <= i < 48
      ensures Cubic(pen.cur, c1, c2, p)[i] == CubicDivided(pen.cur, c1, c2, p, (i + 1) as real / 48.0)
    {
      CubicIsDeCasteljau(pen.cur, c1, c2, p, Param(i + 1));
    }
  }

  lemma QuadToDraws(pen: Pen, c: Pt, p: Pt)
    ensures DrawsQuad(pen, QuadTo(pen, c, p), c, p)
  {
    forall i | 0 <= i < 48
      ensures Quad(pen.cur, c, p)[i] == QuadDivided(pen.cur, c, p, (i + 1) as real / 48.0)
    {
      QuadIsDeCasteljau(pen.cur, c, p, Param(i + 1));
    }
  }

  /** L x y, H x, V y: a capital letter gives the place, a small one the way there. */
  lemma LinesDraw(pen: Pen, x: real, y: real)
    ensures DrawsLine(pen, Exec(pen, Op('L', [x, y])), Pt(x, y))
    ensures DrawsLine(pen, Exec(pen, Op('l', [x, y])), Pt(pen.cur.x + x, pen.cur.y + y))
    ensures DrawsLine(pen, Exec(pen, Op('H', [x])), Pt(x, pen.cur.y))
    ensures DrawsLine(pen, Exec(pen, Op('h', [x])), Pt(pen.cur.x + x, pen.cur.y))
    ensures DrawsLine(pen, Exec(pen, Op('V', [y])), Pt(pen.cur.x, y))
    ensures DrawsLine(pen, Exec(pen, Op('v', [y])), Pt(pen.cur.x, pen.cur.y + y))
  {}

  /** M x y draws a point too, and starts the subpath that Z goes back to the start of. */
  lemma MovesStart(pen: Pen, x: real, y: real)
    ensures var p, next := Pt(x, y), Exec(pen, Op('M', [x, y]));
            next == Pen(pen.out + [p], p, p, None, None)
    ensures var p, next := Pt(pen.cur.x + x, pen.cur.y + y), Exec(pen, Op('m', [x, y]));
            next == Pen(pen.out + [p], p, p, None, None)
    ensures Exec(pen, Op('Z', [])) == Exec(pen, Op('z', [])) == Pen(pen.out, pen.start, pen.start, pen.cubic, pen.quad)
  {}

  /** C x1 y1 x2 y2 x y: the first pair is the control next to the pen, the second the one next to the end. */
  lemma CubicsDraw(pen: Pen, x1: real, y1: real, x2: real, y2: real, x: real, y: real)
    ensures DrawsCubic(pen, Exec(pen, Op('C', [x1, y1, x2, y2, x, y])), Pt(x1, y1), Pt(x2, y2), Pt(x, y))
    ensures var cur := pen.cur;
            DrawsCubic(pen, Exec(pen, Op('c', [x1, y1, x2, y2, x, y])),
                       Pt(cur.x + x1, cur.y + y1), Pt(cur.x + x2, cur.y + y2), Pt(cur.x + x, cur.y + y))
  {
    var cur := pen.cur;
    CubicToDraws(pen, Pt(x1, y1), Pt(x2, y2), Pt(x, y));
    CubicToDraws(pen, Pt(cur.x + x1, cur.y + y1), Pt(cur.x + x2, cur.y + y2), Pt(cur.x + x, cur.y + y));
  }

  /** The control that stands opposite to the last one, seen from the pen; without a last one the pen itself. */
  predicate Opposite(last: Option<Pt>, cur: Pt, c: Pt) {
    match last
    case None => c == cur
    case Some(l) => c.x + l.x == 2.0 * cur.x && c.y + l.y == 2.0 * cur.y
  }

  /** S x2 y2 x y: the first control is opposite to the last one of the curve before. */
  lemma SmoothCubicsDraw(pen: Pen, c1: Pt, x2: real, y2: real, x: real, y: real)
    requires Opposite(pen.cubic, pen.cur, c1)
    ensures DrawsCubic(pen, Exec(pen, Op('S', [x2, y2, x, y])), c1, Pt(x2, y2), Pt(x, y))
    ensures var cur := pen.cur;
            DrawsCubic(pen, Exec(pen, Op('s', [x2, y2, x, y])),
                       c1, Pt(cur.x + x2, cur.y + y2), Pt(cur.x + x, cur.y + y))
  {
    var cur := pen.cur;
    assert Mirror(pen.cubic, cur) == c1;
    CubicToDraws(pen, c1, Pt(x2, y2), Pt(x, y));
    CubicToDraws(pen, c1, Pt(cur.x + x2, cur.y + y2), Pt(cur.x + x, cur.y + y));
  }

  /** Q x1 y1 x y. */
  lemma QuadsDraw(pen: Pen, x1: real, y1: real, x: real, y: real)
    ensures DrawsQuad(pen, Exec(pen, Op('Q', [x1, y1, x, y])), Pt(x1, y1), Pt(x, y))
    ensures var cur := pen.cur;
            DrawsQuad(pen, Exec(pen, Op('q', [x1, y1, x, y])), Pt(cur.x + x1, cur.y + y1), Pt(cur.x + x, cur.y + y))
  {
    var cur := pen.cur;
    QuadToDraws(pen, Pt(x1, y1), Pt(x, y));
    QuadToDraws(pen, Pt(cur.x + x1, cur.y + y1), Pt(cur.x + x, cur.y + y));
  }

  /** T x y: the control is opposite to that of the curve before. */
  lemma SmoothQuadsDraw(pen: Pen, c: Pt, x: real, y: real)
    requires Opposite(pen.quad, pen.cur, c)
    ensures DrawsQuad(pen, Exec(pen, Op('T', [x, y])), c, Pt(x, y))
    ensures DrawsQuad(pen, Exec(pen, Op('t', [x, y])), c, Pt(pen.cur.x + x, pen.cur.y + y))
  {
    assert Mirror(pen.quad, pen.cur) == c;
    QuadToDraws(pen, c, Pt(x, y));
    QuadToDraws(pen, c, Pt(pen.cur.x + x, pen.cur.y + y));
  }
}
