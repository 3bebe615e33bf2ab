/**
 Where the parser parts from SVG: in SVG a closepath ends the curve before it, so that a smooth command right after it
 starts as if there had been none; the parser goes on from the last control point.
 */
module SvgClose {
  import opened Wrappers
  import opened Geometry
  import opened SvgPath
  import opened SvgPrint
  import opened SvgRelative

  /** The pen as SVG would have it: without controls after a closepath. */
  function Forgotten(pen: Pen): Pen { pen.(cubic := None, quad := None) }

  function ExecSvg(pen: Pen, op: Op): Pen
    requires WellFormed(op)
  {
    if IsClose(op.cmd) then Forgotten(Exec(pen, op)) else Exec(pen, op)
  }

  function RunSvg(ops: seq<Op>): Pen
    requires AllWellFormed(ops)
  {
    if ops == [] then FRESH_PEN else ExecSvg(RunSvg(ops[..|ops| - 1]), ops[|ops| - 1])
  }

  predicate IsSmoothCubic(op: Op) { op.cmd == 'S' || op.cmd == 's' }

  predicate IsSmoothQuad(op: Op) { op.cmd == 'T' || op.cmd == 't' }

  // ---------- one smooth command ----------

  lemma MirrorIsCur(c: Pt, cur: Pt)
    ensures Mirror(Some(c), cur) == cur <==> c == cur
  {}

  /** One coordinate of the first chord end, at 1/48 of the curve. */
  lemma FirstCubicMix(a: real, b: real, c: real, d: real)
    ensures 110592.0 * CubicMix(a, b, c, d, Param(1)) == 103823.0 * a + 6627.0 * b + 141.0 * c + d
  {
    assert Param(1) == 1.0 / 48.0;
  }

  lemma FirstQuadMix(a: real, b: real, c: real)
    ensures 2304.0 * QuadMix(a, b, c, Param(1)) == 2209.0 * a + 94.0 * b + c
  {
    assert Param(1) == 1.0 / 48.0;
  }

  /** Two curves that differ in their first control differ in their first chord already. */
  lemma CubicDiffers(p0: Pt, c1: Pt, c1': Pt, c2: Pt, p: Pt)
    requires c1 != c1'
    ensures Cubic(p0, c1, c2, p)[0] != Cubic(p0, c1', c2, p)[0]
  {
    FirstCubicMix(p0.x, c1.x, c2.x, p.x);
    FirstCubicMix(p0.x, c1'.x, c2.x, p.x);
    FirstCubicMix(p0.y, c1.y, c2.y, p.y);
    FirstCubicMix(p0.y, c1'.y, c2.y, p.y);
  }

  lemma QuadDiffers(p0: Pt, c: Pt, c': Pt, p: Pt)
    requires c != c'
    ensures Quad(p0, c, p)[0] != Quad(p0, c', p)[0]
  {
    FirstQuadMix(p0.x, c.x, p.x);
    FirstQuadMix(p0.x, c'.x, p.x);
    FirstQuadMix(p0.y, c.y, p.y);
    FirstQuadMix(p0.y, c'.y, p.y);
  }

  lemma DifferentTails<T>(a: seq<T>, b: seq<T>, c: seq<T>)
    requires b != [] && c != [] && b[0] != c[0]
    ensures a + b != a + c
  {
    assert (a + b)[|a|] != (a + c)[|a|];
  }

  /** A smooth cubic draws what it would draw without a last control if and only if that control is where the pen is. */
  lemma SmoothCubicForgets(pen: Pen, c: Pt, op: Op)
    requires WellFormed(op) && IsSmoothCubic(op) && pen.cubic == Some(c)
    ensures Exec(pen, op).out == Exec(pen.(cubic := None), op).out <==> c == pen.cur
    ensures c == pen.cur ==> Exec(pen, op) == Exec(Forgotten(pen), op)
  {
    MirrorIsCur(c, pen.cur);
    if c != pen.cur {
      var rel := IsRelative(op.cmd);
      var c2, p := Place(rel, pen.cur, op.args[0], op.args[1]), Place(rel, pen.cur, op.args[2], op.args[3]);
      CubicDiffers(pen.cur, Mirror(pen.cubic, pen.cur), pen.cur, c2, p);
      DifferentTails(pen.out, Cubic(pen.cur, Mirror(pen.cubic, pen.cur), c2, p), Cubic(pen.cur, pen.cur, c2, p));
    }
  }

  lemma SmoothQuadForgets(pen: Pen, c: Pt, op: Op)
    requires WellFormed(op) && IsSmoothQuad(op) && pen.quad == Some(c)
    ensures Exec(pen, op).out == Exec(pen.(quad := None), op).out <==> c == pen.cur
    ensures c == pen.cur ==> Exec(pen, op) == Exec(Forgotten(pen), op)
  {
    MirrorIsCur(c, pen.cur);
    if c != pen.cur {
      var p := Place(IsRelative(op.cmd), pen.cur, op.args[0], op.args[1]);
      QuadDiffers(pen.cur, Mirror(pen.quad, pen.cur), pen.cur, p);
      DifferentTails(pen.out, Quad(pen.cur, Mirror(pen.quad, pen.cur), p), Quad(pen.cur, pen.cur, p));
    }
  }

  /** After a closepath, S and T draw what SVG says if and only if the control kept is the start of the subpath. */
  lemma AfterClose(pen: Pen, close: Op, op: Op)
    requires WellFormed(close) && IsClose(close.cmd) && WellFormed(op)
    ensures var z := Exec(pen, close);
            && (IsSmoothCubic(op) && pen.cubic.Some? ==>
                  (Exec(z, op).out == Exec(z.(cubic := None), op).out <==> pen.cubic.value == pen.start))
            && (IsSmoothQuad(op) && pen.quad.Some? ==>
                  (Exec(z, op).out == Exec(z.(quad := None), op).out <==> pen.quad.value == pen.start))
  {
    var z := Exec(pen, close);
    if IsSmoothCubic(op) && pen.cubic.Some? {
      SmoothCubicForgets(z, pen.cubic.value, op);
    }
    if IsSmoothQuad(op) && pen.quad.Some? {
      SmoothQuadForgets(z, pen.quad.value, op);
    }
  }

  // ---------- whole paths ----------

  /** The control the operation would start from, if it is a smooth one, is none or where the pen is. */
  predicate Harmless(pen: Pen, op: Op) {
    && (IsSmoothCubic(op) ==> pen.cubic.None? || pen.cubic.value == pen.cur)
    && (IsSmoothQuad(op) ==> pen.quad.None? || pen.quad.value == pen.cur)
  }

  /** No smooth command right after a closepath starts from a control that is elsewhere. */
  predicate ClosesHarmlessly(ops: seq<Op>)
    requires AllWellFormed(ops)
  {
    ops == []
    || (var n := |ops| - 1;
        ClosesHarmlessly(ops[..n]) && (n > 0 && IsClose(ops[n - 1].cmd) ==> Harmless(Run(ops[..n]), ops[n])))
  }

  predicate EndsClosed(ops: seq<Op>) { ops != [] && IsClose(ops[|ops| - 1].cmd) }

  /** Whether the pens agree but for what SVG forgets. */
  predicate Agree(closed: bool, pen: Pen, svg: Pen) { svg == if closed then Forgotten(pen) else pen }

  lemma HarmlessStep(closed: bool, pen: Pen, svg: Pen, op: Op)
    requires WellFormed(op) && Agree(closed, pen, svg) && (closed ==> Harmless(pen, op))
    ensures Agree(IsClose(op.cmd), Exec(pen, op), ExecSvg(svg, op))
  {
    if closed && IsSmoothCubic(op) && pen.cubic.Some? {
      SmoothCubicForgets(pen, pen.cubic.value, op);
    } else if closed && IsSmoothQuad(op) && pen.quad.Some? {
      SmoothQuadForgets(pen, pen.quad.value, op);
    }
  }

  lemma HarmfulStep(pen: Pen, svg: Pen, op: Op)
    requires WellFormed(op) && Agree(true, pen, svg) && !Harmless(pen, op)
    ensures Exec(pen, op).out != ExecSvg(svg, op).out
  {
    if IsSmoothCubic(op) {
      SmoothCubicForgets(pen, pen.cubic.value, op);
    } else {
      SmoothQuadForgets(pen, pen.quad.value, op);
    }
  }

  /** Points once drawn stay, and how many are added depends on the command alone. */
  lemma OutGrows(pen: Pen, pen': Pen, op: Op)
    requires WellFormed(op)
    ensures pen.out <= Exec(pen, op).out && pen'.out <= ExecSvg(pen', op).out
    ensures |Exec(pen, op).out| - |pen.out| == |ExecSvg(pen', op).out| - |pen'.out|
  {}

  lemma DifferenceStays(pen: Pen, svg: Pen, op: Op)
    requires WellFormed(op) && |pen.out| == |svg.out|
    ensures |Exec(pen, op).out| == |ExecSvg(svg, op).out|
    ensures pen.out != svg.out ==> Exec(pen, op).out != ExecSvg(svg, op).out
  {
    OutGrows(pen, svg, op);
  }

  lemma {:induction false} Follows(ops: seq<Op>)
    requires AllWellFormed(ops)
    ensures |Run(ops).out| == |RunSvg(ops).out|
    ensures ClosesHarmlessly(ops) ==> Agree(EndsClosed(ops), Run(ops), RunSvg(ops))
    ensures !ClosesHarmlessly(ops) ==> Run(ops).out != RunSvg(ops).out
  {
    if ops != [] {
      var n := |ops| - 1;
      var init, op := ops[..n], ops[n];
      Follows(init);
      DifferenceStays(Run(init), RunSvg(init), op);
      if ClosesHarmlessly(init) {
        if ClosesHarmlessly(ops) {
          HarmlessStep(EndsClosed(init), Run(init), RunSvg(init), op);
        } else {
          HarmfulStep(Run(init), RunSvg(init), op);
        }
      }
    }
  }

  /**
   A path is drawn as SVG would draw it if and only if no smooth command right after a closepath starts from a control
   that is not where the pen is.
   */
  lemma DrawnAsInSvg(ops: seq<Op>)
    requires AllWellFormed(ops)
    ensures Run(ops).out == RunSvg(ops).out <==> ClosesHarmlessly(ops)
  {
    Follows(ops);
  }

  // ---------- a text that is drawn differently ----------

  lemma RunAppend(ops: seq<Op>, op: Op)
    requires AllWellFormed(ops) && WellFormed(op)
    ensures Run(ops + [op]) == Exec(Run(ops), op)
  {
    assert (ops + [op])[..|ops + [op]| - 1] == ops;
  }

  const MOVE := Op('M', [0.0, 0.0])
  const BOW := Op('C', [0.0, 10.0, 10.0, 10.0, 10.0, 0.0])
  const CLOSE := Op('Z', [])
  const SMOOTH := Op('S', [20.0, 10.0, 20.0, 0.0])

  /** After M 0 0, C 0 10 10 10 10 0, Z the pen is home, and the control kept is at 10 10. */
  lemma BowIsKept()
    ensures AllWellFormed([MOVE, BOW, CLOSE])
    ensures var pen := Run([MOVE, BOW, CLOSE]);
            pen.cur == Pt(0.0, 0.0) && pen.cubic == Some(Pt(10.0, 10.0)) && |pen.out| == 1 + CURVE_SUBDIV
  {
    RunAppend([], MOVE);
    RunAppend([MOVE], BOW);
    RunAppend([MOVE, BOW], CLOSE);
    assert [] + [MOVE] == [MOVE] && [MOVE] + [BOW] == [MOVE, BOW] && [MOVE, BOW] + [CLOSE] == [MOVE, BOW, CLOSE];
  }

  /** The text of M 0 0, C 0 10 10 10 10 0, Z, S 20 10 20 0 is parsed to an outline that is not the one SVG draws. */
  lemma ReopenedBow()
    ensures var ops := [MOVE, BOW, CLOSE] + [SMOOTH];
            AllWellFormed(ops) && Outline(PrintOps(ops)) == Ok(Run(ops).out) && Run(ops).out != RunSvg(ops).out
  {
    var bow := [MOVE, BOW, CLOSE];
    var ops := bow + [SMOOTH];
    BowIsKept();
    RunAppend(bow, SMOOTH);
    assert ops[..3] == bow && !Harmless(Run(bow), SMOOTH);
    assert !ClosesHarmlessly(ops);
    DrawnAsInSvg(ops);
    WholeNumbers(ops);
    RoundedOnGrid(ops);
    OutlineOfPrinted(ops);
  }

  lemma WholeNumbers(ops: seq<Op>)
    requires ops == [MOVE, BOW, CLOSE] + [SMOOTH]
    ensures OpsOnGrid(ops)
  {
    assert OnGrid(0.0) && OnGrid(10.0) && OnGrid(20.0);
  }
}
