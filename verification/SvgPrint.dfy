/**
 Printing paths.  Any well-formed list of operations survives printing and parsing up to the rounding of its
 numbers to two decimals; the frames of the loader are a special case.
 */
module SvgPrint {
  import opened Wrappers
  import opened Geometry
  import opened Pieces
  import opened SvgNumber
  import opened SvgPath

  // ---------- the text of a path ----------

  /** The texts from the `k`-th on, one after the other. */
  function ConcatFrom(texts: seq<string>, k: nat): string
    decreases |texts| - k
  {
    if k >= |texts| then "" else texts[k] + ConcatFrom(texts, k + 1)
  }

  /** An argument of a command; all but the first come after a space. */
  function ArgText(args: seq<real>, i: nat): string
    requires i < |args|
  {
    if i == 0 then Fixed2(args[i]) else [' '] + Fixed2(args[i])
  }

  function ArgTexts(args: seq<real>): seq<string> {
    seq(|args|, i requires 0 <= i < |args| => ArgText(args, i))
  }

  function PrintArgs(args: seq<real>): string { ConcatFrom(ArgTexts(args), 0) }

  function PrintOp(op: Op): string { [op.cmd] + PrintArgs(op.args) }

  function OpTexts(ops: seq<Op>): seq<string> {
    seq(|ops|, i requires 0 <= i < |ops| => PrintOp(ops[i]))
  }

  function PrintOps(ops: seq<Op>): string { ConcatFrom(OpTexts(ops), 0) }

  /** What two-decimal printing leaves of numbers, operations and points. */
  function RoundedArgs(args: seq<real>): seq<real> {
    seq(|args|, i requires 0 <= i < |args| => Rounded(args[i]))
  }

  function RoundedOp(op: Op): Op { Op(op.cmd, RoundedArgs(op.args)) }

  function RoundedOps(ops: seq<Op>): seq<Op> {
    seq(|ops|, i requires 0 <= i < |ops| => RoundedOp(ops[i]))
  }

  function RoundedPoint(p: Pt): Pt { Pt(Rounded(p.x), Rounded(p.y)) }

  // ---------- reading a printed path ----------

  /** From `p` to `end`, the text is the texts from the `k`-th on. */
  ghost predicate ConcatAt(s: string, p: nat, texts: seq<string>, k: nat, end: nat) {
    k <= |texts| && At(s, p, ConcatFrom(texts, k)) && p + |ConcatFrom(texts, k)| == end
  }

  lemma ConcatStep(s: string, p: nat, texts: seq<string>, k: nat, end: nat)
    requires ConcatAt(s, p, texts, k, end) && k < |texts|
    ensures At(s, p, texts[k]) && ConcatAt(s, p + |texts[k]|, texts, k + 1, end)
  {
    AtSplit(s, p, texts[k], ConcatFrom(texts, k + 1));
  }

  /** Wherever `t` stands in a text, the lexer reads it as `v`. */
  ghost predicate Spells(t: string, v: real) {
    forall s, p: nat {:trigger At(s, p, t)} :: At(s, p, t) && EndsNumber(s, p + |t|) ==>
      ReadNumber(s, p) == Some((v, p + |t|))
  }

  lemma SpelledAlone(x: real)
    ensures Spells(Fixed2(x), Rounded(x))
  {
    forall s, p: nat | At(s, p, Fixed2(x)) && EndsNumber(s, p + |Fixed2(x)|)
      ensures ReadNumber(s, p) == Some((Rounded(x), p + |Fixed2(x)|))
    {
      ReadPrinted(s, p, x);
    }
  }

  lemma ReadAfterSpace(s: string, p: nat, t: string, v: real)
    requires At(s, p, [' '] + t) && EndsNumber(s, p + 1 + |t|) && Spells(t, v)
    ensures ReadNumber(s, p) == Some((v, p + 1 + |t|))
  {
    AtSplit(s, p, [' '], t);
    ItemAt(s, p, [' '], 0);
    assert ReadNumber(s, p + 1) == Some((v, p + 1 + |t|));
  }

  lemma SpelledSpaced(t: string, v: real)
    requires Spells(t, v)
    ensures Spells([' '] + t, v)
  {
    forall s, p: nat | At(s, p, [' '] + t) && EndsNumber(s, p + |[' '] + t|)
      ensures ReadNumber(s, p) == Some((v, p + |[' '] + t|))
    {
      ReadAfterSpace(s, p, t, v);
    }
  }

  /** The texts spell the values one by one, and each but the first starts with a space. */
  ghost predicate AllSpell(texts: seq<string>, values: seq<real>) {
    && |texts| == |values|
    && (forall i :: 0 <= i < |texts| ==> Spells(texts[i], values[i]))
    && (forall i :: 0 < i < |texts| ==> texts[i] != "" && texts[i][0] == ' ')
  }

  lemma ArgTextsSpell(args: seq<real>)
    ensures AllSpell(ArgTexts(args), RoundedArgs(args))
  {
    forall i | 0 <= i < |args|
      ensures Spells(ArgText(args, i), Rounded(args[i]))
    {
      SpelledAlone(args[i]);
      SpelledSpaced(Fixed2(args[i]), Rounded(args[i]));
    }
  }

  lemma ReadStep(s: string, p: nat, texts: seq<string>, vs: seq<real>, k: nat, end: nat)
    requires AllSpell(texts, vs) && k < |vs| && ConcatAt(s, p, texts, k, end) && EndsNumber(s, end)
    ensures p <= |s| && ReadNumber(s, p) == Some((vs[k], p + |texts[k]|))
    ensures ConcatAt(s, p + |texts[k]|, texts, k + 1, end)
  {
    ConcatStep(s, p, texts, k, end);
  }

  /** Reading the arguments after the first `k` of `vs` completes them, and ends at `end`. */
  ghost predicate Reads(s: string, p: nat, cmd: char, vs: seq<real>, k: nat, end: nat)
    requires p <= |s| && k <= |vs|
  {
    ReadArgs(s, p, cmd, vs[..k], |vs| - k) == Ok((vs, end))
  }

  lemma ReadFirst(s: string, p: nat, cmd: char, vs: seq<real>, k: nat, q: nat, end: nat)
    requires p <= |s| && q <= |s| && k < |vs|
    requires ReadNumber(s, p) == Some((vs[k], q)) && Reads(s, q, cmd, vs, k + 1, end)
    ensures Reads(s, p, cmd, vs, k, end)
  {
    assert vs[..k] + [vs[k]] == vs[..k + 1];
  }

  lemma ReadNone(s: string, p: nat, cmd: char, texts: seq<string>, vs: seq<real>, k: nat, end: nat)
    requires k == |vs| == |texts| && ConcatAt(s, p, texts, k, end)
    ensures Reads(s, p, cmd, vs, k, end)
  {
    assert ConcatFrom(texts, k) == "";
    assert vs[..k] == vs;
  }

  lemma {:induction false} ReadAll(s: string, p: nat, cmd: char, texts: seq<string>, vs: seq<real>, k: nat, end: nat)
    requires AllSpell(texts, vs) && ConcatAt(s, p, texts, k, end) && EndsNumber(s, end)
    ensures Reads(s, p, cmd, vs, k, end)
    decreases |vs| - k
  {
    if k == |vs| {
      ReadNone(s, p, cmd, texts, vs, k, end);
    } else {
      ReadStep(s, p, texts, vs, k, end);
      ReadAll(s, p + |texts[k]|, cmd, texts, vs, k + 1, end);
      ReadFirst(s, p, cmd, vs, k, p + |texts[k]|, end);
    }
  }

  lemma LetterOf(op: Op)
    requires WellFormed(op)
    ensures IsAlpha(op.cmd) && !IsSep(op.cmd) && !IsDigit(op.cmd) && !IsExp(op.cmd)
    ensures !IsClose(op.cmd) ==> Arity(op.cmd) == Some(|op.args|)
  {}

  /** From `p` to its end, the text is that of the operations from the `k`-th on. */
  ghost predicate PrintedAt(s: string, p: nat, ops: seq<Op>, k: nat) {
    ConcatAt(s, p, OpTexts(ops), k, |s|)
  }

  lemma OpAt(s: string, p: nat, op: Op)
    requires At(s, p, PrintOp(op))
    ensures p < |s| && s[p] == op.cmd && At(s, p + 1, PrintArgs(op.args))
  {
    AtSplit(s, p, [op.cmd], PrintArgs(op.args));
    ItemAt(s, p, [op.cmd], 0);
  }

  lemma FirstPrinted(s: string, p: nat, ops: seq<Op>, k: nat)
    requires PrintedAt(s, p, ops, k) && k < |ops|
    ensures p < |s| && s[p] == ops[k].cmd && At(s, p + 1, PrintArgs(ops[k].args))
    ensures PrintedAt(s, p + |PrintOp(ops[k])|, ops, k + 1)
  {
    ConcatStep(s, p, OpTexts(ops), k, |s|);
    OpAt(s, p, ops[k]);
  }

  /** The text from `p` on decodes to `ops`. */
  ghost predicate Decodes(s: string, p: nat, last: char, ops: seq<Op>)
    requires p <= |s|
  {
    Decode(s, p, last) == Ok(ops)
  }

  lemma DecodeClose(s: string, p: nat, last: char, ops: seq<Op>)
    requires p < |s| && IsClose(s[p]) && Decodes(s, p + 1, s[p], ops)
    ensures Decodes(s, p, last, [Op(s[p], [])] + ops)
  {}

  lemma DecodeArgs(s: string, p: nat, op: Op, q: nat)
    requires p <= |s| && q <= |s| && Arity(op.cmd) == Some(|op.args|)
    requires ReadArgs(s, p, op.cmd, [], |op.args|) == Ok((op.args, q))
    ensures DecodeOp(s, p, op.cmd) == Prepend(op, Decode(s, q, op.cmd))
  {}

  lemma DecodeLetter(s: string, p: nat, last: char)
    requires p < |s| && IsAlpha(s[p]) && !IsClose(s[p])
    ensures Decode(s, p, last) == DecodeOp(s, p + 1, s[p])
  {}

  lemma DecodeOnePrinted(s: string, p: nat, last: char, op: Op, q: nat, ops: seq<Op>)
    requires WellFormed(op) && p < |s| && s[p] == op.cmd && At(s, p + 1, PrintArgs(op.args))
    requires q == p + 1 + |PrintArgs(op.args)| && EndsNumber(s, q) && Decodes(s, q, op.cmd, ops)
    ensures Decodes(s, p, last, [RoundedOp(op)] + ops)
  {
    LetterOf(op);
    if IsClose(op.cmd) {
      assert RoundedArgs(op.args) == [] && PrintArgs(op.args) == "";
      DecodeClose(s, p, last, ops);
    } else {
      ArgTextsSpell(op.args);
      ReadAll(s, p + 1, op.cmd, ArgTexts(op.args), RoundedArgs(op.args), 0, q);
      assert RoundedArgs(op.args)[..0] == [];
      DecodeArgs(s, p + 1, RoundedOp(op), q);
      DecodeLetter(s, p, last);
    }
  }

  lemma DecodeFirst(s: string, p: nat, last: char, ops: seq<Op>, k: nat, q: nat, rest: seq<Op>)
    requires PrintedAt(s, p, ops, k) && AllWellFormed(ops) && k < |ops| && q == p + |PrintOp(ops[k])| <= |s|
    requires Decodes(s, q, ops[k].cmd, rest)
    ensures Decodes(s, p, last, [RoundedOp(ops[k])] + rest)
  {
    FirstPrinted(s, p, ops, k);
    DecodeOnePrinted(s, p, last, ops[k], q, rest);
  }

  lemma RoundedCons(ops: seq<Op>, k: nat)
    requires k < |ops|
    ensures [RoundedOp(ops[k])] + RoundedOps(ops)[k + 1..] == RoundedOps(ops)[k..]
  {}

  /** Decoding undoes printing, whatever command came before. */
  lemma {:induction false} DecodePrinted(s: string, p: nat, last: char, ops: seq<Op>, k: nat)
    requires PrintedAt(s, p, ops, k) && AllWellFormed(ops)
    ensures Decodes(s, p, last, RoundedOps(ops)[k..])
    decreases |ops| - k
  {
    if k < |ops| {
      FirstPrinted(s, p, ops, k);
      var q := p + |PrintOp(ops[k])|;
      DecodePrinted(s, q, ops[k].cmd, ops, k + 1);
      DecodeFirst(s, p, last, ops, k, q, RoundedOps(ops)[k + 1..]);
      RoundedCons(ops, k);
    } else {
      assert RoundedOps(ops)[k..] == [];
    }
  }

  /** Parsing the text of any operations draws them with every number rounded to two decimals. */
  lemma OutlineOfPrinted(ops: seq<Op>)
    requires AllWellFormed(ops)
    ensures AllWellFormed(RoundedOps(ops))
    ensures Outline(PrintOps(ops)) == Finish(Run(RoundedOps(ops)))
  {
    AtWhole(PrintOps(ops));
    DecodePrinted(PrintOps(ops), 0, NO_COMMAND, ops, 0);
    assert RoundedOps(ops)[0..] == RoundedOps(ops);
  }

  // ---------- the frames of the loader ----------

  /** A frame outline as operations: move to the first point, draw lines to the others, close. */
  function FrameOp(pts: seq<Pt>, i: nat): Op
    requires i < |pts|
  {
    Op(if i == 0 then 'M' else 'L', [pts[i].x, pts[i].y])
  }

  function FrameLines(pts: seq<Pt>, n: nat): seq<Op>
    requires n <= |pts|
  {
    seq(n, i requires 0 <= i < n => FrameOp(pts, i))
  }

  function FrameOps(pts: seq<Pt>): seq<Op> { FrameLines(pts, |pts|) + [Op('Z', [])] }

  lemma {:induction false} ConcatAppend(texts: seq<string>, t: string, k: nat)
    requires k <= |texts|
    ensures ConcatFrom(texts + [t], k) == ConcatFrom(texts, k) + t
    decreases |texts| - k
  {
    if k == |texts| {
      assert ConcatFrom(texts + [t], k + 1) == "";
    } else {
      ConcatAppend(texts, t, k + 1);
    }
  }

  lemma PrintAppend(ops: seq<Op>, op: Op)
    ensures PrintOps(ops + [op]) == PrintOps(ops) + PrintOp(op)
  {
    ConcatAppend(OpTexts(ops), PrintOp(op), 0);
    assert OpTexts(ops + [op]) == OpTexts(ops) + [PrintOp(op)];
  }

  /** `frame_commands` for one facet: appends each point to the text as it goes. */
  method FrameCommand(pts: seq<Pt>) returns (d: string)
    ensures d == PrintOps(FrameOps(pts))
  {
    d := "";
    for k := 0 to |pts|
      invariant d == PrintOps(FrameLines(pts, k))
    {
      FrameStep(pts, k);
      d := d + [if k == 0 then 'M' else 'L'] + Fixed2(pts[k].x) + " " + Fixed2(pts[k].y);
    }
    PrintAppend(FrameLines(pts, |pts|), Op('Z', []));
    assert PrintOp(Op('Z', [])) == "Z";
    d := d + "Z";
  }

  lemma FrameStep(pts: seq<Pt>, k: nat)
    requires k < |pts|
    ensures PrintOps(FrameLines(pts, k + 1))
              == PrintOps(FrameLines(pts, k))
                 + [if k == 0 then 'M' else 'L'] + Fixed2(pts[k].x) + " " + Fixed2(pts[k].y)
  {
    FrameLinesStep(pts, k);
    PrintAppend(FrameLines(pts, k), FrameOp(pts, k));
    PrintedPoint(PrintOps(FrameLines(pts, k)), if k == 0 then 'M' else 'L', pts[k].x, pts[k].y);
  }

  lemma FrameLinesStep(pts: seq<Pt>, k: nat)
    requires k < |pts|
    ensures FrameLines(pts, k + 1) == FrameLines(pts, k) + [FrameOp(pts, k)]
  {}

  lemma PrintedPoint(before: string, cmd: char, x: real, y: real)
    ensures before + PrintOp(Op(cmd, [x, y])) == before + [cmd] + Fixed2(x) + " " + Fixed2(y)
  {
    assert ArgTexts([x, y]) == [Fixed2(x), [' '] + Fixed2(y)];
    ConcatTwo(before, cmd, Fixed2(x), Fixed2(y));
  }

  lemma ConcatTwo(before: string, cmd: char, a: string, b: string)
    ensures before + ([cmd] + ConcatFrom([a, [' '] + b], 0)) == before + [cmd] + a + " " + b
  {
    assert ConcatFrom([a, [' '] + b], 2) == "";
    assert ConcatFrom([a, [' '] + b], 1) == [' '] + b;
  }

  function RoundedPoints(pts: seq<Pt>, n: nat): seq<Pt>
    requires n <= |pts|
  {
    seq(n, i requires 0 <= i < n => RoundedPoint(pts[i]))
  }

  lemma {:induction false} RunLines(pts: seq<Pt>, n: nat)
    requires n <= |pts|
    ensures AllWellFormed(RoundedOps(FrameLines(pts, n)))
    ensures Run(RoundedOps(FrameLines(pts, n))).out == RoundedPoints(pts, n)
    decreases n
  {
    if n > 0 {
      RunLines(pts, n - 1);
      var ops := RoundedOps(FrameLines(pts, n));
      assert ops[..n - 1] == RoundedOps(FrameLines(pts, n - 1));
      assert ops[n - 1].args == [Rounded(pts[n - 1].x), Rounded(pts[n - 1].y)];
      assert RoundedPoints(pts, n) == RoundedPoints(pts, n - 1) + [RoundedPoint(pts[n - 1])];
    }
  }

  lemma RoundedFrame(pts: seq<Pt>)
    ensures RoundedOps(FrameOps(pts)) == RoundedOps(FrameLines(pts, |pts|)) + [Op('Z', [])]
  {
    assert RoundedOp(Op('Z', [])) == Op('Z', []);
  }

  lemma RunClosed(ops: seq<Op>)
    requires AllWellFormed(ops)
    ensures AllWellFormed(ops + [Op('Z', [])]) && Run(ops + [Op('Z', [])]).out == Run(ops).out
  {}

  /**
   The text of a frame parses back to its points, each coordinate rounded to two decimals, if and only if the
   frame has at least three points; otherwise the parser calls it degenerate.
   */
  lemma FrameRoundTrip(pts: seq<Pt>)
    ensures Outline(PrintOps(FrameOps(pts)))
              == if |pts| < 3 then Err(Degenerate(|pts|)) else Ok(RoundedPoints(pts, |pts|))
  {
    OutlineOfPrinted(FrameOps(pts));
    RunLines(pts, |pts|);
    RoundedFrame(pts);
    RunClosed(RoundedOps(FrameLines(pts, |pts|)));
  }

  /** A number with two decimals. */
  predicate OnGrid(x: real) { 100.0 * x == (100.0 * x).Floor as real }

  /** Two-decimal frames are read back exactly; any other frame to within half a hundredth. */
  lemma FrameReadBack(pts: seq<Pt>)
    requires |pts| >= 3
    ensures var r := Outline(PrintOps(FrameOps(pts)));
            r.Ok? && |r.value| == |pts|
            && (forall i :: 0 <= i < |pts| ==>
                  && -0.005 <= r.value[i].x - pts[i].x <= 0.005
                  && -0.005 <= r.value[i].y - pts[i].y <= 0.005)
            && ((forall i :: 0 <= i < |pts| ==> OnGrid(pts[i].x) && OnGrid(pts[i].y)) ==> r.value == pts)
  {
    FrameRoundTrip(pts);
    forall i | 0 <= i < |pts|
      ensures -0.005 <= Rounded(pts[i].x) - pts[i].x <= 0.005
      ensures -0.005 <= Rounded(pts[i].y) - pts[i].y <= 0.005
      ensures OnGrid(pts[i].x) && OnGrid(pts[i].y) ==> RoundedPoint(pts[i]) == pts[i]
    {
      RoundedIsClose(pts[i].x);
      RoundedIsClose(pts[i].y);
      if OnGrid(pts[i].x) && OnGrid(pts[i].y) {
        RoundedIsExact(pts[i].x, (100.0 * pts[i].x).Floor);
        RoundedIsExact(pts[i].y, (100.0 * pts[i].y).Floor);
      }
    }
  }
}
