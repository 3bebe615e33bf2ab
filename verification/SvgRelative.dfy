/** Relative commands mean the same as their translation to absolute ones, in operations and in text. */
module SvgRelative {
  import opened Wrappers
  import opened Geometry
  import opened SvgNumber
  import opened SvgPath
  import opened SvgPrint

  /** Arguments displaced by the pen: x and y in turn. */
  function Displaced(cur: Pt, args: seq<real>): seq<real> {
    seq(|args|, i requires 0 <= i < |args| => args[i] + if i % 2 == 0 then cur.x else cur.y)
  }

  /** The absolute operation that does what `op` does with the pen at `cur`. */
  function ToAbsolute(cur: Pt, op: Op): Op
    requires WellFormed(op)
  {
    if !IsRelative(op.cmd) then op else
    Op(Upper(op.cmd), if op.cmd == 'v' then [cur.y + op.args[0]] else Displaced(cur, op.args))
  }

  /** The whole path with every relative operation translated. */
  function Absolute(ops: seq<Op>): (r: seq<Op>)
    requires AllWellFormed(ops)
    ensures |r| == |ops|
  {
    if ops == [] then [] else
    var init := ops[..|ops| - 1];
    Absolute(init) + [ToAbsolute(Run(init).cur, ops[|ops| - 1])]
  }

  lemma ToAbsoluteDrawsTheSame(pen: Pen, op: Op)
    requires WellFormed(op)
    ensures var abs := ToAbsolute(pen.cur, op);
            WellFormed(abs) && !IsRelative(abs.cmd) && Exec(pen, abs) == Exec(pen, op)
  {}

  /** Translating a path leaves no relative command and draws the same outline. */
  lemma {:induction false} AbsoluteDrawsTheSame(ops: seq<Op>)
    requires AllWellFormed(ops)
    ensures AllWellFormed(Absolute(ops))
    ensures forall i :: 0 <= i < |ops| ==> !IsRelative(Absolute(ops)[i].cmd)
    ensures Run(Absolute(ops)) == Run(ops)
  {
    if ops != [] {
      var init, op := ops[..|ops| - 1], ops[|ops| - 1];
      AbsoluteDrawsTheSame(init);
      ToAbsoluteDrawsTheSame(Run(init), op);
      assert Absolute(ops)[..|ops| - 1] == Absolute(init);
    }
  }

  // ---------- two-decimal paths stay two-decimal ----------

  predicate ArgsOnGrid(args: seq<real>) { forall i :: 0 <= i < |args| ==> OnGrid(args[i]) }

  predicate OpsOnGrid(ops: seq<Op>) { forall i :: 0 <= i < |ops| ==> ArgsOnGrid(ops[i].args) }

  predicate PenOnGrid(pen: Pen) {
    OnGrid(pen.cur.x) && OnGrid(pen.cur.y) && OnGrid(pen.start.x) && OnGrid(pen.start.y)
  }

  /** Numbers that follow a moveto are read as after a lineto of the same kind. */
  lemma MovetoGoesOnAsLineto(s: string, p: nat, move: char, line: char)
    requires p <= |s| && move in {'M', 'm'} && line == (if move == 'M' then 'L' else 'l')
    ensures Decode(s, p, move) == Decode(s, p, line)
  {
    assert Implied(move) == line && Implied(line) == line;
  }

  lemma GridSum(a: real, b: real)
    requires OnGrid(a) && OnGrid(b)
    ensures OnGrid(a + b)
  {
    var k := (100.0 * a).Floor + (100.0 * b).Floor;
    assert 100.0 * (a + b) == k as real;
  }

  lemma DisplacedOnGrid(cur: Pt, args: seq<real>)
    requires OnGrid(cur.x) && OnGrid(cur.y) && ArgsOnGrid(args)
    ensures ArgsOnGrid(Displaced(cur, args))
  {
    forall i | 0 <= i < |args|
      ensures OnGrid(Displaced(cur, args)[i])
    {
      GridSum(args[i], if i % 2 == 0 then cur.x else cur.y);
    }
  }

  lemma ToAbsoluteOnGrid(cur: Pt, op: Op)
    requires WellFormed(op) && ArgsOnGrid(op.args) && OnGrid(cur.x) && OnGrid(cur.y)
    ensures ArgsOnGrid(ToAbsolute(cur, op).args)
  {
    DisplacedOnGrid(cur, op.args);
    if op.cmd == 'v' {
      GridSum(cur.y, op.args[0]);
    }
  }

  lemma {:induction false} AbsoluteOnGrid(ops: seq<Op>)
    requires AllWellFormed(ops) && OpsOnGrid(ops)
    ensures OpsOnGrid(Absolute(ops)) && PenOnGrid(Run(ops))
  {
    if ops != [] {
      var init, op := ops[..|ops| - 1], ops[|ops| - 1];
      AbsoluteOnGrid(init);
      var pen := Run(init);
      ToAbsoluteOnGrid(pen.cur, op);
      ToAbsoluteDrawsTheSame(pen, op);
    }
  }

  lemma RoundedOnGrid(ops: seq<Op>)
    requires OpsOnGrid(ops)
    ensures RoundedOps(ops) == ops
  {
    forall i | 0 <= i < |ops|
      ensures RoundedOp(ops[i]) == ops[i]
    {
      forall k | 0 <= k < |ops[i].args|
        ensures Rounded(ops[i].args[k]) == ops[i].args[k]
      {
        RoundedIsExact(ops[i].args[k], (100.0 * ops[i].args[k]).Floor);
      }
    }
  }

  /**
   For every path text that decodes: drawing its absolute translation gives the outline the parser gives.  When
   its numbers have two decimals, the translation can be printed, and its text parses to that same outline.
   */
  lemma AbsoluteTextSameOutline(s: string)
    requires Decode(s, 0, NO_COMMAND).Ok?
    ensures var ops := Decode(s, 0, NO_COMMAND).value;
            AllWellFormed(Absolute(ops)) && Finish(Run(Absolute(ops))) == Outline(s)
            && (OpsOnGrid(ops) ==> Outline(PrintOps(Absolute(ops))) == Outline(s))
  {
    var ops := Decode(s, 0, NO_COMMAND).value;
    AbsoluteDrawsTheSame(ops);
    if OpsOnGrid(ops) {
      AbsoluteOnGrid(ops);
      RoundedOnGrid(Absolute(ops));
      OutlineOfPrinted(Absolute(ops));
    }
  }
}
