/**
 The SVG outline parser of the loader, specified in two stages: `Decode` turns text into drawing
 operations, and `Run` draws them with a pen.  `SampleSvgOutline` does both with one cursor, as the source does.
 */
module SvgPath {
  import opened Wrappers
  import opened Geometry
  import opened SvgNumber

  /** Why an outline is refused.  `Degenerate` carries how many points were drawn. */
  datatype PathError =
    | NoCommand
    | ExpectedNumber(cmd: char, arg: nat)
    | Unsupported(cmd: char)
    | Degenerate(points: nat)

  // ---------- operations ----------

  /** One drawing operation: a command letter and its arguments. */
  datatype Op = Op(cmd: char, args: seq<real>)

  /** Stands for "no command read yet". */
  const NO_COMMAND: char := 0 as char

  predicate IsRelative(cmd: char) { 'a' <= cmd <= 'z' }

  function Upper(cmd: char): char {
    if IsRelative(cmd) then cmd - 'a' + 'A' else cmd
  }

  /** How many numbers a command takes; `None` for letters that are not drawing commands. */
  function Arity(cmd: char): (n: Option<nat>)
    ensures n.Some? ==> 0 < n.value <= 6
  {
    match Upper(cmd)
    case 'M' => Some(2)
    case 'L' => Some(2)
    case 'H' => Some(1)
    case 'V' => Some(1)
    case 'C' => Some(6)
    case 'S' => Some(4)
    case 'Q' => Some(4)
    case 'T' => Some(2)
    case _ => None
  }

  predicate IsClose(cmd: char) { cmd == 'Z' || cmd == 'z' }

  predicate WellFormed(op: Op) {
    if IsClose(op.cmd) then op.args == [] else Arity(op.cmd) == Some(|op.args|)
  }

  // ---------- drawing ----------

  /** How many chords a curve is flattened into. */
  const CURVE_SUBDIV: nat := 48

  /** The pen: points drawn so far, position, subpath start, and the controls smooth curves reflect. */
  datatype Pen = Pen(out: seq<Pt>, cur: Pt, start: Pt, cubic: Option<Pt>, quad: Option<Pt>)

  const FRESH_PEN: Pen := Pen([], Pt(0.0, 0.0), Pt(0.0, 0.0), None, None)

  /** One coordinate of a cubic curve, from those of its control points. */
  function CubicMix(a: real, b: real, c: real, d: real, t: real): real {
    var mt := 1.0 - t;
    mt * mt * mt * a + 3.0 * mt * mt * t * b + 3.0 * mt * t * t * c + t * t * t * d
  }

  function QuadMix(a: real, b: real, c: real, t: real): real {
    var mt := 1.0 - t;
    mt * mt * a + 2.0 * mt * t * b + t * t * c
  }

  function CubicPoint(p0: Pt, c1: Pt, c2: Pt, p3: Pt, t: real): Pt {
    Pt(CubicMix(p0.x, c1.x, c2.x, p3.x, t), CubicMix(p0.y, c1.y, c2.y, p3.y, t))
  }

  function QuadPoint(p0: Pt, c: Pt, p2: Pt, t: real): Pt {
    Pt(QuadMix(p0.x, c.x, p2.x, t), QuadMix(p0.y, c.y, p2.y, t))
  }

  function Param(i: nat): real { i as real / CURVE_SUBDIV as real }

  /** The chord ends of a flattened curve: its points at 1/48, 2/48, ..., 1. */
  function Cubic(p0: Pt, c1: Pt, c2: Pt, p3: Pt): seq<Pt> {
    seq(CURVE_SUBDIV, (i: nat) => CubicPoint(p0, c1, c2, p3, Param(i + 1)))
  }

  function Quad(p0: Pt, c: Pt, p2: Pt): seq<Pt> {
    seq(CURVE_SUBDIV, (i: nat) => QuadPoint(p0, c, p2, Param(i + 1)))
  }

  /** Where an argument pair lands: as given, or displaced from the pen. */
  function Place(rel: bool, cur: Pt, x: real, y: real): Pt {
    if rel then Pt(cur.x + x, cur.y + y) else Pt(x, y)
  }

  /** The control point a smooth curve starts with: the last one mirrored about the pen. */
  function Mirror(ctrl: Option<Pt>, cur: Pt): Pt {
    match ctrl
    case Some(c) => Pt(2.0 * cur.x - c.x, 2.0 * cur.y - c.y)
    case None => cur
  }

  function LineTo(pen: Pen, p: Pt): Pen {
    Pen(pen.out + [p], p, pen.start, None, None)
  }

  function CubicTo(pen: Pen, c1: Pt, c2: Pt, p: Pt): Pen {
    Pen(pen.out + Cubic(pen.cur, c1, c2, p), p, pen.start, Some(c2), None)
  }

  function QuadTo(pen: Pen, c: Pt, p: Pt): Pen {
    Pen(pen.out + Quad(pen.cur, c, p), p, pen.start, None, Some(c))
  }

  /** Draws one operation.  Closing moves the pen home and, unlike in SVG, keeps the smooth controls. */
  function Exec(pen: Pen, op: Op): Pen
    requires WellFormed(op)
  {
    var rel := IsRelative(op.cmd);
    var a := op.args;
    var cur := pen.cur;
    match Upper(op.cmd)
    case 'M' => LineTo(pen, Place(rel, cur, a[0], a[1])).(start := Place(rel, cur, a[0], a[1]))
    case 'L' => LineTo(pen, Place(rel, cur, a[0], a[1]))
    case 'H' => LineTo(pen, Pt(if rel then cur.x + a[0] else a[0], cur.y))
    case 'V' => LineTo(pen, Pt(cur.x, if rel then cur.y + a[0] else a[0]))
    case 'C' => CubicTo(pen, Place(rel, cur, a[0], a[1]), Place(rel, cur, a[2], a[3]), Place(rel, cur, a[4], a[5]))
    case 'S' => CubicTo(pen, Mirror(pen.cubic, cur), Place(rel, cur, a[0], a[1]), Place(rel, cur, a[2], a[3]))
    case 'Q' => QuadTo(pen, Place(rel, cur, a[0], a[1]), Place(rel, cur, a[2], a[3]))
    case 'T' => QuadTo(pen, Mirror(pen.quad, cur), Place(rel, cur, a[0], a[1]))
    case _ => pen.(cur := pen.start)
  }

  predicate AllWellFormed(ops: seq<Op>) {
    forall i :: 0 <= i < |ops| ==> WellFormed(ops[i])
  }

  function Run(ops: seq<Op>): Pen
    requires AllWellFormed(ops)
  {
    if ops == [] then FRESH_PEN else Exec(Run(ops[..|ops| - 1]), ops[|ops| - 1])
  }

  // ---------- reading ----------

  /** Reads `n` more arguments of a command. */
  function ReadArgs(s: string, p: nat, cmd: char, args: seq<real>, n: nat): (r: Result<(seq<real>, nat), PathError>)
    requires p <= |s|
    ensures r.Ok? ==> |r.value.0| == |args| + n && p <= r.value.1 <= |s| && (n > 0 ==> p < r.value.1)
    decreases n
  {
    if n == 0 then Ok((args, p)) else
    match ReadNumber(s, p)
    case None => Err(ExpectedNumber(cmd, |args|))
    case Some((v, q)) => ReadArgs(s, q, cmd, args + [v], n - 1)
  }

  /** Coordinates that follow a moveto without a letter draw lines. */
  function Implied(cmd: char): char {
    if cmd == 'M' then 'L' else if cmd == 'm' then 'l' else cmd
  }

  function Prepend(op: Op, r: Result<seq<Op>, PathError>): Result<seq<Op>, PathError> {
    match r
    case Ok(ops) => Ok([op] + ops)
    case Err(e) => Err(e)
  }

  /** The operations the text from `p` on spells, when `cmd` was the last command read. */
  function Decode(s: string, p: nat, cmd: char): (r: Result<seq<Op>, PathError>)
    requires p <= |s|
    ensures r.Ok? ==> AllWellFormed(r.value)
    decreases |s| - p, 1
  {
    var q := SkipSep(s, p);
    if q == |s| then Ok([])
    else if IsAlpha(s[q]) then
      if IsClose(s[q]) then Prepend(Op(s[q], []), Decode(s, q + 1, s[q])) else DecodeOp(s, q + 1, s[q])
    else if cmd == NO_COMMAND then Err(NoCommand)
    else DecodeOp(s, q, Implied(cmd))
  }

  function DecodeOp(s: string, p: nat, cmd: char): (r: Result<seq<Op>, PathError>)
    requires p <= |s|
    ensures r.Ok? ==> AllWellFormed(r.value)
    decreases |s| - p, 0
  {
    match Arity(cmd)
    case None => Err(Unsupported(cmd))
    case Some(n) =>
      match ReadArgs(s, p, cmd, [], n)
      case Err(e) => Err(e)
      case Ok((args, q)) => Prepend(Op(cmd, args), Decode(s, q, cmd))
  }

  function Finish(pen: Pen): Result<seq<Pt>, PathError> {
    if |pen.out| < 3 then Err(Degenerate(|pen.out|)) else Ok(pen.out)
  }

  /** What the parser answers for a path text. */
  function Outline(s: string): Result<seq<Pt>, PathError> {
    match Decode(s, 0, NO_COMMAND)
    case Err(e) => Err(e)
    case Ok(ops) => Finish(Run(ops))
  }
}
