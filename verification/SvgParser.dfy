/** `sample_svg_outline`: the parser of the source, one cursor and one pen, against its two-stage specification. */
module SvgParser {
  import opened Wrappers
  import opened Geometry
  import opened SvgNumber
  import opened SvgPath

  /** Pushes the chord ends of a flattened cubic. */
  method FlattenCubic(out: seq<Pt>, p0: Pt, c1: Pt, c2: Pt, p3: Pt) returns (res: seq<Pt>)
    ensures res == out + Cubic(p0, c1, c2, p3)
  {
    res := out;
    for i := 0 to CURVE_SUBDIV
      invariant res == out + Cubic(p0, c1, c2, p3)[..i]
    {
      res := res + [CubicPoint(p0, c1, c2, p3, Param(i + 1))];
    }
  }

  /** Pushes the chord ends of a flattened quadratic. */
  method FlattenQuad(out: seq<Pt>, p0: Pt, c: Pt, p2: Pt) returns (res: seq<Pt>)
    ensures res == out + Quad(p0, c, p2)
  {
    res := out;
    for i := 0 to CURVE_SUBDIV
      invariant res == out + Quad(p0, c, p2)[..i]
    {
      res := res + [QuadPoint(p0, c, p2, Param(i + 1))];
    }
  }

  // ---------- the numbers of one command ----------

  /** What reading `n` arguments of `cmd` from `pos` must answer. */
  ghost predicate ArgsRead(s: string, pos: nat, cmd: char, n: nat, p: nat, r: Result<seq<real>, PathError>)
    requires pos <= |s|
  {
    && pos <= p <= |s|
    && (r.Err? ==> ReadArgs(s, pos, cmd, [], n) == Err(r.error))
    && (r.Ok? ==> ReadArgs(s, pos, cmd, [], n) == Ok((r.value, p)) && |r.value| == n)
  }

  /** Reads an argument pair; the ghost `n` says how many of the command's arguments are still to come. */
  method NextPair(s: string, pos: nat, cmd: char, args: seq<real>, ghost n: nat)
    returns (p: nat, r: Result<seq<real>, PathError>)
    requires pos <= |s| && n >= 2
    ensures pos <= p <= |s|
    ensures r.Err? ==> ReadArgs(s, pos, cmd, args, n) == Err(r.error)
    ensures r.Ok? ==> ReadArgs(s, pos, cmd, args, n) == ReadArgs(s, p, cmd, r.value, n - 2) && |r.value| == |args| + 2
  {
    var x, y;
    p, x := NextNumber(s, pos);
    if x.None? {
      return p, Err(ExpectedNumber(cmd, |args|));
    }
    p, y := NextNumber(s, p);
    if y.None? {
      return p, Err(ExpectedNumber(cmd, |args| + 1));
    }
    r := Ok(args + [x.value] + [y.value]);
  }

  method NextOne(s: string, pos: nat, cmd: char) returns (p: nat, r: Result<seq<real>, PathError>)
    requires pos <= |s|
    ensures ArgsRead(s, pos, cmd, 1, p, r)
  {
    var x;
    p, x := NextNumber(s, pos);
    if x.None? {
      return p, Err(ExpectedNumber(cmd, 0));
    }
    r := Ok([] + [x.value]);
  }

  method NextTwo(s: string, pos: nat, cmd: char) returns (p: nat, r: Result<seq<real>, PathError>)
    requires pos <= |s|
    ensures ArgsRead(s, pos, cmd, 2, p, r)
  {
    p, r := NextPair(s, pos, cmd, [], 2);
  }

  /** Two more pairs. */
  method NextPairs(s: string, pos: nat, cmd: char, args: seq<real>) returns (p: nat, r: Result<seq<real>, PathError>)
    requires pos <= |s|
    ensures pos <= p <= |s|
    ensures r.Err? ==> ReadArgs(s, pos, cmd, args, 4) == Err(r.error)
    ensures r.Ok? ==> ReadArgs(s, pos, cmd, args, 4) == Ok((r.value, p)) && |r.value| == |args| + 4
  {
    p, r := NextPair(s, pos, cmd, args, 4);
    if r.Ok? {
      p, r := NextPair(s, p, cmd, r.value, 2);
    }
  }

  method NextFour(s: string, pos: nat, cmd: char) returns (p: nat, r: Result<seq<real>, PathError>)
    requires pos <= |s|
    ensures ArgsRead(s, pos, cmd, 4, p, r)
  {
    p, r := NextPairs(s, pos, cmd, []);
  }

  method NextSix(s: string, pos: nat, cmd: char) returns (p: nat, r: Result<seq<real>, PathError>)
    requires pos <= |s|
    ensures ArgsRead(s, pos, cmd, 6, p, r)
  {
    p, r := NextPair(s, pos, cmd, [], 6);
    if r.Ok? {
      p, r := NextPairs(s, p, cmd, r.value);
    }
  }

  // ---------- drawing one command ----------

  /** M, L, H, V: a straight line, to a point or along one axis. */
  method DrawLine(pen: Pen, cmd: char, a: seq<real>) returns (next: Pen)
    requires WellFormed(Op(cmd, a)) && Upper(cmd) in {'M', 'L', 'H', 'V'}
    ensures next == Exec(pen, Op(cmd, a))
  {
    var rel, cur := IsRelative(cmd), pen.cur;
    match Upper(cmd) {
      case 'H' => cur := Pt(if rel then cur.x + a[0] else a[0], cur.y);
      case 'V' => cur := Pt(cur.x, if rel then cur.y + a[0] else a[0]);
      case _ => cur := Place(rel, cur, a[0], a[1]);
    }
    next := Pen(pen.out + [cur], cur, pen.start, None, None);
    if Upper(cmd) == 'M' {
      next := next.(start := cur);
    }
  }

  /** C, S: a cubic, whose first control is given or mirrored. */
  method DrawCubic(pen: Pen, cmd: char, a: seq<real>) returns (next: Pen)
    requires WellFormed(Op(cmd, a)) && Upper(cmd) in {'C', 'S'}
    ensures next == Exec(pen, Op(cmd, a))
  {
    var rel, cur := IsRelative(cmd), pen.cur;
    var c1, k := Mirror(pen.cubic, cur), 0;
    if Upper(cmd) == 'C' {
      c1, k := Place(rel, cur, a[0], a[1]), 2;
    }
    var c2 := Place(rel, cur, a[k], a[k + 1]);
    var end := Place(rel, cur, a[k + 2], a[k + 3]);
    var out := FlattenCubic(pen.out, cur, c1, c2, end);
    next := Pen(out, end, pen.start, Some(c2), None);
  }

  /** Q, T: a quadratic, whose control is given or mirrored. */
  method DrawQuad(pen: Pen, cmd: char, a: seq<real>) returns (next: Pen)
    requires WellFormed(Op(cmd, a)) && Upper(cmd) in {'Q', 'T'}
    ensures next == Exec(pen, Op(cmd, a))
  {
    var rel, cur := IsRelative(cmd), pen.cur;
    var c, k := Mirror(pen.quad, cur), 0;
    if Upper(cmd) == 'Q' {
      c, k := Place(rel, cur, a[0], a[1]), 2;
    }
    var end := Place(rel, cur, a[k], a[k + 1]);
    var out := FlattenQuad(pen.out, cur, c, end);
    next := Pen(out, end, pen.start, None, Some(c));
  }

  /** Reads one operation whose letter is known: its numbers, as many as the letter takes. */
  method NextOp(s: string, pos: nat, cmd: char) returns (p: nat, r: Result<seq<real>, PathError>)
    requires pos <= |s|
    ensures pos <= p <= |s|
    ensures r.Err? ==> DecodeOp(s, pos, cmd) == Err(r.error)
    ensures r.Ok? ==> WellFormed(Op(cmd, r.value)) && Arity(cmd).Some? && pos < p
    ensures r.Ok? ==> DecodeOp(s, pos, cmd) == Prepend(Op(cmd, r.value), Decode(s, p, cmd))
  {
    p, r := NextArgs(s, pos, cmd);
  }

  /** Reads the numbers of `cmd`, as many as it takes. */
  method NextArgs(s: string, pos: nat, cmd: char) returns (p: nat, r: Result<seq<real>, PathError>)
    requires pos <= |s|
    ensures match Arity(cmd)
            case None => r == Err(Unsupported(cmd)) && p == pos
            case Some(n) => ArgsRead(s, pos, cmd, n, p, r)
  {
    match Upper(cmd) {
      case 'M' => p, r := NextTwo(s, pos, cmd);
      case 'L' => p, r := NextTwo(s, pos, cmd);
      case 'H' => p, r := NextOne(s, pos, cmd);
      case 'V' => p, r := NextOne(s, pos, cmd);
      case 'C' => p, r := NextSix(s, pos, cmd);
      case 'S' => p, r := NextFour(s, pos, cmd);
      case 'Q' => p, r := NextFour(s, pos, cmd);
      case 'T' => p, r := NextTwo(s, pos, cmd);
      case _ => p, r := pos, Err(Unsupported(cmd));
    }
  }

  method Draw(pen: Pen, cmd: char, a: seq<real>) returns (next: Pen)
    requires WellFormed(Op(cmd, a)) && Arity(cmd).Some?
    ensures next == Exec(pen, Op(cmd, a))
  {
    if Upper(cmd) in {'C', 'S'} {
      next := DrawCubic(pen, cmd, a);
    } else if Upper(cmd) in {'Q', 'T'} {
      next := DrawQuad(pen, cmd, a);
    } else {
      next := DrawLine(pen, cmd, a);
    }
  }

  /** Z: the pen goes back to where the subpath started. */
  method ClosePath(pen: Pen, cmd: char) returns (next: Pen)
    requires IsClose(cmd)
    ensures WellFormed(Op(cmd, [])) && next == Exec(pen, Op(cmd, []))
  {
    next := pen.(cur := pen.start);
  }

  // ---------- the loop ----------

  /** `ops` were decoded before the rest of the text was. */
  ghost function After(ops: seq<Op>, r: Result<seq<Op>, PathError>): Result<seq<Op>, PathError> {
    match r
    case Ok(rest) => Ok(ops + rest)
    case Err(e) => Err(e)
  }

  lemma AfterNothing(r: Result<seq<Op>, PathError>)
    ensures After([], r) == r
  {
    if r.Ok? {
      assert [] + r.value == r.value;
    }
  }

  lemma AfterPrepend(ops: seq<Op>, op: Op, r: Result<seq<Op>, PathError>)
    ensures After(ops, Prepend(op, r)) == After(ops + [op], r)
  {
    match r {
      case Ok(rest) => assert ops + ([op] + rest) == ops + [op] + rest;
      case Err(_) =>
    }
  }

  /** What the loop finds at the cursor: nothing, a closepath, the numbers of a command, or numbers without one. */
  datatype Head = End | Close | Numbers | Missing

  method NextCommand(s: string, pos: nat, last: char) returns (p: nat, cmd: char, head: Head)
    requires pos <= |s|
    ensures pos <= p <= |s| && (head.Close? ==> pos < p)
    ensures head.Close? ==> IsClose(cmd)
    ensures Decode(s, pos, last)
              == match head
                 case End => Ok([])
                 case Missing => Err(NoCommand)
                 case Close => Prepend(Op(cmd, []), Decode(s, p, cmd))
                 case Numbers => DecodeOp(s, p, cmd)
  {
    p := SkipSeparators(s, pos);
    cmd := last;
    if p >= |s| {
      return p, cmd, End;
    }
    if IsAlpha(s[p]) {
      p, cmd := p + 1, s[p];
      head := if IsClose(cmd) then Close else Numbers;
    } else if cmd == NO_COMMAND {
      head := Missing;
    } else {
      cmd, head := Implied(cmd), Numbers;
    }
  }

  lemma AfterAll(ops: seq<Op>)
    ensures After(ops, Ok([])) == Ok(ops)
  {
    assert ops + [] == ops;
  }

  /** The parser loop.  It ends on every text, and answers exactly what decoding and then drawing gives. */
  method SampleSvgOutline(d: string) returns (r: Result<seq<Pt>, PathError>)
    ensures r == Outline(d)
  {
    var pos, cmd, pen := 0, NO_COMMAND, FRESH_PEN;
    ghost var done: seq<Op> := [];
    AfterNothing(Decode(d, 0, NO_COMMAND));
    while true
      invariant pos <= |d|
      invariant AllWellFormed(done) && pen == Run(done)
      invariant Decode(d, 0, NO_COMMAND) == After(done, Decode(d, pos, cmd))
      decreases |d| - pos
    {
      var head, args;
      pos, cmd, head := NextCommand(d, pos, cmd);
      match head {
        case End =>
          AfterAll(done);
          return Finish(pen);
        case Missing => return Err(NoCommand);
        case Close =>
          args := Ok([]);
          pen := ClosePath(pen, cmd);
        case Numbers =>
          pos, args := NextOp(d, pos, cmd);
          if args.Err? {
            return Err(args.error);
          }
          pen := Draw(pen, cmd, args.value);
      }
      AfterPrepend(done, Op(cmd, args.value), Decode(d, pos, cmd));
      done := done + [Op(cmd, args.value)];
    }
  }
}
