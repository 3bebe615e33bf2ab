/** The size-rotating log writer of the crash telemetry: the current file, and one rotated file before it. */
module RotatingLog {
  import opened Wrappers

  type Bytes = seq<nat>

  /** What is on disk. */
  datatype Log = Log(rotated: Bytes, current: Bytes)

  /** One write: the buffer, how much of it the file took, if it did not fail, and whether a rename would succeed. */
  datatype Write = Write(buf: Bytes, taken: Option<nat>, renameOk: bool)

  predicate Possible(w: Write) { w.taken.Some? ==> w.taken.value <= |w.buf| }

  /** A write that takes its whole buffer, with a working rename. */
  predicate Full(w: Write) { w.taken == Some(|w.buf|) && w.renameOk }

  function Piece(w: Write): Bytes
    requires Possible(w)
  {
    if w.taken.Some? then w.buf[..w.taken.value] else []
  }

  predicate Rotates(log: Log, maxLen: nat, w: Write) { |log.current| + |w.buf| > maxLen }

  /** Rotation removes the old rotated file first; if the rename then fails, logging goes on in the current file. */
  function Rotate(log: Log, renameOk: bool): Log {
    if renameOk then Log(log.current, []) else Log([], log.current)
  }

  function Step(log: Log, maxLen: nat, w: Write): Log
    requires Possible(w)
  {
    var before := if Rotates(log, maxLen, w) then Rotate(log, w.renameOk) else log;
    before.(current := before.current + Piece(w))
  }

  // ---------- the writer ----------

  class FileLogWriter {
    var file: Bytes
    var rotatedFile: Bytes
    var len: nat
    const maxLen: nat

    ghost predicate Valid()
      reads this
    {
      len == |file|
    }

    ghost function Disk(): Log
      reads this
    {
      Log(rotatedFile, file)
    }

    /** Opens the log for appending to whatever is there. */
    constructor (existing: Log, maxLen: nat)
      ensures Valid() && Disk() == existing && this.maxLen == maxLen
    {
      file := existing.current;
      rotatedFile := existing.rotated;
      len := |existing.current|;
      this.maxLen := maxLen;
    }

    method DoRotate(renameOk: bool)
      requires Valid()
      modifies this
      ensures Valid() && Disk() == Rotate(old(Disk()), renameOk)
    {
      rotatedFile := [];
      if renameOk {
        rotatedFile := file;
        file := [];
        len := 0;
      }
    }

    /** `write`: rotates first when the buffer would not fit, and counts what the file took; `None` is an error. */
    method DoWrite(w: Write) returns (n: Option<nat>)
      requires Valid() && Possible(w)
      modifies this
      ensures Valid() && Disk() == Step(old(Disk()), maxLen, w) && n == w.taken
    {
      if len + |w.buf| > maxLen {
        DoRotate(w.renameOk);
      }
      n := w.taken;
      if n.Some? {
        file := file + w.buf[..n.value];
        len := len + n.value;
      }
    }
  }

  // ---------- any run of writes ----------

  predicate AllPossible(ws: seq<Write>) { forall i :: 0 <= i < |ws| ==> Possible(ws[i]) }

  function Run(log: Log, maxLen: nat, ws: seq<Write>): Log
    requires AllPossible(ws)
  {
    if ws == [] then log else Step(Run(log, maxLen, ws[..|ws| - 1]), maxLen, ws[|ws| - 1])
  }

  // ---------- what the two files hold ----------

  /** What the file took of a write: that many of the first bytes of its buffer; nothing, if it failed. */
  predicate Took(w: Write, part: Bytes) {
    match w.taken
    case None => part == []
    case Some(n) => |part| == n && part <= w.buf
  }

  predicate AllTook(ws: seq<Write>, parts: seq<Bytes>) {
    |parts| == |ws| && forall i :: 0 <= i < |ws| ==> Took(ws[i], parts[i])
  }

  function Joined(parts: seq<Bytes>): Bytes {
    if parts == [] then [] else parts[0] + Joined(parts[1..])
  }

  lemma {:induction false} JoinedAppend(parts: seq<Bytes>, part: Bytes)
    ensures Joined(parts + [part]) == Joined(parts) + part
  {
    if parts == [] {
      assert parts + [part] == [part] && [part][1..] == [];
    } else {
      JoinedAppend(parts[1..], part);
      assert (parts + [part])[1..] == parts[1..] + [part];
      assert Joined(parts + [part]) == parts[0] + (Joined(parts[1..]) + part);
    }
  }

  /** One write, in all three cases: it fits, the current file takes the place of the rotated one, or it cannot. */
  lemma StepIs(log: Log, maxLen: nat, w: Write, part: Bytes)
    requires Possible(w) && Took(w, part)
    ensures Step(log, maxLen, w)
         == if |log.current| + |w.buf| <= maxLen then Log(log.rotated, log.current + part)
            else if w.renameOk then Log(log.current, part)
            else Log([], log.current + part)
  {
    assert Piece(w) == part && [] + part == part;
  }

  /** The files hold the parts from `a` on, those up to `b` in the rotated one. */
  ghost predicate Holds(log: Log, parts: seq<Bytes>, a: nat, b: nat) {
    a <= b <= |parts| && log.rotated == Joined(parts[a..b]) && log.current == Joined(parts[b..])
  }

  lemma HoldsMore(log: Log, parts: seq<Bytes>, a: nat, b: nat, part: Bytes, more: Log)
    requires Holds(log, parts, a, b)
    ensures more == Log(log.rotated, log.current + part) ==> Holds(more, parts + [part], a, b)
    ensures more == Log(log.current, part) ==> Holds(more, parts + [part], b, |parts|)
    ensures more == Log([], log.current + part) ==> Holds(more, parts + [part], b, b)
  {
    var all := parts + [part];
    JoinedAppend(parts[b..], part);
    JoinedAppend([], part);
    assert all[a..b] == parts[a..b] && all[b..] == parts[b..] + [part];
    assert all[b..|parts|] == parts[b..] && all[|parts|..] == [] + [part] && all[b..b] == [];
  }

  lemma {:induction false} HoldsAfter(ws: seq<Write>, maxLen: nat, parts: seq<Bytes>) returns (a: nat, b: nat)
    requires AllPossible(ws) && AllTook(ws, parts)
    ensures Holds(Run(Log([], []), maxLen, ws), parts, a, b)
    decreases |ws|
  {
    if ws == [] {
      a, b := 0, 0;
    } else {
      var n := |ws| - 1;
      var log := Run(Log([], []), maxLen, ws[..n]);
      a, b := HoldsAfter(ws[..n], maxLen, parts[..n]);
      StepIs(log, maxLen, ws[n], parts[n]);
      HoldsMore(log, parts[..n], a, b, parts[n], Step(log, maxLen, ws[n]));
      assert parts[..n] + [parts[n]] == parts;
      if |log.current| + |ws[n].buf| > maxLen {
        a, b := b, if ws[n].renameOk then n else b;
      }
    }
  }

  lemma {:induction false} JoinedSplit(parts: seq<Bytes>, more: seq<Bytes>)
    ensures Joined(parts + more) == Joined(parts) + Joined(more)
  {
    if parts == [] {
      assert parts + more == more;
    } else {
      JoinedSplit(parts[1..], more);
      assert (parts + more)[1..] == parts[1..] + more;
    }
  }

  lemma JoinedAround(parts: seq<Bytes>, a: nat, b: nat, front: Bytes, middle: Bytes, back: Bytes)
    requires a <= b <= |parts|
    requires front == Joined(parts[..a]) && middle == Joined(parts[a..b]) && back == Joined(parts[b..])
    ensures front + (middle + back) == Joined(parts)
  {
    JoinedSplit(parts[a..b], parts[b..]);
    JoinedSplit(parts[..a], parts[a..]);
    assert parts[a..b] + parts[b..] == parts[a..];
    assert parts[..a] + parts[a..] == parts;
  }

  /** The files, one after the other, are what was written from the `a`-th write on. */
  ghost predicate IsSuffix(log: Log, parts: seq<Bytes>, a: nat) {
    a <= |parts| && Joined(parts[..a]) + (log.rotated + log.current) == Joined(parts)
  }

  /**
   The two files, read one after the other, are a suffix of everything ever written, cut only between writes: a
   crash report never sees half a log line, or a gap.
   */
  lemma SuffixOfHistory(ws: seq<Write>, maxLen: nat, parts: seq<Bytes>)
    requires AllPossible(ws) && AllTook(ws, parts)
    ensures exists a: nat :: IsSuffix(Run(Log([], []), maxLen, ws), parts, a)
  {
    var log := Run(Log([], []), maxLen, ws);
    var a, b := HoldsAfter(ws, maxLen, parts);
    JoinedAround(parts, a, b, Joined(parts[..a]), log.rotated, log.current);
    assert IsSuffix(log, parts, a);
  }

  /** If each write was taken in full, that is a suffix of the buffers one after the other. */
  lemma SuffixOfBuffers(ws: seq<Write>, maxLen: nat, bufs: seq<Bytes>)
    requires |bufs| == |ws| && forall i :: 0 <= i < |ws| ==> bufs[i] == ws[i].buf && ws[i].taken == Some(|ws[i].buf|)
    requires AllPossible(ws)
    ensures exists a: nat :: IsSuffix(Run(Log([], []), maxLen, ws), bufs, a)
  {
    SuffixOfHistory(ws, maxLen, bufs);
  }

  /** With working renames, the current file is never longer than the limit or the last buffer. */
  lemma SizeBound(log: Log, maxLen: nat, ws: seq<Write>)
    requires AllPossible(ws) && ws != [] && ws[|ws| - 1].renameOk
    ensures var size := |Run(log, maxLen, ws).current|;
            size <= maxLen || size <= |ws[|ws| - 1].buf|
  {}

  /** Buffers of at most `b` bytes, all written in full. */
  predicate Small(ws: seq<Write>, b: nat) {
    forall i :: 0 <= i < |ws| ==> Full(ws[i]) && |ws[i].buf| <= b
  }

  function Total(ws: seq<Write>): nat {
    if ws == [] then 0 else Total(ws[..|ws| - 1]) + |ws[|ws| - 1].buf|
  }

  /**
   With buffers of at most `b <= maxLen` bytes, nothing is lost until the first rotation; afterwards the rotated
   file always holds more than `maxLen - b` bytes, and the current file at most `maxLen`.
   */
  lemma {:induction false} EnoughIsKept(maxLen: nat, ws: seq<Write>, b: nat)
    requires Small(ws, b) && b <= maxLen && AllPossible(ws)
    ensures var log := Run(Log([], []), maxLen, ws);
            && |log.current| <= maxLen
            && (log.rotated == [] ==> |log.current| == Total(ws))
            && (log.rotated != [] ==> |log.rotated| > maxLen - b)
  {
    if ws != [] {
      EnoughIsKept(maxLen, ws[..|ws| - 1], b);
    }
  }

  // ---------- when older log is lost for nothing ----------

  /**
   A write destroys the rotated log without putting a newer one in its place if and only if the current file is empty
   and the buffer alone is over the limit.
   */
  lemma OversizedBufferDropsTheLog(log: Log, maxLen: nat, w: Write)
    requires Full(w) && log.rotated != []
    ensures Step(log, maxLen, w).rotated == [] <==> log.current == [] && |w.buf| > maxLen
  {}

  /** Before the `i`-th write there is an older log, and after it there is none. */
  predicate DropsAt(log: Log, maxLen: nat, ws: seq<Write>, i: nat)
    requires AllPossible(ws) && i < |ws|
  {
    Run(log, maxLen, ws[..i]).rotated != [] && Run(log, maxLen, ws[..i + 1]).rotated == []
  }

  /** In a run, the older log is dropped exactly by full writes of buffers over the limit that meet an empty file. */
  lemma DropsExactlyAt(log: Log, maxLen: nat, ws: seq<Write>, i: nat)
    requires AllPossible(ws) && i < |ws| && Full(ws[i]) && Run(log, maxLen, ws[..i]).rotated != []
    ensures DropsAt(log, maxLen, ws, i) <==> Run(log, maxLen, ws[..i]).current == [] && |ws[i].buf| > maxLen
  {
    assert ws[..i + 1][..i] == ws[..i];
    OversizedBufferDropsTheLog(Run(log, maxLen, ws[..i]), maxLen, ws[i]);
  }

  /** Until there is an older log, nothing of what was written is lost. */
  ghost predicate NothingLost(maxLen: nat, ws: seq<Write>)
    requires AllPossible(ws)
  {
    var log := Run(Log([], []), maxLen, ws);
    log.rotated == [] ==> |log.current| == Total(ws)
  }

  function Oversized(maxLen: nat): Write { Write(seq(maxLen + 1, i => 0), Some(maxLen + 1), true) }

  const NOTHING := Write([], Some(0), true)

  lemma TotalAppend(ws: seq<Write>, w: Write)
    ensures Total(ws + [w]) == Total(ws) + |w.buf|
  {
    assert (ws + [w])[..|ws + [w]| - 1] == ws;
  }

  /** A buffer over the limit, an empty one that rotates it away, and another over the limit. */
  lemma ThreeWrites(maxLen: nat)
    ensures var big := Oversized(maxLen);
            var ws := [big, NOTHING] + [big];
            AllPossible(ws) && Run(Log([], []), maxLen, [big, NOTHING]) == Log(big.buf, [])
            && Run(Log([], []), maxLen, ws) == Log([], big.buf) && Total(ws) == 2 * maxLen + 2
  {
    var big := Oversized(maxLen);
    var one, two, three := [big], [big] + [NOTHING], [big, NOTHING] + [big];
    assert one[..0] == [] && two[..1] == one && three[..2] == two == [big, NOTHING];
    assert Run(Log([], []), maxLen, one) == Log([], big.buf);
    assert Run(Log([], []), maxLen, two) == Log(big.buf, []);
    assert Total(one) == maxLen + 1;
    TotalAppend(one, NOTHING);
    TotalAppend(two, big);
  }

  /** The bound on buffers is needed: the guarantee holds for all runs of buffers up to `b` exactly when `b` fits. */
  lemma BoundIsNeeded(maxLen: nat, b: nat)
    ensures (forall ws :: AllPossible(ws) && Small(ws, b) ==> NothingLost(maxLen, ws)) <==> b <= maxLen
  {
    if b <= maxLen {
      forall ws | AllPossible(ws) && Small(ws, b)
        ensures NothingLost(maxLen, ws)
      {
        EnoughIsKept(maxLen, ws, b);
      }
    } else {
      var big := Oversized(maxLen);
      var ws := [big, NOTHING] + [big];
      ThreeWrites(maxLen);
      assert Small(ws, b) && !NothingLost(maxLen, ws);
    }
  }
}
