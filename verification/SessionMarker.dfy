/**
 The session-marker protocol of the crash telemetry.  A marker file written at boot and removed on clean exit shows
 the next boot that a session died uncleanly.  Sessions may be killed between any two file-system steps, also while
 the marker is being rewritten.
 */
module SessionMarker {
  import opened Wrappers

  type Redact = string -> string

  // ---------- what is on disk ----------

  /**
   The marker file: absent, cut short by a rewrite that has begun but not ended, or whole.  `writer` and `pid` name the
   session that wrote it; a file that is cut short does not show its writer to a reader.
   */
  datatype Marker = Absent | Torn(writer: nat) | Whole(pid: nat, startedAt: nat, lastState: string)

  /** An unclean-exit record.  `about` is the session that left the file; the other fields are what the record says. */
  datatype Record = Record(about: nat, pid: Option<nat>, startedAt: Option<nat>, lastState: string)

  datatype Disk = Disk(marker: Marker, records: seq<Record>)

  const UNREADABLE := "<marker unreadable>"
  const SESSION_START := "session-start"

  function OwnerOf(m: Marker): nat
    requires m != Absent
  {
    match m
    case Torn(writer) => writer
    case Whole(pid, _, _) => pid
  }

  /** The record the boot scan makes of a stale marker. */
  function RecordOf(redact: Redact, m: Marker): Record
    requires m != Absent
  {
    match m
    case Torn(writer) => Record(writer, None, None, redact(UNREADABLE))
    case Whole(pid, startedAt, state) => Record(pid, Some(pid), Some(startedAt), redact(state))
  }

  /** The start time a rewrite keeps: that of a readable marker, else the present. */
  function StartKept(m: Marker, now: nat): nat {
    match m
    case Whole(_, startedAt, _) => startedAt
    case _ => now
  }

  // ---------- the functions of the source, run without interruption ----------

  class CrashDir {
    var marker: Marker
    var records: seq<Record>
    const redact: Redact

    ghost function Contents(): Disk
      reads this
    {
      Disk(marker, records)
    }

    constructor (redact: Redact)
      ensures Contents() == Disk(Absent, []) && this.redact == redact
    {
      this.marker, this.records, this.redact := Absent, [], redact;
    }

    /** `write_marker_file`: reads the start time first, then truncates the file and fills it. */
    method WriteMarkerFile(pid: nat, now: nat, state: string)
      modifies this
      ensures Contents()
           == FillStep(redact, pid, StartKept(old(marker), now), state, TruncateStep(pid, old(Contents())))
    {
      var startedAt := StartKept(marker, now);
      marker := Torn(pid);
      marker := Whole(pid, startedAt, redact(state));
    }

    /** `init_session_marker_in`. */
    method InitSessionMarker(pid: nat, now: nat)
      modifies this
      ensures Contents()
           == FillStep(redact, pid, StartKept(old(marker), now), SESSION_START, TruncateStep(pid, old(Contents())))
    {
      WriteMarkerFile(pid, now, SESSION_START);
    }

    /** `mark_clean_exit`. */
    method MarkCleanExit()
      modifies this
      ensures Contents() == RemoveStep(old(Contents()))
    {
      marker := Absent;
    }

    /** `startup_scan_in`: a stale marker becomes a record, if that can be written, and is removed in any case. */
    method StartupScan(recordOk: bool) returns (found: bool)
      modifies this
      ensures found <==> old(marker) != Absent
      ensures Contents()
           == if !found then old(Contents())
              else RemoveStep(if recordOk then RecordStep(redact, old(Contents())) else old(Contents()))
    {
      found := marker != Absent;
      if found {
        if recordOk {
          records := records + [RecordOf(redact, marker)];
        }
        marker := Absent;
      }
    }
  }

  // ---------- the file-system steps ----------

  function TruncateStep(pid: nat, d: Disk): Disk { d.(marker := Torn(pid)) }

  function FillStep(redact: Redact, pid: nat, startedAt: nat, state: string, d: Disk): Disk {
    d.(marker := Whole(pid, startedAt, redact(state)))
  }

  function RecordStep(redact: Redact, d: Disk): Disk
    requires d.marker != Absent
  {
    d.(records := d.records + [RecordOf(redact, d.marker)])
  }

  function RemoveStep(d: Disk): Disk { d.(marker := Absent) }

  // ---------- sessions ----------

  /** Where the running process is, if there is one. */
  datatype Phase =
    | Off
    | Boot                                   // about to look for a marker
    | Recorded(written: bool)                // the record is written, or failed; the stale marker is still there
    | Scanned                                // the scan is over
    | Writing(startedAt: nat, state: string) // the marker is truncated and not yet filled
    | Running                                // the marker shows the last state
    | Left                                   // marked clean, on the way out

  /** What a session did: the history that tells what ought to be on record about it. */
  datatype Life = Life(
    marked: bool,              // its first marker was begun
    born: nat,                 // when that was
    clean: bool,               // it was marked clean
    late: bool,                // it began to write the marker again after that
    started: nat,              // when its current marker says it started
    wrote: Option<string>,     // the last state it wrote in full; None while a write is under way
    interrupted: nat,          // how often a scan of its marker was killed between writing a record and removing it
    lost: bool)                // its marker was removed by a scan that could not write a record

  const NEWBORN: Life := Life(false, 0, false, false, 0, None, 0, false)

  /** A whole system: the disk, the process, and the lives of all sessions so far; the last one is the current one. */
  datatype World = World(disk: Disk, phase: Phase, lives: seq<Life>)

  datatype Step =
    | Launch
    | ScanRecord(ok: bool)
    | ScanRemove
    | ScanNothing
    | BeginWrite(now: nat, state: string)
    | EndWrite
    | MarkClean
    | Finish
    | Kill

  function Current(w: World): nat
    requires w.lives != []
  {
    |w.lives| - 1
  }

  function CurrentLife(w: World): Life
    requires w.lives != []
  {
    w.lives[Current(w)]
  }

  function WithLife(w: World, l: Life): World
    requires w.lives != []
  {
    w.(lives := w.lives[Current(w) := l])
  }

  /** Which step the process, the system or a killer can take next. */
  predicate Enabled(w: World, a: Step) {
    match a
    case Launch => w.phase == Off
    case ScanRecord(_) => w.phase == Boot && w.disk.marker != Absent
    case ScanRemove => w.phase.Recorded?
    case ScanNothing => w.phase == Boot && w.disk.marker == Absent
    case BeginWrite(_, state) => w.phase == Running || w.phase == Left || (w.phase == Scanned && state == SESSION_START)
    case EndWrite => w.phase.Writing?
    case MarkClean => w.phase == Running
    case Finish => w.phase == Left
    case Kill => w.phase != Off
  }

  function Begin(w: World, now: nat, state: string): World
    requires w.lives != []
  {
    var started := StartKept(w.disk.marker, now);
    var life := CurrentLife(w);
    WithLife(
      World(TruncateStep(Current(w), w.disk), Writing(started, state), w.lives),
      life.(marked := true, born := if life.marked then life.born else now, late := life.late || life.clean,
            started := started, wrote := None))
  }

  function End(redact: Redact, w: World): World
    requires w.lives != [] && w.phase.Writing?
  {
    var life := CurrentLife(w);
    WithLife(
      World(FillStep(redact, Current(w), w.phase.startedAt, w.phase.state, w.disk),
            if life.clean then Left else Running, w.lives),
      life.(wrote := Some(w.phase.state)))
  }

  function Interrupt(lives: seq<Life>, id: nat): seq<Life>
    requires id < |lives|
  {
    lives[id := lives[id].(interrupted := lives[id].interrupted + 1)]
  }

  function Lose(lives: seq<Life>, id: nat): seq<Life>
    requires id < |lives|
  {
    lives[id := lives[id].(lost := true)]
  }

  /** A process has a session, and a marker a session that wrote it. */
  predicate Sane(w: World) {
    && (w.phase != Off ==> w.lives != [])
    && (w.disk.marker != Absent ==> OwnerOf(w.disk.marker) < |w.lives|)
  }

  function Next(redact: Redact, w: World, a: Step): World
    requires Enabled(w, a) && Sane(w)
  {
    match a
    case Launch => World(w.disk, Boot, w.lives + [NEWBORN])
    case ScanRecord(ok) => World(if ok then RecordStep(redact, w.disk) else w.disk, Recorded(ok), w.lives)
    case ScanRemove =>
      if !w.phase.written && w.disk.marker != Absent then
        World(RemoveStep(w.disk), Scanned, Lose(w.lives, OwnerOf(w.disk.marker)))
      else World(RemoveStep(w.disk), Scanned, w.lives)
    case ScanNothing => w.(phase := Scanned)
    case BeginWrite(now, state) => Begin(w, now, state)
    case EndWrite => End(redact, w)
    case MarkClean => WithLife(World(RemoveStep(w.disk), Left, w.lives), CurrentLife(w).(clean := true))
    case Finish => w.(phase := Off)
    case Kill =>
      if w.phase == Recorded(true) && w.disk.marker != Absent then
        World(w.disk, Off, Interrupt(w.lives, OwnerOf(w.disk.marker)))
      else w.(phase := Off)
  }

  const GENESIS: World := World(Disk(Absent, []), Off, [])

  // ---------- what ought to be on disk ----------

  /** A session that ends like this leaves a marker behind. */
  predicate LeavesMarker(l: Life) { l.marked && (!l.clean || l.late) }

  /** The marker a session leaves, or shows while it runs. */
  function MarkerOf(redact: Redact, id: nat, l: Life): Marker {
    if !LeavesMarker(l) then Absent
    else if l.wrote == None then Torn(id)
    else Whole(id, l.started, redact(l.wrote.value))
  }

  function Count(records: seq<Record>, id: nat): nat {
    if records == [] then 0 else
    Count(records[..|records| - 1], id) + if records[|records| - 1].about == id then 1 else 0
  }

  predicate Dead(w: World, id: nat) {
    id < |w.lives| && (w.phase == Off || id < |w.lives| - 1)
  }

  predicate HasStaleMarker(w: World, id: nat) {
    w.disk.marker != Absent && OwnerOf(w.disk.marker) == id
  }

  /** How many records there must be about a dead session. */
  function Owed(w: World, id: nat): nat
    requires id < |w.lives|
  {
    var l := w.lives[id];
    if !LeavesMarker(l) then 0
    else if !HasStaleMarker(w, id) then l.interrupted + if l.lost then 0 else 1
    else if w.phase == Recorded(true) then l.interrupted + 1
    else l.interrupted
  }

  // ---------- the invariant ----------

  ghost predicate MarkerInv(redact: Redact, w: World) {
    && Sane(w)
    && (w.disk.marker != Absent ==>
          w.disk.marker == MarkerOf(redact, OwnerOf(w.disk.marker), w.lives[OwnerOf(w.disk.marker)]))
    && (w.disk.marker != Absent ==> !w.lives[OwnerOf(w.disk.marker)].lost)
    && (w.phase.Recorded? ==> w.disk.marker != Absent)
    && (w.phase.Scanned? || w.phase.Writing? || w.phase.Running? || w.phase.Left? ==>
          w.disk.marker == MarkerOf(redact, Current(w), CurrentLife(w)))
  }

  ghost predicate LifeInv(w: World) {
    Sane(w) && (w.phase != Off ==>
      var l := CurrentLife(w);
      && l.interrupted == 0 && !l.lost
      && (w.phase.Boot? || w.phase.Recorded? || w.phase.Scanned? ==> l == NEWBORN)
      && (w.phase.Writing? ==> l.marked && l.wrote == None && l.started == w.phase.startedAt && l.late == l.clean)
      && (w.phase.Running? ==> l.marked && !l.clean && !l.late && l.wrote.Some?)
      && (w.phase.Left? ==> l.marked && l.clean && l.wrote.Some?))
  }

  /** A start time is that of the session's own first marker, unless it was written again after the clean mark. */
  ghost predicate StartInv(w: World) {
    forall id :: 0 <= id < |w.lives| ==>
      (w.lives[id].marked && !w.lives[id].late ==> w.lives[id].started == w.lives[id].born)
  }

  predicate Counted(w: World, id: nat) { Count(w.disk.records, id) == if Dead(w, id) then Owed(w, id) else 0 }

  ghost predicate CountInv(w: World) { forall id: nat :: Counted(w, id) }

  ghost predicate RecordInv(redact: Redact, w: World) {
    forall i :: 0 <= i < |w.disk.records| ==>
      var r := w.disk.records[i];
      && Dead(w, r.about)
      && LeavesMarker(w.lives[r.about])
      && r == RecordOf(redact, MarkerOf(redact, r.about, w.lives[r.about]))
  }

  ghost predicate Inv(redact: Redact, w: World) {
    MarkerInv(redact, w) && LifeInv(w) && StartInv(w) && CountInv(w) && RecordInv(redact, w)
  }

  // ---------- every step keeps it ----------

  lemma MarkerKept(redact: Redact, w: World, a: Step)
    requires MarkerInv(redact, w) && LifeInv(w) && Enabled(w, a)
    ensures MarkerInv(redact, Next(redact, w, a))
  {}

  lemma LifeKept(redact: Redact, w: World, a: Step)
    requires MarkerInv(redact, w) && LifeInv(w) && Enabled(w, a) && Sane(Next(redact, w, a))
    ensures LifeInv(Next(redact, w, a))
  {}

  lemma StartKeptInv(redact: Redact, w: World, a: Step)
    requires MarkerInv(redact, w) && LifeInv(w) && StartInv(w) && Enabled(w, a)
    ensures StartInv(Next(redact, w, a))
  {}

  lemma CountKept(redact: Redact, w: World, a: Step)
    requires MarkerInv(redact, w) && LifeInv(w) && CountInv(w) && Enabled(w, a)
    ensures CountInv(Next(redact, w, a))
  {
    forall id: nat
      ensures Counted(Next(redact, w, a), id)
    {
      assert Counted(w, id);
      if a.ScanRecord? || a.ScanRemove? || a.Kill? {
        ScanCounted(redact, w, a, id);
      } else {
        OtherCounted(redact, w, a, id);
      }
    }
  }

  lemma ScanCounted(redact: Redact, w: World, a: Step, id: nat)
    requires MarkerInv(redact, w) && LifeInv(w) && Enabled(w, a) && Counted(w, id)
    requires a.ScanRecord? || a.ScanRemove? || a.Kill?
    ensures Counted(Next(redact, w, a), id)
  {}

  lemma OtherCounted(redact: Redact, w: World, a: Step, id: nat)
    requires MarkerInv(redact, w) && LifeInv(w) && Enabled(w, a) && Counted(w, id)
    requires !a.ScanRecord? && !a.ScanRemove? && !a.Kill?
    ensures Counted(Next(redact, w, a), id)
  {}

  lemma RecordsKept(redact: Redact, w: World, a: Step)
    requires MarkerInv(redact, w) && LifeInv(w) && RecordInv(redact, w) && Enabled(w, a)
    ensures RecordInv(redact, Next(redact, w, a))
  {}

  // ---------- every run keeps it ----------

  /** The world after a run of steps, if each could be taken. */
  function After(redact: Redact, steps: seq<Step>): Option<World> {
    if steps == [] then Some(GENESIS) else
    match After(redact, steps[..|steps| - 1])
    case None => None
    case Some(w) =>
      var a := steps[|steps| - 1];
      if Sane(w) && Enabled(w, a) then Some(Next(redact, w, a)) else None
  }

  lemma StepKeeps(redact: Redact, w: World, a: Step)
    requires Inv(redact, w) && Enabled(w, a)
    ensures Inv(redact, Next(redact, w, a))
  {
    MarkerKept(redact, w, a);
    LifeKept(redact, w, a);
    StartKeptInv(redact, w, a);
    CountKept(redact, w, a);
    RecordsKept(redact, w, a);
  }

  lemma {:induction false} RunKeeps(redact: Redact, steps: seq<Step>)
    requires After(redact, steps).Some?
    ensures Inv(redact, After(redact, steps).value)
  {
    if steps != [] {
      var init := steps[..|steps| - 1];
      RunKeeps(redact, init);
      StepKeeps(redact, After(redact, init).value, steps[|steps| - 1]);
    }
  }

  // ---------- what the protocol promises ----------

  /** The boot scan of the current session is over. */
  predicate ScanOver(w: World) { w.phase.Scanned? || w.phase.Writing? || w.phase.Running? || w.phase.Left? }

  /**
   In every run, once the boot scan of some session is over, every earlier session is on record if and only if it
   began a marker and was not marked clean, or wrote the marker again after that; unless the scan that removed its
   marker could not write.  It is on record once, and once more for every scan that was killed between writing the
   record and removing the marker.
   */
  lemma OnRecordIffUnclean(redact: Redact, steps: seq<Step>, id: nat)
    requires After(redact, steps).Some? && ScanOver(After(redact, steps).value) && Dead(After(redact, steps).value, id)
    ensures var w := After(redact, steps).value;
            var l := w.lives[id];
            && (!l.lost ==> (Count(w.disk.records, id) > 0 <==> l.marked && (!l.clean || l.late)))
            && (Count(w.disk.records, id) ==
                  if l.marked && (!l.clean || l.late) then l.interrupted + (if l.lost then 0 else 1) else 0)
  {
    RunKeeps(redact, steps);
    var w := After(redact, steps).value;
    assert Counted(w, id);
    assert !HasStaleMarker(w, id) by {
      assert w.disk.marker == MarkerOf(redact, Current(w), CurrentLife(w));
    }
  }

  /** At no time is there a record about a living session, or about one that exited cleanly for good. */
  lemma NoFalseAlarm(redact: Redact, steps: seq<Step>, id: nat)
    requires After(redact, steps).Some? && id < |After(redact, steps).value.lives|
    ensures var w := After(redact, steps).value;
            (Dead(w, id) && LeavesMarker(w.lives[id])) || Count(w.disk.records, id) == 0
  {
    RunKeeps(redact, steps);
    assert Counted(After(redact, steps).value, id);
  }

  /**
   Every record is about a session that left its marker.  If that session was killed while rewriting the marker, the
   record says so; otherwise it names the session, the time of its own first marker (unless it wrote again after a
   clean exit) and the last state it wrote, redacted for the marker and again for the record.
   */
  lemma WhatRecordsSay(redact: Redact, steps: seq<Step>, i: nat)
    requires After(redact, steps).Some? && i < |After(redact, steps).value.disk.records|
    ensures var w := After(redact, steps).value;
            var r := w.disk.records[i];
            && Dead(w, r.about)
            && LeavesMarker(w.lives[r.about])
            && match w.lives[r.about].wrote
               case None => r.pid == None && r.startedAt == None && r.lastState == redact(UNREADABLE)
               case Some(state) =>
                 && r.pid == Some(r.about)
                 && r.lastState == redact(redact(state))
                 && (!w.lives[r.about].late ==> r.startedAt == Some(w.lives[r.about].born))
  {
    RunKeeps(redact, steps);
  }

  // ---------- the gap in the clean exit ----------

  lemma {:induction false} AfterOne(redact: Redact, steps: seq<Step>, w: World, a: Step)
    requires After(redact, steps) == Some(w) && Sane(w) && Enabled(w, a)
    ensures After(redact, steps + [a]) == Some(Next(redact, w, a))
  {
    assert (steps + [a])[..|steps|] == steps;
  }

  /**
   `mark_clean_exit` does not forget the marker's path: a state update by another thread that comes after it makes
   the marker anew, and the next boot takes the clean session for a crashed one.
   */
  lemma LateUpdateIsFalseAlarm(redact: Redact, steps: seq<Step>, w: World, now: nat, state: string)
    requires After(redact, steps) == Some(w) && w.phase == Left && w.lives != []
    ensures var more := steps + [BeginWrite(now, state)] + [EndWrite] + [Finish] + [Launch] + [ScanRecord(true)];
            After(redact, more).Some?
            && Current(w) < |After(redact, more).value.lives|
            && After(redact, more).value.lives[Current(w)].clean
            && Count(After(redact, more).value.disk.records, Current(w)) > 0
  {
    RunKeeps(redact, steps);
    var id := Current(w);
    var w1 := Next(redact, w, BeginWrite(now, state));
    StepKeeps(redact, w, BeginWrite(now, state));
    AfterOne(redact, steps, w, BeginWrite(now, state));
    var s1 := steps + [BeginWrite(now, state)];
    var w2 := Next(redact, w1, EndWrite);
    StepKeeps(redact, w1, EndWrite);
    AfterOne(redact, s1, w1, EndWrite);
    var w3 := Next(redact, w2, Finish);
    StepKeeps(redact, w2, Finish);
    AfterOne(redact, s1 + [EndWrite], w2, Finish);
    var w4 := Next(redact, w3, Launch);
    StepKeeps(redact, w3, Launch);
    AfterOne(redact, s1 + [EndWrite] + [Finish], w3, Launch);
    var w5 := Next(redact, w4, ScanRecord(true));
    StepKeeps(redact, w4, ScanRecord(true));
    AfterOne(redact, s1 + [EndWrite] + [Finish] + [Launch], w4, ScanRecord(true));
    assert Dead(w5, id) && HasStaleMarker(w5, id);
  }
}
