/**
 What the session-marker protocol promises, in terms of the steps that were taken alone: what each session did, and what
 the scans after it did to its marker.
 */
module SessionHistory {
  import opened Wrappers
  import opened SessionMarker

  // ---------- who did what ----------

  /** How many sessions have been launched. */
  function Sessions(steps: seq<Step>): nat {
    if steps == [] then 0 else Sessions(steps[..|steps| - 1]) + if steps[|steps| - 1].Launch? then 1 else 0
  }

  /** The steps taken while that session was the last one launched. */
  function Deeds(steps: seq<Step>, id: nat): seq<Step> {
    if steps == [] then []
    else
      var init, a := steps[..|steps| - 1], steps[|steps| - 1];
      if a.Launch? || Sessions(init) != id + 1 then Deeds(init, id) else Deeds(init, id) + [a]
  }

  /** It began to write a marker. */
  predicate Marked(ds: seq<Step>) { exists k :: 0 <= k < |ds| && ds[k].BeginWrite? }

  /** It was marked clean. */
  predicate Clean(ds: seq<Step>) { exists k :: 0 <= k < |ds| && ds[k].MarkClean? }

  /** It began to write a marker after that. */
  predicate Late(ds: seq<Step>) { exists j, k :: 0 <= j < k < |ds| && ds[j].MarkClean? && ds[k].BeginWrite? }

  /** Its boot scan is over. */
  predicate Scanned(ds: seq<Step>) { exists k :: 0 <= k < |ds| && (ds[k].ScanRemove? || ds[k].ScanNothing?) }

  /** It is over. */
  predicate Ended(ds: seq<Step>) { ds != [] && (ds[|ds| - 1].Kill? || ds[|ds| - 1].Finish?) }

  /** It left its marker behind. */
  predicate Unclean(ds: seq<Step>) { Marked(ds) && (!Clean(ds) || Late(ds)) }

  /** When it first began to write. */
  function FirstBegin(ds: seq<Step>): Option<nat> {
    if ds == [] then None
    else
      var init, a := ds[..|ds| - 1], ds[|ds| - 1];
      if FirstBegin(init).Some? then FirstBegin(init) else if a.BeginWrite? then Some(a.now) else None
  }

  /** The state it last began to write. */
  function LastBegun(ds: seq<Step>): Option<string> {
    if ds == [] then None
    else if ds[|ds| - 1].BeginWrite? then Some(ds[|ds| - 1].state)
    else LastBegun(ds[..|ds| - 1])
  }

  /** That state, if writing it was ended. */
  function LastWritten(ds: seq<Step>): Option<string> {
    if ds == [] then None
    else
      match ds[|ds| - 1]
      case BeginWrite(_, _) => None
      case EndWrite => LastBegun(ds[..|ds| - 1])
      case _ => LastWritten(ds[..|ds| - 1])
  }

  /** The last write began at `k`. */
  predicate IsLastBegin(ds: seq<Step>, k: nat) {
    k < |ds| && ds[k].BeginWrite? && forall j :: k < j < |ds| ==> !ds[j].BeginWrite?
  }

  lemma {:induction false} LastBegunAt(ds: seq<Step>) returns (k: nat)
    requires LastBegun(ds).Some?
    ensures IsLastBegin(ds, k) && ds[k].state == LastBegun(ds).value
  {
    k := |ds| - 1;
    if !ds[k].BeginWrite? {
      k := LastBegunAt(ds[..|ds| - 1]);
    }
  }

  /** The state last written is that of the last write begun, and that write was ended. */
  lemma {:induction false} LastWrittenAt(ds: seq<Step>) returns (k: nat, m: nat)
    requires LastWritten(ds).Some?
    ensures IsLastBegin(ds, k) && ds[k].state == LastWritten(ds).value && k < m < |ds| && ds[m].EndWrite?
  {
    m := |ds| - 1;
    if ds[m].EndWrite? {
      k := LastBegunAt(ds[..m]);
    } else {
      k, m := LastWrittenAt(ds[..m]);
    }
  }

  // ---------- what became of its marker ----------

  /** The session that last began to write a marker. */
  function LastWriter(steps: seq<Step>): Option<nat> {
    if steps == [] then None
    else
      var init := steps[..|steps| - 1];
      if steps[|steps| - 1].BeginWrite? && Sessions(init) > 0 then Some(Sessions(init) - 1) else LastWriter(init)
  }

  /** The step before the last. */
  predicate Before(steps: seq<Step>, a: Step) { |steps| >= 2 && steps[|steps| - 2] == a }

  /** How many scans were killed right after they had written a record of its marker. */
  function KilledScans(steps: seq<Step>, id: nat): nat {
    if steps == [] then 0
    else
      var init := steps[..|steps| - 1];
      KilledScans(init, id)
      + if steps[|steps| - 1].Kill? && Before(steps, ScanRecord(true)) && LastWriter(init) == Some(id) then 1 else 0
  }

  /** A scan removed its marker right after failing to write a record of it. */
  function Unrecorded(steps: seq<Step>, id: nat): bool {
    steps != []
    && (var init := steps[..|steps| - 1];
        || Unrecorded(init, id)
        || (steps[|steps| - 1].ScanRemove? && Before(steps, ScanRecord(false)) && LastWriter(init) == Some(id)))
  }

  // ---------- the lives are what the steps make them ----------

  predicate LivedBy(l: Life, ds: seq<Step>) {
    && l.marked == Marked(ds) && l.clean == Clean(ds) && l.late == Late(ds)
    && FirstBegin(ds) == (if l.marked then Some(l.born) else None)
    && l.wrote == LastWritten(ds)
  }

  predicate Fated(l: Life, steps: seq<Step>, id: nat) {
    l.interrupted == KilledScans(steps, id) && l.lost == Unrecorded(steps, id)
  }

  ghost predicate LivesInv(steps: seq<Step>, w: World) {
    && |w.lives| == Sessions(steps)
    && (forall id :: 0 <= id < |w.lives| ==> LivedBy(w.lives[id], Deeds(steps, id)))
    && (w.phase.Writing? ==> w.lives != [] && LastBegun(Deeds(steps, Current(w))) == Some(w.phase.state))
  }

  ghost predicate FatesInv(steps: seq<Step>, w: World) {
    && (forall id :: 0 <= id < |w.lives| ==> Fated(w.lives[id], steps, id))
    && (w.disk.marker != Absent ==> LastWriter(steps) == Some(OwnerOf(w.disk.marker)))
    && (forall ok :: w.phase == Recorded(ok) <==> steps != [] && steps[|steps| - 1] == ScanRecord(ok))
  }

  ghost predicate EndsInv(steps: seq<Step>, w: World) {
    && (forall id :: 0 <= id < |w.lives| - 1 ==> Ended(Deeds(steps, id)))
    && (w.phase == Off && w.lives != [] ==> Ended(Deeds(steps, Current(w))))
    && (w.lives != [] && Scanned(Deeds(steps, Current(w))) ==>
          w.disk.marker == Absent || OwnerOf(w.disk.marker) == Current(w))
  }

  // ---------- one step ----------

  lemma OneMore(steps: seq<Step>, a: Step, id: nat)
    ensures Sessions(steps + [a]) == Sessions(steps) + if a.Launch? then 1 else 0
    ensures Deeds(steps + [a], id)
         == if a.Launch? || Sessions(steps) != id + 1 then Deeds(steps, id) else Deeds(steps, id) + [a]
  {
    assert (steps + [a])[..|steps + [a]| - 1] == steps;
  }

  lemma {:induction false} NoDeedsYet(steps: seq<Step>, id: nat)
    requires id >= Sessions(steps)
    ensures Deeds(steps, id) == []
  {
    if steps != [] {
      NoDeedsYet(steps[..|steps| - 1], id);
    }
  }

  lemma DeedAdded(ds: seq<Step>, a: Step)
    ensures Marked(ds + [a]) <==> Marked(ds) || a.BeginWrite?
    ensures Clean(ds + [a]) <==> Clean(ds) || a.MarkClean?
    ensures Scanned(ds + [a]) <==> Scanned(ds) || a.ScanRemove? || a.ScanNothing?
  {
    var more := ds + [a];
    if k :| 0 <= k < |ds| && ds[k].BeginWrite? {
      assert more[k].BeginWrite?;
    }
    if k :| 0 <= k < |ds| && ds[k].MarkClean? {
      assert more[k].MarkClean?;
    }
    if k :| 0 <= k < |ds| && (ds[k].ScanRemove? || ds[k].ScanNothing?) {
      assert more[k].ScanRemove? || more[k].ScanNothing?;
    }
    assert more[|ds|] == a;
  }

  lemma LateAdded(ds: seq<Step>, a: Step)
    ensures Late(ds + [a]) <==> Late(ds) || (Clean(ds) && a.BeginWrite?)
  {
    var more := ds + [a];
    if j, k :| 0 <= j < k < |ds| && ds[j].MarkClean? && ds[k].BeginWrite? {
      assert more[j].MarkClean? && more[k].BeginWrite?;
    }
    if a.BeginWrite? && Clean(ds) {
      var j :| 0 <= j < |ds| && ds[j].MarkClean?;
      assert more[j].MarkClean? && more[|ds|].BeginWrite?;
    }
  }

  lemma WritesAdded(ds: seq<Step>, a: Step)
    ensures FirstBegin(ds + [a])
         == if FirstBegin(ds).Some? then FirstBegin(ds) else if a.BeginWrite? then Some(a.now) else None
    ensures LastBegun(ds + [a]) == if a.BeginWrite? then Some(a.state) else LastBegun(ds)
    ensures LastWritten(ds + [a])
         == if a.BeginWrite? then None else if a.EndWrite? then LastBegun(ds) else LastWritten(ds)
  {
    assert (ds + [a])[..|ds + [a]| - 1] == ds;
  }

  /** How a life goes on with a deed of its session; `begun` is the state whose writing may be ended. */
  predicate GoesOn(l: Life, l': Life, a: Step, begun: Option<string>) {
    && l'.marked == (l.marked || a.BeginWrite?)
    && l'.clean == (l.clean || a.MarkClean?)
    && l'.late == (l.late || (l.clean && a.BeginWrite?))
    && (l'.marked ==> l'.born == if l.marked then l.born else if a.BeginWrite? then a.now else l'.born)
    && l'.wrote == (if a.BeginWrite? then None else if a.EndWrite? then begun else l.wrote)
  }

  lemma LivedOn(l: Life, l': Life, ds: seq<Step>, a: Step)
    requires LivedBy(l, ds) && GoesOn(l, l', a, LastBegun(ds))
    ensures LivedBy(l', ds + [a])
  {
    DeedAdded(ds, a);
    LateAdded(ds, a);
    WritesAdded(ds, a);
  }

  lemma CurrentGoesOn(redact: Redact, steps: seq<Step>, w: World, a: Step)
    requires MarkerInv(redact, w) && LifeInv(w) && Enabled(w, a) && LivesInv(steps, w) && !a.Launch?
    requires w.lives != []
    ensures |Next(redact, w, a).lives| == |w.lives|
    ensures GoesOn(CurrentLife(w), Next(redact, w, a).lives[Current(w)], a, LastBegun(Deeds(steps, Current(w))))
  {}

  lemma OthersStay(redact: Redact, w: World, a: Step, id: nat, ds: seq<Step>)
    requires MarkerInv(redact, w) && LifeInv(w) && Enabled(w, a) && id < |w.lives|
    requires a.Launch? || id != Current(w)
    ensures id < |Next(redact, w, a).lives|
    ensures LivedBy(Next(redact, w, a).lives[id], ds) <==> LivedBy(w.lives[id], ds)
  {}

  lemma LifeGoesOn(redact: Redact, steps: seq<Step>, w: World, a: Step, id: nat)
    requires MarkerInv(redact, w) && LifeInv(w) && Enabled(w, a) && LivesInv(steps, w)
    requires id < |Next(redact, w, a).lives|
    ensures LivedBy(Next(redact, w, a).lives[id], Deeds(steps + [a], id))
  {
    OneMore(steps, a, id);
    if id >= |w.lives| {
      NoDeedsYet(steps, id);
    } else {
      assert LivedBy(w.lives[id], Deeds(steps, id));
      if a.Launch? || id != Current(w) {
        OthersStay(redact, w, a, id, Deeds(steps, id));
      } else {
        CurrentGoesOn(redact, steps, w, a);
        LivedOn(w.lives[id], Next(redact, w, a).lives[id], Deeds(steps, id), a);
      }
    }
  }

  lemma LivesKept(redact: Redact, steps: seq<Step>, w: World, a: Step)
    requires MarkerInv(redact, w) && LifeInv(w) && Enabled(w, a) && LivesInv(steps, w)
    ensures LivesInv(steps + [a], Next(redact, w, a))
  {
    var w' := Next(redact, w, a);
    forall id | 0 <= id < |w'.lives|
      ensures LivedBy(w'.lives[id], Deeds(steps + [a], id))
    {
      LifeGoesOn(redact, steps, w, a, id);
    }
    OneMore(steps, a, 0);
    if w'.phase.Writing? {
      OneMore(steps, a, Current(w'));
      WritesAdded(Deeds(steps, Current(w')), a);
    }
  }

  lemma FateAdded(steps: seq<Step>, a: Step, id: nat)
    ensures LastWriter(steps + [a])
         == if a.BeginWrite? && Sessions(steps) > 0 then Some(Sessions(steps) - 1) else LastWriter(steps)
    ensures KilledScans(steps + [a], id)
         == KilledScans(steps, id)
            + if a.Kill? && steps != [] && steps[|steps| - 1] == ScanRecord(true) && LastWriter(steps) == Some(id)
              then 1 else 0
    ensures Unrecorded(steps + [a], id)
       <==> || Unrecorded(steps, id)
            || (&& a.ScanRemove? && steps != [] && steps[|steps| - 1] == ScanRecord(false)
                && LastWriter(steps) == Some(id))
  {
    assert (steps + [a])[..|steps + [a]| - 1] == steps;
  }

  lemma {:induction false} NoFateYet(redact: Redact, steps: seq<Step>, id: nat)
    requires id >= Sessions(steps)
    ensures KilledScans(steps, id) == 0 && !Unrecorded(steps, id)
    ensures LastWriter(steps) != Some(id)
  {
    if steps != [] {
      NoFateYet(redact, steps[..|steps| - 1], id);
    }
  }

  lemma FateGoesOn(redact: Redact, steps: seq<Step>, w: World, a: Step, id: nat)
    requires MarkerInv(redact, w) && LifeInv(w) && Enabled(w, a) && FatesInv(steps, w) && |w.lives| == Sessions(steps)
    requires id < |Next(redact, w, a).lives|
    ensures Fated(Next(redact, w, a).lives[id], steps + [a], id)
  {
    FateAdded(steps, a, id);
    if a.Launch? && id == |w.lives| {
      NoFateYet(redact, steps, id);
    } else {
      assert Fated(w.lives[id], steps, id);
    }
  }

  lemma FatesKept(redact: Redact, steps: seq<Step>, w: World, a: Step)
    requires MarkerInv(redact, w) && LifeInv(w) && Enabled(w, a) && FatesInv(steps, w) && |w.lives| == Sessions(steps)
    ensures FatesInv(steps + [a], Next(redact, w, a))
  {
    var w' := Next(redact, w, a);
    forall id | 0 <= id < |w'.lives|
      ensures Fated(w'.lives[id], steps + [a], id)
    {
      FateGoesOn(redact, steps, w, a, id);
    }
    FateAdded(steps, a, 0);
  }

  lemma EarlierEnded(redact: Redact, steps: seq<Step>, w: World, a: Step, id: nat)
    requires Sane(w) && Enabled(w, a) && EndsInv(steps, w) && |w.lives| == Sessions(steps)
    requires id + 1 < |Next(redact, w, a).lives|
    ensures Ended(Deeds(steps + [a], id))
  {
    OneMore(steps, a, id);
  }

  lemma CurrentEnded(redact: Redact, steps: seq<Step>, w: World, a: Step)
    requires Sane(w) && Enabled(w, a) && EndsInv(steps, w) && |w.lives| == Sessions(steps)
    requires Next(redact, w, a).phase == Off && Next(redact, w, a).lives != []
    ensures Ended(Deeds(steps + [a], Current(Next(redact, w, a))))
  {
    OneMore(steps, a, Current(Next(redact, w, a)));
  }

  lemma ScanHolds(redact: Redact, steps: seq<Step>, w: World, a: Step)
    requires MarkerInv(redact, w) && LifeInv(w) && Enabled(w, a) && EndsInv(steps, w) && |w.lives| == Sessions(steps)
    requires Next(redact, w, a).lives != [] && Scanned(Deeds(steps + [a], Current(Next(redact, w, a))))
    ensures var w' := Next(redact, w, a); w'.disk.marker == Absent || OwnerOf(w'.disk.marker) == Current(w')
  {
    var id := Current(Next(redact, w, a));
    OneMore(steps, a, id);
    if a.Launch? {
      NoDeedsYet(steps, id);
    } else {
      DeedAdded(Deeds(steps, id), a);
    }
  }

  lemma EndsKept(redact: Redact, steps: seq<Step>, w: World, a: Step)
    requires MarkerInv(redact, w) && LifeInv(w) && Enabled(w, a) && EndsInv(steps, w) && |w.lives| == Sessions(steps)
    ensures EndsInv(steps + [a], Next(redact, w, a))
  {
    var w' := Next(redact, w, a);
    forall id | 0 <= id < |w'.lives| - 1
      ensures Ended(Deeds(steps + [a], id))
    {
      EarlierEnded(redact, steps, w, a, id);
    }
    if w'.lives != [] && w'.phase == Off {
      CurrentEnded(redact, steps, w, a);
    }
    if w'.lives != [] && Scanned(Deeds(steps + [a], Current(w'))) {
      ScanHolds(redact, steps, w, a);
    }
  }

  // ---------- whole runs ----------

  lemma {:induction false} RunIsLived(redact: Redact, steps: seq<Step>)
    requires After(redact, steps).Some?
    ensures var w := After(redact, steps).value; LivesInv(steps, w) && FatesInv(steps, w) && EndsInv(steps, w)
  {
    if steps != [] {
      var init, a := steps[..|steps| - 1], steps[|steps| - 1];
      RunIsLived(redact, init);
      RunKeeps(redact, init);
      var w := After(redact, init).value;
      LivesKept(redact, init, w, a);
      FatesKept(redact, init, w, a);
      EndsKept(redact, init, w, a);
      assert init + [a] == steps;
    }
  }

  /**
   In every run, once the boot scan of the last session is over, each session before it is on record if and only if it
   began a marker and was not marked clean, or began one again after that; unless the scan that removed its marker could
   not write.  It is on record once, and once more for every scan that was killed right after writing the record.
   */
  lemma OnRecordIffUnclean(redact: Redact, steps: seq<Step>, id: nat)
    requires After(redact, steps).Some? && id + 1 < Sessions(steps) && Scanned(Deeds(steps, Sessions(steps) - 1))
    ensures var records, ds := After(redact, steps).value.disk.records, Deeds(steps, id);
            && (!Unrecorded(steps, id) ==> (Count(records, id) > 0 <==> Unclean(ds)))
            && (Count(records, id)
                == if Unclean(ds) then KilledScans(steps, id) + (if Unrecorded(steps, id) then 0 else 1) else 0)
  {
    RunKeeps(redact, steps);
    RunIsLived(redact, steps);
    OnRecordInWorld(steps, After(redact, steps).value, id);
  }

  lemma OnRecordInWorld(steps: seq<Step>, w: World, id: nat)
    requires LivesInv(steps, w) && FatesInv(steps, w) && EndsInv(steps, w) && CountInv(w)
    requires id + 1 < Sessions(steps) && Scanned(Deeds(steps, Sessions(steps) - 1))
    ensures Count(w.disk.records, id)
         == if Unclean(Deeds(steps, id)) then KilledScans(steps, id) + (if Unrecorded(steps, id) then 0 else 1) else 0
  {
    assert Counted(w, id);
    OwedByDeeds(steps, w, id);
  }

  lemma OwedByDeeds(steps: seq<Step>, w: World, id: nat)
    requires id < |w.lives| && !HasStaleMarker(w, id) && LivesInv(steps, w) && FatesInv(steps, w)
    ensures Owed(w, id)
         == if Unclean(Deeds(steps, id)) then KilledScans(steps, id) + (if Unrecorded(steps, id) then 0 else 1) else 0
  {
    assert LivedBy(w.lives[id], Deeds(steps, id)) && Fated(w.lives[id], steps, id);
  }

  /** At no time is there a record about a session that is not over, or that was marked clean and left it at that. */
  lemma NoFalseAlarm(redact: Redact, steps: seq<Step>, id: nat)
    requires After(redact, steps).Some? && Count(After(redact, steps).value.disk.records, id) > 0
    ensures id < Sessions(steps) && Ended(Deeds(steps, id)) && Unclean(Deeds(steps, id))
  {
    RunKeeps(redact, steps);
    RunIsLived(redact, steps);
    var w := After(redact, steps).value;
    assert Counted(w, id);
    assert LivedBy(w.lives[id], Deeds(steps, id));
  }

  /**
   Every record is about a session that left its marker.  If its last write was begun and not ended, the record says so;
   otherwise it names the session, when that first began to write (unless it wrote again after it was marked clean) and
   the last state it wrote, redacted for the marker and again for the record.
   */
  lemma WhatRecordsSay(redact: Redact, steps: seq<Step>, i: nat)
    requires After(redact, steps).Some? && i < |After(redact, steps).value.disk.records|
    ensures var r := After(redact, steps).value.disk.records[i];
            var ds := Deeds(steps, r.about);
            && r.about < Sessions(steps) && Unclean(ds)
            && match LastWritten(ds)
               case None => r.pid == None && r.startedAt == None && r.lastState == redact("<marker unreadable>")
               case Some(state) =>
                 && r.pid == Some(r.about) && r.lastState == redact(redact(state))
                 && (!Late(ds) ==> r.startedAt == FirstBegin(ds))
  {
    RunKeeps(redact, steps);
    RunIsLived(redact, steps);
    SessionMarker.WhatRecordsSay(redact, steps, i);
    var r := After(redact, steps).value.disk.records[i];
    assert LivedBy(After(redact, steps).value.lives[r.about], Deeds(steps, r.about));
  }
}
