/**
 The list of uploaded files.  It is kept as a vector with the newest first, and behaves as an ordered map from content
 identifiers to records; it is saved by writing a file beside the old one and renaming it over that.
 */
module FileIndex {
  import opened Wrappers

  datatype FileRecord = FileRecord(cid: string, name: string, size: nat, uploadedAt: nat)

  // ---------- the vector ----------

  ghost predicate IsPosition(files: seq<FileRecord>, cid: string, p: nat) {
    && p <= |files|
    && (forall i :: 0 <= i < p ==> files[i].cid != cid)
    && (p < |files| ==> files[p].cid == cid)
  }

  function PositionFrom(files: seq<FileRecord>, cid: string, i: nat): nat
    requires i <= |files|
    decreases |files| - i
  {
    if i == |files| || files[i].cid == cid then i else PositionFrom(files, cid, i + 1)
  }

  lemma {:induction false} PositionIs(files: seq<FileRecord>, cid: string, i: nat)
    requires i <= |files| && forall k :: 0 <= k < i ==> files[k].cid != cid
    ensures IsPosition(files, cid, PositionFrom(files, cid, i))
    decreases |files| - i
  {
    if i < |files| && files[i].cid != cid {
      PositionIs(files, cid, i + 1);
    }
  }

  /** What a re-upload leaves of the old record: its name, unless it had none. */
  function Merged(old_: FileRecord, rec: FileRecord): FileRecord {
    if old_.name != "" then rec.(name := old_.name) else rec
  }

  /** The vector after an upload, if `p` is where the file is, or the end if it is not there. */
  function Placed(files: seq<FileRecord>, rec: FileRecord, p: nat): seq<FileRecord> {
    if p < |files| then files[p := Merged(files[p], rec)] else [rec] + files
  }

  /** The vector after a removal: the first record of the file is gone, whatever comes behind it. */
  function TakenOut(files: seq<FileRecord>, p: nat): seq<FileRecord> {
    if p < |files| then files[..p] + files[p + 1..] else files
  }

  datatype Change = Upserted(rec: FileRecord) | Removed(cid: string)

  /** What uploading and removing make of any vector. */
  function Changed(files: seq<FileRecord>, change: Change): seq<FileRecord> {
    match change
    case Upserted(rec) => Placed(files, rec, PositionFrom(files, rec.cid, 0))
    case Removed(cid) => TakenOut(files, PositionFrom(files, cid, 0))
  }

  // ---------- the ordered map ----------

  /** The identifiers in order, and what belongs to each. */
  datatype Catalog = Catalog(order: seq<string>, records: map<string, FileRecord>)

  const EMPTY := Catalog([], map[])

  /** A new file goes to the front; a known one keeps its place, and its name if it has one. */
  function Put(c: Catalog, rec: FileRecord): Catalog {
    if rec.cid in c.records then c.(records := c.records[rec.cid := Merged(c.records[rec.cid], rec)])
    else Catalog([rec.cid] + c.order, c.records[rec.cid := rec])
  }

  function Without(order: seq<string>, cid: string): seq<string> {
    if order == [] then []
    else if order[0] == cid then order[1..]
    else [order[0]] + Without(order[1..], cid)
  }

  function Delete(c: Catalog, cid: string): Catalog {
    if cid in c.records then Catalog(Without(c.order, cid), c.records - {cid}) else c
  }

  ghost predicate Distinct(order: seq<string>) { forall i, j :: 0 <= i < j < |order| ==> order[i] != order[j] }

  /** No file twice, and exactly the files of the map. */
  ghost predicate Lists(order: seq<string>, records: map<string, FileRecord>) {
    && Distinct(order)
    && (forall cid :: cid in order <==> cid in records)
  }

  /** The vector holds the records of the catalog, in its order. */
  ghost predicate Represents(files: seq<FileRecord>, c: Catalog) {
    && Lists(c.order, c.records)
    && |files| == |c.order|
    && (forall i :: 0 <= i < |files| ==>
          files[i].cid == c.order[i] && c.order[i] in c.records && c.records[c.order[i]] == files[i])
  }

  class FilesIndex {
    var files: seq<FileRecord>

    constructor ()
      ensures files == []
    {
      files := [];
    }

    method Position(cid: string) returns (p: nat)
      ensures p == PositionFrom(files, cid, 0) && IsPosition(files, cid, p)
    {
      p := 0;
      while p < |files| && files[p].cid != cid
        invariant p <= |files|
        invariant forall i :: 0 <= i < p ==> files[i].cid != cid
        invariant PositionFrom(files, cid, p) == PositionFrom(files, cid, 0)
      {
        p := p + 1;
      }
    }

    /** `upsert`: what it makes of any vector; one that represents a catalog represents it with the file put in. */
    method Upsert(rec: FileRecord)
      modifies this
      ensures files == Changed(old(files), Upserted(rec))
      ensures forall c :: Represents(old(files), c) ==> Represents(files, Put(c, rec))
    {
      var p := Position(rec.cid);
      ghost var before := files;
      if p < |files| {
        var preserved := files[p].name;
        files := files[p := rec];
        if preserved != "" && preserved != rec.name {
          files := files[p := files[p].(name := preserved)];
        }
        assert files == Placed(before, rec, p);
      } else {
        files := [rec] + files;
      }
      forall c | Represents(before, c)
        ensures Represents(files, Put(c, rec))
      {
        UpsertRefines(before, c, rec, p);
      }
    }

    /** `remove`. */
    method Remove(cid: string) returns (removed: Option<FileRecord>)
      modifies this
      ensures files == Changed(old(files), Removed(cid))
      ensures var p := PositionFrom(old(files), cid, 0);
              removed == if p < |old(files)| then Some(old(files)[p]) else None
      ensures forall c :: Represents(old(files), c) ==>
                && Represents(files, Delete(c, cid))
                && removed == if cid in c.records then Some(c.records[cid]) else None
    {
      var p := Position(cid);
      ghost var before := files;
      if p < |files| {
        removed := Some(files[p]);
        files := files[..p] + files[p + 1..];
      } else {
        removed := None;
      }
      forall c | Represents(before, c)
        ensures Represents(files, Delete(c, cid)) && removed == if cid in c.records then Some(c.records[cid]) else None
      {
        RemoveRefines(before, c, cid, p);
      }
    }
  }

  lemma NotListed(files: seq<FileRecord>, c: Catalog, cid: string)
    requires Represents(files, c) && IsPosition(files, cid, |files|)
    ensures cid !in c.records
  {
    assert cid !in c.order;
  }

  lemma UpsertRefines(files: seq<FileRecord>, c: Catalog, rec: FileRecord, p: nat)
    requires Represents(files, c) && IsPosition(files, rec.cid, p)
    ensures Represents(Placed(files, rec, p), Put(c, rec))
  {
    if p < |files| {
      assert c.order[p] in c.order;
      UpdateRefines(files, c, Merged(files[p], rec), p);
    } else {
      NotListed(files, c, rec.cid);
      InsertRefines(files, c, rec);
    }
  }

  lemma UpdateRefines(files: seq<FileRecord>, c: Catalog, rec: FileRecord, p: nat)
    requires Represents(files, c) && p < |files| && files[p].cid == rec.cid
    ensures Represents(files[p := rec], c.(records := c.records[rec.cid := rec]))
  {
    assert c.order[p] in c.order;
    assert c.records[rec.cid := rec].Keys == c.records.Keys;
  }

  lemma InsertRefines(files: seq<FileRecord>, c: Catalog, rec: FileRecord)
    requires Represents(files, c) && rec.cid !in c.records
    ensures Represents([rec] + files, Catalog([rec.cid] + c.order, c.records[rec.cid := rec]))
  {
    forall i | 0 <= i < |c.order|
      ensures c.order[i] != rec.cid
    {
      assert c.order[i] in c.order;
    }
  }

  lemma RemoveRefines(files: seq<FileRecord>, c: Catalog, cid: string, p: nat)
    requires Represents(files, c) && IsPosition(files, cid, p)
    ensures Represents(TakenOut(files, p), Delete(c, cid))
    ensures if p < |files| then cid in c.records && c.records[cid] == files[p] else cid !in c.records
  {
    if p < |files| {
      TakeOut(files, c, p);
    }
  }

  /** Where the `i`-th of what is left was before the `p`-th was taken out. */
  function Skip(p: nat, i: nat): nat { if i < p then i else i + 1 }

  lemma {:induction false} WithoutAt(order: seq<string>, p: nat)
    requires p < |order| && Distinct(order)
    ensures |Without(order, order[p])| == |order| - 1
    ensures forall i :: 0 <= i < |order| - 1 ==> Without(order, order[p])[i] == order[Skip(p, i)]
  {
    if p > 0 {
      assert order[0] != order[p];
      WithoutAt(order[1..], p - 1);
    }
  }

  lemma ListsWithout(order: seq<string>, records: map<string, FileRecord>, p: nat)
    requires Lists(order, records) && p < |order|
    ensures Lists(Without(order, order[p]), records - {order[p]})
  {
    WithoutAt(order, p);
    var order' := Without(order, order[p]);
    forall cid
      ensures cid in order' <==> cid in order && cid != order[p]
    {
      if cid in order && cid != order[p] {
        var i :| 0 <= i < |order| && order[i] == cid;
        assert order'[if i < p then i else i - 1] == cid;
      }
    }
  }

  lemma TakeOut(files: seq<FileRecord>, c: Catalog, p: nat)
    requires Represents(files, c) && p < |files|
    ensures Represents(TakenOut(files, p), Delete(c, files[p].cid))
  {
    ListsWithout(c.order, c.records, p);
    WithoutAt(c.order, p);
    SkippingOne(files, p);
    var order' := Without(c.order, c.order[p]);
    forall i | 0 <= i < |order'|
      ensures order'[i] in c.records - {c.order[p]}
    {
      assert order'[i] in order';
    }
  }

  lemma SkippingOne(files: seq<FileRecord>, p: nat)
    requires p < |files|
    ensures |TakenOut(files, p)| == |files| - 1
    ensures forall i :: 0 <= i < |files| - 1 ==> TakenOut(files, p)[i] == files[Skip(p, i)]
  {}

  // ---------- whole runs ----------

  function Apply(c: Catalog, change: Change): Catalog {
    match change
    case Upserted(rec) => Put(c, rec)
    case Removed(cid) => Delete(c, cid)
  }

  /** The catalog after a run of changes, from an empty index. */
  function After(changes: seq<Change>): Catalog {
    if changes == [] then EMPTY else Apply(After(changes[..|changes| - 1]), changes[|changes| - 1])
  }

  /** The uploads of a file since it was last removed, or ever. */
  function Uploads(changes: seq<Change>, cid: string): seq<FileRecord> {
    if changes == [] then []
    else
      var before := Uploads(changes[..|changes| - 1], cid);
      match changes[|changes| - 1]
      case Upserted(rec) => if rec.cid == cid then before + [rec] else before
      case Removed(other) => if other == cid then [] else before
  }

  /** The first name that is not empty, if there is one. */
  function FirstName(uploads: seq<FileRecord>): string {
    if uploads == [] then ""
    else
      var before := FirstName(uploads[..|uploads| - 1]);
      if before != "" then before else uploads[|uploads| - 1].name
  }

  /** A file is listed if it was uploaded since its removal; all is as of the last upload, but for the first name. */
  lemma {:induction false} RecordIsLatest(changes: seq<Change>, cid: string)
    ensures var c, uploads := After(changes), Uploads(changes, cid);
            && (cid in c.records <==> uploads != [])
            && (uploads != [] ==> c.records[cid] == uploads[|uploads| - 1].(name := FirstName(uploads)))
  {
    if changes != [] {
      var before := changes[..|changes| - 1];
      RecordIsLatest(before, cid);
      var uploads := Uploads(before, cid);
      if changes[|changes| - 1].Upserted? && changes[|changes| - 1].rec.cid == cid {
        var rec := changes[|changes| - 1].rec;
        assert (uploads + [rec])[..|uploads + [rec]| - 1] == uploads;
        assert Uploads(changes, cid) == uploads + [rec];
      }
    }
  }

  // ---------- the same, change by change ----------

  predicate Uploaded(change: Change, cid: string) { change.Upserted? && change.rec.cid == cid }

  /** The `k`-th change uploads the file, and no later one removes it. */
  ghost predicate Stands(changes: seq<Change>, cid: string, k: nat) {
    k < |changes| && Uploaded(changes[k], cid) && forall j :: k < j < |changes| ==> changes[j] != Removed(cid)
  }

  /** The uploads that stand are `Uploads`, in their order: `u` says which change each of them is. */
  ghost predicate Numbers(changes: seq<Change>, cid: string, u: seq<nat>) {
    && |u| == |Uploads(changes, cid)|
    && (forall i :: 0 <= i < |u| ==> Stands(changes, cid, u[i]) && changes[u[i]].rec == Uploads(changes, cid)[i])
    && (forall i, j :: 0 <= i < j < |u| ==> u[i] < u[j])
    && (forall k: nat :: Stands(changes, cid, k) ==> k in u)
  }

  lemma {:induction false} UploadsStand(changes: seq<Change>, cid: string) returns (u: seq<nat>)
    ensures Numbers(changes, cid, u)
  {
    if changes == [] {
      u := [];
    } else {
      var n := |changes| - 1;
      u := UploadsStand(changes[..n], cid);
      StandsNext(changes, cid);
      if Uploaded(changes[n], cid) {
        u := u + [n];
      } else if changes[n] == Removed(cid) {
        u := [];
      }
    }
  }

  lemma StandsNext(changes: seq<Change>, cid: string)
    requires changes != []
    ensures var n := |changes| - 1;
            forall k: nat :: Stands(changes, cid, k) <==>
              if k == n then Uploaded(changes[n], cid)
              else Stands(changes[..n], cid, k) && changes[n] != Removed(cid)
  {
    var n := |changes| - 1;
    forall k: nat
      ensures Stands(changes, cid, k) <==>
              if k == n then Uploaded(changes[n], cid)
              else Stands(changes[..n], cid, k) && changes[n] != Removed(cid)
    {
      if k < n && Stands(changes[..n], cid, k) && changes[n] != Removed(cid) {
        forall j | k < j < |changes|
          ensures changes[j] != Removed(cid)
        {
          assert j < n ==> changes[..n][j] == changes[j];
        }
      }
    }
  }

  /** A file is listed if and only if some upload of it stands. */
  lemma ListedIff(changes: seq<Change>, cid: string)
    ensures cid in After(changes).records <==> exists i: nat :: Stands(changes, cid, i)
  {
    RecordIsLatest(changes, cid);
    var u := UploadsStand(changes, cid);
    if u != [] {
      assert Stands(changes, cid, u[0]);
    }
  }

  lemma LastNumber(changes: seq<Change>, cid: string, u: seq<nat>, k: nat)
    requires Numbers(changes, cid, u) && Stands(changes, cid, k)
    requires forall j :: k < j < |changes| ==> !Uploaded(changes[j], cid)
    ensures u != [] && u[|u| - 1] == k
  {
    var i :| 0 <= i < |u| && u[i] == k;
    assert Stands(changes, cid, u[|u| - 1]);
  }

  /** Its size and time are those of its last upload. */
  lemma AsLastUploaded(changes: seq<Change>, cid: string, k: nat)
    requires Stands(changes, cid, k) && forall j :: k < j < |changes| ==> !Uploaded(changes[j], cid)
    ensures cid in After(changes).records
    ensures var rec := After(changes).records[cid];
            rec.cid == cid && rec.size == changes[k].rec.size && rec.uploadedAt == changes[k].rec.uploadedAt
  {
    RecordIsLatest(changes, cid);
    var u := UploadsStand(changes, cid);
    LastNumber(changes, cid, u, k);
  }

  lemma {:induction false} FirstNameIs(uploads: seq<FileRecord>, i: nat)
    requires i < |uploads| && forall j :: 0 <= j < i ==> uploads[j].name == ""
    ensures uploads[i].name != "" ==> FirstName(uploads) == uploads[i].name
    ensures i == |uploads| - 1 && uploads[i].name == "" ==> FirstName(uploads) == ""
    decreases |uploads|
  {
    if i < |uploads| - 1 {
      FirstNameIs(uploads[..|uploads| - 1], i);
    } else {
      NoName(uploads[..i]);
    }
  }

  lemma {:induction false} NoName(uploads: seq<FileRecord>)
    requires forall j :: 0 <= j < |uploads| ==> uploads[j].name == ""
    ensures FirstName(uploads) == ""
  {
    if uploads != [] {
      NoName(uploads[..|uploads| - 1]);
    }
  }

  /** A listed file has the name of the first upload that stands and gives one; later uploads do not rename it. */
  lemma NamedByFirst(changes: seq<Change>, cid: string, k: nat)
    requires Stands(changes, cid, k)
    requires forall j: nat :: j < k && Stands(changes, cid, j) ==> changes[j].rec.name == ""
    ensures changes[k].rec.name != "" ==>
              cid in After(changes).records && After(changes).records[cid].name == changes[k].rec.name
  {
    RecordIsLatest(changes, cid);
    var u := UploadsStand(changes, cid);
    var i :| 0 <= i < |u| && u[i] == k;
    forall j | 0 <= j < i
      ensures Uploads(changes, cid)[j].name == ""
    {
      assert Stands(changes, cid, u[j]) && u[j] < u[i];
    }
    FirstNameIs(Uploads(changes, cid), i);
  }

  /** The change since which the file has been listed without a break. */
  function Since(changes: seq<Change>, cid: string): nat {
    if changes == [] then 0
    else
      var before := changes[..|changes| - 1];
      if cid in After(before).records then Since(before, cid) else |changes|
  }

  /** The later a file came, the further in front it is. */
  ghost predicate NewestFirst(changes: seq<Change>, order: seq<string>) {
    forall i, j :: 0 <= i < j < |order| ==> Since(changes, order[i]) > Since(changes, order[j])
  }

  /** Those that stay listed have been listed since the same change as before. */
  lemma SinceKept(changes: seq<Change>, change: Change, order: seq<string>)
    requires Lists(order, After(changes).records)
    ensures forall i :: 0 <= i < |order| ==> Since(changes + [change], order[i]) == Since(changes, order[i])
  {}

  lemma {:induction false} SinceInRange(changes: seq<Change>, cid: string)
    ensures Since(changes, cid) <= |changes|
  {
    if changes != [] {
      SinceInRange(changes[..|changes| - 1], cid);
    }
  }

  lemma FrontIsNewest(changes: seq<Change>, change: Change, cid: string, order: seq<string>)
    requires Lists(order, After(changes).records) && NewestFirst(changes, order) && cid !in After(changes).records
    ensures NewestFirst(changes + [change], [cid] + order)
  {
    SinceKept(changes, change, order);
    assert (changes + [change])[..|changes + [change]| - 1] == changes;
    assert Since(changes + [change], cid) == |changes| + 1;
    forall i | 0 <= i < |order|
      ensures Since(changes + [change], order[i]) <= |changes|
    {
      SinceInRange(changes, order[i]);
    }
    NewFront(changes + [change], cid, order);
  }

  lemma NewFront(changes: seq<Change>, cid: string, order: seq<string>)
    requires NewestFirst(changes, order)
    requires forall i :: 0 <= i < |order| ==> Since(changes, order[i]) < Since(changes, cid)
    ensures NewestFirst(changes, [cid] + order)
  {}

  lemma TakenOutInOrder(changes: seq<Change>, change: Change, order: seq<string>, p: nat)
    requires Lists(order, After(changes).records) && NewestFirst(changes, order) && p < |order|
    ensures NewestFirst(changes + [change], Without(order, order[p]))
  {
    SinceKept(changes, change, order);
    WithoutAt(order, p);
  }

  /** After any run of changes no file is listed twice, every file of the map is, and the list is newest first. */
  lemma {:induction false} OrderIsNewestFirst(changes: seq<Change>)
    ensures Lists(After(changes).order, After(changes).records) && NewestFirst(changes, After(changes).order)
  {
    if changes != [] {
      var before, change := changes[..|changes| - 1], changes[|changes| - 1];
      OrderIsNewestFirst(before);
      StepKeepsOrder(before, change);
      assert before + [change] == changes;
    }
  }

  lemma StepKeepsOrder(changes: seq<Change>, change: Change)
    requires var c := After(changes); Lists(c.order, c.records) && NewestFirst(changes, c.order)
    ensures var c' := Apply(After(changes), change);
            Lists(c'.order, c'.records) && NewestFirst(changes + [change], c'.order)
  {
    var c := After(changes);
    SinceKept(changes, change, c.order);
    match change {
      case Upserted(rec) =>
        if rec.cid !in c.records {
          FrontIsNewest(changes, change, rec.cid, c.order);
        }
      case Removed(cid) =>
        if cid in c.records {
          assert cid in c.order;
          var p :| 0 <= p < |c.order| && c.order[p] == cid;
          ListsWithout(c.order, c.records, p);
          TakenOutInOrder(changes, change, c.order, p);
        }
    }
  }

  // ---------- saving ----------

  type Index = seq<FileRecord>

  /** The index as text and back; `parse` fails on a text that is no index. */
  datatype Format = Format(print_: Index -> string, parse: string -> Option<Index>)

  ghost predicate ReadsBack(f: Format) { forall index :: f.parse(f.print_(index)) == Some(index) }

  datatype Disk = Disk(target: Option<string>, tmp: Option<string>)

  /** How far a save gets before the process is killed: the new file may be cut short anywhere. */
  datatype Reach = NotBegun | Partly(written: nat) | NotRenamed | Finished

  function Cut(text: string, n: nat): string { if n <= |text| then text[..n] else text }

  /** What a save that gets so far leaves. */
  function SaveUntil(f: Format, d: Disk, index: Index, reach: Reach): Disk {
    match reach
    case NotBegun => d
    case Partly(n) => d.(tmp := Some(Cut(f.print_(index), n)))
    case NotRenamed => d.(tmp := Some(f.print_(index)))
    case Finished => Disk(Some(f.print_(index)), None)
  }

  function LoadFrom(f: Format, d: Disk): Index {
    match d.target
    case None => []
    case Some(text) =>
      match f.parse(text)
      case Some(index) => index
      case None => []
  }

  class IndexFile {
    var target: Option<string>
    var tmp: Option<string>
    const f: Format

    ghost function Contents(): Disk
      reads this
    {
      Disk(target, tmp)
    }

    constructor (d: Disk, f: Format)
      ensures Contents() == d && this.f == f
    {
      target, tmp, this.f := d.target, d.tmp, f;
    }

    /** `save`, killed where `reach` says: the text goes beside the target, and is renamed over it. */
    method Save(index: Index, reach: Reach)
      modifies this
      ensures Contents() == SaveUntil(f, old(Contents()), index, reach)
    {
      var text := f.print_(index);
      if reach.NotBegun? {
        return;
      }
      tmp := Some(if reach.Partly? then Cut(text, reach.written) else text);
      if reach.Finished? {
        target, tmp := tmp, None;
      }
    }

    /** `load`. */
    method Load() returns (index: Index)
      ensures index == LoadFrom(f, Contents())
    {
      index := [];
      if target.Some? {
        var parsed := f.parse(target.value);
        if parsed.Some? {
          index := parsed.value;
        }
      }
    }
  }

  datatype SaveAttempt = SaveAttempt(index: Index, reach: Reach)

  /** Saves one after the other, each with its fate. */
  function Saves(f: Format, d: Disk, attempts: seq<SaveAttempt>): Disk {
    if attempts == [] then d
    else
      var last := attempts[|attempts| - 1];
      SaveUntil(f, Saves(f, d, attempts[..|attempts| - 1]), last.index, last.reach)
  }

  /** The index of the last save that was finished, or the one there was before. */
  function LastFinished(original: Index, attempts: seq<SaveAttempt>): Index {
    if attempts == [] then original
    else
      var last := attempts[|attempts| - 1];
      if last.reach.Finished? then last.index else LastFinished(original, attempts[..|attempts| - 1])
  }

  /** Whatever kills the saves, and wherever: loading gives the last index that was saved, complete. */
  lemma {:induction false} LoadGivesLastSaved(f: Format, d: Disk, attempts: seq<SaveAttempt>)
    requires ReadsBack(f)
    ensures LoadFrom(f, Saves(f, d, attempts)) == LastFinished(LoadFrom(f, d), attempts)
  {
    if attempts != [] {
      LoadGivesLastSaved(f, d, attempts[..|attempts| - 1]);
      var last := attempts[|attempts| - 1];
      assert f.parse(f.print_(last.index)) == Some(last.index);
    }
  }

  // ---------- an index that lists a file twice ----------

  ghost predicate NoTwice(files: Index) { forall i, j :: 0 <= i < j < |files| ==> files[i].cid != files[j].cid }

  /** The catalog of a vector that lists no file twice: its records put in from the back. */
  function CatalogOf(files: Index): Catalog {
    if files == [] then EMPTY else Put(CatalogOf(files[1..]), files[0])
  }

  lemma {:induction false} RepresentedByItsCatalog(files: Index)
    requires NoTwice(files)
    ensures Represents(files, CatalogOf(files))
  {
    if files != [] {
      RepresentedByItsCatalog(files[1..]);
      assert IsPosition(files[1..], files[0].cid, |files| - 1);
      UpsertRefines(files[1..], CatalogOf(files[1..]), files[0], |files| - 1);
      assert files == [files[0]] + files[1..];
    }
  }

  /** A vector behaves as a map, so that `Upsert` and `Remove` keep a catalog, exactly when it lists no file twice. */
  lemma BehavesAsMapIffNoTwice(files: Index)
    ensures (exists c :: Represents(files, c)) <==> NoTwice(files)
  {
    if NoTwice(files) {
      RepresentedByItsCatalog(files);
    }
    if c :| Represents(files, c) {
      forall i, j | 0 <= i < j < |files|
        ensures files[i].cid != files[j].cid
      {
        assert c.order[i] != c.order[j];
      }
    }
  }

  /** How often a file is listed among the first `n`. */
  function CountTo(files: Index, cid: string, n: nat): nat
    requires n <= |files|
  {
    if n == 0 then 0 else CountTo(files, cid, n - 1) + if files[n - 1].cid == cid then 1 else 0
  }

  function Count(files: Index, cid: string): nat { CountTo(files, cid, |files|) }

  lemma {:induction false} CountFront(a: Index, b: Index, cid: string, n: nat)
    requires n <= |a|
    ensures CountTo(a + b, cid, n) == CountTo(a, cid, n)
  {
    if n > 0 {
      CountFront(a, b, cid, n - 1);
    }
  }

  lemma {:induction false} CountConcat(a: Index, b: Index, cid: string, n: nat)
    requires n <= |b|
    ensures CountTo(a + b, cid, |a| + n) == Count(a, cid) + CountTo(b, cid, n)
  {
    if n == 0 {
      CountFront(a, b, cid, |a|);
    } else {
      CountConcat(a, b, cid, n - 1);
    }
  }

  lemma {:induction false} CountZero(files: Index, cid: string, n: nat)
    requires n <= |files|
    ensures CountTo(files, cid, n) == 0 <==> forall i :: 0 <= i < n ==> files[i].cid != cid
  {
    if n > 0 {
      CountZero(files, cid, n - 1);
    }
  }

  lemma CountSplit(a: Index, rec: FileRecord, b: Index, cid: string)
    ensures Count(a + [rec] + b, cid) == Count(a, cid) + (if rec.cid == cid then 1 else 0) + Count(b, cid)
  {
    CountConcat(a + [rec], b, cid, |b|);
    CountConcat(a, [rec], cid, 1);
    assert CountTo([rec], cid, 0) == 0;
  }

  lemma CountAt(files: Index, p: nat, cid: string)
    requires p < |files|
    ensures files == files[..p] + [files[p]] + files[p + 1..]
    ensures Count(files, cid)
         == Count(files[..p], cid) + (if files[p].cid == cid then 1 else 0) + Count(files[p + 1..], cid)
  {
    CountSplit(files[..p], files[p], files[p + 1..], cid);
    assert files == files[..p] + [files[p]] + files[p + 1..];
  }

  /** Removing takes one record of the file, so that a file listed twice is still listed. */
  lemma RemoveTakesOne(files: Index, cid: string, p: nat, other: string)
    requires IsPosition(files, cid, p)
    ensures Count(TakenOut(files, p), other) == Count(files, other) - if other == cid && p < |files| then 1 else 0
  {
    if p < |files| {
      CountAt(files, p, other);
      CountConcat(files[..p], files[p + 1..], other, |files| - p - 1);
    }
  }

  /** After a removal the file is still listed if and only if it was listed again further back. */
  lemma StillListedIff(files: Index, cid: string, p: nat)
    requires IsPosition(files, cid, p)
    ensures (exists i :: 0 <= i < |TakenOut(files, p)| && TakenOut(files, p)[i].cid == cid)
       <==> (exists i :: p < i < |files| && files[i].cid == cid)
  {
    var left := TakenOut(files, p);
    if p < |files| {
      SkippingOne(files, p);
    }
    if i :| p < i < |files| && files[i].cid == cid {
      assert left[i - 1].cid == cid;
    }
  }

  /** An upload lists the file if it was not listed, and else leaves as many records as there were. */
  lemma UploadCount(files: Index, rec: FileRecord, p: nat, other: string)
    requires IsPosition(files, rec.cid, p)
    ensures Count(Placed(files, rec, p), other)
         == Count(files, other) + if other == rec.cid && p == |files| then 1 else 0
  {
    if p < |files| {
      var after := Placed(files, rec, p);
      CountAt(files, p, other);
      CountAt(after, p, other);
      assert after[..p] == files[..p] && after[p + 1..] == files[p + 1..];
    } else {
      CountConcat([rec], files, other, |files|);
      assert CountTo([rec], other, 0) == 0;
    }
  }

  // ---------- runs from a loaded index ----------

  function Changes(files: Index, changes: seq<Change>): Index {
    if changes == [] then files else Changed(Changes(files, changes[..|changes| - 1]), changes[|changes| - 1])
  }

  /** How often a file is listed after a run, if it was listed `n` times before. */
  function Tally(n: nat, changes: seq<Change>, cid: string): nat {
    if changes == [] then n
    else
      var before := Tally(n, changes[..|changes| - 1], cid);
      match changes[|changes| - 1]
      case Upserted(rec) => if rec.cid == cid && before == 0 then 1 else before
      case Removed(other) => if other == cid && before > 0 then before - 1 else before
  }

  lemma ChangeCount(files: Index, change: Change, cid: string)
    ensures Count(Changed(files, change), cid) == Tally(Count(files, cid), [change], cid)
  {
    var target := if change.Upserted? then change.rec.cid else change.cid;
    var p := PositionFrom(files, target, 0);
    PositionIs(files, target, 0);
    CountZero(files, target, |files|);
    assert [change][..0] == [];
    if change.Upserted? {
      UploadCount(files, change.rec, p, cid);
    } else {
      RemoveTakesOne(files, change.cid, p, cid);
    }
  }

  /** In any run from any index, a file goes from the list only after as many removals as there were records of it. */
  lemma {:induction false} RunCount(files: Index, changes: seq<Change>, cid: string)
    ensures Count(Changes(files, changes), cid) == Tally(Count(files, cid), changes, cid)
  {
    if changes != [] {
      var before, change := changes[..|changes| - 1], changes[|changes| - 1];
      RunCount(files, before, cid);
      ChangeCount(Changes(files, before), change, cid);
      assert [change][..0] == [];
    }
  }

  lemma {:induction false} CountTwo(files: Index, cid: string, n: nat)
    requires n <= |files|
    ensures CountTo(files, cid, n) > 1
       <==> exists i, j :: 0 <= i < j < n && files[i].cid == cid && files[j].cid == cid
  {
    if n > 0 {
      CountTwo(files, cid, n - 1);
      CountZero(files, cid, n - 1);
      if CountTo(files, cid, n - 1) > 0 && files[n - 1].cid == cid {
        var i :| 0 <= i < n - 1 && files[i].cid == cid;
        assert files[i].cid == cid && files[n - 1].cid == cid;
      }
    }
  }

  lemma NoTwiceIffCounted(files: Index)
    ensures NoTwice(files) <==> forall cid :: Count(files, cid) <= 1
  {
    forall cid
      ensures Count(files, cid) > 1
         <==> exists i, j :: 0 <= i < j < |files| && files[i].cid == cid && files[j].cid == cid
    {
      CountTwo(files, cid, |files|);
    }
    if !NoTwice(files) {
      var i, j :| 0 <= i < j < |files| && files[i].cid == files[j].cid;
      assert Count(files, files[i].cid) > 1;
    }
  }

  /** Whether a run from any index ends with no file listed twice can be told from how often each was listed before. */
  lemma RunEndsWithNoneTwice(files: Index, changes: seq<Change>)
    ensures NoTwice(Changes(files, changes)) <==> forall cid :: Tally(Count(files, cid), changes, cid) <= 1
  {
    NoTwiceIffCounted(Changes(files, changes));
    forall cid
      ensures Count(Changes(files, changes), cid) == Tally(Count(files, cid), changes, cid)
    {
      RunCount(files, changes, cid);
    }
  }

  // ---------- loading does not remove duplicates ----------

  /** Whatever kills the saves: the loaded index lists no file twice exactly when the one last saved did not. */
  lemma LoadedTwiceIffSavedTwice(f: Format, d: Disk, attempts: seq<SaveAttempt>)
    requires ReadsBack(f)
    ensures NoTwice(LoadFrom(f, Saves(f, d, attempts))) <==> NoTwice(LastFinished(LoadFrom(f, d), attempts))
  {
    LoadGivesLastSaved(f, d, attempts);
  }

  /** A file listed twice on disk is loaded twice, and is still listed after it has been removed. */
  lemma RemovedYetListed(f: Format, rec: FileRecord, d: Disk)
    requires ReadsBack(f) && d == Disk(Some(f.print_([rec, rec])), None)
    ensures !NoTwice(LoadFrom(f, d)) && Changed(LoadFrom(f, d), Removed(rec.cid)) == [rec]
  {
    assert f.parse(f.print_([rec, rec])) == Some([rec, rec]);
    var files := LoadFrom(f, d);
    assert files == [rec, rec] && files[0].cid == files[1].cid;
    assert files[..0] + files[1..] == [rec];
  }
}
