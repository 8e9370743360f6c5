/** internal/eventlog: the append-only log. `Mem` is the simple reference; `File` is the
    durable one, which writes snapshots and truncates its log through renames.

    A call that returned has taken effect even if the process then dies; a call that fails
    leaves what `SaveStep` says. Records and snapshots are stored through a codec that is
    taken as a bijection, so a file is the sequence of its records. */
module EventLog {
  import opened Model

  // ------------------------------------------------------------ Mem: the reference

  /** The records of a log that holds exactly these events: numbered 1, 2, ... without gaps. */
  function Numbered(events: seq<Event>): seq<Record> {
    seq(|events|, i requires 0 <= i < |events| => Record(i + 1, events[i]))
  }

  /** Records numbered at least n, in order. */
  function Since(recs: seq<Record>, n: nat): seq<Record> {
    if recs == [] then []
    else Since(recs[..|recs|-1], n) + (if recs[|recs|-1].seqNo >= n then [recs[|recs|-1]] else [])
  }

  lemma {:induction false} SinceNumbered(events: seq<Event>, k: nat, n: nat)
    requires k <= |events| && k < n
    ensures Since(Numbered(events)[k..], n) == if n <= |events| then Numbered(events)[n-1..] else []
  {
    var recs := Numbered(events)[k..];
    if recs != [] {
      var init := events[..|events|-1];
      assert Numbered(init)[k..] == recs[..|recs|-1];
      SinceNumbered(init, k, n);
      if n <= |events| {
        assert Numbered(events)[n-1..] == (if n <= |init| then Numbered(init)[n-1..] else []) + [recs[|recs|-1]];
      }
    }
  }

  lemma {:induction false} SinceAll(recs: seq<Record>)
    requires forall i :: 0 <= i < |recs| ==> recs[i].seqNo >= 1
    ensures Since(recs, 1) == recs
  {
    if recs != [] {
      SinceAll(recs[..|recs|-1]);
      assert recs == recs[..|recs|-1] + [recs[|recs|-1]];
    }
  }

  method Select(recs: seq<Record>, n: nat) returns (out: seq<Record>)
    ensures out == Since(recs, n)
  {
    out := [];
    for i := 0 to |recs|
      invariant out == Since(recs[..i], n)
    {
      assert recs[..i+1][..i] == recs[..i];
      if recs[i].seqNo >= n {
        out := out + [recs[i]];
      }
    }
    assert recs[..|recs|] == recs;
  }

  class Mem {
    var recs: seq<Record>

    constructor ()
      ensures recs == []
    {
      recs := [];
    }

    method Append(e: Event) returns (r: Record)
      modifies this
      ensures r == Record(|old(recs)| + 1, e) && recs == old(recs) + [r]
      ensures forall events :: old(recs) == Numbered(events) ==> recs == Numbered(events + [e])
    {
      r := Record(|recs| + 1, e);
      recs := recs + [r];
    }

    method ReadFrom(n: nat) returns (out: seq<Record>)
      ensures out == Since(recs, n)
    {
      out := Select(recs, n);
    }
  }

  // ------------------------------------------------------- the file system below File

  /** A temporary file: absent, cut short by a failed or interrupted write, or complete. */
  datatype Tmp<+T> = Absent | Torn | Whole(content: T)

  datatype SnapWire<+S> = SnapWire(seqNo: nat, data: S)

  /** The files of one log. An open handle is bound to an inode, so the log path names one of
      a growing list of inodes and a rename re-points it. */
  datatype Disk<+S> = Disk(inodes: seq<seq<Record>>, log: Option<nat>, logTmp: Tmp<seq<Record>>,
                           snap: Option<SnapWire<S>>, snapTmp: Tmp<SnapWire<S>>)

  /** The append handle: never opened or closed by Close (nil), closed but not replaced, or open. */
  datatype Handle = NoHandle | Stale | Bound(inode: nat)

  /** What File keeps in memory. */
  datatype FileState = FileState(seqNo: nat, w: Handle)

  predicate WellFormed<S>(d: Disk<S>) {
    d.log.Some? ==> d.log.value < |d.inodes|
  }

  function ReadAll<S>(d: Disk<S>): seq<Record> {
    if d.log.Some? && d.log.value < |d.inodes| then d.inodes[d.log.value] else []
  }

  // ---------------------------------------------------------------- specifications

  /** Opening the log for append creates it when it is missing. */
  function Opened<S>(d: Disk<S>): Disk<S> {
    if d.log.Some? then d else d.(inodes := d.inodes + [[]], log := Some(|d.inodes|))
  }

  /** What reading the snapshot gives: there is none, it cannot be read, or it is this one. */
  datatype Loaded<+S> = NoSnapshot | Unreadable | Snap(wire: SnapWire<S>)

  function LoadedSnapshot<S>(d: Disk<S>, readable: bool): Loaded<S> {
    if d.snap.None? then NoSnapshot else if readable then Snap(d.snap.value) else Unreadable
  }

  /** The Seq that OpenFile resumes from; a snapshot that cannot be read is passed over. */
  function HighWater<S>(d: Disk<S>, readable: bool): nat {
    var recs := ReadAll(d);
    var tail := if recs == [] then 0 else recs[|recs|-1].seqNo;
    if readable && d.snap.Some? && d.snap.value.seqNo > tail then d.snap.value.seqNo else tail
  }

  function Appended<S>(d: Disk<S>, r: Record, w: Handle): Disk<S>
    requires w.Bound? ==> w.inode < |d.inodes|
  {
    if w.Bound? then d.(inodes := d.inodes[w.inode := d.inodes[w.inode] + [r]]) else d
  }

  /** How far SaveSnapshot gets: the step that fails, or Done. A process that dies between
      two steps leaves what a failure of the second leaves. */
  datatype SaveStep = WriteSnapTmp | RenameSnap | ReadLog | WriteLogTmp | RenameLog | Reopen | Done

  predicate Reaches(fail: SaveStep, step: SaveStep) {
    Rank(step) < Rank(fail)
  }

  function Rank(s: SaveStep): nat {
    match s
    case WriteSnapTmp => 0 case RenameSnap => 1 case ReadLog => 2 case WriteLogTmp => 3
    case RenameLog => 4 case Reopen => 5 case Done => 6
  }

  /** After SaveSnapshot: the snapshot is the new one from the first rename on, the log is cut
      from the second rename on, and the handle follows the log once it is reopened. */
  ghost predicate Saved<S>(d: Disk<S>, f: FileState, s: SnapWire<S>, fail: SaveStep, d': Disk<S>, f': FileState) {
    && (d'.snap == if Reaches(fail, RenameSnap) then Some(s) else d.snap)
    && (if Reaches(fail, RenameLog)
        then d'.inodes == d.inodes + [Since(ReadAll(d), s.seqNo + 1)] && d'.log == Some(|d.inodes|)
        else d'.inodes == d.inodes && d'.log == d.log)
    && f'.seqNo == f.seqNo
    && f'.w == (if !Reaches(fail, RenameLog) || f.w.NoHandle? then f.w
                else if fail == Reopen then Stale
                else Bound(|d.inodes|))
  }

  // ---------------------------------------------------------------- File

  class FileSystem<S> {
    var d: Disk<S>

    constructor ()
      ensures d == Disk([], None, Absent, None, Absent)
    {
      d := Disk([], None, Absent, None, Absent);
    }
  }

  class File<S> {
    const fs: FileSystem<S>
    var seqNo: nat
    var w: Handle

    ghost function St(): FileState
      reads this
    {
      FileState(seqNo, w)
    }

    ghost predicate Valid()
      reads this, fs
    {
      WellFormed(fs.d) && (w.Bound? ==> w.inode < |fs.d.inodes|)
    }

    /** OpenFile: recover the highest Seq from the log's tail and from the snapshot, if it is readable. */
    constructor (fs: FileSystem<S>, readable: bool)
      requires WellFormed(fs.d)
      modifies fs
      ensures this.fs == fs && Valid()
      ensures fs.d == Opened(old(fs.d))
      ensures St() == FileState(HighWater(old(fs.d), readable), Bound(fs.d.log.value))
    {
      this.fs := fs;
      this.seqNo := 0;
      this.w := NoHandle;
      new;
      var recs := ReadAll(fs.d);
      if |recs| > 0 {
        seqNo := recs[|recs|-1].seqNo;
      }
      if readable && fs.d.snap.Some? && fs.d.snap.value.seqNo > seqNo {
        seqNo := fs.d.snap.value.seqNo;
      }
      if fs.d.log.None? {
        fs.d := fs.d.(inodes := fs.d.inodes + [[]], log := Some(|fs.d.inodes|));
      }
      w := Bound(fs.d.log.value);
    }

    /** Writes and syncs one record, or reports an error having written nothing. */
    method Append(e: Event, ioOk: bool) returns (r: Option<Record>)
      requires Valid()
      modifies this, fs
      ensures Valid() && w == old(w)
      ensures r == if ioOk && w.Bound? then Some(Record(old(seqNo) + 1, e)) else None
      ensures r.Some? ==> fs.d == Appended(old(fs.d), r.value, w) && seqNo == r.value.seqNo
      ensures r.None? ==> fs.d == old(fs.d) && seqNo == old(seqNo)
    {
      if !ioOk || !w.Bound? {
        return None;
      }
      var rec := Record(seqNo + 1, e);
      fs.d := fs.d.(inodes := fs.d.inodes[w.inode := fs.d.inodes[w.inode] + [rec]]);
      seqNo := rec.seqNo;
      r := Some(rec);
    }

    /** `readable` says whether the log file could be read and decoded. */
    method ReadFrom(n: nat, readable: bool) returns (out: Option<seq<Record>>)
      ensures out == if readable then Some(Since(ReadAll(fs.d), n)) else None
    {
      if !readable {
        return None;
      }
      var recs := Select(ReadAll(fs.d), n);
      out := Some(recs);
    }

    method LoadSnapshot(readable: bool) returns (s: Loaded<S>)
      ensures s == LoadedSnapshot(fs.d, readable)
    {
      if fs.d.snap.None? {
        return NoSnapshot;
      }
      if !readable {
        return Unreadable;
      }
      s := Snap(fs.d.snap.value);
    }

    /** The steps of SaveSnapshot, stopping with an error at `fail`. */
    method SaveSnapshot(through: nat, data: S, fail: SaveStep) returns (ok: bool)
      requires Valid()
      modifies this, fs
      ensures Valid()
      ensures Saved(old(fs.d), old(St()), SnapWire(through, data), fail, fs.d, St())
      ensures ok <==> fail == Done || (fail == Reopen && old(w).NoHandle?)
    {
      ok := false;
      if fail == WriteSnapTmp {
        fs.d := fs.d.(snapTmp := Torn);
        return;
      }
      fs.d := fs.d.(snapTmp := Whole(SnapWire(through, data)));
      if fail == RenameSnap { return; }
      fs.d := fs.d.(snap := Some(fs.d.snapTmp.content), snapTmp := Absent);
      if fail == ReadLog { return; }
      var kept := Select(ReadAll(fs.d), through + 1);
      if fail == WriteLogTmp {
        fs.d := fs.d.(logTmp := Torn);
        return;
      }
      fs.d := fs.d.(logTmp := Whole(kept));
      if fail == RenameLog { return; }
      fs.d := fs.d.(inodes := fs.d.inodes + [fs.d.logTmp.content], log := Some(|fs.d.inodes|), logTmp := Absent);
      if w != NoHandle {
        w := Stale;
        if fail == Reopen { return; }
        w := Bound(fs.d.log.value);
      }
      ok := true;
    }

    method Close()
      modifies this
      ensures w == NoHandle && seqNo == old(seqNo)
    {
      w := NoHandle;
    }
  }
}
