/** internal/eventlog when the power fails. Append syncs the log; SaveSnapshot renames a snapshot and
    a cut log into place without syncing either, although its comment says that it does. What has
    not been synced, by the code or by the system, may be lost. */
module PowerLoss {
  import opened Model
  import opened EventLog
  import opened Runtime
  import P = Projection
  import Threading

  /** What is on stable storage under the names of the snapshot and of the log. */
  datatype Stable = Stable(snap: Option<SnapWire<P.Snapshot>>, log: seq<Record>)

  datatype Power = Power(sys: Sys, stable: Stable)

  /** Flush is the system writing out the snapshot, the log, or both, on its own. */
  datatype PowerOp =
    | Usual(op: Op)
    | Flush(snap: bool, log: bool)
    | PowerFails

  /** What may be found after the power failed. Each name has what was written or what was stable;
      and a snapshot that was renamed into place and not written out may be torn, which opening
      treats like none. */
  predicate Outcome(p: Power, d: Disk<P.Snapshot>) {
    && WellFormed(d)
    && (ReadAll(d) == ReadAll(p.sys.disk) || ReadAll(d) == p.stable.log)
    && (d.snap == p.sys.disk.snap || d.snap == p.stable.snap || (d.snap.None? && p.sys.disk.snap != p.stable.snap))
  }

  /** An acknowledged append has synced the log. */
  ghost predicate NextPower(p: Power, o: PowerOp, q: Power) {
    match o
    case Usual(op) =>
      && Next(p.sys, op, q.sys)
      && q.stable == if q.sys.acked == p.sys.acked then p.stable else p.stable.(log := ReadAll(q.sys.disk))
    case Flush(snap, log) =>
      && q.sys == p.sys
      && q.stable == Stable(if snap then p.sys.disk.snap else p.stable.snap,
                            if log then ReadAll(p.sys.disk) else p.stable.log)
    case PowerFails =>
      && q.sys.mem.None? && q.sys.acked == p.sys.acked && Outcome(p, q.sys.disk)
      && q.stable == Stable(q.sys.disk.snap, ReadAll(q.sys.disk))
  }

  // ---------------------------------------------------------------- what a power failure spares

  /** A log that ends the history. */
  predicate Tail(log: seq<Record>, events: seq<Event>) {
    |log| <= |events| && log == Numbered(events)[|events| - |log|..]
  }

  /** A snapshot of the history, if there is one. */
  ghost predicate Snapped(snap: Option<SnapWire<P.Snapshot>>, events: seq<Event>) {
    snap.Some? ==>
      && snap.value.seqNo <= |events|
      && snap.value.data == P.TakeSnapshot(FoldEvents(events[..snap.value.seqNo]))
  }

  /** The snapshot covers what the log lacks. */
  predicate Covers(snap: Option<SnapWire<P.Snapshot>>, log: seq<Record>, events: seq<Event>) {
    |log| < |events| ==> snap.Some? && |events| - |log| <= snap.value.seqNo
  }

  /** The parts of holding the history. */
  lemma PersistedParts(d: Disk<P.Snapshot>, events: seq<Event>)
    ensures Persisted(d, events) <==>
      WellFormed(d) && Tail(ReadAll(d), events) && Snapped(d.snap, events) && Covers(d.snap, ReadAll(d), events)
  {
    hide FoldEvents, ReadAll, Numbered;
  }

  /** The log, as written and as stable, ends the history, and the snapshot in place covers what either
      lacks; a stable snapshot is one of the history. */
  ghost predicate StableOk(p: Power) {
    var events, log := p.sys.acked, p.stable.log;
    Tail(log, events) && Covers(p.sys.disk.snap, log, events) && Snapped(p.stable.snap, events)
  }

  ghost predicate PowerInv(p: Power) {
    Inv(p.sys) && StableOk(p)
  }

  /** The snapshot in place is stable, or the log holds the whole history both as written and as
      stable. */
  predicate Spared(p: Power) {
    p.sys.disk.snap == p.stable.snap || (|ReadAll(p.sys.disk)| == |p.stable.log| == |p.sys.acked|)
  }

  lemma OneLog(log: seq<Record>, snap: Option<SnapWire<P.Snapshot>>) returns (d: Disk<P.Snapshot>)
    ensures WellFormed(d) && ReadAll(d) == log && d.snap == snap
  {
    d := Disk([log], Some(0), Absent, snap, Absent);
  }

  lemma WrittenIsOk(s: Sys)
    requires Inv(s)
    ensures WellFormed(s.disk) && Tail(ReadAll(s.disk), s.acked)
    ensures Snapped(s.disk.snap, s.acked) && Covers(s.disk.snap, ReadAll(s.disk), s.acked)
  {
    hide Persisted, ReadAll, Tail, Snapped, Covers, ExactHistory, Live;
    PersistedParts(s.disk, s.acked);
  }

  lemma SparedHolds(p: Power, d: Disk<P.Snapshot>)
    requires PowerInv(p) && Spared(p) && Outcome(p, d)
    ensures Persisted(d, p.sys.acked)
  {
    assert Snapped(None, p.sys.acked);
    hide Inv, ReadAll, Tail, Snapped, Persisted, WellFormed;
    WrittenIsOk(p.sys);
    PersistedParts(d, p.sys.acked);
  }

  /** Otherwise the snapshot may be torn and a cut log found beside it. */
  lemma NotSpared(p: Power) returns (d: Disk<P.Snapshot>)
    requires PowerInv(p) && !Spared(p)
    ensures Outcome(p, d) && !Persisted(d, p.sys.acked)
  {
    hide Inv, ReadAll, Numbered, Snapped, Persisted, WellFormed;
    WrittenIsOk(p.sys);
    var log := if |p.stable.log| < |p.sys.acked| then p.stable.log else ReadAll(p.sys.disk);
    d := OneLog(log, None);
    PersistedParts(d, p.sys.acked);
  }

  /** Theorem: every outcome of a power failure holds the whole acknowledged history if and only if the
      snapshot in place had been written out or the log not been cut. */
  lemma SparedIff(p: Power)
    requires PowerInv(p)
    ensures (forall d :: Outcome(p, d) ==> Persisted(d, p.sys.acked)) <==> Spared(p)
  {
    hide *;
    if Spared(p) {
      forall d | Outcome(p, d)
        ensures Persisted(d, p.sys.acked)
      {
        SparedHolds(p, d);
      }
    } else {
      var d := NotSpared(p);
    }
  }

  // ---------------------------------------------------------------- every run

  ghost predicate PowerRun(ps: seq<Power>, ops: seq<PowerOp>) {
    && |ps| == |ops| + 1
    && forall i :: 0 <= i < |ops| ==> NextPower(ps[i], ops[i], ps[i+1])
  }

  /** The power failed only where it spared the history, and every opening had the snapshot it needed. */
  predicate Careful(p: Power, o: PowerOp) {
    match o
    case Usual(op) => BootsWell(p.sys, op)
    case PowerFails => Spared(p)
    case Flush(_, _) => true
  }

  lemma StaysSnapped(snap: Option<SnapWire<P.Snapshot>>, events: seq<Event>, more: seq<Event>)
    requires Snapped(snap, events) && events <= more
    ensures Snapped(snap, more)
  {
    assert snap.Some? ==> more[..snap.value.seqNo] == events[..snap.value.seqNo];
    hide FoldEvents;
  }

  /** What a step may do to the history and to the snapshot in place. */
  lemma StepShape(s: Sys, op: Op, t: Sys)
    requires Inv(s) && Next(s, op, t)
    ensures s.acked <= t.acked
    ensures t.disk.snap == s.disk.snap || (t.disk.snap.Some? && t.disk.snap.value.seqNo == |t.acked| == |s.acked|)
  {
    FoldSeqNo(s.acked);
    hide FoldEvents, P.Step, Persisted, ExactHistory, OpenedProjection;
  }

  lemma UsualKeeps(p: Power, op: Op, q: Power)
    requires PowerInv(p) && BootsWell(p.sys, op) && NextPower(p, Usual(op), q)
    ensures PowerInv(q)
  {
    hide Inv, Next, BootsWell, Tail, Snapped, ReadAll, WellFormed;
    NextKeeps(p.sys, op, q.sys);
    StepShape(p.sys, op, q.sys);
    StaysSnapped(p.stable.snap, p.sys.acked, q.sys.acked);
    WrittenIsOk(q.sys);
  }

  lemma FlushKeeps(p: Power, o: PowerOp, q: Power)
    requires PowerInv(p) && o.Flush? && NextPower(p, o, q)
    ensures PowerInv(q)
  {
    hide Inv, Tail, Snapped, ReadAll, Covers;
    WrittenIsOk(p.sys);
  }

  lemma FailureKeeps(p: Power, q: Power)
    requires PowerInv(p) && Spared(p) && NextPower(p, PowerFails, q)
    ensures PowerInv(q)
  {
    SparedHolds(p, q.sys.disk);
    assert ExactHistory(q.sys.acked);
    hide ReadAll, Outcome, Tail, Snapped, Covers, Persisted, ExactHistory;
    PersistedParts(q.sys.disk, q.sys.acked);
  }

  lemma StepKeeps(p: Power, o: PowerOp, q: Power)
    requires PowerInv(p) && Careful(p, o) && NextPower(p, o, q)
    ensures PowerInv(q)
  {
    hide PowerInv, NextPower;
    match o
    case Usual(op) => UsualKeeps(p, op, q);
    case Flush(_, _) => FlushKeeps(p, o, q);
    case PowerFails => FailureKeeps(p, q);
  }

  lemma {:induction false} PowerRunKeeps(ps: seq<Power>, ops: seq<PowerOp>)
    requires PowerRun(ps, ops) && PowerInv(ps[0])
    requires forall i :: 0 <= i < |ops| ==> Careful(ps[i], ops[i])
    ensures PowerInv(ps[|ops|])
  {
    hide PowerInv, NextPower, Careful;
    if ops != [] {
      var n := |ops| - 1;
      assert PowerRun(ps[..n+1], ops[..n]);
      PowerRunKeeps(ps[..n+1], ops[..n]);
      StepKeeps(ps[n], ops[n], ps[n+1]);
    }
  }

  const NEW_POWER := Power(NEW_ACCOUNT, Stable(None, []))

  /** Theorem: over every run from nothing, with power failures wherever they spare the history, an
      opened log gives the fold of every acknowledged event and numbers on from them all. */
  lemma PowerSafety(ps: seq<Power>, ops: seq<PowerOp>)
    requires PowerRun(ps, ops) && ps[0] == NEW_POWER && forall i :: 0 <= i < |ops| ==> Careful(ps[i], ops[i])
    ensures var s := ps[|ops|].sys;
      && (forall p :: OpenedProjection(s.disk, true, p) ==> p == FoldEvents(s.acked))
      && HighWater(s.disk, true) == |s.acked|
      && (s.mem.Some? ==> s.mem.value.proj == FoldEvents(s.acked) && s.mem.value.file.seqNo == |s.acked|)
  {
    StartsSound();
    PowerRunKeeps(ps, ops);
    hide PowerRun, Careful;
    SoundOpens(ps[|ops|].sys);
  }

  lemma StartsSound()
    ensures PowerInv(NEW_POWER)
  {
    NewAccountIsSound();
    hide Inv;
    assert Numbered([]) == [];
  }

  lemma SoundOpens(s: Sys)
    requires Inv(s)
    ensures forall p :: OpenedProjection(s.disk, true, p) ==> p == FoldEvents(s.acked)
    ensures HighWater(s.disk, true) == |s.acked|
    ensures s.mem.Some? ==> s.mem.value.proj == FoldEvents(s.acked) && s.mem.value.file.seqNo == |s.acked|
  {
    hide Persisted, ExactHistory, HighWater, OpenedProjection, FoldEvents, Threading.Agrees;
    OpenResumesNumbering(s.disk, true, s.acked);
    forall p | OpenedProjection(s.disk, true, p)
      ensures p == FoldEvents(s.acked)
    {
      OpenReturnsFold(s.disk, true, s.acked, p);
    }
  }

  // ---------------------------------------------------------------- runs that lose something

  const FIRST: Record := Record(1, WORK)

  const OPENED: Sys := Sys(Disk([[]], Some(0), Absent, None, Absent),
                           Some(Memory(FileState(0, Bound(0)), P.EMPTY, map[])), [])

  lemma FirstBoot()
    ensures Next(NEW_ACCOUNT, Boot(true, true), OPENED)
  {
    assert P.Fold(P.EMPTY, Since(ReadAll(OPENED.disk), 1)) == P.EMPTY;
    hide P.Fold, Since;
    assert Opened(NEW_ACCOUNT.disk).inodes == [[]];
  }

  lemma FirstLabel()
    ensures var t := Appends(OPENED, WORK, true);
      && Next(OPENED, Mutate(WORK, true), t) && t.acked == [WORK]
      && t.disk == Disk([[FIRST]], Some(0), Absent, None, Absent)
      && t.mem.Some? && t.mem.value.file == FileState(1, Bound(0))
      && var p := t.mem.value.proj; p.seqNo == 1 && p.messages == map[] && p.byMessageId == map[]
  {
    assert [] + [FIRST] == [FIRST] && [] + [WORK] == [WORK];
  }

  lemma FirstCompaction(s: Sys) returns (t: Sys)
    requires s.disk == Disk([[FIRST]], Some(0), Absent, None, Absent)
    requires s.mem.Some? && s.mem.value.file == FileState(1, Bound(0)) && s.mem.value.proj.seqNo == 1
    ensures Next(s, Compact(Done), t) && t.acked == s.acked && t.mem.Some? && t.mem.value.proj == s.mem.value.proj
    ensures WellFormed(t.disk) && ReadAll(t.disk) == [] && t.disk.log.Some?
    ensures t.disk.snap == Some(SnapWire(1, P.TakeSnapshot(s.mem.value.proj)))
  {
    assert Since([FIRST], 2) == [] by {
      assert [FIRST][..0] == [];
    }
    hide Since;
    var snap := SnapWire(1, P.TakeSnapshot(s.mem.value.proj));
    t := Sys(Disk([[FIRST], []], Some(1), Absent, Some(snap), Absent),
             Some(s.mem.value.(file := FileState(1, Bound(1)))), s.acked);
    assert [[FIRST]] + [[]] == [[FIRST], []];
  }

  /** An account that was opened, given one label, and compacted. */
  lemma CompactedRun() returns (states: seq<Sys>, ops: seq<Op>)
    ensures ops == [Boot(true, true), Mutate(WORK, true), Compact(Done)] && Run(states, ops) && states[0] == NEW_ACCOUNT
    ensures states[1].acked == [] && states[2].acked == states[3].acked == [WORK] && states[3].mem.Some?
    ensures var d, p := states[3].disk, states[3].mem.value.proj;
      && WellFormed(d) && ReadAll(d) == [] && d.log.Some? && d.snap == Some(SnapWire(1, P.TakeSnapshot(p)))
      && p.messages == map[] && p.byMessageId == map[]
  {
    FirstBoot();
    FirstLabel();
    hide Next, Appends, ReadAll, WellFormed;
    var labeled := Appends(OPENED, WORK, true);
    var cut := FirstCompaction(labeled);
    states, ops := [NEW_ACCOUNT, OPENED, labeled, cut], [Boot(true, true), Mutate(WORK, true), Compact(Done)];
  }

  /** Theorem: a process that opens this log without reading its snapshot, and then can, acknowledges
      events that its account never shows. */
  lemma NumberingLostRun() returns (states: seq<Sys>, ops: seq<Op>)
    ensures Run(states, ops) && states[0] == NEW_ACCOUNT && states[|ops|].mem.Some? && CanAppend(states[|ops|], true)
    ensures forall e :: var s := states[|ops|];
      var t := Appends(s, e, true); t.acked == s.acked + [e] && t.mem.value.proj == s.mem.value.proj
  {
    var before, done := CompactedRun();
    assert |before| == 4;
    hide *;
    var down, up := CrashedAndUp(before[3]);
    Compacted(before, done);
    DownIsSound(before[3], down);
    forall e { NumberingLost(down, up, e); }
    states, ops := before + [down, up], done + [Crash, Boot(false, true)];
    RunOn(before, done, down, up);
    assert states[|ops|] == up && states[0] == before[0];
  }

  lemma Compacted(states: seq<Sys>, ops: seq<Op>)
    requires Run(states, ops) && states[0] == NEW_ACCOUNT
      && ops == [Boot(true, true), Mutate(WORK, true), Compact(Done)]
    ensures Inv(states[3])
  {
    hide Inv, Run;
    NewAccountIsSound();
    RunKeeps(states, ops);
  }

  lemma RunOn(states: seq<Sys>, ops: seq<Op>, down: Sys, up: Sys)
    requires Run(states, ops) && |ops| == 3 && Next(states[3], Crash, down) && Next(down, Boot(false, true), up)
    ensures Run(states + [down, up], ops + [Crash, Boot(false, true)])
  {
    hide Next;
  }

  lemma DownIsSound(s: Sys, down: Sys)
    requires Inv(s) && down == s.(mem := None)
    ensures Inv(down)
  {
    hide Persisted, ExactHistory;
  }

  lemma CrashedAndUp(s: Sys) returns (down: Sys, up: Sys)
    requires s.mem.Some? && WellFormed(s.disk) && ReadAll(s.disk) == [] && s.disk.log.Some?
    requires var p := s.mem.value.proj;
      p.messages == map[] && p.byMessageId == map[] && s.disk.snap == Some(SnapWire(1, P.TakeSnapshot(p)))
    ensures down == s.(mem := None) && Next(s, Crash, down) && Next(down, Boot(false, true), up)
    ensures !NumberingKnown(down.disk, false) && up.mem.Some? && CanAppend(up, true) && up.acked == s.acked
  {
    var p := s.mem.value.proj;
    down := s.(mem := None);
    up := down.(mem := Some(Memory(FileState(0, Bound(s.disk.log.value)), p, map[])));
    BootsUp(s.disk, p);
    hide ReadAll, Opened, HighWater, OpenedProjection, Threading.Seeded, NumberingKnown;
  }

  lemma BootsUp(d: Disk<P.Snapshot>, p: P.State)
    requires ReadAll(d) == [] && d.log.Some? && d.snap == Some(SnapWire(1, P.TakeSnapshot(p)))
    requires p.messages == map[] && p.byMessageId == map[]
    ensures Opened(d) == d && HighWater(d, false) == 0 && OpenedProjection(d, true, p)
    ensures Threading.Seeded(p.messages, map[]) && !NumberingKnown(d, false)
  {
    assert P.Restored(P.TakeSnapshot(p), p);
    assert p == P.Fold(p, Since(ReadAll(d), 2));
  }

  /** Theorem: a power failure right after this compaction may lose the label, acknowledged and synced
      though it was: the snapshot is torn, and the log that held it has been replaced by an empty one. */
  lemma LostToPowerRun() returns (ps: seq<Power>, ops: seq<PowerOp>)
    ensures ops == [Usual(Boot(true, true)), Usual(Mutate(WORK, true)), Usual(Compact(Done)), PowerFails]
    ensures PowerRun(ps, ops) && ps[0] == NEW_POWER
    ensures var s := ps[4].sys;
      && s.acked == [WORK] && HighWater(s.disk, true) == 0
      && forall p :: OpenedProjection(s.disk, true, p) ==> p == P.EMPTY && "work" !in p.labels
  {
    var states, usual := CompactedRun();
    var d := OneLog([], None);
    var synced := Stable(None, ReadAll(states[2].disk));
    var failed := Power(Sys(d, None, [WORK]), Stable(None, []));
    ps := [NEW_POWER, Power(states[1], NEW_POWER.stable), Power(states[2], synced), Power(states[3], synced), failed];
    ops := [Usual(Boot(true, true)), Usual(Mutate(WORK, true)), Usual(Compact(Done)), PowerFails];
    assert Next(states[0], usual[0], states[1]) && Next(states[1], usual[1], states[2])
      && Next(states[2], usual[2], states[3]);
    hide Next, ReadAll, WellFormed, Run, OpenedProjection, HighWater;
    NothingFolded(d);
    assert NextPower(ps[0], ops[0], ps[1]) && NextPower(ps[1], ops[1], ps[2]);
    assert NextPower(ps[2], ops[2], ps[3]) && NextPower(ps[3], ops[3], ps[4]);
  }

  lemma NothingFolded(d: Disk<P.Snapshot>)
    requires ReadAll(d) == [] && d.snap.None?
    ensures HighWater(d, true) == 0
    ensures forall p :: OpenedProjection(d, true, p) ==> p == P.EMPTY && "work" !in p.labels
  {
  }
}
