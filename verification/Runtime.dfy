/** internal/account: the single-writer runtime over one log, and every run of it, with a
    crash possible before and after each step.

    `acked` is the ghost history: the events whose append was acknowledged. */
module Runtime {
  import opened Model
  import opened Projection
  import opened EventLog
  import opened Threading

  /** The repository's own theorem names this: state == fold(log). */
  function FoldEvents(events: seq<Event>): State {
    Fold(EMPTY, Numbered(events))
  }

  // -------------------------------------------------------- the transition system

  datatype Memory = Memory(file: FileState, proj: State, byHeader: map<string, Id>)

  /** mem is None while no process is running. */
  datatype Sys = Sys(disk: Disk<Snapshot>, mem: Option<Memory>, acked: seq<Event>)

  /** What Ingest is given and what its generators hand out. */
  datatype Arrival = Arrival(env: Envelope, blobRef: string, size: int, labels: seq<LabelId>, flags: seq<Flag>,
                             freshId: Id, freshThread: Id)

  /** On Boot, `numbered` says that OpenFile could read the snapshot, `restored` that openProjection
      could read and decode it. */
  datatype Op =
    | Boot(numbered: bool, restored: bool)
    | Ingest(a: Arrival, ioOk: bool)
    | Mutate(e: Event, ioOk: bool)
    | Compact(fail: SaveStep)
    | Crash

  /** The events of the mutation wrappers; none of them appends ThreadMerged. */
  predicate Wrapped(e: Event) {
    !e.MessageIngested? && !e.ThreadMerged?
  }

  /** The accounts openProjection may return: the restored snapshot with the tail folded in, or
      the fold of the whole file when there is no snapshot or none that can be restored. */
  ghost predicate OpenedProjection(d: Disk<Snapshot>, restored: bool, p: State) {
    if d.snap.Some? && restored then
      exists base :: Restored(d.snap.value.data, base) && p == Fold(base, Since(ReadAll(d), d.snap.value.seqNo + 1))
    else p == Fold(EMPTY, Since(ReadAll(d), 1))
  }

  predicate CanAppend(s: Sys, ioOk: bool) {
    s.mem.Some? && ioOk && s.mem.value.file.w.Bound? && s.mem.value.file.w.inode < |s.disk.inodes|
  }

  /** Append one event and fold it in; an append that fails changes nothing. */
  function Appends(s: Sys, e: Event, ioOk: bool): Sys {
    if !CanAppend(s, ioOk) then s
    else
      var m := s.mem.value;
      var r := Record(m.file.seqNo + 1, e);
      Sys(Appended(s.disk, r, m.file.w),
          Some(m.(file := m.file.(seqNo := r.seqNo), proj := Step(m.proj, r))),
          s.acked + [e])
  }

  function HeldAs(p: State, header: string): Option<Id> {
    if header != "" && header in p.byMessageId then Some(p.byMessageId[header]) else None
  }

  function IngestEvent(a: Arrival, threadId: Id): Event {
    MessageIngested(a.freshId, a.blobRef, a.env, a.size, threadId, a.labels, a.flags)
  }

  /** Resolve records the thread before the append is tried. */
  function Ingests(s: Sys, a: Arrival, ioOk: bool): Sys
    requires s.mem.Some?
  {
    var m := s.mem.value;
    if HeldAs(m.proj, a.env.messageId).Some? then s
    else
      var threadId := Resolved(m.byHeader, a.env, a.freshThread);
      Appends(s.(mem := Some(m.(byHeader := Noted(m.byHeader, a.env, threadId)))), IngestEvent(a, threadId), ioOk)
  }

  ghost predicate Next(s: Sys, op: Op, t: Sys) {
    match op
    case Boot(numbered, restored) =>
      && s.mem.None? && t.mem.Some? && t.acked == s.acked
      && t.disk == Opened(s.disk)
      && t.mem.value.file == FileState(HighWater(s.disk, numbered), Bound(t.disk.log.value))
      && OpenedProjection(t.disk, restored, t.mem.value.proj)
      && Seeded(t.mem.value.proj.messages, t.mem.value.byHeader)
    case Ingest(a, ioOk) => s.mem.Some? && t == Ingests(s, a, ioOk)
    case Mutate(e, ioOk) => s.mem.Some? && Wrapped(e) && t == Appends(s, e, ioOk)
    case Compact(fail) =>
      && s.mem.Some? && t.mem.Some? && t.acked == s.acked
      && Saved(s.disk, s.mem.value.file, SnapWire(s.mem.value.proj.seqNo, TakeSnapshot(s.mem.value.proj)), fail,
               t.disk, t.mem.value.file)
      && t.mem.value.proj == s.mem.value.proj && t.mem.value.byHeader == s.mem.value.byHeader
    case Crash => t == s.(mem := None)
  }

  ghost predicate Run(states: seq<Sys>, ops: seq<Op>) {
    && |states| == |ops| + 1
    && forall i :: 0 <= i < |ops| ==> Next(states[i], ops[i], states[i+1])
  }

  /** Opening can do without the snapshot for numbering when the log still says how far it got. */
  predicate NumberingKnown(d: Disk<Snapshot>, numbered: bool) {
    numbered || d.snap.None? || ReadAll(d) != [] || d.snap.value.seqNo == 0
  }

  /** Opening can do without the snapshot for the account when nothing was cut from the log. */
  predicate AccountKnown(d: Disk<Snapshot>, restored: bool) {
    restored || d.snap.None? || Uncut(d)
  }

  predicate Uncut(d: Disk<Snapshot>)
    requires d.snap.Some?
  {
    if ReadAll(d) == [] then d.snap.value.seqNo == 0 else ReadAll(d)[0].seqNo == 1
  }

  /** No process opened a log without a snapshot that it could not do without. */
  ghost predicate Recovers(states: seq<Sys>, ops: seq<Op>)
    requires |states| == |ops| + 1
  {
    forall i :: 0 <= i < |ops| ==> BootsWell(states[i], ops[i])
  }

  predicate BootsWell(s: Sys, op: Op) {
    op.Boot? ==> NumberingKnown(s.disk, op.numbered) && AccountKnown(s.disk, op.restored)
  }

  // ------------------------------------------------------------------- invariants

  /** Every prefix of the history folds to an account whose index is exact. */
  ghost predicate ExactHistory(events: seq<Event>) {
    forall n :: 0 <= n <= |events| ==> var p := FoldEvents(events[..n]); IndexExact(p.messages, p.byMessageId)
  }

  /** The disk holds the history: the log is its tail, and a snapshot, present whenever the log
      was cut, covers at least what the log lacks. */
  ghost predicate Persisted(d: Disk<Snapshot>, events: seq<Event>) {
    && WellFormed(d)
    && |ReadAll(d)| <= |events|
    && ReadAll(d) == Numbered(events)[|events| - |ReadAll(d)|..]
    && (d.snap.None? ==> |ReadAll(d)| == |events|)
    && (d.snap.Some? ==>
          && |events| - |ReadAll(d)| <= d.snap.value.seqNo <= |events|
          && d.snap.value.data == TakeSnapshot(FoldEvents(events[..d.snap.value.seqNo])))
  }

  ghost predicate Live(s: Sys) {
    s.mem.Some? ==>
      var m := s.mem.value;
      && m.file.seqNo == |s.acked|
      && (m.file.w.Bound? ==> s.disk.log == Some(m.file.w.inode))
      && m.proj == FoldEvents(s.acked)
      && Agrees(m.byHeader, m.proj.messages)
  }

  ghost predicate Inv(s: Sys) {
    Persisted(s.disk, s.acked) && ExactHistory(s.acked) && Live(s)
  }

  // ---------------------------------------------------------------- facts about folds

  lemma NumberedSnoc(events: seq<Event>, e: Event)
    ensures Numbered(events + [e]) == Numbered(events) + [Record(|events| + 1, e)]
  {
  }

  lemma {:induction false} FoldAppend(a: State, x: seq<Record>, y: seq<Record>)
    ensures Fold(a, x + y) == Fold(Fold(a, x), y)
  {
    hide Step;
    if y == [] {
      assert x + y == x;
    } else {
      var init, last := y[..|y|-1], y[|y|-1];
      FoldAppend(a, x, init);
      assert x + y == (x + init) + [last] && y == init + [last];
      FoldSnoc(a, x + init, last);
    }
  }

  lemma FoldEventsSnoc(events: seq<Event>, e: Event)
    ensures FoldEvents(events + [e]) == Step(FoldEvents(events), Record(|events| + 1, e))
  {
    NumberedSnoc(events, e);
    FoldSnoc(EMPTY, Numbered(events), Record(|events| + 1, e));
  }

  lemma {:induction false} FoldSeqNo(events: seq<Event>)
    ensures FoldEvents(events).seqNo == |events|
  {
    if events != [] {
      var init := events[..|events|-1];
      assert events == init + [events[|events|-1]];
      FoldSeqNo(init);
      FoldEventsSnoc(init, events[|events|-1]);
    }
  }

  lemma FoldSplit(events: seq<Event>, k: nat)
    requires k <= |events|
    ensures FoldEvents(events) == Fold(FoldEvents(events[..k]), Numbered(events)[k..])
  {
    assert Numbered(events[..k]) == Numbered(events)[..k];
    assert Numbered(events) == Numbered(events)[..k] + Numbered(events)[k..];
    FoldAppend(EMPTY, Numbered(events)[..k], Numbered(events)[k..]);
  }

  /** The tail that follows a snapshot is the history after it, however much of the
      history before it the log still holds. */
  lemma TailAfter(d: Disk<Snapshot>, events: seq<Event>, through: nat)
    requires Persisted(d, events) && |events| - |ReadAll(d)| <= through <= |events|
    ensures Since(ReadAll(d), through + 1) == Numbered(events)[through..]
  {
    hide FoldEvents, Since;
    TailOf(events, |events| - |ReadAll(d)|, through);
  }

  lemma TailOf(events: seq<Event>, k: nat, through: nat)
    requires k <= through <= |events|
    ensures Since(Numbered(events)[k..], through + 1) == Numbered(events)[through..]
  {
    hide Since;
    SinceNumbered(events, k, through + 1);
    NothingAfter(events);
  }

  lemma NothingAfter(events: seq<Event>)
    ensures Numbered(events)[|events|..] == []
  {
  }

  lemma RestoredIsFold(events: seq<Event>, through: nat, base: State)
    requires ExactHistory(events) && through <= |events| && Restored(TakeSnapshot(FoldEvents(events[..through])), base)
    ensures base == FoldEvents(events[..through])
  {
    SnapshotRoundTrip(FoldEvents(events[..through]));
  }

  lemma UncutHoldsAll(d: Disk<Snapshot>, events: seq<Event>)
    requires Persisted(d, events) && d.snap.Some?
    ensures Uncut(d) <==> |ReadAll(d)| == |events|
  {
    hide FoldEvents;
  }

  lemma RestoredReturnsFold(d: Disk<Snapshot>, events: seq<Event>, p: State)
    requires Persisted(d, events) && ExactHistory(events) && d.snap.Some? && OpenedProjection(d, true, p)
    ensures p == FoldEvents(events)
  {
    var through := d.snap.value.seqNo;
    var base :| Restored(d.snap.value.data, base) && p == Fold(base, Since(ReadAll(d), through + 1));
    hide Restored, FoldEvents, ExactHistory, Since;
    RestoredIsFold(events, through, base);
    TailAfter(d, events, through);
    FoldSplit(events, through);
  }

  /** Theorem: on a disk that holds the history, whatever openProjection returns is the fold
      of every acknowledged event, unless it needed a snapshot and could not restore it. */
  lemma OpenReturnsFold(d: Disk<Snapshot>, restored: bool, events: seq<Event>, p: State)
    requires Persisted(d, events) && ExactHistory(events)
    requires AccountKnown(d, restored) && OpenedProjection(d, restored, p)
    ensures p == FoldEvents(events)
  {
    hide ExactHistory, Restored;
    if d.snap.Some? && restored {
      RestoredReturnsFold(d, events, p);
    } else {
      if d.snap.Some? {
        UncutHoldsAll(d, events);
      }
      TailAfter(d, events, 0);
      assert p == Fold(EMPTY, Numbered(events)[0..]);
      assert Numbered(events)[0..] == Numbered(events);
    }
  }

  /** Theorem: the next append after a reopen is numbered just above every acknowledged event if and
      only if the snapshot could be read or the log alone still says how far it got. */
  lemma OpenResumesNumbering(d: Disk<Snapshot>, numbered: bool, events: seq<Event>)
    requires Persisted(d, events)
    ensures HighWater(d, numbered) == |events| <==> NumberingKnown(d, numbered)
  {
  }

  // -------------------------------------------------------------------- preservation

  lemma BootKeeps(s: Sys, op: Op, t: Sys)
    requires Inv(s) && op.Boot? && BootsWell(s, op) && Next(s, op, t)
    ensures Inv(t)
  {
    hide Step;
    assert ReadAll(t.disk) == ReadAll(s.disk);
    OpenReturnsFold(t.disk, op.restored, t.acked, t.mem.value.proj);
    OpenResumesNumbering(s.disk, op.numbered, s.acked);
    var p := t.mem.value.proj;
    assert t.acked[..|t.acked|] == t.acked;
    SeededAgrees(p.messages, p.byMessageId, t.mem.value.byHeader);
  }

  lemma ExactHistorySnoc(events: seq<Event>, e: Event)
    requires ExactHistory(events) && KeepsIndexExact(FoldEvents(events), e)
    ensures ExactHistory(events + [e])
  {
    FoldEventsSnoc(events, e);
    FoldSeqNo(events);
    assert events[..|events|] == events;
    EventKeepsIndexExact(FoldEvents(events), e);
    forall n | 0 <= n <= |events| + 1
      ensures var p := FoldEvents((events + [e])[..n]); IndexExact(p.messages, p.byMessageId)
    {
      if n <= |events| {
        assert (events + [e])[..n] == events[..n];
      } else {
        assert (events + [e])[..n] == events + [e];
      }
    }
  }

  lemma AppendPersists(d: Disk<Snapshot>, events: seq<Event>, e: Event, w: Handle)
    requires Persisted(d, events) && w.Bound? && d.log == Some(w.inode)
    ensures Persisted(Appended(d, Record(|events| + 1, e), w), events + [e])
  {
    NumberedSnoc(events, e);
    var d' := Appended(d, Record(|events| + 1, e), w);
    var k := |events| - |ReadAll(d)|;
    assert ReadAll(d') == ReadAll(d) + [Record(|events| + 1, e)];
    assert Numbered(events + [e])[k..] == Numbered(events)[k..] + [Record(|events| + 1, e)];
    if d.snap.Some? {
      assert (events + [e])[..d.snap.value.seqNo] == events[..d.snap.value.seqNo];
    }
  }

  /** Appending keeps everything except the threader's agreement, which depends on the event. */
  lemma AppendKeeps(s: Sys, e: Event, ioOk: bool)
    requires Persisted(s.disk, s.acked) && ExactHistory(s.acked) && s.mem.Some?
    requires Live(s) && Agrees(s.mem.value.byHeader, ApplyEvent(s.mem.value.proj, e).messages)
    requires KeepsIndexExact(FoldEvents(s.acked), e)
    ensures Inv(Appends(s, e, ioOk))
  {
    hide FoldEvents, Persisted, ExactHistory, Agrees, ApplyEvent, Appended, KeepsIndexExact;
    if CanAppend(s, ioOk) {
      AppendPersists(s.disk, s.acked, e, s.mem.value.file.w);
      ExactHistorySnoc(s.acked, e);
      FoldEventsSnoc(s.acked, e);
      FoldSeqNo(s.acked);
      AppendedKeepsLog(s.disk, Record(|s.acked| + 1, e), s.mem.value.file.w);
    }
  }

  lemma AppendedKeepsLog(d: Disk<Snapshot>, r: Record, w: Handle)
    requires w.Bound? && w.inode < |d.inodes|
    ensures Appended(d, r, w).log == d.log
  {
  }

  lemma WrappedAgrees(byHeader: map<string, Id>, p: State, e: Event)
    requires Wrapped(e) && Agrees(byHeader, p.messages)
    ensures Agrees(byHeader, ApplyEvent(p, e).messages)
  {
    if TouchesLabelsOnly(e) {
      LabelEventsKeep(p, e);
      hide ApplyEvent;
    }
  }

  lemma MutateKeeps(s: Sys, e: Event, ioOk: bool)
    requires Inv(s) && s.mem.Some? && Wrapped(e)
    ensures Inv(Appends(s, e, ioOk))
  {
    hide Persisted, ExactHistory, FoldEvents, Agrees, ApplyEvent, Appends, Step;
    WrappedAgrees(s.mem.value.byHeader, s.mem.value.proj, e);
    AppendKeeps(s, e, ioOk);
  }

  lemma IngestKeeps(s: Sys, a: Arrival, ioOk: bool)
    requires Inv(s) && s.mem.Some?
    ensures Inv(Ingests(s, a, ioOk))
  {
    var m := s.mem.value;
    IndexIsExact(s);
    hide Persisted, ExactHistory, FoldEvents, Agrees, ApplyEvent, Appends, Step, IndexExact, Resolved, Noted;
    if HeldAs(m.proj, a.env.messageId).None? {
      var threadId := Resolved(m.byHeader, a.env, a.freshThread);
      NotedAgrees(m.byHeader, m.proj, a, threadId);
      AppendKeeps(s.(mem := Some(m.(byHeader := Noted(m.byHeader, a.env, threadId)))), IngestEvent(a, threadId), ioOk);
    }
  }

  lemma IndexIsExact(s: Sys)
    requires Inv(s) && s.mem.Some?
    ensures IndexExact(s.mem.value.proj.messages, s.mem.value.proj.byMessageId)
  {
    assert s.acked[..|s.acked|] == s.acked;
    hide FoldEvents, Persisted, IndexExact;
  }

  lemma NotedAgrees(byHeader: map<string, Id>, p: State, a: Arrival, threadId: Id)
    requires Agrees(byHeader, p.messages) && IndexExact(p.messages, p.byMessageId) && HeldAs(p, a.env.messageId).None?
    ensures var after := Noted(byHeader, a.env, threadId);
      Agrees(after, p.messages) && Agrees(after, ApplyEvent(p, IngestEvent(a, threadId)).messages)
    ensures KeepsIndexExact(p, IngestEvent(a, threadId))
  {
  }

  function FullSnapshot(events: seq<Event>): SnapWire<Snapshot> {
    SnapWire(|events|, TakeSnapshot(FoldEvents(events)))
  }

  lemma UncutPersists(d: Disk<Snapshot>, events: seq<Event>, d': Disk<Snapshot>)
    requires Persisted(d, events) && d'.inodes == d.inodes && d'.log == d.log
    requires d'.snap == d.snap || d'.snap == Some(FullSnapshot(events))
    ensures Persisted(d', events)
  {
    hide FoldEvents;
    assert events[..|events|] == events && ReadAll(d') == ReadAll(d);
  }

  lemma CutPersists(events: seq<Event>, d': Disk<Snapshot>)
    requires WellFormed(d') && ReadAll(d') == [] && d'.snap == Some(FullSnapshot(events))
    ensures Persisted(d', events)
  {
    hide FoldEvents;
    assert events[..|events|] == events;
    NothingAfter(events);
  }

  /** Wherever SaveSnapshot stops, the disk still holds the history. */
  lemma SavedPersists(d: Disk<Snapshot>, f: FileState, events: seq<Event>, fail: SaveStep, d': Disk<Snapshot>,
                      f': FileState)
    requires Persisted(d, events)
    requires Saved(d, f, FullSnapshot(events), fail, d', f')
    ensures Persisted(d', events)
  {
    assert FullSnapshot(events).seqNo == |events|;
    hide Persisted, FullSnapshot, Since, ReadAll, WellFormed;
    if Reaches(fail, RenameLog) {
      NewLogIsEmpty(d, events, d');
      CutPersists(events, d');
    } else {
      UncutPersists(d, events, d');
    }
  }

  lemma NewLogIsEmpty(d: Disk<Snapshot>, events: seq<Event>, d': Disk<Snapshot>)
    requires Persisted(d, events)
    requires d'.inodes == d.inodes + [Since(ReadAll(d), |events| + 1)] && d'.log == Some(|d.inodes|)
    ensures WellFormed(d') && ReadAll(d') == []
  {
    hide FoldEvents, Since;
    TailAfter(d, events, |events|);
    NothingAfter(events);
    hide Persisted;
  }

  lemma CompactKeeps(s: Sys, fail: SaveStep, t: Sys)
    requires Inv(s) && Next(s, Compact(fail), t)
    ensures Inv(t)
  {
    FoldSeqNo(s.acked);
    hide Persisted, FoldEvents, ExactHistory;
    SavedPersists(s.disk, s.mem.value.file, s.acked, fail, t.disk, t.mem.value.file);
  }

  lemma NextKeeps(s: Sys, op: Op, t: Sys)
    requires Inv(s) && BootsWell(s, op) && Next(s, op, t)
    ensures Inv(t) && s.acked <= t.acked
  {
    hide Inv, Appends, Ingests;
    IngestsAcked(s, op);
    match op
    case Boot(_, _) => BootKeeps(s, op, t);
    case Ingest(a, ioOk) => IngestKeeps(s, a, ioOk);
    case Mutate(e, ioOk) => MutateKeeps(s, e, ioOk);
    case Compact(fail) => CompactKeeps(s, fail, t);
    case Crash => CrashKeeps(s);
  }

  lemma CrashKeeps(s: Sys)
    requires Inv(s)
    ensures Inv(s.(mem := None))
  {
    hide Persisted, ExactHistory;
  }

  lemma IngestsAcked(s: Sys, op: Op)
    ensures op.Ingest? && s.mem.Some? ==> s.acked <= Ingests(s, op.a, op.ioOk).acked
    ensures op.Mutate? ==> s.acked <= Appends(s, op.e, op.ioOk).acked
  {
    hide Step, Resolved, Noted, Appended;
  }

  // ------------------------------------------------------------------------ theorems

  lemma {:induction false} RunKeeps(states: seq<Sys>, ops: seq<Op>)
    requires Run(states, ops) && Recovers(states, ops) && Inv(states[0])
    ensures Inv(states[|ops|])
    ensures states[0].acked <= states[|ops|].acked
  {
    hide Next, Inv, BootsWell;
    if ops != [] {
      var n := |ops| - 1;
      assert Run(states[..n+1], ops[..n]) && Recovers(states[..n+1], ops[..n]);
      RunKeeps(states[..n+1], ops[..n]);
      NextKeeps(states[n], ops[n], states[n+1]);
    }
  }

  /** Theorem (crash safety): after any run of ingests, mutations, compactions stopped at any
      step, crashes and reopens, a process that is up holds the fold of every event
      acknowledged so far, and its next append is numbered above all of them; and when none
      is up, opening one gives exactly that. Nothing acknowledged is ever dropped. */
  lemma CrashSafety(states: seq<Sys>, ops: seq<Op>, i: nat)
    requires Run(states, ops) && Recovers(states, ops) && Inv(states[0]) && i <= |ops|
    ensures states[i].acked <= states[|ops|].acked
    ensures var s := states[|ops|]; s.mem.Some? ==>
      s.mem.value.proj == FoldEvents(s.acked) && s.mem.value.file.seqNo == |s.acked|
    ensures var s := states[|ops|];
      forall restored, p :: AccountKnown(s.disk, restored) && OpenedProjection(s.disk, restored, p) ==>
        p == FoldEvents(s.acked)
    ensures var s := states[|ops|];
      forall numbered :: HighWater(s.disk, numbered) == |s.acked| <==> NumberingKnown(s.disk, numbered)
  {
    hide BootsWell;
    RunKeeps(states, ops);
    assert Run(states[..i+1], ops[..i]) && Recovers(states[..i+1], ops[..i]);
    RunKeeps(states[..i+1], ops[..i]);
    assert Run(states[i..], ops[i..]) && Recovers(states[i..], ops[i..]);
    RunKeeps(states[i..], ops[i..]);
    var s := states[|ops|];
    forall numbered { OpenResumesNumbering(s.disk, numbered, s.acked); }
    forall restored, p | AccountKnown(s.disk, restored) && OpenedProjection(s.disk, restored, p)
      ensures p == FoldEvents(s.acked)
    {
      OpenReturnsFold(s.disk, restored, s.acked, p);
    }
  }

  /** Theorem: in every reachable state the live Message-IDs are pairwise distinct, the index is
      exactly their inverse, and the threader files every one of them where the projection does. */
  lemma IndexAndThreaderTrack(states: seq<Sys>, ops: seq<Op>)
    requires Run(states, ops) && Recovers(states, ops) && Inv(states[0]) && states[|ops|].mem.Some?
    ensures var m := states[|ops|].mem.value;
      && IndexExact(m.proj.messages, m.proj.byMessageId)
      && Consistent(m.proj)
      && Agrees(m.byHeader, m.proj.messages)
  {
    RunKeeps(states, ops);
    var s := states[|ops|];
    assert s.acked[..|s.acked|] == s.acked;
    FoldConsistent(Numbered(s.acked));
  }

  /** No process, no file, no event. */
  const NEW_ACCOUNT: Sys := Sys(Disk([], None, Absent, None, Absent), None, [])

  lemma NewAccountIsSound()
    ensures Inv(NEW_ACCOUNT)
  {
    assert Numbered([]) == [];
  }

  /** Theorem: all of this holds of every run that starts from nothing. */
  lemma EveryRunFromNothing(states: seq<Sys>, ops: seq<Op>)
    requires Run(states, ops) && Recovers(states, ops) && states[0] == NEW_ACCOUNT
    ensures var s := states[|ops|];
      && (forall p :: OpenedProjection(s.disk, true, p) ==> p == FoldEvents(s.acked))
      && HighWater(s.disk, true) == |s.acked|
      && (s.mem.Some? ==>
            var m := s.mem.value;
            && m.proj == FoldEvents(s.acked) && m.file.seqNo == |s.acked|
            && IndexExact(m.proj.messages, m.proj.byMessageId) && Consistent(m.proj)
            && Agrees(m.byHeader, m.proj.messages))
  {
    NewAccountIsSound();
    CrashSafety(states, ops, 0);
    if states[|ops|].mem.Some? {
      IndexAndThreaderTrack(states, ops);
    }
  }

  /** In a process whose numbering is behind its account, an acknowledged append is skipped by
      Apply's guard on Seq; in every other it is folded in. */
  lemma AppendSkippedIff(s: Sys, e: Event)
    requires CanAppend(s, true)
    ensures var m, t := s.mem.value, Appends(s, e, true);
      && t.acked == s.acked + [e]
      && t.mem.value.proj ==
           if m.file.seqNo < m.proj.seqNo then m.proj else ApplyEvent(m.proj, e).(seqNo := m.file.seqNo + 1)
  {
  }

  /** That is what comes of opening a fully cut log whose snapshot OpenFile could not read and
      openProjection could: the next append is acknowledged and not folded in. */
  lemma NumberingLost(s: Sys, t: Sys, e: Event)
    requires Inv(s) && Next(s, Boot(false, true), t) && !NumberingKnown(s.disk, false)
    ensures var u := Appends(t, e, true);
      u.acked == s.acked + [e] && u.mem.value.proj == t.mem.value.proj == FoldEvents(s.acked)
  {
    FoldSeqNo(s.acked);
    assert Persisted(t.disk, s.acked) && NumberingKnown(t.disk, false) == NumberingKnown(s.disk, false);
    hide Persisted, FoldEvents, ExactHistory, OpenedProjection, Seeded, HighWater, Opened, NumberingKnown, Step,
      ApplyEvent;
    OpenReturnsFold(t.disk, true, t.acked, t.mem.value.proj);
    OpenResumesNumbering(s.disk, false, s.acked);
    AppendSkippedIff(t, e);
  }

  /** In a reachable process no acknowledged append is ever skipped. */
  lemma AppendIsFolded(s: Sys, e: Event)
    requires Inv(s) && CanAppend(s, true)
    ensures var t := Appends(s, e, true);
      t.acked == s.acked + [e] && t.mem.value.proj == ApplyEvent(s.mem.value.proj, e).(seqNo := |s.acked| + 1)
  {
    FoldSeqNo(s.acked);
  }

  /** Theorem: ingesting a Message-ID that is held returns the id of the one live message that
      carries it and changes nothing. Otherwise, when the log accepts it, the new message is live
      under the generated id, and no other message changes; unless that id was live already, when
      the mail is logged and dropped. */
  lemma IngestIsIdempotent(s: Sys, a: Arrival, ioOk: bool)
    requires Inv(s) && s.mem.Some?
    ensures var p, held := s.mem.value.proj, HeldAs(s.mem.value.proj, a.env.messageId);
      && (held.Some? <==> a.env.messageId != "" && a.env.messageId in Headers(p.messages))
      && (held.Some? ==> held.value in p.messages && p.messages[held.value].envelope.messageId == a.env.messageId &&
                         Ingests(s, a, ioOk) == s)
      && (held.None? && !CanAppend(s, ioOk) ==>
            Ingests(s, a, ioOk).acked == s.acked && Ingests(s, a, ioOk).mem.value.proj == p)
      && (held.None? && CanAppend(s, ioOk) ==>
            var t, threadId := Ingests(s, a, ioOk), Resolved(s.mem.value.byHeader, a.env, a.freshThread);
            && t.acked == s.acked + [IngestEvent(a, threadId)]
            && t.mem.value.proj.messages ==
                 if a.freshId in p.messages then p.messages
                 else p.messages[a.freshId := NewMessage(IngestEvent(a, threadId))])
  {
    IndexIsExact(s);
    FoldSeqNo(s.acked);
    hide Persisted, ExactHistory, Agrees, FoldEvents, Appended, Resolved, Noted;
    IngestedMessages(s.mem.value.proj, a, Resolved(s.mem.value.byHeader, a.env, a.freshThread));
    HeldIsLive(s.mem.value.proj, a.env.messageId);
    hide ApplyEvent, IndexExact;
  }

  lemma HeldIsLive(p: State, header: string)
    requires IndexExact(p.messages, p.byMessageId)
    ensures var held := HeldAs(p, header);
      && (held.Some? <==> header != "" && header in Headers(p.messages))
      && (held.Some? ==> held.value in p.messages && p.messages[held.value].envelope.messageId == header)
  {
  }

  lemma IngestedMessages(p: State, a: Arrival, threadId: Id)
    ensures ApplyEvent(p, IngestEvent(a, threadId)).messages ==
      if a.freshId in p.messages then p.messages else p.messages[a.freshId := NewMessage(IngestEvent(a, threadId))]
  {
  }

  /** Theorem: crash a reachable process and reopen its log; a reply joins the thread it would have
      joined without the restart, or a new one in both cases, if and only if the process knew none of
      its references, or filed the first it knew under the same thread as the first that is live. */
  lemma ReplySurvivesRestart(s: Sys, t: Sys, env: Envelope)
    requires Inv(s) && s.mem.Some? && Next(s.(mem := None), Boot(true, true), t)
    ensures FirstKnown(s.mem.value.byHeader, Refs(env)) == FirstKnown(t.mem.value.byHeader, Refs(env)) <==>
            ResolvesAlike(s.mem.value.byHeader, s.mem.value.proj.messages, env)
  {
    BootKeeps(s.(mem := None), Boot(true, true), t);
    var p := s.mem.value.proj;
    assert s.acked[..|s.acked|] == s.acked;
    SameThreadIff(s.mem.value.byHeader, t.mem.value.byHeader, p.messages, p.byMessageId, env);
  }

  // ----------------------------------------------- when the snapshot cannot be read

  function Idle(n: nat): seq<Event> {
    seq(n, i => Unlabeled("", ""))
  }

  lemma {:induction false} IdleFold(a: State, recs: seq<Record>)
    requires a.messages == map[]
    requires forall i :: 0 <= i < |recs| ==> recs[i].event == Unlabeled("", "")
    ensures Fold(a, recs).messages == map[] && Fold(a, recs).labels == a.labels
      && Fold(a, recs).byMessageId == a.byMessageId
  {
    if recs != [] {
      IdleFold(a, recs[..|recs|-1]);
    }
  }

  const WORK: Event := LabelCreated("work", "Work", "user")

  lemma WorkThenIdle(n: nat, j: nat)
    requires j <= n + 1
    ensures var p := FoldEvents(([WORK] + Idle(n))[..j]);
      p.messages == map[] && p.byMessageId == map[] && (j > 0 ==> "work" in p.labels)
  {
    var events := ([WORK] + Idle(n))[..j];
    OnlyWork();
    if j > 0 {
      assert events[..1] == [WORK];
      assert forall i :: 1 <= i < j ==> Numbered(events)[i].event == Unlabeled("", "");
      FoldSplit(events, 1);
      hide FoldEvents, Numbered;
      IdleFold(FoldEvents([WORK]), Numbered(events)[1..]);
    }
  }

  lemma OnlyWork()
    ensures FoldEvents([]).messages == map[] && FoldEvents([]).byMessageId == map[]
    ensures var p := FoldEvents([WORK]); p.messages == map[] && p.byMessageId == map[] && "work" in p.labels
  {
    assert Numbered([]) == [];
    assert [] + [WORK] == [WORK];
    FoldEventsSnoc([], WORK);
  }

  lemma WorkThenIdleExact(n: nat)
    ensures ExactHistory([WORK] + Idle(n))
  {
    hide FoldEvents;
    forall j: nat | j <= n + 1
      ensures var p := FoldEvents(([WORK] + Idle(n))[..j]); p.messages == map[] && p.byMessageId == map[]
    {
      WorkThenIdle(n, j);
    }
  }

  /** openProjection folds the bare log when LoadSnapshot reports an error. That is the fold of
      the history, for every history, if and only if no prefix of the log has been cut. */
  lemma UnreadableSnapshot(n: nat, k: nat)
    requires k <= n
    ensures (forall events: seq<Event> :: |events| == n && ExactHistory(events) ==>
               Fold(EMPTY, Numbered(events)[k..]) == FoldEvents(events)) <==>
            k == 0
  {
    hide Fold, ExactHistory;
    if k == 0 {
      forall events: seq<Event> | |events| == n
        ensures Fold(EMPTY, Numbered(events)[0..]) == FoldEvents(events)
      {
        assert Numbered(events)[0..] == Numbered(events);
      }
    } else {
      var events := CutHistory(n, k);
    }
  }

  /** The label of the first event is missing from the fold of the rest. */
  lemma CutHistory(n: nat, k: nat) returns (events: seq<Event>)
    requires 0 < k <= n
    ensures |events| == n && ExactHistory(events) && Fold(EMPTY, Numbered(events)[k..]) != FoldEvents(events)
  {
    events := [WORK] + Idle(n - 1);
    hide Fold, FoldEvents, ExactHistory, Numbered;
    WorkThenIdleExact(n - 1);
    WorkThenIdle(n - 1, n);
    assert events[..n] == events;
    IdleRest(n, k);
  }

  lemma IdleRest(n: nat, k: nat)
    requires 0 < k <= n
    ensures "work" !in Fold(EMPTY, Numbered([WORK] + Idle(n - 1))[k..]).labels
  {
    var events := [WORK] + Idle(n - 1);
    assert forall i :: 0 <= i < n - k ==> Numbered(events)[k..][i].event == Unlabeled("", "");
    hide Fold, Numbered;
    IdleFold(EMPTY, Numbered(events)[k..]);
  }

  // ------------------------------------------------------------------- the runtime

  lemma FoldNone(a: State)
    ensures Fold(a, []) == a
  {
  }

  /** openProjection; None is the error of a log that cannot be read. */
  method OpenProjection(file: File<Snapshot>, log: bool, readable: bool, decodes: bool) returns (a: Option<Account>)
    ensures a.Some? <==> log
    ensures a.Some? ==> fresh(a.value) && OpenedProjection(file.fs.d, readable && decodes, a.value.St())
  {
    hide Step, Fold, Since, Restored;
    var s := file.LoadSnapshot(readable);
    if s.Snap? && decodes {
      var p := new Account.Restore(s.wire.data);
      ghost var base := p.St();
      var recs := file.ReadFrom(s.wire.seqNo + 1, log);
      if recs.None? {
        return None;
      }
      Replay(p, recs.value);
      return Some(p);
    }
    var recs := file.ReadFrom(1, log);
    if recs.None? {
      return None;
    }
    var p := Rebuild(recs.value);
    a := Some(p);
  }

  /** Folds the tail into a restored account. */
  method Replay(a: Account, recs: seq<Record>)
    modifies a
    ensures a.St() == Fold(old(a.St()), recs)
  {
    hide Step, Fold;
    FoldNone(a.St());
    for i := 0 to |recs|
      invariant a.St() == Fold(old(a.St()), recs[..i])
    {
      assert recs[..i+1] == recs[..i] + [recs[i]];
      FoldSnoc(old(a.St()), recs[..i], recs[i]);
      a.Apply(recs[i]);
    }
    assert recs[..|recs|] == recs;
  }

  /** The map Open hands to the threader, built in whatever order the messages come. */
  method SeedMap(messages: map<Id, Message>) returns (seed: map<string, Id>)
    ensures Seeded(messages, seed) && "" !in seed
  {
    seed := map[];
    var todo := messages.Keys;
    while todo != {}
      invariant todo <= messages.Keys
      invariant forall h :: h in seed ==>
        h != "" &&
        exists id :: id in messages && messages[id].envelope.messageId == h && seed[h] == messages[id].threadId
      invariant forall id :: id in messages.Keys - todo && messages[id].envelope.messageId != "" ==>
        messages[id].envelope.messageId in seed
    {
      var id :| id in todo;
      if messages[id].envelope.messageId != "" {
        seed := seed[messages[id].envelope.messageId := messages[id].threadId];
      }
      todo := todo - {id};
    }
    assert seed.Keys == Headers(messages);
  }

  /** The parts of a runtime, on a log that holds the history `acked`. */
  method Boots(fs: FileSystem<Snapshot>, numbered: bool, readable: bool, decodes: bool, ghost acked: seq<Event>)
    returns (f: File<Snapshot>, p: Account, t: Threader)
    requires Inv(Sys(fs.d, None, acked)) && BootsWell(Sys(fs.d, None, acked), Boot(numbered, readable && decodes))
    modifies fs
    ensures fresh(f) && fresh(p) && fresh(t) && f.fs == fs && f.Valid()
    ensures var up := Sys(fs.d, Some(Memory(f.St(), p.St(), t.byHeader)), acked);
      Next(Sys(old(fs.d), None, acked), Boot(numbered, readable && decodes), up) && Inv(up)
  {
    assert WellFormed(fs.d);
    hide *;
    f := new File<Snapshot>(fs, numbered);
    var found := OpenProjection(f, true, readable, decodes);
    p := found.value;
    t := new Threader();
    var seed := SeedMap(p.messages);
    t.Seed(seed);
    AllSeeded(seed);
    Booted(old(fs.d), numbered, readable && decodes, f.St(), p.St(), seed, acked);
  }

  lemma AllSeeded(seed: map<string, Id>)
    requires "" !in seed
    ensures map[] + (seed - {""}) == seed
  {
  }

  lemma Booted(d: Disk<Snapshot>, numbered: bool, restored: bool, f: FileState, p: State, seed: map<string, Id>,
               acked: seq<Event>)
    requires Inv(Sys(d, None, acked)) && BootsWell(Sys(d, None, acked), Boot(numbered, restored))
    requires Opened(d).log.Some? && f == FileState(HighWater(d, numbered), Bound(Opened(d).log.value))
    requires OpenedProjection(Opened(d), restored, p) && Seeded(p.messages, seed)
    ensures var up := Sys(Opened(d), Some(Memory(f, p, seed)), acked);
      Next(Sys(d, None, acked), Boot(numbered, restored), up) && Inv(up)
  {
    hide Inv, HighWater, OpenedProjection, Seeded, Opened, BootsWell;
    BootKeeps(Sys(d, None, acked), Boot(numbered, restored), Sys(Opened(d), Some(Memory(f, p, seed)), acked));
  }

  class Runtime {
    const fs: FileSystem<Snapshot>
    const file: File<Snapshot>
    const proj: Account
    const threader: Threader
    ghost var acked: seq<Event>

    ghost function S(): Sys
      reads this, fs, file, proj, threader
    {
      Sys(fs.d, Some(Memory(file.St(), proj.St(), threader.byHeader)), acked)
    }

    ghost predicate Valid()
      reads this, fs, file, proj, threader
    {
      file.fs == fs && file.Valid() && Inv(S())
    }

    /** Open, on a log that holds the history `acked`. */
    constructor Open(fs: FileSystem<Snapshot>, numbered: bool, readable: bool, decodes: bool, ghost acked: seq<Event>)
      requires Inv(Sys(fs.d, None, acked)) && BootsWell(Sys(fs.d, None, acked), Boot(numbered, readable && decodes))
      modifies fs
      ensures Valid() && this.fs == fs && fresh(file) && fresh(proj) && fresh(threader)
      ensures Next(Sys(old(fs.d), None, acked), Boot(numbered, readable && decodes), S())
    {
      hide Inv, Next, WellFormed, BootsWell;
      var f, p, t := Boots(fs, numbered, readable, decodes, acked);
      this.fs, this.file, this.proj, this.threader, this.acked := fs, f, p, t, acked;
      new;
    }

    /** The parsed message a, or the id already held under its Message-ID; None is an error. */
    method Ingest(a: Arrival, ioOk: bool) returns (id: Option<Id>)
      requires Valid()
      modifies this, fs, file, proj, threader
      ensures Valid() && Next(old(S()), Op.Ingest(a, ioOk), S())
      ensures id == if old(HeldAs(proj.St(), a.env.messageId)).Some? then old(HeldAs(proj.St(), a.env.messageId))
                    else if old(CanAppend(S(), ioOk)) then Some(a.freshId) else None
    {
      hide Step, Inv, Resolved, Noted;
      ghost var before := S();
      IngestKeeps(before, a, ioOk);
      id := proj.MessageIdExists(a.env.messageId);
      if id.Some? {
        return;
      }
      var threadId := threader.Resolve(a.env, a.freshThread);
      var e := IngestEvent(a, threadId);
      var rec := file.Append(e, ioOk);
      if rec.None? {
        return;
      }
      proj.Apply(rec.value);
      acked := acked + [e];
      id := Some(a.freshId);
      assert S() == Ingests(before, a, ioOk);
    }

    /** The shared write path of Label, Unlabel, SetFlag, CreateLabel, RenameLabel, DeleteLabel
        and Expunge. */
    method AppendApply(e: Event, ioOk: bool) returns (ok: bool)
      requires Valid() && Wrapped(e)
      modifies this, fs, file, proj
      ensures Valid() && Next(old(S()), Mutate(e, ioOk), S())
      ensures ok == old(CanAppend(S(), ioOk))
    {
      hide Step, Inv;
      MutateKeeps(S(), e, ioOk);
      var rec := file.Append(e, ioOk);
      if rec.None? {
        return false;
      }
      proj.Apply(rec.value);
      acked := acked + [e];
      ok := true;
    }

    method Compact(fail: SaveStep) returns (ok: bool)
      requires Valid()
      modifies fs, file
      ensures Valid() && Next(old(S()), Op.Compact(fail), S())
      ensures fail == Done ==> ok
    {
      ghost var before := S();
      var data := proj.Snapshot();
      ok := file.SaveSnapshot(proj.seqNo, data, fail);
      CompactKeeps(before, fail, S());
    }
  }

  /** The first process of a new account. */
  method Create() returns (r: Runtime)
    ensures fresh(r) && r.Valid() && r.acked == []
  {
    var fs := new FileSystem<Snapshot>();
    NewAccountIsSound();
    hide Inv;
    r := new Runtime.Open(fs, true, true, true, []);
  }
}
