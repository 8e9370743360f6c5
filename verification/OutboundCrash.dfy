/** The durable outbound queue under crashes: every interleaving of Enqueue, Tick, a crash at any
    store step, and Recover. */
module OutboundCrash {
  import opened Model
  import opened Seqs
  import opened FileQueue
  import opened Scheduler
  import opened Outbound

  /** The directory survives a crash; the queue is None while no process is up. The rest is
      history: the messages whose Enqueue returned nil, those delivered or given up on since they were
      last accepted, and every hand-over to the sender. */
  datatype World = World(dir: Dir, queue: Option<seq<Queued>>,
                         acked: set<OutMessage>, over: set<OutMessage>, sent: multiset<OutMessage>)

  /** The messages that are queued or have a queue file. */
  ghost function Present(w: World): set<OutMessage> {
    StoredMsgs(w.dir) + (if w.queue.Some? then QueuedMsgs(w.queue.value) else {})
  }

  ghost function StoredMsgs(dir: Dir): set<OutMessage> {
    set n | n in dir && IsJson(n) && dir[n].Item? :: dir[n].it.msg
  }

  ghost function QueuedMsgs(qs: seq<Queued>): set<OutMessage> {
    set i | 0 <= i < |qs| :: qs[i].msg
  }

  /** stop is the number of messages the pass settles before the process dies; a pass that
      settles them all goes on. A death between the send and the store operation is a store
      operation that fails followed by a death. */
  datatype Action =
    | Submit(m: OutMessage, fail: WriteStep)
    | RunTick(now: int, replies: seq<Reply>, warm: Option<WarmGate>, rep: Option<RepGate>, stop: nat)
    | Crash
    | Recover

  /** m shares no file name with another message that is queued or stored; it may be one of these,
      or an earlier one, submitted again. */
  ghost predicate Fresh(w: World, m: OutMessage) {
    m.id != "" && forall k :: k in Present(w) && SafeName(k.id) == SafeName(m.id) ==> k == m
  }

  ghost predicate Next(cfg: Config, w: World, a: Action, v: World) {
    match a
    case Submit(m, fail) =>
      && w.queue.Some? && Fresh(w, m)
      && v.dir == Written(w.dir, Queued(m, 0, 0), fail) && v.sent == w.sent
      && (if WriteReported(Queued(m, 0, 0), fail)
          then v.queue == Some(w.queue.value + [Queued(m, 0, 0)]) && v.acked == w.acked + {m} && v.over == w.over - {m}
          else v.queue == w.queue && v.acked == w.acked && v.over == w.over)
    case RunTick(now, replies, warm, rep, stop) =>
      && w.queue.Some? && stop <= |w.queue.value| <= |replies|
      && var p := After(cfg, now, Begin(warm, rep, Some(w.dir)), w.queue.value, replies, stop);
         && p.dir == Some(v.dir)
         && v.queue == (if stop < |w.queue.value| then None else Some(p.remaining))
         && v.acked == w.acked
         && v.over == w.over + (set m | m in p.delivered) + (set m | m in p.bounced)
         && v.sent == w.sent + multiset(p.sent)
    case Crash => v == w.(queue := None)
    case Recover =>
      && w.queue.None? && v.queue.Some? && v == w.(queue := v.queue)
      && Loaded(w.dir, v.queue.value)
  }

  ghost predicate CrashRun(cfg: Config, ws: seq<World>, actions: seq<Action>) {
    && |ws| == |actions| + 1
    && forall i :: 0 <= i < |actions| ==> Next(cfg, ws[i], actions[i], ws[i+1])
  }

  const EMPTY_WORLD := World(map[], Some([]), {}, {}, multiset{})

  // ---------------------------------------------------------------- invariant

  ghost predicate NamesUnique(known: set<OutMessage>) {
    && (forall m :: m in known ==> m.id != "")
    && forall a, b :: a in known && b in known && SafeName(a.id) == SafeName(b.id) ==> a == b
  }

  predicate Tracked(it: Queued, known: set<OutMessage>, sent: multiset<OutMessage>) {
    it.msg in known && it.attempts <= sent[it.msg]
  }

  /** Every queue file holds a known message under its own name, with no more attempts than it
      was really handed over. */
  ghost predicate DirOk(dir: Dir, known: set<OutMessage>, sent: multiset<OutMessage>) {
    forall n :: n in dir && IsJson(n) ==>
      dir[n].Item? && Tracked(dir[n].it, known, sent) && n == FinalName(dir[n].it.msg.id)
  }

  predicate HasFile(dir: Dir, m: OutMessage) {
    FinalName(m.id) in dir && dir[FinalName(m.id)].Item? && dir[FinalName(m.id)].it.msg == m
  }

  predicate InQueue(qs: seq<Queued>, m: OutMessage) {
    exists i :: 0 <= i < |qs| && qs[i].msg == m
  }

  ghost predicate QueueOk(qs: seq<Queued>, known: set<OutMessage>, sent: multiset<OutMessage>) {
    forall i :: 0 <= i < |qs| ==> Tracked(qs[i], known, sent)
  }

  ghost predicate WorldOk(w: World) {
    && NamesUnique(Present(w))
    && DirOk(w.dir, Present(w), w.sent)
    && (forall m :: m in w.acked - w.over ==> HasFile(w.dir, m))
    && (w.queue.Some? ==>
          && QueueOk(w.queue.value, Present(w), w.sent)
          && forall m :: m in w.acked - w.over ==> InQueue(w.queue.value, m))
  }

  // ------------------------------------------------------- what a store operation keeps

  lemma WrittenKeeps(dir: Dir, known: set<OutMessage>, sent: multiset<OutMessage>, it: Queued, fail: WriteStep,
                     m: OutMessage)
    requires NamesUnique(known) && DirOk(dir, known, sent) && Tracked(it, known, sent)
    ensures DirOk(Written(dir, it, fail), known, sent)
    ensures m in known && HasFile(dir, m) ==> HasFile(Written(dir, it, fail), m)
    ensures fail == Done || fail == SyncDir ==> HasFile(Written(dir, it, fail), it.msg)
  {
    FinalNames(it.msg.id, it.msg.id);
    FinalNames(m.id, it.msg.id);
    hide SafeName, IsJson;
  }

  lemma RemovedKeeps(dir: Dir, known: set<OutMessage>, sent: multiset<OutMessage>, q: OutMessage, fail: RemoveStep,
                     m: OutMessage)
    requires NamesUnique(known) && DirOk(dir, known, sent) && q in known
    ensures DirOk(Removed(dir, q.id, fail), known, sent)
    ensures m in known && m != q && HasFile(dir, m) ==> HasFile(Removed(dir, q.id, fail), m)
  {
    FinalNames(m.id, q.id);
  }

  // ---------------------------------------------------------------- a pass, step by step

  /** In the middle of a pass: the directory and the messages that stay are in order. */
  ghost predicate PassOk(p: Pass, known: set<OutMessage>, sent: multiset<OutMessage>) {
    && p.dir.Some?
    && DirOk(p.dir.value, known, sent + multiset(p.sent))
    && QueueOk(p.remaining, known, sent + multiset(p.sent))
  }

  /** In the middle of a pass over qs, of which k messages are settled: every open message has its
      file and is still queued. */
  ghost predicate KeptOpen(p: Pass, qs: seq<Queued>, k: nat, open: set<OutMessage>)
    requires k <= |qs| && p.dir.Some?
  {
    forall m :: m in open && m !in p.delivered && m !in p.bounced ==>
      HasFile(p.dir.value, m) && (InQueue(p.remaining, m) || InQueue(qs[k..], m))
  }

  lemma InQueueHead(qs: seq<Queued>, k: nat, m: OutMessage)
    requires k < |qs|
    ensures InQueue(qs[k..], m) <==> qs[k].msg == m || InQueue(qs[k+1..], m)
  {
    assert qs[k..] == [qs[k]] + qs[k+1..];
    if InQueue(qs[k+1..], m) {
      var i :| 0 <= i < |qs[k+1..]| && qs[k+1..][i].msg == m;
      assert qs[k..][i+1].msg == m;
    }
    if qs[k].msg == m {
      assert qs[k..][0].msg == m;
    }
  }

  lemma InQueueSnoc(qs: seq<Queued>, q: Queued, m: OutMessage)
    ensures InQueue(qs + [q], m) <==> InQueue(qs, m) || q.msg == m
  {
    if InQueue(qs, m) {
      var i :| 0 <= i < |qs| && qs[i].msg == m;
      assert (qs + [q])[i].msg == m;
    }
    if q.msg == m {
      assert (qs + [q])[|qs|].msg == m;
    }
  }

  lemma MoreSent(dir: Dir, qs: seq<Queued>, known: set<OutMessage>, sent: multiset<OutMessage>, x: multiset<OutMessage>)
    requires DirOk(dir, known, sent) && QueueOk(qs, known, sent)
    ensures DirOk(dir, known, sent + x) && QueueOk(qs, known, sent + x)
  {
  }

  lemma StepKeepsPass(cfg: Config, now: int, p: Pass, q: Queued, r: Reply, known: set<OutMessage>,
                      sent: multiset<OutMessage>)
    requires NamesUnique(known) && Tracked(q, known, sent) && PassOk(p, known, sent)
    ensures PassOk(StepItem(cfg, now, p, q, r), known, sent)
  {
    var o := StepShape(cfg, now, p, q, r);
    var n := StepItem(cfg, now, p, q, r);
    var before, after := sent + multiset(p.sent), sent + multiset(n.sent);
    hide StepItem, Disposition, IsThrottled, IsAllowed, Counted, DirOk, NamesUnique, Written, Removed;
    if Dispatched(o) {
      assert multiset(n.sent) == multiset(p.sent) + multiset{q.msg};
      assert after == before + multiset{q.msg};
      MoreSent(p.dir.value, p.remaining, known, before, multiset{q.msg});
      if o == Deferred {
        WrittenKeeps(p.dir.value, known, after, Retried(cfg, now, q), r.write, q.msg);
      } else {
        RemovedKeeps(p.dir.value, known, after, q.msg, r.remove, q.msg);
      }
    }
  }

  lemma StepKeepsOpen(cfg: Config, now: int, p: Pass, qs: seq<Queued>, k: nat, r: Reply,
                      known: set<OutMessage>, open: set<OutMessage>, sent: multiset<OutMessage>)
    requires k < |qs| && NamesUnique(known) && open <= known && Tracked(qs[k], known, sent)
    requires PassOk(p, known, sent) && KeptOpen(p, qs, k, open)
    requires PassOk(StepItem(cfg, now, p, qs[k], r), known, sent)
    ensures KeptOpen(StepItem(cfg, now, p, qs[k], r), qs, k + 1, open)
  {
    var q := qs[k];
    var o := StepShape(cfg, now, p, q, r);
    var n := StepItem(cfg, now, p, q, r);
    hide StepItem, Disposition, IsThrottled, IsAllowed, Counted, HasFile, InQueue, NamesUnique, Written, Removed;
    forall m | m in open && m !in n.delivered && m !in n.bounced
      ensures HasFile(n.dir.value, m) && (InQueue(n.remaining, m) || InQueue(qs[k+1..], m))
    {
      InQueueHead(qs, k, m);
      InQueueSnoc(p.remaining, q, m);
      InQueueSnoc(p.remaining, Retried(cfg, now, q), m);
      var now' := sent + multiset(p.sent) + multiset{q.msg};
      MoreSent(p.dir.value, p.remaining, known, sent + multiset(p.sent), multiset{q.msg});
      if o == Deferred {
        WrittenKeeps(p.dir.value, known, now', Retried(cfg, now, q), r.write, m);
      } else if Dispatched(o) {
        RemovedKeeps(p.dir.value, known, now', q.msg, r.remove, m);
      }
    }
  }

  lemma {:induction false} PassKeeps(cfg: Config, now: int, start: Pass, qs: seq<Queued>, replies: seq<Reply>, k: nat,
                                     known: set<OutMessage>, open: set<OutMessage>, sent: multiset<OutMessage>)
    requires k <= |qs| <= |replies| && NamesUnique(known) && open <= known && QueueOk(qs, known, sent)
    requires PassOk(start, known, sent) && KeptOpen(start, qs, 0, open)
    ensures var p := After(cfg, now, start, qs, replies, k); PassOk(p, known, sent) && KeptOpen(p, qs, k, open)
  {
    hide StepItem, KeptOpen, DirOk;
    if k > 0 {
      PassKeeps(cfg, now, start, qs, replies, k - 1, known, open, sent);
      var p := After(cfg, now, start, qs, replies, k - 1);
      StepKeepsPass(cfg, now, p, qs[k-1], replies[k-1], known, sent);
      StepKeepsOpen(cfg, now, p, qs, k - 1, replies[k-1], known, open, sent);
    }
  }

  // ---------------------------------------------------------------- every action

  /** It is enough to track messages in some larger set with unique names. */
  lemma Narrow(w: World, known: set<OutMessage>)
    requires NamesUnique(known) && DirOk(w.dir, known, w.sent)
      && (w.queue.Some? ==> QueueOk(w.queue.value, known, w.sent))
    ensures Present(w) <= known && NamesUnique(Present(w)) && DirOk(w.dir, Present(w), w.sent)
    ensures w.queue.Some? ==> QueueOk(w.queue.value, Present(w), w.sent)
  {
    hide SafeName, FinalName, IsJson;
    forall m | m in Present(w)
      ensures m in known
    {
      if w.queue.Some? && m in QueuedMsgs(w.queue.value) {
        var i :| 0 <= i < |w.queue.value| && w.queue.value[i].msg == m;
        assert Tracked(w.queue.value[i], known, w.sent);
      }
    }
    if w.queue.Some? {
      forall i | 0 <= i < |w.queue.value|
        ensures Tracked(w.queue.value[i], Present(w), w.sent)
      {
        assert w.queue.value[i].msg in QueuedMsgs(w.queue.value);
      }
    }
  }

  lemma OpenArePresent(w: World)
    requires WorldOk(w)
    ensures w.acked - w.over <= Present(w)
  {
    forall m | m in w.acked - w.over
      ensures m in Present(w)
    {
      FinalNames(m.id, m.id);
      assert HasFile(w.dir, m);
    }
  }

  lemma RunTickKeeps(cfg: Config, w: World, a: Action, v: World)
    requires WorldOk(w) && a.RunTick? && Next(cfg, w, a, v)
    ensures WorldOk(v)
  {
    var qs, start, open := w.queue.value, Begin(a.warm, a.rep, Some(w.dir)), w.acked - w.over;
    assert qs[0..] == qs;
    OpenArePresent(w);
    PassKeeps(cfg, a.now, start, qs, a.replies, a.stop, Present(w), open, w.sent);
    hide After, DirOk, NamesUnique, HasFile, Present, QueueOk;
    Narrow(v, Present(w));
    if a.stop == |qs| {
      assert qs[a.stop..] == [];
    }
  }

  lemma SubmitTracks(cfg: Config, w: World, a: Action, v: World)
    requires WorldOk(w) && a.Submit? && Next(cfg, w, a, v)
    ensures var known := Present(w) + {a.m};
      && NamesUnique(known) && DirOk(v.dir, known, v.sent)
      && (v.queue.Some? ==> QueueOk(v.queue.value, known, v.sent))
  {
    var it, known := Queued(a.m, 0, 0), Present(w) + {a.m};
    hide SafeName, Written, Present, IsJson, FinalName, HasFile, InQueue;
    assert NamesUnique(known) && DirOk(w.dir, known, w.sent) && Tracked(it, known, w.sent);
    WrittenKeeps(w.dir, known, w.sent, it, a.fail, a.m);
    hide NamesUnique, DirOk;
  }

  lemma SubmitOpens(cfg: Config, w: World, a: Action, v: World)
    requires WorldOk(w) && a.Submit? && Next(cfg, w, a, v)
    ensures forall m :: m in v.acked - v.over ==> HasFile(v.dir, m) && (v.queue.Some? ==> InQueue(v.queue.value, m))
  {
    var it, known := Queued(a.m, 0, 0), Present(w) + {a.m};
    OpenArePresent(w);
    hide SafeName, Written, Present, IsJson, FinalName, QueueOk;
    assert NamesUnique(known) && DirOk(w.dir, known, w.sent) && Tracked(it, known, w.sent);
    hide NamesUnique, DirOk, HasFile, InQueue, Tracked, Fresh;
    forall m { WrittenKeeps(w.dir, known, w.sent, it, a.fail, m); }
    forall m { InQueueSnoc(w.queue.value, it, m); }
  }

  lemma SubmitKeeps(cfg: Config, w: World, a: Action, v: World)
    requires WorldOk(w) && a.Submit? && Next(cfg, w, a, v)
    ensures WorldOk(v)
  {
    SubmitTracks(cfg, w, a, v);
    SubmitOpens(cfg, w, a, v);
    hide Next, Present, NamesUnique, DirOk, HasFile, InQueue, QueueOk;
    Narrow(v, Present(w) + {a.m});
  }

  lemma RecoverKeeps(cfg: Config, w: World, v: World)
    requires WorldOk(w) && Next(cfg, w, Recover, v)
    ensures WorldOk(v)
  {
    RecoveredMail(w, v.queue.value);
    hide DirOk, NamesUnique, HasFile, InQueue, QueueOk, Present;
    Narrow(v, Present(w));
  }

  /** What Recover loads from a directory that is in order. */
  lemma RecoveredMail(w: World, items: seq<Queued>)
    requires WorldOk(w) && Loaded(w.dir, items)
    ensures QueueOk(items, Present(w), w.sent)
    ensures forall m :: m in w.acked - w.over ==> InQueue(items, m)
  {
    var names :| Lists(w.dir, names) && items == Collect(w.dir, names);
    CollectSpec(w.dir, names);
    forall i | 0 <= i < |items|
      ensures Tracked(items[i], Present(w), w.sent)
    {
      assert items[i] in items;
    }
    forall m | m in w.acked - w.over
      ensures InQueue(items, m)
    {
      FinalNames(m.id, m.id);
      assert Stores(w.dir, FinalName(m.id), w.dir[FinalName(m.id)].it);
      assert w.dir[FinalName(m.id)].it in items;
    }
  }

  lemma CrashKeeps(w: World)
    requires WorldOk(w)
    ensures WorldOk(w.(queue := None))
  {
    hide SafeName, DirOk, NamesUnique, HasFile, QueueOk, Present;
    Narrow(w.(queue := None), Present(w));
  }

  lemma {:induction false} CrashRunKeeps(cfg: Config, ws: seq<World>, actions: seq<Action>)
    requires CrashRun(cfg, ws, actions) && WorldOk(ws[0])
    ensures WorldOk(ws[|actions|])
  {
    hide WorldOk;
    if actions != [] {
      var n := |actions| - 1;
      assert CrashRun(cfg, ws[..n+1], actions[..n]);
      CrashRunKeeps(cfg, ws[..n+1], actions[..n]);
      match actions[n]
      case Submit(_, _) => SubmitKeeps(cfg, ws[n], actions[n], ws[n+1]);
      case RunTick(_, _, _, _, _) => RunTickKeeps(cfg, ws[n], actions[n], ws[n+1]);
      case Crash => CrashKeeps(ws[n]);
      case Recover => RecoverKeeps(cfg, ws[n], ws[n+1]);
    }
  }

  /** Theorem: whatever is submitted, again or anew, ticked, crashed and recovered, and whichever
      Update and Remove fail, every message whose Enqueue returned nil has been delivered or given up on since, or is
      in the queue that Recover loads; and no loaded message has more attempts than it was really
      handed to the sender. */
  lemma NothingAcceptedIsLost(cfg: Config, ws: seq<World>, actions: seq<Action>, items: seq<Queued>, m: OutMessage)
    requires CrashRun(cfg, ws, actions) && ws[0] == EMPTY_WORLD
    requires Loaded(ws[|actions|].dir, items) && m in ws[|actions|].acked
    ensures var w := ws[|actions|];
      && (m in w.over || InQueue(items, m))
      && (w.queue.Some? ==> m in w.over || InQueue(w.queue.value, m))
      && forall i :: 0 <= i < |items| ==> items[i].attempts <= w.sent[items[i].msg]
  {
    CrashRunKeeps(cfg, ws, actions);
    RecoveredMail(ws[|actions|], items);
  }

  /** The i-th message of this pass is m, and its answer settled it: delivered, refused for good, or
      put off once too often. */
  ghost predicate Settles(cfg: Config, w: World, a: Action, v: World, i: nat, m: OutMessage) {
    && a.RunTick? && w.queue.Some? && i < a.stop <= |w.queue.value| <= |a.replies| && w.queue.value[i].msg == m
    && match a.replies[i].status
       case Delivered => true
       case PermFail => true
       case TempFail => v.sent[m] >= cfg.maxAttempts
  }

  lemma TickSettles(cfg: Config, w: World, a: Action, v: World, m: OutMessage) returns (i: nat)
    requires cfg.maxPerDomain > 0 && WorldOk(w) && a.RunTick? && Next(cfg, w, a, v) && m in v.over && m !in w.over
    ensures Settles(cfg, w, a, v, i, m)
  {
    var qs, start := w.queue.value, Begin(a.warm, a.rep, Some(w.dir));
    var p := After(cfg, a.now, start, qs, a.replies, a.stop);
    TickSplits(cfg, a.now, start, qs, a.replies, a.stop);
    assert m in p.delivered || m in p.bounced;
    i := Picked(qs[..a.stop], p.trace, if m in p.delivered then Sent else Bounced, m);
    assert JudgedAt(cfg, a.now, start, qs, a.replies, p.trace, i);
    assert Tracked(qs[i], Present(w), w.sent);
    DispatchedIsSent(cfg, a.now, start, qs, a.replies, a.stop);
    assert v.sent == w.sent + multiset(p.sent) && qs[i].msg == m;
    hide After, Sorted, Conserved, DomainsCapped, Present, DirOk, Next, WorldOk, Passes;
  }

  /** Theorem: a message counts as delivered or given up on only because a pass had an answer that
      settled it; and one given up on for temporary failures was really handed to the sender at least
      maxAttempts times, whatever crashed in between. */
  lemma {:induction false} WhyOver(cfg: Config, ws: seq<World>, actions: seq<Action>, m: OutMessage)
      returns (n: nat, i: nat)
    requires cfg.maxPerDomain > 0 && CrashRun(cfg, ws, actions) && ws[0] == EMPTY_WORLD && m in ws[|actions|].over
    ensures n < |actions| && Settles(cfg, ws[n], actions[n], ws[n+1], i, m)
    decreases |actions|
  {
    assert actions != [];
    n := |actions| - 1;
    assert CrashRun(cfg, ws[..n+1], actions[..n]);
    if m in ws[n].over {
      n, i := WhyOver(cfg, ws[..n+1], actions[..n], m);
    } else {
      CrashRunKeeps(cfg, ws[..n+1], actions[..n]);
      assert Next(cfg, ws[n], actions[n], ws[n+1]);
      hide WorldOk, CrashRun, After, Loaded, Fresh, Written;
      assert actions[n].RunTick?;
      i := TickSettles(cfg, ws[n], actions[n], ws[n+1], m);
    }
  }

  // ---------------------------------------------------------------- file names that collide

  lemma InQueueLoaded(dir: Dir, items: seq<Queued>, m: OutMessage)
    requires Loaded(dir, items)
    ensures InQueue(items, m) <==> exists n, it :: Stores(dir, n, it) && it.msg == m
  {
    var names :| Lists(dir, names) && items == Collect(dir, names);
    CollectSpec(dir, names);
    if InQueue(items, m) {
      var i :| 0 <= i < |items| && items[i].msg == m;
      assert items[i] in items;
    }
    if n, it :| Stores(dir, n, it) && it.msg == m {
      assert n in names && it in items;
    }
  }

  /** The directory after two messages were accepted one after the other. */
  function AfterBoth(a: OutMessage, b: OutMessage): Dir {
    Written(Written(map[], Queued(a, 0, 0), Done), Queued(b, 0, 0), Done)
  }

  lemma AfterBothStores(a: OutMessage, b: OutMessage, n: string, it: Queued)
    requires a.id != "" && b.id != ""
    ensures Stores(AfterBoth(a, b), n, it) <==>
      (n == FinalName(b.id) && it == Queued(b, 0, 0)) ||
      (n == FinalName(a.id) && it == Queued(a, 0, 0) && SafeName(a.id) != SafeName(b.id))
  {
    FinalNames(a.id, b.id);
    FinalNames(b.id, a.id);
    hide SafeName, IsJson;
  }

  /** Theorem: two different messages accepted one after the other are both in every recovered
      queue if and only if their file names differ. Ids made of plain characters and no longer
      than 200 are their own names; "a.b" and "a_b" share one. */
  lemma BothSurviveIffNamesDiffer(a: OutMessage, b: OutMessage)
    requires a != b && a.id != "" && b.id != ""
    ensures (forall items :: Loaded(AfterBoth(a, b), items) ==> InQueue(items, a) && InQueue(items, b)) <==>
            SafeName(a.id) != SafeName(b.id)
  {
    var dir := AfterBoth(a, b);
    forall n, it { AfterBothStores(a, b, n, it); }
    hide SafeName, AfterBoth, Stores, InQueue;
    if SafeName(a.id) != SafeName(b.id) {
      assert Stores(dir, FinalName(a.id), Queued(a, 0, 0)) && Stores(dir, FinalName(b.id), Queued(b, 0, 0));
      forall items | Loaded(dir, items)
        ensures InQueue(items, a) && InQueue(items, b)
      {
        InQueueLoaded(dir, items, a);
        InQueueLoaded(dir, items, b);
      }
    } else {
      var names := Listing(dir.Keys);
      assert Lists(dir, names);
      InQueueLoaded(dir, Collect(dir, names), a);
    }
  }

  lemma DotsCollide()
    ensures SafeName("a.b") == SafeName("a_b")
  {
    assert Escaped("a.b") == Escaped("a_b");
  }
}
