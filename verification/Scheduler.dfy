/** services/mtaout/mtaout.go: one scheduling pass over the outbound queue. `StepItem` says what
    the pass does with one message and `After` what it has done after k of them; class
    `Scheduler` runs the pass in place over its queue, its gates and its store. */
module Scheduler {
  import opened Model
  import opened FileQueue
  import W = Warmup
  import R = Reputation

  datatype Config = Config(maxPerDomain: int, maxAttempts: int, backoff: int -> int)

  /** NewScheduler's defaults. */
  function Defaulted(c: Config): Config {
    c.(maxPerDomain := if c.maxPerDomain <= 0 then 10 else c.maxPerDomain,
       maxAttempts := if c.maxAttempts <= 0 then 8 else c.maxAttempts)
  }

  datatype WarmGate = WarmGate(schedule: seq<int>, ramp: W.Ramp)

  datatype RepGate = RepGate(limits: R.Limits, stats: R.Stats)

  datatype Status = Delivered | TempFail | PermFail

  /** What the sender answers for one message, and how the store operation that follows fares. */
  datatype Reply = Reply(status: Status, write: WriteStep, remove: RemoveStep)

  datatype Outcome = Early | Throttled | WarmupHeld | RateHeld | Sent | Deferred | Bounced

  datatype TickStats = TickStats(delivered: nat, deferred: nat, bounced: nat, throttled: nat, warmupHeld: nat,
                                 rateHeld: nat)

  const NO_STATS := TickStats(0, 0, 0, 0, 0, 0)

  /** A gate or store that is not configured is None. */
  datatype Pass = Pass(
    perDomain: map<string, nat>, warm: Option<WarmGate>, rep: Option<RepGate>, dir: Option<Dir>,
    remaining: seq<Queued>, stats: TickStats,
    trace: seq<Outcome>, delivered: seq<OutMessage>, bounced: seq<OutMessage>, sent: seq<OutMessage>)

  function Begin(warm: Option<WarmGate>, rep: Option<RepGate>, dir: Option<Dir>): Pass {
    Pass(map[], warm, rep, dir, [], NO_STATS, [], [], [], [])
  }

  function CountFor(perDomain: map<string, nat>, d: string): nat {
    if d in perDomain then perDomain[d] else 0
  }

  predicate IsThrottled(rep: Option<RepGate>, tenant: string) {
    rep.Some? && R.Throttled(rep.value.limits, rep.value.stats, tenant)
  }

  predicate IsAllowed(warm: Option<WarmGate>, domain: string, now: int) {
    warm.Some? ==> W.Allows(warm.value.schedule, warm.value.ramp, domain, now)
  }

  /** The gate that holds q back, if any; they are tried in this order. */
  function HeldBy(cfg: Config, now: int, p: Pass, q: Queued): Option<Outcome> {
    if now < q.nextAttempt then Some(Early)
    else if IsThrottled(p.rep, q.msg.tenant) then Some(Throttled)
    else if !IsAllowed(p.warm, q.msg.fromDomain, now) then Some(WarmupHeld)
    else if CountFor(p.perDomain, q.msg.rcptDomain) >= cfg.maxPerDomain then Some(RateHeld)
    else None
  }

  function Counted(st: TickStats, o: Outcome): TickStats {
    match o
    case Early => st
    case Throttled => st.(throttled := st.throttled + 1)
    case WarmupHeld => st.(warmupHeld := st.warmupHeld + 1)
    case RateHeld => st.(rateHeld := st.rateHeld + 1)
    case Sent => st.(delivered := st.delivered + 1)
    case Deferred => st.(deferred := st.deferred + 1)
    case Bounced => st.(bounced := st.bounced + 1)
  }

  /** What becomes of a message that was handed to the sender. */
  function Disposition(cfg: Config, q: Queued, status: Status): Outcome {
    match status
    case Delivered => Sent
    case TempFail => if q.attempts + 1 >= cfg.maxAttempts then Bounced else Deferred
    case PermFail => Bounced
  }

  function WarmRecorded(warm: Option<WarmGate>, domain: string, now: int): Option<WarmGate> {
    if warm.None? then None else Some(warm.value.(ramp := W.Recorded(warm.value.ramp, domain, now)))
  }

  /** A deferral leaves the tenant's record alone. */
  function RepAfter(rep: Option<RepGate>, tenant: string, o: Outcome): Option<RepGate> {
    if rep.None? || o == Deferred then rep
    else
      var stats := rep.value.stats;
      Some(rep.value.(stats := if o == Sent then R.Delivery(stats, tenant) else R.Bounce(stats, tenant)))
  }

  function StoreRemoved(dir: Option<Dir>, id: string, fail: RemoveStep): Option<Dir> {
    if dir.None? then None else Some(Removed(dir.value, id, fail))
  }

  function StoreUpdated(dir: Option<Dir>, it: Queued, fail: WriteStep): Option<Dir> {
    if dir.None? then None else Some(Written(dir.value, it, fail))
  }

  /** The counters that move when a message is handed to the sender. */
  function Dispatching(p: Pass, now: int, q: Queued): Pass {
    p.(perDomain := p.perDomain[q.msg.rcptDomain := CountFor(p.perDomain, q.msg.rcptDomain) + 1],
       warm := WarmRecorded(p.warm, q.msg.fromDomain, now),
       sent := p.sent + [q.msg])
  }

  function Retried(cfg: Config, now: int, q: Queued): Queued {
    q.(attempts := q.attempts + 1, nextAttempt := now + cfg.backoff(q.attempts + 1))
  }

  function DirAfter(cfg: Config, now: int, dir: Option<Dir>, q: Queued, r: Reply, o: Outcome): Option<Dir> {
    if o == Deferred then StoreUpdated(dir, Retried(cfg, now, q), r.write) else StoreRemoved(dir, q.msg.id, r.remove)
  }

  function Settle(cfg: Config, now: int, p: Pass, q: Queued, r: Reply): Pass {
    var o := Disposition(cfg, q, r.status);
    p.(stats := Counted(p.stats, o), trace := p.trace + [o],
       rep := RepAfter(p.rep, q.msg.tenant, o),
       dir := DirAfter(cfg, now, p.dir, q, r, o),
       remaining := if o == Deferred then p.remaining + [Retried(cfg, now, q)] else p.remaining,
       delivered := if o == Sent then p.delivered + [q.msg] else p.delivered,
       bounced := if o == Bounced then p.bounced + [q.msg] else p.bounced)
  }

  function StepItem(cfg: Config, now: int, p: Pass, q: Queued, r: Reply): Pass {
    var hold := HeldBy(cfg, now, p, q);
    if hold.Some? then
      p.(remaining := p.remaining + [q], stats := Counted(p.stats, hold.value), trace := p.trace + [hold.value])
    else Settle(cfg, now, Dispatching(p, now, q), q, r)
  }

  /** The pass after the first k messages of the queue. */
  function After(cfg: Config, now: int, start: Pass, queue: seq<Queued>, replies: seq<Reply>, k: nat): Pass
    requires k <= |queue| <= |replies|
  {
    if k == 0 then start
    else StepItem(cfg, now, After(cfg, now, start, queue, replies, k - 1), queue[k-1], replies[k-1])
  }

  /** The two branches of a step, part by part. */
  lemma StepParts(cfg: Config, now: int, p: Pass, q: Queued, r: Reply)
    ensures var n, hold, o := StepItem(cfg, now, p, q, r), HeldBy(cfg, now, p, q), Disposition(cfg, q, r.status);
      if hold.Some? then
        && (n.warm, n.rep, n.dir, n.perDomain, n.bounced) == (p.warm, p.rep, p.dir, p.perDomain, p.bounced)
        && n.remaining == p.remaining + [q] && n.stats == Counted(p.stats, hold.value)
      else
        && n.warm == WarmRecorded(p.warm, q.msg.fromDomain, now) && n.rep == RepAfter(p.rep, q.msg.tenant, o)
        && n.dir == DirAfter(cfg, now, p.dir, q, r, o)
        && n.perDomain == p.perDomain[q.msg.rcptDomain := CountFor(p.perDomain, q.msg.rcptDomain) + 1]
        && n.bounced == (if o == Bounced then p.bounced + [q.msg] else p.bounced)
        && n.remaining == (if o == Deferred then p.remaining + [Retried(cfg, now, q)] else p.remaining)
        && n.stats == Counted(p.stats, o)
  {
  }

  // ---------------------------------------------------------------- the scheduler

  class Scheduler {
    const cfg: Config
    const warmup: W.WarmupObject?
    const reputation: R.ReputationObject?
    const store: FileQueueObject?
    var queue: seq<Queued>

    ghost function Warm(): Option<WarmGate>
      reads warmup
    {
      if warmup == null then None else Some(WarmGate(warmup.schedule, warmup.St()))
    }

    ghost function Rep(): Option<RepGate>
      reads reputation
    {
      if reputation == null then None else Some(RepGate(reputation.limits, reputation.stats))
    }

    ghost function Store(): Option<Dir>
      reads store
    {
      if store == null then None else Some(store.dir)
    }

    constructor (cfg: Config, warmup: W.WarmupObject?, reputation: R.ReputationObject?, store: FileQueueObject?)
      ensures this.cfg == Defaulted(cfg) && this.warmup == warmup && this.reputation == reputation
        && this.store == store
      ensures queue == [] && this.cfg.maxAttempts > 0 && this.cfg.maxPerDomain > 0
    {
      this.cfg, this.warmup, this.reputation, this.store, this.queue := Defaulted(cfg), warmup, reputation, store, [];
    }

    /** Called once, at startup: the queue becomes what the store holds; an error leaves it alone. */
    method Recover(listed: bool, unreadable: set<string>) returns (ok: bool)
      modifies this`queue
      ensures ok <==> store == null || (listed && forall n :: n in store.dir && IsJson(n) ==> n !in unreadable)
      ensures store == null || !ok ==> queue == old(queue)
      ensures store != null && ok ==> exists items :: Loaded(store.dir, items) && queue == old(queue) + items
    {
      ok := true;
      if store != null {
        var items := store.Load(listed, unreadable);
        if items.None? {
          return false;
        }
        queue := queue + items.value;
      }
    }

    /** The message is durable before it is accepted; freshId is the generated id. */
    method Enqueue(msg: OutMessage, freshId: string, fail: WriteStep) returns (ok: bool)
      modifies this`queue, store
      ensures var m := if msg.id == "" then msg.(id := freshId) else msg;
        && ok == (store == null || WriteReported(Queued(m, 0, 0), fail))
        && Store() == StoreUpdated(old(Store()), Queued(m, 0, 0), fail)
        && queue == if ok then old(queue) + [Queued(m, 0, 0)] else old(queue)
    {
      var m := if msg.id == "" then msg.(id := freshId) else msg;
      if store != null {
        ok := store.WriteItem(Queued(m, 0, 0), fail);
        if !ok {
          return;
        }
      }
      queue := queue + [Queued(m, 0, 0)];
      ok := true;
    }

    method RemoveDurable(id: string, fail: RemoveStep)
      modifies store
      ensures Store() == StoreRemoved(old(Store()), id, fail)
    {
      if store != null {
        var _ := store.Remove(id, fail);
      }
    }

    method UpdateDurable(it: Queued, fail: WriteStep)
      modifies store
      ensures Store() == StoreUpdated(old(Store()), it, fail)
    {
      if store != null {
        var _ := store.WriteItem(it, fail);
      }
    }

    method RecordSend(domain: string, now: int)
      modifies warmup
      ensures Warm() == WarmRecorded(old(Warm()), domain, now)
    {
      if warmup != null {
        warmup.Record(domain, now);
      }
    }

    /** The first gate that holds q, given the per-destination counts of this pass. */
    method FindHold(now: int, perDomain: map<string, nat>, q: Queued) returns (hold: Option<Outcome>)
      ensures hold == HeldBy(cfg, now, Begin(Warm(), Rep(), Store()).(perDomain := perDomain), q)
    {
      if now < q.nextAttempt {
        return Some(Early);
      }
      if reputation != null && R.Throttled(reputation.limits, reputation.stats, q.msg.tenant) {
        return Some(Throttled);
      }
      if warmup != null {
        var allowed := warmup.Allow(q.msg.fromDomain, now);
        if !allowed {
          return Some(WarmupHeld);
        }
      }
      return if CountFor(perDomain, q.msg.rcptDomain) >= cfg.maxPerDomain then Some(RateHeld) else None;
    }

    /** Hands q to the sender and settles the answer. */
    method Dispatch(now: int, q: Queued, r: Reply) returns (o: Outcome, kept: Option<Queued>)
      modifies warmup, reputation, store
      ensures o == Disposition(cfg, q, r.status)
      ensures kept == if o == Deferred then Some(Retried(cfg, now, q)) else None
      ensures Warm() == WarmRecorded(old(Warm()), q.msg.fromDomain, now)
      ensures Rep() == RepAfter(old(Rep()), q.msg.tenant, o)
      ensures Store() == DirAfter(cfg, now, old(Store()), q, r, o)
    {
      kept := None;
      RecordSend(q.msg.fromDomain, now);
      if r.status == Delivered {
        o := Sent;
        if reputation != null {
          reputation.RecordDelivered(q.msg.tenant);
        }
        RemoveDurable(q.msg.id, r.remove);
      } else if r.status == TempFail && q.attempts + 1 < cfg.maxAttempts {
        o := Deferred;
        var again := q.(attempts := q.attempts + 1, nextAttempt := now + cfg.backoff(q.attempts + 1));
        kept := Some(again);
        UpdateDurable(again, r.write);
      } else {
        o := Bounced;
        if reputation != null {
          reputation.RecordBounced(q.msg.tenant);
        }
        RemoveDurable(q.msg.id, r.remove);
      }
    }

    /** One scheduling pass at time now; replies[i] answers the message queued at i. */
    method Tick(now: int, replies: seq<Reply>) returns (st: TickStats, bounces: seq<OutMessage>)
      requires |replies| >= |queue|
      modifies this`queue, warmup, reputation, store
      ensures var p := After(cfg, now, old(Begin(Warm(), Rep(), Store())), old(queue), replies, |old(queue)|);
        && queue == p.remaining && Warm() == p.warm && Rep() == p.rep && Store() == p.dir
        && st == p.stats && bounces == p.bounced
    {
      hide Counted, WarmRecorded, RepAfter, DirAfter, Disposition, IsThrottled, IsAllowed, Retried, StepItem;
      ghost var p := Begin(Warm(), Rep(), Store());
      ghost var start := p;
      var perDomain: map<string, nat> := map[];
      var remaining: seq<Queued> := [];
      bounces, st := [], NO_STATS;
      for i := 0 to |queue|
        modifies warmup, reputation, store
        invariant p == After(cfg, now, start, queue, replies, i)
        invariant Warm() == p.warm && Rep() == p.rep && Store() == p.dir
        invariant perDomain == p.perDomain && remaining == p.remaining && st == p.stats && bounces == p.bounced
      {
        var q, r := queue[i], replies[i];
        var hold := FindHold(now, perDomain, q);
        assert hold == HeldBy(cfg, now, p, q);
        StepParts(cfg, now, p, q, r);
        p := StepItem(cfg, now, p, q, r);
        if hold.Some? {
          st := Counted(st, hold.value);
          remaining := remaining + [q];
        } else {
          perDomain := perDomain[q.msg.rcptDomain := CountFor(perDomain, q.msg.rcptDomain) + 1];
          var o, kept := Dispatch(now, q, r);
          st := Counted(st, o);
          if o == Bounced {
            bounces := bounces + [q.msg];
          }
          if kept.Some? {
            remaining := remaining + [kept.value];
          }
        }
      }
      queue := remaining;
    }
  }
}
