/** Every run of the outbound scheduler: what one pass does to the queue, what runs without a
    crash keep, and what survives when the process dies at any store step. */
module Outbound {
  import opened Model
  import opened FileQueue
  import opened Scheduler
  import W = Warmup
  import R = Reputation

  function Msgs(qs: seq<Queued>): seq<OutMessage> {
    seq(|qs|, i requires 0 <= i < |qs| => qs[i].msg)
  }

  // ---------------------------------------------------------------- one pass

  predicate Dispatched(o: Outcome) {
    o == Sent || o == Deferred || o == Bounced
  }

  /** The messages whose outcome is o. */
  function Pick(qs: seq<Queued>, trace: seq<Outcome>, o: Outcome): seq<OutMessage>
    requires |qs| == |trace|
  {
    if qs == [] then []
    else Pick(qs[..|qs|-1], trace[..|qs|-1], o) + (if trace[|qs|-1] == o then [qs[|qs|-1].msg] else [])
  }

  /** What stays queued, in order: what a gate held, unchanged, and what was deferred. */
  function Staying(cfg: Config, now: int, qs: seq<Queued>, trace: seq<Outcome>): seq<Queued>
    requires |qs| == |trace|
  {
    if qs == [] then []
    else
      var q, o := qs[|qs|-1], trace[|qs|-1];
      Staying(cfg, now, qs[..|qs|-1], trace[..|qs|-1]) +
      (if o == Deferred then [Retried(cfg, now, q)] else if Dispatched(o) then [] else [q])
  }

  /** How many messages for destination d were handed to the sender. */
  function SentTo(qs: seq<Queued>, trace: seq<Outcome>, d: string): nat
    requires |qs| == |trace|
  {
    if qs == [] then 0
    else
      SentTo(qs[..|qs|-1], trace[..|qs|-1], d) +
      (if Dispatched(trace[|qs|-1]) && qs[|qs|-1].msg.rcptDomain == d then 1 else 0)
  }

  /** What one step of the pass does, by its outcome. */
  lemma StepShape(cfg: Config, now: int, p: Pass, q: Queued, r: Reply) returns (o: Outcome)
    ensures var n := StepItem(cfg, now, p, q, r);
      && n.trace == p.trace + [o] && n.stats == Counted(p.stats, o)
      && (o == Early <==> now < q.nextAttempt)
      && (Dispatched(o) ==> o == Disposition(cfg, q, r.status) && now >= q.nextAttempt)
      && (Dispatched(o) ==> !IsThrottled(p.rep, q.msg.tenant) && IsAllowed(p.warm, q.msg.fromDomain, now))
      && (Dispatched(o) ==> CountFor(p.perDomain, q.msg.rcptDomain) < cfg.maxPerDomain)
      && n.remaining == (if o == Deferred then p.remaining + [Retried(cfg, now, q)]
                         else if Dispatched(o) then p.remaining
                         else p.remaining + [q])
      && n.delivered == (if o == Sent then p.delivered + [q.msg] else p.delivered)
      && n.bounced == (if o == Bounced then p.bounced + [q.msg] else p.bounced)
      && n.sent == (if Dispatched(o) then p.sent + [q.msg] else p.sent)
      && n.warm == (if Dispatched(o) then WarmRecorded(p.warm, q.msg.fromDomain, now) else p.warm)
      && n.rep == (if Dispatched(o) then RepAfter(p.rep, q.msg.tenant, o) else p.rep)
      && n.dir == (if Dispatched(o) then DirAfter(cfg, now, p.dir, q, r, o) else p.dir)
      && n.perDomain == (if Dispatched(o)
                         then p.perDomain[q.msg.rcptDomain := CountFor(p.perDomain, q.msg.rcptDomain) + 1]
                         else p.perDomain)
  {
    hide WarmRecorded, RepAfter, DirAfter, Counted, IsThrottled, IsAllowed;
    var hold := HeldBy(cfg, now, p, q);
    o := if hold.Some? then hold.value else Disposition(cfg, q, r.status);
  }

  predicate Passes(cfg: Config, now: int, b: Pass, q: Queued) {
    && now >= q.nextAttempt && !IsThrottled(b.rep, q.msg.tenant) && IsAllowed(b.warm, q.msg.fromDomain, now)
    && CountFor(b.perDomain, q.msg.rcptDomain) < cfg.maxPerDomain
  }

  /** The outcome o of q is the one that the gates, as they stand at b, and the answer call for: each
      outcome occurs if and only if its reason holds and none before it does. */
  ghost predicate Judged(cfg: Config, now: int, b: Pass, q: Queued, r: Reply, o: Outcome) {
    && (o == Early <==> now < q.nextAttempt)
    && (o == Throttled <==> now >= q.nextAttempt && IsThrottled(b.rep, q.msg.tenant))
    && (o == WarmupHeld <==>
          now >= q.nextAttempt && !IsThrottled(b.rep, q.msg.tenant) && !IsAllowed(b.warm, q.msg.fromDomain, now))
    && (o == RateHeld <==>
          && now >= q.nextAttempt && !IsThrottled(b.rep, q.msg.tenant) && IsAllowed(b.warm, q.msg.fromDomain, now)
          && CountFor(b.perDomain, q.msg.rcptDomain) >= cfg.maxPerDomain)
    && (Dispatched(o) <==> Passes(cfg, now, b, q))
    && (o == Sent <==> Passes(cfg, now, b, q) && r.status == Delivered)
    && (o == Deferred <==> Passes(cfg, now, b, q) && r.status == TempFail && q.attempts + 1 < cfg.maxAttempts)
  }

  lemma StepJudged(cfg: Config, now: int, p: Pass, q: Queued, r: Reply)
    ensures var n := StepItem(cfg, now, p, q, r);
      |n.trace| == |p.trace| + 1 && n.trace[..|p.trace|] == p.trace && Judged(cfg, now, p, q, r, n.trace[|p.trace|])
  {
    hide WarmRecorded, RepAfter, DirAfter, Counted, IsThrottled, IsAllowed;
  }

  /** The messages taken so far, sorted by outcome; what stays keeps its order, and the statistics
      count the outcomes. */
  ghost predicate Sorted(cfg: Config, now: int, qs: seq<Queued>, p: Pass) {
    && |p.trace| == |qs|
    && p.remaining == Staying(cfg, now, qs, p.trace)
    && p.delivered == Pick(qs, p.trace, Sent)
    && p.bounced == Pick(qs, p.trace, Bounced)
    && CountsOutcomes(qs, p)
  }

  ghost predicate CountsOutcomes(qs: seq<Queued>, p: Pass) {
    && |p.trace| == |qs|
    && p.stats.delivered == |Pick(qs, p.trace, Sent)| && p.stats.bounced == |Pick(qs, p.trace, Bounced)|
    && p.stats.deferred == |Pick(qs, p.trace, Deferred)| && p.stats.throttled == |Pick(qs, p.trace, Throttled)|
    && p.stats.warmupHeld == |Pick(qs, p.trace, WarmupHeld)| && p.stats.rateHeld == |Pick(qs, p.trace, RateHeld)|
  }

  lemma PickSnoc(qs: seq<Queued>, trace: seq<Outcome>, q: Queued, o: Outcome, of: Outcome)
    requires |qs| == |trace|
    ensures Pick(qs + [q], trace + [o], of) == Pick(qs, trace, of) + (if o == of then [q.msg] else [])
  {
    assert (qs + [q])[..|qs|] == qs && (trace + [o])[..|qs|] == trace;
  }

  ghost predicate Conserved(qs: seq<Queued>, p: Pass) {
    multiset(Msgs(qs)) == multiset(p.delivered) + multiset(p.bounced) + multiset(Msgs(p.remaining))
  }

  ghost predicate DomainsCapped(cfg: Config, qs: seq<Queued>, p: Pass) {
    |p.trace| == |qs| && forall d :: SentTo(qs, p.trace, d) == CountFor(p.perDomain, d) <= cfg.maxPerDomain
  }

  lemma MsgsSnoc(qs: seq<Queued>, q: Queued)
    ensures Msgs(qs + [q]) == Msgs(qs) + [q.msg]
  {
  }

  lemma StepSorted(cfg: Config, now: int, qs: seq<Queued>, p: Pass, q: Queued, r: Reply)
    requires Sorted(cfg, now, qs, p)
    ensures Sorted(cfg, now, qs + [q], StepItem(cfg, now, p, q, r))
  {
    var o := StepShape(cfg, now, p, q, r);
    forall of { PickSnoc(qs, p.trace, q, o, of); }
    StayingSnoc(cfg, now, qs, p.trace, q, o);
    hide StepItem, Disposition, Retried, IsThrottled, IsAllowed, Pick, Staying;
  }

  lemma StayingSnoc(cfg: Config, now: int, qs: seq<Queued>, trace: seq<Outcome>, q: Queued, o: Outcome)
    requires |qs| == |trace|
    ensures Staying(cfg, now, qs + [q], trace + [o]) == Staying(cfg, now, qs, trace) +
      (if o == Deferred then [Retried(cfg, now, q)] else if Dispatched(o) then [] else [q])
  {
    assert (qs + [q])[..|qs|] == qs && (trace + [o])[..|qs|] == trace;
  }

  lemma StepConserved(cfg: Config, now: int, qs: seq<Queued>, p: Pass, q: Queued, r: Reply)
    requires Conserved(qs, p)
    ensures Conserved(qs + [q], StepItem(cfg, now, p, q, r))
  {
    hide StepItem, Disposition, IsThrottled, IsAllowed, Msgs;
    var o := StepShape(cfg, now, p, q, r);
    MsgsSnoc(qs, q);
    MsgsSnoc(p.remaining, q);
    MsgsSnoc(p.remaining, Retried(cfg, now, q));
  }

  lemma StepCapped(cfg: Config, now: int, qs: seq<Queued>, p: Pass, q: Queued, r: Reply)
    requires DomainsCapped(cfg, qs, p)
    ensures DomainsCapped(cfg, qs + [q], StepItem(cfg, now, p, q, r))
  {
    hide StepItem, Disposition, Retried, IsThrottled, IsAllowed;
    var o := StepShape(cfg, now, p, q, r);
    var n, all := StepItem(cfg, now, p, q, r), qs + [q];
    assert all[..|all|-1] == qs && n.trace[..|all|-1] == p.trace;
    forall d
      ensures SentTo(all, n.trace, d) == CountFor(n.perDomain, d) <= cfg.maxPerDomain
    {
      assert SentTo(qs, p.trace, d) == CountFor(p.perDomain, d);
    }
  }

  lemma {:induction false} TickSorts(cfg: Config, now: int, start: Pass, qs: seq<Queued>, replies: seq<Reply>, k: nat)
    requires k <= |qs| <= |replies| && cfg.maxPerDomain > 0
    requires start == Begin(start.warm, start.rep, start.dir)
    ensures var p := After(cfg, now, start, qs, replies, k);
      Sorted(cfg, now, qs[..k], p) && Conserved(qs[..k], p) && DomainsCapped(cfg, qs[..k], p)
  {
    hide StepItem;
    if k > 0 {
      TickSorts(cfg, now, start, qs, replies, k - 1);
      assert qs[..k] == qs[..k-1] + [qs[k-1]];
      var p := After(cfg, now, start, qs, replies, k - 1);
      hide Sorted, Conserved, DomainsCapped;
      StepSorted(cfg, now, qs[..k-1], p, qs[k-1], replies[k-1]);
      StepConserved(cfg, now, qs[..k-1], p, qs[k-1], replies[k-1]);
      StepCapped(cfg, now, qs[..k-1], p, qs[k-1], replies[k-1]);
    }
  }

  /** The pass had dealt with the first i messages when it gave the next one its outcome. */
  ghost predicate JudgedAt(cfg: Config, now: int, start: Pass, qs: seq<Queued>, replies: seq<Reply>,
                           trace: seq<Outcome>, i: nat)
    requires i < |qs| <= |replies| && i < |trace|
  {
    var b := After(cfg, now, start, qs, replies, i);
    b.trace == trace[..i] && Judged(cfg, now, b, qs[i], replies[i], trace[i])
  }

  lemma {:induction false} TickJudges(cfg: Config, now: int, start: Pass, qs: seq<Queued>, replies: seq<Reply>, k: nat)
    requires k <= |qs| <= |replies| && start.trace == []
    ensures var trace := After(cfg, now, start, qs, replies, k).trace;
      |trace| == k && forall i :: 0 <= i < k ==> JudgedAt(cfg, now, start, qs, replies, trace, i)
  {
    if k > 0 {
      var p, n := After(cfg, now, start, qs, replies, k - 1), After(cfg, now, start, qs, replies, k);
      assert n == StepItem(cfg, now, p, qs[k-1], replies[k-1]);
      hide StepItem, After, Judged;
      TickJudges(cfg, now, start, qs, replies, k - 1);
      StepJudged(cfg, now, p, qs[k-1], replies[k-1]);
      forall i | 0 <= i < k
        ensures JudgedAt(cfg, now, start, qs, replies, n.trace, i)
      {
        assert n.trace[..i] == n.trace[..k-1][..i];
        if i < k - 1 {
          assert JudgedAt(cfg, now, start, qs, replies, p.trace, i);
        }
      }
    }
  }

  /** Theorem: a pass splits the old queue exactly into delivered, bounced and remaining, keeps
      the remaining messages in order, holds one back if and only if a gate was against it when its
      turn came, and hands at most maxPerDomain messages to any destination. */
  lemma TickSplits(cfg: Config, now: int, start: Pass, qs: seq<Queued>, replies: seq<Reply>, k: nat)
    requires k <= |qs| <= |replies| && cfg.maxPerDomain > 0
    requires start == Begin(start.warm, start.rep, start.dir)
    ensures var p := After(cfg, now, start, qs, replies, k);
      && Sorted(cfg, now, qs[..k], p) && Conserved(qs[..k], p) && DomainsCapped(cfg, qs[..k], p)
      && forall i :: 0 <= i < k ==> JudgedAt(cfg, now, start, qs, replies, p.trace, i)
  {
    hide Sorted, Conserved, DomainsCapped, After, JudgedAt;
    TickSorts(cfg, now, start, qs, replies, k);
    TickJudges(cfg, now, start, qs, replies, k);
  }

  lemma {:induction false} Picked(qs: seq<Queued>, trace: seq<Outcome>, o: Outcome, m: OutMessage) returns (i: nat)
    requires |qs| == |trace| && m in Pick(qs, trace, o)
    ensures i < |qs| && trace[i] == o && qs[i].msg == m
  {
    i := |qs| - 1;
    if !(trace[i] == o && qs[i].msg == m) {
      i := Picked(qs[..i], trace[..i], o, m);
    }
  }

  lemma StepSends(cfg: Config, now: int, p: Pass, q: Queued, r: Reply)
    ensures var n := StepItem(cfg, now, p, q, r);
      && |n.trace| == |p.trace| + 1 && n.trace[..|p.trace|] == p.trace
      && n.sent == if Dispatched(n.trace[|p.trace|]) then p.sent + [q.msg] else p.sent
  {
    var o := StepShape(cfg, now, p, q, r);
    hide StepItem;
  }

  /** What was dispatched is among what was sent. */
  ghost predicate SentCovers(qs: seq<Queued>, p: Pass) {
    |p.trace| <= |qs| && forall i :: 0 <= i < |p.trace| && Dispatched(p.trace[i]) ==> qs[i].msg in p.sent
  }

  lemma StepCovers(cfg: Config, now: int, qs: seq<Queued>, p: Pass, r: Reply)
    requires SentCovers(qs, p) && |p.trace| < |qs|
    ensures var n := StepItem(cfg, now, p, qs[|p.trace|], r); SentCovers(qs, n) && |n.trace| == |p.trace| + 1
  {
    StepSends(cfg, now, p, qs[|p.trace|], r);
    hide StepItem, Dispatched;
  }

  lemma {:induction false} DispatchedIsSent(cfg: Config, now: int, start: Pass, qs: seq<Queued>, replies: seq<Reply>,
                                            k: nat)
    requires k <= |qs| <= |replies| && start.trace == []
    ensures var p := After(cfg, now, start, qs, replies, k); |p.trace| == k && SentCovers(qs, p)
  {
    if k > 0 {
      var p := After(cfg, now, start, qs, replies, k - 1);
      assert After(cfg, now, start, qs, replies, k) == StepItem(cfg, now, p, qs[k-1], replies[k-1]);
      hide StepItem, After, SentCovers;
      DispatchedIsSent(cfg, now, start, qs, replies, k - 1);
      StepCovers(cfg, now, qs, p, replies[k-1]);
    }
  }

  // ---------------------------------------------------------------- warm-up and reputation

  ghost predicate WarmOk(warm: Option<WarmGate>) {
    warm.Some? ==> W.WithinCaps(warm.value.schedule, warm.value.ramp)
  }

  lemma StepRespectsGates(cfg: Config, now: int, p: Pass, q: Queued, r: Reply, tenant: string)
    requires WarmOk(p.warm)
    ensures var n := StepItem(cfg, now, p, q, r);
      && WarmOk(n.warm)
      && (IsThrottled(p.rep, tenant) ==>
            IsThrottled(n.rep, tenant) && (n.sent == p.sent || (n.sent == p.sent + [q.msg] && q.msg.tenant != tenant)))
  {
    var o := StepShape(cfg, now, p, q, r);
    hide StepItem, Disposition, Retried, W.WithinCaps, R.Throttled;
    if Dispatched(o) && p.warm.Some? {
      W.RecordKeepsCaps(p.warm.value.schedule, p.warm.value.ramp, q.msg.fromDomain, now);
    }
    if Dispatched(o) && IsThrottled(p.rep, tenant) {
      OthersKeepThrottled(p.rep, q.msg.tenant, o, tenant);
    }
  }

  /** A pass keeps every (domain, day) count within its cap, and never hands over a message of a
      tenant that was throttled when it began. */
  lemma {:induction false} TickRespectsGates(cfg: Config, now: int, start: Pass, qs: seq<Queued>, replies: seq<Reply>,
                                             k: nat, tenant: string)
    requires k <= |qs| <= |replies| && WarmOk(start.warm) && start.sent == []
    ensures var p := After(cfg, now, start, qs, replies, k);
      && WarmOk(p.warm)
      && (IsThrottled(start.rep, tenant) ==>
            IsThrottled(p.rep, tenant) && forall m :: m in p.sent ==> m.tenant != tenant)
  {
    if k > 0 {
      var p := After(cfg, now, start, qs, replies, k - 1);
      assert After(cfg, now, start, qs, replies, k) == StepItem(cfg, now, p, qs[k-1], replies[k-1]);
      hide StepItem, After, WarmOk, IsThrottled;
      TickRespectsGates(cfg, now, start, qs, replies, k - 1, tenant);
      StepRespectsGates(cfg, now, p, qs[k-1], replies[k-1], tenant);
    }
  }

  lemma OthersKeepThrottled(rep: Option<RepGate>, other: string, o: Outcome, tenant: string)
    requires IsThrottled(rep, tenant) && other != tenant
    ensures IsThrottled(RepAfter(rep, other, o), tenant)
  {
  }

  /** How many messages of the tenant ended as o. */
  function FromTenant(qs: seq<Queued>, trace: seq<Outcome>, tenant: string, o: Outcome): nat
    requires |qs| == |trace|
  {
    if qs == [] then 0
    else
      FromTenant(qs[..|qs|-1], trace[..|qs|-1], tenant, o) +
      (if trace[|qs|-1] == o && qs[|qs|-1].msg.tenant == tenant then 1 else 0)
  }

  /** How many messages from the domain were handed to the sender. */
  function SentFrom(qs: seq<Queued>, trace: seq<Outcome>, domain: string): nat
    requires |qs| == |trace|
  {
    if qs == [] then 0
    else
      SentFrom(qs[..|qs|-1], trace[..|qs|-1], domain) +
      (if Dispatched(trace[|qs|-1]) && qs[|qs|-1].msg.fromDomain == domain then 1 else 0)
  }

  /** The reputation at p is that at start with every delivery and bounce so far added. */
  ghost predicate RepCounts(start: Pass, qs: seq<Queued>, p: Pass) {
    && |p.trace| == |qs| && (p.rep.Some? <==> start.rep.Some?)
    && (p.rep.Some? ==>
          && p.rep.value.limits == start.rep.value.limits
          && forall t :: R.Get(p.rep.value.stats, t) ==
               var was := R.Get(start.rep.value.stats, t);
               R.Stat(was.delivered + FromTenant(qs, p.trace, t, Sent),
                      was.bounced + FromTenant(qs, p.trace, t, Bounced), was.complaints))
  }

  /** The ramp at p is that at start with every hand-over so far counted under its domain and the
      day that now is for the domain. */
  ghost predicate WarmCounts(now: int, start: Pass, qs: seq<Queued>, p: Pass) {
    && |p.trace| == |qs| && (p.warm.Some? <==> start.warm.Some?)
    && (p.warm.Some? ==>
          && p.warm.value.schedule == start.warm.value.schedule
          && forall domain, day :: UsedAt(p.warm.value, domain, day) ==
               UsedAt(start.warm.value, domain, day) +
               (if day == Today(start.warm.value, domain, now) then SentFrom(qs, p.trace, domain) else 0))
    && (p.warm.Some? ==> forall domain :: Today(p.warm.value, domain, now) == Today(start.warm.value, domain, now))
  }

  function UsedAt(warm: WarmGate, domain: string, day: int): int {
    W.Used(warm.ramp, domain, day)
  }

  function Today(warm: WarmGate, domain: string, now: int): int {
    W.DayIndex(warm.ramp.firstSeen, domain, now)
  }

  lemma RecordCounts(warm: WarmGate, domain: string, now: int)
    ensures var n := WarmRecorded(Some(warm), domain, now).value;
      && n.schedule == warm.schedule
      && (forall d :: Today(n, d, now) == Today(warm, d, now))
      && forall d, day :: UsedAt(n, d, day) ==
           UsedAt(warm, d, day) + (if d == domain && day == Today(warm, d, now) then 1 else 0)
  {
    W.DayAfterRecord(warm.ramp, domain, now);
    var n := WarmRecorded(Some(warm), domain, now).value;
    var today := Today(warm, domain, now);
    forall d
      ensures Today(n, d, now) == Today(warm, d, now)
    {
    }
    hide W.DayIndex, W.Wkey;
    forall d, day
      ensures UsedAt(n, d, day) == UsedAt(warm, d, day) + (if d == domain && day == today then 1 else 0)
    {
      if W.Wkey(d, day) == W.Wkey(domain, today) {
        W.WkeyInjective(d, day, domain, today);
      }
    }
  }

  lemma StepRepCounts(cfg: Config, now: int, start: Pass, qs: seq<Queued>, p: Pass, q: Queued, r: Reply)
    requires RepCounts(start, qs, p)
    ensures RepCounts(start, qs + [q], StepItem(cfg, now, p, q, r))
  {
    hide StepItem, Disposition, Retried, IsThrottled, IsAllowed;
    var o := StepShape(cfg, now, p, q, r);
    var n, all := StepItem(cfg, now, p, q, r), qs + [q];
    assert all[..|all|-1] == qs && n.trace[..|all|-1] == p.trace;
  }

  lemma StepWarmCounts(cfg: Config, now: int, start: Pass, qs: seq<Queued>, p: Pass, q: Queued, r: Reply)
    requires WarmCounts(now, start, qs, p)
    ensures WarmCounts(now, start, qs + [q], StepItem(cfg, now, p, q, r))
  {
    hide StepItem, Disposition, Retried, IsThrottled, IsAllowed;
    var o := StepShape(cfg, now, p, q, r);
    var n, all := StepItem(cfg, now, p, q, r), qs + [q];
    assert all[..|all|-1] == qs && n.trace[..|all|-1] == p.trace;
    if p.warm.Some? {
      RecordCounts(p.warm.value, q.msg.fromDomain, now);
    }
    hide UsedAt, Today, WarmRecorded;
  }

  lemma NothingCounted(now: int, start: Pass)
    requires start.trace == []
    ensures RepCounts(start, [], start) && WarmCounts(now, start, [], start)
  {
    assert forall d :: SentFrom([], [], d) == 0;
  }

  /** Theorem: after a pass each tenant's deliveries and bounces, and each domain's sends of the day,
      are those before it plus what the pass did; no other count moves. */
  lemma {:induction false} TickCounts(cfg: Config, now: int, start: Pass, qs: seq<Queued>, replies: seq<Reply>, k: nat)
    requires k <= |qs| <= |replies| && start.trace == []
    ensures var p := After(cfg, now, start, qs, replies, k);
      RepCounts(start, qs[..k], p) && WarmCounts(now, start, qs[..k], p)
  {
    if k > 0 {
      var p := After(cfg, now, start, qs, replies, k - 1);
      assert After(cfg, now, start, qs, replies, k) == StepItem(cfg, now, p, qs[k-1], replies[k-1]);
      hide StepItem, After, RepCounts, WarmCounts;
      TickCounts(cfg, now, start, qs, replies, k - 1);
      assert qs[..k] == qs[..k-1] + [qs[k-1]];
      StepRepCounts(cfg, now, start, qs[..k-1], p, qs[k-1], replies[k-1]);
      StepWarmCounts(cfg, now, start, qs[..k-1], p, qs[k-1], replies[k-1]);
    } else {
      assert qs[..0] == [];
      NothingCounted(now, start);
    }
  }

  // ---------------------------------------------------------------- attempts

  /** Whether a count that is about `of`, or about every message, includes m. */
  predicate Concerns(of: Option<OutMessage>, m: OutMessage) {
    of == None || of == Some(m)
  }

  /** The attempts that queued messages still have. */
  function Budget(cfg: Config, qs: seq<Queued>, of: Option<OutMessage>): int {
    if qs == [] then 0
    else
      var q := qs[|qs|-1];
      Budget(cfg, qs[..|qs|-1], of) + (if Concerns(of, q.msg) then cfg.maxAttempts - q.attempts else 0)
  }

  function Times(ms: seq<OutMessage>, of: Option<OutMessage>): nat {
    if ms == [] then 0 else Times(ms[..|ms|-1], of) + (if Concerns(of, ms[|ms|-1]) then 1 else 0)
  }

  ghost predicate Retryable(cfg: Config, qs: seq<Queued>) {
    forall q :: q in qs ==> q.attempts < cfg.maxAttempts
  }

  lemma BudgetSnoc(cfg: Config, qs: seq<Queued>, q: Queued, of: Option<OutMessage>)
    ensures Budget(cfg, qs + [q], of) == Budget(cfg, qs, of)
      + (if Concerns(of, q.msg) then cfg.maxAttempts - q.attempts else 0)
  {
    assert (qs + [q])[..|qs|] == qs;
  }

  lemma TimesSnoc(ms: seq<OutMessage>, m: OutMessage, of: Option<OutMessage>)
    ensures Times(ms + [m], of) == Times(ms, of) + (if Concerns(of, m) then 1 else 0)
  {
    assert (ms + [m])[..|ms|] == ms;
  }

  lemma StepSpends(cfg: Config, now: int, p: Pass, q: Queued, r: Reply, of: Option<OutMessage>)
    requires Retryable(cfg, p.remaining) && q.attempts < cfg.maxAttempts
    ensures var n := StepItem(cfg, now, p, q, r);
      && Retryable(cfg, n.remaining)
      && Budget(cfg, n.remaining, of) + Times(n.sent, of) <=
           Budget(cfg, p.remaining, of) + Times(p.sent, of)
             + (if Concerns(of, q.msg) then cfg.maxAttempts - q.attempts else 0)
  {
    var o := StepShape(cfg, now, p, q, r);
    hide StepItem, Budget, Times, IsThrottled, IsAllowed;
    BudgetSnoc(cfg, p.remaining, q, of);
    BudgetSnoc(cfg, p.remaining, Retried(cfg, now, q), of);
    TimesSnoc(p.sent, q.msg, of);
  }

  /** A pass spends at least one attempt of the queue's budget per message it hands over, and
      leaves every queued message an attempt. */
  lemma {:induction false} TickSpendsBudget(cfg: Config, now: int, start: Pass, qs: seq<Queued>, replies: seq<Reply>,
                                            k: nat, of: Option<OutMessage>)
    requires k <= |qs| <= |replies| && Retryable(cfg, qs) && start == Begin(start.warm, start.rep, start.dir)
    ensures var p := After(cfg, now, start, qs, replies, k);
      && Retryable(cfg, p.remaining)
      && Budget(cfg, p.remaining, of) + Times(p.sent, of) <= Budget(cfg, qs[..k], of)
  {
    if k > 0 {
      TickSpendsBudget(cfg, now, start, qs, replies, k - 1, of);
      var p, q := After(cfg, now, start, qs, replies, k - 1), qs[k-1];
      hide StepItem, Budget, Times, Concerns;
      assert qs[..k] == qs[..k-1] + [q] && q in qs;
      BudgetSnoc(cfg, qs[..k-1], q, of);
      StepSpends(cfg, now, p, q, replies[k-1], of);
    } else {
      assert qs[..0] == [];
    }
  }

  // ---------------------------------------------------------------- runs without a crash

  datatype Sched = Sched(queue: seq<Queued>, warm: Option<WarmGate>, rep: Option<RepGate>, dir: Option<Dir>)

  datatype History = History(enqueued: seq<OutMessage>, delivered: seq<OutMessage>, bounced: seq<OutMessage>,
                             sent: seq<OutMessage>)

  datatype Op =
    | Enqueue(m: OutMessage, fail: WriteStep)
    | Tick(now: int, replies: seq<Reply>)
    | Complain(tenant: string)

  function PassOf(cfg: Config, s: Sched, op: Op): Pass
    requires op.Tick? && |op.replies| >= |s.queue|
  {
    After(cfg, op.now, Begin(s.warm, s.rep, s.dir), s.queue, op.replies, |s.queue|)
  }

  predicate Enabled(s: Sched, op: Op) {
    op.Tick? ==> |op.replies| >= |s.queue|
  }

  predicate Accepted(s: Sched, op: Op)
    requires op.Enqueue?
  {
    s.dir.None? || WriteReported(Queued(op.m, 0, 0), op.fail)
  }

  function NextSched(cfg: Config, s: Sched, op: Op): Sched
    requires Enabled(s, op)
  {
    match op
    case Enqueue(m, fail) =>
      s.(dir := StoreUpdated(s.dir, Queued(m, 0, 0), fail),
         queue := if Accepted(s, op) then s.queue + [Queued(m, 0, 0)] else s.queue)
    case Tick(now, replies) =>
      var p := PassOf(cfg, s, op);
      Sched(p.remaining, p.warm, p.rep, p.dir)
    case Complain(tenant) =>
      if s.rep.None? then s
      else s.(rep := Some(s.rep.value.(stats := R.Complaint(s.rep.value.stats, tenant))))
  }

  function NextHistory(cfg: Config, s: Sched, h: History, op: Op): History
    requires Enabled(s, op)
  {
    match op
    case Enqueue(m, fail) => if Accepted(s, op) then h.(enqueued := h.enqueued + [m]) else h
    case Tick(now, replies) =>
      var p := PassOf(cfg, s, op);
      h.(delivered := h.delivered + p.delivered, bounced := h.bounced + p.bounced, sent := h.sent + p.sent)
    case Complain(_) => h
  }

  ghost predicate Run(cfg: Config, states: seq<Sched>, hs: seq<History>, ops: seq<Op>) {
    && |states| == |hs| == |ops| + 1
    && (forall i :: 0 <= i < |ops| ==> Enabled(states[i], ops[i]))
    && (forall i :: 0 <= i < |ops| ==> states[i+1] == NextSched(cfg, states[i], ops[i]))
    && (forall i :: 0 <= i < |ops| ==> hs[i+1] == NextHistory(cfg, states[i], hs[i], ops[i]))
  }

  const NO_HISTORY := History([], [], [], [])

  ghost predicate SchedInv(cfg: Config, s: Sched, h: History) {
    && multiset(h.enqueued) == multiset(h.delivered) + multiset(h.bounced) + multiset(Msgs(s.queue))
    && Retryable(cfg, s.queue)
    && WarmOk(s.warm)
    && forall of :: Times(h.sent, of) + Budget(cfg, s.queue, of) <= cfg.maxAttempts * Times(h.enqueued, of)
  }

  lemma {:induction false} TimesConcat(x: seq<OutMessage>, y: seq<OutMessage>, of: Option<OutMessage>)
    ensures Times(x + y, of) == Times(x, of) + Times(y, of)
  {
    if y == [] {
      assert x + y == x;
    } else {
      assert x + y == (x + y[..|y|-1]) + [y[|y|-1]] && y == y[..|y|-1] + [y[|y|-1]];
      TimesConcat(x, y[..|y|-1], of);
      TimesSnoc(x + y[..|y|-1], y[|y|-1], of);
    }
  }

  lemma TickKeeps(cfg: Config, s: Sched, h: History, op: Op)
    requires cfg.maxPerDomain > 0 && cfg.maxAttempts > 0
    requires SchedInv(cfg, s, h) && op.Tick? && Enabled(s, op)
    ensures SchedInv(cfg, NextSched(cfg, s, op), NextHistory(cfg, s, h, op))
  {
    var start, n := Begin(s.warm, s.rep, s.dir), |s.queue|;
    assert s.queue[..n] == s.queue;
    TickSplits(cfg, op.now, start, s.queue, op.replies, n);
    TickRespectsGates(cfg, op.now, start, s.queue, op.replies, n, "");
    TickSpendsBudget(cfg, op.now, start, s.queue, op.replies, n, None);
    hide After, Sorted, DomainsCapped, Times, Budget, Retryable, WarmOk, Msgs;
    var p := PassOf(cfg, s, op);
    forall of
      ensures Times(h.sent + p.sent, of) + Budget(cfg, p.remaining, of) <= cfg.maxAttempts * Times(h.enqueued, of)
    {
      TickSpendsBudget(cfg, op.now, start, s.queue, op.replies, n, of);
      TimesConcat(h.sent, p.sent, of);
    }
    AllSettled(h, p, s.queue);
  }

  /** A pass moves messages from the queue to those delivered or bounced. */
  lemma AllSettled(h: History, p: Pass, qs: seq<Queued>)
    requires Conserved(qs, p)
    requires multiset(h.enqueued) == multiset(h.delivered) + multiset(h.bounced) + multiset(Msgs(qs))
    ensures multiset(h.enqueued) == multiset(h.delivered + p.delivered) + multiset(h.bounced + p.bounced)
      + multiset(Msgs(p.remaining))
  {
    hide Msgs;
  }

  lemma Distribute(a: int, b: int)
    ensures a * (b + 1) == a * b + a
  {
  }

  lemma EnqueueKeeps(cfg: Config, s: Sched, h: History, op: Op)
    requires cfg.maxAttempts > 0
    requires SchedInv(cfg, s, h) && op.Enqueue?
    ensures SchedInv(cfg, NextSched(cfg, s, op), NextHistory(cfg, s, h, op))
  {
    var q := Queued(op.m, 0, 0);
    MsgsSnoc(s.queue, q);
    assert Retryable(cfg, s.queue + [q]);
    hide Budget, Times, Msgs, WarmOk, Retryable, StoreUpdated, WriteReported;
    if Accepted(s, op) {
      assert multiset(h.enqueued + [op.m]) == multiset(h.enqueued) + multiset{op.m};
      forall of { OneMoreBudget(cfg, s.queue, q, h.enqueued, of); }
    }
  }

  /** Enqueuing a message adds its attempts to the budget. */
  lemma OneMoreBudget(cfg: Config, qs: seq<Queued>, q: Queued, enqueued: seq<OutMessage>, of: Option<OutMessage>)
    requires q.attempts == 0
    ensures Budget(cfg, qs + [q], of) - cfg.maxAttempts * Times(enqueued + [q.msg], of) ==
      Budget(cfg, qs, of) - cfg.maxAttempts * Times(enqueued, of)
  {
    BudgetSnoc(cfg, qs, q, of);
    TimesSnoc(enqueued, q.msg, of);
    Distribute(cfg.maxAttempts, Times(enqueued, of));
  }

  lemma {:induction false} RunKeeps(cfg: Config, states: seq<Sched>, hs: seq<History>, ops: seq<Op>)
    requires cfg.maxPerDomain > 0 && cfg.maxAttempts > 0
    requires Run(cfg, states, hs, ops) && SchedInv(cfg, states[0], hs[0])
    ensures SchedInv(cfg, states[|ops|], hs[|ops|])
  {
    if ops != [] {
      var n := |ops| - 1;
      assert Run(cfg, states[..n+1], hs[..n+1], ops[..n]);
      RunKeeps(cfg, states[..n+1], hs[..n+1], ops[..n]);
      if ops[n].Tick? {
        TickKeeps(cfg, states[n], hs[n], ops[n]);
      } else if ops[n].Enqueue? {
        EnqueueKeeps(cfg, states[n], hs[n], ops[n]);
      }
    }
  }

  /** Theorem: over every run from an empty queue, with clocks of any kind: enqueued messages are
      the delivered, the bounced and the pending ones; no (domain, day) count is above its cap;
      every queued message has an attempt left; no message is handed over more than
      maxAttempts times per time it was enqueued, nor are all of them together. */
  lemma Conservation(cfg: Config, states: seq<Sched>, hs: seq<History>, ops: seq<Op>, m: OutMessage)
    requires cfg.maxPerDomain > 0 && cfg.maxAttempts > 0
    requires Run(cfg, states, hs, ops) && states[0].queue == [] && hs[0] == NO_HISTORY && WarmOk(states[0].warm)
    ensures var s, h := states[|ops|], hs[|ops|];
      && multiset(h.enqueued) == multiset(h.delivered) + multiset(h.bounced) + multiset(Msgs(s.queue))
      && |h.enqueued| == |h.delivered| + |h.bounced| + |s.queue|
      && WarmOk(s.warm)
      && (forall q :: q in s.queue ==> q.attempts < cfg.maxAttempts)
      && multiset(h.sent)[m] <= cfg.maxAttempts * multiset(h.enqueued)[m]
      && |h.sent| <= cfg.maxAttempts * |h.enqueued|
  {
    RunKeeps(cfg, states, hs, ops);
    var s, h := states[|ops|], hs[|ops|];
    assert |multiset(h.enqueued)| == |multiset(h.delivered)| + |multiset(h.bounced)| + |multiset(Msgs(s.queue))|;
    TimesCounts(h.sent, m);
    TimesCounts(h.enqueued, m);
    BudgetIsSpent(cfg, s.queue, None);
    BudgetIsSpent(cfg, s.queue, Some(m));
  }

  lemma {:induction false} TimesCounts(ms: seq<OutMessage>, m: OutMessage)
    ensures Times(ms, Some(m)) == multiset(ms)[m] && Times(ms, None) == |ms|
  {
    if ms != [] {
      assert ms == ms[..|ms|-1] + [ms[|ms|-1]];
      TimesCounts(ms[..|ms|-1], m);
    }
  }

  lemma {:induction false} BudgetIsSpent(cfg: Config, qs: seq<Queued>, of: Option<OutMessage>)
    requires Retryable(cfg, qs)
    ensures Budget(cfg, qs, of) >= 0
  {
    if qs != [] {
      assert qs[|qs|-1] in qs;
      BudgetIsSpent(cfg, qs[..|qs|-1], of);
    }
  }

  /** Theorem: a pass lowers the number of attempts left in the queue by at least the number of
      messages it hands over, so without new messages only finitely many are ever sent. */
  lemma SendsAreFinite(cfg: Config, s: Sched, op: Op)
    requires Retryable(cfg, s.queue) && op.Tick? && Enabled(s, op)
    ensures var p := PassOf(cfg, s, op);
      0 <= Budget(cfg, p.remaining, None) <= Budget(cfg, s.queue, None) - |p.sent|
  {
    var n := |s.queue|;
    assert s.queue[..n] == s.queue;
    TickSpendsBudget(cfg, op.now, Begin(s.warm, s.rep, s.dir), s.queue, op.replies, n, None);
    var p := PassOf(cfg, s, op);
    TimesCounts(p.sent, OutMessage("", "", "", "", ""));
    BudgetIsSpent(cfg, p.remaining, None);
  }

  /** Theorem: once a tenant is throttled it stays throttled, through any further run, and none of
      its messages is handed to the sender again. */
  lemma {:induction false} ThrottledForGood(cfg: Config, states: seq<Sched>, hs: seq<History>, ops: seq<Op>,
                                            tenant: string)
    requires Run(cfg, states, hs, ops) && WarmOk(states[0].warm) && IsThrottled(states[0].rep, tenant)
    ensures IsThrottled(states[|ops|].rep, tenant) && WarmOk(states[|ops|].warm)
    ensures hs[0].sent <= hs[|ops|].sent
    ensures forall i :: |hs[0].sent| <= i < |hs[|ops|].sent| ==> hs[|ops|].sent[i].tenant != tenant
  {
    if ops != [] {
      var n := |ops| - 1;
      assert Run(cfg, states[..n+1], hs[..n+1], ops[..n]);
      ThrottledForGood(cfg, states[..n+1], hs[..n+1], ops[..n], tenant);
      var s, op := states[n], ops[n];
      if op.Tick? {
        TickRespectsGates(cfg, op.now, Begin(s.warm, s.rep, s.dir), s.queue, op.replies, |s.queue|, tenant);
        hide After, R.Throttled, W.WithinCaps;
        var p := PassOf(cfg, s, op);
        assert forall i :: 0 <= i < |p.sent| ==> p.sent[i] in p.sent;
      } else if op.Complain? {
        R.ComplaintKeepsThrottled(s.rep.value.limits, s.rep.value.stats, tenant, op.tenant);
      }
    }
  }
}
