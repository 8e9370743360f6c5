/** internal/abuse: the per-account sliding-window limit on outbound mail, which prunes old send
    times inside the slice that holds them. */
module Abuse {
  import opened Seqs

  datatype Action = Allow | Throttle | Suspend

  /** New's defaults leave all three positive. Times and durations are in nanoseconds. */
  datatype Limits = Limits(window: int, maxPerWindow: int, maxRecipients: int)

  predicate ValidLimits(l: Limits) {
    l.window > 0 && l.maxPerWindow > 0 && l.maxRecipients > 0
  }

  // ---------------------------------------------------------------- what Check does

  /** The times after the cutoff, in order. */
  function Since(times: seq<int>, cutoff: int): seq<int> {
    if times == [] then []
    else Since(times[..|times|-1], cutoff) + (if times[|times|-1] > cutoff then [times[|times|-1]] else [])
  }

  /** One account: the recorded send times and whether it is suspended. */
  datatype Account = Account(sends: seq<int>, suspended: bool)

  function Decide(l: Limits, a: Account, recipients: int, now: int): Action {
    if a.suspended || recipients > l.maxRecipients then Suspend
    else if |Since(a.sends, now - l.window)| >= l.maxPerWindow then Throttle
    else Allow
  }

  function Checked(l: Limits, a: Account, recipients: int, now: int): Account {
    if a.suspended then a
    else if recipients > l.maxRecipients then a.(suspended := true)
    else
      var kept := Since(a.sends, now - l.window);
      a.(sends := if |kept| >= l.maxPerWindow then kept else kept + [now])
  }

  // ---------------------------------------------------------------- every run

  datatype Call = Check(recipients: int, now: int) | Reinstate

  function Next(l: Limits, a: Account, c: Call): Account {
    match c
    case Check(recipients, now) => Checked(l, a, recipients, now)
    case Reinstate => a.(suspended := false)
  }

  function RunOf(l: Limits, calls: seq<Call>): Account {
    if calls == [] then Account([], false) else Next(l, RunOf(l, calls[..|calls|-1]), calls[|calls|-1])
  }

  /** The times at which a run allowed a message. */
  function Allowed(l: Limits, calls: seq<Call>): seq<int> {
    if calls == [] then []
    else
      var before, c := calls[..|calls|-1], calls[|calls|-1];
      Allowed(l, before) + AllowedBy(l, RunOf(l, before), c)
  }

  function AllowedBy(l: Limits, a: Account, c: Call): seq<int> {
    if c.Check? && Decide(l, a, c.recipients, c.now) == Allow then [c.now] else []
  }

  lemma RunSnoc(l: Limits, calls: seq<Call>, c: Call)
    ensures RunOf(l, calls + [c]) == Next(l, RunOf(l, calls), c)
    ensures Allowed(l, calls + [c]) == Allowed(l, calls) + AllowedBy(l, RunOf(l, calls), c)
  {
    hide Next, AllowedBy;
    assert (calls + [c])[..|calls|] == calls;
  }

  /** The clock never goes back between two checks. */
  ghost predicate ClockAdvances(calls: seq<Call>) {
    forall i, j :: 0 <= i < j < |calls| && calls[i].Check? && calls[j].Check? ==> calls[i].now <= calls[j].now
  }

  ghost predicate Ascending(times: seq<int>) {
    forall i, j :: 0 <= i < j < |times| ==> times[i] <= times[j]
  }

  /** Of any n + 1 consecutive times the last is at least a window after the first. */
  ghost predicate Spread(times: seq<int>, n: int, window: int) {
    forall i :: 0 <= n <= i < |times| ==> times[i-n] + window <= times[i]
  }

  /** now is not before any check of the run. */
  ghost predicate NotBefore(calls: seq<Call>, now: int) {
    forall i :: 0 <= i < |calls| && calls[i].Check? ==> calls[i].now <= now
  }

  lemma {:induction false} NoneSince(times: seq<int>, cutoff: int)
    requires forall i :: 0 <= i < |times| ==> times[i] <= cutoff
    ensures Since(times, cutoff) == []
  {
    if times != [] {
      NoneSince(times[..|times|-1], cutoff);
    }
  }

  lemma {:induction false} SinceIsSuffix(times: seq<int>, cutoff: int) returns (k: nat)
    requires Ascending(times)
    ensures k <= |times| && Since(times, cutoff) == times[k..]
    ensures forall i :: 0 <= i < k ==> times[i] <= cutoff
    ensures forall i :: k <= i < |times| ==> times[i] > cutoff
  {
    k := |times|;
    if times == [] || times[|times|-1] <= cutoff {
      NoneSince(times, cutoff);
    } else {
      var init, last := times[..|times|-1], times[|times|-1];
      k := SinceIsSuffix(init, cutoff);
      SinceSnoc(init, last, cutoff, k);
      hide Since, Ascending;
      assert times == init + [last];
    }
  }

  lemma SinceSnoc(init: seq<int>, last: int, cutoff: int, k: nat)
    requires k <= |init| && Since(init, cutoff) == init[k..] && last > cutoff
    ensures Since(init + [last], cutoff) == (init + [last])[k..]
  {
    assert (init + [last])[..|init|] == init;
    hide Since;
    assert (init + [last])[k..] == init[k..] + [last];
  }

  /** At the given time the recorded sends are the latest of all allowed ones, the others being
      at least a window old. */
  ghost predicate Tracks(l: Limits, all: seq<int>, sends: seq<int>, k: nat, clock: int) {
    && k <= |all| && sends == all[k..]
    && Ascending(all) && Spread(all, l.maxPerWindow, l.window)
    && (forall i :: 0 <= i < k ==> all[i] <= clock - l.window)
    && (forall i :: 0 <= i < |all| ==> all[i] <= clock)
  }

  lemma PruneTracks(l: Limits, all: seq<int>, sends: seq<int>, k: nat, clock: int, now: int) returns (j: nat)
    requires ValidLimits(l) && Tracks(l, all, sends, k, clock) && clock <= now
    ensures Tracks(l, all, Since(sends, now - l.window), j, now)
  {
    assert forall i :: 0 <= i < |sends| ==> sends[i] == all[k+i];
    var d := SinceIsSuffix(sends, now - l.window);
    j := k + d;
    assert sends[d..] == all[j..];
    forall i | 0 <= i < j
      ensures all[i] <= now - l.window
    {
      if i >= k {
        assert all[i] == sends[i-k];
      }
    }
  }

  lemma AppendTracks(l: Limits, all: seq<int>, sends: seq<int>, k: nat, now: int)
    requires ValidLimits(l) && Tracks(l, all, sends, k, now) && |sends| < l.maxPerWindow
    ensures Tracks(l, all + [now], sends + [now], k, now)
  {
    assert (all + [now])[k..] == all[k..] + [now];
    var m := l.maxPerWindow;
    assert m <= |all| ==> all[|all|-m] <= now - l.window;
  }

  lemma CheckTracks(l: Limits, all: seq<int>, a: Account, k: nat, c: Call) returns (j: nat)
    requires ValidLimits(l) && c.Check? && Tracks(l, all, a.sends, k, c.now)
    ensures Tracks(l, all + AllowedBy(l, a, c), Next(l, a, c).sends, j, c.now)
  {
    hide Tracks, Since;
    j := k;
    assert all + [] == all;
    if !a.suspended && c.recipients <= l.maxRecipients {
      j := PruneTracks(l, all, a.sends, k, c.now, c.now);
      var kept := Since(a.sends, c.now - l.window);
      if |kept| < l.maxPerWindow {
        AppendTracks(l, all, kept, j, c.now);
      }
    }
  }

  lemma {:induction false} RunTracks(l: Limits, calls: seq<Call>, clock: int) returns (k: nat)
    requires ValidLimits(l) && ClockAdvances(calls) && NotBefore(calls, clock)
    ensures Tracks(l, Allowed(l, calls), RunOf(l, calls).sends, k, clock)
  {
    if calls == [] {
      k := 0;
    } else {
      var before, c := calls[..|calls|-1], calls[|calls|-1];
      assert calls == before + [c];
      assert forall i :: 0 <= i < |before| ==> calls[i] == before[i];
      RunSnoc(l, before, c);
      hide Tracks, RunOf, Allowed, Checked, Decide;
      if c.Check? {
        k := RunTracks(l, before, c.now);
        k := CheckTracks(l, Allowed(l, before), RunOf(l, before), k, c);
        LaterTracks(l, Allowed(l, calls), RunOf(l, calls).sends, k, c.now, clock);
      } else {
        k := RunTracks(l, before, clock);
        assert Allowed(l, before) + [] == Allowed(l, before);
      }
    }
  }

  lemma LaterTracks(l: Limits, all: seq<int>, sends: seq<int>, k: nat, clock: int, later: int)
    requires Tracks(l, all, sends, k, clock) && clock <= later
    ensures Tracks(l, all, sends, k, later)
  {
  }

  /** How many of the times lie after lo and not after hi. */
  function CountIn(times: seq<int>, lo: int, hi: int): nat {
    if times == [] then 0
    else CountIn(times[..|times|-1], lo, hi) + (if lo < times[|times|-1] <= hi then 1 else 0)
  }

  /** In an ascending sequence the times in an interval are consecutive. */
  lemma {:induction false} CountIsBlock(times: seq<int>, lo: int, hi: int) returns (i: nat)
    requires Ascending(times)
    ensures i + CountIn(times, lo, hi) <= |times|
    ensures forall j :: i <= j < i + CountIn(times, lo, hi) ==> lo < times[j] <= hi
    ensures forall j :: i + CountIn(times, lo, hi) <= j < |times| && CountIn(times, lo, hi) > 0 ==> times[j] > hi
  {
    i := 0;
    if times != [] {
      var init, last := times[..|times|-1], times[|times|-1];
      i := CountIsBlock(init, lo, hi);
      assert forall j :: 0 <= j < |init| ==> init[j] == times[j];
      if lo < last <= hi && CountIn(init, lo, hi) == 0 {
        i := |init|;
      }
    }
  }

  /** Theorem: with a clock that never goes back, over every run of Check and Reinstate, an account
      is allowed at most maxPerWindow messages in any half-open interval one window long. */
  lemma WindowLimit(l: Limits, calls: seq<Call>, lo: int)
    requires ValidLimits(l) && ClockAdvances(calls)
    ensures CountIn(Allowed(l, calls), lo, lo + l.window) <= l.maxPerWindow
    ensures CountIn(Allowed(l, calls), lo - 1, lo + l.window - 1) <= l.maxPerWindow
  {
    hide Allowed, RunOf;
    var clock := LatestCheck(calls);
    var k := RunTracks(l, calls, clock);
    BlockFits(l, Allowed(l, calls), lo);
    BlockFits(l, Allowed(l, calls), lo - 1);
  }

  lemma {:induction false} LatestCheck(calls: seq<Call>) returns (clock: int)
    ensures NotBefore(calls, clock)
  {
    clock := 0;
    if calls != [] {
      var last := calls[|calls|-1];
      clock := LatestCheck(calls[..|calls|-1]);
      if last.Check? && last.now > clock {
        clock := last.now;
      }
    }
  }

  lemma BlockFits(l: Limits, times: seq<int>, lo: int)
    requires ValidLimits(l) && Ascending(times) && Spread(times, l.maxPerWindow, l.window)
    ensures CountIn(times, lo, lo + l.window) <= l.maxPerWindow
  {
    var i := CountIsBlock(times, lo, lo + l.window);
    var m := l.maxPerWindow;
    assert i + m < |times| ==> times[i + m - m] + l.window <= times[i + m];
  }

  /** Theorem: a closed interval one window long holds at most twice the limit. */
  lemma ClosedIntervalBound(l: Limits, calls: seq<Call>, lo: int)
    requires ValidLimits(l) && ClockAdvances(calls)
    ensures CountIn(Allowed(l, calls), lo - 1, lo + l.window) <= 2 * l.maxPerWindow
  {
    hide Allowed;
    WindowLimit(l, calls, lo);
    WindowLimit(l, calls, lo - l.window);
    CountSplits(Allowed(l, calls), lo - 1, lo, lo + l.window);
    CountSplits(Allowed(l, calls), lo - l.window, lo - 1, lo);
  }

  lemma {:induction false} CountSplits(times: seq<int>, lo: int, mid: int, hi: int)
    requires lo <= mid <= hi
    ensures CountIn(times, lo, hi) == CountIn(times, lo, mid) + CountIn(times, mid, hi)
  {
    if times != [] {
      CountSplits(times[..|times|-1], lo, mid, hi);
    }
  }

  /** n submissions at time t. */
  function Burst(n: nat, t: int): seq<Call> {
    if n == 0 then [] else Burst(n - 1, t) + [Check(1, t)]
  }

  function Repeated(n: nat, t: int): (r: seq<int>)
    ensures |r| == n
  {
    if n == 0 then [] else Repeated(n - 1, t) + [t]
  }

  lemma {:induction false} RepeatedAt(n: nat, t: int)
    ensures forall i :: 0 <= i < n ==> Repeated(n, t)[i] == t
  {
    if n > 0 {
      RepeatedAt(n - 1, t);
    }
  }

  lemma {:induction false} SinceRepeated(n: nat, t: int, cutoff: int)
    ensures Since(Repeated(n, t), cutoff) == if cutoff < t then Repeated(n, t) else []
  {
    if cutoff < t {
      if n > 0 {
        SinceRepeated(n - 1, t, cutoff);
        SinceSnoc(Repeated(n - 1, t), t, cutoff, 0);
      }
    } else {
      RepeatedAt(n, t);
      NoneSince(Repeated(n, t), cutoff);
    }
  }

  lemma BurstStep(l: Limits, n: nat, t: int)
    requires ValidLimits(l) && n < l.maxPerWindow
    ensures Next(l, Account(Repeated(n, t), false), Check(1, t)) == Account(Repeated(n, t) + [t], false)
    ensures AllowedBy(l, Account(Repeated(n, t), false), Check(1, t)) == [t]
  {
    SinceRepeated(n, t, t - l.window);
    hide Since, Repeated;
  }

  lemma FirstStep(l: Limits, a: Account, t: int)
    requires ValidLimits(l) && !a.suspended && Since(a.sends, t - l.window) == []
    ensures Next(l, a, Check(1, t)) == Account([t], false) && AllowedBy(l, a, Check(1, t)) == [t]
  {
    hide Since;
  }

  lemma BurstSnoc(n: nat, t: int)
    ensures Burst(n + 1, t) == Burst(n, t) + [Check(1, t)] && Repeated(n + 1, t) == Repeated(n, t) + [t]
    ensures Burst(1, t) == [Check(1, t)] && Repeated(1, t) == [t]
  {
    assert Burst(0, t) == [] && Repeated(0, t) == [];
  }

  /** From an account whose sends are all too old, a burst is allowed in full. */
  lemma {:induction false} BurstAllowed(l: Limits, calls: seq<Call>, n: nat, t: int)
    requires ValidLimits(l) && 0 < n <= l.maxPerWindow
    requires !RunOf(l, calls).suspended && Since(RunOf(l, calls).sends, t - l.window) == []
    ensures RunOf(l, calls + Burst(n, t)) == Account(Repeated(n, t), false)
    ensures Allowed(l, calls + Burst(n, t)) == Allowed(l, calls) + Repeated(n, t)
  {
    BurstSnoc(n - 1, t);
    hide RunOf, Allowed, Next, AllowedBy, Since, Burst, Repeated;
    if n == 1 {
      FirstStep(l, RunOf(l, calls), t);
      RunSnoc(l, calls, Check(1, t));
    } else {
      var before := calls + Burst(n - 1, t);
      Assoc(calls, Burst(n - 1, t), [Check(1, t)]);
      Assoc(Allowed(l, calls), Repeated(n - 1, t), [t]);
      BurstAllowed(l, calls, n - 1, t);
      BurstStep(l, n - 1, t);
      RunSnoc(l, before, Check(1, t));
    }
  }

  lemma {:induction false} CountRepeated(x: seq<int>, n: nat, t: int, lo: int, hi: int)
    ensures CountIn(x + Repeated(n, t), lo, hi) == CountIn(x, lo, hi) + (if lo < t <= hi then n else 0)
  {
    if n == 0 {
      assert x + [] == x;
    } else {
      var all := x + Repeated(n, t);
      assert all[..|all|-1] == x + Repeated(n - 1, t) && all[|all|-1] == t;
      CountRepeated(x, n - 1, t, lo, hi);
    }
  }

  function TwoBursts(l: Limits): seq<Call>
    requires ValidLimits(l)
  {
    Burst(l.maxPerWindow, 0) + Burst(l.maxPerWindow, l.window)
  }

  lemma {:induction false} BurstChecks(n: nat, t: int)
    ensures |Burst(n, t)| == n && forall i :: 0 <= i < n ==> Burst(n, t)[i] == Check(1, t)
  {
    if n > 0 {
      BurstChecks(n - 1, t);
    }
  }

  lemma CountNone(lo: int, hi: int)
    ensures CountIn([], lo, hi) == 0
  {
  }

  lemma TwoBurstsAdvance(l: Limits)
    requires ValidLimits(l)
    ensures ClockAdvances(TwoBursts(l))
  {
    BurstChecks(l.maxPerWindow, 0);
    BurstChecks(l.maxPerWindow, l.window);
    hide Burst;
  }

  lemma TwoBurstsAllowed(l: Limits)
    requires ValidLimits(l)
    ensures Allowed(l, TwoBursts(l)) == Repeated(l.maxPerWindow, 0) + Repeated(l.maxPerWindow, l.window)
  {
    var n := l.maxPerWindow;
    assert RunOf(l, []) == Account([], false) && Allowed(l, []) == [] && Since([], -l.window) == [];
    hide RunOf, Allowed, Burst, Repeated, Since;
    assert [] + Burst(n, 0) == Burst(n, 0) && [] + Repeated(n, 0) == Repeated(n, 0);
    BurstAllowed(l, [], n, 0);
    SinceRepeated(n, 0, 0);
    BurstAllowed(l, Burst(n, 0), n, l.window);
  }

  /** Theorem: and it can hold that many, for every limit: maxPerWindow sends at time 0 and as many
      at time `window`, when all the old ones are pruned at once. */
  lemma ClosedIntervalHoldsTwice(l: Limits)
    requires ValidLimits(l)
    ensures ClockAdvances(TwoBursts(l))
    ensures Allowed(l, TwoBursts(l)) == Repeated(l.maxPerWindow, 0) + Repeated(l.maxPerWindow, l.window)
    ensures CountIn(Allowed(l, TwoBursts(l)), -1, l.window) == 2 * l.maxPerWindow
  {
    TwoBurstsAdvance(l);
    TwoBurstsAllowed(l);
    hide Allowed, ClockAdvances, TwoBursts, Repeated, CountIn;
    CountRepeated([], l.maxPerWindow, 0, -1, l.window);
    CountNone(-1, l.window);
    assert [] + Repeated(l.maxPerWindow, 0) == Repeated(l.maxPerWindow, 0);
    CountRepeated(Repeated(l.maxPerWindow, 0), l.maxPerWindow, l.window, -1, l.window);
  }

  // ---------------------------------------------------------------- the filter

  /** A Go slice: its backing array and how much of it is in use. */
  datatype Slice = Slice(a: array<int>, len: nat)

  /** Keeps the times after the cutoff, moving them to the front of the same array. */
  method Prune(a: array<int>, n: nat, cutoff: int) returns (k: nat)
    requires n <= a.Length
    modifies a
    ensures k <= n && a[..k] == Since(old(a[..n]), cutoff)
  {
    k := 0;
    ghost var was := a[..n];
    for i := 0 to n
      invariant k <= i && a[..k] == Since(was[..i], cutoff)
      invariant forall j :: i <= j < n ==> a[j] == was[j]
    {
      var t := a[i];
      assert was[..i+1][..i] == was[..i];
      if t > cutoff {
        a[k] := t;
        assert a[..k+1] == a[..k] + [t];
        k := k + 1;
      }
    }
    assert was[..n] == was;
  }

  /** append: in place when there is room, into a larger array when there is none. */
  method Append(s: Slice, t: int) returns (r: Slice)
    requires s.len <= s.a.Length
    modifies s.a
    ensures r.len == s.len + 1 <= r.a.Length && r.a[..r.len] == old(s.a[..s.len]) + [t]
    ensures r.a == s.a || fresh(r.a)
  {
    if s.len < s.a.Length {
      s.a[s.len] := t;
      r := Slice(s.a, s.len + 1);
    } else {
      var b := new int[2 * s.len + 1];
      forall i | 0 <= i < s.len { b[i] := s.a[i]; }
      b[s.len] := t;
      r := Slice(b, s.len + 1);
      assert b[..s.len] == s.a[..s.len];
      assert b[..s.len+1] == b[..s.len] + [t];
    }
  }

  class Filter {
    const limits: Limits
    var sends: map<string, Slice>
    var suspended: set<string>

    ghost function Arrays(): set<object>
      reads this
    {
      set x | x in sends :: sends[x].a
    }

    /** No two accounts share a backing array. */
    ghost predicate Valid()
      reads this
    {
      && ValidLimits(limits)
      && (forall x :: x in sends ==> sends[x].len <= sends[x].a.Length)
      && (forall x, y :: x in sends && y in sends && x != y ==> sends[x].a != sends[y].a)
    }

    ghost function Of(account: string): Account
      requires Valid()
      reads this, Arrays()
    {
      Account(if account in sends then sends[account].a[..sends[account].len] else [], account in suspended)
    }

    constructor (limits: Limits)
      requires ValidLimits(limits)
      ensures Valid() && this.limits == limits && sends == map[] && suspended == {}
    {
      this.limits, sends, suspended := limits, map[], {};
    }

    /** Drops the account's old times in place and leaves every other account alone. */
    method PruneAccount(account: string, cutoff: int)
      requires Valid()
      modifies this`sends, Arrays()
      ensures Valid() && fresh(Arrays() - old(Arrays())) && account in sends
      ensures Of(account) == old(Of(account)).(sends := Since(old(Of(account)).sends, cutoff))
      ensures forall x :: x != account ==> Of(x) == old(Of(x))
    {
      if account !in sends {
        var none := new int[0];
        sends := sends[account := Slice(none, 0)];
      } else {
        var s := sends[account];
        var k := Prune(s.a, s.len, cutoff);
        sends := sends[account := Slice(s.a, k)];
      }
    }

    method Record(account: string, now: int)
      requires Valid() && account in sends
      modifies this`sends, Arrays()
      ensures Valid() && fresh(Arrays() - old(Arrays()))
      ensures Of(account) == old(Of(account)).(sends := old(Of(account)).sends + [now])
      ensures forall x :: x != account ==> Of(x) == old(Of(x))
    {
      var r := Append(sends[account], now);
      sends := sends[account := r];
    }

    method Check(account: string, recipients: int, now: int) returns (act: Action)
      requires Valid()
      modifies this, Arrays()
      ensures Valid() && fresh(Arrays() - old(Arrays()))
      ensures act == Decide(limits, old(Of(account)), recipients, now)
      ensures Of(account) == Checked(limits, old(Of(account)), recipients, now)
      ensures forall x :: x != account ==> Of(x) == old(Of(x))
    {
      if account in suspended {
        return Suspend;
      }
      if recipients > limits.maxRecipients {
        suspended := suspended + {account};
        return Suspend;
      }
      PruneAccount(account, now - limits.window);
      assert Of(account).sends == sends[account].a[..sends[account].len];
      if sends[account].len >= limits.maxPerWindow {
        return Throttle;
      }
      Record(account, now);
      act := Allow;
    }

    method ReinstateAccount(account: string)
      requires Valid()
      modifies this`suspended
      ensures Valid() && Of(account) == Next(limits, old(Of(account)), Reinstate)
      ensures forall x :: x != account ==> Of(x) == old(Of(x))
    {
      suspended := suspended - {account};
    }
  }
}
