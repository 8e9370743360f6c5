/** services/mtaout, the reputation gate. Rates are exact rationals. */
module Reputation {

  datatype Stat = Stat(delivered: nat, bounced: nat, complaints: nat)

  datatype Limits = Limits(minVolume: int, maxBounceRate: real, maxComplaintRate: real)

  type Stats = map<string, Stat>

  function Get(s: Stats, tenant: string): Stat {
    if tenant in s then s[tenant] else Stat(0, 0, 0)
  }

  function Delivery(s: Stats, tenant: string): Stats {
    s[tenant := Get(s, tenant).(delivered := Get(s, tenant).delivered + 1)]
  }

  function Bounce(s: Stats, tenant: string): Stats {
    s[tenant := Get(s, tenant).(bounced := Get(s, tenant).bounced + 1)]
  }

  function Complaint(s: Stats, tenant: string): Stats {
    s[tenant := Get(s, tenant).(complaints := Get(s, tenant).complaints + 1)]
  }

  /** With no outcome yet the bounce rate is 0/0, which exceeds nothing, and the complaint rate is
      infinite as soon as there is a complaint. */
  predicate Throttled(r: Limits, s: Stats, tenant: string) {
    && tenant in s
    && var st := s[tenant];
       var total := st.delivered + st.bounced;
       && total >= r.minVolume
       && (if total == 0 then st.complaints > 0
           else st.bounced as real / total as real > r.maxBounceRate ||
                st.complaints as real / total as real > r.maxComplaintRate)
  }

  lemma RateGrows(a: nat, b: nat, total: nat)
    requires a <= b && total > 0
    ensures a as real / total as real <= b as real / total as real
  {
  }

  /** A complaint never lifts the gate, and what happens to one tenant never touches another. */
  lemma ComplaintKeepsThrottled(r: Limits, s: Stats, tenant: string, other: string)
    requires Throttled(r, s, tenant)
    ensures Throttled(r, Complaint(s, other), tenant)
  {
    var st := s[tenant];
    if other == tenant && st.delivered + st.bounced > 0 {
      RateGrows(st.complaints, st.complaints + 1, st.delivered + st.bounced);
    }
  }

  class ReputationObject {
    const limits: Limits
    var stats: Stats

    constructor (limits: Limits)
      ensures this.limits == limits && stats == map[]
    {
      this.limits, this.stats := limits, map[];
    }

    method RecordDelivered(tenant: string)
      modifies this
      ensures stats == Delivery(old(stats), tenant)
    {
      stats := Delivery(stats, tenant);
    }

    method RecordBounced(tenant: string)
      modifies this
      ensures stats == Bounce(old(stats), tenant)
    {
      stats := Bounce(stats, tenant);
    }

    /** A feedback-loop complaint; a tenant that was gated stays gated. */
    method RecordComplaint(tenant: string)
      modifies this
      ensures stats == Complaint(old(stats), tenant)
      ensures forall t :: Throttled(limits, old(stats), t) ==> Throttled(limits, stats, t)
    {
      forall t | Throttled(limits, stats, t) { ComplaintKeepsThrottled(limits, stats, t, tenant); }
      stats := Complaint(stats, tenant);
    }
  }
}
