/** What the edges see of an account that a runtime has written: the log it leaves, whole or cut by a
    compaction, folded by the UID view and by the mail archive. */
module Reachable {
  import opened Model
  import opened Seqs
  import opened EventLog
  import opened Runtime
  import opened Agreement
  import P = Projection
  import U = UidView
  import Session

  // ------------------------------------------------------------ logs with fresh ids

  /** Every generated id is new to the account. */
  ghost predicate FreshArrivals(states: seq<Sys>, ops: seq<Op>)
    requires |states| == |ops| + 1
  {
    forall i :: 0 <= i < |ops| ==> FreshArrival(states[i], ops[i])
  }

  predicate FreshArrival(s: Sys, op: Op) {
    op.Ingest? ==> op.a.freshId !in Mentioned(s.acked)
  }

  lemma FreshIngestsSnoc(events: seq<Event>, e: Event)
    requires FreshIngests(events) && (e.MessageIngested? ==> e.messageId !in Mentioned(events))
    ensures FreshIngests(events + [e])
  {
    var all := events + [e];
    forall i | 0 <= i < |all| && all[i].MessageIngested?
      ensures all[i].messageId !in Mentioned(all[..i])
    {
      assert all[..i] == events[..i];
      assert events[..|events|] == events;
    }
  }

  lemma NextWritesFresh(s: Sys, op: Op, t: Sys)
    requires FreshIngests(s.acked) && FreshArrival(s, op) && Next(s, op, t)
    ensures FreshIngests(t.acked)
  {
    hide FreshIngests, Opened, OpenedProjection, Saved;
    match op
    case Ingest(a, _) =>
      if t.acked != s.acked {
        FreshIngestsSnoc(s.acked, t.acked[|s.acked|]);
      }
    case Mutate(e, _) => FreshIngestsSnoc(s.acked, e);
    case _ =>
  }

  /** Every run whose generated ids are new writes a log whose ingests use fresh ids. */
  lemma {:induction false} RunWritesFresh(states: seq<Sys>, ops: seq<Op>)
    requires Run(states, ops) && FreshArrivals(states, ops) && FreshIngests(states[0].acked)
    ensures FreshIngests(states[|ops|].acked)
  {
    hide Next, FreshIngests, FreshArrival;
    if ops != [] {
      var n := |ops| - 1;
      assert Run(states[..n+1], ops[..n]) && FreshArrivals(states[..n+1], ops[..n]);
      RunWritesFresh(states[..n+1], ops[..n]);
      NextWritesFresh(states[n], ops[n], states[n+1]);
    }
  }

  lemma {:induction false} PrefixMentioned(events: seq<Event>, k: nat)
    requires k <= |events|
    ensures Mentioned(events[..k]) <= Mentioned(events)
    decreases |events|
  {
    if k == |events| {
      assert events[..k] == events;
    } else {
      assert events[..|events|-1][..k] == events[..k];
      PrefixMentioned(events[..|events|-1], k);
    }
  }

  lemma {:induction false} SuffixMentioned(events: seq<Event>, k: nat)
    requires k <= |events|
    ensures Mentioned(events[k..]) <= Mentioned(events)
    decreases |events|
  {
    if k < |events| {
      var init := events[..|events|-1];
      assert events[k..][..|events|-k-1] == init[k..];
      SuffixMentioned(init, k);
    }
  }

  lemma FreshPrefix(events: seq<Event>)
    requires FreshIngests(events) && events != []
    ensures FreshIngests(events[..|events|-1])
    ensures events[|events|-1].MessageIngested? ==> events[|events|-1].messageId !in Mentioned(events[..|events|-1])
  {
    var init := events[..|events|-1];
    forall i | 0 <= i < |init| && init[i].MessageIngested?
      ensures init[i].messageId !in Mentioned(init[..i])
    {
      assert init[..i] == events[..i] && init[i] == events[i];
    }
  }

  /** One event more, for all the folds. */
  lemma FoldsSnoc(events: seq<Event>)
    requires events != []
    ensures var init, last := events[..|events|-1], events[|events|-1];
      FoldEvents(events).messages == P.ApplyEvent(FoldEvents(init), last).messages
        && U.View(events) == U.Applied(U.View(init), last)
  {
    var init, last := events[..|events|-1], events[|events|-1];
    assert events == init + [last];
    FoldEventsSnoc(init, last);
    FoldSeqNo(init);
  }

  // ------------------------------------------------------------ the view of a cut log

  /** e settles whether message id has a slot in mailbox l. */
  predicate Touches(e: Event, id: Id, l: LabelId) {
    e == Labeled(id, l) || e == Unlabeled(id, l) || e == LabelDeleted(l) || e == MessageExpunged(id)
  }

  predicate Touched(events: seq<Event>, id: Id, l: LabelId) {
    events != [] && (Touches(events[|events|-1], id, l) || Touched(events[..|events|-1], id, l))
  }

  /** How the view v of the events after a cut relates to the messages at the cut and now. */
  ghost predicate CutOk(cut: map<Id, Message>, now: map<Id, Message>, v: U.Boxes, touched: bool, id: Id, l: LabelId) {
    && (id in now ==> (l in now[id].labels <==> InBox(v, l, id) || (id in cut && l in cut[id].labels && !touched)))
    && (id in cut && InBox(v, l, id) ==> touched)
    && (id in cut && id !in now ==> touched)
  }

  lemma CutStep(cut: map<Id, Message>, a: P.State, v: U.Boxes, touched: bool, e: Event, id: Id, l: LabelId)
    requires CutOk(cut, a.messages, v, touched, id, l)
    requires e.MessageIngested? && e.messageId == id ==> id !in a.messages && id !in cut && !InBox(v, l, id)
    ensures CutOk(cut, P.ApplyEvent(a, e).messages, U.Applied(v, e), touched || Touches(e, id, l), id, l)
  {
    AppliedBoxes(v, e);
    AppliedLabels(a, e, id);
    hide P.ApplyEvent, U.Applied, InBox;
  }

  lemma {:induction false} CutInvariant(events: seq<Event>, k: nat, id: Id, l: LabelId)
    requires FreshIngests(events) && k <= |events|
    ensures CutOk(FoldEvents(events[..k]).messages, FoldEvents(events).messages, U.View(events[k..]),
                  Touched(events[k..], id, l), id, l)
    decreases |events|
  {
    if k == |events| {
      assert events[..k] == events && events[k..] == [];
    } else {
      var init, last := events[..|events|-1], events[|events|-1];
      assert init[..k] == events[..k] && events[k..][..|events|-k-1] == init[k..];
      assert Touched(events[k..], id, l) == (Touched(init[k..], id, l) || Touches(last, id, l));
      hide FoldEvents, U.View, U.Applied, P.ApplyEvent, CutOk, InBox, Touched, Touches, FreshIngests, Mentioned;
      FreshPrefix(events);
      CutInvariant(init, k, id, l);
      FoldsSnoc(events);
      FoldsSnoc(events[k..]);
      NotMentionedBefore(init, k, id, l);
      CutStep(FoldEvents(events[..k]).messages, FoldEvents(init), U.View(init[k..]), Touched(init[k..], id, l),
              last, id, l);
    }
  }

  lemma NotMentionedBefore(events: seq<Event>, k: nat, id: Id, l: LabelId)
    requires k <= |events|
    ensures id !in Mentioned(events) ==>
      id !in FoldEvents(events).messages && id !in FoldEvents(events[..k]).messages
        && !InBox(U.View(events[k..]), l, id)
  {
    hide FoldEvents, U.View, InBox, Mentioned;
    OnlyMentioned(events);
    OnlyMentioned(events[..k]);
    OnlyMentioned(events[k..]);
    PrefixMentioned(events, k);
    SuffixMentioned(events, k);
  }

  /** Every message that carried l at the cut has had its slot settled by the events since. */
  ghost predicate Settled(events: seq<Event>, k: nat, l: LabelId)
    requires k <= |events|
  {
    var cut := FoldEvents(events[..k]).messages;
    forall id :: id in cut && l in cut[id].labels ==> Touched(events[k..], id, l)
  }

  /** Theorem: the UID view of a log cut at k agrees with the account if and only if every label that
      a message carried at the cut has been settled since: given again, taken away, deleted, or the
      message expunged. */
  lemma CutLogAgrees(events: seq<Event>, k: nat)
    requires FreshIngests(events) && k <= |events|
    ensures Agree(FoldEvents(events).messages, U.View(events[k..])) <==> forall l :: Settled(events, k, l)
  {
    var cut, now, v := FoldEvents(events[..k]).messages, FoldEvents(events).messages, U.View(events[k..]);
    forall id, l { CutInvariant(events, k, id, l); }
    hide FoldEvents, U.View, InBox, Touched, FreshIngests;
    if l :| !Settled(events, k, l) {
      var id :| id in cut && l in cut[id].labels && !Touched(events[k..], id, l);
      assert CutOk(cut, now, v, Touched(events[k..], id, l), id, l);
      assert id in now && l in now[id].labels && !InBox(v, l, id);
    } else {
      forall id, l | id in now
        ensures InBox(v, l, id) <==> l in now[id].labels
      {
        assert Settled(events, k, l) && CutOk(cut, now, v, Touched(events[k..], id, l), id, l);
      }
    }
  }

  function Selected(messages: map<Id, Message>, v: U.Boxes, l: LabelId): seq<Id> {
    Session.Ids(Session.Selection(messages, U.BoxOf(v, l).order))
  }

  /** What SELECT lists, whatever the view. */
  lemma SelectedSpec(messages: map<Id, Message>, v: U.Boxes, l: LabelId)
    requires U.SlotsOk(U.BoxOf(v, l))
    ensures Distinct(Selected(messages, v, l))
    ensures forall id :: id in Selected(messages, v, l) <==> id in messages && InBox(v, l, id)
  {
    var box := U.BoxOf(v, l);
    Session.SelectionSpec(messages, box.order);
    forall id
      ensures id in Selected(messages, v, l) <==> id in messages && InBox(v, l, id)
    {
      if InBox(v, l, id) {
        assert U.Entry(box.byMsg[id], id) in box.order;
      }
    }
  }

  lemma CountsAsSets(some: seq<Id>, all: seq<Id>)
    requires Distinct(some) && Distinct(all) && forall id :: id in some ==> id in all
    ensures |some| <= |all|
    ensures |some| == |all| <==> forall id :: id in all ==> id in some
  {
    var s, a := set id | id in some, set id | id in all;
    DistinctLength(some, s);
    DistinctLength(all, a);
    assert s <= a;
    SubsetCount(s, a);
  }

  lemma SubsetCount(s: set<Id>, a: set<Id>)
    requires s <= a
    ensures |s| <= |a| && (|s| == |a| <==> s == a)
  {
    assert a == s + (a - s);
  }

  /** Theorem: SELECT over a log cut at k never lists a message that STATUS does not count, and counts
      as many if and only if every message that carried the label at the cut has been settled. */
  lemma SelectOfCutLog(events: seq<Event>, k: nat, l: LabelId)
    requires FreshIngests(events) && k <= |events|
    ensures var a := FoldEvents(events);
      var selected, counted := Selected(a.messages, U.View(events[k..]), l), P.WithLabel(a, l);
      && (forall id :: id in selected ==> id in counted)
      && |selected| <= |counted| && (|selected| == |counted| <==> Settled(events, k, l))
  {
    var a, v := FoldEvents(events), U.View(events[k..]);
    var cut, now := FoldEvents(events[..k]).messages, a.messages;
    var selected, counted := Selected(now, v, l), P.WithLabel(a, l);
    forall id { CutInvariant(events, k, id, l); }
    U.SlotsAlwaysOk(events[k..], l);
    P.FoldConsistent(Numbered(events));
    P.CarryingSpec(now, l, a.order);
    hide FoldEvents, U.View, U.SlotsOk, InBox, Touched, FreshIngests, Selected;
    SelectedSpec(now, v, l);
    forall id
      ensures id in counted <==> id in selected || (id in cut && l in cut[id].labels && !Touched(events[k..], id, l))
    {
      assert CutOk(cut, now, v, Touched(events[k..], id, l), id, l);
    }
    CountsAsSets(selected, counted);
    forall id | id in cut && l in cut[id].labels && !Touched(events[k..], id, l)
      ensures id in counted && id !in selected
    {
      assert CutOk(cut, now, v, Touched(events[k..], id, l), id, l);
    }
  }

  // ------------------------------------------------------------ the log of a reachable process

  function EventsOf(recs: seq<Record>): seq<Event> {
    seq(|recs|, i requires 0 <= i < |recs| => recs[i].event)
  }

  lemma RecordsAreTail(d: Disk<P.Snapshot>, events: seq<Event>)
    requires Persisted(d, events)
    ensures Since(ReadAll(d), 1) == ReadAll(d) && EventsOf(ReadAll(d)) == events[|events| - |ReadAll(d)|..]
  {
    hide FoldEvents;
    SinceAll(ReadAll(d));
  }

  lemma {:induction false} NothingCut(states: seq<Sys>, ops: seq<Op>)
    requires Run(states, ops) && states[0].disk.snap.None?
    requires forall i :: 0 <= i < |ops| ==> !ops[i].Compact?
    ensures states[|ops|].disk.snap.None?
  {
    if ops != [] {
      var n := |ops| - 1;
      assert Run(states[..n+1], ops[..n]);
      NothingCut(states[..n+1], ops[..n]);
      assert Next(states[n], ops[n], states[n+1]);
      hide OpenedProjection, Saved, P.Step, Run;
    }
  }

  /** SELECT over the records of the log lists only messages that STATUS counts, and counts as many
      if and only if those records settle every message that carried the label at the cut. */
  ghost predicate SelectsWithin(a: P.State, records: seq<Record>, history: seq<Event>, l: LabelId) {
    var selected, counted := Selected(a.messages, U.View(EventsOf(records)), l), P.WithLabel(a, l);
    && |records| <= |history|
    && (forall id :: id in selected ==> id in counted)
    && (|selected| == |counted| <==> Settled(history, |history| - |records|, l))
  }

  predicate SelectsAll(a: P.State, records: seq<Record>, l: LabelId) {
    |Selected(a.messages, U.View(EventsOf(records)), l)| == |P.WithLabel(a, l)|
  }

  lemma SelectOfDisk(d: Disk<P.Snapshot>, events: seq<Event>, l: LabelId)
    requires Persisted(d, events) && FreshIngests(events)
    ensures Since(ReadAll(d), 1) == ReadAll(d) && SelectsWithin(FoldEvents(events), ReadAll(d), events, l)
    ensures |ReadAll(d)| == |events| ==> SelectsAll(FoldEvents(events), ReadAll(d), l)
  {
    hide FoldEvents, FreshIngests, Settled, Selected, Since, P.WithLabel, U.View;
    RecordsAreTail(d, events);
    SelectOfCutLog(events, |events| - |ReadAll(d)|, l);
    SettledFromStart(events, l);
  }

  /** Theorem: so it is in every process that a run from nothing with new ids leads to; and when no
      compaction was ever tried, SELECT and STATUS always count alike. */
  lemma SelectOfProcess(states: seq<Sys>, ops: seq<Op>, l: LabelId)
    requires Run(states, ops) && Recovers(states, ops) && states[0] == NEW_ACCOUNT && FreshArrivals(states, ops)
    requires states[|ops|].mem.Some?
    ensures var s := states[|ops|]; SelectsWithin(s.mem.value.proj, Since(ReadAll(s.disk), 1), s.acked, l)
    ensures var s := states[|ops|];
      (forall i :: 0 <= i < |ops| ==> !ops[i].Compact?) ==> SelectsAll(s.mem.value.proj, Since(ReadAll(s.disk), 1), l)
  {
    ProcessLog(states, ops);
    hide Run, Recovers, FreshArrivals, Persisted, FreshIngests, SelectsWithin, SelectsAll, FoldEvents, ReadAll;
    SelectOfDisk(states[|ops|].disk, states[|ops|].acked, l);
  }

  /** What such a run leaves: a log that ends the history, which the account folds. */
  lemma ProcessLog(states: seq<Sys>, ops: seq<Op>)
    requires Run(states, ops) && Recovers(states, ops) && states[0] == NEW_ACCOUNT && FreshArrivals(states, ops)
    ensures var s := states[|ops|];
      && Persisted(s.disk, s.acked) && FreshIngests(s.acked) && |ReadAll(s.disk)| <= |s.acked|
      && (s.mem.Some? ==> s.mem.value.proj == FoldEvents(s.acked))
      && ((forall i :: 0 <= i < |ops| ==> !ops[i].Compact?) ==> |ReadAll(s.disk)| == |s.acked|)
  {
    hide FoldEvents, Next, ExactHistory;
    NewAccountIsSound();
    RunKeeps(states, ops);
    RunWritesFresh(states, ops);
    if forall i :: 0 <= i < |ops| ==> !ops[i].Compact? {
      NothingCut(states, ops);
    }
  }

  lemma SettledFromStart(events: seq<Event>, l: LabelId)
    ensures Settled(events, 0, l)
  {
    assert Numbered(events[..0]) == [];
  }
}
