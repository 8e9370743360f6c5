/** The projection and the IMAP UID view fold the same log independently. When they agree on
    which live messages carry which label, and why a log written by the runtime keeps them
    agreeing. */
module Agreement {
  import opened Model
  import P = Projection
  import U = UidView
  import EventLog
  import Runtime

  predicate InBox(v: U.Boxes, l: LabelId, id: Id) {
    l in v && id in v[l].byMsg
  }

  /** Every live message has a slot in exactly the mailboxes of its labels. */
  ghost predicate Agree(messages: map<Id, Message>, v: U.Boxes) {
    forall id, l :: id in messages ==> (InBox(v, l, id) <==> l in messages[id].labels)
  }

  /** What an ingest must satisfy to keep the two folds together: ingesting a live message again
      may name only labels it has, and ingesting one that is not live must name every
      mailbox that already has a slot for it. */
  ghost predicate KeepsAgreement(messages: map<Id, Message>, v: U.Boxes, e: Event) {
    e.MessageIngested? ==>
      if e.messageId in messages then forall l :: l in e.initialLabels ==> l in messages[e.messageId].labels
      else forall l :: InBox(v, l, e.messageId) ==> l in e.initialLabels
  }

  lemma {:induction false} AssignAllBoxes(v: U.Boxes, labels: seq<LabelId>, msg: Id)
    ensures forall l, id :: InBox(U.AssignAll(v, labels, msg), l, id) <==> InBox(v, l, id) || (id == msg && l in labels)
  {
    if labels != [] {
      var init, last := labels[..|labels|-1], labels[|labels|-1];
      AssignAllBoxes(v, init, msg);
      assert forall l :: l in labels <==> l in init || l == last;
      var w := U.AssignAll(v, init, msg);
      forall l, id
        ensures InBox(U.AssignAll(v, labels, msg), l, id) <==> InBox(w, l, id) || (id == msg && l == last)
      {
      }
    }
  }

  /** What each event does to membership of the mailboxes. */
  lemma AppliedBoxes(v: U.Boxes, e: Event)
    ensures forall l, id :: InBox(U.Applied(v, e), l, id) <==>
      match e
      case MessageIngested(m, _, _, _, _, labels, _) => InBox(v, l, id) || (id == m && l in labels)
      case Labeled(m, k) => InBox(v, l, id) || (id == m && l == k)
      case Unlabeled(m, k) => InBox(v, l, id) && !(id == m && l == k)
      case MessageExpunged(m) => InBox(v, l, id) && id != m
      case LabelDeleted(k) => InBox(v, l, id) && l != k
      case _ => InBox(v, l, id)
  {
    match e
    case MessageIngested(m, _, _, _, _, labels, _) => AssignAllBoxes(v, labels, m);
    case _ =>
  }

  function LabelsAfter(labels: set<LabelId>, id: Id, e: Event): set<LabelId> {
    match e
    case Labeled(m, l) => if m == id then labels + {l} else labels
    case Unlabeled(m, l) => if m == id then labels - {l} else labels
    case LabelDeleted(l) => labels - {l}
    case _ => labels
  }

  /** What each event does to the live messages and their labels. */
  lemma AppliedLabels(a: P.State, e: Event, id: Id)
    ensures var b := P.ApplyEvent(a, e);
      && (id in b.messages <==>
            (id in a.messages && e != MessageExpunged(id)) || (e.MessageIngested? && e.messageId == id))
      && (id in b.messages && id !in a.messages ==> b.messages[id].labels == set l | l in e.initialLabels)
      && (id in b.messages && id in a.messages ==> b.messages[id].labels == LabelsAfter(a.messages[id].labels, id, e))
  {
  }

  /** Theorem: from agreeing folds, an event leads to agreeing folds if and only if it is not
      one of the two kinds of ingest that KeepsAgreement names. */
  lemma StepKeepsAgreement(a: P.State, v: U.Boxes, e: Event)
    requires Agree(a.messages, v)
    ensures Agree(P.ApplyEvent(a, e).messages, U.Applied(v, e)) <==> KeepsAgreement(a.messages, v, e)
  {
    AppliedBoxes(v, e);
    forall id { AppliedLabels(a, e, id); }
    hide P.ApplyEvent, U.Applied;
    var b, w := P.ApplyEvent(a, e), U.Applied(v, e);
    if e.MessageIngested? {
      var m := e.messageId;
      if m in a.messages {
        if l :| l in e.initialLabels && l !in a.messages[m].labels {
          assert InBox(w, l, m) && l !in b.messages[m].labels;
        }
      } else {
        if l :| InBox(v, l, m) && l !in e.initialLabels {
          assert InBox(w, l, m) && l !in b.messages[m].labels;
        }
      }
    }
  }

  // ----------------------------------------------------------- logs with fresh ids

  /** The messages an event gives a slot to. */
  function Names(e: Event): set<Id> {
    if e.MessageIngested? || e.Labeled? then {e.messageId} else {}
  }

  function Mentioned(events: seq<Event>): set<Id> {
    if events == [] then {} else Mentioned(events[..|events|-1]) + Names(events[|events|-1])
  }

  /** No ingest reuses an id that an earlier event ingested or labeled. */
  ghost predicate FreshIngests(events: seq<Event>) {
    forall i :: 0 <= i < |events| && events[i].MessageIngested? ==> events[i].messageId !in Mentioned(events[..i])
  }

  lemma {:induction false} OnlyMentioned(events: seq<Event>)
    ensures var a, v := Runtime.FoldEvents(events), U.View(events);
      && (forall id :: id in a.messages ==> id in Mentioned(events))
      && (forall l, id :: InBox(v, l, id) ==> id in Mentioned(events))
  {
    if events != [] {
      var init, last := events[..|events|-1], events[|events|-1];
      OnlyMentioned(init);
      assert events == init + [last];
      Runtime.FoldEventsSnoc(init, last);
      Runtime.FoldSeqNo(init);
      assert U.View(events) == U.Applied(U.View(init), last);
      assert Runtime.FoldEvents(events).messages == P.ApplyEvent(Runtime.FoldEvents(init), last).messages;
      AppliedBoxes(U.View(init), last);
      forall id { AppliedLabels(Runtime.FoldEvents(init), last, id); }
      hide P.ApplyEvent, U.Applied, Runtime.FoldEvents;
    } else {
      assert EventLog.Numbered(events) == [];
    }
  }

  /** Theorem: the two folds of any uncompacted log whose ingests use fresh ids agree. */
  lemma {:induction false} FoldsAgree(events: seq<Event>)
    requires FreshIngests(events)
    ensures Agree(Runtime.FoldEvents(events).messages, U.View(events))
  {
    if events != [] {
      var init, last := events[..|events|-1], events[|events|-1];
      forall i | 0 <= i < |init| && init[i].MessageIngested?
        ensures init[i].messageId !in Mentioned(init[..i])
      {
        assert init[..i] == events[..i] && init[i] == events[i];
      }
      FoldsAgree(init);
      OnlyMentioned(init);
      StepKeepsAgreement(Runtime.FoldEvents(init), U.View(init), last);
      assert events == init + [last];
      Runtime.FoldEventsSnoc(init, last);
      Runtime.FoldSeqNo(init);
      assert U.View(events) == U.Applied(U.View(init), last);
      assert Runtime.FoldEvents(events).messages == P.ApplyEvent(Runtime.FoldEvents(init), last).messages;
    } else {
      assert EventLog.Numbered(events) == [];
    }
  }
}
