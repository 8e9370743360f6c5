/** internal/backup over a log that a compaction has cut: the export folds the records still in the
    log, and sees exactly the account's mail that was not live at the cut. */
module Export {
  import opened Model
  import opened Seqs
  import opened EventLog
  import opened Runtime
  import opened Agreement
  import opened Reachable
  import P = Projection
  import U = UidView
  import Mbox

  /** The account that a fresh fold of the log's records gives, when the first k were cut. */
  function TailFold(events: seq<Event>, k: nat): P.State
    requires k <= |events|
  {
    P.Fold(P.EMPTY, Numbered(events)[k..])
  }

  lemma {:induction false} TailFoldSnoc(events: seq<Event>, k: nat)
    requires k < |events|
    ensures var before := TailFold(events[..|events|-1], k);
      TailFold(events, k) == P.ApplyEvent(before, events[|events|-1]).(seqNo := |events|)
    decreases |events|
  {
    var init, last := events[..|events|-1], events[|events|-1];
    NumberedSnoc(init, last);
    assert events == init + [last];
    assert Numbered(events)[k..] == Numbered(init)[k..] + [Record(|events|, last)];
    P.FoldSnoc(P.EMPTY, Numbered(init)[k..], Record(|events|, last));
    if k < |init| {
      TailFoldSnoc(init, k);
    } else {
      assert Numbered(init)[k..] == [];
    }
    hide P.ApplyEvent;
  }

  lemma NowSnoc(events: seq<Event>)
    requires events != []
    ensures var before := FoldEvents(events[..|events|-1]);
      FoldEvents(events) == P.ApplyEvent(before, events[|events|-1]).(seqNo := |events|)
  {
    var init, last := events[..|events|-1], events[|events|-1];
    assert events == init + [last];
    FoldEventsSnoc(init, last);
    FoldSeqNo(init);
    hide P.ApplyEvent;
  }

  // ------------------------------------------------------------ the messages

  /** What an event does to a live message that it does not expunge, but for merges. */
  function Changed(m: Message, id: Id, e: Event): Message {
    match e
    case Labeled(x, l) => if x == id then m.(labels := m.labels + {l}) else m
    case Unlabeled(x, l) => if x == id then m.(labels := m.labels - {l}) else m
    case FlagSet(x, f, on) => if x == id then m.(flags := if on then m.flags + {f} else m.flags - {f}) else m
    case LabelDeleted(l) => m.(labels := m.labels - {l})
    case _ => m
  }

  predicate SameMail(m: Message, n: Message) {
    m == n.(threadId := m.threadId)
  }

  lemma AppliedMessage(a: P.State, e: Event, id: Id)
    ensures var b := P.ApplyEvent(a, e);
      && (id in b.messages <==>
            (id in a.messages && e != MessageExpunged(id)) || (e.MessageIngested? && e.messageId == id))
      && (id in b.messages && id !in a.messages ==> b.messages[id] == P.NewMessage(e))
      && (id in b.messages && id in a.messages ==> SameMail(b.messages[id], Changed(a.messages[id], id, e)))
  {
  }

  /** tail is now without what was live at the cut. */
  ghost predicate SinceCut(cut: map<Id, Message>, now: map<Id, Message>, tail: map<Id, Message>, id: Id) {
    && (id in tail <==> id in now && id !in cut)
    && (id in tail ==> SameMail(tail[id], now[id]))
  }

  lemma SinceCutStep(cut: map<Id, Message>, now: P.State, tail: P.State, e: Event, id: Id)
    requires SinceCut(cut, now.messages, tail.messages, id)
    requires e.MessageIngested? && e.messageId == id ==> id !in now.messages && id !in cut
    ensures SinceCut(cut, P.ApplyEvent(now, e).messages, P.ApplyEvent(tail, e).messages, id)
  {
    AppliedMessage(now, e, id);
    AppliedMessage(tail, e, id);
    hide P.ApplyEvent;
  }

  /** Theorem: the fold of the records left after a cut holds exactly the messages that are live now
      and were not live at the cut, each as it is now but for the thread it names. */
  lemma {:induction false} CutFold(events: seq<Event>, k: nat, id: Id)
    requires FreshIngests(events) && k <= |events|
    ensures SinceCut(FoldEvents(events[..k]).messages, FoldEvents(events).messages, TailFold(events, k).messages, id)
    decreases |events|
  {
    if k == |events| {
      assert events[..k] == events && Numbered(events)[k..] == [];
    } else {
      var init, last := events[..|events|-1], events[|events|-1];
      assert init[..k] == events[..k];
      hide *;
      FreshPrefix(events);
      CutFold(init, k, id);
      NowSnoc(events);
      TailFoldSnoc(events, k);
      NotMentionedBefore(init, k, id, "");
      SinceCutStep(FoldEvents(events[..k]).messages, FoldEvents(init), TailFold(init, k), last, id);
    }
  }

  // ------------------------------------------------------------ their order

  /** The ids that are not among those given, in order. */
  function Outside(ids: seq<Id>, cut: set<Id>): seq<Id> {
    if ids == [] then [] else (if ids[0] in cut then [] else [ids[0]]) + Outside(ids[1..], cut)
  }

  lemma {:induction false} OutsideSnoc(ids: seq<Id>, id: Id, cut: set<Id>)
    ensures Outside(ids + [id], cut) == Outside(ids, cut) + (if id in cut then [] else [id])
  {
    if ids == [] {
      assert [] + [id] == [id] && [id][1..] == [];
    } else {
      assert (ids + [id])[1..] == ids[1..] + [id];
      OutsideSnoc(ids[1..], id, cut);
    }
  }

  lemma FirstOf(x: Id, rest: seq<Id>, id: Id, cut: set<Id>)
    ensures Outside([x] + rest, cut) == if x in cut then Outside(rest, cut) else [x] + Outside(rest, cut)
    ensures RemoveFirst([x] + rest, id) == if x == id then rest else [x] + RemoveFirst(rest, id)
  {
    assert ([x] + rest)[1..] == rest;
    assert [] + Outside(rest, cut) == Outside(rest, cut);
  }

  lemma {:induction false} OutsideRemoved(ids: seq<Id>, id: Id, cut: set<Id>)
    ensures Outside(RemoveFirst(ids, id), cut) ==
      if id in cut then Outside(ids, cut) else RemoveFirst(Outside(ids, cut), id)
  {
    if ids != [] {
      var x, rest := ids[0], ids[1..];
      assert ids == [x] + rest;
      hide RemoveFirst, Outside;
      OutsideRemoved(rest, id, cut);
      FirstOf(x, rest, id, cut);
      FirstOf(x, RemoveFirst(rest, id), id, cut);
      FirstOf(x, Outside(rest, cut), id, cut);
    }
  }

  lemma {:induction false} NothingOutside(ids: seq<Id>, cut: set<Id>)
    requires forall i :: 0 <= i < |ids| ==> ids[i] in cut
    ensures Outside(ids, cut) == []
  {
    if ids != [] {
      NothingOutside(ids[1..], cut);
    }
  }

  function OrderStep(order: seq<Id>, live: bool, e: Event): seq<Id> {
    match e
    case MessageIngested(id, _, _, _, _, _, _) => if live then order else order + [id]
    case MessageExpunged(id) => if live then RemoveFirst(order, id) else order
    case _ => order
  }

  lemma AppliedOrder(a: P.State, e: Event)
    ensures var live := (e.MessageIngested? || e.MessageExpunged?) && e.messageId in a.messages;
      P.ApplyEvent(a, e).order == OrderStep(a.order, live, e)
  {
  }

  lemma CutOrderStep(cut: map<Id, Message>, now: P.State, tail: P.State, e: Event)
    requires tail.order == Outside(now.order, cut.Keys)
    requires e.MessageIngested? || e.MessageExpunged? ==> SinceCut(cut, now.messages, tail.messages, e.messageId)
    requires e.MessageIngested? ==> e.messageId !in now.messages && e.messageId !in cut
    ensures P.ApplyEvent(tail, e).order == Outside(P.ApplyEvent(now, e).order, cut.Keys)
  {
    AppliedOrder(now, e);
    AppliedOrder(tail, e);
    hide P.ApplyEvent, RemoveFirst, Outside;
    if e.MessageIngested? {
      OutsideSnoc(now.order, e.messageId, cut.Keys);
    } else if e.MessageExpunged? {
      OutsideRemoved(now.order, e.messageId, cut.Keys);
    }
  }

  lemma {:induction false} CutOrder(events: seq<Event>, k: nat)
    requires FreshIngests(events) && k <= |events|
    ensures TailFold(events, k).order == Outside(FoldEvents(events).order, FoldEvents(events[..k]).messages.Keys)
    decreases |events|
  {
    if k == |events| {
      assert events[..k] == events && Numbered(events)[k..] == [];
      P.FoldConsistent(Numbered(events));
      var now := FoldEvents(events);
      assert forall i :: 0 <= i < |now.order| ==> now.order[i] in now.order;
      NothingOutside(now.order, now.messages.Keys);
    } else {
      var init, last := events[..|events|-1], events[|events|-1];
      assert init[..k] == events[..k];
      hide *;
      FreshPrefix(events);
      CutOrder(init, k);
      NowSnoc(events);
      TailFoldSnoc(events, k);
      if last.MessageIngested? || last.MessageExpunged? {
        CutFold(init, k, last.messageId);
        NotMentionedBefore(init, k, last.messageId, "");
      }
      CutOrderStep(FoldEvents(events[..k]).messages, FoldEvents(init), TailFold(init, k), last);
    }
  }

  // ------------------------------------------------------------ what the export writes

  lemma {:induction false} VisibleOutside(now: map<Id, Message>, tail: map<Id, Message>, cut: map<Id, Message>,
                                          order: seq<Id>)
    requires forall id :: SinceCut(cut, now, tail, id)
    ensures P.Visible(tail, Outside(order, cut.Keys)) == Outside(P.Visible(now, order), cut.Keys)
  {
    if order != [] {
      var init, last := order[..|order|-1], order[|order|-1];
      VisibleOutside(now, tail, cut, init);
      assert order == init + [last] && SinceCut(cut, now, tail, last);
      assert last in tail ==> tail[last].labels == now[last].labels;
      assert last in tail <==> last in now && last !in cut.Keys;
      OutsideSnoc(init, last, cut.Keys);
      OutsideSnoc(P.Visible(now, init), last, cut.Keys);
      P.VisibleSnoc(now, init, last);
      P.VisibleSnoc(tail, Outside(init, cut.Keys), last);
      hide P.Visible, Outside, SinceCut;
      var o, v := Outside(init, cut.Keys), P.Visible(now, init);
      assert o + [] == o && v + [] == v && Outside(v, cut.Keys) + [] == Outside(v, cut.Keys);
    }
  }

  lemma {:induction false} SameArchive(now: map<Id, Message>, tail: map<Id, Message>, ids: seq<Id>,
                                       blobs: map<string, string>, stamp: int -> string)
    requires forall i :: 0 <= i < |ids| ==> ids[i] in now && ids[i] in tail && SameMail(tail[ids[i]], now[ids[i]])
    ensures Mbox.Archive(tail, ids, blobs, stamp) == Mbox.Archive(now, ids, blobs, stamp)
  {
    if ids != [] {
      SameArchive(now, tail, ids[..|ids|-1], blobs, stamp);
    }
  }

  /** Theorem: an export of a log cut at k writes, in the same order, exactly the mail that an export
      of the whole account would, less what was live at the cut. */
  lemma ArchiveOfCutLog(events: seq<Event>, k: nat, blobs: map<string, string>, stamp: int -> string)
    requires FreshIngests(events) && k <= |events|
    ensures var now, tail, cut := FoldEvents(events), TailFold(events, k), FoldEvents(events[..k]);
      var seen, all := P.Visible(tail.messages, tail.order), P.Visible(now.messages, now.order);
      && seen == Outside(all, cut.messages.Keys)
      && Mbox.Archive(tail.messages, seen, blobs, stamp) == Mbox.Archive(now.messages, seen, blobs, stamp)
  {
    var now, tail, cut := FoldEvents(events), TailFold(events, k), FoldEvents(events[..k]);
    forall id { CutFold(events, k, id); }
    CutOrder(events, k);
    VisibleOutside(now.messages, tail.messages, cut.messages, now.order);
    var seen := P.Visible(tail.messages, tail.order);
    P.VisibleSpec(tail.messages, tail.order);
    hide FoldEvents, TailFold, P.Visible, Outside, FreshIngests;
    forall i | 0 <= i < |seen|
      ensures seen[i] in now.messages && seen[i] in tail.messages
      ensures SameMail(tail.messages[seen[i]], now.messages[seen[i]])
    {
      assert seen[i] in seen && SinceCut(cut.messages, now.messages, tail.messages, seen[i]);
    }
    SameArchive(now.messages, tail.messages, seen, blobs, stamp);
  }
}
