/** internal/projection: an account is the fold of its event log.

    `State`, `Step` and `Fold` say what the fold is; class `Account` computes it the
    way the code does, updating five coupled structures in place. */
module Projection {
  import opened Model
  import opened Seqs

  datatype State = State(
    seqNo: nat,
    messages: map<Id, Message>,
    labels: map<LabelId, Label>,
    threads: map<Id, Thread>,
    order: seq<Id>,
    byMessageId: map<string, Id>)

  const EMPTY: State := State(0, map[], SystemLabels(), map[], [], map[])

  // ---------------------------------------------------------------- the fold

  function Step(a: State, r: Record): State {
    if r.seqNo != 0 && r.seqNo <= a.seqNo then a
    else ApplyEvent(a, r.event).(seqNo := r.seqNo)
  }

  function Fold(a: State, recs: seq<Record>): State {
    if recs == [] then a else Step(Fold(a, recs[..|recs|-1]), recs[|recs|-1])
  }

  lemma FoldSnoc(a: State, recs: seq<Record>, r: Record)
    ensures Fold(a, recs + [r]) == Step(Fold(a, recs), r)
  {
    assert (recs + [r])[..|recs|] == recs;
  }

  function ApplyEvent(a: State, e: Event): State {
    match e
    case MessageIngested(id, _, env, _, threadId, _, _) =>
      if id in a.messages then a
      else a.(messages := a.messages[id := NewMessage(e)],
              order := a.order + [id],
              threads := Attached(a.threads, threadId, id),
              byMessageId := Indexed(a.byMessageId, env.messageId, id))
    case Labeled(id, l) =>
      if id !in a.messages then a
      else a.(messages := a.messages[id := a.messages[id].(labels := a.messages[id].labels + {l})])
    case Unlabeled(id, l) =>
      if id !in a.messages then a
      else a.(messages := a.messages[id := a.messages[id].(labels := a.messages[id].labels - {l})])
    case FlagSet(id, f, on) =>
      if id !in a.messages then a
      else a.(messages := a.messages[id := a.messages[id].(flags :=
                if on then a.messages[id].flags + {f} else a.messages[id].flags - {f})])
    case LabelCreated(l, name, kind) =>
      if l in a.labels then a else a.(labels := a.labels[l := Label(l, name, kind)])
    case LabelRenamed(l, name) =>
      if l !in a.labels then a else a.(labels := a.labels[l := a.labels[l].(name := name)])
    case LabelDeleted(l) =>
      a.(labels := a.labels - {l},
         messages := map id | id in a.messages :: a.messages[id].(labels := a.messages[id].labels - {l}))
    case MessageExpunged(id) =>
      if id !in a.messages then a
      else a.(messages := a.messages - {id},
              order := RemoveFirst(a.order, id),
              threads := Detached(a.threads, id),
              byMessageId := Unindexed(a.byMessageId, a.messages[id].envelope.messageId, id))
    case ThreadMerged(into, from) => Merged(a, into, from)
  }

  function NewMessage(e: Event): Message
    requires e.MessageIngested?
  {
    Message(e.messageId, e.blobRef, e.envelope, e.size, e.threadId,
            set l | l in e.initialLabels, set f | f in e.initialFlags)
  }

  function Attached(threads: map<Id, Thread>, threadId: Id, id: Id): map<Id, Thread> {
    if threadId == "" then threads else threads[threadId := MembersOf(threads, threadId) + [id]]
  }

  function MembersOf(threads: map<Id, Thread>, threadId: Id): Thread {
    if threadId in threads then threads[threadId] else []
  }

  function Indexed(index: map<string, Id>, header: string, id: Id): map<string, Id> {
    if header == "" || header in index then index else index[header := id]
  }

  function Unindexed(index: map<string, Id>, header: string, id: Id): map<string, Id> {
    if header != "" && header in index && index[header] == id then index - {header} else index
  }

  function Detached(threads: map<Id, Thread>, id: Id): map<Id, Thread> {
    map t | t in threads && Without(threads[t], id) != [] :: Without(threads[t], id)
  }

  /** On the way there: the threads in todo are still to be visited. */
  function PartlyDetached(threads: map<Id, Thread>, todo: set<Id>, id: Id): map<Id, Thread> {
    map t | t in threads && (t in todo || Without(threads[t], id) != []) ::
      if t in todo then threads[t] else Without(threads[t], id)
  }

  lemma DetachOne(threads: map<Id, Thread>, todo: set<Id>, id: Id, t: Id)
    requires t in todo && t in threads
    ensures var part, rest := PartlyDetached(threads, todo, id), Without(threads[t], id);
      && t in part && part[t] == threads[t]
      && PartlyDetached(threads, todo - {t}, id) == if rest == [] then part - {t} else part[t := rest]
  {
    hide Without;
  }

  function Merged(a: State, into: Id, from: Id): State {
    if into == from || into == "" || from == "" || from !in a.threads then a
    else a.(threads := a.threads[into := MembersOf(a.threads, into) + a.threads[from]] - {from},
            messages := Rethreaded(a.messages, a.threads[from], into))
  }

  /** On the way to merging: the first of the moved messages are in the target. */
  function PartlyMerged(threads: map<Id, Thread>, into: Id, moved: seq<Id>): map<Id, Thread> {
    threads[into := MembersOf(threads, into) + moved]
  }

  lemma MergeNone(a: State, into: Id, src: seq<Id>)
    ensures PartlyMerged(a.threads, into, src[..0]) == a.threads[into := MembersOf(a.threads, into)]
    ensures Rethreaded(a.messages, src[..0], into) == a.messages
  {
    assert MembersOf(a.threads, into) + [] == MembersOf(a.threads, into);
  }

  lemma MergeOne(a: State, into: Id, src: seq<Id>, i: nat)
    requires i < |src|
    ensures var part, messages := PartlyMerged(a.threads, into, src[..i]), Rethreaded(a.messages, src[..i], into);
      && PartlyMerged(a.threads, into, src[..i+1]) == part[into := part[into] + [src[i]]]
      && Rethreaded(a.messages, src[..i+1], into) ==
           if src[i] in messages then messages[src[i] := messages[src[i]].(threadId := into)] else messages
  {
    assert src[..i+1] == src[..i] + [src[i]];
    Assoc(MembersOf(a.threads, into), src[..i], [src[i]]);
    assert forall id :: id in src[..i+1] <==> id in src[..i] || id == src[i];
  }

  lemma MergeAll(a: State, into: Id, from: Id)
    requires into != from && into != "" && from != "" && from in a.threads
    ensures var src := a.threads[from];
      Merged(a, into, from) ==
        a.(threads := PartlyMerged(a.threads, into, src) - {from}, messages := Rethreaded(a.messages, src, into))
  {
    hide Rethreaded;
  }

  function Rethreaded(messages: map<Id, Message>, moved: seq<Id>, into: Id): map<Id, Message> {
    map id | id in messages :: if id in moved then messages[id].(threadId := into) else messages[id]
  }

  // ----------------------------------------------- what every fold satisfies

  /** The ingest order lists exactly the live messages, once each, and the threads
      partition the live messages that name a thread. */
  ghost predicate Consistent(a: State) {
    && OrderListsLive(a.messages, a.order)
    && ThreadsPartition(a.messages, a.threads)
    && IndexSound(a.messages, a.byMessageId)
  }

  ghost predicate OrderListsLive(messages: map<Id, Message>, order: seq<Id>) {
    && Distinct(order)
    && (forall id :: id in order <==> id in messages)
    && (forall id :: id in messages ==> messages[id].id == id)
  }

  /** A thread lists a message exactly when the message is live and names the thread. */
  ghost predicate ThreadsPartition(messages: map<Id, Message>, threads: map<Id, Thread>) {
    && (forall t :: t in threads ==> t != "" && threads[t] != [] && Distinct(threads[t]))
    && (forall t, id :: Lists(threads, t, id) <==> t != "" && id in messages && messages[id].threadId == t)
  }

  predicate Lists(threads: map<Id, Thread>, t: Id, id: Id) {
    t in threads && id in threads[t]
  }

  /** Every entry of the Message-ID index names a live message carrying that header. */
  ghost predicate IndexSound(messages: map<Id, Message>, index: map<string, Id>) {
    forall h :: h in index ==> h != "" && index[h] in messages && messages[index[h]].envelope.messageId == h
  }

  /** The index is exactly the inverse of "live message with a Message-ID"; in particular
      no two live messages share a Message-ID. */
  ghost predicate IndexExact(messages: map<Id, Message>, index: map<string, Id>) {
    && IndexSound(messages, index)
    && forall id :: id in messages && messages[id].envelope.messageId != "" ==>
         messages[id].envelope.messageId in index && index[messages[id].envelope.messageId] == id
  }

  /** Same live messages, up to labels and flags. */
  ghost predicate SameIdentities(m: map<Id, Message>, n: map<Id, Message>) {
    && m.Keys == n.Keys
    && forall id :: id in m ==> n[id] == m[id].(labels := n[id].labels, flags := n[id].flags)
  }

  lemma SameIdentitiesKeep(a: State, b: State)
    requires SameIdentities(a.messages, b.messages)
    requires a.order == b.order && a.threads == b.threads && a.byMessageId == b.byMessageId
    ensures Consistent(a) ==> Consistent(b)
    ensures IndexExact(a.messages, a.byMessageId) <==> IndexExact(b.messages, b.byMessageId)
  {
  }

  predicate TouchesLabelsOnly(e: Event) {
    !e.MessageIngested? && !e.MessageExpunged? && !e.ThreadMerged?
  }

  lemma RelabeledKeeps(messages: map<Id, Message>, id: Id, labels: set<LabelId>, flags: set<Flag>)
    requires id in messages
    ensures SameIdentities(messages, messages[id := messages[id].(labels := labels, flags := flags)])
  {
  }

  lemma LabelEventsKeep(a: State, e: Event)
    requires TouchesLabelsOnly(e)
    ensures var b := ApplyEvent(a, e);
      SameIdentities(a.messages, b.messages) && a.order == b.order && a.threads == b.threads
        && a.byMessageId == b.byMessageId
  {
    match e
    case Labeled(id, l) =>
      if id in a.messages {
        RelabeledKeeps(a.messages, id, a.messages[id].labels + {l}, a.messages[id].flags);
      }
    case Unlabeled(id, l) =>
      if id in a.messages {
        RelabeledKeeps(a.messages, id, a.messages[id].labels - {l}, a.messages[id].flags);
      }
    case FlagSet(id, f, on) =>
      if id in a.messages {
        var flags := a.messages[id].flags;
        RelabeledKeeps(a.messages, id, a.messages[id].labels, if on then flags + {f} else flags - {f});
      }
    case LabelCreated(_, _, _) =>
    case LabelRenamed(_, _) =>
    case LabelDeleted(_) =>
  }

  lemma AttachedPartition(messages: map<Id, Message>, threads: map<Id, Thread>, m: Message)
    requires ThreadsPartition(messages, threads) && m.id !in messages
    ensures ThreadsPartition(messages[m.id := m], Attached(threads, m.threadId, m.id))
  {
    var after := Attached(threads, m.threadId, m.id);
    forall t, x
      ensures Lists(after, t, x) <==> Lists(threads, t, x) || (t == m.threadId != "" && x == m.id)
    {
    }
    assert !Lists(threads, m.threadId, m.id);
    if m.threadId != "" {
      DistinctSnoc(MembersOf(threads, m.threadId), m.id);
    }
  }

  lemma OrderGrows(messages: map<Id, Message>, order: seq<Id>, m: Message)
    requires OrderListsLive(messages, order) && m.id !in messages
    ensures OrderListsLive(messages[m.id := m], order + [m.id])
  {
    DistinctSnoc(order, m.id);
    assert forall x :: x in order + [m.id] <==> x in order || x == m.id;
  }

  lemma IndexGrows(messages: map<Id, Message>, index: map<string, Id>, m: Message)
    requires IndexSound(messages, index) && m.id !in messages
    ensures IndexSound(messages[m.id := m], Indexed(index, m.envelope.messageId, m.id))
  {
  }

  lemma IngestConsistent(a: State, e: Event)
    requires Consistent(a) && e.MessageIngested?
    ensures Consistent(ApplyEvent(a, e))
  {
    if e.messageId !in a.messages {
      hide OrderListsLive, ThreadsPartition, IndexSound, Indexed, Attached;
      OrderGrows(a.messages, a.order, NewMessage(e));
      AttachedPartition(a.messages, a.threads, NewMessage(e));
      IndexGrows(a.messages, a.byMessageId, NewMessage(e));
    }
  }

  lemma DetachedPartition(messages: map<Id, Message>, threads: map<Id, Thread>, id: Id)
    requires ThreadsPartition(messages, threads)
    ensures ThreadsPartition(messages - {id}, Detached(threads, id))
  {
    var after := Detached(threads, id);
    forall t, x
      ensures Lists(after, t, x) <==> Lists(threads, t, x) && x != id
    {
      if t in threads {
        WithoutSpec(threads[t], id);
      }
    }
    forall t | t in after
      ensures Distinct(after[t])
    {
      WithoutSpec(threads[t], id);
    }
  }

  lemma OrderShrinks(messages: map<Id, Message>, order: seq<Id>, id: Id)
    requires OrderListsLive(messages, order)
    ensures OrderListsLive(messages - {id}, RemoveFirst(order, id))
  {
    RemoveFirstSpec(order, id);
  }

  lemma IndexShrinks(messages: map<Id, Message>, index: map<string, Id>, id: Id)
    requires IndexSound(messages, index) && id in messages
    ensures IndexSound(messages - {id}, Unindexed(index, messages[id].envelope.messageId, id))
  {
  }

  lemma ExpungeConsistent(a: State, id: Id)
    requires Consistent(a)
    ensures Consistent(ApplyEvent(a, MessageExpunged(id)))
  {
    if id in a.messages {
      hide OrderListsLive, ThreadsPartition, IndexSound, Unindexed, Detached, RemoveFirst;
      OrderShrinks(a.messages, a.order, id);
      DetachedPartition(a.messages, a.threads, id);
      IndexShrinks(a.messages, a.byMessageId, id);
    }
  }

  lemma DistinctConcat(kept: seq<Id>, moved: seq<Id>)
    requires Distinct(kept) && Distinct(moved) && forall x :: x in moved ==> x !in kept
    ensures Distinct(kept + moved)
  {
    forall i, j | 0 <= i < j < |kept + moved|
      ensures (kept + moved)[i] != (kept + moved)[j]
    {
      if i < |kept| <= j {
        assert moved[j - |kept|] in moved;
      }
    }
  }

  lemma MergedPartition(messages: map<Id, Message>, threads: map<Id, Thread>, into: Id, from: Id)
    requires ThreadsPartition(messages, threads) && into != from && into != "" && from in threads
    ensures ThreadsPartition(Rethreaded(messages, threads[from], into),
                             threads[into := MembersOf(threads, into) + threads[from]] - {from})
  {
    var kept, moved := MembersOf(threads, into), threads[from];
    var after := threads[into := kept + moved] - {from};
    forall t, x
      ensures Lists(after, t, x) <==> t != from && (Lists(threads, t, x) || (t == into && Lists(threads, from, x)))
    {
    }
    forall x | x in moved
      ensures x !in kept
    {
      assert Lists(threads, from, x) && !Lists(threads, into, x);
    }
    DistinctConcat(kept, moved);
    forall x | x in messages
      ensures x in moved <==> messages[x].threadId == from
    {
      assert Lists(threads, from, x) <==> x in moved;
    }
  }

  lemma MergeConsistent(a: State, into: Id, from: Id)
    requires Consistent(a)
    ensures Consistent(Merged(a, into, from))
  {
    if into != from && into != "" && from != "" && from in a.threads {
      MergedPartition(a.messages, a.threads, into, from);
    }
  }

  lemma StepConsistent(a: State, r: Record)
    requires Consistent(a)
    ensures Consistent(Step(a, r))
  {
    hide OrderListsLive, ThreadsPartition, IndexSound;
    match r.event
    case MessageIngested(_, _, _, _, _, _, _) => IngestConsistent(a, r.event);
    case MessageExpunged(id) => ExpungeConsistent(a, id);
    case ThreadMerged(into, from) => MergeConsistent(a, into, from);
    case _ => LabelEventsKeep(a, r.event); SameIdentitiesKeep(a, ApplyEvent(a, r.event));
  }

  /** Theorem: whatever the log, its fold is consistent. */
  lemma {:induction false} FoldConsistent(recs: seq<Record>)
    ensures Consistent(Fold(EMPTY, recs))
  {
    if recs != [] {
      FoldConsistent(recs[..|recs|-1]);
      StepConsistent(Fold(EMPTY, recs[..|recs|-1]), recs[|recs|-1]);
    }
  }

  /** An ingest of a new message keeps the index exact when its Message-ID is not already
      indexed; every other event keeps it whatever it says. */
  predicate KeepsIndexExact(a: State, e: Event) {
    e.MessageIngested? ==> e.envelope.messageId !in a.byMessageId || e.messageId in a.messages
  }

  lemma EventKeepsIndexExact(a: State, e: Event)
    requires IndexExact(a.messages, a.byMessageId)
    ensures var b := ApplyEvent(a, e); IndexExact(b.messages, b.byMessageId) <==> KeepsIndexExact(a, e)
  {
    match e
    case MessageIngested(_, _, _, _, _, _, _) =>
      if e.messageId !in a.messages {
        IndexedExact(a.messages, a.byMessageId, NewMessage(e));
      }
    case MessageExpunged(id) =>
      if id in a.messages {
        UnindexedExact(a.messages, a.byMessageId, id);
      }
    case ThreadMerged(_, _) =>
    case _ =>
      LabelEventsKeep(a, e);
      SameIdentitiesKeep(a, ApplyEvent(a, e));
  }

  lemma IndexedExact(messages: map<Id, Message>, index: map<string, Id>, m: Message)
    requires IndexExact(messages, index) && m.id !in messages
    ensures IndexExact(messages[m.id := m], Indexed(index, m.envelope.messageId, m.id)) <==>
      m.envelope.messageId !in index
  {
    var h, after := m.envelope.messageId, Indexed(index, m.envelope.messageId, m.id);
    if h in index {
      assert messages[m.id := m][m.id].envelope.messageId == h != "";
      assert after[h] != m.id;
    }
  }

  lemma UnindexedExact(messages: map<Id, Message>, index: map<string, Id>, id: Id)
    requires IndexExact(messages, index) && id in messages
    ensures IndexExact(messages - {id}, Unindexed(index, messages[id].envelope.messageId, id))
  {
  }

  // ------------------------------------------------------ snapshot and restore

  /** The serialised part of an account: everything except the Message-ID index. */
  datatype Snapshot = AccountSnapshot(seqNo: nat, messages: map<Id, Message>, labels: map<LabelId, Label>,
                               threads: map<Id, Thread>, order: seq<Id>)

  function TakeSnapshot(a: State): Snapshot {
    AccountSnapshot(a.seqNo, a.messages, a.labels, a.threads, a.order)
  }

  function Headers(messages: map<Id, Message>): set<string> {
    set id | id in messages && messages[id].envelope.messageId != "" :: messages[id].envelope.messageId
  }

  /** The indexes Restore can build, one for each order in which it may visit the messages:
      every live header is indexed, by some message that carries it. */
  ghost predicate RestoredIndex(messages: map<Id, Message>, index: map<string, Id>) {
    && index.Keys == Headers(messages)
    && forall h :: h in index ==> index[h] in messages && messages[index[h]].envelope.messageId == h
  }

  /** b is an account that Restore may build from s. */
  ghost predicate Restored(s: Snapshot, b: State) {
    TakeSnapshot(b) == s && RestoredIndex(s.messages, b.byMessageId)
  }

  ghost function SomeIndex(messages: map<Id, Message>): (index: map<string, Id>)
    ensures RestoredIndex(messages, index)
  {
    map h | h in Headers(messages) :: var id :| id in messages && messages[id].envelope.messageId == h; id
  }

  lemma RestoredIndexUnique(messages: map<Id, Message>, index: map<string, Id>, restored: map<string, Id>)
    requires IndexExact(messages, index) && RestoredIndex(messages, restored)
    ensures restored == index
  {
    forall h | h in index
      ensures h in restored && restored[h] == index[h]
    {
      assert messages[index[h]].envelope.messageId in Headers(messages);
    }
  }

  /** Theorem: Restore gives back the account that was snapshotted, whatever the map
      iteration order, if and only if the account's index is exact. */
  lemma SnapshotRoundTrip(a: State)
    ensures (forall b :: Restored(TakeSnapshot(a), b) ==> b == a) <==> IndexExact(a.messages, a.byMessageId)
  {
    if IndexExact(a.messages, a.byMessageId) {
      forall b | Restored(TakeSnapshot(a), b)
        ensures b == a
      {
        RestoredIndexUnique(a.messages, a.byMessageId, b.byMessageId);
      }
    } else {
      var base := SomeIndex(a.messages);
      var b := a.(byMessageId := base);
      assert Restored(TakeSnapshot(a), b);
      if base == a.byMessageId {
        var id :| id in a.messages && a.messages[id].envelope.messageId != "" &&
                  !(a.messages[id].envelope.messageId in base && base[a.messages[id].envelope.messageId] == id);
        var h := a.messages[id].envelope.messageId;
        assert h in Headers(a.messages);
        var c := a.(byMessageId := base[h := id]);
        assert Restored(TakeSnapshot(a), c);
        assert c.byMessageId[h] != a.byMessageId[h];
      }
    }
  }

  /** Ingest two messages under one new Message-ID, then expunge the first: the second is live
      but unindexed, so Restore does not give this fold back. */
  lemma SharedMessageIdLosesIndex(s: State, a: Event, b: Event)
    requires a.MessageIngested? && b.MessageIngested? && a.messageId != b.messageId
    requires a.messageId !in s.messages && b.messageId !in s.messages
    requires a.envelope.messageId == b.envelope.messageId != "" && a.envelope.messageId !in s.byMessageId
    ensures var t := ApplyEvent(ApplyEvent(ApplyEvent(s, a), b), MessageExpunged(a.messageId));
      !IndexExact(t.messages, t.byMessageId)
  {
    var h := a.envelope.messageId;
    var one := ApplyEvent(s, a);
    assert one.byMessageId[h] == a.messageId;
    var two := ApplyEvent(one, b);
    assert two.byMessageId[h] == a.messageId && two.messages[b.messageId].envelope.messageId == h;
    var t := ApplyEvent(two, MessageExpunged(a.messageId));
    assert b.messageId in t.messages && h !in t.byMessageId;
  }

  // ------------------------------------------------------------------ queries

  /** The ids of `order` whose message is live and carries l. */
  function Carrying(messages: map<Id, Message>, l: LabelId, order: seq<Id>): seq<Id> {
    if order == [] then []
    else
      var id := order[|order|-1];
      Carrying(messages, l, order[..|order|-1]) + (if id in messages && l in messages[id].labels then [id] else [])
  }

  function WithLabel(a: State, l: LabelId): seq<Id> {
    Carrying(a.messages, l, a.order)
  }

  lemma {:induction false} CarryingSpec(messages: map<Id, Message>, l: LabelId, order: seq<Id>)
    ensures forall id :: id in Carrying(messages, l, order) <==>
      id in order && id in messages && l in messages[id].labels
    ensures Distinct(order) ==> Distinct(Carrying(messages, l, order))
  {
    if order != [] {
      var init, last := order[..|order|-1], order[|order|-1];
      CarryingSpec(messages, l, init);
      assert order == init + [last];
      assert forall id :: id in order <==> id in init || id == last;
      if Distinct(order) {
        assert last !in init;
        DistinctSnoc(Carrying(messages, l, init), last);
      }
    }
  }

  /** The ids of `order` whose message is live and neither in trash nor in spam. */
  function Visible(messages: map<Id, Message>, order: seq<Id>): seq<Id> {
    if order == [] then []
    else
      var id := order[|order|-1];
      Visible(messages, order[..|order|-1]) +
      (if id in messages && LABEL_TRASH !in messages[id].labels && LABEL_SPAM !in messages[id].labels then [id] else [])
  }

  lemma VisibleSnoc(messages: map<Id, Message>, order: seq<Id>, id: Id)
    ensures Visible(messages, order + [id]) == Visible(messages, order) +
      (if id in messages && LABEL_TRASH !in messages[id].labels && LABEL_SPAM !in messages[id].labels then [id] else [])
  {
    assert (order + [id])[..|order|] == order;
  }

  lemma {:induction false} VisibleSpec(messages: map<Id, Message>, order: seq<Id>)
    ensures forall id :: id in Visible(messages, order) <==>
      id in order && id in messages && LABEL_TRASH !in messages[id].labels && LABEL_SPAM !in messages[id].labels
    ensures Distinct(order) ==> Distinct(Visible(messages, order))
  {
    if order != [] {
      var init, last := order[..|order|-1], order[|order|-1];
      VisibleSpec(messages, init);
      assert order == init + [last];
      assert forall id :: id in order <==> id in init || id == last;
      if Distinct(order) {
        assert last !in init;
        DistinctSnoc(Visible(messages, init), last);
      }
    }
  }

  // --------------------------------------------- the account, updated in place

  class Account {
    var seqNo: nat
    var messages: map<Id, Message>
    var labels: map<LabelId, Label>
    var threads: map<Id, Thread>
    var order: seq<Id>
    var byMessageId: map<string, Id>

    ghost function St(): State
      reads this
    {
      State(seqNo, messages, labels, threads, order, byMessageId)
    }

    constructor ()
      ensures St() == EMPTY
    {
      seqNo, messages, labels, threads, order, byMessageId := 0, map[], SystemLabels(), map[], [], map[];
    }

    constructor Restore(s: Snapshot)
      ensures Restored(s, St())
    {
      seqNo, messages, labels, threads, order, byMessageId := s.seqNo, s.messages, s.labels, s.threads, s.order, map[];
      new;
      var todo := messages.Keys;
      while todo != {}
        invariant todo <= messages.Keys && TakeSnapshot(St()) == s
        invariant forall h :: h in byMessageId ==>
          h != "" && byMessageId[h] in messages && messages[byMessageId[h]].envelope.messageId == h
        invariant forall id :: id in messages.Keys - todo && messages[id].envelope.messageId != "" ==>
          messages[id].envelope.messageId in byMessageId
      {
        var id :| id in todo;
        if messages[id].envelope.messageId != "" {
          byMessageId := byMessageId[messages[id].envelope.messageId := id];
        }
        todo := todo - {id};
      }
      assert byMessageId.Keys == Headers(messages);
    }

    method Snapshot() returns (s: Snapshot)
      ensures s == TakeSnapshot(St())
    {
      s := AccountSnapshot(seqNo, messages, labels, threads, order);
    }

    method MessageIdExists(header: string) returns (id: Option<Id>)
      ensures id == if header != "" && header in byMessageId then Some(byMessageId[header]) else None
    {
      if header != "" && header in byMessageId {
        id := Some(byMessageId[header]);
      } else {
        id := None;
      }
    }

    method Apply(r: Record)
      modifies this
      ensures St() == Step(old(St()), r)
    {
      hide Attached, Detached, Merged, RemoveFirst;
      if r.seqNo != 0 && r.seqNo <= seqNo {
        return;
      }
      match r.event {
        case MessageIngested(id, _, env, _, threadId, initialLabels, initialFlags) =>
          if id !in messages {
            messages := messages[id := NewMessage(r.event)];
            order := order + [id];
            AttachToThread(threadId, id);
            if env.messageId != "" && env.messageId !in byMessageId {
              byMessageId := byMessageId[env.messageId := id];
            }
          }
        case Labeled(id, l) =>
          if id in messages {
            messages := messages[id := messages[id].(labels := messages[id].labels + {l})];
          }
        case Unlabeled(id, l) =>
          if id in messages {
            messages := messages[id := messages[id].(labels := messages[id].labels - {l})];
          }
        case FlagSet(id, f, on) =>
          if id in messages {
            if on {
              messages := messages[id := messages[id].(flags := messages[id].flags + {f})];
            } else {
              messages := messages[id := messages[id].(flags := messages[id].flags - {f})];
            }
          }
        case LabelCreated(l, name, kind) =>
          if l !in labels {
            labels := labels[l := Label(l, name, kind)];
          }
        case LabelRenamed(l, name) =>
          if l in labels {
            labels := labels[l := labels[l].(name := name)];
          }
        case LabelDeleted(l) =>
          labels := labels - {l};
          RemoveLabelEverywhere(l);
        case MessageExpunged(id) =>
          if id in messages {
            var header := messages[id].envelope.messageId;
            if header != "" && header in byMessageId && byMessageId[header] == id {
              byMessageId := byMessageId - {header};
            }
            messages := messages - {id};
            RemoveFromOrder(id);
            DetachFromThreads(id);
          }
        case ThreadMerged(into, from) =>
          MergeThreads(into, from);
      }
      seqNo := r.seqNo;
    }

    method RemoveLabelEverywhere(l: LabelId)
      modifies this`messages
      ensures messages == map id | id in old(messages) :: old(messages)[id].(labels := old(messages)[id].labels - {l})
    {
      var todo := messages.Keys;
      while todo != {}
        invariant todo <= old(messages).Keys
        invariant messages == map id | id in old(messages) ::
          if id in todo then old(messages)[id] else old(messages)[id].(labels := old(messages)[id].labels - {l})
      {
        var id :| id in todo;
        messages := messages[id := messages[id].(labels := messages[id].labels - {l})];
        todo := todo - {id};
      }
    }

    method AttachToThread(threadId: Id, id: Id)
      modifies this`threads
      ensures threads == Attached(old(threads), threadId, id)
    {
      if threadId == "" {
        return;
      }
      if threadId !in threads {
        threads := threads[threadId := []];
      }
      threads := threads[threadId := threads[threadId] + [id]];
    }

    method DetachFromThreads(id: Id)
      modifies this`threads
      ensures threads == Detached(old(threads), id)
    {
      assert PartlyDetached(threads, {}, id) == Detached(threads, id);
      assert PartlyDetached(threads, threads.Keys, id) == threads;
      hide PartlyDetached, Detached, Without;
      var todo := threads.Keys;
      while todo != {}
        invariant todo <= old(threads).Keys
        invariant threads == PartlyDetached(old(threads), todo, id)
      {
        var t :| t in todo;
        DetachOne(old(threads), todo, id, t);
        var rest := RemoveId(threads[t], id);
        if rest == [] {
          threads := threads - {t};
        } else {
          threads := threads[t := rest];
        }
        todo := todo - {t};
      }
    }

    method MergeThreads(into: Id, from: Id)
      modifies this`threads, this`messages
      ensures St() == Merged(old(St()), into, from)
    {
      if into == from || into == "" || from == "" || from !in threads {
        return;
      }
      ghost var a := St();
      var src := threads[from];
      if into !in threads {
        threads := threads[into := []];
      }
      MergeNone(a, into, src);
      hide Rethreaded, PartlyMerged;
      for i := 0 to |src|
        invariant into in threads && threads == PartlyMerged(a.threads, into, src[..i])
        invariant messages == Rethreaded(a.messages, src[..i], into)
      {
        MergeOne(a, into, src, i);
        threads := threads[into := threads[into] + [src[i]]];
        if src[i] in messages {
          messages := messages[src[i] := messages[src[i]].(threadId := into)];
        }
      }
      assert src[..|src|] == src;
      MergeAll(a, into, from);
      threads := threads - {from};
    }

    method RemoveFromOrder(id: Id)
      modifies this`order
      ensures order == RemoveFirst(old(order), id)
    {
      for i := 0 to |order|
        invariant order == old(order)
        invariant id !in order[..i]
      {
        if order[i] == id {
          RemoveFirstAt(order, id, i);
          order := order[..i] + order[i+1..];
          return;
        }
      }
      RemoveFirstAbsent(order, id);
    }

    /** MessagesWithLabel, by id. */
    method MessagesWithLabel(l: LabelId) returns (out: seq<Id>)
      ensures out == WithLabel(St(), l)
    {
      out := [];
      for i := 0 to |order|
        invariant out == Carrying(messages, l, order[..i])
      {
        assert order[..i+1][..i] == order[..i];
        if order[i] in messages && l in messages[order[i]].labels {
          out := out + [order[i]];
        }
      }
      assert order[..|order|] == order;
    }

    /** AllMail, by id. */
    method AllMail() returns (out: seq<Id>)
      ensures out == Visible(messages, order)
    {
      out := [];
      for i := 0 to |order|
        invariant out == Visible(messages, order[..i])
      {
        assert order[..i+1][..i] == order[..i];
        if !(order[i] !in messages || LABEL_TRASH in messages[order[i]].labels
            || LABEL_SPAM in messages[order[i]].labels) {
          out := out + [order[i]];
        }
      }
      assert order[..|order|] == order;
    }
  }

  method RemoveId(ids: seq<Id>, id: Id) returns (out: seq<Id>)
    ensures out == Without(ids, id)
  {
    out := [];
    for i := 0 to |ids|
      invariant out == Without(ids[..i], id)
    {
      assert ids[..i+1][..i] == ids[..i];
      if ids[i] != id {
        out := out + [ids[i]];
      }
    }
    assert ids[..|ids|] == ids;
  }

  method Rebuild(recs: seq<Record>) returns (a: Account)
    ensures fresh(a) && a.St() == Fold(EMPTY, recs)
  {
    a := new Account();
    for i := 0 to |recs|
      invariant fresh(a) && a.St() == Fold(EMPTY, recs[..i])
    {
      assert recs[..i+1][..i] == recs[..i];
      a.Apply(recs[i]);
    }
    assert recs[..|recs|] == recs;
  }
}
