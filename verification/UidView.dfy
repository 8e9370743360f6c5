/** adapters/imap/uidview.go: a second fold of the same log, which gives every label its own
    IMAP UID space. UIDs are 32-bit and uidNext wraps as a Go uint32 does. */
module UidView {
  import opened Model

  const WIDTH := 0x1_0000_0000

  datatype Entry = Entry(uid: nat, msg: Id)

  datatype Box = Box(uidNext: nat, byMsg: map<Id, nat>, order: seq<Entry>)

  type Boxes = map<LabelId, Box>

  const NEW_BOX: Box := Box(1, map[], [])

  // ---------------------------------------------------------------- the fold

  function Assigned(b: Box, msg: Id): Box {
    if msg in b.byMsg then b
    else Box((b.uidNext + 1) % WIDTH, b.byMsg[msg := b.uidNext], b.order + [Entry(b.uidNext, msg)])
  }

  function Retired(b: Box, msg: Id): Box {
    if msg !in b.byMsg then b else b.(byMsg := b.byMsg - {msg}, order := DropFirst(b.order, msg))
  }

  function DropFirst(order: seq<Entry>, msg: Id): seq<Entry> {
    if order == [] then []
    else if order[0].msg == msg then order[1..]
    else [order[0]] + DropFirst(order[1..], msg)
  }

  function BoxOf(v: Boxes, l: LabelId): Box {
    if l in v then v[l] else NEW_BOX
  }

  function AssignAll(v: Boxes, labels: seq<LabelId>, msg: Id): Boxes {
    if labels == [] then v
    else
      var w, l := AssignAll(v, labels[..|labels|-1], msg), labels[|labels|-1];
      w[l := Assigned(BoxOf(w, l), msg)]
  }

  function Applied(v: Boxes, e: Event): Boxes {
    match e
    case MessageIngested(id, _, _, _, _, labels, _) => AssignAll(v, labels, id)
    case Labeled(id, l) => v[l := Assigned(BoxOf(v, l), id)]
    case Unlabeled(id, l) => if l in v then v[l := Retired(v[l], id)] else v
    case MessageExpunged(id) => map l | l in v :: Retired(v[l], id)
    case LabelDeleted(l) => v - {l}
    case _ => v
  }

  /** On the way to retiring msg everywhere: the mailboxes in todo are still to be visited. */
  function PartlyRetired(v: Boxes, todo: set<LabelId>, msg: Id): Boxes {
    map l | l in v :: if l in todo then v[l] else Retired(v[l], msg)
  }

  lemma RetireOne(v: Boxes, todo: set<LabelId>, l: LabelId, msg: Id)
    requires l in todo && l in v
    ensures var part := PartlyRetired(v, todo, msg);
      part[l] == v[l] && PartlyRetired(v, todo - {l}, msg) == part[l := Retired(part[l], msg)]
  {
    hide Retired;
  }

  function View(events: seq<Event>): Boxes {
    if events == [] then map[] else Applied(View(events[..|events|-1]), events[|events|-1])
  }

  // ---------------------------------------------------------- one mailbox of the view

  function BoxAt(events: seq<Event>, l: LabelId): Box {
    BoxOf(View(events), l)
  }

  /** What an event does to the mailbox of l. */
  function BoxStep(b: Box, e: Event, l: LabelId): Box {
    match e
    case MessageIngested(id, _, _, _, _, labels, _) => if l in labels then Assigned(b, id) else b
    case Labeled(id, k) => if k == l then Assigned(b, id) else b
    case Unlabeled(id, k) => if k == l then Retired(b, id) else b
    case MessageExpunged(id) => Retired(b, id)
    case LabelDeleted(k) => if k == l then NEW_BOX else b
    case _ => b
  }

  lemma {:induction false} AssignAllAt(v: Boxes, labels: seq<LabelId>, msg: Id, l: LabelId)
    ensures BoxOf(AssignAll(v, labels, msg), l) == if l in labels then Assigned(BoxOf(v, l), msg) else BoxOf(v, l)
  {
    if labels != [] {
      var init, last := labels[..|labels|-1], labels[|labels|-1];
      AssignAllAt(v, init, msg, l);
      assert l in labels <==> l in init || l == last by {
        assert labels == init + [last];
      }
    }
  }

  lemma BoxAtSnoc(events: seq<Event>, l: LabelId)
    requires events != []
    ensures BoxAt(events, l) == BoxStep(BoxAt(events[..|events|-1], l), events[|events|-1], l)
  {
    var v, e := View(events[..|events|-1]), events[|events|-1];
    assert BoxAt(events, l) == BoxOf(Applied(v, e), l);
    hide View;
    if e.MessageIngested? {
      AssignAllAt(v, e.initialLabels, e.messageId, l);
    }
  }

  /** How many UIDs the mailbox of l has given out since the label was last deleted. */
  function Given(events: seq<Event>, l: LabelId): nat {
    if events == [] then 0
    else
      var init, e := events[..|events|-1], events[|events|-1];
      if e == LabelDeleted(l) then 0 else Given(init, l) + (if Gives(BoxAt(init, l), e, l) then 1 else 0)
  }

  predicate Gives(b: Box, e: Event, l: LabelId) {
    match e
    case MessageIngested(id, _, _, _, _, labels, _) => l in labels && id !in b.byMsg
    case Labeled(id, k) => k == l && id !in b.byMsg
    case _ => false
  }

  lemma StepUid(b: Box, e: Event, l: LabelId)
    ensures BoxStep(b, e, l).uidNext ==
      if e == LabelDeleted(l) then 1 else if Gives(b, e, l) then (b.uidNext + 1) % WIDTH else b.uidNext
  {
    hide DropFirst;
  }

  lemma WrapOnce(n: nat)
    ensures ((1 + n) % WIDTH + 1) % WIDTH == (2 + n) % WIDTH
  {
  }

  /** Theorem: uidNext of every mailbox of every log is one above the UIDs given out since the label
      was last deleted, modulo 2^32; so it wraps exactly when the 2^32 - 1st is given out. */
  lemma {:induction false} NextUid(events: seq<Event>, l: LabelId)
    ensures BoxAt(events, l).uidNext == (1 + Given(events, l)) % WIDTH
  {
    if events != [] {
      var init, e := events[..|events|-1], events[|events|-1];
      NextUid(init, l);
      BoxAtSnoc(events, l);
      StepUid(BoxAt(init, l), e, l);
      WrapOnce(Given(init, l));
      hide BoxAt, BoxStep, Gives;
    }
  }

  // ------------------------------------------------------------- the invariants

  /** order lists exactly the pairs of byMsg, each message once. */
  ghost predicate SlotsOk(b: Box) {
    && (forall i, j :: 0 <= i < j < |b.order| ==> b.order[i].msg != b.order[j].msg)
    && (forall e :: e in b.order <==> e.msg in b.byMsg && b.byMsg[e.msg] == e.uid)
  }

  /** UIDs strictly ascend from 1 or more to below uidNext. */
  ghost predicate UidsOk(b: Box) {
    && Ascending(b.order)
    && (forall i :: 0 <= i < |b.order| ==> 1 <= b.order[i].uid < b.uidNext)
    && 1 <= b.uidNext
  }

  ghost predicate Ascending(order: seq<Entry>) {
    forall i, j :: 0 <= i < j < |order| ==> order[i].uid < order[j].uid
  }

  lemma AssignSlots(b: Box, msg: Id)
    requires SlotsOk(b)
    ensures SlotsOk(Assigned(b, msg))
  {
    if msg !in b.byMsg {
      var c := Assigned(b, msg);
      forall e
        ensures e in c.order <==> e.msg in c.byMsg && c.byMsg[e.msg] == e.uid
      {
        assert e in c.order <==> e in b.order || e == Entry(b.uidNext, msg);
      }
      forall i | 0 <= i < |b.order|
        ensures b.order[i].msg != msg
      {
        assert b.order[i] in b.order;
      }
    }
  }

  lemma ShiftedSplit(order: seq<Entry>, k: nat)
    requires k + 1 < |order|
    ensures [order[0]] + (order[1..][..k] + order[1..][k+1..]) == order[..k+1] + order[k+2..]
  {
    assert order[1..][..k] == order[1..k+1] && order[1..][k+1..] == order[k+2..];
    assert [order[0]] + order[1..k+1] == order[..k+1];
  }

  /** Dropping the first entry of msg takes out that one position, if there is one. */
  lemma {:induction false} DropFirstAt(order: seq<Entry>, msg: Id) returns (k: nat)
    ensures k <= |order|
    ensures forall i :: 0 <= i < k ==> order[i].msg != msg
    ensures k < |order| ==> order[k].msg == msg && DropFirst(order, msg) == order[..k] + order[k+1..]
    ensures k == |order| ==> DropFirst(order, msg) == order
  {
    k := 0;
    if order != [] && order[0].msg != msg {
      var rest := order[1..];
      k := DropFirstAt(rest, msg);
      assert DropFirst(order, msg) == [order[0]] + DropFirst(rest, msg);
      hide DropFirst;
      assert forall i :: 0 <= i < |rest| ==> order[i+1] == rest[i];
      if k < |rest| {
        ShiftedSplit(order, k);
      }
      k := k + 1;
    }
  }

  /** Taking out one position of a list without repeated messages. */
  lemma WithoutOne(order: seq<Entry>, k: nat)
    requires k < |order| && forall i, j :: 0 <= i < j < |order| ==> order[i].msg != order[j].msg
    ensures var rest := order[..k] + order[k+1..];
      && (forall i, j :: 0 <= i < j < |rest| ==> rest[i].msg != rest[j].msg)
      && (forall e :: e in rest <==> e in order && e.msg != order[k].msg)
      && (Ascending(order) ==> Ascending(rest))
  {
    var rest := order[..k] + order[k+1..];
    assert forall i :: 0 <= i < |rest| ==> rest[i] == order[if i < k then i else i + 1];
    forall e | e in order && e.msg != order[k].msg
      ensures e in rest
    {
      var i :| 0 <= i < |order| && order[i] == e;
      assert rest[if i < k then i else i - 1] == e;
    }
  }

  lemma RetiredAt(b: Box, msg: Id) returns (k: nat)
    requires SlotsOk(b) && msg in b.byMsg
    ensures k < |b.order| && b.order[k].msg == msg
    ensures Retired(b, msg) == Box(b.uidNext, b.byMsg - {msg}, b.order[..k] + b.order[k+1..])
  {
    assert Entry(b.byMsg[msg], msg) in b.order;
    k := DropFirstAt(b.order, msg);
    hide DropFirst;
  }

  lemma RetireSlots(b: Box, msg: Id)
    requires SlotsOk(b)
    ensures SlotsOk(Retired(b, msg))
    ensures forall e :: e in Retired(b, msg).order <==> e in b.order && e.msg != msg
  {
    if msg in b.byMsg {
      var k := RetiredAt(b, msg);
      WithoutOne(b.order, k);
      hide Retired, Ascending;
      var rest, byMsg := b.order[..k] + b.order[k+1..], b.byMsg - {msg};
      forall e
        ensures e in rest <==> e.msg in byMsg && byMsg[e.msg] == e.uid
      {
        assert e in rest <==> e in b.order && e.msg != msg;
      }
    }
  }

  lemma RangeWithoutOne(order: seq<Entry>, k: nat, next: nat)
    requires k < |order| && forall i :: 0 <= i < |order| ==> 1 <= order[i].uid < next
    ensures var rest := order[..k] + order[k+1..]; forall i :: 0 <= i < |rest| ==> 1 <= rest[i].uid < next
  {
  }

  lemma RetireUids(b: Box, msg: Id)
    requires SlotsOk(b) && UidsOk(b)
    ensures UidsOk(Retired(b, msg))
  {
    if msg in b.byMsg {
      var k := RetiredAt(b, msg);
      hide Retired, Ascending;
      WithoutOne(b.order, k);
      RangeWithoutOne(b.order, k, b.uidNext);
    } else {
      assert Retired(b, msg) == b;
    }
  }

  /** Theorem: in every view of every log, order and byMsg of each mailbox are inverse to each other. */
  lemma {:induction false} SlotsAlwaysOk(events: seq<Event>, l: LabelId)
    ensures SlotsOk(BoxAt(events, l))
  {
    if events != [] {
      var b, e := BoxAt(events[..|events|-1], l), events[|events|-1];
      SlotsAlwaysOk(events[..|events|-1], l);
      BoxAtSnoc(events, l);
      hide View, SlotsOk, Assigned, Retired, BoxAt;
      if e.MessageIngested? || e.Labeled? || e.Unlabeled? || e.MessageExpunged? {
        AssignSlots(b, e.messageId);
        RetireSlots(b, e.messageId);
      }
      EmptySlots();
    } else {
      EmptySlots();
    }
  }

  lemma EmptySlots()
    ensures SlotsOk(NEW_BOX) && UidsOk(NEW_BOX)
  {
  }

  lemma AssignUids(b: Box, msg: Id)
    requires UidsOk(b) && (msg in b.byMsg || b.uidNext + 1 < WIDTH)
    ensures UidsOk(Assigned(b, msg))
  {
  }

  /** Room for one more before an event that gives one. */
  lemma GivenSnoc(events: seq<Event>, l: LabelId)
    requires events != [] && events[|events|-1] != LabelDeleted(l) && Given(events, l) + 1 < WIDTH
    ensures var init, e := events[..|events|-1], events[|events|-1];
      Given(init, l) + 1 < WIDTH && (Gives(BoxAt(init, l), e, l) ==> BoxAt(init, l).uidNext + 1 < WIDTH)
  {
    NextUid(events[..|events|-1], l);
    hide BoxAt, Gives;
  }

  /** Theorem: UIDs strictly ascend below uidNext in every mailbox that has given out fewer than
      2^32 - 1 since its label was last deleted. */
  lemma {:induction false} UidsAscend(events: seq<Event>, l: LabelId)
    requires Given(events, l) + 1 < WIDTH
    ensures UidsOk(BoxAt(events, l))
  {
    EmptySlots();
    if events != [] {
      var init, e := events[..|events|-1], events[|events|-1];
      BoxAtSnoc(events, l);
      if e != LabelDeleted(l) {
        GivenSnoc(events, l);
        hide *;
        UidsAscend(init, l);
        SlotsAlwaysOk(init, l);
        StepUids(BoxAt(init, l), e, l);
      }
    }
  }

  lemma StepUids(b: Box, e: Event, l: LabelId)
    requires SlotsOk(b) && UidsOk(b) && e != LabelDeleted(l) && (Gives(b, e, l) ==> b.uidNext + 1 < WIDTH)
    ensures UidsOk(BoxStep(b, e, l))
  {
    hide SlotsOk, UidsOk, Assigned, Retired;
    if e.MessageIngested? || e.Labeled? {
      if Gives(b, e, l) || e.messageId in b.byMsg {
        AssignUids(b, e.messageId);
      }
    } else if e.Unlabeled? || e.MessageExpunged? {
      RetireUids(b, e.messageId);
    }
  }

  /** And no more can be had: when the 2^32 - 1st is given out, uidNext is 0 and below them all. */
  lemma WrapEndsOrder(events: seq<Event>, l: LabelId)
    requires Given(events, l) + 1 == WIDTH
    ensures BoxAt(events, l).uidNext == 0 && !UidsOk(BoxAt(events, l))
  {
    NextUid(events, l);
    hide BoxAt, Given, Ascending;
  }

  // ---------------------------------------------------------- UIDs are permanent

  /** c comes after b in the life of one mailbox: uidNext has not fallen, and every UID below
      b's uidNext that c still has names the message it named in b. */
  ghost predicate Succeeds(b: Box, c: Box) {
    && b.uidNext <= c.uidNext
    && forall e :: e in c.order && e.uid < b.uidNext ==> e in b.order
  }

  lemma AssignSucceeds(b: Box, msg: Id)
    requires msg in b.byMsg || b.uidNext + 1 < WIDTH
    ensures Succeeds(b, Assigned(b, msg))
  {
  }

  lemma SucceedsOn(b: Box, c: Box, d: Box)
    requires Succeeds(b, c) && Succeeds(c, d)
    ensures Succeeds(b, d)
  {
  }

  /** Theorem: until the label itself is deleted, and as long as fewer than 2^32 - 1 UIDs are given out
      for it, uidNext never falls and a UID that was ever assigned never names another message
      (section 2.3.1.1 of RFC 3501). */
  lemma {:induction false} UidsArePermanent(events: seq<Event>, k: nat, l: LabelId)
    requires k <= |events| && Given(events, l) + 1 < WIDTH
    requires forall i :: k <= i < |events| ==> events[i] != LabelDeleted(l)
    ensures Succeeds(BoxAt(events[..k], l), BoxAt(events, l))
    decreases |events|
  {
    if k == |events| {
      assert events[..k] == events;
      SameSucceeds(BoxAt(events, l));
    } else {
      var init, e := events[..|events|-1], events[|events|-1];
      BoxAtSnoc(events, l);
      GivenSnoc(events, l);
      hide *;
      assert init[..k] == events[..k];
      UidsArePermanent(init, k, l);
      SlotsAlwaysOk(init, l);
      StepSucceeds(BoxAt(init, l), e, l);
      SucceedsOn(BoxAt(events[..k], l), BoxAt(init, l), BoxAt(events, l));
    }
  }

  lemma StepSucceeds(b: Box, e: Event, l: LabelId)
    requires SlotsOk(b) && e != LabelDeleted(l) && (Gives(b, e, l) ==> b.uidNext + 1 < WIDTH)
    ensures Succeeds(b, BoxStep(b, e, l))
  {
    hide SlotsOk, Succeeds, Assigned, Retired;
    SameSucceeds(b);
    if e.MessageIngested? || e.Labeled? {
      if Gives(b, e, l) || e.messageId in b.byMsg {
        AssignSucceeds(b, e.messageId);
      }
    } else if e.Unlabeled? || e.MessageExpunged? {
      RetireSucceeds(b, e.messageId);
    }
  }

  lemma SameSucceeds(b: Box)
    ensures Succeeds(b, b)
  {
  }

  lemma RetireSucceeds(b: Box, msg: Id)
    requires SlotsOk(b)
    ensures Succeeds(b, Retired(b, msg))
  {
    RetireSlots(b, msg);
    hide DropFirst;
  }

  /** Deleting a label and using it again starts its UIDs over. */
  lemma DeletedLabelStartsOver(v: Boxes, l: LabelId, msg: Id)
    ensures var w := Applied(Applied(v, LabelDeleted(l)), Labeled(msg, l)); l in w && w[l].order == [Entry(1, msg)]
  {
  }

  // --------------------------------------------------- the view, updated in place

  class Mailbox {
    var uidNext: nat
    var byMsg: map<Id, nat>
    var order: seq<Entry>

    ghost function St(): Box
      reads this
    {
      Box(uidNext, byMsg, order)
    }

    constructor ()
      ensures St() == NEW_BOX
    {
      uidNext, byMsg, order := 1, map[], [];
    }

    method Assign(msg: Id)
      modifies this
      ensures St() == Assigned(old(St()), msg)
    {
      if msg in byMsg {
        return;
      }
      var uid := uidNext;
      uidNext := (uidNext + 1) % WIDTH;
      byMsg := byMsg[msg := uid];
      order := order + [Entry(uid, msg)];
    }

    method Retire(msg: Id)
      modifies this
      ensures St() == Retired(old(St()), msg)
    {
      if msg !in byMsg {
        return;
      }
      byMsg := byMsg - {msg};
      for i := 0 to |order|
        invariant order == old(order) && byMsg == old(byMsg) - {msg} && uidNext == old(uidNext)
        invariant DropFirst(order, msg) == order[..i] + DropFirst(order[i..], msg)
      {
        if order[i].msg == msg {
          order := order[..i] + order[i+1..];
          return;
        }
      }
    }
  }

  class ViewObject {
    var mailboxes: map<LabelId, Mailbox>

    ghost predicate Valid()
      reads this
    {
      forall k, l :: k in mailboxes && l in mailboxes && k != l ==> mailboxes[k] != mailboxes[l]
    }

    ghost function St(): Boxes
      reads this, mailboxes.Values
    {
      map l | l in mailboxes :: mailboxes[l].St()
    }

    constructor ()
      ensures Valid() && St() == map[] && mailboxes == map[]
    {
      mailboxes := map[];
    }

    method Mbox(l: LabelId) returns (mb: Mailbox)
      requires Valid()
      modifies this
      ensures Valid() && l in mailboxes && mailboxes[l] == mb && fresh(mailboxes.Values - old(mailboxes.Values))
      ensures St() == old(St())[l := BoxOf(old(St()), l)]
    {
      if l !in mailboxes {
        mb := new Mailbox();
        mailboxes := mailboxes[l := mb];
      }
      mb := mailboxes[l];
    }

    method AssignIn(l: LabelId, msg: Id)
      requires Valid()
      modifies this, mailboxes.Values
      ensures Valid() && fresh(mailboxes.Values - old(mailboxes.Values))
      ensures St() == old(St())[l := Assigned(BoxOf(old(St()), l), msg)]
    {
      var mb := Mbox(l);
      mb.Assign(msg);
    }

    method RetireIn(l: LabelId, msg: Id)
      requires Valid() && l in mailboxes
      modifies mailboxes[l]
      ensures St() == old(St())[l := Retired(old(St())[l], msg)]
    {
      hide Retired;
      mailboxes[l].Retire(msg);
    }

    method AssignEach(labels: seq<LabelId>, msg: Id)
      requires Valid()
      modifies this, mailboxes.Values
      ensures Valid() && fresh(mailboxes.Values - old(mailboxes.Values))
      ensures St() == AssignAll(old(St()), labels, msg)
    {
      hide Assigned, BoxOf;
      for i := 0 to |labels|
        invariant Valid() && fresh(mailboxes.Values - old(mailboxes.Values))
        invariant St() == AssignAll(old(St()), labels[..i], msg)
      {
        assert labels[..i+1][..i] == labels[..i];
        AssignIn(labels[i], msg);
      }
      assert labels[..|labels|] == labels;
    }

    method Apply(e: Event)
      requires Valid()
      modifies this, mailboxes.Values
      ensures Valid() && fresh(mailboxes.Values - old(mailboxes.Values))
      ensures St() == Applied(old(St()), e)
    {
      match e {
        case MessageIngested(id, _, _, _, _, labels, _) =>
          AssignEach(labels, id);
        case Labeled(id, l) =>
          AssignIn(l, id);
        case Unlabeled(id, l) =>
          if l in mailboxes {
            RetireIn(l, id);
          }
        case MessageExpunged(id) =>
          RetireEverywhere(id);
        case LabelDeleted(l) =>
          mailboxes := mailboxes - {l};
        case _ =>
      }
    }

    method RetireEverywhere(msg: Id)
      requires Valid()
      modifies mailboxes.Values
      ensures St() == map l | l in old(St()) :: Retired(old(St())[l], msg)
    {
      ghost var was := St();
      assert PartlyRetired(was, {}, msg) == map l | l in was :: Retired(was[l], msg);
      assert PartlyRetired(was, was.Keys, msg) == was;
      hide PartlyRetired, Retired;
      var todo := mailboxes.Keys;
      while todo != {}
        invariant todo <= mailboxes.Keys
        invariant St() == PartlyRetired(was, todo, msg)
      {
        var l :| l in todo;
        RetireOne(was, todo, l, msg);
        RetireIn(l, msg);
        todo := todo - {l};
      }
    }

    /** The mailbox's slots in UID order; none for a label not seen yet. */
    method Entries(l: LabelId) returns (out: seq<Entry>)
      ensures out == BoxOf(St(), l).order
    {
      out := if l in mailboxes then mailboxes[l].order else [];
    }
  }

  method ViewFrom(events: seq<Event>) returns (v: ViewObject)
    ensures fresh(v) && v.Valid() && v.St() == View(events)
  {
    v := new ViewObject();
    for i := 0 to |events|
      invariant fresh(v) && fresh(v.mailboxes.Values) && v.Valid() && v.St() == View(events[..i])
    {
      assert events[..i+1][..i] == events[..i];
      v.Apply(events[i]);
    }
    assert events[..|events|] == events;
  }
}
