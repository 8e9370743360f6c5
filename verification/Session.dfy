/** adapters/imap/server.go: what a session does with the two folds. SELECT counts through the
    UID view, STATUS through the projection, and EXPUNGE rewrites the selection while it
    tells the client which sequence numbers went. */
module Session {
  import opened Model
  import opened Seqs
  import P = Projection
  import U = UidView
  import Agreement
  import EventLog
  import Runtime

  /** One row of the selection: the source also holds a copy of the message. */
  datatype Row = Row(uid: nat, id: Id)

  // ---------------------------------------------------------------- SELECT and STATUS

  /** The slots whose message is live, in UID order. */
  function Selection(messages: map<Id, Message>, entries: seq<U.Entry>): seq<Row> {
    if entries == [] then []
    else
      var e := entries[|entries|-1];
      Selection(messages, entries[..|entries|-1]) + (if e.msg in messages then [Row(e.uid, e.msg)] else [])
  }

  function Ids(rows: seq<Row>): seq<Id> {
    seq(|rows|, i requires 0 <= i < |rows| => rows[i].id)
  }

  lemma {:induction false} SelectionSpec(messages: map<Id, Message>, entries: seq<U.Entry>)
    requires forall i, j :: 0 <= i < j < |entries| ==> entries[i].msg != entries[j].msg
    ensures var ids := Ids(Selection(messages, entries));
      && Distinct(ids)
      && forall id :: id in ids <==> id in messages && exists e :: e in entries && e.msg == id
  {
    if entries != [] {
      var init, last := entries[..|entries|-1], entries[|entries|-1];
      SelectionSpec(messages, init);
      var before, after := Selection(messages, init), Selection(messages, entries);
      assert entries == init + [last];
      assert forall e :: e in entries <==> e in init || e == last;
      if last.msg in messages {
        assert Ids(after) == Ids(before) + [last.msg];
        assert forall id :: id in Ids(after) <==> id in Ids(before) || id == last.msg;
        assert last.msg !in Ids(before);
        DistinctSnoc(Ids(before), last.msg);
      } else {
        assert after == before;
      }
      forall id
        ensures id in Ids(after) <==> id in messages && exists e :: e in entries && e.msg == id
      {
        assert (exists e :: e in entries && e.msg == id) <==> (exists e :: e in init && e.msg == id) || last.msg == id;
      }
    }
  }

  /** Theorem: for every uncompacted log whose ingests use fresh ids, SELECT and STATUS speak of
      the same messages of every label, and count them alike. */
  lemma SelectAgreesWithStatus(events: seq<Event>, l: LabelId)
    requires Agreement.FreshIngests(events)
    ensures var a := Runtime.FoldEvents(events);
      var selected, counted := Ids(Selection(a.messages, U.BoxOf(U.View(events), l).order)), P.WithLabel(a, l);
      && |selected| == |counted|
      && (forall id :: id in selected <==> id in counted)
      && (forall id :: id in counted <==> id in a.messages && l in a.messages[id].labels)
  {
    var a, v := Runtime.FoldEvents(events), U.View(events);
    var box := U.BoxOf(v, l);
    Agreement.FoldsAgree(events);
    U.SlotsAlwaysOk(events, l);
    P.FoldConsistent(EventLog.Numbered(events));
    hide Runtime.FoldEvents, U.View;
    assert U.SlotsOk(box);
    SelectionSpec(a.messages, box.order);
    P.CarryingSpec(a.messages, l, a.order);
    var selected, counted := Ids(Selection(a.messages, box.order)), P.WithLabel(a, l);
    forall id
      ensures id in selected <==> id in counted
    {
      if id in counted {
        assert Agreement.InBox(v, l, id);
        assert U.Entry(box.byMsg[id], id) in box.order;
      }
      if id in selected {
        assert Agreement.InBox(v, l, id);
      }
    }
    var elems := set id | id in counted;
    DistinctLength(selected, elems);
    DistinctLength(counted, elems);
  }

  // ---------------------------------------------------------------- EXPUNGE

  predicate Chosen(rows: seq<Row>, deleted: set<Id>, uids: Option<set<nat>>, i: nat)
    requires i < |rows|
  {
    rows[i].id in deleted && (uids.Some? ==> rows[i].uid in uids.value)
  }

  /** The rows that stay. */
  function Kept(rows: seq<Row>, deleted: set<Id>, uids: Option<set<nat>>): seq<Row> {
    if rows == [] then []
    else
      Kept(rows[..|rows|-1], deleted, uids) +
      (if Chosen(rows, deleted, uids, |rows|-1) then [] else [rows[|rows|-1]])
  }

  /** The sequence numbers announced, highest first. */
  function Announced(rows: seq<Row>, deleted: set<Id>, uids: Option<set<nat>>): seq<nat> {
    if rows == [] then []
    else
      (if Chosen(rows, deleted, uids, |rows|-1) then [|rows|] else []) + Announced(rows[..|rows|-1], deleted, uids)
  }

  /** A client that handles EXPUNGE responses one by one (section 7.4.1 of RFC 3501). */
  function ClientRemoves(rows: seq<Row>, numbers: seq<nat>): Option<seq<Row>> {
    if numbers == [] then Some(rows)
    else if !(1 <= numbers[0] <= |rows|) then None
    else ClientRemoves(rows[..numbers[0]-1] + rows[numbers[0]..], numbers[1..])
  }

  /** Theorem: the client that applies the announced numbers in the order they are sent ends with
      exactly the list the server keeps. */
  lemma {:induction false} ClientFollows(rows: seq<Row>, tail: seq<Row>, deleted: set<Id>, uids: Option<set<nat>>)
    ensures ClientRemoves(rows + tail, Announced(rows, deleted, uids)) == Some(Kept(rows, deleted, uids) + tail)
    decreases |rows|
  {
    if rows == [] {
      assert rows + tail == tail;
    } else {
      var init, last := rows[..|rows|-1], rows[|rows|-1];
      var numbers := Announced(rows, deleted, uids);
      if Chosen(rows, deleted, uids, |rows|-1) {
        assert Kept(rows, deleted, uids) == Kept(init, deleted, uids) && numbers[0] == |rows|;
        assert (rows + tail)[..|rows|-1] + (rows + tail)[|rows|..] == init + tail;
        assert numbers[1..] == Announced(init, deleted, uids);
        ClientFollows(init, tail, deleted, uids);
      } else {
        assert rows + tail == init + ([last] + tail);
        assert Kept(rows, deleted, uids) + tail == Kept(init, deleted, uids) + ([last] + tail);
        assert numbers == Announced(init, deleted, uids);
        ClientFollows(init, [last] + tail, deleted, uids);
      }
    }
  }

  lemma AnnouncedStep(rows: seq<Row>, deleted: set<Id>, uids: Option<set<nat>>, i: nat)
    requires i < |rows|
    ensures Announced(rows[..i+1], deleted, uids) ==
      if Chosen(rows, deleted, uids, i) then [i + 1] + Announced(rows[..i], deleted, uids)
      else Announced(rows[..i], deleted, uids)
  {
    assert rows[..i+1][..i] == rows[..i];
  }

  lemma AnnouncedNone(deleted: set<Id>, uids: Option<set<nat>>)
    ensures Announced([], deleted, uids) == []
  {
  }

  /** The messages of the rows that go, from row i on. */
  function DoomedFrom(rows: seq<Row>, deleted: set<Id>, uids: Option<set<nat>>, i: nat): set<Id> {
    set j: nat | i <= j < |rows| && Chosen(rows, deleted, uids, j) :: rows[j].id
  }

  lemma DoomedStep(rows: seq<Row>, deleted: set<Id>, uids: Option<set<nat>>, i: nat)
    requires i < |rows|
    ensures DoomedFrom(rows, deleted, uids, i) ==
      if Chosen(rows, deleted, uids, i) then DoomedFrom(rows, deleted, uids, i + 1) + {rows[i].id}
      else DoomedFrom(rows, deleted, uids, i + 1)
    ensures Chosen(rows, deleted, uids, i) == Chosen(rows[..i+1], deleted, uids, i)
  {
  }

  lemma DoomedNone(rows: seq<Row>, deleted: set<Id>, uids: Option<set<nat>>)
    ensures DoomedFrom(rows, deleted, uids, |rows|) == {}
  {
  }

  /** The messages of `ids` without label l, everything else as it was. */
  function Unlabeling(messages: map<Id, Message>, ids: set<Id>, l: LabelId): map<Id, Message> {
    map id | id in messages :: if id in ids then messages[id].(labels := messages[id].labels - {l}) else messages[id]
  }

  class Session {
    const acct: P.Account
    const selLabel: LabelId
    var rows: seq<Row>
    var deleted: set<Id>

    constructor (acct: P.Account, selLabel: LabelId)
      ensures this.acct == acct && this.selLabel == selLabel && rows == [] && deleted == {}
    {
      this.acct, this.selLabel, this.rows, this.deleted := acct, selLabel, [], {};
    }

    method LoadSelection(v: U.ViewObject)
      requires v.Valid()
      modifies this
      ensures deleted == {}
      ensures rows == Selection(acct.messages, U.BoxOf(v.St(), selLabel).order)
    {
      deleted := {};
      rows := [];
      var entries := v.Entries(selLabel);
      for i := 0 to |entries|
        invariant deleted == {} && rows == Selection(acct.messages, entries[..i])
      {
        assert entries[..i+1][..i] == entries[..i];
        if entries[i].msg in acct.messages {
          rows := rows + [Row(entries[i].uid, entries[i].msg)];
        }
      }
      assert entries[..|entries|] == entries;
    }

    /** The rows marked deleted and, for UID EXPUNGE, named by the client. */
    method Mark(uids: Option<set<nat>>) returns (toExpunge: set<nat>)
      ensures toExpunge == set j: nat | j < |rows| && Chosen(rows, deleted, uids, j)
    {
      toExpunge := {};
      for i := 0 to |rows|
        invariant toExpunge == set j: nat | j < i && Chosen(rows, deleted, uids, j)
      {
        if rows[i].id in deleted && (uids.None? || rows[i].uid in uids.value) {
          toExpunge := toExpunge + {i};
        }
      }
    }

    /** Walks down so that every number sent is still right for the client. */
    method Announce(uids: Option<set<nat>>, toExpunge: set<nat>, writes: nat, refused: set<Id>)
        returns (ok: bool, numbers: seq<nat>)
      requires toExpunge == set j: nat | j < |rows| && Chosen(rows, deleted, uids, j)
      modifies acct
      ensures var all := Announced(rows, deleted, uids);
        ok == (|all| <= writes) && numbers == all[..if ok then |all| else writes]
      ensures var all := Announced(rows, deleted, uids);
        && (ok || (writes < |all| && 1 <= all[writes] <= |rows|))
        && acct.messages == Unlabeling(old(acct.messages),
                              DoomedFrom(rows, deleted, uids, if ok then 0 else all[writes] - 1) - refused, selLabel)
      ensures acct.labels == old(acct.labels) && acct.threads == old(acct.threads) && acct.order == old(acct.order)
    {
      hide Unlabeling, Chosen, DoomedFrom, Announced;
      numbers := [];
      ghost var all := Announced(rows, deleted, uids);
      var i := |rows|;
      assert rows[..|rows|] == rows && [] + all == all;
      NothingDoomed(acct.messages, rows, deleted, uids, refused, selLabel);
      while i > 0
        invariant 0 <= i <= |rows| && |numbers| <= writes
        invariant all == numbers + Announced(rows[..i], deleted, uids)
        invariant acct.messages ==
          Unlabeling(old(acct.messages), DoomedFrom(rows, deleted, uids, i) - refused, selLabel)
        invariant acct.labels == old(acct.labels) && acct.threads == old(acct.threads) && acct.order == old(acct.order)
      {
        i := i - 1;
        RowStep(old(acct.messages), rows, deleted, uids, refused, selLabel, numbers, i);
        if i in toExpunge {
          TryUnlabel(rows[i].id, refused);
          if |numbers| == writes {
            return false, numbers;
          }
          numbers := numbers + [i + 1];
        }
      }
      assert rows[..0] == [];
      AnnouncedNone(deleted, uids);
      ok := true;
    }

    /** Unlabel, which EXPUNGE lets fail. */
    method TryUnlabel(id: Id, refused: set<Id>)
      modifies acct
      ensures acct.messages == Unlabeling(old(acct.messages), {id} - refused, selLabel)
      ensures acct.labels == old(acct.labels) && acct.threads == old(acct.threads) && acct.order == old(acct.order)
    {
      if id in refused {
        assert {id} - refused == {};
        UnlabelingNone(acct.messages, selLabel);
      } else {
        assert {id} - refused == {id};
        hide Unlabeling;
        Unlabel(id);
      }
    }

    method Unlabel(id: Id)
      modifies acct
      ensures acct.messages == Unlabeling(old(acct.messages), {id}, selLabel)
      ensures acct.labels == old(acct.labels) && acct.threads == old(acct.threads) && acct.order == old(acct.order)
    {
      acct.Apply(Record(acct.seqNo + 1, Unlabeled(id, selLabel)));
    }

    /** EXPUNGE, or UID EXPUNGE when uids is given. `writes` is how many responses the
        connection accepts before it fails; a failure leaves the selection as it was, with the
        label gone from the messages down to the one whose response failed. `refused` are the
        messages whose Unlabel the log refuses, which EXPUNGE ignores. */
    method Expunge(uids: Option<set<nat>>, writes: nat, refused: set<Id>) returns (ok: bool, numbers: seq<nat>)
      modifies this`rows, acct
      ensures var all := Announced(old(rows), deleted, uids);
        ok == (|all| <= writes) && numbers == all[..if ok then |all| else writes]
      ensures rows == if ok then Kept(old(rows), deleted, uids) else old(rows)
      ensures var all := Announced(old(rows), deleted, uids);
        && (ok || (writes < |all| && 1 <= all[writes] <= |old(rows)|))
        && acct.messages == Unlabeling(old(acct.messages),
                              DoomedFrom(old(rows), deleted, uids, if ok then 0 else all[writes] - 1) - refused,
                              selLabel)
      ensures acct.labels == old(acct.labels) && acct.threads == old(acct.threads) && acct.order == old(acct.order)
    {
      var toExpunge := Mark(uids);
      ok, numbers := Announce(uids, toExpunge, writes, refused);
      if !ok {
        return;
      }
      var keep := [];
      for j := 0 to |rows|
        modifies {}
        invariant keep == Kept(rows[..j], deleted, uids)
      {
        assert rows[..j+1][..j] == rows[..j];
        DoomedStep(rows, deleted, uids, j);
        if j !in toExpunge {
          keep := keep + [rows[j]];
        }
      }
      assert rows[..|rows|] == rows;
      rows := keep;
    }
  }

  lemma UnlabelingNone(messages: map<Id, Message>, l: LabelId)
    ensures Unlabeling(messages, {}, l) == messages
  {
  }

  lemma NothingDoomed(messages: map<Id, Message>, rows: seq<Row>, deleted: set<Id>, uids: Option<set<nat>>,
                      refused: set<Id>, l: LabelId)
    ensures messages == Unlabeling(messages, DoomedFrom(rows, deleted, uids, |rows|) - refused, l)
  {
    DoomedNone(rows, deleted, uids);
    assert DoomedFrom(rows, deleted, uids, |rows|) - refused == {};
    UnlabelingNone(messages, l);
  }

  /** One row of the descending walk: what is announced from it on, and what it adds to the unlabeled. */
  lemma RowStep(messages: map<Id, Message>, rows: seq<Row>, deleted: set<Id>, uids: Option<set<nat>>,
                refused: set<Id>, l: LabelId, numbers: seq<nat>, i: nat)
    requires i < |rows|
    ensures var below, here := Announced(rows[..i], deleted, uids), Announced(rows[..i+1], deleted, uids);
      if Chosen(rows, deleted, uids, i)
      then here == [i + 1] + below && numbers + here == (numbers + [i + 1]) + below
      else here == below
    ensures var gone := DoomedFrom(rows, deleted, uids, i + 1) - refused;
      Unlabeling(messages, DoomedFrom(rows, deleted, uids, i) - refused, l) ==
        if Chosen(rows, deleted, uids, i) then Unlabeling(Unlabeling(messages, gone, l), {rows[i].id} - refused, l)
        else Unlabeling(messages, gone, l)
  {
    hide Unlabeling, Chosen, DoomedFrom, Announced;
    AnnouncedStep(rows, deleted, uids, i);
    DoomedStep(rows, deleted, uids, i);
    if Chosen(rows, deleted, uids, i) {
      var gone, id := DoomedFrom(rows, deleted, uids, i + 1), rows[i].id;
      UnlabelingMore(messages, gone - refused, {id} - refused, l);
      assert gone + {id} - refused == (gone - refused) + ({id} - refused);
    }
  }

  lemma UnlabelingMore(messages: map<Id, Message>, ids: set<Id>, more: set<Id>, l: LabelId)
    ensures Unlabeling(Unlabeling(messages, ids, l), more, l) == Unlabeling(messages, ids + more, l)
  {
    forall m | m in messages
      ensures messages[m].labels - {l} - {l} == messages[m].labels - {l}
    {
    }
  }

  /** SELECT of a label, end to end: rebuild the view from the log and load the selection. */
  method Select(acct: P.Account, events: seq<Event>, l: LabelId) returns (s: Session)
    ensures s.selLabel == l && s.rows == Selection(acct.messages, U.BoxOf(U.View(events), l).order)
  {
    var v := U.ViewFrom(events);
    s := new Session(acct, l);
    s.LoadSelection(v);
  }
}
