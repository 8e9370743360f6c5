/** adapters/imap/server.go: STORE on one selected message. The session keeps a copy of the
    message's flags beside the account, and the \Deleted mark in the session alone. */
module Store {
  import opened Model
  import P = Projection
  import Edge

  /** An IMAP flag as the client writes it. */
  type ImapFlag = string

  const DELETED: ImapFlag := "\\Deleted"

  /** The flags STORE clears before it replaces them. */
  const SYSTEM: seq<Flag> := ["seen", "answered", "flagged", "draft"]

  function ModelFlag(f: ImapFlag): Option<Flag> {
    if f == "\\Seen" then Some("seen") else if f == "\\Answered" then Some("answered")
    else if f == "\\Flagged" then Some("flagged") else if f == "\\Draft" then Some("draft") else None
  }

  function ModelToImap(f: Flag): ImapFlag {
    if f == "seen" then "\\Seen" else if f == "answered" then "\\Answered"
    else if f == "flagged" then "\\Flagged" else if f == "draft" then "\\Draft" else f
  }

  lemma MappingRoundTrip(f: ImapFlag, g: Flag)
    ensures ModelFlag(f) == Some(g) <==> g in SYSTEM && f == ModelToImap(g)
  {
  }

  // ---------------------------------------------------------------- what FETCH reports

  /** The flags FETCH reports. */
  function Reported(flags: set<Flag>, deleted: bool): set<ImapFlag> {
    (set g | g in SYSTEM && g in flags :: ModelToImap(g)) + (if deleted then {DELETED} else {})
  }

  predicate Supported(f: ImapFlag) {
    f == DELETED || ModelFlag(f).Some?
  }

  lemma ReportedIff(flags: set<Flag>, deleted: bool, f: ImapFlag)
    ensures f in Reported(flags, deleted) <==>
      if f == DELETED then deleted else ModelFlag(f).Some? && ModelFlag(f).value in flags
  {
    if ModelFlag(f).Some? {
      MappingRoundTrip(f, ModelFlag(f).value);
    }
    forall g {:trigger ModelToImap(g)} | g in SYSTEM && f == ModelToImap(g)
      ensures ModelFlag(f) == Some(g)
    {
      MappingRoundTrip(f, g);
    }
  }

  /** toIMAPFlags. */
  method ToImapFlags(flags: set<Flag>, deleted: bool) returns (out: seq<ImapFlag>)
    ensures forall f :: f in out <==> f in Reported(flags, deleted)
    ensures forall i, j :: 0 <= i < j < |out| ==> out[i] != out[j]
  {
    forall f { ReportedIff(flags, deleted, f); }
    hide Reported;
    out := [];
    if "seen" in flags { out := out + ["\\Seen"]; }
    if "answered" in flags { out := out + ["\\Answered"]; }
    if "flagged" in flags { out := out + ["\\Flagged"]; }
    if "draft" in flags { out := out + ["\\Draft"]; }
    if deleted { out := out + [DELETED]; }
  }

  // ---------------------------------------------------------------- what STORE does

  datatype StoreOp = Replace | Add | Remove

  function SetOne(flags: set<Flag>, f: ImapFlag, on: bool): set<Flag> {
    if f == DELETED || ModelFlag(f).None? then flags
    else if on then flags + {ModelFlag(f).value}
    else flags - {ModelFlag(f).value}
  }

  function SetEach(flags: set<Flag>, fs: seq<ImapFlag>, on: bool): set<Flag> {
    if fs == [] then flags else SetOne(SetEach(flags, fs[..|fs|-1], on), fs[|fs|-1], on)
  }

  function Names(fs: seq<Flag>): seq<ImapFlag> {
    seq(|fs|, i requires 0 <= i < |fs| => ModelToImap(fs[i]))
  }

  /** STORE that clears the first list when it replaces, and then sets the second. */
  function StoredFrom(op: StoreOp, cleared: seq<ImapFlag>, given: seq<ImapFlag>, flags: set<Flag>): set<Flag> {
    match op
    case Replace => SetEach(SetEach(flags, cleared, false), given, true)
    case Add => SetEach(flags, given, true)
    case Remove => SetEach(flags, given, false)
  }

  function Stored(op: StoreOp, given: seq<ImapFlag>, flags: set<Flag>): set<Flag> {
    StoredFrom(op, Names(SYSTEM), given, flags)
  }

  /** The flags whose own change the log accepted. */
  function Accepted(fs: seq<ImapFlag>, ok: seq<bool>): seq<ImapFlag>
    requires |fs| == |ok|
  {
    if fs == [] then []
    else Accepted(fs[..|fs|-1], ok[..|fs|-1]) + (if ok[|fs|-1] then [fs[|fs|-1]] else [])
  }

  lemma {:induction false} AllAccepted(fs: seq<ImapFlag>, ok: seq<bool>)
    requires |fs| == |ok|
    ensures (forall i :: 0 <= i < |ok| ==> ok[i]) ==> Accepted(fs, ok) == fs
  {
    if fs != [] {
      AllAccepted(fs[..|fs|-1], ok[..|fs|-1]);
      assert fs == fs[..|fs|-1] + [fs[|fs|-1]];
    }
  }

  function Marked(op: StoreOp, given: seq<ImapFlag>, deleted: bool): bool {
    match op
    case Replace => DELETED in given
    case Add => deleted || DELETED in given
    case Remove => deleted && DELETED !in given
  }

  /** Section 6.4.6 of RFC 3501, for the flags the server supports. */
  predicate Asked(op: StoreOp, given: seq<ImapFlag>, before: set<ImapFlag>, f: ImapFlag) {
    match op
    case Replace => Supported(f) && f in given
    case Add => f in before || (Supported(f) && f in given)
    case Remove => f in before && f !in given
  }

  lemma {:induction false} SetEachSpec(flags: set<Flag>, fs: seq<ImapFlag>, on: bool, g: Flag)
    ensures g in SetEach(flags, fs, on) <==> if g in SYSTEM && ModelToImap(g) in fs then on else g in flags
  {
    if fs != [] {
      var init, last := fs[..|fs|-1], fs[|fs|-1];
      SetEachSpec(flags, init, on, g);
      assert fs == init + [last];
      if ModelFlag(last).Some? {
        MappingRoundTrip(last, ModelFlag(last).value);
      }
      MappingRoundTrip(last, g);
    }
  }

  lemma NamedAll(g: Flag)
    requires g in SYSTEM
    ensures ModelToImap(g) in Names(SYSTEM)
  {
    var i :| 0 <= i < |SYSTEM| && SYSTEM[i] == g;
    assert Names(SYSTEM)[i] == ModelToImap(g);
  }

  /** What becomes of each flag when only some of the changes get through. */
  lemma StoredFromSpec(op: StoreOp, cleared: seq<ImapFlag>, given: seq<ImapFlag>, flags: set<Flag>, g: Flag)
    ensures g in StoredFrom(op, cleared, given, flags) <==>
      if g !in SYSTEM then g in flags
      else match op
        case Replace => ModelToImap(g) in given || (g in flags && ModelToImap(g) !in cleared)
        case Add => g in flags || ModelToImap(g) in given
        case Remove => g in flags && ModelToImap(g) !in given
  {
    SetEachSpec(flags, given, op == Add, g);
    SetEachSpec(flags, cleared, false, g);
    SetEachSpec(SetEach(flags, cleared, false), given, true, g);
  }

  /** Theorem: after STORE the flags FETCH reports are exactly what the client asked for, and flags
      that IMAP does not know stay as they were. */
  lemma StoreMeansWhatItSays(op: StoreOp, given: seq<ImapFlag>, flags: set<Flag>, deleted: bool)
    ensures
      var before, after := Reported(flags, deleted), Reported(Stored(op, given, flags), Marked(op, given, deleted));
      forall f :: f in after <==> Asked(op, given, before, f)
    ensures forall g :: g !in SYSTEM ==> (g in Stored(op, given, flags) <==> g in flags)
  {
    forall g
      ensures g in Stored(op, given, flags) <==>
        if g in SYSTEM then (match op
          case Replace => ModelToImap(g) in given
          case Add => g in flags || ModelToImap(g) in given
          case Remove => g in flags && ModelToImap(g) !in given)
        else g in flags
    {
      StoredFromSpec(op, Names(SYSTEM), given, flags, g);
      if g in SYSTEM {
        NamedAll(g);
      }
    }
    forall f
      ensures f in Reported(Stored(op, given, flags), Marked(op, given, deleted)) <==>
        Asked(op, given, Reported(flags, deleted), f)
    {
      hide Stored, Reported;
      ReportedIff(flags, deleted, f);
      ReportedIff(Stored(op, given, flags), Marked(op, given, deleted), f);
      if ModelFlag(f).Some? {
        MappingRoundTrip(f, ModelFlag(f).value);
      }
    }
  }

  // ---------------------------------------------------------------- the code

  /** One selected message: the session's copy of its flags, and whether it is marked deleted. */
  class Selected {
    const acct: P.Account
    const id: Id
    var flags: set<Flag>
    var deleted: bool

    /** The account with the flags of this message, if it is live, changed. */
    ghost function Reflagged(messages: map<Id, Message>, flags: set<Flag>): map<Id, Message> {
      if id in messages then messages[id := messages[id].(flags := flags)] else messages
    }

    ghost function AcctFlags(messages: map<Id, Message>): set<Flag> {
      if id in messages then messages[id].flags else {}
    }

    lemma SameFlags(messages: map<Id, Message>)
      ensures Reflagged(messages, AcctFlags(messages)) == messages
    {
    }

    lemma TwiceReflagged(messages: map<Id, Message>, x: set<Flag>, y: set<Flag>)
      ensures Reflagged(Reflagged(messages, x), y) == Reflagged(messages, y)
      ensures id in messages ==> AcctFlags(Reflagged(messages, x)) == x
    {
    }

    lemma DeadReflagged(messages: map<Id, Message>, x: set<Flag>, y: map<Id, Message>)
      ensures id !in messages ==> Reflagged(messages, x) == messages && forall z :: Reflagged(messages, z) == messages
    {
    }

    constructor (acct: P.Account, id: Id, flags: set<Flag>)
      ensures this.acct == acct && this.id == id && this.flags == flags && !deleted
    {
      this.acct, this.id, this.flags, this.deleted := acct, id, flags, false;
    }

    /** One flag. `ok` says whether the log accepts the change; STORE ignores it when not. */
    method Set(f: ImapFlag, on: bool, ok: bool)
      modifies this, acct
      ensures flags == SetOne(old(flags), f, on)
      ensures deleted == if f == DELETED then on else old(deleted)
      ensures acct.messages == Reflagged(old(acct.messages),
        if ok then SetOne(AcctFlags(old(acct.messages)), f, on) else AcctFlags(old(acct.messages)))
      ensures Edge.OnlyMessages(old(acct.St()), acct.St())
    {
      if f == DELETED {
        deleted := on;
        return;
      }
      var g := ModelFlag(f);
      if g.None? {
        return;
      }
      if ok {
        Edge.SetFlag(acct, id, g.value, on);
      }
      flags := flags + {g.value};
      if !on {
        flags := flags - {g.value};
      }
    }

    method SetAll(fs: seq<ImapFlag>, on: bool, ok: seq<bool>)
      requires |fs| == |ok|
      modifies this, acct
      ensures flags == SetEach(old(flags), fs, on)
      ensures deleted == if DELETED in fs then on else old(deleted)
      ensures acct.messages == Reflagged(old(acct.messages),
          SetEach(AcctFlags(old(acct.messages)), Accepted(fs, ok), on))
      ensures Edge.OnlyMessages(old(acct.St()), acct.St())
    {
      SetNone(flags, fs, ok, on);
      SetNone(AcctFlags(acct.messages), fs, ok, on);
      SameFlags(acct.messages);
      hide SetEach, Accepted, SetOne, Reflagged;
      for i := 0 to |fs|
        invariant flags == SetEach(old(flags), fs[..i], on)
        invariant deleted == if DELETED in fs[..i] then on else old(deleted)
        invariant acct.messages == Reflagged(old(acct.messages),
            SetEach(AcctFlags(old(acct.messages)), Accepted(fs[..i], ok[..i]), on))
        invariant Edge.OnlyMessages(old(acct.St()), acct.St())
      {
        SetEachStep(old(flags), fs, on, i);
        AcceptedStep(AcctFlags(old(acct.messages)), fs, on, ok, i);
        ghost var before := SetEach(AcctFlags(old(acct.messages)), Accepted(fs[..i], ok[..i]), on);
        ghost var st := acct.St();
        Set(fs[i], on, ok[i]);
        Edge.OnlyTwice(old(acct.St()), st, acct.St());
        TwiceReflagged(old(acct.messages), before, if ok[i] then SetOne(before, fs[i], on) else before);
        DeadReflagged(old(acct.messages), before, acct.messages);
      }
      assert fs[..|fs|] == fs && ok[..|fs|] == ok;
    }

    /** applyStore: the session reports what was asked for, and so does the account as far as the log
        accepted the changes, one by one (`cleared` first, when it replaces); no other message and
        nothing else of the account changes. */
    method ApplyStore(op: StoreOp, given: seq<ImapFlag>, cleared: seq<bool>, ok: seq<bool>)
      requires |cleared| == |SYSTEM| && |ok| == |given|
      modifies this, acct
      ensures flags == Stored(op, given, old(flags)) && deleted == Marked(op, given, old(deleted))
      ensures acct.messages == Reflagged(old(acct.messages),
        StoredFrom(op, Accepted(Names(SYSTEM), cleared), Accepted(given, ok), AcctFlags(old(acct.messages))))
      ensures Edge.OnlyMessages(old(acct.St()), acct.St())
      ensures forall f :: f in Reported(flags, deleted) <==> Asked(op, given, old(Reported(flags, deleted)), f)
    {
      StoreMeansWhatItSays(op, given, flags, deleted);
      match op {
        case Replace =>
          SetAll(Names(SYSTEM), false, cleared);
          deleted := false;
          SetAll(given, true, ok);
        case Add => SetAll(given, true, ok);
        case Remove => SetAll(given, false, ok);
      }
    }
  }

  lemma SetNone(flags: set<Flag>, fs: seq<ImapFlag>, ok: seq<bool>, on: bool)
    requires |fs| == |ok|
    ensures SetEach(flags, fs[..0], on) == flags && Accepted(fs[..0], ok[..0]) == []
    ensures SetEach(flags, [], on) == flags
  {
  }

  lemma SetEachStep(flags: set<Flag>, fs: seq<ImapFlag>, on: bool, i: nat)
    requires i < |fs|
    ensures SetEach(flags, fs[..i+1], on) == SetOne(SetEach(flags, fs[..i], on), fs[i], on)
    ensures DELETED in fs[..i+1] <==> DELETED in fs[..i] || fs[i] == DELETED
  {
    assert fs[..i+1][..i] == fs[..i] && fs[..i+1] == fs[..i] + [fs[i]];
  }

  lemma AcceptedStep(flags: set<Flag>, fs: seq<ImapFlag>, on: bool, ok: seq<bool>, i: nat)
    requires i < |fs| == |ok|
    ensures var before := SetEach(flags, Accepted(fs[..i], ok[..i]), on);
      SetEach(flags, Accepted(fs[..i+1], ok[..i+1]), on) == if ok[i] then SetOne(before, fs[i], on) else before
  {
    assert fs[..i+1][..i] == fs[..i] && ok[..i+1][..i] == ok[..i];
    var x := Accepted(fs[..i], ok[..i]);
    assert Accepted(fs[..i+1], ok[..i+1]) == x + (if ok[i] then [fs[i]] else []);
    assert (x + [fs[i]])[..|x|] == x && x + [] == x;
  }
}
