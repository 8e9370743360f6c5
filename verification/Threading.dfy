/** internal/threading: which conversation a new message joins. */
module Threading {
  import opened Model
  import opened Projection

  /** The references of a message in the order Resolve tries them. */
  function Refs(env: Envelope): seq<string> {
    env.references + (if env.inReplyTo != "" then [env.inReplyTo] else [])
  }

  /** The thread of the first reference that is known. */
  function FirstKnown(byHeader: map<string, Id>, refs: seq<string>): Option<Id> {
    if refs == [] then None
    else if refs[0] != "" && refs[0] in byHeader then Some(byHeader[refs[0]])
    else FirstKnown(byHeader, refs[1..])
  }

  function Resolved(byHeader: map<string, Id>, env: Envelope, minted: Id): Id {
    var t := FirstKnown(byHeader, Refs(env));
    if t.Some? && t.value != "" then t.value else minted
  }

  function Noted(byHeader: map<string, Id>, env: Envelope, threadId: Id): map<string, Id> {
    if env.messageId != "" then byHeader[env.messageId := threadId] else byHeader
  }

  /** The threader knows every live Message-ID and files it where the projection does. */
  ghost predicate Agrees(byHeader: map<string, Id>, messages: map<Id, Message>) {
    forall id :: id in messages && messages[id].envelope.messageId != "" ==>
      messages[id].envelope.messageId in byHeader && byHeader[messages[id].envelope.messageId] == messages[id].threadId
  }

  /** A map Open may seed the threader with: the live headers, each with the thread of a
      message that carries it. */
  ghost predicate Seeded(messages: map<Id, Message>, byHeader: map<string, Id>) {
    && byHeader.Keys == Headers(messages)
    && forall h :: h in byHeader ==>
         exists id :: id in messages && messages[id].envelope.messageId == h && byHeader[h] == messages[id].threadId
  }

  lemma SeededAgrees(messages: map<Id, Message>, index: map<string, Id>, byHeader: map<string, Id>)
    requires IndexExact(messages, index) && Seeded(messages, byHeader)
    ensures Agrees(byHeader, messages)
  {
    forall id | id in messages && messages[id].envelope.messageId != ""
      ensures messages[id].envelope.messageId in byHeader
      ensures byHeader[messages[id].envelope.messageId] == messages[id].threadId
    {
      assert messages[id].envelope.messageId in Headers(messages);
    }
  }

  /** The first reference that is not empty and among the given ones. */
  function FirstAmong(headers: set<string>, refs: seq<string>): Option<string> {
    if refs == [] then None
    else if refs[0] != "" && refs[0] in headers then Some(refs[0])
    else FirstAmong(headers, refs[1..])
  }

  lemma {:induction false} FirstKnownIs(byHeader: map<string, Id>, refs: seq<string>)
    ensures var r := FirstAmong(byHeader.Keys, refs);
      && (r.Some? ==> r.value in byHeader)
      && FirstKnown(byHeader, refs) == if r.Some? then Some(byHeader[r.value]) else None
  {
    if refs != [] {
      FirstKnownIs(byHeader, refs[1..]);
    }
  }

  lemma {:induction false} FirstAmongFewer(few: set<string>, more: set<string>, refs: seq<string>)
    requires few <= more
    ensures var f, m := FirstAmong(few, refs), FirstAmong(more, refs);
      && (f.Some? ==> f.value in few && m.Some?)
      && (m.Some? && m.value in few ==> f == m)
  {
    if refs != [] {
      FirstAmongFewer(few, more, refs[1..]);
    }
  }

  /** Theorem: a reply resolves alike in the threader that has been running and in the one a restart
      seeds if and only if the running one knows none of its references, or files the first it knows
      under the same thread as the first that is live. */
  lemma SameThreadIff(running: map<string, Id>, seeded: map<string, Id>, messages: map<Id, Message>,
                      index: map<string, Id>, env: Envelope)
    requires Agrees(running, messages) && IndexExact(messages, index) && Seeded(messages, seeded)
    ensures FirstKnown(running, Refs(env)) == FirstKnown(seeded, Refs(env)) <==> ResolvesAlike(running, messages, env)
  {
    SeededAgrees(messages, index, seeded);
    FirstKnownIs(running, Refs(env));
    FirstKnownIs(seeded, Refs(env));
    FirstAmongFewer(Headers(messages), running.Keys, Refs(env));
  }

  predicate ResolvesAlike(running: map<string, Id>, messages: map<Id, Message>, env: Envelope) {
    var known, live := FirstAmong(running.Keys, Refs(env)), FirstAmong(Headers(messages), Refs(env));
    known.None? ||
    (live.Some? && known.value in running && live.value in running && running[known.value] == running[live.value])
  }

  /** So it does when the first reference that is known is live. */
  lemma SameThreadAfterRestart(running: map<string, Id>, seeded: map<string, Id>, messages: map<Id, Message>,
                               index: map<string, Id>, env: Envelope)
    requires Agrees(running, messages) && IndexExact(messages, index) && Seeded(messages, seeded)
    requires var r := FirstAmong(running.Keys, Refs(env)); r.Some? ==> r.value in Headers(messages)
    ensures FirstKnown(running, Refs(env)) == FirstKnown(seeded, Refs(env))
  {
    FirstAmongFewer(Headers(messages), running.Keys, Refs(env));
    FirstKnownIs(running, Refs(env));
    SameThreadIff(running, seeded, messages, index, env);
  }

  /** A merge seen by a running threader leaves it where the projection is if and only if it
      moves no live message that has a Message-ID. */
  lemma MergeAndThreader(byHeader: map<string, Id>, p: State, into: Id, from: Id)
    requires Consistent(p) && Agrees(byHeader, p.messages)
    ensures Agrees(byHeader, ApplyEvent(p, ThreadMerged(into, from)).messages) <==>
      into == from || into == "" || from == "" ||
      forall id :: id in p.messages && p.messages[id].envelope.messageId != "" ==> p.messages[id].threadId != from
  {
    var after := ApplyEvent(p, ThreadMerged(into, from)).messages;
    if into != from && into != "" && from != "" {
      assert forall id :: Lists(p.threads, from, id) <==> id in p.messages && p.messages[id].threadId == from;
      forall id | id in p.messages
        ensures after[id].envelope == p.messages[id].envelope
        ensures after[id].threadId == if p.messages[id].threadId == from then into else p.messages[id].threadId
      {
        assert Lists(p.threads, from, id) <==> p.messages[id].threadId == from;
      }
      if id :| id in p.messages && p.messages[id].envelope.messageId != "" && p.messages[id].threadId == from {
        assert after[id].threadId == into;
      }
    }
  }

  class Threader {
    var byHeader: map<string, Id>

    constructor ()
      ensures byHeader == map[]
    {
      byHeader := map[];
    }

    method Seed(headerToThread: map<string, Id>)
      modifies this
      ensures byHeader == old(byHeader) + (headerToThread - {""})
    {
      var todo := headerToThread.Keys;
      while todo != {}
        invariant todo <= headerToThread.Keys
        invariant byHeader == old(byHeader) + map h | h in headerToThread && h !in todo && h != "" :: headerToThread[h]
      {
        var h :| h in todo;
        if h != "" {
          byHeader := byHeader[h := headerToThread[h]];
        }
        todo := todo - {h};
      }
    }

    /** minted is the id the generator would hand out. */
    method Resolve(env: Envelope, minted: Id) returns (threadId: Id)
      modifies this
      ensures threadId == Resolved(old(byHeader), env, minted)
      ensures byHeader == Noted(old(byHeader), env, threadId)
    {
      threadId := "";
      var refs := env.references;
      if env.inReplyTo != "" {
        refs := refs + [env.inReplyTo];
      }
      assert refs == Refs(env);
      var i := 0;
      while i < |refs|
        invariant i <= |refs| && byHeader == old(byHeader) && threadId == ""
        invariant FirstKnown(byHeader, refs) == FirstKnown(byHeader, refs[i..])
      {
        if refs[i] != "" && refs[i] in byHeader {
          threadId := byHeader[refs[i]];
          break;
        }
        i := i + 1;
      }
      if threadId == "" {
        threadId := minted;
      }
      if env.messageId != "" {
        byHeader := byHeader[env.messageId := threadId];
      }
    }
  }
}
