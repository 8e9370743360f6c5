/** The changes that the protocol adapters ask of one message, on the account behind the runtime. */
module Edge {
  import opened Model
  import P = Projection

  /** The account may differ from a state only in the messages and the Seq. */
  ghost predicate OnlyMessages(a: P.State, b: P.State) {
    b == a.(messages := b.messages, seqNo := b.seqNo)
  }

  lemma OnlyTwice(a: P.State, b: P.State, c: P.State)
    requires OnlyMessages(a, b) && OnlyMessages(b, c)
    ensures OnlyMessages(a, c)
  {
  }

  function Put(messages: map<Id, Message>, id: Id, m: Message): map<Id, Message> {
    messages[id := m]
  }

  lemma PutTwice(messages: map<Id, Message>, id: Id, m: Message, n: Message)
    ensures Put(Put(messages, id, m), id, n) == Put(messages, id, n)
    ensures id in Put(messages, id, m) && Put(messages, id, m)[id] == m
    ensures id in messages ==> Put(messages, id, messages[id]) == messages
  {
  }

  function Flagged(m: Message, f: Flag, on: bool): Message {
    m.(flags := if on then m.flags + {f} else m.flags - {f})
  }

  function Tagged(m: Message, l: LabelId, on: bool): Message {
    m.(labels := if on then m.labels + {l} else m.labels - {l})
  }

  method SetFlag(acct: P.Account, id: Id, f: Flag, on: bool)
    modifies acct
    ensures OnlyMessages(old(acct.St()), acct.St())
    ensures id !in old(acct.messages) ==> acct.messages == old(acct.messages)
    ensures id in old(acct.messages) ==>
      acct.messages == Put(old(acct.messages), id, Flagged(old(acct.messages[id]), f, on))
  {
    acct.Apply(Record(acct.seqNo + 1, FlagSet(id, f, on)));
  }

  method SetLabel(acct: P.Account, id: Id, l: LabelId, on: bool)
    modifies acct
    ensures OnlyMessages(old(acct.St()), acct.St())
    ensures id !in old(acct.messages) ==> acct.messages == old(acct.messages)
    ensures id in old(acct.messages) ==>
      acct.messages == Put(old(acct.messages), id, Tagged(old(acct.messages[id]), l, on))
  {
    if on {
      acct.Apply(Record(acct.seqNo + 1, Labeled(id, l)));
    } else {
      acct.Apply(Record(acct.seqNo + 1, Unlabeled(id, l)));
    }
  }
}
