/** adapters/jmap/server.go: applying an Email/set patch, whose paths Go visits in an arbitrary
    order. */
module Jmap {
  import opened Model
  import opened Seqs
  import P = Projection
  import opened Edge

  /** A JSON value, as far as the patch code tells values apart. Object is an object that decodes
      to a map of booleans, a null member to false; Other is anything else but null and booleans. */
  datatype Json = Null | Bool(b: bool) | Object(members: map<string, bool>) | Other

  type Patch = map<string, Json>

  const FLAGS: seq<Flag> := ["seen", "flagged", "answered", "draft"]

  function KeywordForFlag(f: Flag): string {
    if f == "seen" then "$seen" else if f == "flagged" then "$flagged"
    else if f == "answered" then "$answered" else if f == "draft" then "$draft" else ""
  }

  function FlagForKeyword(k: string): Flag {
    if k == "$seen" then "seen" else if k == "$flagged" then "flagged"
    else if k == "$answered" then "answered" else if k == "$draft" then "draft" else ""
  }

  function Truthy(v: Json): bool {
    match v
    case Null => false
    case Bool(b) => b
    case _ => true
  }

  /** Decoding into a map from names to booleans; null decodes to the empty map. */
  function Decode(v: Json): Option<map<string, bool>> {
    match v
    case Null => Some(map[])
    case Object(m) => Some(m)
    case _ => None
  }

  predicate On(m: map<string, bool>, k: string) {
    k in m && m[k]
  }

  // ---------------------------------------------------------------- paths

  datatype Target = Keywords | Keyword(flag: Flag) | Mailboxes | Mailbox(labelId: LabelId) | Ignored

  function Parse(path: string): Target {
    if path == "keywords" then Keywords
    else if "keywords/" <= path then
      var f := FlagForKeyword(path[9..]);
      if f == "" then Ignored else Keyword(f)
    else if path == "mailboxIds" then Mailboxes
    else if "mailboxIds/" <= path then Mailbox(path[11..])
    else Ignored
  }

  lemma FlagForKeywordInjective(j: string, k: string)
    requires FlagForKeyword(j) == FlagForKeyword(k) != ""
    ensures j == k
  {
  }

  /** Two different paths that mean something mean different things. */
  lemma ParseInjective(p: string, q: string)
    requires Parse(p) == Parse(q) != Ignored
    ensures p == q
  {
    match Parse(p)
    case Keyword(_) =>
      FlagForKeywordInjective(p[9..], q[9..]);
      assert p == "keywords/" + p[9..] && q == "keywords/" + q[9..];
    case Mailbox(_) =>
      assert p == "mailboxIds/" + p[11..] && q == "mailboxIds/" + q[11..];
    case _ =>
  }

  // ---------------------------------------------------------- what one path does

  predicate PathDecodes(t: Target, v: Json) {
    t == Keywords || t == Mailboxes ==> Decode(v).Some?
  }

  predicate Decodes(patch: Patch) {
    forall p :: p in patch ==> PathDecodes(Parse(p), patch[p])
  }

  function SetFlags(flags: set<Flag>, kw: map<string, bool>): set<Flag> {
    set f | f in flags + (set g | g in FLAGS) && (if f in FLAGS then On(kw, KeywordForFlag(f)) else f in flags)
  }

  function OnNames(m: map<string, bool>): set<string> {
    set l | l in m && m[l]
  }

  function ApplyPath(m: Message, t: Target, v: Json): Message
    requires PathDecodes(t, v)
  {
    match t
    case Keywords => m.(flags := SetFlags(m.flags, Decode(v).value))
    case Keyword(f) => m.(flags := if Truthy(v) then m.flags + {f} else m.flags - {f})
    case Mailboxes => m.(labels := OnNames(Decode(v).value))
    case Mailbox(l) => m.(labels := if Truthy(v) then m.labels + {l} else m.labels - {l})
    case Ignored => m
  }

  /** Visiting the paths of a patch in the given order. */
  function Result(m: Message, patch: Patch, order: seq<string>): Message {
    if order == [] then m
    else
      var before, last := Result(m, patch, order[..|order|-1]), order[|order|-1];
      if last in patch && PathDecodes(Parse(last), patch[last])
      then ApplyPath(before, Parse(last), patch[last])
      else before
  }

  /** order visits every path of the patch once. */
  ghost predicate Visits(patch: Patch, order: seq<string>) {
    Distinct(order) && forall p :: p in order <==> p in patch
  }

  // -------------------------------------------------------- what the patch declares

  /** What a path says of a flag, or of a label, if anything. */
  function SaysFlag(t: Target, v: Json, f: Flag): Option<bool>
    requires PathDecodes(t, v)
  {
    match t
    case Keywords => if f in FLAGS then Some(On(Decode(v).value, KeywordForFlag(f))) else None
    case Keyword(g) => if f == g then Some(Truthy(v)) else None
    case _ => None
  }

  function SaysLabel(t: Target, v: Json, l: LabelId): Option<bool>
    requires PathDecodes(t, v)
  {
    match t
    case Mailboxes => Some(On(Decode(v).value, l))
    case Mailbox(k) => if l == k then Some(Truthy(v)) else None
    case _ => None
  }

  /** No two paths of the patch say different things of one flag or label. A patch that does not
      mix a whole property with one of its sub-paths is of this kind (see Unmixed). */
  ghost predicate Compatible(patch: Patch)
    requires Decodes(patch)
  {
    forall p, q :: p in patch && q in patch ==> SayAlike(Parse(p), patch[p], Parse(q), patch[q])
  }

  ghost predicate SayAlike(t: Target, v: Json, u: Target, w: Json)
    requires PathDecodes(t, v) && PathDecodes(u, w)
  {
    && (forall f :: SaysFlag(t, v, f).Some? && SaysFlag(u, w, f).Some? ==> SaysFlag(t, v, f) == SaysFlag(u, w, f))
    && (forall l :: SaysLabel(t, v, l).Some? && SaysLabel(u, w, l).Some? ==> SaysLabel(t, v, l) == SaysLabel(u, w, l))
  }

  /** Section 5.3 of RFC 8620: no path is a prefix of another. */
  ghost predicate Unmixed(patch: Patch) {
    forall p, q :: p in patch && q in patch ==>
      && !(Parse(p) == Keywords && Parse(q).Keyword?)
      && !(Parse(p) == Mailboxes && Parse(q).Mailbox?)
  }

  lemma UnmixedIsCompatible(patch: Patch)
    requires Decodes(patch) && Unmixed(patch)
    ensures Compatible(patch)
  {
    forall p, q | p in patch && q in patch && Parse(p) == Parse(q) != Ignored
      ensures p == q
    {
      ParseInjective(p, q);
    }
    forall p, q | p in patch && q in patch
      ensures SayAlike(Parse(p), patch[p], Parse(q), patch[q])
    {
      hide Parse;
      if Parse(p) == Parse(q) != Ignored {
        assert p == q;
      } else {
        UnmixedSayAlike(Parse(p), patch[p], Parse(q), patch[q]);
      }
    }
  }

  lemma UnmixedSayAlike(t: Target, v: Json, u: Target, w: Json)
    requires PathDecodes(t, v) && PathDecodes(u, w) && (t != u || t == Ignored)
    requires !(t == Keywords && u.Keyword?) && !(u == Keywords && t.Keyword?)
    requires !(t == Mailboxes && u.Mailbox?) && !(u == Mailboxes && t.Mailbox?)
    ensures SayAlike(t, v, u, w)
  {
  }

  /** n is m with every declared flag and label as declared and all else untouched. */
  ghost predicate Declared(m: Message, patch: Patch, n: Message)
    requires Decodes(patch)
  {
    && n == m.(flags := n.flags, labels := n.labels)
    && (forall f, p :: p in patch && SaysFlag(Parse(p), patch[p], f).Some? ==>
          (f in n.flags <==> SaysFlag(Parse(p), patch[p], f).value))
    && (forall l, p :: p in patch && SaysLabel(Parse(p), patch[p], l).Some? ==>
          (l in n.labels <==> SaysLabel(Parse(p), patch[p], l).value))
    && (forall f :: (forall p :: p in patch ==> SaysFlag(Parse(p), patch[p], f).None?) ==>
        (f in n.flags <==> f in m.flags))
    && (forall l :: (forall p :: p in patch ==> SaysLabel(Parse(p), patch[p], l).None?) ==>
        (l in n.labels <==> l in m.labels))
  }

  lemma ApplyPathSays(m: Message, t: Target, v: Json)
    requires PathDecodes(t, v)
    ensures var n := ApplyPath(m, t, v);
      && n == m.(flags := n.flags, labels := n.labels)
      && (forall f :: f in n.flags <==> (if SaysFlag(t, v, f).Some? then SaysFlag(t, v, f).value else f in m.flags))
      && (forall l :: l in n.labels <==> (if SaysLabel(t, v, l).Some? then SaysLabel(t, v, l).value else l in m.labels))
  {
  }

  /** The last path of the order that says something of f, or of l, decides. */
  lemma {:induction false} LastWordDecides(m: Message, patch: Patch, order: seq<string>)
    requires Decodes(patch) && forall i :: 0 <= i < |order| ==> order[i] in patch
    ensures var n := Result(m, patch, order);
      && n == m.(flags := n.flags, labels := n.labels)
      && (forall f :: f in n.flags <==>
            (if LastFlag(patch, order, f).Some? then LastFlag(patch, order, f).value else f in m.flags))
      && (forall l :: l in n.labels <==>
            (if LastLabel(patch, order, l).Some? then LastLabel(patch, order, l).value else l in m.labels))
  {
    if order != [] {
      var init, last := order[..|order|-1], order[|order|-1];
      LastWordDecides(m, patch, init);
      ApplyPathSays(Result(m, patch, init), Parse(last), patch[last]);
    }
  }

  function LastFlag(patch: Patch, order: seq<string>, f: Flag): Option<bool>
    requires Decodes(patch) && forall i :: 0 <= i < |order| ==> order[i] in patch
  {
    if order == [] then None
    else
      var last := order[|order|-1];
      var said := SaysFlag(Parse(last), patch[last], f);
      if said.Some? then said else LastFlag(patch, order[..|order|-1], f)
  }

  function LastLabel(patch: Patch, order: seq<string>, l: LabelId): Option<bool>
    requires Decodes(patch) && forall i :: 0 <= i < |order| ==> order[i] in patch
  {
    if order == [] then None
    else
      var last := order[|order|-1];
      var said := SaysLabel(Parse(last), patch[last], l);
      if said.Some? then said else LastLabel(patch, order[..|order|-1], l)
  }

  lemma {:induction false} LastFlagSaid(patch: Patch, order: seq<string>, f: Flag)
    requires Decodes(patch) && forall i :: 0 <= i < |order| ==> order[i] in patch
    ensures LastFlag(patch, order, f).None? ==> forall p :: p in order ==> SaysFlag(Parse(p), patch[p], f).None?
    ensures LastFlag(patch, order, f).Some? ==>
      exists p :: p in order && SaysFlag(Parse(p), patch[p], f) == LastFlag(patch, order, f)
  {
    hide SaysFlag, Parse;
    if order != [] {
      var init, last := order[..|order|-1], order[|order|-1];
      assert forall p :: p in order <==> p in init || p == last by {
        assert order == init + [last];
      }
      LastFlagSaid(patch, init, f);
    }
  }

  lemma {:induction false} LastLabelSaid(patch: Patch, order: seq<string>, l: LabelId)
    requires Decodes(patch) && forall i :: 0 <= i < |order| ==> order[i] in patch
    ensures LastLabel(patch, order, l).None? ==> forall p :: p in order ==> SaysLabel(Parse(p), patch[p], l).None?
    ensures LastLabel(patch, order, l).Some? ==>
      exists p :: p in order && SaysLabel(Parse(p), patch[p], l) == LastLabel(patch, order, l)
  {
    hide SaysLabel, Parse;
    if order != [] {
      var init, last := order[..|order|-1], order[|order|-1];
      assert forall p :: p in order <==> p in init || p == last by {
        assert order == init + [last];
      }
      LastLabelSaid(patch, init, l);
    }
  }

  /** Theorem: a patch without contradictions leaves the message as it declares, in whatever
      order its paths are visited. */
  lemma PatchMeansWhatItSays(m: Message, patch: Patch, order: seq<string>)
    requires Decodes(patch) && Compatible(patch) && Visits(patch, order)
    ensures Declared(m, patch, Result(m, patch, order))
  {
    hide SaysFlag, SaysLabel, LastFlag, LastLabel, Result, Parse, Visits, Compatible;
    VisitsAll(patch, order);
    assert forall i :: 0 <= i < |order| ==> order[i] in order;
    LastWordDecides(m, patch, order);
    forall f { FlagsAsDeclared(patch, order, f); }
    forall l { LabelsAsDeclared(patch, order, l); }
  }

  lemma VisitsAll(patch: Patch, order: seq<string>)
    requires Visits(patch, order)
    ensures forall p :: p in order <==> p in patch
  {
  }

  lemma FlagsAsDeclared(patch: Patch, order: seq<string>, f: Flag)
    requires Decodes(patch) && Compatible(patch) && Visits(patch, order)
    requires forall i :: 0 <= i < |order| ==> order[i] in patch
    ensures LastFlag(patch, order, f).None? <==> forall p :: p in patch ==> SaysFlag(Parse(p), patch[p], f).None?
    ensures forall p :: p in patch && SaysFlag(Parse(p), patch[p], f).Some? ==>
      SaysFlag(Parse(p), patch[p], f) == LastFlag(patch, order, f)
  {
    hide SaysFlag, SaysLabel, LastFlag, Parse;
    LastFlagSaid(patch, order, f);
  }

  lemma LabelsAsDeclared(patch: Patch, order: seq<string>, l: LabelId)
    requires Decodes(patch) && Compatible(patch) && Visits(patch, order)
    requires forall i :: 0 <= i < |order| ==> order[i] in patch
    ensures LastLabel(patch, order, l).None? <==> forall p :: p in patch ==> SaysLabel(Parse(p), patch[p], l).None?
    ensures forall p :: p in patch && SaysLabel(Parse(p), patch[p], l).Some? ==>
      SaysLabel(Parse(p), patch[p], l) == LastLabel(patch, order, l)
  {
    hide SaysFlag, SaysLabel, LastLabel, Parse;
    LastLabelSaid(patch, order, l);
  }

  /** Declared leaves no choice. */
  lemma DeclaredOnce(m: Message, patch: Patch, n: Message, o: Message)
    requires Decodes(patch) && Declared(m, patch, n) && Declared(m, patch, o)
    ensures n == o
  {
    forall f
      ensures f in n.flags <==> f in o.flags
    {
      if p :| p in patch && SaysFlag(Parse(p), patch[p], f).Some? {
      }
    }
    forall l
      ensures l in n.labels <==> l in o.labels
    {
      if p :| p in patch && SaysLabel(Parse(p), patch[p], l).Some? {
      }
    }
    assert n.flags == o.flags && n.labels == o.labels;
  }

  ghost predicate OrderIndependent(patch: Patch)
    requires Decodes(patch)
  {
    forall m, x, y :: Visits(patch, x) && Visits(patch, y) ==> Result(m, patch, x) == Result(m, patch, y)
  }

  lemma EndsWith(patch: Patch, p: string) returns (order: seq<string>)
    requires p in patch
    ensures Visits(patch, order) && order[|order|-1] == p && |order| > 0
  {
    var rest := Listing(patch.Keys - {p});
    DistinctSnoc(rest, p);
    order := rest + [p];
  }

  /** Two paths that contradict each other: whichever comes last wins. */
  lemma LastOneWins(patch: Patch, m: Message, p: string, q: string) returns (x: seq<string>, y: seq<string>)
    requires Decodes(patch) && p in patch && q in patch && !SayAlike(Parse(p), patch[p], Parse(q), patch[q])
    ensures Visits(patch, x) && Visits(patch, y) && Result(m, patch, x) != Result(m, patch, y)
  {
    x := EndsWith(patch, p);
    y := EndsWith(patch, q);
    assert forall i :: 0 <= i < |x| ==> x[i] in x;
    assert forall i :: 0 <= i < |y| ==> y[i] in y;
    LastWordDecides(m, patch, x);
    LastWordDecides(m, patch, y);
    hide Result, SaysFlag, SaysLabel, LastFlag, LastLabel;
    if f :| SaysFlag(Parse(p), patch[p], f).Some? && SaysFlag(Parse(q), patch[q], f).Some? &&
            SaysFlag(Parse(p), patch[p], f) != SaysFlag(Parse(q), patch[q], f) {
      assert (f in Result(m, patch, x).flags) != (f in Result(m, patch, y).flags);
    } else {
      var l :| SaysLabel(Parse(p), patch[p], l).Some? && SaysLabel(Parse(q), patch[q], l).Some? &&
               SaysLabel(Parse(p), patch[p], l) != SaysLabel(Parse(q), patch[q], l);
      assert (l in Result(m, patch, x).labels) != (l in Result(m, patch, y).labels);
    }
  }

  /** Theorem: the outcome is the same for every iteration order, on every message, if and only if
      no two paths contradict each other. */
  lemma OrderMattersOnlyInContradiction(patch: Patch)
    requires Decodes(patch)
    ensures OrderIndependent(patch) <==> Compatible(patch)
  {
    hide SayAlike, Result, Declared;
    if Compatible(patch) {
      forall n, x, y | Visits(patch, x) && Visits(patch, y)
        ensures Result(n, patch, x) == Result(n, patch, y)
      {
        PatchMeansWhatItSays(n, patch, x);
        PatchMeansWhatItSays(n, patch, y);
        DeclaredOnce(n, patch, Result(n, patch, x), Result(n, patch, y));
      }
    } else {
      var p, q :| p in patch && q in patch && !SayAlike(Parse(p), patch[p], Parse(q), patch[q]);
      var m := Message("", "", Envelope([], 0, "", "", []), 0, "", {}, {});
      var x, y := LastOneWins(patch, m, p, q);
    }
  }

  // ------------------------------------------------------- the code, over an account

  /** The same live messages, all but message id unchanged. */
  ghost predicate OnlyMessage(id: Id, m: map<Id, Message>, n: map<Id, Message>) {
    n.Keys == m.Keys && forall x :: x in m && x != id ==> n[x] == m[x]
  }

  // The log may refuse a change: `refused` holds the numbers of those of a patch that it does not
  // take. A method that starts at change n returns the number m of the next one, or of the one
  // that was refused.

  method TryFlag(acct: P.Account, id: Id, f: Flag, on: bool, accepted: bool) returns (ok: bool)
    modifies acct
    ensures ok == accepted && OnlyMessages(old(acct.St()), acct.St())
    ensures !ok || id !in old(acct.messages) ==> acct.messages == old(acct.messages)
    ensures ok && id in old(acct.messages) ==>
      acct.messages == Put(old(acct.messages), id, Flagged(old(acct.messages[id]), f, on))
  {
    if accepted {
      SetFlag(acct, id, f, on);
    }
    ok := accepted;
  }

  method TryLabel(acct: P.Account, id: Id, l: LabelId, on: bool, accepted: bool) returns (ok: bool)
    modifies acct
    ensures ok == accepted && OnlyMessages(old(acct.St()), acct.St())
    ensures !ok || id !in old(acct.messages) ==> acct.messages == old(acct.messages)
    ensures ok && id in old(acct.messages) ==>
      acct.messages == Put(old(acct.messages), id, Tagged(old(acct.messages[id]), l, on))
  {
    if accepted {
      SetLabel(acct, id, l, on);
    }
    ok := accepted;
  }

  /** The flags after the first i of FLAGS have been set as kw says. */
  function FirstSet(flags: set<Flag>, kw: map<string, bool>, i: nat): set<Flag>
    requires i <= |FLAGS|
  {
    set f | f in flags + (set g | g in FLAGS[..i]) &&
            (if f in FLAGS[..i] then On(kw, KeywordForFlag(f)) else f in flags)
  }

  lemma FirstSetEnds(flags: set<Flag>, kw: map<string, bool>)
    ensures FirstSet(flags, kw, 0) == flags && FirstSet(flags, kw, |FLAGS|) == SetFlags(flags, kw)
  {
    assert FLAGS[..|FLAGS|] == FLAGS;
    hide KeywordForFlag;
  }

  /** m with the first i of FLAGS set as kw says. */
  function KeywordsSet(m: Message, kw: map<string, bool>, i: nat): Message
    requires i <= |FLAGS|
  {
    m.(flags := FirstSet(m.flags, kw, i))
  }

  lemma KeywordsSetEnds(m: Message, kw: map<string, bool>)
    ensures KeywordsSet(m, kw, 0) == m && KeywordsSet(m, kw, |FLAGS|).flags == SetFlags(m.flags, kw)
  {
    FirstSetEnds(m.flags, kw);
    hide FirstSet, SetFlags;
  }

  lemma KeywordsSetStep(m: Message, kw: map<string, bool>, i: nat)
    requires i < |FLAGS|
    ensures var f, before := FLAGS[i], KeywordsSet(m, kw, i);
      KeywordsSet(m, kw, i + 1) ==
        if (f in m.flags) == On(kw, KeywordForFlag(f)) then before else Flagged(before, f, On(kw, KeywordForFlag(f)))
  {
    FirstSetStep(m.flags, kw, i);
    hide FirstSet, KeywordForFlag;
  }

  lemma FirstSetStep(flags: set<Flag>, kw: map<string, bool>, i: nat)
    requires i < |FLAGS|
    ensures var f, before := FLAGS[i], FirstSet(flags, kw, i);
      FirstSet(flags, kw, i + 1) ==
        if (f in flags) == On(kw, KeywordForFlag(f)) then before
        else if On(kw, KeywordForFlag(f)) then before + {f}
        else before - {f}
  {
    assert forall g :: g in FLAGS[..i+1] <==> g in FLAGS[..i] || g == FLAGS[i];
    assert FLAGS[i] !in FLAGS[..i];
    hide KeywordForFlag;
  }

  /** n is m with some flags changed, each to what kw says of it. */
  ghost predicate TowardsKeywords(m: Message, kw: map<string, bool>, n: Message) {
    && n == m.(flags := n.flags)
    && forall f :: (f in n.flags) != (f in m.flags) ==> f in FLAGS && (f in n.flags) == On(kw, KeywordForFlag(f))
  }

  lemma FirstSetTowards(m: Message, kw: map<string, bool>, i: nat)
    requires i <= |FLAGS|
    ensures TowardsKeywords(m, kw, KeywordsSet(m, kw, i))
  {
    assert forall g :: g in FLAGS[..i] ==> g in FLAGS;
    hide KeywordForFlag;
  }

  method SetAllKeywords(acct: P.Account, id: Id, kw: map<string, bool>, refused: set<nat>, n: nat)
      returns (ok: bool, m: nat)
    modifies acct
    ensures m >= n && (!ok ==> m in refused)
    ensures OnlyMessages(old(acct.St()), acct.St())
    ensures id !in old(acct.messages) ==> acct.messages == old(acct.messages)
    ensures id in old(acct.messages) ==>
      id in acct.messages && acct.messages == Put(old(acct.messages), id, acct.messages[id]) &&
      TowardsKeywords(old(acct.messages[id]), kw, acct.messages[id])
    ensures ok && id in old(acct.messages) ==> acct.messages[id].flags == SetFlags(old(acct.messages[id]).flags, kw)
  {
    ok, m := true, n;
    if id !in acct.messages {
      return;
    }
    var was := acct.messages[id];
    hide KeywordsSet, TowardsKeywords, KeywordForFlag, SetFlags, Put, Flagged;
    KeywordsSetEnds(was, kw);
    PutTwice(acct.messages, id, was, was);
    for i := 0 to |FLAGS|
      invariant m >= n && OnlyMessages(old(acct.St()), acct.St())
      invariant acct.messages == Put(old(acct.messages), id, KeywordsSet(was, kw, i))
    {
      KeywordsSetStep(was, kw, i);
      PutTwice(old(acct.messages), id, KeywordsSet(was, kw, i), KeywordsSet(was, kw, i + 1));
      var f := FLAGS[i];
      var want := On(kw, KeywordForFlag(f));
      if (f in was.flags) != want {
        ghost var before := acct.St();
        ok := TryFlag(acct, id, f, want, m !in refused);
        OnlyTwice(old(acct.St()), before, acct.St());
        if !ok {
          FirstSetTowards(was, kw, i);
          return;
        }
        m := m + 1;
      }
    }
    ok := true;
    FirstSetTowards(was, kw, |FLAGS|);
    PutTwice(old(acct.messages), id, KeywordsSet(was, kw, |FLAGS|), was);
  }

  /** n is m with some labels changed, each to what mids says of it. */
  ghost predicate TowardsMailboxes(m: Message, mids: map<string, bool>, n: Message) {
    && n == m.(labels := n.labels)
    && forall l :: (l in n.labels) != (l in m.labels) ==> (l in n.labels) == On(mids, l)
  }

  method SetAllMailboxes(acct: P.Account, id: Id, mids: map<string, bool>, refused: set<nat>, n: nat)
      returns (ok: bool, m: nat)
    modifies acct
    ensures m >= n && (!ok ==> m in refused)
    ensures OnlyMessages(old(acct.St()), acct.St())
    ensures id !in old(acct.messages) ==> acct.messages == old(acct.messages)
    ensures id in old(acct.messages) ==>
      id in acct.messages && acct.messages == Put(old(acct.messages), id, acct.messages[id]) &&
      TowardsMailboxes(old(acct.messages[id]), mids, acct.messages[id])
    ensures ok && id in old(acct.messages) ==> acct.messages[id].labels == OnNames(mids)
  {
    ok, m := true, n;
    if id !in acct.messages {
      return;
    }
    var was := acct.messages[id];
    var todo := was.labels;
    while todo != {}
      invariant m >= n && todo <= was.labels && OnlyMessages(old(acct.St()), acct.St()) && id in acct.messages
      invariant acct.messages == old(acct.messages)[id := was.(labels := acct.messages[id].labels)]
      invariant forall l :: l in acct.messages[id].labels <==> l in was.labels && (l in todo || On(mids, l))
    {
      var l :| l in todo;
      if !On(mids, l) {
        ghost var before := acct.St();
        ok := TryLabel(acct, id, l, false, m !in refused);
        OnlyTwice(old(acct.St()), before, acct.St());
        if !ok {
          return;
        }
        m := m + 1;
      }
      todo := todo - {l};
    }
    todo := mids.Keys;
    while todo != {}
      invariant m >= n && todo <= mids.Keys && OnlyMessages(old(acct.St()), acct.St()) && id in acct.messages
      invariant acct.messages == old(acct.messages)[id := was.(labels := acct.messages[id].labels)]
      invariant forall l :: l in acct.messages[id].labels ==> On(mids, l)
      invariant forall l :: On(mids, l) && (l !in todo || l in was.labels) ==> l in acct.messages[id].labels
    {
      var l :| l in todo;
      if mids[l] {
        ghost var before := acct.St();
        ok := TryLabel(acct, id, l, true, m !in refused);
        OnlyTwice(old(acct.St()), before, acct.St());
        if !ok {
          return;
        }
        m := m + 1;
      }
      todo := todo - {l};
    }
    ok := true;
    assert acct.messages[id].labels == OnNames(mids);
  }

  /** n is m with some flags and labels changed, each to what the path says of it. */
  ghost predicate Towards(m: Message, t: Target, v: Json, n: Message)
    requires PathDecodes(t, v)
  {
    && n == m.(flags := n.flags, labels := n.labels)
    && (forall f :: (f in n.flags) != (f in m.flags) ==> SaysFlag(t, v, f) == Some(f in n.flags))
    && (forall l :: (l in n.labels) != (l in m.labels) ==> SaysLabel(t, v, l) == Some(l in n.labels))
  }

  /** One iteration of the loop over the patch. */
  method ApplyOnePath(acct: P.Account, id: Id, path: string, v: Json, refused: set<nat>, n: nat)
      returns (ok: bool, m: nat)
    modifies acct
    ensures m >= n && OnlyMessages(old(acct.St()), acct.St())
    ensures id !in old(acct.messages) ==> acct.messages == old(acct.messages)
    ensures ok ==> PathDecodes(Parse(path), v)
    ensures !ok ==> !PathDecodes(Parse(path), v) || m in refused
    ensures !PathDecodes(Parse(path), v) ==> acct.messages == old(acct.messages)
    ensures id in old(acct.messages) && PathDecodes(Parse(path), v) ==>
      id in acct.messages && acct.messages == Put(old(acct.messages), id, acct.messages[id]) &&
      Towards(old(acct.messages[id]), Parse(path), v, acct.messages[id])
    ensures ok && id in old(acct.messages) ==> acct.messages[id] == ApplyPath(old(acct.messages[id]), Parse(path), v)
  {
    ok, m := true, n;
    match Parse(path) {
      case Keywords =>
        var kw := Decode(v);
        if kw.None? {
          return false, n;
        }
        ok, m := SetAllKeywords(acct, id, kw.value, refused, n);
      case Keyword(f) =>
        ok := TryFlag(acct, id, f, Truthy(v), n !in refused);
        m := if ok then n + 1 else n;
      case Mailboxes =>
        var mids := Decode(v);
        if mids.None? {
          return false, n;
        }
        ok, m := SetAllMailboxes(acct, id, mids.value, refused, n);
      case Mailbox(l) =>
        ok := TryLabel(acct, id, l, Truthy(v), n !in refused);
        m := if ok then n + 1 else n;
      case Ignored =>
    }
  }

  /** n is m with some flags and labels changed, each to what some path of the patch says of it. */
  ghost predicate TowardsPatch(m: Message, patch: Patch, n: Message) {
    && n == m.(flags := n.flags, labels := n.labels)
    && (forall f :: (f in n.flags) != (f in m.flags) ==> exists p :: PatchSaysFlag(patch, p, f, f in n.flags))
    && (forall l :: (l in n.labels) != (l in m.labels) ==> exists p :: PatchSaysLabel(patch, p, l, l in n.labels))
  }

  predicate PatchSaysFlag(patch: Patch, p: string, f: Flag, on: bool) {
    p in patch && PathDecodes(Parse(p), patch[p]) && SaysFlag(Parse(p), patch[p], f) == Some(on)
  }

  predicate PatchSaysLabel(patch: Patch, p: string, l: LabelId, on: bool) {
    p in patch && PathDecodes(Parse(p), patch[p]) && SaysLabel(Parse(p), patch[p], l) == Some(on)
  }

  lemma FurtherTowards(m: Message, patch: Patch, k: Message, p: string, n: Message)
    requires TowardsPatch(m, patch, k) && p in patch && PathDecodes(Parse(p), patch[p])
    requires Towards(k, Parse(p), patch[p], n)
    ensures TowardsPatch(m, patch, n)
  {
    hide Parse, SaysFlag, SaysLabel;
    forall f | (f in n.flags) != (f in m.flags)
      ensures exists q :: PatchSaysFlag(patch, q, f, f in n.flags)
    {
      if (f in n.flags) != (f in k.flags) {
        assert PatchSaysFlag(patch, p, f, f in n.flags);
      }
    }
    forall l | (l in n.labels) != (l in m.labels)
      ensures exists q :: PatchSaysLabel(patch, q, l, l in n.labels)
    {
      if (l in n.labels) != (l in k.labels) {
        assert PatchSaysLabel(patch, p, l, l in n.labels);
      }
    }
  }

  /** applyPatch: it succeeds only if every whole property decodes, and fails only if one does not or
      the log refuses a change. However far it gets, other messages stay as they were, and what
      changed in this one some path asked for. When it succeeds the message ends as the
      declarations of the patch say, if they do not contradict each other. */
  method ApplyPatch(acct: P.Account, id: Id, patch: Patch, refused: set<nat>)
      returns (ok: bool, ghost order: seq<string>)
    modifies acct
    ensures ok ==> Decodes(patch)
    ensures refused == {} ==> (ok <==> Decodes(patch))
    ensures OnlyMessages(old(acct.St()), acct.St())
    ensures OnlyMessage(id, old(acct.messages), acct.messages)
    ensures id in old(acct.messages) ==>
      id in acct.messages && TowardsPatch(old(acct.messages[id]), patch, acct.messages[id])
    ensures ok ==> Visits(patch, order)
    ensures ok && id in old(acct.messages) ==> acct.messages[id] == Result(old(acct.messages[id]), patch, order)
    ensures ok && id in old(acct.messages) && Compatible(patch) ==>
      Declared(old(acct.messages[id]), patch, acct.messages[id])
  {
    hide Parse, SaysFlag, SaysLabel, ApplyPath, Declared, Compatible;
    order := [];
    var todo := patch.Keys;
    var n := 0;
    while todo != {}
      invariant todo <= patch.Keys && Distinct(order) && forall p :: p in order <==> p in patch && p !in todo
      invariant forall p :: p in order ==> PathDecodes(Parse(p), patch[p])
      invariant OnlyMessages(old(acct.St()), acct.St())
      invariant OnlyMessage(id, old(acct.messages), acct.messages)
      invariant id in acct.messages ==> TowardsPatch(old(acct.messages[id]), patch, acct.messages[id])
      invariant id in acct.messages ==> acct.messages[id] == Result(old(acct.messages[id]), patch, order)
    {
      var path :| path in todo;
      ghost var before, st := acct.messages, acct.St();
      ok, n := ApplyOnePath(acct, id, path, patch[path], refused, n);
      OnlyTwice(old(acct.St()), st, acct.St());
      if id in before && PathDecodes(Parse(path), patch[path]) {
        FurtherTowards(old(acct.messages[id]), patch, before[id], path, acct.messages[id]);
      }
      if !ok {
        return;
      }
      todo := todo - {path};
      DistinctSnoc(order, path);
      assert (order + [path])[..|order|] == order;
      order := order + [path];
    }
    ok := true;
    assert forall i :: 0 <= i < |order| ==> order[i] in order;
    if id in old(acct.messages) {
      if Compatible(patch) {
        PatchMeansWhatItSays(old(acct.messages[id]), patch, order);
      }
    }
  }
}
