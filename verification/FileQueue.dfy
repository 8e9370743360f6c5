/** services/mtaout/filequeue.go: the durable outbound queue, one file per message, each written
    through a temporary file and a rename. */
module FileQueue {
  import opened Model
  import opened Seqs

  datatype OutMessage = OutMessage(id: string, tenant: string, fromDomain: string, rcptDomain: string, raw: string)

  /** A queued message with its retry state: the in-memory `queued` and the stored `QueuedItem`. */
  datatype Queued = Queued(msg: OutMessage, attempts: nat, nextAttempt: int)

  // ---------------------------------------------------------------- file names

  predicate Plain(c: char) {
    'a' <= c <= 'z' || 'A' <= c <= 'Z' || '0' <= c <= '9' || c == '-' || c == '_'
  }

  const MAX_NAME := 200

  /** Every other character, a dot included, becomes an underscore. */
  function Escaped(id: string): string {
    seq(|id|, i requires 0 <= i < |id| => if Plain(id[i]) then id[i] else '_')
  }

  function SafeName(id: string): string {
    if id == "" then "q" else if |id| > MAX_NAME then Escaped(id)[..MAX_NAME] else Escaped(id)
  }

  /** safeQueueName: the rune buffer, built in a loop. */
  method SafeQueueName(id: string) returns (name: string)
    ensures name == SafeName(id)
  {
    var b := [];
    for i := 0 to |id|
      invariant b == Escaped(id)[..i]
    {
      if Plain(id[i]) || id[i] == '.' {
        b := b + [if id[i] == '.' then '_' else id[i]];
      } else {
        b := b + ['_'];
      }
    }
    assert b == Escaped(id);
    if |b| == 0 {
      return "q";
    }
    if |b| > MAX_NAME {
      b := b[..MAX_NAME];
    }
    return b;
  }

  function FinalName(id: string): string {
    SafeName(id) + ".json"
  }

  function TmpName(id: string): string {
    FinalName(id) + ".tmp"
  }

  predicate IsJson(name: string) {
    |name| >= 5 && name[|name|-5..] == ".json"
  }

  lemma FinalNames(a: string, b: string)
    ensures IsJson(FinalName(a)) && !IsJson(TmpName(a)) && FinalName(a) != TmpName(b)
    ensures FinalName(a) == FinalName(b) <==> SafeName(a) == SafeName(b)
  {
    assert FinalName(a)[|FinalName(a)|-5..] == ".json";
    assert TmpName(a)[|TmpName(a)|-1] == 'p' && TmpName(b)[|TmpName(b)|-1] == 'p';
    assert FinalName(a)[|FinalName(a)|-1] == 'n';
    assert !IsJson(TmpName(a)) by {
      assert TmpName(a)[|TmpName(a)|-5..][4] == 'p';
    }
    assert SafeName(a) == FinalName(a)[..|FinalName(a)|-5] && SafeName(b) == FinalName(b)[..|FinalName(b)|-5];
  }

  /** Ids made of plain characters, of at most 200, are their own file names and so never share
      one; a generated id is 32 hexadecimal digits. */
  lemma PlainIdsKeepTheirName(id: string)
    requires 0 < |id| <= MAX_NAME && forall c :: c in id ==> Plain(c)
    ensures SafeName(id) == id
  {
    assert forall i :: 0 <= i < |id| ==> id[i] in id;
  }

  // ---------------------------------------------------------------- the directory

  datatype Content = Torn | Item(it: Queued)

  type Dir = map<string, Content>

  /** How far a write gets: the step that fails or is interrupted, or Done. */
  datatype WriteStep = OpenTmp | WriteTmp | RenameTmp | SyncDir | Done

  function Written(dir: Dir, it: Queued, fail: WriteStep): Dir {
    var tmp := TmpName(it.msg.id);
    if it.msg.id == "" then dir
    else
      match fail
      case OpenTmp => dir
      case WriteTmp => dir[tmp := Torn]
      case RenameTmp => dir[tmp := Item(it)]
      case _ => (dir - {tmp})[FinalName(it.msg.id) := Item(it)]
  }

  predicate WriteReported(it: Queued, fail: WriteStep) {
    it.msg.id != "" && fail == Done
  }

  /** How far a removal gets: the step that fails, or Gone. */
  datatype RemoveStep = Unlink | SyncUnlink | Gone

  function Removed(dir: Dir, id: string, fail: RemoveStep): Dir {
    if fail == Unlink then dir else dir - {FinalName(id)}
  }

  /** The items of the files named, in that order, skipping what does not parse. */
  function Collect(dir: Dir, names: seq<string>): seq<Queued> {
    if names == [] then []
    else
      var n := names[|names|-1];
      Collect(dir, names[..|names|-1]) +
      (if n in dir && IsJson(n) && dir[n].Item? && dir[n].it.msg.id != "" then [dir[n].it] else [])
  }

  ghost predicate Lists(dir: Dir, names: seq<string>) {
    Distinct(names) && forall n :: n in names <==> n in dir
  }

  /** What Load may return: the stored items, in the order the directory lists them. */
  ghost predicate Loaded(dir: Dir, items: seq<Queued>) {
    exists names :: Lists(dir, names) && items == Collect(dir, names)
  }

  predicate Stores(dir: Dir, n: string, it: Queued) {
    n in dir && IsJson(n) && dir[n] == Item(it) && it.msg.id != ""
  }

  lemma {:induction false} CollectSpec(dir: Dir, names: seq<string>)
    ensures forall it :: it in Collect(dir, names) <==> exists n :: n in names && Stores(dir, n, it)
  {
    if names != [] {
      var init, last := names[..|names|-1], names[|names|-1];
      CollectSpec(dir, init);
      assert names == init + [last];
      forall it
        ensures it in Collect(dir, names) <==> exists n :: n in names && Stores(dir, n, it)
      {
        assert (exists n :: n in names && Stores(dir, n, it)) <==>
               (exists n :: n in init && Stores(dir, n, it)) || Stores(dir, last, it);
      }
    }
  }

  lemma CollectSnoc(dir: Dir, names: seq<string>, n: string)
    ensures Collect(dir, names + [n]) == Collect(dir, names) +
      (if n in dir && IsJson(n) && dir[n].Item? && dir[n].it.msg.id != "" then [dir[n].it] else [])
  {
    assert (names + [n])[..|names|] == names;
  }

  class FileQueueObject {
    var dir: Dir

    constructor ()
      ensures dir == map[]
    {
      dir := map[];
    }

    /** writeItem, which Add and Update share. */
    method WriteItem(it: Queued, fail: WriteStep) returns (ok: bool)
      modifies this
      ensures dir == Written(old(dir), it, fail)
      ensures ok == WriteReported(it, fail)
    {
      hide SafeName;
      if it.msg.id == "" { return false; }
      var name := SafeQueueName(it.msg.id);
      var final := name + ".json";
      var tmp := final + ".tmp";
      if fail == OpenTmp { return false; }
      dir := dir[tmp := Torn];
      if fail == WriteTmp { return false; }
      dir := dir[tmp := Item(it)];
      assert dir == old(dir)[tmp := Item(it)];
      if fail == RenameTmp { return false; }
      assert dir - {tmp} == old(dir) - {tmp};
      dir := (dir - {tmp})[final := Item(it)];
      return fail == Done;
    }

    /** The file may be gone although an error is returned, when the directory cannot be synced. */
    method Remove(id: string, fail: RemoveStep) returns (ok: bool)
      modifies this
      ensures dir == Removed(old(dir), id, fail)
      ensures ok <==> fail == Gone
    {
      if fail == Unlink { return false; }
      var name := SafeQueueName(id);
      dir := dir - {name + ".json"};
      ok := fail == Gone;
    }

    /** Load. `listed` says whether the directory could be read, `unreadable` names the files that
        could not; one queue file that cannot be read is an error. */
    method Load(listed: bool, unreadable: set<string>) returns (items: Option<seq<Queued>>)
      ensures items.Some? <==> listed && forall n :: n in dir && IsJson(n) ==> n !in unreadable
      ensures items.Some? ==> Loaded(dir, items.value)
    {
      if !listed {
        return None;
      }
      var found := [];
      ghost var names: seq<string> := [];
      assert found == Collect(dir, names);
      hide Collect, Distinct;
      DistinctNone<string>();
      var todo := dir.Keys;
      while todo != {}
        invariant todo <= dir.Keys && Distinct(names) && forall n :: n in names <==> n in dir && n !in todo
        invariant forall n :: n in names && IsJson(n) ==> n !in unreadable
        invariant found == Collect(dir, names)
      {
        var n :| n in todo;
        if IsJson(n) && n in unreadable {
          return None;
        }
        DistinctSnoc(names, n);
        CollectSnoc(dir, names, n);
        if IsJson(n) && dir[n].Item? && dir[n].it.msg.id != "" {
          found := found + [dir[n].it];
        }
        names := names + [n];
        todo := todo - {n};
      }
      assert Lists(dir, names);
      items := Some(found);
    }
  }
}
