/** adapters/smtp/smtpin.go: removing the authentication-trace header fields of inbound mail.
    Bytes are characters. */
module AuthTrace {
  import opened Model
  import opened Text
  import opened Seqs

  // ------------------------------------------------------------ the separator

  predicate StartsWith(s: string, i: nat, pat: string) {
    i + |pat| <= |s| && s[i..i+|pat|] == pat
  }

  /** bytes.Index from position i on. */
  function IndexFrom(s: string, pat: string, i: nat): (r: Option<nat>)
    ensures r.Some? ==> i <= r.value && StartsWith(s, r.value, pat)
    decreases |s| - i
  {
    if i > |s| then None
    else if StartsWith(s, i, pat) then Some(i)
    else IndexFrom(s, pat, i + 1)
  }

  /** Where the header ends: the first empty CRLF line, or else the first empty LF line. */
  function Boundary(raw: string): Option<nat> {
    var crlf := IndexFrom(raw, "\r\n\r\n", 0);
    if crlf.Some? then crlf else IndexFrom(raw, "\n\n", 0)
  }

  lemma {:induction false} IndexIsFirst(s: string, pat: string, i: nat, k: nat)
    requires i <= k
    ensures IndexFrom(s, pat, i) == Some(k) <==>
      StartsWith(s, k, pat) && forall j :: i <= j < k ==> !StartsWith(s, j, pat)
    decreases |s| - i
  {
    if i <= |s| && !StartsWith(s, i, pat) {
      if i < k {
        IndexIsFirst(s, pat, i + 1, k);
      }
    }
  }

  lemma {:induction false} IndexIsAbsent(s: string, pat: string, i: nat)
    ensures IndexFrom(s, pat, i) == None <==> forall j :: i <= j <= |s| ==> !StartsWith(s, j, pat)
    decreases |s| - i
  {
    if i <= |s| && !StartsWith(s, i, pat) {
      IndexIsAbsent(s, pat, i + 1);
    }
  }

  // ------------------------------------------------------------ lines

  /** The trimmed lines that are not empty. */
  function CleanLines(p: seq<string>): seq<string> {
    if p == [] then []
    else
      var before, l := CleanLines(p[..|p|-1]), TrimCR(p[|p|-1]);
      if l == "" then before else before + [l]
  }

  function Lines(header: string): seq<string> {
    CleanLines(SplitLF(header))
  }

  /** strings.Join with CRLF. */
  function JoinLines(ls: seq<string>): string {
    if ls == [] then ""
    else if |ls| == 1 then ls[0]
    else JoinLines(ls[..|ls|-1]) + "\r\n" + ls[|ls|-1]
  }

  predicate Clean(l: string) {
    l != "" && LF !in l && l[|l|-1] != CR
  }

  ghost predicate AllClean(ls: seq<string>) {
    forall i :: 0 <= i < |ls| ==> Clean(ls[i])
  }

  lemma {:induction false} TrimmedIsClean(l: string)
    requires LF !in l
    ensures TrimCR(l) == "" || Clean(TrimCR(l))
  {
    if l != "" && l[|l|-1] == CR {
      TrimmedIsClean(l[..|l|-1]);
    }
  }

  lemma {:induction false} CleanLinesClean(p: seq<string>)
    requires forall i :: 0 <= i < |p| ==> LF !in p[i]
    ensures AllClean(CleanLines(p))
  {
    if p != [] {
      CleanLinesClean(p[..|p|-1]);
      TrimmedIsClean(p[|p|-1]);
    }
  }

  lemma LinesClean(header: string)
    ensures AllClean(Lines(header))
  {
    SplitHasNoLF(header);
    CleanLinesClean(SplitLF(header));
  }

  lemma JoinSnoc(x: seq<string>, l: string)
    ensures JoinLines(x + [l]) == if x == [] then l else JoinLines(x) + "\r\n" + l
  {
    assert (x + [l])[..|x|] == x;
  }

  lemma {:induction false} SplitJoined(init: seq<string>, last: string)
    requires AllClean(init) && Clean(last)
    ensures SplitLF(JoinLines(init + [last])) == WithCR(init) + [last]
  {
    JoinSnoc(init, last);
    if init == [] {
      SplitOneLine(last);
      assert WithCR([]) + [last] == [last];
    } else {
      hide SplitLF, JoinLines, WithCR, Longer;
      var x, l := init[..|init|-1], init[|init|-1];
      assert init == x + [l];
      SplitJoined(x, l);
      SplitCRLF(JoinLines(init), last);
      WithCRSnoc(x, l);
      LongerKnown(WithCR(x), l, [CR]);
    }
  }

  lemma {:induction false} CleanLinesBack(p: seq<string>, ls: seq<string>)
    requires |p| == |ls| && AllClean(ls) && forall i :: 0 <= i < |p| ==> p[i] == ls[i] || p[i] == ls[i] + [CR]
    ensures CleanLines(p) == ls
  {
    if p != [] {
      var n := |p| - 1;
      CleanLinesBack(p[..n], ls[..n]);
      assert (ls[n] + [CR])[..|ls[n]|] == ls[n];
      assert TrimCR(p[n]) == ls[n];
      assert ls == ls[..n] + [ls[n]];
    }
  }

  /** Splitting undoes joining. */
  lemma LinesOfJoined(ls: seq<string>)
    requires AllClean(ls)
    ensures Lines(JoinLines(ls)) == ls
  {
    if ls == [] {
      assert CleanLines([""]) == [];
    } else {
      SplitJoined(ls[..|ls|-1], ls[|ls|-1]);
      assert ls == ls[..|ls|-1] + [ls[|ls|-1]];
      CleanLinesBack(SplitLF(JoinLines(ls)), ls);
    }
  }

  // ------------------------------------------------------------ fields

  predicate Continues(l: string) {
    l != "" && (l[0] == ' ' || l[0] == '\t')
  }

  /** The lines of each field: a continuation line belongs to the field before it, if any. */
  function Groups(ls: seq<string>): seq<seq<string>> {
    if ls == [] then []
    else
      var g, l := Groups(ls[..|ls|-1]), ls[|ls|-1];
      if Continues(l) && g != [] then g[..|g|-1] + [g[|g|-1] + [l]] else g + [[l]]
  }

  function Flatten(gs: seq<seq<string>>): seq<string> {
    if gs == [] then [] else Flatten(gs[..|gs|-1]) + gs[|gs|-1]
  }

  /** The text of each field. */
  function Texts(gs: seq<seq<string>>): seq<string> {
    seq(|gs|, i requires 0 <= i < |gs| => JoinLines(gs[i]))
  }

  /** The header fields of a message, each with its continuation lines. */
  function Fields(header: string): seq<string> {
    Texts(Groups(Lines(header)))
  }

  ghost predicate GroupOk(g: seq<string>) {
    g != [] && forall j :: 1 <= j < |g| ==> Continues(g[j])
  }

  /** Only the very first field may begin with a continuation line. */
  ghost predicate GroupsOk(gs: seq<seq<string>>) {
    && (forall i :: 0 <= i < |gs| ==> GroupOk(gs[i]))
    && (forall i :: 1 <= i < |gs| ==> gs[i] != [] && !Continues(gs[i][0]))
  }

  lemma FlattenSnoc(gs: seq<seq<string>>, g: seq<string>)
    ensures Flatten(gs + [g]) == Flatten(gs) + g
  {
    assert (gs + [g])[..|gs|] == gs;
  }

  lemma FlattenLast(init: seq<seq<string>>, g: seq<string>, l: string)
    ensures Flatten(init + [g + [l]]) == Flatten(init + [g]) + [l]
  {
    FlattenSnoc(init, g);
    FlattenSnoc(init, g + [l]);
    Assoc(Flatten(init), g, [l]);
  }

  lemma {:induction false} FlattenGroups(ls: seq<string>)
    ensures Flatten(Groups(ls)) == ls
  {
    if ls != [] {
      var init, l := ls[..|ls|-1], ls[|ls|-1];
      FlattenGroups(init);
      var g := Groups(init);
      assert ls == init + [l];
      if Continues(l) && g != [] {
        assert g == g[..|g|-1] + [g[|g|-1]];
        FlattenLast(g[..|g|-1], g[|g|-1], l);
      } else {
        assert (g + [[l]])[..|g|] == g;
      }
    }
  }

  lemma LongerGroupOk(init: seq<seq<string>>, g: seq<string>, l: string)
    requires GroupsOk(init + [g]) && Continues(l)
    ensures GroupsOk(init + [g + [l]])
  {
    var a, b := init + [g], init + [g + [l]];
    assert a[|init|] == g && b[|init|] == g + [l];
    assert forall i :: 0 <= i < |init| ==> a[i] == init[i] && b[i] == init[i];
  }

  lemma {:induction false} GroupsAreOk(ls: seq<string>)
    ensures GroupsOk(Groups(ls))
  {
    if ls != [] {
      var g, l := Groups(ls[..|ls|-1]), ls[|ls|-1];
      GroupsAreOk(ls[..|ls|-1]);
      if Continues(l) && g != [] {
        assert g == g[..|g|-1] + [g[|g|-1]];
        LongerGroupOk(g[..|g|-1], g[|g|-1], l);
      }
    }
  }

  lemma {:induction false} RegroupOne(before: seq<string>, g: seq<string>)
    requires GroupOk(g) && (before != [] ==> !Continues(g[0]))
    ensures Groups(before + g) == Groups(before) + [g]
  {
    var n := |g| - 1;
    if n == 0 {
      assert (before + g)[..|before|] == before;
      if before == [] {
        assert Groups(before) == [];
      }
      assert g == [g[0]];
    } else {
      RegroupOne(before, g[..n]);
      assert (before + g)[..|before + g|-1] == before + g[..n];
      assert g == g[..n] + [g[n]];
    }
  }

  /** Grouping undoes flattening. */
  lemma {:induction false} Regroup(gs: seq<seq<string>>)
    requires GroupsOk(gs)
    ensures Groups(Flatten(gs)) == gs
  {
    if gs != [] {
      var n := |gs| - 1;
      Regroup(gs[..n]);
      if n == 0 {
        assert Flatten(gs[..n]) == [];
      }
      RegroupOne(Flatten(gs[..n]), gs[n]);
      assert gs == gs[..n] + [gs[n]];
    }
  }

  // ------------------------------------------------------------ what is dropped

  const PREFIXES: seq<string> :=
    ["authentication-results:", "received-spf:", "arc-seal:", "arc-message-signature:", "arc-authentication-results:"]

  /** strings.ToLower on UTF-8, as far as a test for an ASCII prefix can tell: besides A to Z there
      are two characters whose lower case is in ASCII, U+0130 (C4 B0) with "i" and U+212A (E2 84 AA)
      with "k"; whatever else is not ASCII stays so. */
  function ToLower(s: string): string {
    if s == "" then ""
    else if |s| >= 2 && s[0] == 0xC4 as char && s[1] == 0xB0 as char then "i" + ToLower(s[2..])
    else if |s| >= 3 && s[0] == 0xE2 as char && s[1] == 0x84 as char && s[2] == 0xAA as char then "k" + ToLower(s[3..])
    else [LowerByte(s[0])] + ToLower(s[1..])
  }

  function LowerByte(c: char): char {
    if 'A' <= c <= 'Z' then (c as int + 32) as char else c
  }

  /** A field whose name, in any case, is one of the authentication traces. */
  predicate Untrusted(field: string) {
    exists i :: 0 <= i < |PREFIXES| && PREFIXES[i] <= ToLower(field)
  }

  function Trusted(fields: seq<string>): seq<string> {
    if fields == [] then []
    else
      var before, f := Trusted(fields[..|fields|-1]), fields[|fields|-1];
      if Untrusted(f) then before else before + [f]
  }

  function TrustedGroups(gs: seq<seq<string>>): seq<seq<string>> {
    if gs == [] then []
    else
      var before, g := TrustedGroups(gs[..|gs|-1]), gs[|gs|-1];
      if Untrusted(JoinLines(g)) then before else before + [g]
  }

  /** stripAuthResults. */
  function Stripped(raw: string): string {
    var i := Boundary(raw);
    if i.None? then raw
    else JoinLines(Trusted(Fields(raw[..i.value]))) + raw[i.value..]
  }

  lemma {:induction false} TrustedTexts(gs: seq<seq<string>>)
    ensures Texts(TrustedGroups(gs)) == Trusted(Texts(gs))
  {
    if gs != [] {
      TrustedTexts(gs[..|gs|-1]);
      assert Texts(gs)[..|gs|-1] == Texts(gs[..|gs|-1]);
    }
  }

  lemma {:induction false} TrustedGroupsOk(gs: seq<seq<string>>)
    requires GroupsOk(gs)
    ensures GroupsOk(TrustedGroups(gs))
    ensures |TrustedGroups(gs)| <= |gs|
  {
    if gs != [] {
      TrustedGroupsOk(gs[..|gs|-1]);
    }
  }

  lemma CleanParts(x: seq<string>, y: seq<string>)
    ensures AllClean(x + y) <==> AllClean(x) && AllClean(y)
  {
    assert forall i :: 0 <= i < |x| ==> (x + y)[i] == x[i];
    assert forall i :: 0 <= i < |y| ==> (x + y)[|x| + i] == y[i];
    hide Clean;
  }

  lemma {:induction false} TrustedGroupsClean(gs: seq<seq<string>>)
    requires AllClean(Flatten(gs))
    ensures AllClean(Flatten(TrustedGroups(gs)))
  {
    if gs != [] {
      var init, g := gs[..|gs|-1], gs[|gs|-1];
      assert Flatten(gs) == Flatten(init) + g;
      FlattenSnoc(TrustedGroups(init), g);
      hide AllClean, Flatten, Untrusted;
      CleanParts(Flatten(init), g);
      TrustedGroupsClean(init);
      CleanParts(Flatten(TrustedGroups(init)), g);
    }
  }

  lemma {:induction false} JoinConcat(x: seq<string>, y: seq<string>)
    requires x != [] && y != []
    ensures JoinLines(x + y) == JoinLines(x) + "\r\n" + JoinLines(y)
  {
    var init, l := y[..|y|-1], y[|y|-1];
    assert y == init + [l];
    Assoc(x, init, [l]);
    JoinSnoc(x + init, l);
    JoinSnoc(init, l);
    hide JoinLines;
    if init != [] {
      JoinConcat(x, init);
      Assoc(JoinLines(x) + "\r\n", JoinLines(init), "\r\n" + l);
      Assoc(JoinLines(x) + "\r\n" + JoinLines(init), "\r\n", l);
      Assoc(JoinLines(init), "\r\n", l);
    } else {
      assert x + init == x;
    }
  }

  /** Joining the fields is joining all their lines. */
  lemma {:induction false} JoinTexts(gs: seq<seq<string>>)
    requires GroupsOk(gs)
    ensures JoinLines(Texts(gs)) == JoinLines(Flatten(gs))
    ensures gs != [] ==> Flatten(gs) != []
  {
    if gs != [] {
      var init, g := gs[..|gs|-1], gs[|gs|-1];
      assert gs == init + [g];
      JoinTexts(init);
      FlattenSnoc(init, g);
      assert Texts(gs) == Texts(init) + [JoinLines(g)];
      JoinSnoc(Texts(init), JoinLines(g));
      hide JoinLines;
      if init != [] {
        JoinConcat(Flatten(init), g);
      } else {
        assert Flatten(init) == [] && [] + g == g;
      }
    }
  }

  // ------------------------------------------------------------ the separator stays put

  /** No empty line inside, and no line end at the end: what joined clean lines look like. */
  ghost predicate NoBlankLine(h: string) {
    && (h != "" ==> h[|h|-1] != LF && h[|h|-1] != CR)
    && (forall i :: 0 <= i < |h| && h[i] == LF ==> i + 1 < |h| && h[i+1] != LF)
    && (forall i :: 0 <= i < |h| - 2 && h[i] == LF && h[i+1] == CR ==> h[i+2] != LF)
  }

  lemma {:induction false} JoinedHasNoBlankLine(ls: seq<string>)
    requires AllClean(ls)
    ensures NoBlankLine(JoinLines(ls))
  {
    if ls != [] {
      var init, l := ls[..|ls|-1], ls[|ls|-1];
      assert forall i :: 0 <= i < |l| ==> l[i] in l;
      if init != [] {
        JoinedHasNoBlankLine(init);
        ExtendsWithoutBlank(JoinLines(init), l);
      }
    }
  }

  lemma ExtendsWithoutBlank(h: string, l: string)
    requires NoBlankLine(h) && Clean(l)
    ensures NoBlankLine(h + "\r\n" + l)
  {
    var n := h + "\r\n" + l;
    assert forall i :: 0 <= i < |l| ==> l[i] in l;
    assert forall i :: 0 <= i < |h| ==> n[i] == h[i];
    assert n[|h|] == CR && n[|h|+1] == LF;
    assert forall i :: |h| + 2 <= i < |n| ==> n[i] == l[i - |h| - 2];
  }

  lemma StartsChars(s: string, i: nat)
    ensures StartsWith(s, i, "\n\n") <==> i + 2 <= |s| && s[i] == LF && s[i+1] == LF
    ensures StartsWith(s, i, "\r\n\r\n") <==> i + 4 <= |s| && s[i] == CR && s[i+1] == LF && s[i+2] == CR && s[i+3] == LF
  {
    if i + 2 <= |s| {
      assert s[i..i+2] == [s[i], s[i+1]];
    }
    if i + 4 <= |s| {
      assert s[i..i+4] == [s[i], s[i+1], s[i+2], s[i+3]];
    }
  }

  lemma NotInside(h: string, rest: string, j: nat)
    requires NoBlankLine(h) && j < |h|
    ensures !StartsWith(h + rest, j, "\r\n\r\n") && !StartsWith(h + rest, j, "\n\n")
  {
    StartsChars(h + rest, j);
    assert forall k :: 0 <= k < |h| ==> (h + rest)[k] == h[k];
  }

  lemma AfterHeader(h: string, raw: string, i: nat, j: nat, pat: string)
    requires i <= |raw| && |h| <= j
    ensures StartsWith(h + raw[i..], j, pat) <==> StartsWith(raw, i + j - |h|, pat)
  {
    var k := i + j - |h|;
    if k + |pat| <= |raw| {
      assert (h + raw[i..])[j..j + |pat|] == raw[k..k+|pat|];
    }
  }

  /** The boundary found behind such a header is where the rest begins. */
  lemma BoundaryStays(raw: string, i: nat, h: string)
    requires Boundary(raw) == Some(i) && NoBlankLine(h)
    ensures Boundary(h + raw[i..]) == Some(|h|)
  {
    var out := h + raw[i..];
    forall j | 0 <= j < |h|
      ensures !StartsWith(out, j, "\r\n\r\n") && !StartsWith(out, j, "\n\n")
    {
      NotInside(h, raw[i..], j);
    }
    forall j | |h| <= j <= |out|
      ensures StartsWith(out, j, "\r\n\r\n") <==> StartsWith(raw, i + j - |h|, "\r\n\r\n")
    {
      AfterHeader(h, raw, i, j, "\r\n\r\n");
    }
    AfterHeader(h, raw, i, |h|, "\n\n");
    hide StartsWith, NoBlankLine;
    if IndexFrom(raw, "\r\n\r\n", 0).Some? {
      IndexIsFirst(out, "\r\n\r\n", 0, |h|);
    } else {
      IndexIsAbsent(raw, "\r\n\r\n", 0);
      IndexIsAbsent(out, "\r\n\r\n", 0);
      IndexIsFirst(out, "\n\n", 0, |h|);
    }
  }

  // ------------------------------------------------------------ theorems

  /** The header that is left, line by line. */
  lemma StrippedHeader(header: string) returns (gs: seq<seq<string>>)
    ensures gs == TrustedGroups(Groups(Lines(header)))
    ensures JoinLines(Trusted(Fields(header))) == JoinLines(Flatten(gs))
    ensures AllClean(Flatten(gs)) && GroupsOk(gs)
    ensures Fields(JoinLines(Flatten(gs))) == Trusted(Fields(header))
  {
    var all := Groups(Lines(header));
    gs := TrustedGroups(all);
    LinesClean(header);
    FlattenGroups(Lines(header));
    GroupsAreOk(Lines(header));
    TrustedGroupsOk(all);
    TrustedGroupsClean(all);
    TrustedTexts(all);
    JoinTexts(gs);
    LinesOfJoined(Flatten(gs));
    Regroup(gs);
  }

  /** Theorem: what follows the header is kept verbatim, and the unfolded fields of the output are
      exactly the trusted unfolded fields of the input, in order. A message without an empty line
      is left alone. */
  lemma StripKeepsTheRest(raw: string)
    ensures Boundary(raw).None? ==> Stripped(raw) == raw
    ensures Boundary(raw).Some? ==>
      var i, out := Boundary(raw).value, Stripped(raw);
      && Boundary(out).Some? && out[Boundary(out).value..] == raw[i..]
      && Fields(out[..Boundary(out).value]) == Trusted(Fields(raw[..i]))
  {
    var b := Boundary(raw);
    if b.Some? {
      var i := b.value;
      var gs := StrippedHeader(raw[..i]);
      var h := JoinLines(Flatten(gs));
      JoinedHasNoBlankLine(Flatten(gs));
      BoundaryStays(raw, i, h);
      hide JoinLines, Flatten, Trusted, Fields;
      assert (h + raw[i..])[..|h|] == h && (h + raw[i..])[|h|..] == raw[i..];
    }
  }

  lemma {:induction false} TrustedTwice(fields: seq<string>)
    ensures Trusted(Trusted(fields)) == Trusted(fields)
  {
    if fields != [] {
      var before, f := Trusted(fields[..|fields|-1]), fields[|fields|-1];
      TrustedTwice(fields[..|fields|-1]);
      if !Untrusted(f) {
        assert (before + [f])[..|before|] == before;
      }
    }
  }

  /** Theorem: stripping is idempotent on every byte string. */
  lemma StripIsIdempotent(raw: string)
    ensures Stripped(Stripped(raw)) == Stripped(raw)
  {
    StripKeepsTheRest(raw);
    var b := Boundary(raw);
    if b.Some? {
      var out := Stripped(raw);
      TrustedTwice(Fields(raw[..b.value]));
      hide JoinLines, Trusted, Fields, Boundary;
    }
  }

  // ------------------------------------------------------------ the code

  method IsUntrustedAuthTrace(field: string) returns (yes: bool)
    ensures yes == Untrusted(field)
  {
    var lf := ToLower(field);
    for i := 0 to |PREFIXES|
      invariant forall j :: 0 <= j < i ==> !(PREFIXES[j] <= lf)
    {
      if PREFIXES[i] <= lf {
        return true;
      }
    }
    return false;
  }

  lemma TextsSnoc(gs: seq<seq<string>>, g: seq<string>)
    ensures Texts(gs + [g]) == Texts(gs) + [JoinLines(g)]
  {
  }

  lemma GroupsSnoc(ls: seq<string>, l: string)
    ensures var g := Groups(ls);
      Groups(ls + [l]) == if Continues(l) && g != [] then g[..|g|-1] + [g[|g|-1] + [l]] else g + [[l]]
  {
    assert (ls + [l])[..|ls|] == ls;
  }

  /** The fields with one more line. */
  function Extended(fields: seq<string>, l: string): seq<string> {
    if Continues(l) && |fields| > 0 then fields[|fields|-1 := fields[|fields|-1] + "\r\n" + l] else fields + [l]
  }

  lemma FieldsSnoc(ls: seq<string>, l: string)
    ensures Texts(Groups(ls + [l])) == Extended(Texts(Groups(ls)), l)
  {
    var g := Groups(ls);
    GroupsSnoc(ls, l);
    GroupsAreOk(ls);
    assert JoinLines([l]) == l;
    hide Groups, JoinLines;
    if Continues(l) && g != [] {
      var init, last := g[..|g|-1], g[|g|-1];
      assert g == init + [last];
      JoinSnoc(last, l);
      TextsSnoc(init, last);
      TextsSnoc(init, last + [l]);
    } else {
      TextsSnoc(g, [l]);
    }
  }

  /** The fields of the first n lines of a header. */
  function FieldsOf(split: seq<string>, n: nat): seq<string>
    requires n <= |split|
  {
    Texts(Groups(CleanLines(split[..n])))
  }

  lemma NextLine(split: seq<string>, n: nat)
    requires n < |split|
    ensures var l := TrimCR(split[n]);
      FieldsOf(split, n + 1) == if l == "" then FieldsOf(split, n) else Extended(FieldsOf(split, n), l)
  {
    assert split[..n+1][..n] == split[..n];
    assert CleanLines(split[..n+1]) ==
      if TrimCR(split[n]) == "" then CleanLines(split[..n]) else CleanLines(split[..n]) + [TrimCR(split[n])];
    hide CleanLines, TrimCR, Groups, Texts, Extended;
    FieldsSnoc(CleanLines(split[..n]), TrimCR(split[n]));
  }

  lemma NoLines(split: seq<string>)
    ensures FieldsOf(split, 0) == []
  {
    assert split[..0] == [];
  }

  lemma AllLines(header: string)
    ensures FieldsOf(SplitLF(header), |SplitLF(header)|) == Fields(header)
  {
    assert SplitLF(header)[..|SplitLF(header)|] == SplitLF(header);
    hide SplitLF, CleanLines, Groups, Texts;
  }

  /** Unfolds a header into its fields. */
  method Unfold(header: string) returns (fields: seq<string>)
    ensures fields == Fields(header)
  {
    hide SplitLF, FieldsOf, TrimCR, Fields;
    var split := SplitLF(header);
    fields := [];
    NoLines(split);
    for n := 0 to |split|
      invariant fields == FieldsOf(split, n)
    {
      NextLine(split, n);
      var l := TrimCR(split[n]);
      if l != "" {
        if (l[0] == ' ' || l[0] == '\t') && |fields| > 0 {
          fields := fields[|fields|-1 := fields[|fields|-1] + "\r\n" + l];
        } else {
          fields := fields + [l];
        }
      }
    }
    AllLines(header);
  }

  method StripAuthResults(raw: string) returns (out: string)
    ensures out == Stripped(raw)
  {
    var i := Boundary(raw);
    if i.None? {
      return raw;
    }
    var header, rest := raw[..i.value], raw[i.value..];
    var fields := Unfold(header);
    var kept: seq<string> := [];
    for n := 0 to |fields|
      invariant kept == Trusted(fields[..n])
    {
      assert fields[..n+1][..n] == fields[..n];
      var drop := IsUntrustedAuthTrace(fields[n]);
      if drop {
        continue;
      }
      kept := kept + [fields[n]];
    }
    assert fields[..|fields|] == fields;
    out := JoinLines(kept) + rest;
  }
}
