/** Splitting text into lines, as bytes.Split, bufio.ScanLines and the trimming of carriage
    returns do. Bytes are characters. */
module Text {
  const CR := '\r'
  const LF := '\n'

  /** strings.Split(s, "\n"). */
  function SplitLF(s: string): (p: seq<string>)
    ensures |p| > 0
  {
    if s == "" then [""]
    else
      var p, c := SplitLF(s[..|s|-1]), s[|s|-1];
      if c == LF then p + [""] else p[..|p|-1] + [p[|p|-1] + [c]]
  }

  function TrimCR(l: string): string {
    if l != "" && l[|l|-1] == CR then TrimCR(l[..|l|-1]) else l
  }

  lemma {:induction false} SplitHasNoLF(s: string)
    ensures forall i :: 0 <= i < |SplitLF(s)| ==> LF !in SplitLF(s)[i]
  {
    if s != "" {
      SplitHasNoLF(s[..|s|-1]);
    }
  }

  /** p with t added to its last string. */
  function Longer(p: seq<string>, t: string): seq<string>
    requires p != []
  {
    p[..|p|-1] + [p[|p|-1] + t]
  }

  lemma LongerNew(p: seq<string>, t: string)
    ensures Longer(p + [""], t) == p + [t]
  {
    assert "" + t == t;
  }

  lemma LongerKnown(p: seq<string>, l: string, t: string)
    ensures Longer(p + [l], t) == p + [l + t]
  {
  }

  lemma {:induction false} SplitPlain(s: string, t: string)
    requires LF !in t
    ensures SplitLF(s + t) == Longer(SplitLF(s), t)
  {
    var p := SplitLF(s);
    if t == "" {
      assert s + t == s;
      assert p[|p|-1] + t == p[|p|-1];
    } else {
      var init, c := t[..|t|-1], t[|t|-1];
      SplitPlain(s, init);
      assert (s + t)[..|s + t|-1] == s + init;
      assert p[|p|-1] + init + [c] == p[|p|-1] + t;
    }
  }

  function WithCR(ls: seq<string>): seq<string> {
    seq(|ls|, i requires 0 <= i < |ls| => ls[i] + [CR])
  }

  lemma SplitSnocLF(s: string)
    ensures SplitLF(s + [LF]) == SplitLF(s) + [""]
  {
    assert (s + [LF])[..|s|] == s;
  }

  lemma SplitCRLF(h: string, last: string)
    requires LF !in last
    ensures SplitLF(h + "\r\n" + last) == Longer(SplitLF(h), [CR]) + [last]
  {
    SplitPlain(h, [CR]);
    SplitSnocLF(h + [CR]);
    SplitPlain(h + [CR] + [LF], last);
    assert h + "\r\n" == h + [CR] + [LF];
    hide SplitLF, Longer;
    LongerNew(SplitLF(h + [CR]), last);
  }

  lemma WithCRSnoc(x: seq<string>, l: string)
    ensures WithCR(x + [l]) == WithCR(x) + [l + [CR]]
  {
  }

  lemma SplitOneLine(l: string)
    requires LF !in l
    ensures SplitLF(l) == [l]
  {
    SplitPlain("", l);
    assert "" + l == l;
  }
}
