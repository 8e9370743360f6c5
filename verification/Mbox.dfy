/** internal/backup: exporting mail as mbox, and the mboxrd reader that undoes it. */
module Mbox {
  import opened Model
  import opened Text
  import opened Seqs
  import P = Projection
  import EventLog

  const FROM := "From "

  // ------------------------------------------------------------ lines

  function TrimAll(p: seq<string>): seq<string> {
    seq(|p|, i requires 0 <= i < |p| => TrimCR(p[i]))
  }

  /** What bufio.ScanLines yields, trimmed: a last piece that is empty is no line. */
  function ScanLines(s: string): seq<string> {
    var p := SplitLF(s);
    TrimAll(if p[|p|-1] == "" then p[..|p|-1] else p)
  }

  /** Every string with CRLF behind it. */
  function Terminated(cs: seq<string>): string {
    if cs == [] then "" else Terminated(cs[..|cs|-1]) + (cs[|cs|-1] + "\r\n")
  }

  /** The lines of strings that may themselves contain line ends. */
  function Pieces(cs: seq<string>): seq<string> {
    if cs == [] then [] else Pieces(cs[..|cs|-1]) + TrimAll(SplitLF(cs[|cs|-1]))
  }

  lemma {:induction false} SplitAcross(x: string, y: string)
    ensures SplitLF(x + [LF] + y) == SplitLF(x) + SplitLF(y)
  {
    if y == "" {
      assert x + [LF] + y == x + [LF];
      SplitSnocLF(x);
    } else {
      var init, c := y[..|y|-1], y[|y|-1];
      SplitAcross(x, init);
      assert y == init + [c];
      Assoc(x + [LF], init, [c]);
      SplitSnoc(x + [LF] + init, c);
      SplitSnoc(init, c);
      hide SplitLF, Longer;
      if c == LF {
        Assoc(SplitLF(x), SplitLF(init), [""]);
      } else {
        LongerConcat(SplitLF(x), SplitLF(init), [c]);
      }
    }
  }

  lemma SplitSnoc(s: string, c: char)
    ensures SplitLF(s + [c]) == if c == LF then SplitLF(s) + [""] else Longer(SplitLF(s), [c])
  {
    assert (s + [c])[..|s|] == s;
  }

  lemma LongerConcat(x: seq<string>, y: seq<string>, t: string)
    requires y != []
    ensures Longer(x + y, t) == x + Longer(y, t)
  {
    assert (x + y)[..|x + y|-1] == x + y[..|y|-1];
  }

  lemma TrimLonger(p: seq<string>)
    requires p != []
    ensures TrimAll(Longer(p, [CR])) == TrimAll(p)
  {
    var l := p[|p|-1];
    assert (l + [CR])[..|l|] == l;
    assert TrimCR(l + [CR]) == TrimCR(l);
  }

  lemma TrimConcat(p: seq<string>, q: seq<string>)
    ensures TrimAll(p + q) == TrimAll(p) + TrimAll(q)
  {
  }

  /** What a scanner reads back from terminated strings. */
  lemma {:induction false} ScanTerminated(cs: seq<string>)
    ensures ScanLines(Terminated(cs)) == Pieces(cs)
    ensures SplitLF(Terminated(cs))[|SplitLF(Terminated(cs))|-1] == ""
  {
    if cs == [] {
      assert SplitLF("") == [""];
    } else {
      var init, c := cs[..|cs|-1], cs[|cs|-1];
      ScanTerminated(init);
      var t, p := Terminated(init), SplitLF(Terminated(init));
      TerminatedSplit(t, c);
      hide SplitLF, TrimCR;
      var q := Longer(SplitLF(c), [CR]);
      assert p == p[..|p|-1] + [""];
      assert SplitLF(t + (c + "\r\n")) == p[..|p|-1] + q + [""];
      TrimConcat(p[..|p|-1], q);
      TrimLonger(SplitLF(c));
      assert (p[..|p|-1] + q + [""])[..|p| - 1 + |q|] == p[..|p|-1] + q;
    }
  }

  /** After text that ends a line, another terminated string. */
  lemma TerminatedSplit(t: string, c: string)
    requires SplitLF(t)[|SplitLF(t)|-1] == ""
    ensures SplitLF(t + (c + "\r\n")) == SplitLF(t)[..|SplitLF(t)|-1] + Longer(SplitLF(c), [CR]) + [""]
  {
    assert c + "\r\n" == c + [CR] + [LF];
    SplitPlain(c, [CR]);
    SplitSnocLF(c + [CR]);
    SplitBehindLine(t, c + "\r\n");
  }

  lemma SplitBehindLine(t: string, y: string)
    requires SplitLF(t)[|SplitLF(t)|-1] == ""
    ensures SplitLF(t + y) == SplitLF(t)[..|SplitLF(t)|-1] + SplitLF(y)
  {
    if t == "" {
      assert t + y == y;
    } else {
      LastPieceEmpty(t);
      var x := t[..|t|-1];
      assert t == x + [LF];
      assert t + y == x + [LF] + y;
      SplitSnocLF(x);
      SplitAcross(x, y);
    }
  }

  lemma LastPieceEmpty(t: string)
    requires t != "" && SplitLF(t)[|SplitLF(t)|-1] == ""
    ensures t[|t|-1] == LF
  {
    var x, c := t[..|t|-1], t[|t|-1];
    assert t == x + [c];
    SplitSnoc(x, c);
    var p := SplitLF(x);
    assert Longer(p, [c])[|p|-1] == p[|p|-1] + [c] != "";
  }

  // ------------------------------------------------------------ quoting

  /** A line that begins with "From " behind any number of ">". */
  predicate IsFromLine(l: string) {
    if l != "" && l[0] == '>' then IsFromLine(l[1..]) else FROM <= l
  }

  function Quote(l: string): string {
    if IsFromLine(l) then ">" + l else l
  }

  /** The reader drops one ">" from a quoted line. */
  function Unquote(l: string): string {
    if l != "" && l[0] == '>' && IsFromLine(l) then l[1..] else l
  }

  predicate IsSeparator(l: string) {
    FROM <= l
  }

  lemma QuoteIsUndone(l: string)
    ensures Unquote(Quote(l)) == l && !IsSeparator(Quote(l))
  {
    if IsFromLine(l) {
      assert (">" + l)[1..] == l;
    }
  }

  function QuoteAll(ls: seq<string>): seq<string> {
    seq(|ls|, i requires 0 <= i < |ls| => Quote(ls[i]))
  }

  // ------------------------------------------------------------ writing and reading

  /** A message of the archive: the sender named in the separator (empty when unknown), the
      date as the separator shows it, and the stored body. */
  datatype Mail = Mail(addr: string, stamp: string, body: string)

  /** A date in asctime form. */
  predicate Plain(stamp: string) {
    stamp != "" && LF !in stamp && CR !in stamp
  }

  function Sender(m: Mail): string {
    if m.addr == "" then "MAILER-DAEMON" else m.addr
  }

  function Separator(m: Mail): string {
    FROM + Sender(m) + " " + m.stamp
  }

  function Chunks(m: Mail): seq<string> {
    [Separator(m)] + QuoteAll(ScanLines(m.body)) + [""]
  }

  function AllChunks(ms: seq<Mail>): seq<string> {
    if ms == [] then [] else AllChunks(ms[..|ms|-1]) + Chunks(ms[|ms|-1])
  }

  function Exported(ms: seq<Mail>): string {
    Terminated(AllChunks(ms))
  }

  /** The reader: a separator starts a message, every other line is unquoted into the current one. */
  function Collect(ls: seq<string>): seq<seq<string>> {
    if ls == [] then []
    else
      var g, l := Collect(ls[..|ls|-1]), ls[|ls|-1];
      if IsSeparator(l) then g + [[]] else if g == [] then [] else Pushed(g, Unquote(l))
  }

  /** A line added to the current message. */
  function Pushed(g: seq<seq<string>>, l: string): seq<seq<string>>
    requires g != []
  {
    g[..|g|-1] + [g[|g|-1] + [l]]
  }

  function DropBlank(ls: seq<string>): seq<string> {
    if ls != [] && ls[|ls|-1] == "" then ls[..|ls|-1] else ls
  }

  function Finished(g: seq<seq<string>>): seq<seq<string>> {
    seq(|g|, i requires 0 <= i < |g| => DropBlank(g[i]))
  }

  function ReadMbox(s: string): seq<seq<string>> {
    Finished(Collect(ScanLines(s)))
  }

  /** The bodies, line by line: the messages up to line-ending normalisation. */
  function Bodies(ms: seq<Mail>): seq<seq<string>> {
    seq(|ms|, i requires 0 <= i < |ms| => ScanLines(ms[i].body))
  }

  // ------------------------------------------------------------ what the reader sees

  /** The lines the separator of m is read as: one, unless the address contains a line end. */
  function SeparatorLines(m: Mail): seq<string> {
    TrimAll(SplitLF(Separator(m)))
  }

  function ReadLines(m: Mail): seq<string> {
    SeparatorLines(m) + QuoteAll(ScanLines(m.body)) + [""]
  }

  function AllReadLines(ms: seq<Mail>): seq<string> {
    if ms == [] then [] else AllReadLines(ms[..|ms|-1]) + ReadLines(ms[|ms|-1])
  }

  predicate Trimmed(l: string) {
    LF !in l && (l != "" ==> l[|l|-1] != CR)
  }

  lemma {:induction false} TrimIsTrimmed(l: string)
    requires LF !in l
    ensures Trimmed(TrimCR(l))
  {
    if l != "" && l[|l|-1] == CR {
      TrimIsTrimmed(l[..|l|-1]);
    }
  }

  lemma ScannedAreTrimmed(s: string)
    ensures forall i :: 0 <= i < |ScanLines(s)| ==> Trimmed(ScanLines(s)[i])
  {
    SplitHasNoLF(s);
    forall i | 0 <= i < |ScanLines(s)|
      ensures Trimmed(ScanLines(s)[i])
    {
      TrimIsTrimmed(SplitLF(s)[i]);
    }
  }

  lemma QuoteTrimmed(l: string)
    requires Trimmed(l)
    ensures Trimmed(Quote(l))
  {
  }

  lemma PiecesSnoc(cs: seq<string>, c: string)
    ensures Pieces(cs + [c]) == Pieces(cs) + TrimAll(SplitLF(c))
  {
    assert (cs + [c])[..|cs|] == cs;
  }

  lemma {:induction false} PiecesConcat(x: seq<string>, y: seq<string>)
    ensures Pieces(x + y) == Pieces(x) + Pieces(y)
  {
    if y == [] {
      assert x + y == x;
    } else {
      var init, c := y[..|y|-1], y[|y|-1];
      assert y == init + [c];
      Assoc(x, init, [c]);
      PiecesConcat(x, init);
      PiecesSnoc(x + init, c);
      PiecesSnoc(init, c);
      hide Pieces, TrimAll, SplitLF;
      Assoc(Pieces(x), Pieces(init), TrimAll(SplitLF(c)));
    }
  }

  lemma TrimOne(l: string)
    requires Trimmed(l)
    ensures TrimAll([l]) == [l]
  {
    assert TrimCR(l) == l;
  }

  lemma {:induction false} PiecesOfTrimmed(ls: seq<string>)
    requires forall i :: 0 <= i < |ls| ==> Trimmed(ls[i])
    ensures Pieces(ls) == ls
  {
    if ls != [] {
      hide SplitLF, TrimAll, Pieces;
      var init, l := ls[..|ls|-1], ls[|ls|-1];
      assert ls == init + [l];
      PiecesOfTrimmed(init);
      SplitOneLine(l);
      TrimOne(l);
      PiecesSnoc(init, l);
    }
  }

  lemma PiecesOfOne(c: string)
    ensures Pieces([c]) == TrimAll(SplitLF(c))
  {
    assert [c][..0] == [];
  }

  lemma ChunksRead(m: Mail)
    ensures Pieces(Chunks(m)) == ReadLines(m)
  {
    var q := QuoteAll(ScanLines(m.body));
    ScannedAreTrimmed(m.body);
    forall i | 0 <= i < |q|
      ensures Trimmed(q[i])
    {
      QuoteTrimmed(ScanLines(m.body)[i]);
    }
    PiecesOfTrimmed(q);
    PiecesOfTrimmed([""]);
    PiecesOfOne(Separator(m));
    PiecesConcat([Separator(m)], q);
    PiecesConcat([Separator(m)] + q, [""]);
  }

  lemma {:induction false} ExportRead(ms: seq<Mail>)
    ensures ScanLines(Exported(ms)) == AllReadLines(ms)
  {
    ScanTerminated(AllChunks(ms));
    ChunksPieces(ms);
  }

  lemma {:induction false} ChunksPieces(ms: seq<Mail>)
    ensures Pieces(AllChunks(ms)) == AllReadLines(ms)
  {
    if ms != [] {
      ChunksPieces(ms[..|ms|-1]);
      PiecesConcat(AllChunks(ms[..|ms|-1]), Chunks(ms[|ms|-1]));
      ChunksRead(ms[|ms|-1]);
    }
  }

  // ------------------------------------------------------------ the round trip

  lemma CollectSnoc(ls: seq<string>, l: string)
    ensures var g := Collect(ls);
      Collect(ls + [l]) ==
        if IsSeparator(l) then g + [[]] else if g == [] then [] else Pushed(g, Unquote(l))
  {
    assert (ls + [l])[..|ls|] == ls;
  }

  lemma PushedNew(g: seq<seq<string>>, ls: seq<string>, l: string)
    ensures Pushed(g + [ls], l) == g + [ls + [l]]
  {
  }

  lemma QuoteAllSnoc(ls: seq<string>, l: string)
    ensures QuoteAll(ls + [l]) == QuoteAll(ls) + [Quote(l)]
  {
  }

  /** Quoted lines go into the message that has just begun, and come back unquoted. */
  lemma {:induction false} CollectQuoted(x: seq<string>, sep: string, ls: seq<string>)
    requires IsSeparator(sep)
    ensures Collect(x + [sep] + QuoteAll(ls)) == Collect(x) + [ls]
  {
    if ls == [] {
      assert x + [sep] + QuoteAll(ls) == x + [sep];
      CollectSnoc(x, sep);
    } else {
      var init, l := ls[..|ls|-1], ls[|ls|-1];
      assert ls == init + [l];
      CollectQuoted(x, sep, init);
      QuoteIsUndone(l);
      QuoteAllSnoc(init, l);
      hide Collect, Quote, Unquote, Pushed, QuoteAll, IsSeparator;
      Assoc(x + [sep], QuoteAll(init), [Quote(l)]);
      CollectSnoc(x + [sep] + QuoteAll(init), Quote(l));
      PushedNew(Collect(x), init, l);
    }
  }

  lemma CollectMail(x: seq<string>, m: Mail)
    requires Plain(m.stamp) && LF !in Sender(m)
    ensures Collect(x + ReadLines(m)) == Collect(x) + [ScanLines(m.body) + [""]]
  {
    var sep, ls := Separator(m), ScanLines(m.body);
    SeparatorIsOneLine(m);
    CollectQuoted(x, sep, ls);
    assert Unquote("") == "" && !IsSeparator("");
    hide Collect, Unquote, Pushed, QuoteAll, IsSeparator, Separator, SeparatorLines, ScanLines;
    Assoc(x, [sep] + QuoteAll(ls), [""]);
    Assoc(x, [sep], QuoteAll(ls));
    CollectSnoc(x + [sep] + QuoteAll(ls), "");
    PushedNew(Collect(x), ls, "");
  }

  lemma SeparatorIsOneLine(m: Mail)
    requires Plain(m.stamp) && LF !in Sender(m)
    ensures SeparatorLines(m) == [Separator(m)] && IsSeparator(Separator(m))
  {
    var sep := Separator(m);
    assert sep == FROM + (Sender(m) + " " + m.stamp);
    assert m.stamp[|m.stamp|-1] in m.stamp;
    assert sep[|sep|-1] == m.stamp[|m.stamp|-1];
    SplitOneLine(sep);
  }

  ghost predicate AllPlain(ms: seq<Mail>) {
    forall i :: 0 <= i < |ms| ==> Plain(ms[i].stamp)
  }

  predicate OneLineSenders(ms: seq<Mail>) {
    forall i :: 0 <= i < |ms| ==> LF !in Sender(ms[i])
  }

  lemma BodiesSnoc(ms: seq<Mail>, m: Mail)
    ensures Bodies(ms + [m]) == Bodies(ms) + [ScanLines(m.body)]
  {
    hide ScanLines;
  }

  lemma FinishedSnoc(g: seq<seq<string>>, ls: seq<string>)
    ensures Finished(g + [ls + [""]]) == Finished(g) + [ls]
  {
    assert (ls + [""])[..|ls|] == ls;
  }

  lemma {:induction false} CollectAll(ms: seq<Mail>)
    requires AllPlain(ms) && OneLineSenders(ms)
    ensures Finished(Collect(AllReadLines(ms))) == Bodies(ms)
  {
    if ms == [] {
      assert Collect([]) == [] && Finished([]) == [] && Bodies(ms) == [];
    } else {
      hide Collect, ScanLines, ReadLines, Bodies, Finished, Plain, Sender;
      var init, m := ms[..|ms|-1], ms[|ms|-1];
      assert ms == init + [m];
      assert forall i :: 0 <= i < |init| ==> init[i] == ms[i];
      CollectAll(init);
      CollectMail(AllReadLines(init), m);
      BodiesSnoc(init, m);
      FinishedSnoc(Collect(AllReadLines(init)), ScanLines(m.body));
    }
  }

  // ------------------------------------------------------------ and when it fails

  function TotalLen(g: seq<seq<string>>): nat {
    if g == [] then 0 else TotalLen(g[..|g|-1]) + |g[|g|-1]|
  }

  lemma TotalLenSnoc(g: seq<seq<string>>, ls: seq<string>)
    ensures TotalLen(g + [ls]) == TotalLen(g) + |ls|
  {
    assert (g + [ls])[..|g|] == g;
  }

  /** Behind a first separator the reader loses no line. */
  lemma {:induction false} CollectCounts(ls: seq<string>)
    requires ls != [] ==> IsSeparator(ls[0])
    ensures |Collect(ls)| + TotalLen(Collect(ls)) == |ls|
    ensures ls != [] ==> Collect(ls) != []
  {
    if ls != [] {
      var init, l := ls[..|ls|-1], ls[|ls|-1];
      CollectCounts(init);
      var g := Collect(init);
      TotalLenSnoc(g, []);
      if g != [] {
        assert g == g[..|g|-1] + [g[|g|-1]];
        TotalLenSnoc(g[..|g|-1], g[|g|-1]);
        TotalLenSnoc(g[..|g|-1], g[|g|-1] + [Unquote(l)]);
      }
    }
  }

  lemma {:induction false} FinishedLen(g: seq<seq<string>>)
    ensures TotalLen(g) <= TotalLen(Finished(g)) + |g|
  {
    if g != [] {
      FinishedLen(g[..|g|-1]);
      assert Finished(g) == Finished(g[..|g|-1]) + [DropBlank(g[|g|-1])];
      TotalLenSnoc(Finished(g[..|g|-1]), DropBlank(g[|g|-1]));
    }
  }

  /** Extra lines that separators are read as. */
  function Excess(ms: seq<Mail>): nat {
    if ms == [] then 0 else Excess(ms[..|ms|-1]) + (|SplitLF(Separator(ms[|ms|-1]))| - 1)
  }

  lemma {:induction false} ReadLinesCount(ms: seq<Mail>)
    ensures |AllReadLines(ms)| == Excess(ms) + TotalLen(Bodies(ms)) + 2 * |ms|
  {
    if ms != [] {
      var init, m := ms[..|ms|-1], ms[|ms|-1];
      assert ms == init + [m];
      ReadLinesCount(init);
      BodiesSnoc(init, m);
      hide ScanLines, Bodies, TotalLen, SplitLF, Separator;
      TotalLenSnoc(Bodies(init), ScanLines(m.body));
    }
  }

  lemma {:induction false} MoreLinesWithLF(s: string)
    ensures |SplitLF(s)| == 1 <==> LF !in s
  {
    if s != "" {
      MoreLinesWithLF(s[..|s|-1]);
      assert s == s[..|s|-1] + [s[|s|-1]];
    }
  }

  lemma SenderInside(m: Mail)
    ensures LF in Sender(m) ==> LF in Separator(m)
  {
  }

  lemma {:induction false} NoExcess(ms: seq<Mail>)
    ensures Excess(ms) == 0 ==> OneLineSenders(ms)
  {
    if ms != [] && Excess(ms) == 0 {
      var init, m := ms[..|ms|-1], ms[|ms|-1];
      NoExcess(init);
      MoreLinesWithLF(Separator(m));
      SenderInside(m);
      assert Excess(init) == 0 && LF !in Sender(m);
      hide SplitLF, Separator, Sender, Excess;
      forall i | 0 <= i < |ms|
        ensures LF !in Sender(ms[i])
      {
        assert i < |init| ==> ms[i] == init[i];
      }
    }
  }

  lemma {:induction false} TrimKeepsFrom(z: string)
    ensures FROM <= TrimCR(FROM + z)
  {
    if z != "" && z[|z|-1] == CR {
      assert (FROM + z)[..|FROM + z|-1] == FROM + z[..|z|-1];
      TrimKeepsFrom(z[..|z|-1]);
    } else {
      assert (FROM + z)[|FROM + z|-1] != CR;
    }
  }

  lemma {:induction false} FirstPiece(x: string, y: string)
    requires LF !in x
    ensures SplitLF(x + y)[0] == x + SplitLF(y)[0]
  {
    if y == "" {
      SplitOneLine(x);
      assert x + y == x && x + "" == x;
    } else {
      var init, c := y[..|y|-1], y[|y|-1];
      FirstPiece(x, init);
      FirstLengths(x, init);
      assert y == init + [c];
      Assoc(x, init, [c]);
      SplitSnoc(x + init, c);
      SplitSnoc(init, c);
      hide SplitLF;
      Assoc(x, SplitLF(init)[0], [c]);
    }
  }

  /** Text without a line end in front does not change the number of pieces. */
  lemma {:induction false} FirstLengths(x: string, y: string)
    requires LF !in x
    ensures |SplitLF(x + y)| == |SplitLF(y)|
  {
    if y == "" {
      SplitOneLine(x);
      assert x + y == x;
    } else {
      FirstLengths(x, y[..|y|-1]);
      assert x + y == (x + y[..|y|-1]) + [y[|y|-1]] && y == y[..|y|-1] + [y[|y|-1]];
      SplitSnoc(x + y[..|y|-1], y[|y|-1]);
      SplitSnoc(y[..|y|-1], y[|y|-1]);
    }
  }

  lemma {:induction false} StartsWithSeparator(ms: seq<Mail>)
    requires ms != []
    ensures AllReadLines(ms) != [] && IsSeparator(AllReadLines(ms)[0])
  {
    if |ms| == 1 {
      var m := ms[0];
      var rest := Sender(m) + " " + m.stamp;
      assert Separator(m) == FROM + rest;
      FirstPiece(FROM, rest);
      TrimKeepsFrom(SplitLF(rest)[0]);
      assert SeparatorLines(m)[0] == TrimCR(SplitLF(Separator(m))[0]);
      assert ms[..0] == [];
    } else {
      StartsWithSeparator(ms[..|ms|-1]);
    }
  }

  /** Theorem: reading the exported archive gives back exactly the bodies, up to line-ending
      normalisation and whatever they quote, if and only if no sender contains a line end. */
  lemma MboxRoundTrip(ms: seq<Mail>)
    requires AllPlain(ms)
    ensures ReadMbox(Exported(ms)) == Bodies(ms) <==> OneLineSenders(ms)
  {
    ExportRead(ms);
    if OneLineSenders(ms) {
      CollectAll(ms);
    } else if ReadMbox(Exported(ms)) == Bodies(ms) {
      var ls := AllReadLines(ms);
      StartsWithSeparator(ms);
      CollectCounts(ls);
      FinishedLen(Collect(ls));
      ReadLinesCount(ms);
      NoExcess(ms);
    }
  }

  // ------------------------------------------------------------ the code

  method IsFromLineLoop(line: string) returns (yes: bool)
    ensures yes == IsFromLine(line)
  {
    var l := line;
    while |l| > 0 && l[0] == '>'
      invariant IsFromLine(l) == IsFromLine(line)
    {
      l := l[1..];
    }
    return FROM <= l;
  }

  lemma TerminatedSnoc(cs: seq<string>, c: string)
    ensures Terminated(cs + [c]) == Terminated(cs) + (c + "\r\n")
  {
    assert (cs + [c])[..|cs|] == cs;
  }

  lemma LineStep(w: string, lines: seq<string>, i: nat)
    requires i < |lines|
    ensures (w + Terminated(QuoteAll(lines[..i]))) + (Quote(lines[i]) + "\r\n") ==
      w + Terminated(QuoteAll(lines[..i+1]))
  {
    hide Terminated, QuoteAll, Quote;
    assert lines[..i+1] == lines[..i] + [lines[i]];
    QuoteAllSnoc(lines[..i], lines[i]);
    TerminatedSnoc(QuoteAll(lines[..i]), Quote(lines[i]));
    Assoc(w, Terminated(QuoteAll(lines[..i])), Quote(lines[i]) + "\r\n");
  }

  lemma FirstLine(w: string)
    ensures w == w + Terminated(QuoteAll([]))
  {
  }

  lemma QuotedLine(out: string, l: string)
    ensures IsFromLine(l) ==> out + ">" + l + "\r\n" == out + (Quote(l) + "\r\n")
    ensures !IsFromLine(l) ==> out + l + "\r\n" == out + (Quote(l) + "\r\n")
  {
    Assoc(out, l, "\r\n");
    Assoc(out, ">", l);
    Assoc(out, ">" + l, "\r\n");
  }

  lemma LastLine(w: string, lines: seq<string>)
    ensures (w + Terminated(QuoteAll(lines))) + "\r\n" == w + Terminated(QuoteAll(lines) + [""])
  {
    hide Terminated, QuoteAll;
    TerminatedSnoc(QuoteAll(lines), "");
    assert "" + "\r\n" == "\r\n";
    Assoc(w, Terminated(QuoteAll(lines)), "\r\n");
  }

  /** Writes one body, quoted, with the blank line that ends a message. */
  method WriteMboxBody(w: string, body: string) returns (out: string)
    ensures out == w + Terminated(QuoteAll(ScanLines(body)) + [""])
  {
    FirstLine(w);
    hide Terminated, QuoteAll, ScanLines, IsFromLine, Quote;
    var lines := ScanLines(body);
    out := w;
    for i := 0 to |lines|
      invariant out == w + Terminated(QuoteAll(lines[..i]))
    {
      LineStep(w, lines, i);
      QuotedLine(out, lines[i]);
      var quoted := IsFromLineLoop(lines[i]);
      if quoted {
        out := out + ">";
      }
      out := out + lines[i];
      out := out + "\r\n";
    }
    assert lines[..|lines|] == lines;
    LastLine(w, lines);
    out := out + "\r\n";
  }

  lemma {:induction false} TerminatedConcat(x: seq<string>, y: seq<string>)
    ensures Terminated(x + y) == Terminated(x) + Terminated(y)
  {
    if y == [] {
      assert x + y == x && Terminated(x) + "" == Terminated(x);
    } else {
      var init, c := y[..|y|-1], y[|y|-1];
      assert y == init + [c];
      Assoc(x, init, [c]);
      TerminatedConcat(x, init);
      TerminatedSnoc(x + init, c);
      TerminatedSnoc(init, c);
      hide Terminated;
      Assoc(Terminated(x), Terminated(init), c + "\r\n");
    }
  }

  /** The message as the archive shows it: stamp is the asctime form of its date. */
  function MailOf(m: Message, stamp: int -> string, body: string): Mail {
    Mail(if m.envelope.from != [] then m.envelope.from[0] else "", stamp(m.envelope.date), body)
  }

  /** The archive of the given messages, in order; None when the blob of one is missing. */
  function Archive(messages: map<Id, Message>, ids: seq<Id>, blobs: map<string, string>,
                   stamp: int -> string): Option<seq<Mail>> {
    if ids == [] then Some([])
    else
      var before, id := Archive(messages, ids[..|ids|-1], blobs, stamp), ids[|ids|-1];
      if before.None? || id !in messages || messages[id].blobRef !in blobs then None
      else Some(before.value + [MailOf(messages[id], stamp, blobs[messages[id].blobRef])])
  }

  lemma VisibleAreLive(messages: map<Id, Message>, order: seq<Id>)
    ensures forall i :: 0 <= i < |P.Visible(messages, order)| ==> P.Visible(messages, order)[i] in messages
  {
    P.VisibleSpec(messages, order);
    var ids := P.Visible(messages, order);
    assert forall i :: 0 <= i < |ids| ==> ids[i] in ids;
  }

  lemma ArchiveSnoc(messages: map<Id, Message>, ids: seq<Id>, blobs: map<string, string>, stamp: int -> string, i: nat)
    requires i < |ids|
    ensures var before, after := Archive(messages, ids[..i], blobs, stamp), Archive(messages, ids[..i+1], blobs, stamp);
      after == if before.None? || ids[i] !in messages || messages[ids[i]].blobRef !in blobs then None
               else Some(before.value + [MailOf(messages[ids[i]], stamp, blobs[messages[ids[i]].blobRef])])
  {
    assert ids[..i+1][..i] == ids[..i];
  }

  /** Fetches the body of every visible message; None is the error of a missing blob. */
  method Gather(acc: P.Account, blobs: map<string, string>, stamp: int -> string) returns (mails: Option<seq<Mail>>)
    ensures mails == Archive(acc.messages, P.Visible(acc.messages, acc.order), blobs, stamp)
  {
    var ids := acc.AllMail();
    VisibleAreLive(acc.messages, acc.order);
    var done: seq<Mail> := [];
    assert ids[..0] == [] && Archive(acc.messages, [], blobs, stamp) == Some(done);
    hide Archive, P.Visible, MailOf;
    for i := 0 to |ids|
      invariant Archive(acc.messages, ids[..i], blobs, stamp) == Some(done)
    {
      ArchiveSnoc(acc.messages, ids, blobs, stamp, i);
      var m := acc.messages[ids[i]];
      if m.blobRef !in blobs {
        ArchiveFails(acc.messages, ids, blobs, stamp, i + 1);
        return None;
      }
      done := done + [MailOf(m, stamp, blobs[m.blobRef])];
    }
    assert ids[..|ids|] == ids;
    mails := Some(done);
  }

  /** ExportMbox, behind the fetching: separator and body of each message in turn. */
  method ExportMbox(mails: seq<Mail>) returns (w: string)
    ensures w == Exported(mails)
  {
    w := "";
    assert w == Exported([]);
    hide *;
    for i := 0 to |mails|
      invariant w == Exported(mails[..i])
    {
      ExportStep(mails, i);
      var started := w + (Separator(mails[i]) + "\r\n");
      w := WriteMboxBody(started, mails[i].body);
    }
    assert mails[..|mails|] == mails;
  }

  lemma ExportStep(mails: seq<Mail>, i: nat)
    requires i < |mails|
    ensures Exported(mails[..i]) + (Separator(mails[i]) + "\r\n")
      + Terminated(QuoteAll(ScanLines(mails[i].body)) + [""]) ==
      Exported(mails[..i+1])
  {
    hide Exported, QuoteAll, ScanLines, Separator, Terminated;
    assert mails[..i+1] == mails[..i] + [mails[i]];
    ExportedSnoc(mails[..i], mails[i]);
  }

  /** ExportMbox as called: the account is what the records still in the log fold to. */
  method ExportLog(file: EventLog.File<P.Snapshot>, readable: bool, blobs: map<string, string>, stamp: int -> string)
      returns (w: Option<string>)
    ensures var a := P.Fold(P.EMPTY, EventLog.Since(EventLog.ReadAll(file.fs.d), 1));
      var mails := Archive(a.messages, P.Visible(a.messages, a.order), blobs, stamp);
      w == if !readable || mails.None? then None else Some(Exported(mails.value))
  {
    var recs := file.ReadFrom(1, readable);
    if recs.None? {
      return None;
    }
    var acc := P.Rebuild(recs.value);
    hide Archive, Exported, P.Visible, P.Fold;
    var mails := Gather(acc, blobs, stamp);
    if mails.None? {
      return None;
    }
    var text := ExportMbox(mails.value);
    w := Some(text);
  }

  lemma AllChunksSnoc(ms: seq<Mail>, m: Mail)
    ensures AllChunks(ms + [m]) == (AllChunks(ms) + [Separator(m)]) + (QuoteAll(ScanLines(m.body)) + [""])
  {
    assert (ms + [m])[..|ms|] == ms;
    hide QuoteAll, ScanLines, Separator;
    Assoc([Separator(m)], QuoteAll(ScanLines(m.body)), [""]);
    Assoc(AllChunks(ms), [Separator(m)], QuoteAll(ScanLines(m.body)) + [""]);
  }

  lemma ExportedSnoc(ms: seq<Mail>, m: Mail)
    ensures Exported(ms + [m]) == Exported(ms) + (Separator(m) + "\r\n")
      + Terminated(QuoteAll(ScanLines(m.body)) + [""])
  {
    hide AllChunks, QuoteAll, ScanLines, Separator, Terminated;
    AllChunksSnoc(ms, m);
    TerminatedConcat(AllChunks(ms) + [Separator(m)], QuoteAll(ScanLines(m.body)) + [""]);
    TerminatedSnoc(AllChunks(ms), Separator(m));
  }

  lemma {:induction false} ArchiveFails(messages: map<Id, Message>, ids: seq<Id>, blobs: map<string, string>,
                                        stamp: int -> string, k: nat)
    requires k <= |ids| && Archive(messages, ids[..k], blobs, stamp).None?
    ensures Archive(messages, ids, blobs, stamp).None?
    decreases |ids|
  {
    if k == |ids| {
      assert ids[..k] == ids;
    } else {
      assert ids[..|ids|-1][..k] == ids[..k];
      ArchiveFails(messages, ids[..|ids|-1], blobs, stamp, k);
    }
  }
}
