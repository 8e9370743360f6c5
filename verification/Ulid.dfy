/** internal/ids: a 48-bit millisecond time and 80 random bits, written as 26 characters of
    Crockford's base 32. */
module Ulid {

  type Byte = bv8

  const ENC: string := "0123456789ABCDEFGHJKMNPQRSTVWXYZ"

  // ------------------------------------------------------------ numerals

  /** The number a big-endian digit string denotes. */
  function Number(base: nat, ds: seq<nat>): nat {
    if ds == [] then 0 else base * Number(base, ds[..|ds|-1]) + ds[|ds|-1]
  }

  predicate Digits(base: nat, ds: seq<nat>) {
    forall i :: 0 <= i < |ds| ==> ds[i] < base
  }

  function Pow(base: nat, n: nat): nat {
    if n == 0 then 1 else base * Pow(base, n - 1)
  }

  lemma {:induction false} NumberConcat(base: nat, x: seq<nat>, y: seq<nat>)
    ensures Number(base, x + y) == Number(base, x) * Pow(base, |y|) + Number(base, y)
  {
    if y == [] {
      assert x + y == x;
    } else {
      var init, last := y[..|y|-1], y[|y|-1];
      assert (x + y)[..|x + y|-1] == x + init && (x + y)[|x + y|-1] == last;
      NumberShifted(base, x + y);
      NumberShifted(base, y);
      assert Pow(base, |y|) == base * Pow(base, |init|);
      hide Number, Pow;
      NumberConcat(base, x, init);
      OneMoreDigit(base, Number(base, x), Pow(base, |init|), Number(base, init), last);
    }
  }

  lemma OneMoreDigit(base: nat, a: nat, p: nat, b: nat, d: nat)
    ensures Shifted(base, a * p + b, d) == a * (base * p) + Shifted(base, b, d)
  {
    assert base * (a * p + b) == base * (a * p) + base * b;
    assert base * (a * p) == a * (base * p);
  }

  lemma {:induction false} NumberBound(base: nat, ds: seq<nat>)
    requires Digits(base, ds)
    ensures Number(base, ds) < Pow(base, |ds|)
  {
    if ds != [] {
      var n, p := Number(base, ds[..|ds|-1]), Pow(base, |ds|-1);
      NumberBound(base, ds[..|ds|-1]);
      MulMonotone(base, n + 1, p);
      assert base * (n + 1) == base * n + base;
    }
  }

  lemma MulMonotone(a: nat, b: nat, c: nat)
    requires b <= c
    ensures a * b <= a * c
  {
  }

  /** Dictionary order: at the first difference x is smaller. */
  predicate LexLess(x: seq<nat>, y: seq<nat>) {
    exists i :: 0 <= i < |x| && i < |y| && x[..i] == y[..i] && x[i] < y[i]
  }

  lemma {:induction false} LexStep(x: seq<nat>, y: seq<nat>)
    requires |x| == |y| > 0
    ensures var n := |x| - 1;
      LexLess(x, y) <==> LexLess(x[..n], y[..n]) || (x[..n] == y[..n] && x[n] < y[n])
  {
    var n := |x| - 1;
    if i :| 0 <= i < |x| && x[..i] == y[..i] && x[i] < y[i] && i < n {
      assert x[..n][..i] == x[..i] && y[..n][..i] == y[..i];
    }
    if i :| 0 <= i < n && x[..n][..i] == y[..n][..i] && x[..n][i] < y[..n][i] {
      assert x[..n][..i] == x[..i] && y[..n][..i] == y[..i];
    }
  }

  /** Numerals of one length: dictionary order is numeric order, and equal numbers have equal
      numerals. */
  lemma {:induction false} OrderIsNumeric(base: nat, x: seq<nat>, y: seq<nat>)
    requires |x| == |y| && Digits(base, x) && Digits(base, y)
    ensures LexLess(x, y) <==> Number(base, x) < Number(base, y)
    ensures x == y <==> Number(base, x) == Number(base, y)
  {
    if x != [] {
      var n := |x| - 1;
      assert x == x[..n] + [x[n]] && y == y[..n] + [y[n]];
      hide Number, LexLess, Shifted;
      LexStep(x, y);
      OrderIsNumeric(base, x[..n], y[..n]);
      NumberShifted(base, x);
      NumberShifted(base, y);
      LastDigit(base, Number(base, x[..n]), x[n], Number(base, y[..n]), y[n]);
    }
  }

  /** A numeral with one digit more. */
  function Shifted(base: nat, a: nat, d: nat): nat {
    base * a + d
  }

  lemma NumberShifted(base: nat, ds: seq<nat>)
    requires ds != []
    ensures Number(base, ds) == Shifted(base, Number(base, ds[..|ds|-1]), ds[|ds|-1])
  {
  }

  lemma LastDigit(base: nat, a: nat, d: nat, b: nat, e: nat)
    requires d < base && e < base
    ensures Shifted(base, a, d) < Shifted(base, b, e) <==> a < b || (a == b && d < e)
    ensures Shifted(base, a, d) == Shifted(base, b, e) <==> a == b && d == e
  {
    if a < b {
      assert base * (a + 1) <= base * b;
    } else if b < a {
      assert base * (b + 1) <= base * a;
    }
  }

  // ------------------------------------------------------------ the bit fields

  function Top3(x: Byte): nat { ((x & 224) >> 5) as nat }
  function Low5(x: Byte): nat { (x & 31) as nat }
  function High5(x: Byte): nat { ((x & 248) >> 3) as nat }
  function Join3And2(x: Byte, y: Byte): nat { (((x & 7) << 2) | ((y & 192) >> 6)) as nat }
  function Bits2To6(x: Byte): nat { ((x & 62) >> 1) as nat }
  function Join1And4(x: Byte, y: Byte): nat { (((x & 1) << 4) | ((y & 240) >> 4)) as nat }
  function Join4And1(x: Byte, y: Byte): nat { (((x & 15) << 1) | ((y & 128) >> 7)) as nat }
  function Bits3To7(x: Byte): nat { ((x & 124) >> 2) as nat }
  function Join2And3(x: Byte, y: Byte): nat { (((x & 3) << 3) | ((y & 224) >> 5)) as nat }

  // Shifts and masks of a byte as arithmetic, one fact at a time.
  lemma Shr1(x: Byte) ensures (x >> 1) as int == x as int / 2 {}
  lemma Shr2(x: Byte) ensures (x >> 2) as int == x as int / 4 {}
  lemma Shr3(x: Byte) ensures (x >> 3) as int == x as int / 8 {}
  lemma Shr4(x: Byte) ensures (x >> 4) as int == x as int / 16 {}
  lemma Shr5(x: Byte) ensures (x >> 5) as int == x as int / 32 {}
  lemma Shr6(x: Byte) ensures (x >> 6) as int == x as int / 64 {}
  lemma Shr7(x: Byte) ensures (x >> 7) as int == x as int / 128 {}
  lemma And1(x: Byte) ensures (x & 1) as int == x as int % 2 {}
  lemma And3(x: Byte) ensures (x & 3) as int == x as int % 4 {}
  lemma And7(x: Byte) ensures (x & 7) as int == x as int % 8 {}
  lemma And15(x: Byte) ensures (x & 15) as int == x as int % 16 {}
  lemma And31(x: Byte) ensures (x & 31) as int == x as int % 32 {}
  lemma Shl1(x: Byte) requires x <= 15 ensures (x << 1) as int == x as int * 2 {}
  lemma Shl2(x: Byte) requires x <= 7 ensures (x << 2) as int == x as int * 4 {}
  lemma Shl3(x: Byte) requires x <= 3 ensures (x << 3) as int == x as int * 8 {}
  lemma Shl4(x: Byte) requires x <= 1 ensures (x << 4) as int == x as int * 16 {}

  lemma Masks(x: Byte)
    ensures (x & 224) >> 5 == x >> 5 && (x & 248) >> 3 == x >> 3 && (x & 192) >> 6 == x >> 6
    ensures (x & 240) >> 4 == x >> 4 && (x & 128) >> 7 == x >> 7
    ensures (x & 124) >> 2 == (x >> 2) & 31 && (x & 62) >> 1 == (x >> 1) & 31
  {
  }

  lemma OrOneBit(p: Byte, q: Byte)
    requires p & 1 == 0 && q <= 1
    ensures (p | q) as int == p as int + q as int
  {
    assert q == 0 || q == 1;
  }

  lemma OrTwoBits(p: Byte, q: Byte)
    requires p & 3 == 0 && q <= 3
    ensures (p | q) as int == p as int + q as int
  {
    assert q == 0 || q == 1 || q == 2 || q == 3;
  }

  lemma OrThreeBits(p: Byte, q: Byte)
    requires (p == 0 || p == 8 || p == 16 || p == 24) && q <= 7
    ensures (p | q) as int == p as int + q as int
  {
    if p == 0 {} else if p == 8 {} else if p == 16 {} else {}
  }

  lemma OrFourBits(p: Byte, q: Byte)
    requires (p == 0 || p == 16) && q <= 15
    ensures (p | q) as int == p as int + q as int
  {
    if p == 0 {} else {}
  }

  lemma Top3Value(x: Byte)
    ensures Top3(x) == x as int / 32
  {
    Masks(x);
    Shr5(x);
  }

  lemma Low5Value(x: Byte)
    ensures Low5(x) == x as int % 32
  {
    And31(x);
  }

  lemma High5Value(x: Byte)
    ensures High5(x) == x as int / 8
  {
    Masks(x);
    Shr3(x);
  }

  lemma Bits2To6Value(x: Byte)
    ensures Bits2To6(x) == (x as int / 2) % 32
  {
    Masks(x);
    Shr1(x);
    And31(x >> 1);
  }

  lemma Bits3To7Value(x: Byte)
    ensures Bits3To7(x) == (x as int / 4) % 32
  {
    Masks(x);
    Shr2(x);
    And31(x >> 2);
  }

  lemma Join3And2Value(x: Byte, y: Byte)
    ensures Join3And2(x, y) == (x as int % 8) * 4 + y as int / 64
  {
    Masks(y);
    And7(x);
    Shl2(x & 7);
    Shr6(y);
    OrTwoBits((x & 7) << 2, y >> 6);
  }

  lemma Join1And4Value(x: Byte, y: Byte)
    ensures Join1And4(x, y) == (x as int % 2) * 16 + y as int / 16
  {
    Masks(y);
    And1(x);
    Shl4(x & 1);
    Shr4(y);
    OrFourBits((x & 1) << 4, y >> 4);
  }

  lemma Join4And1Value(x: Byte, y: Byte)
    ensures Join4And1(x, y) == (x as int % 16) * 2 + y as int / 128
  {
    Masks(y);
    And15(x);
    Shl1(x & 15);
    Shr7(y);
    OrOneBit((x & 15) << 1, y >> 7);
  }

  lemma Join2And3Value(x: Byte, y: Byte)
    ensures Join2And3(x, y) == (x as int % 4) * 8 + y as int / 32
  {
    Masks(y);
    And3(x);
    Shl3(x & 3);
    Shr5(y);
    OrThreeBits((x & 3) << 3, y >> 5);
  }

  // ------------------------------------------------------------ five bytes, eight digits

  /** The eight 5-bit groups of five bytes. */
  function Group(v: Byte, w: Byte, x: Byte, y: Byte, z: Byte): seq<nat> {
    [High5(v), Join3And2(v, w), Bits2To6(w), Join1And4(w, x), Join4And1(x, y), Bits3To7(y), Join2And3(y, z), Low5(z)]
  }

  function Ints(bs: seq<Byte>): seq<nat> {
    seq(|bs|, i requires 0 <= i < |bs| => bs[i] as int)
  }

  lemma NumberSnoc(base: nat, ds: seq<nat>, d: nat)
    ensures Number(base, ds + [d]) == base * Number(base, ds) + d
  {
    assert (ds + [d])[..|ds|] == ds;
  }

  lemma NumberOfFive(a: nat, b: nat, c: nat, d: nat, e: nat)
    ensures Number(256, [a, b, c, d, e]) == 256 * (256 * (256 * (256 * a + b) + c) + d) + e
  {
    assert Number(256, []) == 0;
    hide Number;
    NumberSnoc(256, [], a);
    NumberSnoc(256, [a], b);
    NumberSnoc(256, [a, b], c);
    NumberSnoc(256, [a, b, c], d);
    NumberSnoc(256, [a, b, c, d], e);
    assert [] + [a] == [a] && [a] + [b] == [a, b] && [a, b] + [c] == [a, b, c] && [a, b, c] + [d] == [a, b, c, d];
    assert [a, b, c, d] + [e] == [a, b, c, d, e];
  }

  lemma NumberOfEight(a: nat, b: nat, c: nat, d: nat, e: nat, f: nat, g: nat, h: nat)
    ensures Number(32, [a, b, c, d, e, f, g, h]) ==
      32 * (32 * (32 * (32 * (32 * (32 * (32 * a + b) + c) + d) + e) + f) + g) + h
  {
    assert Number(32, []) == 0;
    hide Number;
    NumberSnoc(32, [], a);
    NumberSnoc(32, [a], b);
    NumberSnoc(32, [a, b], c);
    NumberSnoc(32, [a, b, c], d);
    NumberSnoc(32, [a, b, c, d], e);
    NumberSnoc(32, [a, b, c, d, e], f);
    NumberSnoc(32, [a, b, c, d, e, f], g);
    NumberSnoc(32, [a, b, c, d, e, f, g], h);
    assert [] + [a] == [a] && [a] + [b] == [a, b] && [a, b] + [c] == [a, b, c] && [a, b, c] + [d] == [a, b, c, d];
    assert [a, b, c, d] + [e] == [a, b, c, d, e] && [a, b, c, d, e] + [f] == [a, b, c, d, e, f];
    assert [a, b, c, d, e, f] + [g] == [a, b, c, d, e, f, g];
    assert [a, b, c, d, e, f, g] + [h] == [a, b, c, d, e, f, g, h];
  }

  /** Forty bits cut at other places are the same number. */
  lemma Recut(v1: int, v0: int, w2: int, w1: int, w0: int, x1: int, x0: int,
              y2: int, y1: int, y0: int, z1: int, z0: int)
    ensures
      32 * (32 * (32 * (32 * (32 * (32 * (32 * v1 + (v0 * 4 + w2)) + w1) + (w0 * 16 + x1)) + (x0 * 2 + y2)) + y1) +
        (y0 * 8 + z1)) + z0
      ==
      256 * (256 * (256 * (256 * (8 * v1 + v0) + (64 * w2 + 2 * w1 + w0)) + (16 * x1 + x0)) +
        (128 * y2 + 4 * y1 + y0)) + (32 * z1 + z0)
  {
  }

  function Quot(a: nat, k: nat): nat
    requires k > 0
  {
    a / k
  }

  function Rem(a: nat, k: nat): nat
    requires k > 0
  {
    a % k
  }

  /** The same group as numbers. */
  function IntGroup(a: nat, b: nat, c: nat, d: nat, e: nat): seq<nat> {
    [Quot(a, 8), Rem(a, 8) * 4 + Quot(b, 64), Rem(Quot(b, 2), 32), Rem(b, 2) * 16 + Quot(c, 16),
     Rem(c, 16) * 2 + Quot(d, 128), Rem(Quot(d, 4), 32), Rem(d, 4) * 8 + Quot(e, 32), Rem(e, 32)]
  }

  lemma IntGroupDigits(a: nat, b: nat, c: nat, d: nat, e: nat)
    requires a < 256 && b < 256 && c < 256 && d < 256 && e < 256
    ensures |IntGroup(a, b, c, d, e)| == 8 && Digits(32, IntGroup(a, b, c, d, e))
  {
  }

  lemma Cut(b: nat, k: nat)
    requires k > 0
    ensures b == k * Quot(b, k) + Rem(b, k)
  {
  }

  lemma CutInThree(b: nat)
    requires b < 256
    ensures b == 64 * Quot(b, 64) + 2 * Rem(Quot(b, 2), 32) + Rem(b, 2)
    ensures b == 128 * Quot(b, 128) + 4 * Rem(Quot(b, 4), 32) + Rem(b, 4)
  {
    assert b / 2 / 32 == b / 64 && b / 4 / 32 == b / 128;
  }

  lemma CutByte(b: nat)
    requires b < 256
    ensures b == 8 * Quot(b, 8) + Rem(b, 8) == 64 * Quot(b, 64) + 2 * Rem(Quot(b, 2), 32) + Rem(b, 2)
    ensures b == 16 * Quot(b, 16) + Rem(b, 16) == 128 * Quot(b, 128) + 4 * Rem(Quot(b, 4), 32) + Rem(b, 4)
    ensures b == 32 * Quot(b, 32) + Rem(b, 32)
  {
    hide Quot, Rem;
    Cut(b, 8);
    Cut(b, 16);
    Cut(b, 32);
    CutInThree(b);
  }

  lemma FromPieces(a: nat, b: nat, c: nat, d: nat, e: nat, v1: nat, v0: nat, w2: nat, w1: nat, w0: nat,
                   x1: nat, x0: nat, y2: nat, y1: nat, y0: nat, z1: nat, z0: nat)
    requires a == 8 * v1 + v0 && b == 64 * w2 + 2 * w1 + w0 && c == 16 * x1 + x0 && d == 128 * y2 + 4 * y1 + y0
      && e == 32 * z1 + z0
    ensures Number(32, [v1, v0 * 4 + w2, w1, w0 * 16 + x1, x0 * 2 + y2, y1, y0 * 8 + z1, z0]) ==
      Number(256, [a, b, c, d, e])
  {
    hide Number;
    NumberOfEight(v1, v0 * 4 + w2, w1, w0 * 16 + x1, x0 * 2 + y2, y1, y0 * 8 + z1, z0);
    NumberOfFive(a, b, c, d, e);
    Recut(v1, v0, w2, w1, w0, x1, x0, y2, y1, y0, z1, z0);
  }

  lemma IntGroupValue(a: nat, b: nat, c: nat, d: nat, e: nat)
    requires a < 256 && b < 256 && c < 256 && d < 256 && e < 256
    ensures Number(32, IntGroup(a, b, c, d, e)) == Number(256, [a, b, c, d, e])
  {
    hide Number, Quot, Rem;
    CutByte(a);
    CutByte(b);
    CutByte(c);
    CutByte(d);
    CutByte(e);
    FromPieces(a, b, c, d, e, Quot(a, 8), Rem(a, 8), Quot(b, 64), Rem(Quot(b, 2), 32), Rem(b, 2),
               Quot(c, 16), Rem(c, 16), Quot(d, 128), Rem(Quot(d, 4), 32), Rem(d, 4), Quot(e, 32), Rem(e, 32));
  }

  lemma GroupIsIntGroup(v: Byte, w: Byte, x: Byte, y: Byte, z: Byte)
    ensures Group(v, w, x, y, z) == IntGroup(v as int, w as int, x as int, y as int, z as int)
  {
    High5Value(v);
    Join3And2Value(v, w);
    Bits2To6Value(w);
    Join1And4Value(w, x);
    Join4And1Value(x, y);
    Bits3To7Value(y);
    Join2And3Value(y, z);
    Low5Value(z);
    hide High5, Join3And2, Bits2To6, Join1And4, Join4And1, Bits3To7, Join2And3, Low5;
  }

  lemma GroupValue(v: Byte, w: Byte, x: Byte, y: Byte, z: Byte)
    ensures |Group(v, w, x, y, z)| == 8 && Digits(32, Group(v, w, x, y, z))
    ensures Number(32, Group(v, w, x, y, z)) == Number(256, Ints([v, w, x, y, z]))
  {
    hide Number, Digits, Group, IntGroup;
    GroupIsIntGroup(v, w, x, y, z);
    IntGroupDigits(v as int, w as int, x as int, y as int, z as int);
    IntGroupValue(v as int, w as int, x as int, y as int, z as int);
    assert Ints([v, w, x, y, z]) == [v as int, w as int, x as int, y as int, z as int];
  }

  // ------------------------------------------------------------ encode

  /** The twenty-six digits of sixteen bytes. */
  function Digits26(b: seq<Byte>): seq<nat>
    requires |b| == 16
  {
    [Top3(b[0]), Low5(b[0])] + Group(b[1], b[2], b[3], b[4], b[5]) +
    Group(b[6], b[7], b[8], b[9], b[10]) + Group(b[11], b[12], b[13], b[14], b[15])
  }

  /** Digits and the bytes they stand for, so far. */
  ghost predicate Denotes(ds: seq<nat>, bs: seq<nat>) {
    Digits(32, ds) && Number(32, ds) == Number(256, bs)
  }

  lemma IntsConcat(x: seq<Byte>, y: seq<Byte>)
    ensures Ints(x + y) == Ints(x) + Ints(y)
  {
  }

  lemma AppendGroup(ds: seq<nat>, bs: seq<Byte>, v: Byte, w: Byte, x: Byte, y: Byte, z: Byte)
    requires Denotes(ds, Ints(bs))
    ensures |Group(v, w, x, y, z)| == 8 && Denotes(ds + Group(v, w, x, y, z), Ints(bs + [v, w, x, y, z]))
  {
    GroupValue(v, w, x, y, z);
    hide Group, Number;
    IntsConcat(bs, [v, w, x, y, z]);
    NumberConcat(32, ds, Group(v, w, x, y, z));
    NumberConcat(256, Ints(bs), Ints([v, w, x, y, z]));
    PowSteps();
  }

  lemma Sixteen(b: seq<Byte>)
    requires |b| == 16
    ensures b == [b[0]] + [b[1], b[2], b[3], b[4], b[5]] + [b[6], b[7], b[8], b[9], b[10]]
      + [b[11], b[12], b[13], b[14], b[15]]
  {
  }

  /** Theorem: encode writes the base-32 numeral of the 128-bit number. */
  lemma EncodesTheNumber(b: seq<Byte>)
    requires |b| == 16
    ensures |Digits26(b)| == 26 && Denotes(Digits26(b), Ints(b))
  {
    Sixteen(b);
    hide Denotes, Group, Top3, Low5;
    var d0, b0 := [Top3(b[0]), Low5(b[0])], [b[0]];
    TopValue(b[0]);
    AppendGroup(d0, b0, b[1], b[2], b[3], b[4], b[5]);
    var d1, b1 := d0 + Group(b[1], b[2], b[3], b[4], b[5]), b0 + [b[1], b[2], b[3], b[4], b[5]];
    AppendGroup(d1, b1, b[6], b[7], b[8], b[9], b[10]);
    var d2, b2 := d1 + Group(b[6], b[7], b[8], b[9], b[10]), b1 + [b[6], b[7], b[8], b[9], b[10]];
    AppendGroup(d2, b2, b[11], b[12], b[13], b[14], b[15]);
  }

  lemma TopNumber(a: nat)
    requires a < 256
    ensures Digits(32, [Quot(a, 32), Rem(a, 32)]) && Number(32, [Quot(a, 32), Rem(a, 32)]) == Number(256, [a])
  {
    CutByte(a);
    assert Number(32, []) == 0 && Number(256, []) == 0;
    hide Number;
    NumberSnoc(256, [], a);
    NumberSnoc(32, [], Quot(a, 32));
    NumberSnoc(32, [Quot(a, 32)], Rem(a, 32));
    assert [] + [Quot(a, 32)] == [Quot(a, 32)] && [] + [a] == [a];
    assert [Quot(a, 32)] + [Rem(a, 32)] == [Quot(a, 32), Rem(a, 32)];
  }

  lemma TopValue(x: Byte)
    ensures Denotes([Top3(x), Low5(x)], Ints([x]))
  {
    Top3Value(x);
    Low5Value(x);
    TopNumber(x as int);
    hide Top3, Low5, Number, Digits;
    assert Ints([x]) == [x as int];
    assert [Top3(x), Low5(x)] == [Quot(x as int, 32), Rem(x as int, 32)];
  }

  lemma PowSteps()
    ensures Pow(32, 8) == 0x100_0000_0000 == Pow(256, 5)
  {
    assert Pow(32, 2) == 0x400 && Pow(32, 3) == 0x8000 && Pow(32, 4) == 0x10_0000;
    assert Pow(32, 5) == 0x200_0000 && Pow(32, 6) == 0x4000_0000 && Pow(32, 7) == 0x8_0000_0000;
    assert Pow(256, 2) == 0x1_0000 && Pow(256, 3) == 0x100_0000 && Pow(256, 4) == 0x1_0000_0000;
  }

  // ------------------------------------------------------------ the string

  function Character(d: nat): char
    requires d < 32
  {
    ENC[d]
  }

  lemma {:induction false} AlphabetAscends(d: nat, e: nat)
    requires d < e < 32
    ensures ENC[d] < ENC[e]
  {
    AlphabetStep(e - 1);
    if d < e - 1 {
      AlphabetAscends(d, e - 1);
    }
  }

  lemma AlphabetStep(d: nat)
    requires d < 31
    ensures ENC[d] < ENC[d+1]
  {
  }

  predicate StringLess(s: string, t: string) {
    exists i :: 0 <= i < |s| && i < |t| && s[..i] == t[..i] && s[i] < t[i]
  }

  /** The string a sequence of base-32 digits is written as. */
  function Spelled(ds: seq<nat>): string
    requires Digits(32, ds)
  {
    seq(|ds|, i requires 0 <= i < |ds| => Character(ds[i]))
  }

  lemma CharacterOrder(d: nat, e: nat)
    requires d < 32 && e < 32
    ensures Character(d) < Character(e) <==> d < e
    ensures Character(d) == Character(e) <==> d == e
  {
    if d < e {
      AlphabetAscends(d, e);
    } else if e < d {
      AlphabetAscends(e, d);
    }
  }

  lemma SpelledPrefix(x: seq<nat>, y: seq<nat>, k: nat)
    requires k <= |x| == |y| && Digits(32, x) && Digits(32, y)
    ensures Spelled(x)[..k] == Spelled(y)[..k] <==> x[..k] == y[..k]
  {
    var s, t := Spelled(x), Spelled(y);
    forall i | 0 <= i < k
      ensures s[i] == t[i] <==> x[i] == y[i]
    {
      CharacterOrder(x[i], y[i]);
    }
    hide Character;
    if s[..k] == t[..k] {
      assert forall i :: 0 <= i < k ==> s[..k][i] == s[i] && t[..k][i] == t[i];
    }
    if x[..k] == y[..k] {
      assert forall i :: 0 <= i < k ==> x[..k][i] == x[i] && y[..k][i] == y[i];
    }
  }

  lemma SpelledOrder(x: seq<nat>, y: seq<nat>)
    requires |x| == |y| && Digits(32, x) && Digits(32, y)
    ensures StringLess(Spelled(x), Spelled(y)) <==> LexLess(x, y)
    ensures Spelled(x) == Spelled(y) <==> x == y
  {
    var s, t := Spelled(x), Spelled(y);
    SpelledPrefix(x, y, |x|);
    assert s[..|x|] == s && t[..|x|] == t && x[..|x|] == x && y[..|x|] == y;
    forall i | 0 <= i < |x|
      ensures s[..i] == t[..i] && s[i] < t[i] <==> x[..i] == y[..i] && x[i] < y[i]
    {
      SpelledPrefix(x, y, i);
      CharacterOrder(x[i], y[i]);
    }
  }

  lemma SameByte(x: Byte, y: Byte)
    requires x as int == y as int
    ensures x == y
  {
  }

  ghost function Encoded(b: seq<Byte>): string
    requires |b| == 16
  {
    EncodesTheNumber(b);
    Spelled(Digits26(b))
  }

  /** Theorem: encode is injective, and string order is numeric order. */
  lemma EncodeOrder(b: seq<Byte>, c: seq<Byte>)
    requires |b| == |c| == 16
    ensures StringLess(Encoded(b), Encoded(c)) <==> Number(256, Ints(b)) < Number(256, Ints(c))
    ensures Encoded(b) == Encoded(c) <==> b == c
  {
    EncodesTheNumber(b);
    EncodesTheNumber(c);
    hide Digits26;
    SpelledOrder(Digits26(b), Digits26(c));
    OrderIsNumeric(32, Digits26(b), Digits26(c));
    assert Digits(256, Ints(b)) && Digits(256, Ints(c));
    OrderIsNumeric(256, Ints(b), Ints(c));
    hide Number, Spelled;
    if Ints(b) == Ints(c) {
      forall i | 0 <= i < 16
        ensures b[i] == c[i]
      {
        assert Ints(b)[i] == Ints(c)[i];
        SameByte(b[i], c[i]);
      }
    }
  }

  // ------------------------------------------------------------ New

  lemma Doubled(x: Byte)
    requires x as int < 128
    ensures (x << 1) as int == x as int * 2 && ((x << 1) | 1) as int == x as int * 2 + 1
  {
    assert x < 128;
  }

  /** The byte with a given value. */
  function ToByte(n: nat): (x: Byte)
    requires n < 256
    ensures x as int == n
  {
    if n == 0 then 0
    else
      var h := ToByte(n / 2);
      Doubled(h);
      if n % 2 == 0 then h << 1 else (h << 1) | 1
  }

  /** byte(ms >> k) of a 64-bit time, by the power of two 2^k; a time before 1970 is its two's
      complement, and shifting right divides. */
  function TimeByte(ms: int, power: int): Byte
    requires power > 0
  {
    ToByte(TimeDigit(ms, power))
  }

  function TimeBytes(ms: int): seq<Byte> {
    [TimeByte(ms, 0x100_0000_0000), TimeByte(ms, 0x1_0000_0000), TimeByte(ms, 0x100_0000),
     TimeByte(ms, 0x1_0000), TimeByte(ms, 0x100), TimeByte(ms, 1)]
  }

  const WRAP := 0x1_0000_0000_0000

  /** The same byte as a number. */
  function TimeDigit(ms: int, power: int): nat
    requires power > 0
  {
    (ms / power) % 256
  }

  lemma TimeBytesValue(ms: int)
    ensures Number(256, Ints(TimeBytes(ms))) == ms % WRAP
  {
    var a, b, c := TimeDigit(ms, 0x100_0000_0000), TimeDigit(ms, 0x1_0000_0000), TimeDigit(ms, 0x100_0000);
    var d, e, f := TimeDigit(ms, 0x1_0000), TimeDigit(ms, 0x100), TimeDigit(ms, 1);
    TimeByteValues(ms);
    CutTime(ms);
    hide Number, TimeDigit, TimeByte, TimeBytes;
    assert Ints(TimeBytes(ms)) == [a, b, c, d, e] + [f];
    NumberSnoc(256, [a, b, c, d, e], f);
    NumberOfFive(a, b, c, d, e);
  }

  lemma TimeByteValues(ms: int)
    ensures Ints(TimeBytes(ms)) ==
      [TimeDigit(ms, 0x100_0000_0000), TimeDigit(ms, 0x1_0000_0000), TimeDigit(ms, 0x100_0000),
       TimeDigit(ms, 0x1_0000), TimeDigit(ms, 0x100), TimeDigit(ms, 1)]
  {
    hide ToByte, TimeDigit;
  }

  lemma CutTime(ms: int)
    ensures ms % WRAP ==
      256 * (256 * (256 * (256 * (256 * TimeDigit(ms, 0x100_0000_0000) + TimeDigit(ms, 0x1_0000_0000))
          + TimeDigit(ms, 0x100_0000)) +
        TimeDigit(ms, 0x1_0000)) + TimeDigit(ms, 0x100)) + TimeDigit(ms, 1)
  {
    var m1 := ms / 0x100;
    var m2 := m1 / 0x100;
    var m3 := m2 / 0x100;
    var m4 := m3 / 0x100;
    var m5 := m4 / 0x100;
    assert m2 == ms / 0x1_0000 && m3 == ms / 0x100_0000 && m4 == ms / 0x1_0000_0000 && m5 == ms / 0x100_0000_0000;
    assert ms == 256 * m1 + ms % 256 && m1 == 256 * m2 + m1 % 256 && m2 == 256 * m3 + m2 % 256;
    assert m3 == 256 * m4 + m3 % 256 && m4 == 256 * m5 + m4 % 256 && m5 == 256 * (m5 / 256) + m5 % 256;
  }

  /** Theorem: an id minted at one millisecond sorts before one minted at another, whatever the
      random bytes of both, if and only if the first time is smaller modulo 2^48; in particular
      for all times from 1970 on and below 2^48, earlier ids sort first. */
  lemma IdsSortByTime(ms1: int, ms2: int)
    ensures (forall r1: seq<Byte>, r2: seq<Byte> :: |r1| == |r2| == 10 ==>
               StringLess(Encoded(TimeBytes(ms1) + r1), Encoded(TimeBytes(ms2) + r2))) <==>
            ms1 % WRAP < ms2 % WRAP
  {
    if ms1 % WRAP < ms2 % WRAP {
      forall r1: seq<Byte>, r2: seq<Byte> | |r1| == |r2| == 10
        ensures StringLess(Encoded(TimeBytes(ms1) + r1), Encoded(TimeBytes(ms2) + r2))
      {
        IdNumber(ms1, r1);
        IdNumber(ms2, r2);
        Leading(ms1 % WRAP, Number(256, Ints(r1)), ms2 % WRAP, Number(256, Ints(r2)), Pow(256, 10));
        EncodeOrder(TimeBytes(ms1) + r1, TimeBytes(ms2) + r2);
      }
    } else {
      var r: seq<Byte> := [0, 0, 0, 0, 0, 0, 0, 0, 0, 0];
      IdNumber(ms1, r);
      IdNumber(ms2, r);
      Leading'(ms2 % WRAP, ms1 % WRAP, Number(256, Ints(r)), Pow(256, 10));
      EncodeOrder(TimeBytes(ms1) + r, TimeBytes(ms2) + r);
    }
  }

  lemma IdNumber(ms: int, r: seq<Byte>)
    requires |r| == 10
    ensures Number(256, Ints(TimeBytes(ms) + r)) == (ms % WRAP) * Pow(256, 10) + Number(256, Ints(r))
    ensures Number(256, Ints(r)) < Pow(256, 10)
  {
    assert Ints(TimeBytes(ms) + r) == Ints(TimeBytes(ms)) + Ints(r);
    NumberConcat(256, Ints(TimeBytes(ms)), Ints(r));
    TimeBytesValue(ms);
    NumberBound(256, Ints(r));
  }

  lemma Leading(a: nat, x: nat, b: nat, y: nat, p: nat)
    requires a < b && x < p
    ensures a * p + x < b * p + y
  {
    MulMonotone(p, a + 1, b);
    assert (a + 1) * p == a * p + p;
  }

  lemma Leading'(a: nat, b: nat, x: nat, p: nat)
    requires a <= b
    ensures a * p + x <= b * p + x
  {
    MulMonotone(p, a, b);
  }

  /** Eight slots from five bytes; encode has three such blocks. */
  method EncodeGroup(v: Byte, w: Byte, x: Byte, y: Byte, z: Byte, s: array<char>, at: nat)
    requires at + 8 <= s.Length && Digits(32, Group(v, w, x, y, z))
    modifies s
    ensures s[..at+8] == old(s[..at]) + Spelled(Group(v, w, x, y, z))
  {
    hide Top3, Low5, High5, Join3And2, Bits2To6, Join1And4, Join4And1, Bits3To7, Join2And3, Character;
    ghost var ds := Group(v, w, x, y, z);
    ghost var before := s[..];
    assert ds[0] < 32 && ds[1] < 32 && ds[2] < 32 && ds[3] < 32 && ds[4] < 32 && ds[5] < 32 && ds[6] < 32 && ds[7] < 32;
    s[at], s[at+1], s[at+2], s[at+3] :=
      Character(High5(v)), Character(Join3And2(v, w)), Character(Bits2To6(w)), Character(Join1And4(w, x));
    s[at+4], s[at+5], s[at+6], s[at+7] :=
      Character(Join4And1(x, y)), Character(Bits3To7(y)), Character(Join2And3(y, z)), Character(Low5(z));
    assert forall i :: 0 <= i < at ==> s[i] == before[i];
    assert s[..at] == before[..at] && s[at..at+8] == Spelled(ds);
    assert s[..at+8] == s[..at] + s[at..at+8];
  }

  lemma SpelledConcat(x: seq<nat>, y: seq<nat>)
    requires Digits(32, x) && Digits(32, y)
    ensures Digits(32, x + y) && Spelled(x + y) == Spelled(x) + Spelled(y)
  {
  }

  lemma EncodedInBlocks(b: seq<Byte>)
    requires |b| == 16
    ensures var top := [Top3(b[0]), Low5(b[0])];
      var g1, g2, g3 := Group(b[1], b[2], b[3], b[4], b[5]), Group(b[6], b[7], b[8], b[9], b[10]),
        Group(b[11], b[12], b[13], b[14], b[15]);
      && Digits(32, top) && Digits(32, g1) && Digits(32, g2) && Digits(32, g3)
      && Encoded(b) == Spelled(top) + Spelled(g1) + Spelled(g2) + Spelled(g3)
  {
    EncodesTheNumber(b);
    TopValue(b[0]);
    GroupValue(b[1], b[2], b[3], b[4], b[5]);
    GroupValue(b[6], b[7], b[8], b[9], b[10]);
    GroupValue(b[11], b[12], b[13], b[14], b[15]);
    var top := [Top3(b[0]), Low5(b[0])];
    var g1, g2, g3 := Group(b[1], b[2], b[3], b[4], b[5]), Group(b[6], b[7], b[8], b[9], b[10]),
      Group(b[11], b[12], b[13], b[14], b[15]);
    assert Digits(32, top);
    hide Top3, Low5, Group, Number, Spelled, Digits;
    SpelledConcat(top, g1);
    SpelledConcat(top + g1, g2);
    SpelledConcat(top + g1 + g2, g3);
  }

  method Encode(b: array<Byte>) returns (r: string)
    requires b.Length == 16
    ensures r == Encoded(b[..])
  {
    EncodedInBlocks(b[..]);
    ghost var top := [Top3(b[0]), Low5(b[0])];
    assert top[0] < 32 && top[1] < 32;
    assert Spelled(top) == [Character(top[0]), Character(top[1])];
    hide Top3, Low5, Group, Character, Spelled, Encoded;
    var s := new char[26];
    s[0] := Character(Top3(b[0]));
    s[1] := Character(Low5(b[0]));
    assert s[..2] == Spelled(top);
    EncodeGroup(b[1], b[2], b[3], b[4], b[5], s, 2);
    EncodeGroup(b[6], b[7], b[8], b[9], b[10], s, 10);
    EncodeGroup(b[11], b[12], b[13], b[14], b[15], s, 18);
    assert s[..] == s[..26];
    r := s[..];
  }

  /** New: six bytes of time, ten of randomness. */
  method New(ms: int, random: seq<Byte>) returns (id: string)
    requires |random| == 10
    ensures id == Encoded(TimeBytes(ms) + random)
  {
    var b := new Byte[16](i requires 0 <= i < 16 => if i < 6 then TimeBytes(ms)[i] else random[i-6]);
    assert b[..] == TimeBytes(ms) + random;
    id := Encode(b);
  }
}
