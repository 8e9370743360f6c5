/** services/mtaout, the per-domain warm-up ramp: `Warmup` counts sends under keys built from
    the domain and the day since its first send. */
module Warmup {

  const DAY_NS := 24 * 3600 * 1_000_000_000

  // ------------------------------------------------------------ keys

  function Digits(n: nat): string {
    if n < 10 then [Digit(n)] else Digits(n / 10) + [Digit(n % 10)]
  }

  function Digit(d: nat): char
    requires d < 10
  {
    ('0' as int + d) as char
  }

  /** A decimal integer, as %d prints it. */
  function Decimal(n: int): string {
    if n < 0 then "-" + Digits(-n) else Digits(n)
  }

  function Wkey(domain: string, day: int): string {
    domain + "|" + Decimal(day)
  }

  lemma {:induction false} DigitsAreDigits(n: nat)
    ensures Digits(n) != [] && forall c :: c in Digits(n) ==> '0' <= c <= '9'
  {
    if n >= 10 {
      DigitsAreDigits(n / 10);
    }
  }

  lemma {:induction false} DigitsInjective(m: nat, n: nat)
    requires Digits(m) == Digits(n)
    ensures m == n
  {
    DigitsAreDigits(m / 10);
    DigitsAreDigits(n / 10);
    var x, y := Digits(m), Digits(n);
    assert x[|x|-1] == Digit(m % 10) && y[|y|-1] == Digit(n % 10);
    assert m % 10 == n % 10;
    if m >= 10 && n >= 10 {
      assert x[..|x|-1] == Digits(m / 10) && y[..|y|-1] == Digits(n / 10);
      DigitsInjective(m / 10, n / 10);
    }
  }

  lemma DecimalSign(n: int)
    ensures Decimal(n) != [] && (n < 0 <==> Decimal(n)[0] == '-')
  {
    DigitsAreDigits(if n < 0 then -n else n);
    assert Digits(if n < 0 then -n else n)[0] in Digits(if n < 0 then -n else n);
  }

  lemma DecimalInjective(m: int, n: int)
    requires Decimal(m) == Decimal(n)
    ensures m == n
  {
    DecimalSign(m);
    DecimalSign(n);
    if m < 0 {
      assert Decimal(m)[1..] == Digits(-m) && Decimal(n)[1..] == Digits(-n);
      DigitsInjective(-m, -n);
    } else {
      DigitsInjective(m, n);
    }
  }

  lemma DecimalHasNoBar(n: int)
    ensures '|' !in Decimal(n)
  {
    DigitsAreDigits(if n < 0 then -n else n);
  }

  /** Where two splits of one string at a bar differ, the longer right part contains a bar. */
  lemma BarInside(a: string, s: string, b: string, t: string)
    requires a + ("|" + s) == b + ("|" + t)
    ensures |a| < |b| ==> '|' in s
  {
    if |a| < |b| {
      assert s[|b| - |a| - 1] == (a + ("|" + s))[|b|];
    }
  }

  /** Theorem: the key determines both the domain and the day, even for a domain that contains
      the separator. */
  lemma WkeyInjective(d1: string, day1: int, d2: string, day2: int)
    requires Wkey(d1, day1) == Wkey(d2, day2)
    ensures d1 == d2 && day1 == day2
  {
    var k, s1, s2 := Wkey(d1, day1), Decimal(day1), Decimal(day2);
    DecimalHasNoBar(day1);
    DecimalHasNoBar(day2);
    assert k == d1 + ("|" + s1) == d2 + ("|" + s2);
    BarInside(d1, s1, d2, s2);
    BarInside(d2, s2, d1, s1);
    assert d1 == k[..|d1|] && d2 == k[..|d2|];
    assert s1 == k[|d1|+1..] && s2 == k[|d2|+1..];
    DecimalInjective(day1, day2);
  }

  // ------------------------------------------------------------ the ramp

  datatype Ramp = Ramp(firstSeen: map<string, int>, used: map<string, int>)

  /** Division of durations truncates toward zero, so a clock that moved backward gives day 0
      for less than a day and a negative day beyond that. */
  function TruncDiv(a: int, b: int): int
    requires b > 0
  {
    if a >= 0 then a / b else -((-a) / b)
  }

  function DayIndex(firstSeen: map<string, int>, domain: string, now: int): int {
    if domain in firstSeen then TruncDiv(now - firstSeen[domain], DAY_NS) else 0
  }

  function CapFor(schedule: seq<int>, day: int): int {
    if schedule == [] then 0x4000_0000
    else
      var d := if day >= |schedule| then |schedule| - 1 else day;
      schedule[if d < 0 then 0 else d]
  }

  function Used(w: Ramp, domain: string, day: int): int {
    if Wkey(domain, day) in w.used then w.used[Wkey(domain, day)] else 0
  }

  function Allows(schedule: seq<int>, w: Ramp, domain: string, now: int): bool {
    if domain !in w.firstSeen then CapFor(schedule, 0) > 0
    else Used(w, domain, DayIndex(w.firstSeen, domain, now)) < CapFor(schedule, DayIndex(w.firstSeen, domain, now))
  }

  function Recorded(w: Ramp, domain: string, now: int): Ramp {
    var seen := if domain in w.firstSeen then w.firstSeen else w.firstSeen[domain := now];
    var day := DayIndex(seen, domain, now);
    Ramp(seen, w.used[Wkey(domain, day) := Used(w, domain, day) + 1])
  }

  /** No count is above the cap of its day, and a domain never sent from has no counts. */
  ghost predicate WithinCaps(schedule: seq<int>, w: Ramp) {
    forall domain, day :: Used(w, domain, day) != 0 ==>
      domain in w.firstSeen && 0 < Used(w, domain, day) <= CapFor(schedule, day)
  }

  lemma DayAfterRecord(w: Ramp, domain: string, now: int)
    ensures DayIndex(Recorded(w, domain, now).firstSeen, domain, now) == DayIndex(w.firstSeen, domain, now)
    ensures domain !in w.firstSeen ==> DayIndex(w.firstSeen, domain, now) == 0
  {
  }

  /** A send that Allow let through leaves every (domain, day) count within its cap, whatever the
      clock does between sends. */
  lemma RecordKeepsCaps(schedule: seq<int>, w: Ramp, domain: string, now: int)
    requires WithinCaps(schedule, w) && Allows(schedule, w, domain, now)
    ensures WithinCaps(schedule, Recorded(w, domain, now))
  {
    var v := Recorded(w, domain, now);
    var today := DayIndex(v.firstSeen, domain, now);
    DayAfterRecord(w, domain, now);
    hide DayIndex, CapFor, Wkey;
    forall d, day | Used(v, d, day) != 0
      ensures d in v.firstSeen && 0 < Used(v, d, day) <= CapFor(schedule, day)
    {
      if Wkey(d, day) == Wkey(domain, today) {
        WkeyInjective(d, day, domain, today);
        assert Used(v, domain, today) == Used(w, domain, today) + 1;
      } else {
        assert Used(v, d, day) == Used(w, d, day);
      }
    }
  }

  class WarmupObject {
    const schedule: seq<int>
    var firstSeen: map<string, int>
    var used: map<string, int>

    ghost function St(): Ramp
      reads this
    {
      Ramp(firstSeen, used)
    }

    constructor (schedule: seq<int>)
      ensures this.schedule == schedule && St() == Ramp(map[], map[])
      ensures WithinCaps(schedule, St())
    {
      this.schedule, firstSeen, used := schedule, map[], map[];
    }

    method Allow(domain: string, now: int) returns (ok: bool)
      ensures ok == Allows(schedule, St(), domain, now)
    {
      if domain !in firstSeen {
        return CapFor(schedule, 0) > 0;
      }
      var d := DayIndex(firstSeen, domain, now);
      ok := Used(Ramp(firstSeen, used), domain, d) < CapFor(schedule, d);
    }

    /** Recording a send that Allow lets through keeps every count within its cap. */
    method Record(domain: string, now: int)
      modifies this
      ensures St() == Recorded(old(St()), domain, now)
      ensures old(WithinCaps(schedule, St()) && Allows(schedule, St(), domain, now)) ==> WithinCaps(schedule, St())
    {
      if WithinCaps(schedule, St()) && Allows(schedule, St(), domain, now) {
        RecordKeepsCaps(schedule, St(), domain, now);
      }
      if domain !in firstSeen {
        firstSeen := firstSeen[domain := now];
      }
      var d := DayIndex(firstSeen, domain, now);
      var key := Wkey(domain, d);
      used := used[key := (if key in used then used[key] else 0) + 1];
    }
  }
}
