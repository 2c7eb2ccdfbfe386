/** Days, years and dates of the proleptic Gregorian calendar, and the SDK's time stamp. */
module Calendar {
  import opened Protocol

  const DAY: Time := 86_400_000_000_000
  const SECOND: Time := 1_000_000_000

  /** The leap rule of RFC 3339, Appendix C. */
  predicate Leap(y: int) {
    (y % 4 == 0 && y % 100 != 0) || y % 400 == 0
  }

  function YearDays(y: int): nat {
    if Leap(y) then 366 else 365
  }

  /** Days from 1970-01-01 to the first of January of year `y`, in closed form. */
  function YearStart(y: int): int {
    365 * (y - 1970) + (y - 1) / 4 - (y - 1) / 100 + (y - 1) / 400 - 477
  }

  lemma QuotientStep(y: int, n: int)
    requires n > 1
    ensures y / n - (y - 1) / n == if y % n == 0 then 1 else 0
  {
    var q, r := y / n, y % n;
    assert y == q * n + r;
    if r == 0 {
      assert y - 1 == (q - 1) * n + (n - 1);
      DivIs(y - 1, n, q - 1, n - 1);
    } else {
      assert y - 1 == q * n + (r - 1);
      DivIs(y - 1, n, q, r - 1);
    }
  }

  lemma DivIs(x: int, n: int, q: int, r: int)
    requires n > 0 && x == q * n + r && 0 <= r < n
    ensures x / n == q
  {
    var d := x / n - q;
    assert x == (x / n) * n + x % n;
    assert d * n == r - x % n;
    assert d >= 1 ==> d * n >= n;
    assert d <= -1 ==> d * n <= -n;
  }

  /** The closed form advances by the length of each year. */
  lemma YearStep(y: int)
    ensures YearStart(y + 1) == YearStart(y) + YearDays(y)
  {
    QuotientStep(y, 4);
    QuotientStep(y, 100);
    QuotientStep(y, 400);
    assert y % 400 == 0 ==> y % 100 == 0;
    assert y % 100 == 0 ==> y % 4 == 0;
  }

  lemma {:induction false} YearStartMonotone(a: int, b: int)
    requires a < b
    ensures YearStart(a) + 365 * (b - a) <= YearStart(b)
    decreases b - a
  {
    YearStep(b - 1);
    if a < b - 1 {
      YearStartMonotone(a, b - 1);
    }
  }

  predicate InYear(days: int, y: int) {
    YearStart(y) <= days < YearStart(y + 1)
  }

  lemma OneYear(days: int, a: int, b: int)
    requires InYear(days, a) && InYear(days, b)
    ensures a == b
  {
    if a < b {
      if a + 1 < b { YearStartMonotone(a + 1, b); }
    } else if b < a {
      if b + 1 < a { YearStartMonotone(b + 1, a); }
    }
  }

  function YearFrom(y: int, days: int): (r: int)
    requires YearStart(y) <= days
    ensures InYear(days, r)
    decreases days - YearStart(y)
  {
    YearStep(y);
    if days < YearStart(y + 1) then y else YearFrom(y + 1, days)
  }

  /** The first day of year 0, and the first day after year 9999. */
  const FIRST_DAY := YearStart(0)
  const LAST_DAY := YearStart(10_000)

  function Year(days: int): int
    requires days >= FIRST_DAY
  {
    YearFrom(0, days)
  }

  function DayOf(t: Time): int {
    t / DAY
  }

  // ---------------------------------------------------------------------- the year loop

  const U64: nat := 0x1_0000_0000_0000_0000

  /** The loop of `chrono_now`: it ends, stays within 64 bits, and finds the one year that
      holds the day. */
  method YearLoop(secs: nat) returns (y: nat)
    requires secs < U64
    ensures InYear(secs / 86_400, y) && forall z | InYear(secs / 86_400, z) :: z == y
    ensures y == Year(secs / 86_400) && 1970 <= y < U64
  {
    var days := secs / 86_400;
    y := 1970;
    var d := days;
    while true
      invariant 1970 <= y && d == days - YearStart(y) && d >= 0
      decreases d
    {
      YearStep(y);
      var leap := (y % 4 == 0 && y % 100 != 0) || y % 400 == 0;
      var yearDays := if leap then 366 else 365;
      if d < yearDays { break; }
      d := d - yearDays;
      y := y + 1;
    }
    if y > 1970 { YearStartMonotone(1970, y); }
    forall z | InYear(days, z) ensures z == y {
      OneYear(days, y, z);
    }
  }

  /** Seconds since 1970; a clock set before then reads as 0. */
  function ClockSeconds(t: Time): nat {
    if t < 0 then 0 else t / SECOND
  }

  function StampYear(t: Time): int {
    Year(ClockSeconds(t) / 86_400)
  }

  /** The instant the SDK stamps a report with: midnight on the first of January. */
  function SdkStamp(t: Time): Time {
    YearStart(StampYear(t)) * DAY
  }

  /** `chrono_now` on the clock `t`. */
  method ChronoNow(t: Time) returns (stamp: Time)
    requires ClockSeconds(t) < U64
    ensures stamp == SdkStamp(t)
  {
    var secs := if t < 0 then 0 else t / SECOND;
    var y := YearLoop(secs);
    stamp := YearStart(y) * DAY;
  }

  /** Seconds and nanoseconds count the same days. */
  lemma ClockDay(t: Time)
    requires t >= 0
    ensures ClockSeconds(t) / 86_400 == DayOf(t)
  {
    var q, r := t / DAY, t % DAY;
    DivIs(t, SECOND, q * 86_400 + r / SECOND, r % SECOND);
    DivIs(t / SECOND, 86_400, q, r / SECOND);
  }

  /** The day of the stamp is the first of its year, which is 1970 for a clock before that. */
  lemma StampDay(t: Time)
    ensures DayOf(SdkStamp(t)) == YearStart(StampYear(t)) && StampYear(t) >= 1970
    ensures t < 0 ==> SdkStamp(t) == 0
    ensures t >= 0 ==> InYear(DayOf(t), StampYear(t))
  {
    var y := StampYear(t);
    if t >= 0 {
      ClockDay(t);
    } else {
      OneYear(0, y, 1970);
    }
    if y < 1970 {
      if y + 1 < 1970 { YearStartMonotone(y + 1, 1970); }
      assert false;
    }
  }

  /** The stamp is monotone, always less than 366 days behind, and not in the future exactly
      if the clock does not read before 1970. */
  lemma StampLags(t: Time, u: Time)
    requires t <= u
    ensures SdkStamp(t) <= SdkStamp(u)
    ensures t < SdkStamp(t) + 366 * DAY
    ensures SdkStamp(t) <= t <==> t >= 0
  {
    StampDay(t);
    StampDay(u);
    var y, z := StampYear(t), StampYear(u);
    YearStep(y);
    if y < z { YearStartMonotone(y, z); }
    if z < y {
      StampYears(t, u);
      assert false;
    }
  }

  lemma StampYears(t: Time, u: Time)
    requires t <= u
    ensures StampYear(t) <= StampYear(u)
  {
    StampDay(t);
    StampDay(u);
    if t >= 0 {
      YearsInOrder(DayOf(t), DayOf(u), StampYear(t), StampYear(u));
    } else {
      assert YearStart(StampYear(t)) == 0;
      OneYear(0, StampYear(t), 1970);
    }
  }

  lemma YearsInOrder(a: int, b: int, y: int, z: int)
    requires a <= b && InYear(a, y) && InYear(b, z)
    ensures y <= z
  {
    if z + 1 < y { YearStartMonotone(z + 1, y); }
  }

  // ------------------------------------------------------------------------------ dates

  datatype Date = Date(year: int, month: int, day: int)

  /** Days of the year before month `m`; month 13 is the end of the year. */
  function MonthStart(leap: bool, m: int): int {
    var feb := if leap then 29 else 28;
    if m <= 1 then 0
    else if m == 2 then 31
    else if m == 3 then 31 + feb
    else if m == 4 then 62 + feb
    else if m == 5 then 92 + feb
    else if m == 6 then 123 + feb
    else if m == 7 then 153 + feb
    else if m == 8 then 184 + feb
    else if m == 9 then 215 + feb
    else if m == 10 then 245 + feb
    else if m == 11 then 276 + feb
    else if m == 12 then 306 + feb
    else 337 + feb
  }

  function MonthFrom(leap: bool, m: int, day: int): (r: int)
    requires 1 <= m <= 12 && MonthStart(leap, m) <= day < MonthStart(leap, 13)
    ensures m <= r <= 12 && MonthStart(leap, r) <= day < MonthStart(leap, r + 1)
    decreases 12 - m
  {
    if day < MonthStart(leap, m + 1) then m else MonthFrom(leap, m + 1, day)
  }

  function DateOf(days: int): (d: Date)
    requires days >= FIRST_DAY
    ensures 1 <= d.month <= 12 && 1 <= d.day <= 31
    ensures InYear(days, d.year)
    ensures var leap := Leap(d.year);
            && YearStart(d.year) + MonthStart(leap, d.month) + d.day - 1 == days
            && days < YearStart(d.year) + MonthStart(leap, d.month + 1)
  {
    var y := Year(days);
    YearStep(y);
    var inYear := days - YearStart(y);
    var m := MonthFrom(Leap(y), 1, inYear);
    Date(y, m, inYear - MonthStart(Leap(y), m) + 1)
  }

  predicate Earlier(a: Date, b: Date) {
    a.year < b.year || (a.year == b.year && (a.month < b.month || (a.month == b.month && a.day < b.day)))
  }

  lemma MonthStartMonotone(leap: bool, a: int, b: int)
    requires 1 <= a <= b <= 13
    ensures MonthStart(leap, a) <= MonthStart(leap, b)
  {
  }

  lemma EarlierDate(a: int, b: int)
    requires FIRST_DAY <= a < b
    ensures Earlier(DateOf(a), DateOf(b))
  {
    var x, y := DateOf(a), DateOf(b);
    YearsInOrder(a, b, x.year, y.year);
    if x.year == y.year && x.month > y.month {
      MonthStartMonotone(Leap(x.year), y.month + 1, x.month);
    }
  }

  /** Dates are in the order of their days. */
  lemma DateOrder(a: int, b: int)
    requires FIRST_DAY <= a && FIRST_DAY <= b
    ensures Earlier(DateOf(a), DateOf(b)) <==> a < b
  {
    if a < b {
      EarlierDate(a, b);
    } else if b < a {
      EarlierDate(b, a);
    }
  }
}
