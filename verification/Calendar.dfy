/** Date arithmetic of section 21.4.1 of ECMA-262, on milliseconds since the epoch in UTC. */
module Calendar {

  const MS_PER_DAY := 86_400_000
  const MS_PER_HOUR := 3_600_000

  /** A time value, split into its day and its time within the day. */
  datatype Instant = Instant(day: int, time: int)

  predicate ValidInstant(t: Instant) {
    0 <= t.time < MS_PER_DAY
  }

  predicate Before(t: Instant, u: Instant) {
    t.day < u.day || (t.day == u.day && t.time < u.time)
  }

  /** Sunday is 0. */
  function WeekDay(day: int): int {
    (day + 4) % 7
  }

  predicate Leap(y: int) {
    y % 4 == 0 && (y % 100 != 0 || y % 400 == 0)
  }

  function DaysInYear(y: int): int {
    if Leap(y) then 366 else 365
  }

  /** Day number of 1 January. */
  function DayFromYear(y: int): int {
    365 * (y - 1970) + (y - 1969) / 4 - (y - 1901) / 100 + (y - 1601) / 400
  }

  /** Months are numbered from 0. */
  function DaysInMonth(y: int, m: int): int
    requires 0 <= m < 12
  {
    if m == 1 then (if Leap(y) then 29 else 28)
    else if m == 3 || m == 5 || m == 8 || m == 10 then 30
    else 31
  }

  /** Days of a year before a month. */
  function DaysBefore(y: int, m: int): int
    requires 0 <= m <= 12
    decreases m
  {
    if m == 0 then 0 else DaysBefore(y, m - 1) + DaysInMonth(y, m - 1)
  }

  function FirstOfMonth(y: int, m: int): int
    requires 0 <= m < 12
  {
    DayFromYear(y) + DaysBefore(y, m)
  }

  /** `MakeDay`: any integer month and day roll over. */
  function MakeDay(y: int, m: int, d: int): int {
    FirstOfMonth(y + m / 12, m % 12) + d - 1
  }

  datatype Civil = Civil(year: int, month: int, day: int)

  predicate ValidCivil(c: Civil) {
    0 <= c.month < 12 && 1 <= c.day <= DaysInMonth(c.year, c.month)
  }

  function ToDay(c: Civil): int
    requires ValidCivil(c)
  {
    FirstOfMonth(c.year, c.month) + c.day - 1
  }

  function YearFromDay(d: int): int {
    var guess := 1970 + 400 * d / 146097;
    if DayFromYear(guess) > d then guess - 1
    else if DayFromYear(guess + 1) <= d then guess + 1
    else guess
  }

  function MonthFromOffset(y: int, offset: int, m: nat): nat
    requires m < 12
    decreases 12 - m
  {
    if m == 11 || offset < DaysBefore(y, m + 1) then m else MonthFromOffset(y, offset, m + 1)
  }

  function FromDay(d: int): Civil {
    var y := YearFromDay(d);
    var offset := d - DayFromYear(y);
    var m := MonthFromOffset(y, offset, 0);
    Civil(y, m, offset - DaysBefore(y, m) + 1)
  }

  // ----- years -----

  lemma YearLength(y: int)
    ensures DayFromYear(y + 1) == DayFromYear(y) + DaysInYear(y)
  {
    StepQuotient(y - 1969, 4);
    StepQuotient(y - 1901, 100);
    StepQuotient(y - 1601, 400);
    LeapRemainders(y);
  }

  lemma LeapRemainders(y: int)
    ensures (y - 1968) % 4 == 0 <==> y % 4 == 0
    ensures (y - 1900) % 100 == 0 <==> y % 100 == 0
    ensures (y - 1600) % 400 == 0 <==> y % 400 == 0
    ensures y % 400 == 0 ==> y % 100 == 0
    ensures y % 100 == 0 ==> y % 4 == 0
  {
    ShiftRemainder(y, 4, 492);
    ShiftRemainder(y, 100, 19);
    ShiftRemainder(y, 400, 4);
    if y % 400 == 0 {
      QuotientUnique(y, 100, y / 400 * 4, 0);
    }
    if y % 100 == 0 {
      QuotientUnique(y, 4, y / 100 * 25, 0);
    }
  }

  lemma ShiftRemainder(n: int, k: int, c: int)
    requires k > 0
    ensures (n - c * k) % k == n % k
  {
    QuotientUnique(n - c * k, k, n / k - c, n % k);
  }

  lemma StepQuotient(n: int, k: int)
    requires k > 1
    ensures (n + 1) / k == n / k + if (n + 1) % k == 0 then 1 else 0
  {
    var q, r := n / k, n % k;
    assert n == q * k + r;
    if r + 1 == k {
      assert n + 1 == (q + 1) * k + 0;
      QuotientUnique(n + 1, k, q + 1, 0);
    } else {
      QuotientUnique(n + 1, k, q, r + 1);
    }
  }

  lemma AtLeastOneMultiple(a: int, k: int)
    requires a >= 1 && k > 0
    ensures a * k >= k
  {
  }

  lemma QuotientUnique(n: int, k: int, q: int, r: int)
    requires k > 0 && 0 <= r < k && n == q * k + r
    ensures n / k == q && n % k == r
  {
    var p, s := n / k, n % k;
    assert n == p * k + s && 0 <= s < k;
    assert (p - q) * k == r - s;
    if p > q {
      AtLeastOneMultiple(p - q, k);
    } else if q > p {
      AtLeastOneMultiple(q - p, k);
    }
  }

  /** 400 years are 146097 days, and no year strays far from that average. */
  lemma YearDrift(y: int)
    ensures -506 <= 400 * DayFromYear(y) - 146097 * (y - 1970) <= 589
  {
  }

  lemma YearBounds(d: int)
    ensures DayFromYear(YearFromDay(d)) <= d < DayFromYear(YearFromDay(d) + 1)
  {
    var guess := 1970 + 400 * d / 146097;
    YearDrift(guess - 1);
    YearDrift(guess);
    YearDrift(guess + 1);
    YearDrift(guess + 2);
  }

  lemma {:induction false} YearsIncrease(y: int, z: int)
    requires y < z
    ensures DayFromYear(y + 1) <= DayFromYear(z)
    decreases z - y
  {
    if y + 1 < z {
      YearLength(z - 1);
      YearsIncrease(y, z - 1);
    }
  }

  lemma YearUnique(d: int, y: int)
    requires DayFromYear(y) <= d < DayFromYear(y + 1)
    ensures YearFromDay(d) == y
  {
    YearBounds(d);
    var z := YearFromDay(d);
    if y < z {
      YearsIncrease(y, z);
    } else if z < y {
      YearsIncrease(z, y);
    }
  }

  // ----- months -----

  lemma MonthTable(y: int)
    ensures DaysBefore(y, 12) == DaysInYear(y)
    ensures DaysBefore(y, 1) == 31
    ensures DaysBefore(y, 2) == 31 + DaysInMonth(y, 1)
  {
    assert DaysBefore(y, 3) == DaysBefore(y, 2) + 31;
    assert DaysBefore(y, 4) == DaysBefore(y, 3) + 30;
    assert DaysBefore(y, 5) == DaysBefore(y, 4) + 31;
    assert DaysBefore(y, 6) == DaysBefore(y, 5) + 30;
    assert DaysBefore(y, 7) == DaysBefore(y, 6) + 31;
    assert DaysBefore(y, 8) == DaysBefore(y, 7) + 31;
    assert DaysBefore(y, 9) == DaysBefore(y, 8) + 30;
    assert DaysBefore(y, 10) == DaysBefore(y, 9) + 31;
    assert DaysBefore(y, 11) == DaysBefore(y, 10) + 30;
    assert DaysBefore(y, 12) == DaysBefore(y, 11) + 31;
  }

  lemma {:induction false} MonthsIncrease(y: int, m: nat, n: nat)
    requires m <= n <= 12
    ensures DaysBefore(y, m) <= DaysBefore(y, n)
    decreases n - m
  {
    if m < n {
      MonthsIncrease(y, m, n - 1);
    }
  }

  lemma {:induction false} MonthBounds(y: int, offset: int, m: nat)
    requires m < 12 && DaysBefore(y, m) <= offset < DaysBefore(y, 12)
    ensures var k := MonthFromOffset(y, offset, m);
            m <= k < 12 && DaysBefore(y, k) <= offset < DaysBefore(y, k + 1)
    decreases 12 - m
  {
    if m < 11 && offset >= DaysBefore(y, m + 1) {
      MonthBounds(y, offset, m + 1);
    }
  }

  // ----- the calendar is a bijection -----

  /** Every day number has a valid civil date that names it. */
  lemma FromDayIsRight(d: int)
    ensures ValidCivil(FromDay(d)) && ToDay(FromDay(d)) == d
  {
    var y := YearFromDay(d);
    YearBounds(d);
    YearLength(y);
    MonthTable(y);
    MonthBounds(y, d - DayFromYear(y), 0);
  }

  lemma NothingBefore(y: int)
    ensures DaysBefore(y, 0) == 0
  {
  }

  lemma MonthUnique(y: int, offset: int, m: nat)
    requires m < 12 && 0 <= offset && DaysBefore(y, m) <= offset < DaysBefore(y, m + 1)
    ensures MonthFromOffset(y, offset, 0) == m
  {
    hide DaysBefore, MonthFromOffset;
    NothingBefore(y);
    MonthsIncrease(y, m + 1, 12);
    MonthBounds(y, offset, 0);
    var k := MonthFromOffset(y, offset, 0);
    if k < m {
      MonthsIncrease(y, k + 1, m);
    } else if m < k {
      MonthsIncrease(y, m + 1, k);
    }
  }

  lemma OffsetInYear(y: int, m: nat, day: int)
    requires m < 12 && 1 <= day <= DaysInMonth(y, m)
    ensures 0 <= DaysBefore(y, m) + day - 1 < DaysInYear(y)
  {
    MonthTable(y);
    MonthsIncrease(y, 0, m);
    MonthsIncrease(y, m + 1, 12);
  }

  lemma MonthBegins(y: int, m: nat)
    requires m < 12
    ensures DaysBefore(y, m + 1) == DaysBefore(y, m) + DaysInMonth(y, m) && 0 <= DaysBefore(y, m)
  {
    MonthsIncrease(y, 0, m);
  }

  /** Every valid civil date is the one its day number has. */
  lemma ToDayIsRight(c: Civil)
    requires ValidCivil(c)
    ensures FromDay(ToDay(c)) == c
  {
    hide DayFromYear, DaysBefore, DaysInMonth, YearFromDay, MonthFromOffset;
    OffsetInYear(c.year, c.month, c.day);
    YearLength(c.year);
    YearUnique(ToDay(c), c.year);
    MonthBegins(c.year, c.month);
    MonthUnique(c.year, DaysBefore(c.year, c.month) + c.day - 1, c.month);
  }

  /** The month after (y, m), as `MakeDay` numbers it. */
  function NextYear(y: int, m: int): int {
    if m == 11 then y + 1 else y
  }

  function NextMonth(m: int): int {
    if m == 11 then 0 else m + 1
  }

  lemma NextFirst(y: int, m: int)
    requires 0 <= m < 12
    ensures FirstOfMonth(NextYear(y, m), NextMonth(m)) == FirstOfMonth(y, m) + DaysInMonth(y, m)
  {
    if m == 11 {
      YearLength(y);
      MonthTable(y);
      assert DaysBefore(y, 12) == DaysBefore(y, 11) + DaysInMonth(y, 11);
    }
  }

  lemma MakeDayHere(y: int, m: int, d: int)
    requires 0 <= m < 12
    ensures MakeDay(y, m, d) == FirstOfMonth(y, m) + d - 1
  {
    assert m / 12 == 0 && m % 12 == m;
  }

  lemma MakeDayNext(y: int, m: int, d: int)
    requires 0 <= m < 12
    ensures MakeDay(y, m + 1, d) == FirstOfMonth(NextYear(y, m), NextMonth(m)) + d - 1
  {
    assert (m + 1) / 12 == if m == 11 then 1 else 0;
    assert (m + 1) % 12 == NextMonth(m);
  }

  /** How long each month is, January being 0. */
  ghost function LengthOf(y: int, m: nat): int
    requires m < 12
  {
    [31, if y % 4 == 0 && (y % 100 != 0 || y % 400 == 0) then 29 else 28, 31, 30, 31, 30, 31, 31, 30, 31, 30, 31][m]
  }

  /** The day after a date. */
  ghost function Tomorrow(c: Civil): Civil
    requires ValidCivil(c)
  {
    if c.day < LengthOf(c.year, c.month) then Civil(c.year, c.month, c.day + 1)
    else if c.month < 11 then Civil(c.year, c.month + 1, 1)
    else Civil(c.year + 1, 0, 1)
  }

  /** Day 0 is Thursday 1 January 1970, and each day's date and weekday follow those of the day before: this fixes every
      date, before and after. */
  lemma DaysFollowOn(d: int)
    ensures FromDay(0) == Civil(1970, 0, 1) && WeekDay(0) == 4
    ensures ValidCivil(FromDay(d)) && FromDay(d + 1) == Tomorrow(FromDay(d))
    ensures 0 <= WeekDay(d) < 7 && WeekDay(d + 1) == if WeekDay(d) == 6 then 0 else WeekDay(d) + 1
  {
    hide *;
    EpochIsDayZero();
    WeekDaysFollowOn(d);
    FromDayIsRight(d);
    TomorrowIsNext(FromDay(d));
    ToDayIsRight(Tomorrow(FromDay(d)));
  }

  lemma WeekDaysFollowOn(d: int)
    ensures WeekDay(0) == 4 && 0 <= WeekDay(d) < 7 && WeekDay(d + 1) == if WeekDay(d) == 6 then 0 else WeekDay(d) + 1
  {
  }

  lemma EpochIsDayZero()
    ensures FromDay(0) == Civil(1970, 0, 1)
  {
    hide FromDay, ToDay;
    EpochDay();
    ToDayIsRight(Civil(1970, 0, 1));
  }

  lemma EpochDay()
    ensures ValidCivil(Civil(1970, 0, 1)) && ToDay(Civil(1970, 0, 1)) == 0
  {
    assert DayFromYear(1970) == 0;
  }

  lemma TomorrowIsNext(c: Civil)
    requires ValidCivil(c)
    ensures ValidCivil(Tomorrow(c)) && ToDay(Tomorrow(c)) == ToDay(c) + 1
  {
    hide DayFromYear, DaysBefore, FirstOfMonth;
    assert LengthOf(c.year, c.month) == DaysInMonth(c.year, c.month);
    NextFirst(c.year, c.month);
  }
}
