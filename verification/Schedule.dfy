/** `computeNextRunAt`: the next occurrence of a recurring transfer. */
module Schedule {
  import opened Calendar
  import opened Iso

  datatype Frequency = Weekly | Biweekly | Monthly

  const NINE := 9 * MS_PER_HOUR

  /** Days to the chosen weekday, a whole week when it is today. */
  function DaysAhead(day: int, dayOf: nat): int {
    var diff := (dayOf - WeekDay(day) + 7) % 7;
    if diff == 0 then 7 else diff
  }

  /** `Date.UTC` reads the years 0 to 99 as 1900 to 1999. */
  function UtcYear(y: int): int {
    if 0 <= y <= 99 then 1900 + y else y
  }

  /** The last day of a month, asked for as day 0 of the next. */
  function LastDay(y: int, m: int): int {
    FromDay(MakeDay(UtcYear(y), m + 1, 0)).day
  }

  function Min(a: int, b: int): int {
    if a < b then a else b
  }

  /** The month a monthly schedule lands in: the following one, or the one after it when the following one has
      no such day and the date rolls over. */
  function TargetMonth(c: Civil): (t: (int, int))
    requires ValidCivil(c)
    ensures 0 <= t.1 < 12
  {
    var y, m := NextYear(c.year, c.month), NextMonth(c.month);
    if c.day <= DaysInMonth(y, m) then (y, m) else (NextYear(y, m), NextMonth(m))
  }

  /** The day number of the next occurrence. */
  function NextRunDay(day: int, frequency: Frequency, dayOf: nat): int {
    match frequency
    case Weekly => day + DaysAhead(day, dayOf)
    case Biweekly => day + DaysAhead(day, dayOf) + 7
    case Monthly =>
      FromDayIsRight(day);
      var (y, m) := TargetMonth(FromDay(day));
      FirstOfMonth(y, m) + Min(dayOf, LastDay(y, m)) - 1
  }

  function NextRunAt(from: Instant, frequency: Frequency, dayOf: nat): (t: Instant)
    ensures ValidInstant(t) && AtNine(t)
  {
    Instant(NextRunDay(from.day, frequency, dayOf), NINE)
  }

  /** An instant at nine o'clock, as every stored occurrence is. */
  predicate AtNine(t: Instant) {
    t.time == NINE
  }

  // ----- the code computes it -----

  lemma CivilOfDay(day: int, c: Civil)
    requires ValidCivil(c) && day == ToDay(c)
    ensures FromDay(day) == c
  {
    ToDayIsRight(c);
  }

  lemma RollsIntoNext(c: Civil)
    requires ValidCivil(c) && c.day <= DaysInMonth(NextYear(c.year, c.month), NextMonth(c.month))
    ensures FromDay(MakeDay(c.year, c.month + 1, c.day)) ==
            Civil(NextYear(c.year, c.month), NextMonth(c.month), c.day)
  {
    MakeDayNext(c.year, c.month, c.day);
    CivilOfDay(MakeDay(c.year, c.month + 1, c.day), Civil(NextYear(c.year, c.month), NextMonth(c.month), c.day));
  }

  lemma RollsOverNext(c: Civil, y: int, m: int)
    requires ValidCivil(c) && y == NextYear(c.year, c.month) && m == NextMonth(c.month) && c.day > DaysInMonth(y, m)
    ensures FromDay(MakeDay(c.year, c.month + 1, c.day)) ==
            Civil(NextYear(y, m), NextMonth(m), c.day - DaysInMonth(y, m))
  {
    MakeDayNext(c.year, c.month, c.day);
    NextFirst(y, m);
    var d := Civil(NextYear(y, m), NextMonth(m), c.day - DaysInMonth(y, m));
    CivilOfDay(MakeDay(c.year, c.month + 1, c.day), d);
  }

  /** `setUTCMonth(month + 1)` lands in the target month. */
  lemma MonthRolls(c: Civil)
    requires ValidCivil(c)
    ensures var d := FromDay(MakeDay(c.year, c.month + 1, c.day));
            (d.year, d.month) == TargetMonth(c)
  {
    var y, m := NextYear(c.year, c.month), NextMonth(c.month);
    if c.day <= DaysInMonth(y, m) {
      RollsIntoNext(c);
    } else {
      RollsOverNext(c, y, m);
    }
  }

  lemma SetDateMoves(day: int, k: int)
    ensures MakeDay(FromDay(day).year, FromDay(day).month, FromDay(day).day + k) == day + k
  {
    FromDayIsRight(day);
    MakeDayHere(FromDay(day).year, FromDay(day).month, FromDay(day).day + k);
  }

  lemma TargetDay(day: int, c: Civil, d: int, e: Civil, dayOf: nat)
    requires c == FromDay(day) && ValidCivil(c)
    requires d == MakeDay(c.year, c.month + 1, c.day) && e == FromDay(d) && ValidCivil(e)
    ensures MakeDay(e.year, e.month, Min(dayOf, LastDay(e.year, e.month))) == NextRunDay(day, Monthly, dayOf)
  {
    MonthRolls(c);
    MakeDayHere(e.year, e.month, Min(dayOf, LastDay(e.year, e.month)));
  }

  /** The civil date of a day number, as the getters read it. */
  function Getters(day: int): (c: Civil)
    ensures ValidCivil(c) && c == FromDay(day)
  {
    FromDayIsRight(day);
    FromDay(day)
  }

  /** The three setters of the code, on the day number. */
  method NextMonthlyDay(day: int, dayOf: nat) returns (d: int)
    ensures d == NextRunDay(day, Monthly, dayOf)
  {
    var c := Getters(day);
    d := MakeDay(c.year, c.month + 1, c.day);
    var e := Getters(d);
    TargetDay(day, c, d, e, dayOf);
    var lastDay := LastDay(e.year, e.month);
    d := MakeDay(e.year, e.month, Min(dayOf, lastDay));
  }

  method ComputeNextRunAt(from: Instant, frequency: Frequency, dayOf: nat) returns (d: Instant)
    ensures d == NextRunAt(from, frequency, dayOf)
  {
    d := from;
    var diff := DaysAhead(d.day, dayOf);
    match frequency {
      case Weekly =>
        SetDateMoves(d.day, diff);
        var c := FromDay(d.day);
        d := d.(day := MakeDay(c.year, c.month, c.day + diff));
      case Biweekly =>
        SetDateMoves(d.day, diff + 7);
        var c := FromDay(d.day);
        d := d.(day := MakeDay(c.year, c.month, c.day + diff + 7));
      case Monthly =>
        var day := NextMonthlyDay(d.day, dayOf);
        d := d.(day := day);
    }
    d := d.(time := NINE);
  }

  // ----- where it lands -----

  /** Weekly lands one to seven days on, biweekly eight to fourteen, on the chosen weekday. */
  lemma WeeksLandOnWeekday(from: Instant, dayOf: nat)
    ensures 1 <= NextRunAt(from, Weekly, dayOf).day - from.day <= 7
    ensures 8 <= NextRunAt(from, Biweekly, dayOf).day - from.day <= 14
    ensures WeekDay(NextRunAt(from, Weekly, dayOf).day) == dayOf % 7
    ensures WeekDay(NextRunAt(from, Biweekly, dayOf).day) == dayOf % 7
  {
    WeekdayReached(from.day, dayOf);
  }

  lemma WeekdayReached(day: int, dayOf: nat)
    ensures var ahead := DaysAhead(day, dayOf);
            1 <= ahead <= 7 && WeekDay(day + ahead) == dayOf % 7 && WeekDay(day + ahead + 7) == dayOf % 7
  {
  }

  /** The last day asked for is the length of the month, but for February of the year 0. */
  lemma LastDayIsMonthLength(y: int, m: int)
    requires 0 <= m < 12
    ensures LastDay(y, m) == DaysInMonth(UtcYear(y), m)
    ensures y != 0 || m != 1 ==> LastDay(y, m) == DaysInMonth(y, m)
    ensures 28 <= LastDay(y, m) <= DaysInMonth(y, m)
  {
    EveOfNextMonth(UtcYear(y), m);
    if 0 <= y <= 99 {
      CenturyLeap(y);
    }
  }

  lemma EveOfNextMonth(u: int, m: int)
    requires 0 <= m < 12
    ensures FromDay(MakeDay(u, m + 1, 0)) == Civil(u, m, DaysInMonth(u, m))
  {
    MakeDayNext(u, m, 0);
    NextFirst(u, m);
    CivilOfDay(MakeDay(u, m + 1, 0), Civil(u, m, DaysInMonth(u, m)));
  }

  lemma CenturyLeap(y: int)
    requires 0 <= y <= 99
    ensures Leap(1900 + y) <==> Leap(y) && y != 0
  {
  }

  /** Monthly lands on the chosen day of the target month, cut to its last day. */
  lemma MonthsLandOnDay(from: Instant, dayOf: nat)
    requires 1 <= dayOf
    ensures var (y, m) := TargetMonth(DateOf(from));
            DateOf(NextRunAt(from, Monthly, dayOf)) == Civil(y, m, Min(dayOf, LastDay(y, m)))
  {
    var (y, m) := TargetMonth(DateOf(from));
    LastDayIsMonthLength(y, m);
    CivilOfDay(NextRunDay(from.day, Monthly, dayOf), Civil(y, m, Min(dayOf, LastDay(y, m))));
  }

  /** Day 0 of the target month is the last day before it. */
  lemma DayZeroIsEve(day: int)
    ensures ValidCivil(FromDay(day))
    ensures var (y, m) := TargetMonth(FromDay(day));
            NextRunDay(day, Monthly, 0) == FirstOfMonth(y, m) - 1
  {
    FromDayIsRight(day);
    var (y, m) := TargetMonth(FromDay(day));
    LastDayIsMonthLength(y, m);
  }

  // ----- it is later -----

  /** Asked on the last day of a month for day 0, with that day number in the next month too. */
  ghost predicate StaysToday(c: Civil, frequency: Frequency, dayOf: nat)
    requires ValidCivil(c)
  {
    && frequency.Monthly? && dayOf == 0
    && c.day == DaysInMonth(c.year, c.month)
    && c.day <= DaysInMonth(NextYear(c.year, c.month), NextMonth(c.month))
  }

  lemma TargetIsAhead(c: Civil)
    requires ValidCivil(c)
    ensures var (y, m) := TargetMonth(c);
            FirstOfMonth(y, m) - 1 >= ToDay(c) && (FirstOfMonth(y, m) - 1 == ToDay(c) <==> StaysToday(c, Monthly, 0))
  {
    NextFirst(c.year, c.month);
    NextFirst(NextYear(c.year, c.month), NextMonth(c.month));
  }

  /** The next occurrence is a later day, except in the one case that stays today. */
  lemma NextRunDayIsLater(day: int, frequency: Frequency, dayOf: nat)
    ensures ValidCivil(FromDay(day))
    ensures NextRunDay(day, frequency, dayOf) >= day
    ensures NextRunDay(day, frequency, dayOf) == day <==> StaysToday(FromDay(day), frequency, dayOf)
  {
    FromDayIsRight(day);
    if frequency.Monthly? {
      TargetIsAhead(FromDay(day));
      DayZeroIsEve(day);
      var (y, m) := TargetMonth(FromDay(day));
      LastDayIsMonthLength(y, m);
    } else {
      WeekdayReached(day, dayOf);
    }
  }

  /** The next occurrence is strictly later than the clock it was computed from, if and only if it is not a
      monthly schedule on day 0 computed at or after nine on such a last day of the month. */
  lemma StrictlyLaterExactly(from: Instant, frequency: Frequency, dayOf: nat)
    ensures Before(from, NextRunAt(from, frequency, dayOf)) <==>
            !(StaysToday(DateOf(from), frequency, dayOf) && from.time >= NINE)
  {
    NextRunDayIsLater(from.day, frequency, dayOf);
  }

  /** Whatever the schedule, the next occurrence is never before an occurrence that was already due. */
  lemma NeverBeforeDueOccurrence(now: Instant, frequency: Frequency, dayOf: nat, due: Instant)
    requires AtNine(due) && !Before(now, due)
    ensures !Before(NextRunAt(now, frequency, dayOf), due)
  {
    NextRunDayIsLater(now.day, frequency, dayOf);
  }

  lemma JanuarySkipsFebruary(y: int, day: int)
    requires 29 < day <= 31
    ensures TargetMonth(Civil(y, 0, day)) == (y, 2)
  {
  }

  /** 31 January, monthly on the 31st: the code answers 31 March, not the last day of February, in any year. */
  lemma JanuaryThirtyFirstSkipsFebruary(from: Instant)
    requires DateOf(from).month == 0 && DateOf(from).day == 31
    ensures DateOf(NextRunAt(from, Monthly, 31)) == Civil(DateOf(from).year, 2, 31)
  {
    var y := DateOf(from).year;
    MonthsLandOnDay(from, 31);
    JanuarySkipsFebruary(y, 31);
    LastDayIsMonthLength(y, 2);
  }

  /** 30 April 2026, noon, monthly on day 0: the answer is earlier than the question. */
  lemma DayZeroCanGoBack(from: Instant)
    requires DateOf(from) == Civil(2026, 3, 30) && from.time == 12 * MS_PER_HOUR
    ensures Before(NextRunAt(from, Monthly, 0), from)
  {
    NextRunDayIsLater(from.day, Monthly, 0);
  }
}
