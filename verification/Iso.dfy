/** `toISOString` and its inverse, for every year the format can write. */
module Iso {
  import opened Calendar
  import opened Sums

  // ----- zero-padded decimals -----

  function Digit(d: int): char
    requires 0 <= d < 10
  {
    ('0' as int + d) as char
  }

  predicate Digits(s: string) {
    forall i :: 0 <= i < |s| ==> '0' <= s[i] <= '9'
  }

  function DigitValue(c: char): int {
    c as int - '0' as int
  }

  function Two(n: nat): (s: string)
    ensures |s| == 2 && Digits(s)
  {
    [Digit(n / 10 % 10), Digit(n % 10)]
  }

  function Three(n: nat): (s: string)
    ensures |s| == 3 && Digits(s)
  {
    [Digit(n / 100 % 10), Digit(n / 10 % 10), Digit(n % 10)]
  }

  function Four(n: nat): (s: string)
    ensures |s| == 4 && Digits(s)
  {
    Two(n / 100) + Two(n % 100)
  }

  function Six(n: nat): (s: string)
    ensures |s| == 6 && Digits(s)
  {
    Three(n / 1000) + Three(n % 1000)
  }

  function Value2(s: string): int
    requires |s| == 2
  {
    10 * DigitValue(s[0]) + DigitValue(s[1])
  }

  function Value3(s: string): int
    requires |s| == 3
  {
    100 * DigitValue(s[0]) + 10 * DigitValue(s[1]) + DigitValue(s[2])
  }

  function Value4(s: string): int
    requires |s| == 4
  {
    100 * Value2(s[..2]) + Value2(s[2..])
  }

  function Value6(s: string): int
    requires |s| == 6
  {
    1000 * Value3(s[..3]) + Value3(s[3..])
  }

  lemma TwoRoundTrip(n: nat)
    requires n < 100
    ensures Value2(Two(n)) == n
  {
  }

  lemma ThreeRoundTrip(n: nat)
    requires n < 1000
    ensures Value3(Three(n)) == n
  {
    assert n / 100 == n / 10 / 10;
  }

  lemma FourRoundTrip(n: nat)
    requires n < 10_000
    ensures Value4(Four(n)) == n
  {
    TwoRoundTrip(n / 100);
    TwoRoundTrip(n % 100);
    assert Four(n)[..2] == Two(n / 100) && Four(n)[2..] == Two(n % 100);
  }

  lemma SixRoundTrip(n: nat)
    requires n < 1_000_000
    ensures Value6(Six(n)) == n
  {
    ThreeRoundTrip(n / 1000);
    ThreeRoundTrip(n % 1000);
    assert Six(n)[..3] == Three(n / 1000) && Six(n)[3..] == Three(n % 1000);
  }

  // ----- the format -----

  const MINUTE := 60_000
  const SECOND := 1000

  function YearField(y: int): string {
    if 0 <= y <= 9999 then Four(y)
    else if y < 0 then "-" + Six(-y)
    else "+" + Six(y)
  }

  /** Hours, minutes, seconds and milliseconds of a time of day. */
  datatype Clock = Clock(h: nat, mi: nat, sec: nat, ms: nat)

  function ClockOf(time: nat): Clock {
    Clock(time / MS_PER_HOUR, time % MS_PER_HOUR / MINUTE, time % MINUTE / SECOND, time % SECOND)
  }

  function TimeOf(k: Clock): nat {
    k.h * MS_PER_HOUR + k.mi * MINUTE + k.sec * SECOND + k.ms
  }

  predicate ValidClock(k: Clock) {
    k.h < 24 && k.mi < 60 && k.sec < 60 && k.ms < 1000
  }

  function Fields(a: string, b: string, d: string, e: string, f: string, g: string): string {
    "-" + a + "-" + b + "T" + d + ":" + e + ":" + f + "." + g + "Z"
  }

  /** The twenty characters after the year. */
  function TailText(c: Civil, k: Clock): string
    requires ValidCivil(c)
  {
    Fields(Two(c.month + 1), Two(c.day), Two(k.h), Two(k.mi), Two(k.sec), Three(k.ms))
  }

  /** The civil date of an instant. */
  function DateOf(t: Instant): (c: Civil)
    ensures ValidCivil(c)
  {
    FromDayIsRight(t.day);
    FromDay(t.day)
  }

  function IsoText(c: Civil, k: Clock): string
    requires ValidCivil(c)
  {
    YearField(c.year) + TailText(c, k)
  }

  function ToIso(t: Instant): string
    requires ValidInstant(t)
  {
    IsoText(DateOf(t), ClockOf(t.time))
  }

  predicate Writable(t: Instant): (writable: bool)
    ensures writable ==> ValidInstant(t)
  {
    ValidInstant(t) && -999_999 <= DateOf(t).year <= 999_999
  }

  function ParseYear(s: string): Option<int> {
    if |s| == 4 && Digits(s) then
      Some(Value4(s))
    else if |s| == 7 && Digits(s[1..]) && (s[0] == '+' || s[0] == '-') then
      Some(if s[0] == '-' then -Value6(s[1..]) else Value6(s[1..]))
    else None
  }

  predicate DigitAt(r: string, i: nat)
    requires i < |r|
  {
    '0' <= r[i] <= '9'
  }

  predicate Punctuated(r: string)
    requires |r| == 20
  {
    && r[0] == '-' && r[3] == '-' && r[6] == 'T' && r[9] == ':' && r[12] == ':' && r[15] == '.' && r[19] == 'Z'
    && DigitAt(r, 1) && DigitAt(r, 2) && DigitAt(r, 4) && DigitAt(r, 5) && DigitAt(r, 7) && DigitAt(r, 8)
    && DigitAt(r, 10) && DigitAt(r, 11) && DigitAt(r, 13) && DigitAt(r, 14)
    && DigitAt(r, 16) && DigitAt(r, 17) && DigitAt(r, 18)
  }

  /** The two digits at `i`, as a number. */
  function Pair(r: string, i: nat): int
    requires i + 1 < |r|
  {
    10 * DigitValue(r[i]) + DigitValue(r[i + 1])
  }

  function Triple(r: string, i: nat): int
    requires i + 2 < |r|
  {
    100 * DigitValue(r[i]) + 10 * DigitValue(r[i + 1]) + DigitValue(r[i + 2])
  }

  datatype Tail = Tail(month: int, day: int, time: int)

  function ParseTail(r: string): Option<Tail> {
    if |r| != 20 || !Punctuated(r) then None
    else
      var k := Clock(Pair(r, 7), Pair(r, 10), Pair(r, 13), Triple(r, 16));
      if ValidClock(k) then Some(Tail(Pair(r, 1) - 1, Pair(r, 4), TimeOf(k))) else None
  }

  /** The instant an ISO string names, if it is one `toISOString` could have written. */
  function FromIso(s: string): Option<Instant> {
    if |s| < 20 then None
    else match (ParseYear(s[..|s| - 20]), ParseTail(s[|s| - 20..]))
      case (Some(y), Some(r)) =>
        if ValidCivil(Civil(y, r.month, r.day)) then Some(Instant(ToDay(Civil(y, r.month, r.day)), r.time)) else None
      case _ => None
  }

  lemma ClockIsRight(time: nat)
    requires time < MS_PER_DAY
    ensures ValidClock(ClockOf(time)) && TimeOf(ClockOf(time)) == time
  {
    var h, r := time / MS_PER_HOUR, time % MS_PER_HOUR;
    var mi, q := r / MINUTE, r % MINUTE;
    assert time == (h * 60 + mi) * MINUTE + q;
    QuotientUnique(time, MINUTE, h * 60 + mi, q);
    assert time == (h * 3600 + mi * 60 + q / SECOND) * SECOND + q % SECOND;
    QuotientUnique(time, SECOND, h * 3600 + mi * 60 + q / SECOND, q % SECOND);
  }

  lemma YearFieldRoundTrip(y: int)
    requires -999_999 <= y <= 999_999
    ensures ParseYear(YearField(y)) == Some(y)
    ensures |YearField(y)| == if 0 <= y <= 9999 then 4 else 7
  {
    if 0 <= y <= 9999 {
      FourRoundTrip(y);
    } else {
      var n := if y < 0 then -y else y;
      SixRoundTrip(n);
      assert YearField(y)[1..] == Six(n);
    }
  }

  /** Where the characters of the six fields end up. */
  lemma FieldsAt(a: string, b: string, d: string, e: string, f: string, g: string)
    requires |a| == |b| == |d| == |e| == |f| == 2 && |g| == 3
    ensures var r := Fields(a, b, d, e, f, g);
            && |r| == 20
            && r[0] == '-' && r[1] == a[0] && r[2] == a[1] && r[3] == '-' && r[4] == b[0] && r[5] == b[1]
            && r[6] == 'T' && r[7] == d[0] && r[8] == d[1] && r[9] == ':' && r[10] == e[0] && r[11] == e[1]
            && r[12] == ':' && r[13] == f[0] && r[14] == f[1] && r[15] == '.'
            && r[16] == g[0] && r[17] == g[1] && r[18] == g[2] && r[19] == 'Z'
  {
  }

  lemma TailRoundTrip(c: Civil, k: Clock)
    requires ValidCivil(c) && ValidClock(k)
    ensures |TailText(c, k)| == 20
    ensures ParseTail(TailText(c, k)) == Some(Tail(c.month, c.day, TimeOf(k)))
  {
    FieldsAt(Two(c.month + 1), Two(c.day), Two(k.h), Two(k.mi), Two(k.sec), Three(k.ms));
    ParsesTo(TailText(c, k), c.month + 1, c.day, k);
  }

  lemma ParsesTo(r: string, mo: nat, d: nat, k: Clock)
    requires |r| == 20 && ValidClock(k) && mo < 100 && d < 100
    requires r[0] == '-' && r[3] == '-' && r[6] == 'T' && r[9] == ':' && r[12] == ':' && r[15] == '.' && r[19] == 'Z'
    requires r[1] == Two(mo)[0] && r[2] == Two(mo)[1] && r[4] == Two(d)[0] && r[5] == Two(d)[1]
    requires r[7] == Two(k.h)[0] && r[8] == Two(k.h)[1] && r[10] == Two(k.mi)[0] && r[11] == Two(k.mi)[1]
    requires r[13] == Two(k.sec)[0] && r[14] == Two(k.sec)[1]
    requires r[16] == Three(k.ms)[0] && r[17] == Three(k.ms)[1] && r[18] == Three(k.ms)[2]
    ensures ParseTail(r) == Some(Tail(mo - 1, d, TimeOf(k)))
  {
    hide Two, Three, Pair, Triple, DigitAt;
    PairIs(r, 1, mo);
    PairIs(r, 4, d);
    PairIs(r, 7, k.h);
    PairIs(r, 10, k.mi);
    PairIs(r, 13, k.sec);
    TripleIs(r, 16, k.ms);
  }

  lemma PairIs(r: string, i: nat, n: nat)
    requires i + 1 < |r| && n < 100 && r[i] == Two(n)[0] && r[i + 1] == Two(n)[1]
    ensures DigitAt(r, i) && DigitAt(r, i + 1) && Pair(r, i) == n
  {
    TwoRoundTrip(n);
  }

  lemma TripleIs(r: string, i: nat, n: nat)
    requires i + 2 < |r| && n < 1000 && r[i] == Three(n)[0] && r[i + 1] == Three(n)[1] && r[i + 2] == Three(n)[2]
    ensures DigitAt(r, i) && DigitAt(r, i + 1) && DigitAt(r, i + 2) && Triple(r, i) == n
  {
    ThreeRoundTrip(n);
  }

  lemma JoinedIso(head: string, tail: string, c: Civil, time: int)
    requires |tail| == 20 && ValidCivil(c)
    requires ParseYear(head) == Some(c.year) && ParseTail(tail) == Some(Tail(c.month, c.day, time))
    ensures FromIso(head + tail) == Some(Instant(ToDay(c), time))
  {
    var s := head + tail;
    assert s[..|s| - 20] == head && s[|s| - 20..] == tail;
    assert Civil(c.year, c.month, c.day) == c;
  }

  /** Reading back an ISO string gives the instant it was written from. */
  lemma IsoRoundTrip(t: Instant)
    requires Writable(t)
    ensures FromIso(ToIso(t)) == Some(t)
    ensures |ToIso(t)| == if 0 <= DateOf(t).year <= 9999 then 24 else 27
  {
    ClockIsRight(t.time);
    IsoOfParts(DateOf(t), ClockOf(t.time));
    FromDayIsRight(t.day);
  }

  lemma IsoOfParts(c: Civil, k: Clock)
    requires ValidCivil(c) && ValidClock(k) && -999_999 <= c.year <= 999_999
    ensures FromIso(IsoText(c, k)) == Some(Instant(ToDay(c), TimeOf(k)))
    ensures |IsoText(c, k)| == if 0 <= c.year <= 9999 then 24 else 27
  {
    YearFieldRoundTrip(c.year);
    TailRoundTrip(c, k);
    JoinedIso(YearField(c.year), TailText(c, k), c, TimeOf(k));
  }

  /** Distinct instants have distinct ISO strings. */
  lemma IsoInjective(t: Instant, u: Instant)
    requires Writable(t) && Writable(u) && ToIso(t) == ToIso(u)
    ensures t == u
  {
    IsoRoundTrip(t);
    IsoRoundTrip(u);
  }

  /** The epoch, and a time on Monday 5 January 2026, as the format writes them. */
  lemma KnownIso()
    ensures ToIso(Instant(0, 0)) == "1970-01-01T00:00:00.000Z"
    ensures ToIso(Instant(20_458, 34_205_007)) == "2026-01-05T09:30:05.007Z"
  {
    hide *;
    KnownDays();
    KnownFields();
    IsoOf(Instant(0, 0), Civil(1970, 0, 1), Clock(0, 0, 0, 0));
    IsoOf(Instant(20_458, 34_205_007), Civil(2026, 0, 5), Clock(9, 30, 5, 7));
    KnownText(Civil(1970, 0, 1), Clock(0, 0, 0, 0), "1970", "01", "01", "00", "00", "00", "000");
    KnownText(Civil(2026, 0, 5), Clock(9, 30, 5, 7), "2026", "01", "05", "09", "30", "05", "007");
  }

  lemma IsoOf(t: Instant, c: Civil, k: Clock)
    requires ValidInstant(t) && ValidCivil(c) && FromDay(t.day) == c && ClockOf(t.time) == k
    ensures ToIso(t) == IsoText(c, k)
  {
    hide IsoText, FromDay, ClockOf;
  }

  lemma KnownDays()
    ensures ValidInstant(Instant(0, 0)) && ValidInstant(Instant(20_458, 34_205_007))
    ensures ValidCivil(Civil(1970, 0, 1)) && ValidCivil(Civil(2026, 0, 5))
    ensures FromDay(0) == Civil(1970, 0, 1) && FromDay(20_458) == Civil(2026, 0, 5)
  {
    hide FromDay, ToDay;
    EpochIsDayZero();
    FifthOfJanuary();
    ToDayIsRight(Civil(2026, 0, 5));
  }

  lemma FifthOfJanuary()
    ensures ValidCivil(Civil(2026, 0, 5)) && ToDay(Civil(2026, 0, 5)) == 20_458
  {
    assert DayFromYear(2026) == 20_454;
  }

  lemma KnownFields()
    ensures ClockOf(0) == Clock(0, 0, 0, 0) && ClockOf(34_205_007) == Clock(9, 30, 5, 7)
    ensures Four(1970) == "1970" && Four(2026) == "2026"
    ensures Two(0) == "00" && Two(1) == "01" && Two(5) == "05" && Two(7) == "07" && Two(9) == "09" && Two(30) == "30"
    ensures Three(0) == "000" && Three(7) == "007"
  {
  }

  lemma KnownText(c: Civil, k: Clock, y: string, mo: string, d: string, h: string, mi: string, s: string, ms: string)
    requires ValidCivil(c) && 0 <= c.year <= 9999 && Four(c.year) == y
    requires Two(c.month + 1) == mo && Two(c.day) == d && Two(k.h) == h && Two(k.mi) == mi && Two(k.sec) == s
    requires Three(k.ms) == ms
    ensures IsoText(c, k) == y + "-" + mo + "-" + d + "T" + h + ":" + mi + ":" + s + "." + ms + "Z"
  {
    hide Two, Three, Four;
    assert YearField(c.year) + Fields(mo, d, h, mi, s, ms)
        == y + "-" + mo + "-" + d + "T" + h + ":" + mi + ":" + s + "." + ms + "Z";
  }
}
