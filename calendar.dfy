/**
 * Carbon instants as civil date-time values, the chronological order the
 * repository sorts and compares them by, and the string formats the core
 * builds from them (PHP `format('Y')`, `'m'`, `'d'`, `'Y-m-d'`, integer
 * interpolation of `->year`, `->month`, `->day`).
 */
module Calendar {
  import opened Collections

  /**
   * A Carbon instant in the application time zone: civil year, month,
   * day and the second of that day.
   */
  datatype Instant = Instant(year: int, month: nat, day: nat, second: nat)

  /** A calendar day, the part of an instant that `whereDate` and `'Y-m-d'` look at. */
  datatype Date = Date(year: int, month: nat, day: nat)

  function DateOf(t: Instant): (d: Date)
    ensures d.year == t.year && d.month == t.month && d.day == t.day
  {
    Date(t.year, t.month, t.day)
  }

  /** A real instant: a month of the year, a day of a month and a second of the day. */
  predicate Proper(t: Instant) {
    1 <= t.month <= 12 && 1 <= t.day <= 31 && t.second < 86400
  }

  /**
   * `Carbon::create($year)` and `Carbon::create($year, 1, 1)`: the earliest
   * instant of the year.
   */
  function StartOfYear(year: int): (t: Instant)
    ensures Proper(t) && t.year == year
    ensures forall u :: Proper(u) && u.year == year ==> NotAfter(t, u)
  {
    Instant(year, 1, 1, 0)
  }

  /** `Carbon::create($year, $month, $day)`: the earliest instant of that day. */
  function StartOfDay(year: int, month: nat, day: nat): (t: Instant)
    ensures DateOf(t) == Date(year, month, day)
    ensures forall u :: DateOf(u) == Date(year, month, day) ==> NotAfter(t, u)
  {
    Instant(year, month, day, 0)
  }

  /** Strict chronological order: `$a < $b`. */
  predicate Before(a: Instant, b: Instant) {
    a.year < b.year
    || (a.year == b.year && a.month < b.month)
    || (a.year == b.year && a.month == b.month && a.day < b.day)
    || (a.year == b.year && a.month == b.month && a.day == b.day && a.second < b.second)
  }

  /** `$a <= $b`. */
  predicate NotAfter(a: Instant, b: Instant) {
    !Before(b, a)
  }

  /** The order is a strict total order, so a pair's history rows can be sorted by `date_time`. */
  lemma OrderIsTotal(a: Instant, b: Instant, c: Instant)
    ensures !Before(a, a)
    ensures Before(a, b) ==> !Before(b, a)
    ensures a == b || Before(a, b) || Before(b, a)
    ensures Before(a, b) && Before(b, c) ==> Before(a, c)
    ensures NotAfter(a, b) && NotAfter(b, a) ==> a == b
  {
  }

  /**
   * `Carbon::createFromTimestamp($ts)` in UTC: the civil date of a Unix
   * timestamp, by the days-to-civil conversion of the proleptic Gregorian
   * calendar (eras of 400 years, years starting on the first of March).
   */
  function FromUnix(ts: int): (t: Instant)
    ensures t.second == ts % 86400
  {
    var z := ts / 86400 + 719468;
    var era := z / 146097;
    var doe := z - era * 146097;
    var yoe := (doe - doe / 1460 + doe / 36524 - doe / 146096) / 365;
    var doy := doe - (365 * yoe + yoe / 4 - yoe / 100);
    var mp := (5 * doy + 2) / 153;
    var d := doy - (153 * mp + 2) / 5 + 1;
    var m := if mp < 10 then mp + 3 else mp - 9;
    var y := yoe + era * 400 + (if m <= 2 then 1 else 0);
    Instant(y, if m < 0 then 0 else m, if d < 0 then 0 else d, ts % 86400)
  }

  /** The Unix epoch is midnight on 1 January 1970. */
  lemma FromUnixEpoch()
    ensures FromUnix(0) == Instant(1970, 1, 1, 0)
  {
    assert 719468 / 146097 == 4;
    assert 135080 / 1460 == 92 && 135080 / 36524 == 3 && 135080 / 146096 == 0;
    assert 134991 / 365 == 369;
    assert 1532 / 153 == 10 && 1532 / 5 == 306;
  }

  /** The `time_last_update_unix` of the sample ExchangeRate-API response is midnight on 27 March 2020. */
  lemma FromUnixSample()
    ensures FromUnix(1585267200) == Instant(2020, 3, 27, 0)
  {
    assert 1585267200 / 86400 == 18348 && 1585267200 % 86400 == 0;
    assert 737816 / 146097 == 5;
    assert 7331 / 1460 == 5 && 7331 / 36524 == 0 && 7331 / 146096 == 0;
    assert 7326 / 365 == 20;
    assert 132 / 153 == 0 && 2 / 5 == 0;
  }

  // ---------------------------------------------------------------- digits

  predicate IsDigit(c: char) {
    '0' <= c <= '9'
  }

  predicate AllDigits(s: string) {
    forall i :: 0 <= i < |s| ==> IsDigit(s[i])
  }

  function DigitChar(d: nat): (c: char)
    requires d < 10
    ensures IsDigit(c)
  {
    (48 + d) as char
  }

  /** PHP decimal rendering of a non-negative integer: as many digits as it needs, and no more. */
  function NatToString(n: nat): (s: string)
    ensures |s| >= 1 && AllDigits(s)
    ensures n < 10 ==> |s| == 1
    ensures n < 100 ==> |s| <= 2
    ensures n < 1000 ==> |s| <= 3
    ensures n < 10000 ==> |s| <= 4
  {
    if n < 10 then [DigitChar(n)] else NatToString(n / 10) + [DigitChar(n % 10)]
  }

  /** PHP decimal rendering of any integer (`"$year"`): the digits of its magnitude, after a `-` when it is negative. */
  function IntToString(i: int): (s: string)
    ensures i >= 0 ==> AllDigits(s) && ParseDigits(s) == i
    ensures i < 0 ==> |s| >= 2 && s[0] == '-' && AllDigits(s[1..]) && ParseDigits(s[1..]) == -i
  {
    if i < 0 then
      var m := NatToString(-i);
      ParseNatToString(-i);
      assert ("-" + m)[1..] == m;
      "-" + m
    else
      ParseNatToString(i);
      NatToString(i)
  }

  /** Left-pads with `'0'` up to width `w` (`str_pad(..., STR_PAD_LEFT)`). */
  function PadLeft(s: string, w: nat): (r: string)
    ensures |r| == if |s| >= w then |s| else w
    ensures AllDigits(s) ==> AllDigits(r)
    decreases w - |s|
  {
    if |s| >= w then s else PadLeft(['0'] + s, w)
  }

  /** The value of a string of decimal digits. */
  function ParseDigits(s: string): int
    decreases |s|
  {
    if s == [] then 0 else ParseDigits(s[..|s| - 1]) * 10 + (s[|s| - 1] as int - 48)
  }

  lemma {:induction false} ParseNatToString(n: nat)
    ensures ParseDigits(NatToString(n)) == n
  {
    if n >= 10 {
      var s := NatToString(n);
      assert s[..|s| - 1] == NatToString(n / 10);
      ParseNatToString(n / 10);
    }
  }

  lemma {:induction false} ParseLeadingZero(s: string)
    ensures ParseDigits(['0'] + s) == ParseDigits(s)
    decreases |s|
  {
    if s != [] {
      var t := ['0'] + s;
      assert t[..|t| - 1] == ['0'] + s[..|s| - 1];
      ParseLeadingZero(s[..|s| - 1]);
    } else {
      assert ['0'] + s == ['0'];
      assert ['0'][..0] == [];
    }
  }

  lemma {:induction false} ParsePadLeft(s: string, w: nat)
    ensures ParseDigits(PadLeft(s, w)) == ParseDigits(s)
    decreases w - |s|
  {
    if |s| < w {
      ParsePadLeft(['0'] + s, w);
      ParseLeadingZero(s);
    }
  }

  /**
   * PHP `format('Y')`: the digits of the year, zero-padded to four, after a
   * `-` before year 0.
   */
  function FormatYear(y: int): (s: string)
    ensures y >= 0 ==> AllDigits(s) && ParseDigits(s) == y && |s| >= 4
    ensures 0 <= y < 10000 ==> |s| == 4
    ensures y < 0 ==> |s| >= 5 && s[0] == '-' && AllDigits(s[1..]) && ParseDigits(s[1..]) == -y
  {
    var digits := PadLeft(NatToString(if y < 0 then -y else y), 4);
    ParsePadLeft(NatToString(if y < 0 then -y else y), 4);
    ParseNatToString(if y < 0 then -y else y);
    if y < 0 then
      assert ("-" + digits)[1..] == digits;
      "-" + digits
    else digits
  }

  /** PHP `format('m')` and `format('d')`: the digits of `n`, zero-padded to two. */
  function Format2(n: nat): (s: string)
    ensures AllDigits(s) && ParseDigits(s) == n && |s| >= 2
    ensures n < 100 ==> |s| == 2
  {
    ParsePadLeft(NatToString(n), 2);
    ParseNatToString(n);
    PadLeft(NatToString(n), 2)
  }

  /** PHP `format('Y-m-d')`, the day key of the history queries and of the DTO keys. */
  function FormatDate(d: Date): string {
    FormatYear(d.year) + "-" + Format2(d.month) + "-" + Format2(d.day)
  }

  /** `whereDate('date_time', $d->format('Y-m-d'))`: the day of `a` formats as the day of `b`. */
  predicate OnDayOf(a: Instant, b: Instant) {
    FormatDate(DateOf(a)) == FormatDate(DateOf(b))
  }

  lemma DigitsHaveNo(s: string, c: char)
    requires AllDigits(s) && !IsDigit(c)
    ensures c !in s
  {
  }

  /**
   * From year 0 on, `'Y-m-d'` names exactly one calendar day: two dates
   * format alike only when they are the same date.
   */
  lemma FormatDateInjective(d1: Date, d2: Date)
    requires d1.year >= 0 && d2.year >= 0
    ensures FormatDate(d1) == FormatDate(d2) <==> d1 == d2
  {
    if FormatDate(d1) == FormatDate(d2) {
      var y1, y2 := FormatYear(d1.year), FormatYear(d2.year);
      var m1, m2 := Format2(d1.month), Format2(d2.month);
      var e1, e2 := Format2(d1.day), Format2(d2.day);
      DigitsHaveNo(y1, '-');
      DigitsHaveNo(y2, '-');
      DigitsHaveNo(m1, '-');
      DigitsHaveNo(m2, '-');
      assert y1 + ['-'] + (m1 + ['-'] + e1) == FormatDate(d1);
      assert y2 + ['-'] + (m2 + ['-'] + e2) == FormatDate(d2);
      SplitAtSeparator(y1, m1 + ['-'] + e1, y2, m2 + ['-'] + e2, '-');
      SplitAtSeparator(m1, e1, m2, e2, '-');
    }
  }

  /** A sample from the repository's tests: 15 January 2024 formats as "2024-01-15". */
  lemma FormatDateSample()
    ensures FormatDate(Date(2024, 1, 15)) == "2024-01-15"
  {
  }

  /** From year 0 on, matching the formatted day is matching the calendar day. */
  lemma OnDayOfIsSameDate(a: Instant, b: Instant)
    requires a.year >= 0 && b.year >= 0
    ensures OnDayOf(a, b) <==> DateOf(a) == DateOf(b)
  {
    FormatDateInjective(DateOf(a), DateOf(b));
  }
}
