/** UTC dates of log timestamps (src/mcp/logs.rs), against the proleptic Gregorian calendar. */
module Calendar {
  datatype Date = Date(year: int, month: int, day: int)

  /** Rust's integer division, which truncates toward zero. */
  function TruncDiv(a: int, b: int): int
    requires b > 0
  {
    if a >= 0 then a / b else -((-a) / b)
  }

  /**
   * The date of day number `z`, counted from 1970-01-01, as the source computes
   * it. Only `era` divides a number that may be negative: `doe` is a remainder
   * of that division, and everything after it derives from `doe`.
   */
  function CivilFromDays(z: int): Date
  {
    var z := z + 719468;
    var era := TruncDiv(if z >= 0 then z else z - 146096, 146097);
    EraDate(era, z - era * 146097)
  }

  function EraDate(era: int, doe: int): Date
  {
    var yoe := (doe - doe / 1460 + doe / 36524 - doe / 146096) / 365;
    var y := yoe + era * 400;
    var doy := doe - (365 * yoe + yoe / 4 - yoe / 100);
    var mp := (5 * doy + 2) / 153;
    var d := doy - (153 * mp + 2) / 5 + 1;
    var m := if mp < 10 then mp + 3 else mp - 9;
    Date(if m <= 2 then y + 1 else y, m, d)
  }

  // ----- the calendar: leap rule and month lengths of RFC 3339, section 5.7 and Appendix C -----

  predicate LeapYear(year: int) { year % 4 == 0 && (year % 100 != 0 || year % 400 == 0) }

  function MonthLength(year: int, month: int): (n: int)
    requires 1 <= month <= 12
  {
    if month == 2 then (if LeapYear(year) then 29 else 28)
    else if month in {4, 6, 9, 11} then 30
    else 31
  }

  predicate ValidDate(d: Date) { 1 <= d.month <= 12 && 1 <= d.day <= MonthLength(d.year, d.month) }

  function NextDay(d: Date): (next: Date)
    requires ValidDate(d)
    ensures ValidDate(next)
  {
    if d.day < MonthLength(d.year, d.month) then d.(day := d.day + 1)
    else if d.month < 12 then Date(d.year, d.month + 1, 1)
    else Date(d.year + 1, 1, 1)
  }

  /** Days from 1970-01-01 to January 1 of `year`: 365 a year and the leap days between. */
  function DaysBeforeYear(year: int): int
  {
    var p := year - 1;
    365 * (year - 1970) + (p / 4 - p / 100 + p / 400) - 477
  }

  function DaysBeforeMonth(year: int, month: int): int
    requires 1 <= month <= 12
  {
    if month == 1 then 0 else DaysBeforeMonth(year, month - 1) + MonthLength(year, month - 1)
  }

  function DaysFromCivil(d: Date): int
    requires ValidDate(d)
  {
    DaysBeforeYear(d.year) + DaysBeforeMonth(d.year, d.month) + d.day - 1
  }

  /** A year is as long as its twelve months, so day counts agree with the successor function. */
  lemma CountFollowsSuccessor(d: Date)
    requires ValidDate(d)
    ensures DaysFromCivil(NextDay(d)) == DaysFromCivil(d) + 1
  {
    if d.month == 12 && d.day == 31 {
      YearLength(d.year);
      MonthTable(d.year);
    }
  }

  lemma YearLength(year: int)
    ensures DaysBeforeYear(year + 1) - DaysBeforeYear(year) == if LeapYear(year) then 366 else 365
  {
    var p := year - 1;
    assert year / 4 - p / 4 == if year % 4 == 0 then 1 else 0 by { Steps4(p); }
    assert year / 100 - p / 100 == if year % 100 == 0 then 1 else 0 by { Steps100(p); }
    assert year / 400 - p / 400 == if year % 400 == 0 then 1 else 0 by { Steps400(p); }
    Multiples(year);
  }

  lemma Steps4(p: int)
    ensures (p + 1) / 4 - p / 4 == if (p + 1) % 4 == 0 then 1 else 0
  {
  }

  lemma Steps100(p: int)
    ensures (p + 1) / 100 - p / 100 == if (p + 1) % 100 == 0 then 1 else 0
  {
  }

  lemma Steps400(p: int)
    ensures (p + 1) / 400 - p / 400 == if (p + 1) % 400 == 0 then 1 else 0
  {
  }

  lemma Multiples(y: int)
    ensures y % 100 == 0 ==> y % 4 == 0
    ensures y % 400 == 0 ==> y % 100 == 0
  {
    if y % 100 == 0 {
      assert y == 4 * (25 * (y / 100));
    }
    if y % 400 == 0 {
      assert y == 100 * (4 * (y / 400));
    }
  }

  lemma MonthTable(y: int)
    ensures DaysBeforeMonth(y, 1) == 0 && DaysBeforeMonth(y, 2) == 31
    ensures var leap := if LeapYear(y) then 1 else 0;
            && DaysBeforeMonth(y, 3) == 59 + leap && DaysBeforeMonth(y, 4) == 90 + leap
            && DaysBeforeMonth(y, 5) == 120 + leap && DaysBeforeMonth(y, 6) == 151 + leap
            && DaysBeforeMonth(y, 7) == 181 + leap && DaysBeforeMonth(y, 8) == 212 + leap
            && DaysBeforeMonth(y, 9) == 243 + leap && DaysBeforeMonth(y, 10) == 273 + leap
            && DaysBeforeMonth(y, 11) == 304 + leap && DaysBeforeMonth(y, 12) == 334 + leap
  {
    assert DaysBeforeMonth(y, 4) == DaysBeforeMonth(y, 3) + 31;
    assert DaysBeforeMonth(y, 6) == DaysBeforeMonth(y, 5) + 31;
    assert DaysBeforeMonth(y, 8) == DaysBeforeMonth(y, 7) + 31;
    assert DaysBeforeMonth(y, 10) == DaysBeforeMonth(y, 9) + 30;
  }

  // ----- the source's arithmetic, piece by piece -----

  /**
   * A day of the 400-year era that starts on March 1: century `c`, four-year
   * block `k` of it, year `r` of that, and day `t` of the year. Day 365 exists
   * only in the block's last year, and not in a century's last block.
   */
  ghost predicate EraDay(doe: int, c: int, k: int, r: int, t: int)
  {
    && 0 <= c <= 3 && 0 <= k <= 24 && 0 <= r <= 3 && 0 <= t <= 365
    && (t == 365 ==> r == 3 && (k < 24 || c == 3))
    && doe == 36524 * c + 1461 * k + 365 * r + t
  }

  lemma SplitEra(doe: int) returns (c: int, k: int, r: int, t: int)
    requires 0 <= doe <= 146096
    ensures EraDay(doe, c, k, r, t)
  {
    c := if doe == 146096 then 3 else doe / 36524;
    var inCentury := doe - 36524 * c;
    k := inCentury / 1461;
    var inBlock := inCentury - 1461 * k;
    r := if inBlock == 1460 then 3 else inBlock / 365;
    t := inBlock - 365 * r;
  }

  /** The source's corrected division finds the year of the era. */
  lemma YearOfEra(doe: int, c: int, k: int, r: int, t: int)
    requires EraDay(doe, c, k, r, t)
    ensures (doe - doe / 1460 + doe / 36524 - doe / 146096) / 365 == 100 * c + 4 * k + r
  {
    var carry := if 24 * c + k + 365 * r + t >= 1460 then 1 else 0;
    var last := if doe == 146096 then 1 else 0;
    assert doe / 1460 == 25 * c + k + carry;
    assert doe / 36524 == c + last;
    assert doe / 146096 == last;
    var days := doe - doe / 1460 + doe / 36524 - doe / 146096;
    assert days == 365 * (100 * c + 4 * k + r) + t - carry;
    assert 0 <= t - carry < 365;
  }

  lemma DayOfYear(doe: int, c: int, k: int, r: int, t: int)
    requires EraDay(doe, c, k, r, t)
    ensures var yoe := 100 * c + 4 * k + r; doe - (365 * yoe + yoe / 4 - yoe / 100) == t
  {
    var yoe := 100 * c + 4 * k + r;
    assert yoe / 4 == 25 * c + k;
    assert yoe / 100 == c;
  }

  /** Days from March 1 to the first of the month `mp` months later. */
  function MarchDays(mp: int): int { (153 * mp + 2) / 5 }

  /** Month and day within a March-based year. */
  lemma MonthOfYear(t: int)
    requires 0 <= t <= 365
    ensures var mp := (5 * t + 2) / 153; 0 <= mp <= 11 && MarchDays(mp) <= t < MarchDays(mp + 1)
  {}

  lemma MarchTable(mp: int)
    requires 0 <= mp <= 11
    ensures MarchDays(mp) == [0, 31, 61, 92, 122, 153, 184, 214, 245, 275, 306, 337][mp]
    ensures MarchDays(mp + 1) == [31, 61, 92, 122, 153, 184, 214, 245, 275, 306, 337, 367][mp]
  {}

  lemma LeapEnd(era: int, c: int, k: int, r: int)
    requires 0 <= c <= 3 && 0 <= k <= 24 && r == 3 && (k < 24 || c == 3)
    ensures LeapYear(400 * era + 100 * c + 4 * k + r + 1)
  {
    var y := 400 * era + 100 * c + 4 * k + r + 1;
    assert y == 4 * (100 * era + 25 * c + k + 1);
    if k < 24 {
      assert y == 100 * (4 * era + c) + 4 * (k + 1);
    } else {
      assert y == 400 * (era + 1);
    }
  }

  /** Days to March 1 of a year, split into eras. */
  lemma DaysToMarch(era: int, c: int, k: int, r: int)
    requires 0 <= c <= 3 && 0 <= k <= 24 && 0 <= r <= 3
    ensures var y := 400 * era + 100 * c + 4 * k + r;
            DaysBeforeYear(y + 1) - 306 == 146097 * era + 36524 * c + 1461 * k + 365 * r - 719468
  {
    var y := 400 * era + 100 * c + 4 * k + r;
    assert y / 4 == 100 * era + 25 * c + k;
    assert y / 100 == 4 * era + c;
    assert y / 400 == era;
  }

  /** The date of day `t` of the March-based year `y`. */
  function MarchDate(y: int, t: int): Date
  {
    var mp := (5 * t + 2) / 153;
    var m := if mp < 10 then mp + 3 else mp - 9;
    Date(if m <= 2 then y + 1 else y, m, t - MarchDays(mp) + 1)
  }

  lemma MarchDateCounts(y: int, t: int)
    requires 0 <= t <= 365 && (t == 365 ==> LeapYear(y + 1))
    ensures ValidDate(MarchDate(y, t))
    ensures DaysFromCivil(MarchDate(y, t)) == DaysBeforeYear(y + 1) - 306 + t
  {
    var mp := (5 * t + 2) / 153;
    MonthOfYear(t);
    MarchTable(mp);
    MonthTable(y);
    MonthTable(y + 1);
    YearLength(y);
  }

  lemma EraOf(s: int)
    ensures TruncDiv(if s >= 0 then s else s - 146096, 146097) == s / 146097
  {}

  lemma EraDateIs(era: int, doe: int, c: int, k: int, r: int, t: int)
    requires EraDay(doe, c, k, r, t)
    ensures EraDate(era, doe) == MarchDate(400 * era + 100 * c + 4 * k + r, t)
  {
    YearOfEra(doe, c, k, r, t);
    DayOfYear(doe, c, k, r, t);
  }

  lemma SourceIsMarchDate(z: int) returns (y: int, t: int)
    ensures 0 <= t <= 365 && (t == 365 ==> LeapYear(y + 1))
    ensures CivilFromDays(z) == MarchDate(y, t)
    ensures DaysBeforeYear(y + 1) - 306 + t == z
  {
    var s := z + 719468;
    var era := s / 146097;
    var doe := s - era * 146097;
    EraOf(s);
    assert CivilFromDays(z) == EraDate(era, doe);
    y, t := EraParts(era, doe);
  }

  lemma EraParts(era: int, doe: int) returns (y: int, t: int)
    requires 0 <= doe <= 146096
    ensures 0 <= t <= 365 && (t == 365 ==> LeapYear(y + 1))
    ensures EraDate(era, doe) == MarchDate(y, t)
    ensures DaysBeforeYear(y + 1) - 306 + t == 146097 * era + doe - 719468
  {
    var c, k, r, t' := SplitEra(doe);
    EraDateIs(era, doe, c, k, r, t');
    DaysToMarch(era, c, k, r);
    if t' == 365 {
      LeapEnd(era, c, k, r);
    }
    y, t := 400 * era + 100 * c + 4 * k + r, t';
  }

  // ----- main results -----

  /** Every day number gives a valid date, and counting days to that date gives the number back. */
  lemma DaysInvertCivil(n: int)
    ensures ValidDate(CivilFromDays(n))
    ensures DaysFromCivil(CivilFromDays(n)) == n
  {
    var y, t := SourceIsMarchDate(n);
    MarchDateCounts(y, t);
  }

  lemma {:induction false} YearsGrow(y: int, z: int)
    requires y < z
    ensures DaysBeforeYear(y) + (if LeapYear(y) then 366 else 365) <= DaysBeforeYear(z)
    decreases z - y
  {
    YearLength(y);
    if y + 1 < z {
      YearsGrow(y + 1, z);
    }
  }

  lemma WithinYear(d: Date)
    requires ValidDate(d)
    ensures 0 <= DaysBeforeMonth(d.year, d.month) + d.day - 1 < if LeapYear(d.year) then 366 else 365
  {
    MonthTable(d.year);
  }

  lemma DaysAreInjective(a: Date, b: Date)
    requires ValidDate(a) && ValidDate(b) && DaysFromCivil(a) == DaysFromCivil(b)
    ensures a == b
  {
    WithinYear(a);
    WithinYear(b);
    if a.year < b.year {
      YearsGrow(a.year, b.year);
    } else if b.year < a.year {
      YearsGrow(b.year, a.year);
    }
    MonthTable(a.year);
  }

  /** `CivilFromDays` reaches every valid date, from its own day number. */
  lemma CivilInvertsDays(d: Date)
    requires ValidDate(d)
    ensures CivilFromDays(DaysFromCivil(d)) == d
  {
    DaysInvertCivil(DaysFromCivil(d));
    DaysAreInjective(CivilFromDays(DaysFromCivil(d)), d);
  }

  /** The computed dates are the Gregorian calendar: the epoch, and each day the successor of the one before. */
  lemma CivilIsGregorian(n: int)
    ensures CivilFromDays(0) == Date(1970, 1, 1)
    ensures ValidDate(CivilFromDays(n)) && CivilFromDays(n + 1) == NextDay(CivilFromDays(n))
  {
    CivilInvertsDays(Date(1970, 1, 1));
    DaysInvertCivil(n);
    SuccessorOf(CivilFromDays(n), n);
  }

  lemma SuccessorOf(d: Date, n: int)
    requires ValidDate(d) && DaysFromCivil(d) == n
    ensures CivilFromDays(n + 1) == NextDay(d)
  {
    var next := NextDay(d);
    CountFollowsSuccessor(d);
    CivilInvertsDays(next);
  }

  // ----- the rendered timestamp -----

  datatype Timestamp = Timestamp(date: Date, hour: int, minute: int, second: int)

  /** The six fields the source prints for a time in epoch milliseconds. */
  function UtcFields(ms: nat): Timestamp
  {
    var secs := ms / 1000;
    var rem := secs % 86400;
    Timestamp(CivilFromDays(secs / 86400), rem / 3600, rem % 3600 / 60, rem % 60)
  }

  /** The fields are in range and name exactly the second the milliseconds fall in. */
  lemma UtcFieldsAreExact(ms: nat)
    ensures var u := UtcFields(ms);
            && ValidDate(u.date) && 0 <= u.hour < 24 && 0 <= u.minute < 60 && 0 <= u.second < 60
            && 86400 * DaysFromCivil(u.date) + 3600 * u.hour + 60 * u.minute + u.second == ms / 1000
  {
    DaysInvertCivil(ms / 1000 / 86400);
    ClockSplits(ms / 1000);
  }

  lemma ClockSplits(secs: nat)
    ensures var rem := secs % 86400;
            && 0 <= rem / 3600 < 24 && 0 <= rem % 3600 / 60 < 60 && 0 <= rem % 60 < 60
            && 86400 * (secs / 86400) + 3600 * (rem / 3600) + 60 * (rem % 3600 / 60) + rem % 60 == secs
  {
    var rem := secs % 86400;
    var h, r := rem / 3600, rem % 3600;
    var m, s := r / 60, r % 60;
    assert rem == 60 * (60 * h + m) + s;
    assert rem % 60 == s;
  }
}
