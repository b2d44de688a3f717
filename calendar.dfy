/** UTC civil-calendar arithmetic on integer seconds since 1970-01-01T00:00:00Z:
    the start of a timestamp's day or month, and the start of the following
    day or month. This stands for day/month truncation and for adding one day
    or one month to a bucket start, evaluated in UTC (no daylight saving). */
module Calendar {

  const SecondsPerDay: int := 86400

  predicate IsLeapYear(y: int) {
    y % 4 == 0 && (y % 100 != 0 || y % 400 == 0)
  }

  function DaysInYear(y: int): int {
    if IsLeapYear(y) then 366 else 365
  }

  /** Month lengths of a common year, January first. */
  const MonthLengths: seq<int> := [31, 28, 31, 30, 31, 30, 31, 31, 30, 31, 30, 31]

  function DaysInMonth(y: int, m: int): (n: int)
    requires 1 <= m <= 12
    ensures 28 <= n <= 31
    ensures n == 29 <==> m == 2 && IsLeapYear(y)
  {
    MonthLengths[m - 1] + (if m == 2 && IsLeapYear(y) then 1 else 0)
  }

  /** Months are numbered from January 1970 (index 0); negative before it. */
  function YearOfMonth(k: int): int { 1970 + k / 12 }
  function MonthOfYear(k: int): int { k % 12 + 1 }

  /** The number of days of month `k`. */
  function MonthLength(k: int): (n: int)
    ensures 28 <= n <= 31
  {
    DaysInMonth(YearOfMonth(k), MonthOfYear(k))
  }

  /** Day number (days since 1970-01-01) of the first day of month `k`: the
      lengths of the months from January 1970 added up (subtracted before
      1970). */
  function MonthStartDay(k: int): int
    decreases if k >= 0 then k else -k
  {
    if k == 0 then 0
    else if k > 0 then MonthStartDay(k - 1) + MonthLength(k - 1)
    else MonthStartDay(k + 1) - MonthLength(k)
  }

  /** Consecutive month starts are one month length apart. */
  lemma MonthStep(k: int)
    ensures MonthStartDay(k + 1) == MonthStartDay(k) + MonthLength(k)
  {
    if k < -1 {
      assert MonthStartDay(k) == MonthStartDay(k + 1) - MonthLength(k);
    }
  }

  /** Month starts grow by 28 to 31 days per month. */
  lemma {:induction false} MonthSpan(i: int, j: int)
    requires i <= j
    ensures MonthStartDay(i) + 28 * (j - i) <= MonthStartDay(j) <= MonthStartDay(i) + 31 * (j - i)
    decreases j - i
  {
    if i < j {
      MonthSpan(i, j - 1);
      MonthStep(j - 1);
    }
  }

  /** Leap years among 1 .. y-1 counted by the Gregorian rule (an offset count
      for y <= 0; only differences of it are used). */
  function LeapYearsBefore(y: int): int {
    (y - 1) / 4 - (y - 1) / 100 + (y - 1) / 400
  }

  /** Day number of January 1st of year `y`, by the civil-calendar formula. */
  function YearStartDay(y: int): int {
    365 * (y - 1970) + LeapYearsBefore(y) - LeapYearsBefore(1970)
  }

  /** Days before the first of each month in a common year. */
  const CumulativeDays: seq<int> := [0, 31, 59, 90, 120, 151, 181, 212, 243, 273, 304, 334]

  /** Days of year `y` before the first of month `m`. */
  function DaysBeforeMonth(y: int, m: int): int
    requires 1 <= m <= 12
  {
    CumulativeDays[m - 1] + (if m > 2 && IsLeapYear(y) then 1 else 0)
  }

  /** The civil-calendar formula for the first day of month `k`: the day of
      its year's January 1st plus the days of the months before it. */
  function CivilMonthStartDay(k: int): int {
    YearStartDay(YearOfMonth(k)) + DaysBeforeMonth(YearOfMonth(k), MonthOfYear(k))
  }

  lemma QuotientStep4(y: int)
    ensures y / 4 - (y - 1) / 4 == if y % 4 == 0 then 1 else 0
  {
  }

  lemma QuotientStep100(y: int)
    ensures y / 100 - (y - 1) / 100 == if y % 100 == 0 then 1 else 0
  {
  }

  lemma QuotientStep400(y: int)
    ensures y / 400 - (y - 1) / 400 == if y % 400 == 0 then 1 else 0
  {
  }

  /** Multiples of 400 are multiples of 100, and those are multiples of 4. */
  lemma DivisorChain(y: int)
    ensures y % 400 == 0 ==> y % 100 == 0
    ensures y % 100 == 0 ==> y % 4 == 0
  {
    if y % 400 == 0 {
      var q := y / 400;
      assert y == 400 * q;
      assert y / 100 == 4 * q;
    }
    if y % 100 == 0 {
      var q := y / 100;
      assert y == 100 * q;
      assert y / 4 == 25 * q;
    }
  }

  /** Consecutive years start a year length apart. */
  lemma YearStep(y: int)
    ensures YearStartDay(y + 1) == YearStartDay(y) + DaysInYear(y)
  {
    QuotientStep4(y);
    QuotientStep100(y);
    QuotientStep400(y);
    DivisorChain(y);
  }

  /** Within a year, each month begins one month length after the previous one. */
  lemma DaysBeforeMonthStep(y: int, m: int)
    requires 1 <= m < 12
    ensures DaysBeforeMonth(y, m + 1) == DaysBeforeMonth(y, m) + DaysInMonth(y, m)
  {
  }

  /** December ends the year. */
  lemma DecemberEndsYear(y: int)
    ensures DaysBeforeMonth(y, 12) + DaysInMonth(y, 12) == DaysInYear(y)
  {
  }

  /** The civil formula also steps by one month length. */
  lemma CivilStep(k: int)
    ensures CivilMonthStartDay(k + 1) == CivilMonthStartDay(k) + MonthLength(k)
  {
    var y, m := YearOfMonth(k), MonthOfYear(k);
    if k % 12 == 11 {
      assert YearOfMonth(k + 1) == y + 1 && MonthOfYear(k + 1) == 1;
      YearStep(y);
      DecemberEndsYear(y);
    } else {
      assert YearOfMonth(k + 1) == y && MonthOfYear(k + 1) == m + 1;
      DaysBeforeMonthStep(y, m);
    }
  }

  lemma CivilEpoch()
    ensures CivilMonthStartDay(0) == 0
  {
    assert YearOfMonth(0) == 1970 && MonthOfYear(0) == 1;
  }

  /** Adding up month lengths gives the civil-calendar formula. */
  lemma {:induction false} MonthStartIsCivil(k: int)
    ensures MonthStartDay(k) == CivilMonthStartDay(k)
    decreases if k >= 0 then k else -k
  {
    if k == 0 {
      CivilEpoch();
    } else if k > 0 {
      MonthStartIsCivil(k - 1);
      CivilAgreeStep(k - 1);
    } else {
      MonthStartIsCivil(k + 1);
      CivilAgreeStep(k);
    }
  }

  /** Agreement of the two month starts carries over one month, either way. */
  lemma CivilAgreeStep(k: int)
    ensures MonthStartDay(k) == CivilMonthStartDay(k) <==> MonthStartDay(k + 1) == CivilMonthStartDay(k + 1)
  {
    CivilStep(k);
    MonthStep(k);
  }

  /** The first month index at or after `k` whose successor starts after `day`. */
  function MonthIndexFrom(k: int, day: int): (r: int)
    requires MonthStartDay(k) <= day
    ensures k <= r
    ensures MonthStartDay(r) <= day < MonthStartDay(r + 1)
    decreases day - MonthStartDay(k)
  {
    MonthStep(k);
    if MonthStartDay(k + 1) <= day then MonthIndexFrom(k + 1, day) else k
  }

  /** The index of the month that contains day number `day`. */
  function MonthIndexOfDay(day: int): (r: int)
    ensures MonthStartDay(r) <= day < MonthStartDay(r + 1)
  {
    MonthEstimateBelow(day);
    MonthIndexFrom(MonthEstimate(day), day)
  }

  /** A month index whose month starts no later than `day`: months have at
      most 31 days (and at least 28 before 1970). */
  function MonthEstimate(day: int): int {
    if day >= 0 then day / 31 else day / 28
  }

  lemma MonthEstimateBelow(day: int)
    ensures MonthStartDay(MonthEstimate(day)) <= day
  {
    if day >= 0 {
      MonthSpan(0, day / 31);
    } else {
      MonthSpan(day / 28, 0);
    }
  }

  /** Only one month contains a given day. */
  lemma MonthIndexUnique(day: int, k: int)
    requires MonthStartDay(k) <= day < MonthStartDay(k + 1)
    ensures MonthIndexOfDay(day) == k
  {
    MonthsDisjoint(MonthIndexOfDay(day), k, day);
  }

  lemma MonthsDisjoint(a: int, b: int, day: int)
    requires MonthStartDay(a) <= day < MonthStartDay(a + 1)
    requires MonthStartDay(b) <= day < MonthStartDay(b + 1)
    ensures a == b
  {
    StartsNoLater(a, b, day);
    StartsNoLater(b, a, day);
  }

  /** A month that has started by `day` is not later than a month that is
      still running on `day`. */
  lemma StartsNoLater(a: int, b: int, day: int)
    requires day < MonthStartDay(a + 1)
    requires MonthStartDay(b) <= day
    ensures b <= a
  {
    if a < b {
      MonthSpan(a + 1, b);
    }
  }

  /** The first second of the day containing `t`. */
  function DayStart(t: int): int {
    (t / SecondsPerDay) * SecondsPerDay
  }

  /** The day after the one starting at `d` (adding one day in UTC). */
  function NextDayStart(d: int): int {
    d + SecondsPerDay
  }

  /** The first second of the month containing `t`. */
  function MonthStart(t: int): int {
    MonthStartDay(MonthIndexOfDay(t / SecondsPerDay)) * SecondsPerDay
  }

  /** The first second of the month after the one containing `m`: adding one
      month to a month start. */
  function NextMonthStart(m: int): int {
    MonthStartDay(MonthIndexOfDay(m / SecondsPerDay) + 1) * SecondsPerDay
  }

  lemma DayContains(t: int)
    ensures DayStart(t) <= t < NextDayStart(DayStart(t))
    ensures DayStart(DayStart(t)) == DayStart(t)
  {
  }

  lemma DayUnique(b: int, t: int)
    requires DayStart(b) == b
    requires b <= t < NextDayStart(b)
    ensures DayStart(t) == b
  {
    var q := b / SecondsPerDay;
    assert b == q * SecondsPerDay;
    assert t == q * SecondsPerDay + (t - b) && 0 <= t - b < SecondsPerDay;
  }

  lemma MonthContains(t: int)
    ensures MonthStart(t) <= t < NextMonthStart(MonthStart(t))
    ensures MonthStart(MonthStart(t)) == MonthStart(t)
  {
    var d := t / SecondsPerDay;
    var k := MonthIndexOfDay(d);
    DayOfSecond(t);
    DayOfStart(MonthStartDay(k));
    MonthIndexUnique(MonthStartDay(k), k);
  }

  /** The day number of a second, and the seconds of a day. */
  lemma DayOfSecond(t: int)
    ensures (t / SecondsPerDay) * SecondsPerDay <= t < (t / SecondsPerDay + 1) * SecondsPerDay
  {
  }

  lemma DayOfStart(d: int)
    ensures (d * SecondsPerDay) / SecondsPerDay == d
  {
  }

  lemma MonthUnique(b: int, t: int)
    requires MonthStart(b) == b
    requires b <= t < NextMonthStart(b)
    ensures MonthStart(t) == b
  {
    var k := MonthIndexOfDay(b / SecondsPerDay);
    DayOfStart(MonthStartDay(k));
    MonthIndexUnique(MonthStartDay(k), k);
    DayOfSecond(t);
    MonthIndexUnique(t / SecondsPerDay, k);
  }

  lemma NextMonthIsStart(b: int)
    requires MonthStart(b) == b
    ensures b < NextMonthStart(b)
    ensures MonthStart(NextMonthStart(b)) == NextMonthStart(b)
  {
    MonthContains(b);
    var k := MonthIndexOfDay(b / SecondsPerDay);
    DayOfStart(MonthStartDay(k + 1));
    MonthStep(k + 1);
    MonthIndexUnique(MonthStartDay(k + 1), k + 1);
  }

  /** The resolution a cascade rolls up to. */
  datatype Granularity = Day | Month

  /** The start of the bucket of granularity `g` that contains `t`. */
  function BucketStart(g: Granularity, t: int): int {
    match g
    case Day => DayStart(t)
    case Month => MonthStart(t)
  }

  /** The start of the bucket after the one starting at `b`. */
  function NextBucketStart(g: Granularity, b: int): int {
    match g
    case Day => NextDayStart(b)
    case Month => NextMonthStart(b)
  }

  /** The last second of the bucket starting at `b`. */
  function BucketEnd(g: Granularity, b: int): int {
    NextBucketStart(g, b) - 1
  }

  predicate IsBucketStart(g: Granularity, b: int) {
    BucketStart(g, b) == b
  }

  /** Every timestamp lies in the bucket that starts at its truncation. */
  lemma BucketContains(g: Granularity, t: int)
    ensures IsBucketStart(g, BucketStart(g, t))
    ensures BucketStart(g, t) <= t <= BucketEnd(g, BucketStart(g, t))
  {
    match g
    case Day => DayContains(t);
    case Month => MonthContains(t);
  }

  /** A bucket holds exactly the timestamps that truncate to its start. */
  lemma BucketUnique(g: Granularity, b: int, t: int)
    requires IsBucketStart(g, b)
    requires b <= t <= BucketEnd(g, b)
    ensures BucketStart(g, t) == b
  {
    match g
    case Day => DayUnique(b, t);
    case Month => MonthUnique(b, t);
  }

  /** The bucket after a bucket is itself a bucket, and starts later. */
  lemma NextBucketIsStart(g: Granularity, b: int)
    requires IsBucketStart(g, b)
    ensures b <= BucketEnd(g, b)
    ensures IsBucketStart(g, NextBucketStart(g, b))
  {
    match g
    case Day =>
      DayUnique(b, b);
      assert DayStart(b + SecondsPerDay) == b + SecondsPerDay by {
        assert b == (b / SecondsPerDay) * SecondsPerDay;
        assert b + SecondsPerDay == (b / SecondsPerDay + 1) * SecondsPerDay;
      }
    case Month => NextMonthIsStart(b);
  }

  /** The last second of a bucket still belongs to it and the next second does
      not: it starts the following bucket. */
  lemma {:induction false} BucketBoundary(g: Granularity, b: int)
    requires IsBucketStart(g, b)
    ensures BucketStart(g, BucketEnd(g, b)) == b
    ensures BucketStart(g, BucketEnd(g, b) + 1) == NextBucketStart(g, b) != b
  {
    NextBucketIsStart(g, b);
    BucketUnique(g, b, BucketEnd(g, b));
  }

  /** Two different buckets do not overlap. */
  lemma BucketsDisjoint(g: Granularity, b1: int, b2: int)
    requires IsBucketStart(g, b1) && IsBucketStart(g, b2) && b1 < b2
    ensures BucketEnd(g, b1) < b2
  {
    if b2 <= BucketEnd(g, b1) {
      BucketUnique(g, b1, b2);
    }
  }

  /** Anchors against the real UTC calendar: 2000-01-01 is day 10957,
      2024-02-01 is day 19754, 2024-03-01 (after a leap February) is day
      19783 and 2024-04-01 is day 19814. */
  lemma CalendarAnchors()
    ensures YearStartDay(2000) == 10957
    ensures CivilMonthStartDay(649) == 19754
    ensures CivilMonthStartDay(650) == 19783
    ensures CivilMonthStartDay(651) == 19814
  {
    assert LeapYearsBefore(1970) == 492 - 19 + 4;
    assert LeapYearsBefore(2000) == 499 - 19 + 4;
    assert LeapYearsBefore(2024) == 505 - 20 + 5;
    assert YearStartDay(2024) == 19723;
    assert IsLeapYear(2024);
    assert YearOfMonth(649) == 2024 && MonthOfYear(649) == 2;
    assert YearOfMonth(650) == 2024 && MonthOfYear(650) == 3;
    assert YearOfMonth(651) == 2024 && MonthOfYear(651) == 4;
  }

  /** A second between two consecutive civil month starts truncates to the
      first of them. */
  lemma MonthOfCivil(k: int, t: int)
    requires CivilMonthStartDay(k) * SecondsPerDay <= t < CivilMonthStartDay(k + 1) * SecondsPerDay
    ensures MonthStart(t) == CivilMonthStartDay(k) * SecondsPerDay
  {
    MonthStartIsCivil(k);
    MonthStartIsCivil(k + 1);
    var d := t / SecondsPerDay;
    assert MonthStartDay(k) <= d < MonthStartDay(k + 1);
    MonthIndexUnique(d, k);
  }

  /** January 1970 is days 0 .. 30. */
  lemma FirstMonthDays()
    ensures MonthStartDay(0) == 0 && MonthStartDay(1) == 31
  {
    assert MonthLength(0) == 31 by {
      assert YearOfMonth(0) == 1970 && MonthOfYear(0) == 1;
      assert DaysInMonth(1970, 1) == MonthLengths[0];
    }
    MonthStep(0);
  }

  /** Every second of January 1970 truncates to 0, and the month after it
      starts at 2678400 (31 days). */
  lemma FirstMonth(t: int)
    requires 0 <= t < 31 * SecondsPerDay
    ensures MonthStart(t) == 0 && NextMonthStart(MonthStart(t)) == 31 * SecondsPerDay
  {
    FirstMonthDays();
    MonthIndexUnique(t / SecondsPerDay, 0);
    assert MonthStart(t) == 0;
    MonthIndexUnique(0 / SecondsPerDay, 0);
  }

  /** 23:59:59 on 1970-01-01 and the midnight after it fall in different days. */
  lemma DayBoundaryExample()
    ensures BucketStart(Day, 86399) == 0 && BucketStart(Day, 86400) == 86400
  {
  }

  /** 2024-02-29T23:59:59Z belongs to February 2024; the next second,
      2024-03-01T00:00:00Z, starts March 2024. */
  lemma MonthBoundaryExample(t: int)
    requires t == 1709251200
    ensures BucketStart(Month, t - 1) == 1706745600
    ensures BucketStart(Month, t) == t
  {
    CalendarAnchors();
    MonthOfCivil(649, t - 1);
    MonthOfCivil(650, t);
  }
}
