/**
 UTC calendar dates as time values, following section 21.4.1 of ECMA-262: a Date holds the
 number of milliseconds since 1970-01-01, and years, months and days are read back from it.

 Months carry one running index, 12 * year + month with months numbered from 0. The reference
 side counts the proleptic Gregorian calendar month by month; the day-number formula of the
 standard is proved to count the same days.
 */
module Calendar {

  const MS_PER_SECOND := 1000
  const MS_PER_MINUTE := 60 * MS_PER_SECOND
  const MS_PER_HOUR := 60 * MS_PER_MINUTE
  const MS_PER_DAY := 24 * MS_PER_HOUR

  predicate LeapYear(year: int) {
    year % 4 == 0 && (year % 100 != 0 || year % 400 == 0)
  }

  function MonthLength(index: int): (n: nat)
    ensures 28 <= n <= 31
  {
    var month := index % 12;
    if month == 1 then (if LeapYear(index / 12) then 29 else 28)
    else if month == 3 || month == 5 || month == 8 || month == 10 then 30
    else 31
  }

  const EPOCH := 12 * 1970

  /** The day number of the first day of a month, counted from 1970-01-01. */
  function MonthFirst(index: int): int
    decreases if index >= EPOCH then index - EPOCH else EPOCH - index
  {
    if index == EPOCH then 0
    else if index > EPOCH then MonthFirst(index - 1) + MonthLength(index - 1)
    else MonthFirst(index + 1) - MonthLength(index)
  }

  lemma NextMonthFirst(index: int)
    ensures MonthFirst(index + 1) == MonthFirst(index) + MonthLength(index)
  {
  }

  lemma {:induction false} LaterMonth(a: int, b: int)
    requires a < b
    ensures MonthFirst(b) >= MonthFirst(a) + MonthLength(a) + 28 * (b - a - 1)
    decreases b - a
  {
    NextMonthFirst(b - 1);
    if a < b - 1 {
      LaterMonth(a, b - 1);
    }
  }

  // ----- Reading a day number back

  function SearchMonth(d: int, index: int): (r: int)
    requires MonthFirst(index) <= d
    ensures MonthFirst(r) <= d < MonthFirst(r + 1)
    decreases d - MonthFirst(index)
  {
    NextMonthFirst(index);
    if d < MonthFirst(index + 1) then index else SearchMonth(d, index + 1)
  }

  /** The month that day `d` lies in. */
  function MonthOf(d: int): (index: int)
    ensures MonthFirst(index) <= d < MonthFirst(index + 1)
  {
    if d >= 0 then SearchMonth(d, EPOCH)
    else
      LaterMonth(EPOCH + d, EPOCH);
      SearchMonth(d, EPOCH + d)
  }

  function DateOf(d: int): (day: int)
    ensures 1 <= day <= MonthLength(MonthOf(d))
  {
    NextMonthFirst(MonthOf(d));
    d - MonthFirst(MonthOf(d)) + 1
  }

  /** MakeDay(year, month, day) with 12 * year + month == index: days outside the month simply count on. */
  function DayNumber(index: int, day: int): int {
    MonthFirst(index) + day - 1
  }

  /** Writing a day number out as a civil date and counting it again. */
  lemma CountingBack(d: int)
    ensures 1 <= DateOf(d) <= MonthLength(MonthOf(d))
    ensures DayNumber(MonthOf(d), DateOf(d)) == d
  {
  }

  lemma MonthIsUnique(d: int, a: int, b: int)
    requires MonthFirst(a) <= d < MonthFirst(a + 1)
    requires MonthFirst(b) <= d < MonthFirst(b + 1)
    ensures a == b
  {
    NextMonthFirst(a);
    NextMonthFirst(b);
    if a < b {
      LaterMonth(a, b);
    } else if b < a {
      LaterMonth(b, a);
    }
  }

  /** Counting a civil date and writing the day number out again. */
  lemma ReadingBack(index: int, day: int)
    requires 1 <= day <= MonthLength(index)
    ensures MonthOf(DayNumber(index, day)) == index
    ensures DateOf(DayNumber(index, day)) == day
  {
    NextMonthFirst(index);
    MonthIsUnique(DayNumber(index, day), index, MonthOf(DayNumber(index, day)));
  }

  // ----- The day-number formula of section 21.4.1.3

  function DayFromYear(y: int): int {
    365 * (y - 1970) + (y - 1969) / 4 - (y - 1901) / 100 + (y - 1601) / 400
  }

  lemma MultipleIsFar(d: int, k: int)
    requires k > 0
    ensures d >= 1 ==> d * k >= k
    ensures d <= -1 ==> d * k <= -k
  {
  }

  lemma QuotientIs(x: int, k: int, q: int, r: int)
    requires k > 0 && x == q * k + r && 0 <= r < k
    ensures x / k == q
  {
    MultipleIsFar(x / k - q, k);
    assert (x / k - q) * k == r - x % k;
  }

  /** Counting the multiples of `k`: the count moves up exactly at a multiple. */
  lemma CountStep(y: int, k: int, c: int)
    requires k > 0
    ensures (y - c * k) / k == (y - 1 - c * k) / k + if y % k == 0 then 1 else 0
  {
    var q, r := y / k, y % k;
    assert y - c * k == (q - c) * k + r;
    QuotientIs(y - c * k, k, q - c, r);
    if r == 0 {
      assert y - 1 - c * k == (q - c - 1) * k + (k - 1);
      QuotientIs(y - 1 - c * k, k, q - c - 1, k - 1);
    } else {
      QuotientIs(y - 1 - c * k, k, q - c, r - 1);
    }
  }

  lemma LeapCount(y: int)
    ensures (if LeapYear(y) then 1 else 0)
            == (if y % 4 == 0 then 1 else 0) - (if y % 100 == 0 then 1 else 0) + (if y % 400 == 0 then 1 else 0)
  {
    var q := y / 100;
    assert y % 400 == 0 ==> y % 100 == 0;
    assert y % 100 == 0 ==> y == 4 * (25 * q) && y % 4 == 0;
  }

  lemma FormulaStep(y: int)
    ensures DayFromYear(y + 1) == DayFromYear(y) + 365 + if LeapYear(y) then 1 else 0
  {
    CountStep(y, 4, 492);
    CountStep(y, 100, 19);
    CountStep(y, 400, 4);
    LeapCount(y);
  }

  lemma MonthInYear(y: int, m: int)
    requires 0 <= m < 12
    ensures (12 * y + m) / 12 == y && (12 * y + m) % 12 == m
  {
  }

  lemma MonthStep(y: int, m: int)
    requires 0 <= m < 12
    ensures MonthFirst(12 * y + m + 1) == MonthFirst(12 * y + m)
              + if m == 1 then (if LeapYear(y) then 29 else 28) else if m == 3 || m == 5 || m == 8 || m == 10 then 30
                else 31
  {
    MonthInYear(y, m);
    NextMonthFirst(12 * y + m);
  }

  lemma FirstHalf(y: int)
    ensures MonthFirst(12 * y + 6) == MonthFirst(12 * y) + 181 + if LeapYear(y) then 1 else 0
  {
    MonthStep(y, 0);
    MonthStep(y, 1);
    MonthStep(y, 2);
    MonthStep(y, 3);
    MonthStep(y, 4);
    MonthStep(y, 5);
  }

  lemma SecondHalf(y: int)
    ensures MonthFirst(12 * y + 12) == MonthFirst(12 * y + 6) + 184
  {
    MonthStep(y, 6);
    MonthStep(y, 7);
    MonthStep(y, 8);
    MonthStep(y, 9);
    MonthStep(y, 10);
    MonthStep(y, 11);
  }

  lemma YearLength(y: int)
    ensures MonthFirst(12 * y + 12) == MonthFirst(12 * y) + 365 + if LeapYear(y) then 1 else 0
  {
    FirstHalf(y);
    SecondHalf(y);
  }

  /** The formula counts the same days as the months do. */
  lemma {:induction false} FormulaCountsMonths(y: int)
    ensures DayFromYear(y) == MonthFirst(12 * y)
    decreases if y >= 1970 then y - 1970 else 1970 - y
  {
    if y > 1970 {
      FormulaCountsMonths(y - 1);
      FormulaStep(y - 1);
      YearLength(y - 1);
    } else if y < 1970 {
      FormulaCountsMonths(y + 1);
      FormulaStep(y);
      YearLength(y);
    }
  }

  // ----- Time values

  function Day(t: int): int { t / MS_PER_DAY }
  function TimeWithinDay(t: int): int { t % MS_PER_DAY }
  function Hours(t: int): int { t / MS_PER_HOUR % 24 }
  function Minutes(t: int): int { t / MS_PER_MINUTE % 60 }
  function Seconds(t: int): int { t / MS_PER_SECOND % 60 }
  function Milliseconds(t: int): int { t % MS_PER_SECOND }

  function MakeTime(hours: int, minutes: int, seconds: int, ms: int): int {
    hours * MS_PER_HOUR + minutes * MS_PER_MINUTE + seconds * MS_PER_SECOND + ms
  }

  function MakeDate(day: int, time: int): int {
    day * MS_PER_DAY + time
  }

  lemma ClockParts(t: int)
    ensures t == MakeDate(Day(t), TimeWithinDay(t))
    ensures t == MakeDate(Day(t), MakeTime(Hours(t), Minutes(t), Seconds(t), Milliseconds(t)))
  {
    var s := t / 1000;
    var m := s / 60;
    var h := m / 60;
    assert t / 60000 == m && t / 3600000 == h && t / 86400000 == h / 24;
  }

  lemma DateParts(day: int, time: int)
    requires 0 <= time < MS_PER_DAY
    ensures Day(MakeDate(day, time)) == day && TimeWithinDay(MakeDate(day, time)) == time
  {
  }
}
