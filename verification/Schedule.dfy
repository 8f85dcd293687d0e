/**
 Interval schedules (src/elora/triggers/computeNextFireAt.ts): a duration is added to a date by
 moving a mutable Date through its setters, one component at a time.

 The closed form is calendar arithmetic in one go (section 4.4.3.2 of ISO 8601:2004). The two
 agree on every start date and every duration, with one exception that the module states
 exactly: `Date.UTC` reads the years 0 to 99 as 1900 to 1999, so a shift that lands in February
 of the leap year 0 sees 28 days.
 */
module Schedule {
  import opened Calendar

  /** PnYnMnDTnHnMnS. Only seconds may carry a fraction. */
  datatype Duration = Duration(years: nat, months: nat, days: nat, hours: nat, minutes: nat, seconds: real)

  predicate Wellformed(d: Duration) {
    d.seconds >= 0.0
  }

  function Min(a: int, b: int): int {
    if a <= b then a else b
  }

  // ----- Closed form

  /** Day `day` of month `index`, at `clock` milliseconds into the day. */
  function Place(index: int, day: int, clock: int): int {
    MakeDate(DayNumber(index, day), clock)
  }

  /** The same, with the day cut to the length of the month. */
  function Cut(index: int, day: int, clock: int): int {
    Place(index, Min(day, MonthLength(index)), clock)
  }

  function MonthIndex(t: int): int {
    MonthOf(Day(t))
  }

  function Date(t: int): int {
    DateOf(Day(t))
  }

  /** `t` moved by `delta` months: the month index moves, the day is cut to the new month, the clock stays. */
  function ShiftMonths(t: int, delta: int): int {
    Cut(MonthIndex(t) + delta, Date(t), TimeWithinDay(t))
  }

  function Months(d: Duration): nat {
    12 * d.years + d.months
  }

  /** The part of a duration that is a fixed number of milliseconds: a fraction of a second counts for nothing. */
  function Elapsed(d: Duration): nat
    requires Wellformed(d)
  {
    d.days * MS_PER_DAY + d.hours * MS_PER_HOUR + d.minutes * MS_PER_MINUTE + d.seconds.Floor * MS_PER_SECOND
  }

  /** A shift from a day after the 28th into February of year 0. */
  predicate TwoDigitTrap(t: int, delta: int) {
    delta != 0 && MonthIndex(t) + delta == 1 && Date(t) >= 29
  }

  /** The date `d` after `t`: the closed form, one day less exactly in the two-digit trap. */
  function Advance(t: int, d: Duration): int
    requires Wellformed(d)
  {
    ShiftMonths(t, Months(d)) + Elapsed(d) - if TwoDigitTrap(t, Months(d)) then MS_PER_DAY else 0
  }

  // ----- The mutable date

  class UtcDate {
    var time: int

    constructor (t: int)
      ensures time == t
    {
      time := t;
    }

    function GetFullYear(): int reads this { MonthIndex(time) / 12 }
    function GetMonth(): int reads this { MonthIndex(time) % 12 }
    function GetDate(): int reads this { Date(time) }

    method SetDate(day: int)
      modifies this
      ensures time == Place(MonthIndex(old(time)), day, TimeWithinDay(old(time)))
    {
      time := Place(12 * GetFullYear() + GetMonth(), day, TimeWithinDay(time));
    }

    method SetFullYear(year: int)
      modifies this
      ensures time == Place(12 * year + old(GetMonth()), Date(old(time)), TimeWithinDay(old(time)))
    {
      time := Place(12 * year + GetMonth(), GetDate(), TimeWithinDay(time));
    }

    /** Months outside 0..11 carry into the year. */
    method SetMonth(month: int)
      modifies this
      ensures time == Place(12 * old(GetFullYear()) + month, Date(old(time)), TimeWithinDay(old(time)))
    {
      time := Place(12 * GetFullYear() + month, GetDate(), TimeWithinDay(time));
    }

    method SetHours(hours: int)
      modifies this
      ensures time == old(time) + (hours - Hours(old(time))) * MS_PER_HOUR
    {
      ClockParts(time);
      time := MakeDate(Day(time), MakeTime(hours, Minutes(time), Seconds(time), Milliseconds(time)));
    }

    method SetMinutes(minutes: int)
      modifies this
      ensures time == old(time) + (minutes - Minutes(old(time))) * MS_PER_MINUTE
    {
      ClockParts(time);
      time := MakeDate(Day(time), MakeTime(Hours(time), minutes, Seconds(time), Milliseconds(time)));
    }

    /** MakeTime truncates its arguments, so a fractional number of seconds loses its fraction. */
    method SetSeconds(seconds: real)
      requires seconds >= 0.0
      modifies this
      ensures time == old(time) + (seconds.Floor - Seconds(old(time))) * MS_PER_SECOND
    {
      ClockParts(time);
      time := MakeDate(Day(time), MakeTime(Hours(time), Minutes(time), seconds.Floor, Milliseconds(time)));
    }
  }

  // ----- Month lengths as the code sees them

  /** Date.UTC(year, month, day), with its reading of two-digit years. */
  function Utc(year: int, month: int, day: int): int {
    Place(12 * (if 0 <= year <= 99 then 1900 + year else year) + month, day, 0)
  }

  function LastDayOfUtcMonth(year: int, month: int): int {
    Date(Utc(year, month + 1, 0))
  }

  function SeenLength(index: int): nat {
    if index == 1 then 28 else MonthLength(index)
  }

  lemma DayZeroIsLastDay(index: int)
    ensures Date(Place(index + 1, 0, 0)) == MonthLength(index)
  {
    NextMonthFirst(index);
    assert DayNumber(index + 1, 0) == DayNumber(index, MonthLength(index));
    ReadingBack(index, MonthLength(index));
    DateParts(DayNumber(index + 1, 0), 0);
  }

  lemma TwoDigitMonth(year: int, month: int)
    requires 0 <= year <= 99 && 0 <= month < 12
    ensures MonthLength(12 * (1900 + year) + month) == SeenLength(12 * year + month)
  {
    MonthInYear(year, month);
    MonthInYear(1900 + year, month);
    assert LeapYear(1900 + year) == (LeapYear(year) && year != 0);
  }

  /** Day 0 of the next month is the last day of this one; the two-digit rule shows only in February of year 0. */
  lemma LastDayIsSeenLength(year: int, month: int)
    requires 0 <= month < 12
    ensures LastDayOfUtcMonth(year, month) == SeenLength(12 * year + month)
  {
    if 0 <= year <= 99 {
      DayZeroIsLastDay(12 * (1900 + year) + month);
      TwoDigitMonth(year, month);
    } else {
      DayZeroIsLastDay(12 * year + month);
    }
  }

  // ----- Adding a duration, setter by setter

  /** `t` is the given day at `clock` milliseconds into it. */
  ghost predicate IsAt(t: int, index: int, day: int, clock: int) {
    1 <= day <= MonthLength(index) && 0 <= clock < MS_PER_DAY && t == Place(index, day, clock)
  }

  lemma FieldsOf(t: int, index: int, day: int, clock: int)
    requires IsAt(t, index, day, clock)
    ensures MonthIndex(t) == index && Date(t) == day && TimeWithinDay(t) == clock
  {
    ReadingBack(index, day);
    DateParts(DayNumber(index, day), clock);
  }

  lemma EveryTimeIsAt(t: int)
    ensures IsAt(t, MonthIndex(t), Date(t), TimeWithinDay(t))
  {
    CountingBack(Day(t));
    ClockParts(t);
  }

  method AddYears(next: UtcDate, years: nat, ghost index: int, ghost clock: int)
    requires IsAt(next.time, index, 1, clock)
    modifies next
    ensures IsAt(next.time, index + 12 * years, 1, clock)
  {
    FieldsOf(next.time, index, 1, clock);
    assert 12 * (next.GetFullYear() + years) + next.GetMonth() == index + 12 * years;
    next.SetFullYear(next.GetFullYear() + years);
  }

  method AddMonths(next: UtcDate, months: nat, ghost index: int, ghost clock: int)
    requires IsAt(next.time, index, 1, clock)
    modifies next
    ensures IsAt(next.time, index + months, 1, clock)
  {
    FieldsOf(next.time, index, 1, clock);
    assert 12 * next.GetFullYear() + (next.GetMonth() + months) == index + months;
    next.SetMonth(next.GetMonth() + months);
  }

  method DayInMonth(next: UtcDate, day: int, ghost index: int, ghost clock: int) returns (target: int)
    requires IsAt(next.time, index, 1, clock)
    ensures target == Min(day, SeenLength(index))
  {
    FieldsOf(next.time, index, 1, clock);
    LastDayIsSeenLength(next.GetFullYear(), next.GetMonth());
    target := Min(day, LastDayOfUtcMonth(next.GetFullYear(), next.GetMonth()));
  }

  /** Where the setters land: the day cut to the length the code sees. */
  function CutSeen(index: int, day: int, clock: int): int {
    Place(index, Min(day, SeenLength(index)), clock)
  }

  method ShiftYearsAndMonths(next: UtcDate, years: nat, months: nat, ghost index: int, ghost day: int, ghost clock: int)
    requires IsAt(next.time, index, day, clock)
    modifies next
    ensures next.time == CutSeen(index + 12 * years + months, day, clock)
  {
    FieldsOf(next.time, index, day, clock);
    var originalDay := next.GetDate();
    next.SetDate(1);
    AddYears(next, years, index, clock);
    AddMonths(next, months, index + 12 * years, clock);
    var target := DayInMonth(next, originalDay, index + 12 * years + months, clock);
    FieldsOf(next.time, index + 12 * years + months, 1, clock);
    next.SetDate(target);
  }

  /** `t` moved by `delta` months as the setters do it. */
  function ShiftSeen(t: int, delta: int): int {
    if delta == 0 then t else CutSeen(MonthIndex(t) + delta, Date(t), TimeWithinDay(t))
  }

  method AddYearsAndMonths(next: UtcDate, d: Duration)
    modifies next
    ensures next.time == ShiftSeen(old(next.time), Months(d))
  {
    ghost var t := next.time;
    if d.years != 0 || d.months != 0 {
      EveryTimeIsAt(t);
      ShiftYearsAndMonths(next, d.years, d.months, MonthIndex(t), Date(t), TimeWithinDay(t));
      assert MonthIndex(t) + 12 * d.years + d.months == MonthIndex(t) + Months(d);
    }
  }

  lemma PlaceLater(index: int, day: int, days: int, clock: int)
    ensures Place(index, day + days, clock) == Place(index, day, clock) + days * MS_PER_DAY
  {
  }

  method AddDays(next: UtcDate, days: nat)
    modifies next
    ensures next.time == old(next.time) + days * MS_PER_DAY
  {
    EveryTimeIsAt(next.time);
    PlaceLater(MonthIndex(next.time), next.GetDate(), days, TimeWithinDay(next.time));
    next.SetDate(next.GetDate() + days);
  }

  method AddClock(next: UtcDate, hours: nat, minutes: nat, seconds: real)
    requires seconds >= 0.0
    modifies next
    ensures next.time == old(next.time) + hours * MS_PER_HOUR + minutes * MS_PER_MINUTE + seconds.Floor * MS_PER_SECOND
  {
    var h := Hours(next.time) + hours;
    next.SetHours(h);
    var m := Minutes(next.time) + minutes;
    next.SetMinutes(m);
    var s := Seconds(next.time);
    assert (s as real + seconds).Floor == s + seconds.Floor;
    next.SetSeconds(s as real + seconds);
  }

  method AddIso8601Duration(from: int, d: Duration) returns (next: UtcDate)
    requires Wellformed(d)
    ensures fresh(next)
    ensures next.time == Advance(from, d)
  {
    next := new UtcDate(from);
    AddYearsAndMonths(next, d);
    AddDays(next, d.days);
    AddClock(next, d.hours, d.minutes, d.seconds);
    AdvanceBySetters(from, d);
  }

  lemma CutSeenIsCut(index: int, day: int, clock: int)
    ensures CutSeen(index, day, clock) == Cut(index, day, clock) - if index == 1 && day >= 29 then MS_PER_DAY else 0
  {
    assert LeapYear(0) && MonthLength(1) == 29;
  }

  lemma AdvanceBySetters(t: int, d: Duration)
    requires Wellformed(d)
    ensures Advance(t, d) == ShiftSeen(t, Months(d)) + Elapsed(d)
  {
    EveryTimeIsAt(t);
    CutSeenIsCut(MonthIndex(t) + Months(d), Date(t), TimeWithinDay(t));
  }

  // ----- Later, and runs of fires

  lemma LaterPlace(a: int, b: int, dayA: int, dayB: int, clock: int)
    requires a < b && dayA <= MonthLength(a) && dayB >= 1
    ensures Place(a, dayA, clock) < Place(b, dayB, clock)
  {
    LaterMonth(a, b);
  }

  lemma ShiftIsLater(t: int, delta: int)
    requires delta > 0
    ensures ShiftSeen(t, delta) > t
  {
    var index := MonthIndex(t) + delta;
    EveryTimeIsAt(t);
    LaterPlace(MonthIndex(t), index, Date(t), Min(Date(t), SeenLength(index)), TimeWithinDay(t));
  }

  /** An interval moves time forward exactly when some whole component of it is positive. */
  lemma LaterIffWholeComponent(t: int, d: Duration)
    requires Wellformed(d)
    ensures Advance(t, d) >= t
    ensures Advance(t, d) > t <==>
            d.years > 0 || d.months > 0 || d.days > 0 || d.hours > 0 || d.minutes > 0 || d.seconds >= 1.0
  {
    AdvanceBySetters(t, d);
    var delta, elapsed := Months(d), Elapsed(d);
    if delta > 0 {
      ShiftIsLater(t, delta);
    }
    assert delta > 0 <==> d.years > 0 || d.months > 0;
    ElapsedPositive(d);
  }

  lemma ElapsedPositive(d: Duration)
    requires Wellformed(d)
    ensures Elapsed(d) > 0 <==> d.days > 0 || d.hours > 0 || d.minutes > 0 || d.seconds >= 1.0
  {
    assert d.seconds >= 1.0 <==> d.seconds.Floor >= 1;
  }

  /** The smallest of `day` and the lengths of the months reached by 1 to `n` steps of `delta` months. */
  function Kept(day: int, index: int, delta: int, n: nat): int {
    if n == 0 then day else Min(Kept(day, index, delta, n - 1), SeenLength(index + n * delta))
  }

  lemma LandedFields(s: int, index: int, day: int, clock: int)
    requires 1 <= day && 0 <= clock < MS_PER_DAY && s == CutSeen(index, day, clock)
    ensures MonthIndex(s) == index && Date(s) == Min(day, SeenLength(index)) && TimeWithinDay(s) == clock
  {
    FieldsOf(s, index, Min(day, SeenLength(index)), clock);
  }

  lemma MonthlyStep(t: int, d: Duration)
    requires Wellformed(d) && Months(d) > 0 && Elapsed(d) == 0
    ensures MonthIndex(Advance(t, d)) == MonthIndex(t) + Months(d)
    ensures Date(Advance(t, d)) == Min(Date(t), SeenLength(MonthIndex(t) + Months(d)))
    ensures TimeWithinDay(Advance(t, d)) == TimeWithinDay(t)
  {
    AdvanceBySetters(t, d);
    assert Advance(t, d) == CutSeen(MonthIndex(t) + Months(d), Date(t), TimeWithinDay(t));
    LandedFields(Advance(t, d), MonthIndex(t) + Months(d), Date(t), TimeWithinDay(t));
  }

  /** A run of fires: each date is the one before it, advanced. */
  ghost predicate FireRun(ts: seq<int>, d: Duration)
    requires Wellformed(d)
  {
    forall k :: 0 < k < |ts| ==> ts[k] == Advance(ts[k - 1], d)
  }

  /** Month index and date move together, step by step. */
  ghost predicate MonthSteps(ts: seq<int>, delta: int) {
    forall k :: 0 < k < |ts| ==>
      && MonthIndex(ts[k]) == MonthIndex(ts[k - 1]) + delta
      && Date(ts[k]) == Min(Date(ts[k - 1]), SeenLength(MonthIndex(ts[k - 1]) + delta))
      && TimeWithinDay(ts[k]) == TimeWithinDay(ts[k - 1])
  }

  lemma FiresAreMonthSteps(ts: seq<int>, d: Duration)
    requires Wellformed(d) && Months(d) > 0 && Elapsed(d) == 0 && FireRun(ts, d)
    ensures MonthSteps(ts, Months(d))
  {
    forall k | 0 < k < |ts|
      ensures MonthIndex(ts[k]) == MonthIndex(ts[k - 1]) + Months(d)
      ensures Date(ts[k]) == Min(Date(ts[k - 1]), SeenLength(MonthIndex(ts[k - 1]) + Months(d)))
      ensures TimeWithinDay(ts[k]) == TimeWithinDay(ts[k - 1])
    {
      MonthlyStep(ts[k - 1], d);
    }
  }

  lemma {:induction false} StepsAddUp(ts: seq<int>, delta: int, n: nat)
    requires n < |ts| && MonthSteps(ts, delta)
    ensures MonthIndex(ts[n]) == MonthIndex(ts[0]) + n * delta
    ensures Date(ts[n]) == Kept(Date(ts[0]), MonthIndex(ts[0]), delta, n)
    ensures TimeWithinDay(ts[n]) == TimeWithinDay(ts[0])
  {
    if n > 0 {
      StepsAddUp(ts, delta, n - 1);
      assert (n - 1) * delta + delta == n * delta;
    }
  }

  /** A month/year interval steps through equal month counts; a day once cut never comes back. */
  lemma MonthlyFires(ts: seq<int>, d: Duration, n: nat)
    requires Wellformed(d) && Months(d) > 0 && Elapsed(d) == 0
    requires n < |ts| && FireRun(ts, d)
    ensures MonthIndex(ts[n]) == MonthIndex(ts[0]) + n * Months(d)
    ensures Date(ts[n]) == Kept(Date(ts[0]), MonthIndex(ts[0]), Months(d), n)
    ensures TimeWithinDay(ts[n]) == TimeWithinDay(ts[0])
  {
    FiresAreMonthSteps(ts, d);
    StepsAddUp(ts, Months(d), n);
  }

  /** `Kept` is the minimum it is named for. */
  lemma {:induction false} KeptIsMinimum(day: int, index: int, delta: int, n: nat)
    ensures Kept(day, index, delta, n) <= day
    ensures forall k :: 1 <= k <= n ==> Kept(day, index, delta, n) <= SeenLength(index + k * delta)
    ensures Kept(day, index, delta, n) == day || exists k ::
      1 <= k <= n && Kept(day, index, delta, n) == SeenLength(index + k * delta)
  {
    if n > 0 {
      KeptIsMinimum(day, index, delta, n - 1);
    }
  }
}
