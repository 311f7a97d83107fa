/**
 Calendar dates: the arithmetic that billing cycles and repayment schedules rely on. Years are unbounded.
 */
module Calendar {

  datatype Date = Date(year: int, month: int, day: int)

  predicate IsLeap(year: int) {
    year % 4 == 0 && (year % 100 != 0 || year % 400 == 0)
  }

  /** `monthrange` */
  function DaysIn(year: int, month: int): (n: int)
    ensures 28 <= n <= 31
  {
    if month == 2 then (if IsLeap(year) then 29 else 28)
    else if month in {4, 6, 9, 11} then 30
    else 31
  }

  predicate Valid(d: Date) {
    1 <= d.month <= 12 && 1 <= d.day <= DaysIn(d.year, d.month)
  }

  type Day = d: Date | Valid(d) witness Date(1970, 1, 1)

  /** Dates compare by year, month and day. */
  predicate Before(a: Day, b: Day) {
    || a.year < b.year
    || (a.year == b.year && a.month < b.month)
    || (a.year == b.year && a.month == b.month && a.day < b.day)
  }

  predicate NotAfter(a: Day, b: Day) {
    a == b || Before(a, b)
  }

  /** Months counted without a break. */
  function MonthIndex(d: Day): int {
    12 * d.year + d.month - 1
  }

  lemma BeforeByMonth(a: Day, b: Day)
    ensures MonthIndex(a) < MonthIndex(b) ==> Before(a, b)
    ensures MonthIndex(a) == MonthIndex(b) ==> a.year == b.year && a.month == b.month && (Before(a, b) <==> a.day < b.day)
    ensures NotAfter(a, b) ==> MonthIndex(a) <= MonthIndex(b)
  {
  }

  // ----- days

  function NextDay(d: Day): Day {
    if d.day < DaysIn(d.year, d.month) then d.(day := d.day + 1)
    else if d.month < 12 then Date(d.year, d.month + 1, 1)
    else Date(d.year + 1, 1, 1)
  }

  /** `date - timedelta(days=1)` */
  function DayBefore(d: Day): Day {
    if d.day > 1 then d.(day := d.day - 1)
    else if d.month > 1 then Date(d.year, d.month - 1, DaysIn(d.year, d.month - 1))
    else Date(d.year - 1, 12, 31)
  }

  lemma DayBeforeIsInverse(d: Day)
    ensures NextDay(DayBefore(d)) == d && DayBefore(NextDay(d)) == d
    ensures Before(d, NextDay(d)) && Before(DayBefore(d), d)
  {
  }

  /** No date lies between a date and the next one. */
  lemma NextDayIsNext(d: Day, e: Day)
    ensures Before(d, e) <==> NotAfter(NextDay(d), e)
  {
  }

  /** `date + timedelta(days=n)` */
  function AddDays(d: Day, n: nat): Day {
    if n == 0 then d else NextDay(AddDays(d, n - 1))
  }

  lemma {:induction false} AddDaysLater(d: Day, n: nat)
    ensures n > 0 ==> Before(d, AddDays(d, n))
  {
    if n > 0 {
      AddDaysLater(d, n - 1);
      var e := AddDays(d, n - 1);
      DayBeforeIsInverse(e);
    }
  }

  // ----- days counted without a break

  /** The days of the months before this one. */
  function DaysBefore(year: int, month: int): int
    requires 1 <= month <= 12
    decreases month
  {
    if month == 1 then 0 else DaysBefore(year, month - 1) + DaysIn(year, month - 1)
  }

  /** 400 years of the Gregorian calendar have 97 leap days. */
  function DaysBeforeYear(year: int): int {
    365 * (year - 1) + (year - 1) / 4 - (year - 1) / 100 + (year - 1) / 400
  }

  function DayNumber(d: Day): int {
    DaysBeforeYear(d.year) + DaysBefore(d.year, d.month) + d.day
  }

  lemma LeapDays(year: int)
    ensures year / 4 - (year - 1) / 4 == (if year % 4 == 0 then 1 else 0)
    ensures year / 100 - (year - 1) / 100 == (if year % 100 == 0 then 1 else 0)
    ensures year / 400 - (year - 1) / 400 == (if year % 400 == 0 then 1 else 0)
    ensures year % 400 == 0 ==> year % 100 == 0
    ensures year % 100 == 0 ==> year % 4 == 0
  {
  }

  lemma YearLength(year: int)
    ensures DaysBeforeYear(year + 1) == DaysBeforeYear(year) + DaysBefore(year, 12) + 31
  {
    LeapDays(year);
    assert DaysBefore(year, 4) == DaysIn(year, 2) + 62;
    assert DaysBefore(year, 7) == DaysBefore(year, 4) + 91;
    assert DaysBefore(year, 10) == DaysBefore(year, 7) + 92;
    assert DaysBefore(year, 12) == DaysBefore(year, 10) + 61;
  }

  lemma NextDayNumber(d: Day)
    ensures DayNumber(NextDay(d)) == DayNumber(d) + 1
  {
    YearLength(d.year);
    hide DaysBeforeYear;
  }

  /** `n` days later is exactly that, over months of any length and leap years. */
  lemma {:induction false} AddDaysCounts(d: Day, n: nat)
    ensures DayNumber(AddDays(d, n)) == DayNumber(d) + n
  {
    if n > 0 {
      AddDaysCounts(d, n - 1);
      NextDayNumber(AddDays(d, n - 1));
    }
  }

  // ----- billing cycles

  datatype Cycle = Cycle(start: Day, end: Day)

  function FirstOfMonth(d: Day): Day {
    d.(day := 1)
  }

  /** `_previous_cycle`: first and last day of the month before the reference date. */
  function PreviousCycle(reference: Day): Cycle {
    var end := DayBefore(FirstOfMonth(reference));
    Cycle(FirstOfMonth(end), end)
  }

  predicate InCycle(d: Day, c: Cycle) {
    NotAfter(c.start, d) && NotAfter(d, c.end)
  }

  /** A date is in the previous cycle exactly when it lies in the month before. */
  lemma CycleIsMonth(reference: Day, d: Day)
    ensures InCycle(d, PreviousCycle(reference)) <==> MonthIndex(d) == MonthIndex(reference) - 1
    ensures MonthIndex(PreviousCycle(reference).end) == MonthIndex(reference) - 1
    ensures Before(PreviousCycle(reference).end, FirstOfMonth(reference))
  {
    var end := PreviousCycle(reference).end;
    assert MonthIndex(end) == MonthIndex(reference) - 1;
    assert end.day == DaysIn(end.year, end.month);
    BeforeByMonth(d, end);
    BeforeByMonth(FirstOfMonth(end), d);
    BeforeByMonth(end, d);
    BeforeByMonth(d, FirstOfMonth(end));
  }

  /**
   The cycles of consecutive months tile the calendar: every date is in the cycle that a reference date one
   month later closes and in no other month's, the next cycle starts the day after this one ends, and the
   same month's reference dates close the same cycle.
   */
  lemma CyclesTile(a: Day, b: Day, d: Day)
    ensures InCycle(d, PreviousCycle(a)) && InCycle(d, PreviousCycle(b)) ==> PreviousCycle(a) == PreviousCycle(b)
    ensures MonthIndex(b) == MonthIndex(a) + 1 ==> PreviousCycle(b).start == NextDay(PreviousCycle(a).end)
    ensures MonthIndex(a) == MonthIndex(d) + 1 ==> InCycle(d, PreviousCycle(a))
    ensures PreviousCycle(a).end == PreviousCycle(b).end <==> MonthIndex(a) == MonthIndex(b)
  {
    CycleIsMonth(a, d);
    CycleIsMonth(b, d);
    SameMonthSameCycle(a, b);
    if MonthIndex(b) == MonthIndex(a) + 1 {
      DayBeforeIsInverse(FirstOfMonth(a));
    }
  }

  lemma SameMonthSameCycle(a: Day, b: Day)
    ensures MonthIndex(a) == MonthIndex(b) ==> FirstOfMonth(a) == FirstOfMonth(b) && PreviousCycle(a) == PreviousCycle(b)
    ensures MonthIndex(a) != MonthIndex(b) ==> PreviousCycle(a).end != PreviousCycle(b).end
  {
    CycleIsMonth(a, a);
    CycleIsMonth(b, b);
    BeforeByMonth(a, b);
  }

  // ----- month arithmetic

  /** `add_months`: the same day of a later month, or that month's last day if it is too short. */
  function AddMonths(d: Day, n: nat): Day {
    var months := d.month - 1 + n;
    var year, month := d.year + months / 12, months % 12 + 1;
    Date(year, month, if d.day <= DaysIn(year, month) then d.day else DaysIn(year, month))
  }

  /**
   `n` months later is exactly `n` months later, the day is kept whenever that month has it and is its last
   day otherwise, and more months mean a strictly later date.
   */
  lemma AddMonthsCorrect(d: Day, n: nat, k: nat)
    ensures MonthIndex(AddMonths(d, n)) == MonthIndex(d) + n
    ensures var e := AddMonths(d, n);
            e.day == d.day || (e.day < d.day && e.day == DaysIn(e.year, e.month))
    ensures n < k ==> Before(AddMonths(d, n), AddMonths(d, k))
    ensures AddMonths(d, 0) == d
  {
    MonthsAdd(d, n);
    MonthsAdd(d, k);
    BeforeByMonth(AddMonths(d, n), AddMonths(d, k));
  }

  lemma MonthsAdd(d: Day, n: nat)
    ensures MonthIndex(AddMonths(d, n)) == MonthIndex(d) + n
  {
    var months := d.month - 1 + n;
    assert months == 12 * (months / 12) + months % 12;
  }

  predicate SameMonth(a: Day, b: Day) {
    a.year == b.year && a.month == b.month
  }

  lemma SameIndexSameMonth(a: Day, b: Day)
    ensures MonthIndex(a) == MonthIndex(b) <==> SameMonth(a, b)
  {
    BeforeByMonth(a, b);
  }

  /**
   Adding months in two steps agrees with adding them at once exactly when the first step keeps the day, or
   the last month is no longer than the one in between. A schedule has to start from its first date each time.
   */
  lemma AddMonthsTwice(d: Day, n: nat, k: nat)
    ensures var between, last := AddMonths(d, n), AddMonths(d, n + k);
            && SameMonth(AddMonths(between, k), last)
            && (AddMonths(between, k) == last <==>
                  d.day <= DaysIn(between.year, between.month)
                  || DaysIn(last.year, last.month) <= DaysIn(between.year, between.month))
  {
    var between, last := AddMonths(d, n), AddMonths(d, n + k);
    MonthsAdd(d, n);
    MonthsAdd(between, k);
    MonthsAdd(d, n + k);
    SameIndexSameMonth(AddMonths(between, k), last);
  }

  /** 31 January, one month on and another: 28 March, not 31 March. */
  lemma ShortMonthLosesTheDay()
    ensures AddMonths(AddMonths(Date(2026, 1, 31), 1), 1) != AddMonths(Date(2026, 1, 31), 2)
  {
    assert DaysIn(2026, 2) == 28;
    AddMonthsTwice(Date(2026, 1, 31), 1, 1);
  }
}
