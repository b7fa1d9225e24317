/** Dates of the proleptic Gregorian calendar, month addition with clamping, and the day of the month
    on which a billing period starts (backend/apps/billing/calculations.py). Month lengths and leap years are those
    of section 5.7 and Appendix C of RFC 3339.
 */
module CivilCalendar {
  import opened Basics

  datatype Date = Date(year: int, month: int, day: int)

  predicate Leap(year: int) { year % 4 == 0 && (year % 100 != 0 || year % 400 == 0) }

  function DaysIn(year: int, month: int): int
    requires 1 <= month <= 12
  {
    if month == 2 then (if Leap(year) then 29 else 28)
    else if month == 4 || month == 6 || month == 9 || month == 11 then 30 else 31
  }

  predicate Valid(d: Date) { 1 <= d.month <= 12 && 1 <= d.day <= DaysIn(d.year, d.month) }

  predicate Earlier(a: Date, b: Date) {
    a.year < b.year || (a.year == b.year && (a.month < b.month || (a.month == b.month && a.day < b.day)))
  }

  predicate NotLater(a: Date, b: Date) { a == b || Earlier(a, b) }

  // ------------------------------------------------------------------ day numbers

  function DaysBeforeYear(year: int): int {
    var y := year - 1;
    365 * y + y / 4 - y / 100 + y / 400
  }

  function DaysBeforeMonth(year: int, month: int): int
    requires 1 <= month <= 12
  {
    if month == 1 then 0 else DaysBeforeMonth(year, month - 1) + DaysIn(year, month - 1)
  }

  /** Python's date.toordinal: 0001-01-01, a Monday, is day 1. */
  function Ordinal(d: Date): int
    requires Valid(d)
  {
    DaysBeforeYear(d.year) + DaysBeforeMonth(d.year, d.month) + d.day
  }

  /** Monday is 0. */
  function Weekday(d: Date): int
    requires Valid(d)
  {
    (Ordinal(d) + 6) % 7
  }

  // Months counted from year 0.

  function MonthIndex(d: Date): int { 12 * d.year + d.month - 1 }

  function DaysAt(t: int): int { DaysIn(t / 12, t % 12 + 1) }

  function DaysBefore(t: int): int { DaysBeforeYear(t / 12) + DaysBeforeMonth(t / 12, t % 12 + 1) }

  lemma Quotients(year: int)
    ensures year / 4 == (year - 1) / 4 + if year % 4 == 0 then 1 else 0
    ensures year / 100 == (year - 1) / 100 + if year % 100 == 0 then 1 else 0
    ensures year / 400 == (year - 1) / 400 + if year % 400 == 0 then 1 else 0
  {
  }

  lemma CenturiesAreMultiples(year: int)
    ensures year % 400 == 0 ==> year % 100 == 0
    ensures year % 100 == 0 ==> year % 4 == 0
  {
  }

  lemma YearLength(year: int)
    ensures DaysBeforeYear(year + 1) == DaysBeforeYear(year) + (if Leap(year) then 366 else 365)
  {
    Quotients(year);
    CenturiesAreMultiples(year);
  }

  lemma DaysBeforeDecember(year: int)
    ensures DaysBeforeMonth(year, 12) == if Leap(year) then 335 else 334
  {
    assert DaysBeforeMonth(year, 2) == 31;
    assert DaysBeforeMonth(year, 4) == DaysBeforeMonth(year, 2) + DaysIn(year, 2) + 31 == (if Leap(year) then 91 else 90);
    assert DaysBeforeMonth(year, 8) == DaysBeforeMonth(year, 4) + 122 by {
      assert DaysBeforeMonth(year, 6) == DaysBeforeMonth(year, 4) + 61;
    }
    assert DaysBeforeMonth(year, 10) == DaysBeforeMonth(year, 8) + 61;
  }

  lemma NextMonthBegins(t: int)
    ensures DaysBefore(t + 1) == DaysBefore(t) + DaysAt(t)
  {
    if t % 12 == 11 {
      assert (t + 1) / 12 == t / 12 + 1 && (t + 1) % 12 == 0;
      YearLength(t / 12);
      DaysBeforeDecember(t / 12);
    } else {
      assert (t + 1) / 12 == t / 12 && (t + 1) % 12 == t % 12 + 1;
    }
  }

  lemma {:induction false} LaterMonthBegins(t: int, u: int)
    requires t < u
    ensures DaysBefore(t) + DaysAt(t) <= DaysBefore(u)
    decreases u - t
  {
    NextMonthBegins(u - 1);
    if t + 1 < u {
      LaterMonthBegins(t, u - 1);
    }
  }

  lemma IndexParts(d: Date)
    requires Valid(d)
    ensures MonthIndex(d) / 12 == d.year && MonthIndex(d) % 12 + 1 == d.month
    ensures Ordinal(d) == DaysBefore(MonthIndex(d)) + d.day && 1 <= d.day <= DaysAt(MonthIndex(d))
  {
  }

  /** Calendar order is the order of day numbers. */
  lemma OrdinalOrder(a: Date, b: Date)
    requires Valid(a) && Valid(b)
    ensures Earlier(a, b) <==> Ordinal(a) < Ordinal(b)
    ensures a == b <==> Ordinal(a) == Ordinal(b)
  {
    IndexParts(a);
    IndexParts(b);
    if MonthIndex(a) < MonthIndex(b) {
      LaterMonthBegins(MonthIndex(a), MonthIndex(b));
    } else if MonthIndex(b) < MonthIndex(a) {
      LaterMonthBegins(MonthIndex(b), MonthIndex(a));
    }
  }

  function NextDay(d: Date): Date
    requires Valid(d)
  {
    if d.day < DaysIn(d.year, d.month) then Date(d.year, d.month, d.day + 1)
    else if d.month < 12 then Date(d.year, d.month + 1, 1) else Date(d.year + 1, 1, 1)
  }

  lemma NextDayIsNext(d: Date)
    requires Valid(d)
    ensures Valid(NextDay(d)) && Ordinal(NextDay(d)) == Ordinal(d) + 1
  {
    IndexParts(d);
    IndexParts(NextDay(d));
    NextMonthBegins(MonthIndex(d));
  }

  /** The day whose ordinal is n more. */
  function AddDays(d: Date, n: nat): (later: Date)
    requires Valid(d)
    ensures Valid(later) && Ordinal(later) == Ordinal(d) + n
    decreases n
  {
    if n == 0 then d
    else
      var before := AddDays(d, n - 1);
      NextDayIsNext(before);
      NextDay(before)
  }

  // ------------------------------------------------------------------ adding months

  function AddMonths(year: int, month: int, count: int): (int, int) {
    var index := year * 12 + (month - 1) + count;
    (index / 12, index % 12 + 1)
  }

  function AddMonthsToDate(d: Date, count: int): (later: Date)
    ensures Valid(d) ==> Valid(later)
  {
    var (year, month) := AddMonths(d.year, d.month, count);
    Date(year, month, Min(d.day, DaysIn(year, month)))
  }

  /** The platform-admin repository carries its own month addition and leap-year table. */
  function AdminAddMonths(d: Date, months: int): Date {
    var month := d.month - 1 + months;
    var year := d.year + month / 12;
    var m := month % 12 + 1;
    var lengths := [31, if year % 4 == 0 && (year % 100 != 0 || year % 400 == 0) then 29 else 28,
                    31, 30, 31, 30, 31, 31, 30, 31, 30, 31];
    Date(year, m, Min(d.day, lengths[m - 1]))
  }

  lemma AdminAgrees(d: Date, months: int)
    ensures AdminAddMonths(d, months) == AddMonthsToDate(d, months)
  {
    var month := d.month - 1 + months;
    assert d.year * 12 + (d.month - 1) + months == 12 * d.year + month;
    assert (12 * d.year + month) / 12 == d.year + month / 12;
    assert (12 * d.year + month) % 12 == month % 12;
  }

  lemma AddMonthsMovesIndex(d: Date, count: int)
    requires Valid(d)
    ensures Valid(AddMonthsToDate(d, count))
    ensures MonthIndex(AddMonthsToDate(d, count)) == MonthIndex(d) + count
    ensures AddMonthsToDate(d, count).day == Min(d.day, DaysAt(MonthIndex(d) + count))
  {
  }

  lemma AddMonthsIsAdditive(year: int, month: int, a: int, b: int)
    ensures
      var (y, m) := AddMonths(year, month, a);
      AddMonths(y, m, b) == AddMonths(year, month, a + b)
  {
    var index := year * 12 + (month - 1) + a;
    assert 12 * (index / 12) + index % 12 == index;
  }

  lemma IndexOrder(a: Date, b: Date)
    requires Valid(a) && Valid(b) && MonthIndex(a) < MonthIndex(b)
    ensures Earlier(a, b)
  {
  }

  /** At least 28 days pass. */
  lemma RenewalMovesForward(d: Date, step: int)
    requires Valid(d) && step >= 1
    ensures Earlier(d, AddMonthsToDate(d, step))
    ensures Ordinal(AddMonthsToDate(d, step)) >= Ordinal(d) + 28
  {
    var e := AddMonthsToDate(d, step);
    AddMonthsMovesIndex(d, step);
    IndexParts(d);
    IndexParts(e);
    LaterMonthBegins(MonthIndex(d), MonthIndex(e));
    if e.day < d.day {
      assert e.day == DaysAt(MonthIndex(e)) && d.day <= DaysAt(MonthIndex(d));
    }
  }

  // Chained renewals: each next date is computed from the previous one, so clamping accumulates.

  function Renewed(d: Date, step: int, n: nat): Date {
    if n == 0 then d else AddMonthsToDate(Renewed(d, step, n - 1), step)
  }

  lemma {:induction false} RenewedIndex(d: Date, step: int, n: nat)
    requires Valid(d)
    ensures Valid(Renewed(d, step, n)) && MonthIndex(Renewed(d, step, n)) == MonthIndex(d) + n * step
  {
    if n > 0 {
      RenewedIndex(d, step, n - 1);
      AddMonthsMovesIndex(Renewed(d, step, n - 1), step);
      assert (n - 1) * step + step == n * step;
    }
  }

  /** The length of the month that the i-th renewal falls in. */
  function VisitedLength(d: Date, step: int, i: int): int { DaysAt(MonthIndex(d) + i * step) }

  /** After n renewals the day is the least of the first day and the lengths of all months visited. */
  lemma {:induction false} RenewedDay(d: Date, step: int, n: nat)
    requires Valid(d)
    ensures
      var day := Renewed(d, step, n).day;
      && day <= d.day
      && (forall i :: 1 <= i <= n ==> day <= VisitedLength(d, step, i))
      && (day == d.day || exists i :: 1 <= i <= n && day == VisitedLength(d, step, i))
      && day >= Min(d.day, 28)
  {
    if n > 0 {
      RenewedDay(d, step, n - 1);
      RenewedIndex(d, step, n - 1);
      AddMonthsMovesIndex(Renewed(d, step, n - 1), step);
      assert MonthIndex(d) + (n - 1) * step + step == MonthIndex(d) + n * step;
      var day, last := Renewed(d, step, n).day, VisitedLength(d, step, n);
      assert day == Min(Renewed(d, step, n - 1).day, last);
    }
  }

  lemma RenewalsIncrease(d: Date, step: int, n: nat)
    requires Valid(d) && step >= 1
    ensures Earlier(Renewed(d, step, n), Renewed(d, step, n + 1))
  {
    RenewedIndex(d, step, n);
    RenewalMovesForward(Renewed(d, step, n), step);
  }

  /** The chain never runs ahead of adding all months at once, and falls behind exactly when a month on
      the way was too short for the day that adding at once would give. */
  lemma ChainAgainstAtOnce(d: Date, step: int, n: nat)
    requires Valid(d)
    ensures NotLater(Renewed(d, step, n), AddMonthsToDate(d, n * step))
    ensures Renewed(d, step, n) == AddMonthsToDate(d, n * step) <==>
            forall i :: 1 <= i <= n ==> AddMonthsToDate(d, n * step).day <= VisitedLength(d, step, i)
  {
    var chain, once := Renewed(d, step, n), AddMonthsToDate(d, n * step);
    RenewedIndex(d, step, n);
    RenewedDay(d, step, n);
    AddMonthsMovesIndex(d, n * step);
    SameIndexSameMonth(chain, once);
    if n == 0 {
      assert chain == once;
    } else {
      assert chain.day <= VisitedLength(d, step, n);
    }
  }

  lemma SameIndexSameMonth(a: Date, b: Date)
    requires Valid(a) && Valid(b) && MonthIndex(a) == MonthIndex(b)
    ensures a.year == b.year && a.month == b.month
  {
  }

  // ------------------------------------------------------------------ the due day of a month

  predicate IsBusinessDay(d: Date)
    requires Valid(d)
  {
    Weekday(d) < 5
  }

  predicate BusinessDayAt(t: int, day: int)
    requires 1 <= day <= 28
  {
    IsBusinessDay(Date(t / 12, t % 12 + 1, day))
  }

  /** The first business day on or after the fifth. */
  function DueDay(t: int): Date {
    var fifth := Date(t / 12, t % 12 + 1, 5);
    Date(t / 12, t % 12 + 1, if Weekday(fifth) == 5 then 7 else if Weekday(fifth) == 6 then 6 else 5)
  }

  lemma WeekdayAfter(year: int, month: int, a: int, b: int)
    requires 1 <= month <= 12 && 1 <= a <= b <= 28
    ensures Weekday(Date(year, month, b)) == (Weekday(Date(year, month, a)) + b - a) % 7
  {
    var x := Ordinal(Date(year, month, a)) + 6;
    assert Ordinal(Date(year, month, b)) + 6 == x + (b - a);
    ModAfter(x, b - a);
  }

  lemma ModAfter(x: int, n: int)
    ensures (x + n) % 7 == (x % 7 + n) % 7
  {
  }

  lemma FirstBusinessDayIsDueDay(year: int, month: int, day: int)
    requires 1 <= month <= 12 && 5 <= day <= 7 && IsBusinessDay(Date(year, month, day))
    requires forall early :: 5 <= early < day ==> !IsBusinessDay(Date(year, month, early))
    ensures Date(year, month, day) == DueDay(12 * year + month - 1)
  {
    var t := 12 * year + month - 1;
    assert t / 12 == year && t % 12 + 1 == month;
    WeekdayAfter(year, month, 5, 6);
    WeekdayAfter(year, month, 5, 7);
    assert day > 5 ==> !IsBusinessDay(Date(year, month, 5));
    assert day > 6 ==> !IsBusinessDay(Date(year, month, 6));
  }

  method FifthBusinessDay(year: int, month: int) returns (current: Date)
    requires 1 <= month <= 12
    ensures Valid(current) && current.year == year && current.month == month && 5 <= current.day <= 7
    ensures IsBusinessDay(current)
    ensures forall day :: 5 <= day < current.day ==> !IsBusinessDay(Date(year, month, day))
    ensures current == DueDay(12 * year + month - 1)
  {
    current := Date(year, month, 5);
    while !IsBusinessDay(current)
      invariant Valid(current) && current.year == year && current.month == month && 5 <= current.day <= 7
      invariant forall day :: 5 <= day < current.day ==> !IsBusinessDay(Date(year, month, day))
      decreases 7 - current.day
    {
      NextDayIsNext(current);
      WeekdayAfter(year, month, 5, current.day);
      current := NextDay(current);
    }
    FirstBusinessDayIsDueDay(year, month, current.day);
  }

  lemma DueDayFacts(t: int)
    ensures Valid(DueDay(t)) && MonthIndex(DueDay(t)) == t && 5 <= DueDay(t).day <= 7
    ensures IsBusinessDay(DueDay(t))
    ensures forall day :: 5 <= day < DueDay(t).day ==> !BusinessDayAt(t, day)
  {
    FirstOfThree(t / 12, t % 12 + 1);
  }

  lemma FirstOfThree(year: int, month: int)
    requires 1 <= month <= 12
    ensures
      var fifth := Weekday(Date(year, month, 5));
      var day := if fifth == 5 then 7 else if fifth == 6 then 6 else 5;
      && IsBusinessDay(Date(year, month, day))
      && (day > 5 ==> !IsBusinessDay(Date(year, month, 5))) && (day > 6 ==> !IsBusinessDay(Date(year, month, 6)))
  {
    WeekdayAfter(year, month, 5, 6);
    WeekdayAfter(year, month, 5, 7);
  }

  function BusinessDaysThrough(year: int, month: int, day: nat): nat
    requires 1 <= month <= 12 && day <= 28
  {
    if day == 0 then 0
    else BusinessDaysThrough(year, month, day - 1) + if IsBusinessDay(Date(year, month, day)) then 1 else 0
  }

  lemma {:induction false} EarlyDays(year: int, month: int, first: int, day: nat)
    requires 1 <= month <= 12 && 1 <= day <= 7 && first == Weekday(Date(year, month, 1))
    ensures Weekday(Date(year, month, day)) == (first + day - 1) % 7
    ensures BusinessDaysThrough(year, month, day) ==
            day - if first == 6 then (if day == 7 then 2 else 1)
                  else if first + day <= 5 then 0 else Min(first + day - 5, 2)
  {
    WeekdayAfter(year, month, 1, day);
    if day > 1 {
      EarlyDays(year, month, first, day - 1);
    } else {
      assert BusinessDaysThrough(year, month, 0) == 0;
    }
  }

  /** The code calls this day the fifth business day. It is, exactly in months that begin on a Monday or
      a Tuesday. */
  lemma DueDayIsFifthBusinessDay(t: int)
    ensures BusinessDaysThrough(t / 12, t % 12 + 1, DueDay(t).day) == 5 <==> Weekday(Date(t / 12, t % 12 + 1, 1)) <= 1
  {
    var first := Weekday(Date(t / 12, t % 12 + 1, 1));
    DueDayFacts(t);
    EarlyDays(t / 12, t % 12 + 1, first, 5);
    EarlyDays(t / 12, t % 12 + 1, first, DueDay(t).day);
  }
}
