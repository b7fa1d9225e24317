/** Billing periods run from one month's due day to the next (backend/apps/billing/calculations.py and
    the renewal use case in backend/apps/billing/workflows.py).
 */
module BillingPeriods {
  import opened CivilCalendar

  datatype Interval = Monthly | Quarterly | Yearly

  /** How many months an interval covers. */
  function Multiplier(i: Interval): (months: int)
    ensures months >= 1 && 12 % months == 0
  {
    match i case Monthly => 1 case Quarterly => 3 case Yearly => 12
  }

  /** A moment in UTC: a date and the seconds since its midnight. */
  datatype Instant = Instant(date: Date, second: nat)

  predicate ValidInstant(i: Instant) { Valid(i.date) && i.second < 86400 }

  predicate Sooner(a: Instant, b: Instant) {
    Earlier(a.date, b.date) || (a.date == b.date && a.second < b.second)
  }

  function Midnight(d: Date): Instant { Instant(d, 0) }

  /** The key is the month a period starts in, here as a month index ("2024-03" in the source). */
  datatype Period = Period(key: int, start: Instant, end: Instant, dueThisMonth: Date)

  function PreviousMonth(year: int, month: int): (int, int) { if month == 1 then (year - 1, 12) else (year, month - 1) }

  function NextMonth(year: int, month: int): (int, int) { if month == 12 then (year + 1, 1) else (year, month + 1) }

  function Index(ym: (int, int)): int { 12 * ym.0 + ym.1 - 1 }

  function StartMonth(now: Instant): (int, int)
    requires ValidInstant(now)
  {
    if NotLater(DueDay(MonthIndex(now.date)), now.date) then (now.date.year, now.date.month)
    else PreviousMonth(now.date.year, now.date.month)
  }

  function CurrentMonthPeriod(now: Instant): Period
    requires ValidInstant(now)
  {
    var (year, month) := StartMonth(now);
    Period(Index((year, month)), Midnight(DueDay(Index((year, month)))), Midnight(DueDay(Index(NextMonth(year, month)))),
           DueDay(MonthIndex(now.date)))
  }

  function PeriodOf(t: int): (Instant, Instant) { (Midnight(DueDay(t)), Midnight(DueDay(t + 1))) }

  lemma Neighbours(year: int, month: int)
    requires 1 <= month <= 12
    ensures Index(PreviousMonth(year, month)) == Index((year, month)) - 1
    ensures Index(NextMonth(year, month)) == Index((year, month)) + 1
    ensures 1 <= PreviousMonth(year, month).1 <= 12 && 1 <= NextMonth(year, month).1 <= 12
  {
  }

  lemma StartMonthIndex(now: Instant)
    requires ValidInstant(now)
    ensures
      var m := MonthIndex(now.date);
      && Index(StartMonth(now)) == (if NotLater(DueDay(m), now.date) then m else m - 1)
      && 1 <= StartMonth(now).1 <= 12
  {
    Neighbours(now.date.year, now.date.month);
  }

  /** The key is the current month once its due day has come, else the month before. */
  lemma PeriodShape(now: Instant)
    requires ValidInstant(now)
    ensures
      var p, m := CurrentMonthPeriod(now), MonthIndex(now.date);
      && p.dueThisMonth == DueDay(m) && p.key == (if NotLater(DueDay(m), now.date) then m else m - 1)
      && p.start == PeriodOf(p.key).0 && p.end == PeriodOf(p.key).1
  {
    StartMonthIndex(now);
    var (year, month) := StartMonth(now);
    Neighbours(year, month);
    var key, next := Index((year, month)), Index(NextMonth(year, month));
    assert next == key + 1;
    assert CurrentMonthPeriod(now) == Period(key, Midnight(DueDay(key)), Midnight(DueDay(next)), DueDay(MonthIndex(now.date)));
  }

  lemma {:induction false} DueDaysIncrease(t: int, u: int)
    requires t < u
    ensures Earlier(DueDay(t), DueDay(u))
  {
    DueDayFacts(t);
    DueDayFacts(u);
    IndexOrder(DueDay(t), DueDay(u));
  }

  /** Half-open: the start belongs to the period, the end does not. */
  predicate InPeriod(now: Instant, t: int) {
    !Sooner(now, PeriodOf(t).0) && Sooner(now, PeriodOf(t).1)
  }

  lemma InPeriodByDate(now: Instant, t: int)
    requires ValidInstant(now)
    ensures InPeriod(now, t) <==> NotLater(DueDay(t), now.date) && Earlier(now.date, DueDay(t + 1))
  {
  }

  /** Every instant lies in exactly one period, the one the code computes. */
  lemma InstantHasOnePeriod(now: Instant, t: int)
    requires ValidInstant(now)
    ensures InPeriod(now, t) <==> t == CurrentMonthPeriod(now).key
  {
    var m := MonthIndex(now.date);
    PeriodShape(now);
    InPeriodByDate(now, t);
    forall u: int ensures Valid(DueDay(u)) && MonthIndex(DueDay(u)) == u {
      DueDayFacts(u);
    }
    if t < m - 1 {
      IndexOrder(DueDay(t + 1), now.date);
    } else if t > m {
      IndexOrder(now.date, DueDay(t));
    } else {
      if t == m { IndexOrder(now.date, DueDay(m + 1)); }
      if t == m - 1 { IndexOrder(DueDay(m - 1), now.date); }
    }
  }

  /** Periods are non-empty and each ends where the next begins. */
  lemma PeriodsTile(t: int)
    ensures PeriodOf(t).1 == PeriodOf(t + 1).0
    ensures ValidInstant(PeriodOf(t).0) && Sooner(PeriodOf(t).0, PeriodOf(t).1)
  {
    DueDayFacts(t);
    DueDayFacts(t + 1);
    DueDaysIncrease(t, t + 1);
  }

  lemma EarlierPeriodIsSooner(a: Instant, b: Instant, t: int, u: int)
    requires ValidInstant(a) && ValidInstant(b) && InPeriod(a, t) && InPeriod(b, u) && u < t
    ensures Sooner(b, a)
  {
    InPeriodByDate(a, t);
    InPeriodByDate(b, u);
    if u + 1 < t {
      DueDaysIncrease(u + 1, t);
    }
  }

  lemma KeysFollowTime(a: Instant, b: Instant)
    requires ValidInstant(a) && ValidInstant(b) && !Sooner(b, a)
    ensures CurrentMonthPeriod(a).key <= CurrentMonthPeriod(b).key
  {
    var t, u := CurrentMonthPeriod(a).key, CurrentMonthPeriod(b).key;
    InstantHasOnePeriod(a, t);
    InstantHasOnePeriod(b, u);
    if u < t {
      EarlierPeriodIsSooner(a, b, t, u);
    }
  }

  // ------------------------------------------------------------------ scheduled plan changes

  /** A change asked for at `requested` is stored under the key of the period that follows. */
  function EffectiveKey(requested: Instant): int
    requires ValidInstant(requested)
  {
    MonthIndex(CurrentMonthPeriod(requested).end.date)
  }

  /** The renewal pass's guard. */
  predicate ScheduledChangeDue(now: Instant, effectiveKey: int)
    requires ValidInstant(now)
  {
    var p := CurrentMonthPeriod(now);
    NotLater(p.dueThisMonth, now.date) && effectiveKey == p.key
  }

  /** A pass applies the change exactly on the days of the effective month from its due day on; so never
      before the period it was requested in has ended, and not in the days of the new period that fall
      into the following month. */
  lemma ScheduledChangeWindow(requested: Instant, now: Instant)
    requires ValidInstant(requested) && ValidInstant(now)
    ensures
      var end := CurrentMonthPeriod(requested).end;
      && EffectiveKey(requested) == CurrentMonthPeriod(requested).key + 1
      && (ScheduledChangeDue(now, EffectiveKey(requested)) <==>
          !Sooner(now, end) && MonthIndex(now.date) == EffectiveKey(requested))
  {
    var key := CurrentMonthPeriod(requested).key;
    NextPeriodKey(requested);
    DueInItsMonth(now, key + 1);
    BeforeMidnight(now, DueDay(key + 1));
  }

  lemma NextPeriodKey(requested: Instant)
    requires ValidInstant(requested)
    ensures
      var p := CurrentMonthPeriod(requested);
      p.end == Midnight(DueDay(p.key + 1)) && EffectiveKey(requested) == p.key + 1
  {
    PeriodShape(requested);
    DueDayFacts(CurrentMonthPeriod(requested).key + 1);
  }

  lemma DueInItsMonth(now: Instant, key: int)
    requires ValidInstant(now)
    ensures ScheduledChangeDue(now, key) <==> MonthIndex(now.date) == key && NotLater(DueDay(key), now.date)
  {
    PeriodShape(now);
  }

  lemma BeforeMidnight(now: Instant, day: Date)
    ensures Sooner(now, Midnight(day)) <==> Earlier(now.date, day)
    ensures NotLater(day, now.date) <==> !Earlier(now.date, day)
  {
  }
}
