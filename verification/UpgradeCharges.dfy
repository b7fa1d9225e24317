/** What an immediate upgrade costs, told from the catalogue, the calendar and the day it is made
    (backend/apps/billing/subscription_proration.py, backend/apps/billing/calculations.py).
 */
module UpgradeCharges {
  import opened Basics
  import opened CivilCalendar
  import opened BillingPeriods
  import opened BillingChain
  import opened Proration

  /** The upgrade asked for, and what is known of the subscription. */
  datatype Request = Request(current: string, interval: Interval, trialEnds: Option<Instant>, next: string,
                             nextInterval: Interval, plans: map<string, Plan>, periodEnd: Date)

  predicate ValidRequest(r: Request) {
    "free" in r.plans && Valid(r.periodEnd) && (r.trialEnds.Some? ==> ValidInstant(r.trialEnds.value))
  }

  function PreviewOn(r: Request, today: Date): Option<Preview>
    requires ValidRequest(r) && Valid(today)
  {
    ComputeUpgradeProration(r.current, r.interval, r.trialEnds, r.next, r.nextInterval, r.plans, r.periodEnd, today)
  }

  function Current(r: Request): Plan
    requires ValidRequest(r)
  {
    if r.current in r.plans then r.plans[r.current] else r.plans["free"]
  }

  /** Refused exactly for an unknown plan, one that is lower in price, knowledge bases or storage, and for what the
      tenant already has. The day plays no part. */
  lemma RefusedIff(r: Request, today: Date)
    requires ValidRequest(r) && Valid(today)
    ensures PreviewOn(r, today).None? <==>
            || r.next !in r.plans
            || r.plans[r.next].price < Current(r).price || r.plans[r.next].knowledgeBases < Current(r).knowledgeBases
            || r.plans[r.next].storageGb < Current(r).storageGb
            || (r.next == r.current && r.nextInterval == r.interval)
  {
  }

  // ------------------------------------------------------------------ period charges

  function Months(i: Interval): int { match i case Monthly => 1 case Quarterly => 3 case Yearly => 12 }

  function Percent(i: Interval): int { match i case Monthly => 100 case Quarterly => 93 case Yearly => 85 }

  /** A monthly charge is the list price less 0, 7 or 15 per cent, rounded to a cent, and then cut to full hundreds. */
  ghost predicate IsMonthlyCharge(charge: int, price: int, i: Interval) {
    && charge % 100 == 0
    && exists cents :: 2 * (price * Percent(i) - cents * 100) <= 100 && 2 * (cents * 100 - price * Percent(i)) <= 100
                       && charge <= cents < charge + 100
                       && (2 * (price * Percent(i) - cents * 100) == 100 || 2 * (cents * 100 - price * Percent(i)) == 100
                           ==> cents % 2 == 0)
  }

  lemma MonthlyChargeIs(price: int, i: Interval)
    ensures IsMonthlyCharge(MonthlyCharge(price, i), price, i)
  {
    var cents := ApplyDiscount(price, i);
    if i == Monthly {
      assert cents == price;
    } else {
      assert cents == RoundHalfEven(price * Percent(i), 100);
      RoundHalfEvenIsNearest(price * Percent(i), 100, cents);
    }
    CutToHundreds(cents);
  }

  lemma CutToHundreds(cents: int)
    ensures ((cents / 100) * 100) % 100 == 0 && (cents / 100) * 100 <= cents < (cents / 100) * 100 + 100
  {
  }

  /** No other amount meets that description. */
  lemma MonthlyChargeIsUnique(price: int, i: Interval, a: int, b: int)
    requires IsMonthlyCharge(a, price, i) && IsMonthlyCharge(b, price, i)
    ensures a == b
  {
    var c :| 2 * (price * Percent(i) - c * 100) <= 100 && 2 * (c * 100 - price * Percent(i)) <= 100 && a <= c < a + 100
             && (2 * (price * Percent(i) - c * 100) == 100 || 2 * (c * 100 - price * Percent(i)) == 100 ==> c % 2 == 0);
    var d :| 2 * (price * Percent(i) - d * 100) <= 100 && 2 * (d * 100 - price * Percent(i)) <= 100 && b <= d < b + 100
             && (2 * (price * Percent(i) - d * 100) == 100 || 2 * (d * 100 - price * Percent(i)) == 100 ==> d % 2 == 0);
    RoundHalfEvenIsNearest(price * Percent(i), 100, c);
    RoundHalfEvenIsNearest(price * Percent(i), 100, d);
    SameHundreds(a, b, c);
  }

  lemma SameHundreds(a: int, b: int, c: int)
    requires a % 100 == 0 && b % 100 == 0 && a <= c < a + 100 && b <= c < b + 100
    ensures a == b
  {
  }

  /** The two period charges of an accepted upgrade: monthly charge times the months of the interval. */
  lemma ChargesFromCatalogue(r: Request, today: Date)
    requires ValidRequest(r) && Valid(today) && PreviewOn(r, today).Some?
    ensures
      var p := PreviewOn(r, today).value;
      && (exists m :: IsMonthlyCharge(m, Current(r).price, r.interval) && p.oldCharge == m * Months(r.interval))
      && (exists m :: IsMonthlyCharge(m, r.plans[r.next].price, r.nextInterval) && p.nextCharge == m * Months(r.nextInterval))
      && p.trainingFee == Max(0, TrainingFee(r.next) - TrainingFee(r.current))
  {
    MonthlyChargeIs(Current(r).price, r.interval);
    MonthlyChargeIs(r.plans[r.next].price, r.nextInterval);
    assert Multiplier(r.interval) == Months(r.interval) && Multiplier(r.nextInterval) == Months(r.nextInterval);
  }

  // ------------------------------------------------------------------ covered days

  /** The old period covered the days from the due day of the month its interval lies back, to the later of the day it
      is paid until and the end of the running period. */
  lemma CoverageIs(r: Request)
    requires ValidRequest(r)
    ensures
      var end := CoverageEnd(r.trialEnds, r.periodEnd);
      var start := CoverageStart(end, r.interval);
      && Valid(end) && Valid(start) && start == DueDay(MonthIndex(end) - Months(r.interval)) && Earlier(start, end)
      && NotLater(r.periodEnd, end) && (r.trialEnds.Some? ==> NotLater(r.trialEnds.value.date, end))
      && (end == r.periodEnd || (r.trialEnds.Some? && end == r.trialEnds.value.date))
  {
    var end := CoverageEnd(r.trialEnds, r.periodEnd);
    CoverageStartsBeforeItEnds(end, r.interval);
    var (year, month) := AddMonths(end.year, end.month, -Multiplier(r.interval));
    assert 12 * year + month - 1 == MonthIndex(end) - Months(r.interval);
  }

  /** Inside the window the days passed and the days remaining, today among these, make up the total; before it all
      remain, after it none. */
  lemma DaysAddUp(start: Date, end: Date, today: Date)
    requires Valid(start) && Valid(end) && Valid(today)
    ensures
      var days := ProrationDays(start, end, today);
      && days.total == (if Earlier(start, end) then Ordinal(end) - Ordinal(start) + 1 else 1)
      && (NotLater(start, today) && NotLater(today, end) ==> days.remaining + (Ordinal(today) - Ordinal(start)) == days.total)
      && (Earlier(today, start) || (today == start && NotLater(start, end)) ==> days.remaining == days.total)
      && (NotLater(start, today) && Earlier(end, today) ==> days.remaining == 0)
  {
    OrdinalOrder(start, end);
    OrdinalOrder(today, start);
    OrdinalOrder(start, today);
    OrdinalOrder(end, today);
    OrdinalOrder(today, end);
  }

  lemma CoveredDays(r: Request, today: Date)
    requires ValidRequest(r) && Valid(today) && PreviewOn(r, today).Some?
    ensures
      var end := CoverageEnd(r.trialEnds, r.periodEnd);
      var p := PreviewOn(r, today).value;
      && Valid(end) && Valid(CoverageStart(end, r.interval))
      && p.days == ProrationDays(CoverageStart(end, r.interval), end, today)
  {
    CoverageIs(r);
  }

  /** The credit is the old charge times remaining days by total days, rounded to the nearest cent, ties to even. */
  lemma CreditIsTheShare(r: Request, today: Date)
    requires ValidRequest(r) && Valid(today) && PreviewOn(r, today).Some?
    ensures
      var p := PreviewOn(r, today).value;
      var exact, total := p.oldCharge * p.days.remaining, p.days.total;
      && total >= 1
      && 2 * (exact - p.credit * total) <= total && 2 * (p.credit * total - exact) <= total
      && (2 * (exact - p.credit * total) == total || 2 * (p.credit * total - exact) == total ==> p.credit % 2 == 0)
  {
    CoverageIs(r);
    var p, end := PreviewOn(r, today).value, CoverageEnd(r.trialEnds, r.periodEnd);
    ShareBounds(CoverageStart(end, r.interval), end, today);
    ChargeIsNonNegative(PlanOf(r.plans, r.current).price, r.interval);
    CreditBounds(p.oldCharge, p.days);
    RoundOfShare(p.oldCharge, p.days, p.credit);
  }

  lemma RoundOfShare(oldCharge: nat, days: Share, credit: int)
    requires days.total >= 1 && 0 <= days.remaining <= days.total && credit == Credit(oldCharge, days)
    ensures credit == RoundHalfEven(oldCharge * days.remaining, days.total)
    ensures
      var exact, total := oldCharge * days.remaining, days.total;
      && 2 * (exact - credit * total) <= total && 2 * (credit * total - exact) <= total
      && (2 * (exact - credit * total) == total || 2 * (credit * total - exact) == total ==> credit % 2 == 0)
  {
    RoundHalfEvenIsMonotone(0, oldCharge * days.remaining, days.total);
    RoundOfMultiple(0, days.total);
    RoundHalfEvenIsNearest(oldCharge * days.remaining, days.total, credit);
  }

  // ------------------------------------------------------------------ the balance

  /** What is paid and what is credited make up the new charge and the fee; a credit beyond the new charge is lost. */
  lemma TotalBalances(r: Request, today: Date)
    requires ValidRequest(r) && Valid(today) && PreviewOn(r, today).Some?
    ensures
      var p := PreviewOn(r, today).value;
      && (p.credit <= p.nextCharge ==> p.total + p.credit == p.nextCharge + p.trainingFee)
      && (p.credit > p.nextCharge ==> p.total == p.trainingFee)
  {
  }

  /** The upgrade pays for one new interval from today. */
  lemma PaidUntilIs(r: Request, today: Date)
    requires ValidRequest(r) && Valid(today) && PreviewOn(r, today).Some?
    ensures
      var until := PreviewOn(r, today).value.paidUntil;
      && Valid(until) && MonthIndex(until) == MonthIndex(today) + Months(r.nextInterval)
      && until.day == Min(today.day, DaysAt(MonthIndex(until)))
  {
    AddMonthsMovesIndex(today, Multiplier(r.nextInterval));
  }

  /** On or before the first covered day nothing of the old period is used up: the upgrade costs the difference of the
      two period charges, if the new one is higher, and the fee. */
  lemma FirstDayCostsTheDifference(r: Request, today: Date)
    requires ValidRequest(r) && Valid(today) && PreviewOn(r, today).Some?
    requires Valid(CoverageEnd(r.trialEnds, r.periodEnd))
    requires NotLater(today, CoverageStart(CoverageEnd(r.trialEnds, r.periodEnd), r.interval))
    ensures
      var p := PreviewOn(r, today).value;
      p.total == Max(0, p.nextCharge - p.oldCharge) + p.trainingFee
  {
    CoverageIs(r);
    var p, end := PreviewOn(r, today).value, CoverageEnd(r.trialEnds, r.periodEnd);
    DaysAddUp(CoverageStart(end, r.interval), end, today);
    ShareBounds(CoverageStart(end, r.interval), end, today);
    ChargeIsNonNegative(PlanOf(r.plans, r.current).price, r.interval);
    CreditBounds(p.oldCharge, p.days);
    TotalBalances(r, today);
  }

  /** After the last covered day it costs the full new charge and the fee. */
  lemma AfterCoverageCostsAll(r: Request, today: Date)
    requires ValidRequest(r) && Valid(today) && PreviewOn(r, today).Some?
    requires Earlier(CoverageEnd(r.trialEnds, r.periodEnd), today)
    ensures
      var p := PreviewOn(r, today).value;
      p.credit == 0 && p.total == p.nextCharge + p.trainingFee
  {
    CoverageIs(r);
    var p, end := PreviewOn(r, today).value, CoverageEnd(r.trialEnds, r.periodEnd);
    DaysAddUp(CoverageStart(end, r.interval), end, today);
    ChargeIsNonNegative(PlanOf(r.plans, r.current).price, r.interval);
    ChargeIsNonNegative(r.plans[r.next].price, r.nextInterval);
    CreditBounds(p.oldCharge, p.days);
    TotalBalances(r, today);
  }

  /** The same upgrade never gets cheaper as the days pass. */
  lemma WaitingNeverSaves(r: Request, today: Date, later: Date)
    requires ValidRequest(r) && Valid(today) && Valid(later) && NotLater(today, later) && PreviewOn(r, today).Some?
    ensures PreviewOn(r, later).Some?
    ensures PreviewOn(r, today).value.total <= PreviewOn(r, later).value.total
  {
    RefusedIff(r, today);
    RefusedIff(r, later);
    CoverageIs(r);
    var end := CoverageEnd(r.trialEnds, r.periodEnd);
    ChargeIsNonNegative(PlanOf(r.plans, r.current).price, r.interval);
    CreditNeverGrows(PreviewOn(r, today).value.oldCharge, CoverageStart(end, r.interval), end, today, later);
    TotalBalances(r, today);
    TotalBalances(r, later);
  }

  // ------------------------------------------------------------------ one upgrade in numbers

  lemma SampleCoverage()
    ensures DueDay(12 * 2024 + 3) == Date(2024, 4, 5)
    ensures Ordinal(Date(2024, 5, 20)) - Ordinal(Date(2024, 4, 5)) == 45
    ensures Ordinal(Date(2024, 4, 20)) - Ordinal(Date(2024, 4, 5)) == 15
  {
    assert DaysBeforeMonth(2024, 4) == 91 by { assert DaysBeforeMonth(2024, 3) == 60; }
    assert DaysBeforeMonth(2024, 5) == 121;
    assert Weekday(Date(2024, 4, 5)) == 4;
  }

  predicate IsSample(r: Request) {
    r == Request("starter", Monthly, Some(Midnight(Date(2024, 5, 20))), "growth", Monthly, DEFAULT_PLANS, Date(2024, 5, 7))
  }

  lemma SampleDays(r: Request, end: Date, today: Date)
    requires IsSample(r) && today == Date(2024, 4, 20) && end == CoverageEnd(r.trialEnds, r.periodEnd)
    ensures ValidRequest(r) && Valid(end) && Valid(CoverageStart(end, r.interval))
    ensures ProrationDays(CoverageStart(end, r.interval), end, today) == Share(46, 31)
  {
    SampleCoverage();
    CoverageIs(r);
    assert end == Date(2024, 5, 20);
    DaysAddUp(Date(2024, 4, 5), end, today);
  }

  lemma MonthlyToMonthly(r: Request, today: Date)
    requires ValidRequest(r) && Valid(today) && PreviewOn(r, today).Some? && r.interval == Monthly && r.nextInterval == Monthly
    ensures
      var p := PreviewOn(r, today).value;
      && p.oldCharge == (Current(r).price / 100) * 100 && p.nextCharge == (r.plans[r.next].price / 100) * 100
      && p.trainingFee == Max(0, TrainingFee(r.next) - TrainingFee(r.current))
      && p.days.total >= 1 && p.credit == Credit(p.oldCharge, p.days)
  {
    CoverageIs(r);
    var end := CoverageEnd(r.trialEnds, r.periodEnd);
    ShareBounds(CoverageStart(end, r.interval), end, today);
  }

  lemma SamplePlans(r: Request)
    requires IsSample(r)
    ensures ValidRequest(r) && r.next in r.plans && r.next != r.current && r.interval == Monthly && r.nextInterval == Monthly
    ensures Current(r).price == 3900 && r.plans[r.next].price == 8900
    ensures r.plans[r.next].knowledgeBases >= Current(r).knowledgeBases && r.plans[r.next].storageGb >= Current(r).storageGb
    ensures TrainingFee(r.next) == 8900 && TrainingFee(r.current) == 2900
  {
  }

  lemma FullHundreds()
    ensures (3900 / 100) * 100 == 3900 && (8900 / 100) * 100 == 8900 && RoundHalfEven(120900, 46) == 2628
  {
  }

  /** From starter to growth, both monthly, paid until 20 May 2024, on 20 April: 31 of 46 days are credited, so
      8900 - 2628 + 6000 cents are due. */
  lemma SampleUpgrade(r: Request, today: Date)
    requires IsSample(r) && today == Date(2024, 4, 20)
    ensures ValidRequest(r) && PreviewOn(r, today).Some?
    ensures
      var p := PreviewOn(r, today).value;
      p.days == Share(46, 31) && p.credit == 2628 && p.total == 12272
  {
    SampleDays(r, CoverageEnd(r.trialEnds, r.periodEnd), today);
    SamplePlans(r);
    RefusedIff(r, today);
    MonthlyToMonthly(r, today);
    FullHundreds();
    CoveredDays(r, today);
    assert Credit(3900, Share(46, 31)) == RoundHalfEven(120900, 46);
    TotalBalances(r, today);
  }

  /** Climbing the default catalogue step by step costs the training fee of the highest plan, 48900, in all. */
  lemma FeesOfTheWholeLadder(codes: seq<string>)
    requires codes == ["free", "starter", "growth", "business"]
    ensures FeesPaid(codes) == 48900
    ensures UpgradeTrainingFee("free", "starter") == 2900 && UpgradeTrainingFee("starter", "growth") == 6000
    ensures UpgradeTrainingFee("growth", "business") == 40000
  {
    FeesCoverDifference(codes);
    LadderRises();
  }

  lemma LadderRises()
    ensures TrainingFee("free") == 0 && TrainingFee("starter") == 2900 && TrainingFee("growth") == 8900
    ensures TrainingFee("business") == 48900
  {
  }
}
