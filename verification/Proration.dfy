/** Discounts, upgrade credit and upgrade charges (backend/apps/billing/subscription_proration.py and
    backend/apps/billing/calculations.py). Amounts are in cents. Python's round on a quotient of integers is modelled
    exactly as roundTiesToEven, section 4.3.1 of IEEE 754-2008.
 */
module Proration {
  import opened Basics
  import opened CivilCalendar
  import opened BillingPeriods
  import opened BillingChain

  // ------------------------------------------------------------------ rounding

  /** n / d rounded to the nearest integer, ties to even. */
  function RoundHalfEven(n: int, d: int): int
    requires d >= 1
  {
    var q, r := n / d, n % d;
    if 2 * r < d || (2 * r == d && q % 2 == 0) then q else q + 1
  }

  lemma Multiples(d: int, j: int)
    requires d >= 1
    ensures j >= 2 ==> j * d >= 2 * d
    ensures j <= -1 ==> j * d <= -d
  {
    if j >= 2 {
      assert (j - 2) * d >= 0;
    } else if j <= -1 {
      assert (-1 - j) * d >= 0;
    }
  }

  lemma NearestByParts(n: int, d: int, q: int, r: int, k: int)
    requires d >= 1 && 0 <= r < d && n == q * d + r
    ensures k == (if 2 * r < d || (2 * r == d && q % 2 == 0) then q else q + 1) <==>
            && 2 * (n - k * d) <= d && 2 * (k * d - n) <= d
            && (2 * (n - k * d) == d || 2 * (k * d - n) == d ==> k % 2 == 0)
  {
    var j := k - q;
    Multiples(d, j);
    var jd := j * d;
    assert k * d == q * d + jd;
    assert j == 0 ==> jd == 0;
    assert j == 1 ==> jd == d;
  }

  /** The result is the one nearest integer, and the even one of two equally near. */
  lemma RoundHalfEvenIsNearest(n: int, d: int, k: int)
    requires d >= 1
    ensures k == RoundHalfEven(n, d) <==>
            && 2 * (n - k * d) <= d && 2 * (k * d - n) <= d
            && (2 * (n - k * d) == d || 2 * (k * d - n) == d ==> k % 2 == 0)
  {
    var q, r := n / d, n % d;
    NearestByParts(n, d, q, r, k);
  }

  lemma QuotientIsMonotone(m: int, n: int, d: int)
    requires d >= 1 && m <= n
    ensures m / d <= n / d
    ensures m / d == n / d ==> m % d <= n % d
  {
    var q, p := m / d, n / d;
    var r, t := m % d, n % d;
    assert m == q * d + r && n == p * d + t;
    Multiples(d, p - q);
    assert (p - q) * d == p * d - q * d;
  }

  lemma RoundHalfEvenIsMonotone(m: int, n: int, d: int)
    requires d >= 1 && m <= n
    ensures RoundHalfEven(m, d) <= RoundHalfEven(n, d)
  {
    QuotientIsMonotone(m, n, d);
  }

  lemma RoundOfMultiple(k: int, d: int)
    requires d >= 1
    ensures RoundHalfEven(k * d, d) == k
  {
    RoundHalfEvenIsNearest(k * d, d, k);
  }

  // ------------------------------------------------------------------ monthly charges

  function DiscountPercent(i: Interval): int {
    match i case Monthly => 0 case Quarterly => 7 case Yearly => 15
  }

  function ApplyDiscount(price: int, i: Interval): int {
    if DiscountPercent(i) <= 0 then price else RoundHalfEven(price * (100 - DiscountPercent(i)), 100)
  }

  function MonthlyCharge(price: int, i: Interval): int { (ApplyDiscount(price, i) / 100) * 100 }

  lemma MonthlyChargeIsMonotone(p: int, q: int, i: Interval)
    requires p <= q
    ensures MonthlyCharge(p, i) <= MonthlyCharge(q, i)
    ensures MonthlyCharge(p, i) % 100 == 0
  {
    var rate := 100 - DiscountPercent(i);
    assert p * rate <= q * rate;
    RoundHalfEvenIsMonotone(p * rate, q * rate, 100);
    FloorToHundred(ApplyDiscount(p, i), ApplyDiscount(q, i));
  }

  lemma FloorToHundred(a: int, b: int)
    requires a <= b
    ensures (a / 100) * 100 <= (b / 100) * 100 && (a / 100) * 100 <= a && ((a / 100) * 100) % 100 == 0
  {
  }

  /** A longer interval never costs more a month, and no interval costs more than the list price. */
  lemma LongerIntervalsCostNoMore(price: nat)
    ensures 0 <= MonthlyCharge(price, Yearly) <= MonthlyCharge(price, Quarterly) <= MonthlyCharge(price, Monthly) <= price
  {
    RoundHalfEvenIsMonotone(0, price * 85, 100);
    RoundHalfEvenIsMonotone(price * 85, price * 93, 100);
    RoundHalfEvenIsMonotone(price * 93, price * 100, 100);
    RoundOfMultiple(0, 100);
    RoundOfMultiple(price, 100);
    assert ApplyDiscount(price, Yearly) == RoundHalfEven(price * 85, 100);
    assert ApplyDiscount(price, Quarterly) == RoundHalfEven(price * 93, 100);
    FloorToHundred(0, ApplyDiscount(price, Yearly));
    FloorToHundred(ApplyDiscount(price, Yearly), ApplyDiscount(price, Quarterly));
    FloorToHundred(ApplyDiscount(price, Quarterly), price);
    FloorToHundred(price, price);
  }

  // ------------------------------------------------------------------ remaining days and credit

  datatype Share = Share(total: int, remaining: int)

  function ProrationDays(start: Date, end: Date, today: Date): Share
    requires Valid(start) && Valid(end) && Valid(today)
  {
    var total := Max(1, Ordinal(end) - Ordinal(start) + 1);
    var remaining :=
      if Earlier(today, start) then total
      else if Earlier(end, today) then 0
      else Ordinal(end) - Ordinal(today) + 1;
    Share(total, Max(0, Min(remaining, total)))
  }

  function CoverageEnd(trialEnds: Option<Instant>, fallback: Date): Date {
    if trialEnds.Some? && Earlier(fallback, trialEnds.value.date) then trialEnds.value.date else fallback
  }

  function CoverageStart(end: Date, i: Interval): Date {
    var (year, month) := AddMonths(end.year, end.month, -Multiplier(i));
    DueDay(12 * year + month - 1)
  }

  function Credit(oldCharge: int, days: Share): int
    requires days.total >= 1
  {
    Max(0, RoundHalfEven(oldCharge * days.remaining, Max(1, days.total)))
  }

  lemma CoverageStartsBeforeItEnds(end: Date, i: Interval)
    requires Valid(end)
    ensures Valid(CoverageStart(end, i)) && Earlier(CoverageStart(end, i), end)
  {
    var (year, month) := AddMonths(end.year, end.month, -Multiplier(i));
    DueDayFacts(12 * year + month - 1);
    IndexOrder(CoverageStart(end, i), end);
  }

  lemma ShareBounds(start: Date, end: Date, today: Date)
    requires Valid(start) && Valid(end) && Valid(today)
    ensures
      var s := ProrationDays(start, end, today);
      && 1 <= s.total && 0 <= s.remaining <= s.total
      && (Earlier(start, end) && NotLater(today, start) ==> s.remaining == s.total)
      && (Earlier(end, today) && !Earlier(today, start) ==> s.remaining == 0)
  {
    OrdinalOrder(start, end);
    OrdinalOrder(today, start);
    OrdinalOrder(end, today);
  }

  lemma RemainingDaysFall(start: Date, end: Date, today: Date, later: Date)
    requires Valid(start) && Valid(end) && Valid(today) && Valid(later)
    requires Earlier(start, end) && NotLater(today, later)
    ensures ProrationDays(start, end, later).remaining <= ProrationDays(start, end, today).remaining
    ensures ProrationDays(start, end, later).total == ProrationDays(start, end, today).total
  {
    OrdinalOrder(start, end);
    OrdinalOrder(today, later);
    OrdinalOrder(today, start);
    OrdinalOrder(later, start);
    OrdinalOrder(end, today);
    OrdinalOrder(end, later);
  }

  lemma CreditBounds(oldCharge: nat, days: Share)
    requires days.total >= 1 && 0 <= days.remaining <= days.total
    ensures 0 <= Credit(oldCharge, days) <= oldCharge
    ensures days.remaining == days.total ==> Credit(oldCharge, days) == oldCharge
    ensures days.remaining == 0 ==> Credit(oldCharge, days) == 0
  {
    assert 0 <= oldCharge * days.remaining <= oldCharge * days.total;
    RoundHalfEvenIsMonotone(oldCharge * days.remaining, oldCharge * days.total, days.total);
    RoundOfMultiple(oldCharge, days.total);
    RoundOfMultiple(0, days.total);
  }

  /** In a fixed coverage window the credit for an upgrade never grows as the days pass. */
  lemma CreditNeverGrows(oldCharge: nat, start: Date, end: Date, today: Date, later: Date)
    requires Valid(start) && Valid(end) && Valid(today) && Valid(later)
    requires Earlier(start, end) && NotLater(today, later)
    ensures ProrationDays(start, end, today).total >= 1
    ensures Credit(oldCharge, ProrationDays(start, end, later)) <= Credit(oldCharge, ProrationDays(start, end, today))
  {
    RemainingDaysFall(start, end, today, later);
    CreditFollowsShare(oldCharge, ProrationDays(start, end, later), ProrationDays(start, end, today));
  }

  lemma CreditFollowsShare(oldCharge: nat, a: Share, b: Share)
    requires a.total == b.total >= 1 && a.remaining <= b.remaining
    ensures Credit(oldCharge, a) <= Credit(oldCharge, b)
  {
    ProductIsMonotone(oldCharge, a.remaining, b.remaining);
    RoundHalfEvenIsMonotone(oldCharge * a.remaining, oldCharge * b.remaining, a.total);
  }

  lemma ProductIsMonotone(k: nat, a: int, b: int)
    requires a <= b
    ensures k * a <= k * b
  {
  }

  // ------------------------------------------------------------------ plans and upgrades

  datatype Plan = Plan(price: nat, knowledgeBases: nat, storageGb: nat, trainingChars: nat, trialDays: nat)

  function PlanOf(plans: map<string, Plan>, code: string): Plan
    requires "free" in plans
  {
    if code in plans then plans[code] else plans["free"]
  }

  predicate IsDowngrade(plans: map<string, Plan>, current: string, next: string)
    requires "free" in plans
  {
    var a, b := PlanOf(plans, current), PlanOf(plans, next);
    b.price < a.price || b.knowledgeBases < a.knowledgeBases || b.storageGb < a.storageGb
  }

  predicate UpgradeTarget(plans: map<string, Plan>, current: string, next: string)
    requires "free" in plans
  {
    next in plans && !IsDowngrade(plans, current, next)
  }

  function TrainingFee(code: string): nat {
    if code == "starter" then 2900 else if code == "growth" then 8900 else if code == "business" then 48900 else 0
  }

  function UpgradeTrainingFee(current: string, next: string): int {
    Max(0, TrainingFee(next) - TrainingFee(current))
  }

  datatype Preview = Preview(days: Share, oldCharge: int, nextCharge: int, credit: int, trainingFee: int, total: int,
                             paidUntil: Date)

  function ComputeUpgradeProration(current: string, interval: Interval, trialEnds: Option<Instant>, next: string,
                                   nextInterval: Interval, plans: map<string, Plan>, periodEnd: Date, today: Date): Option<Preview>
    requires "free" in plans && Valid(periodEnd) && Valid(today) && (trialEnds.Some? ==> Valid(trialEnds.value.date))
  {
    if !UpgradeTarget(plans, current, next) || (current == next && interval == nextInterval) then None
    else
      var end := CoverageEnd(trialEnds, periodEnd);
      CoverageStartsBeforeItEnds(end, interval);
      var days := ProrationDays(CoverageStart(end, interval), end, today);
      var oldCharge := MonthlyCharge(PlanOf(plans, current).price, interval) * Multiplier(interval);
      var nextCharge := MonthlyCharge(plans[next].price, nextInterval) * Multiplier(nextInterval);
      var credit := Credit(oldCharge, days);
      var fee := UpgradeTrainingFee(current, next);
      Some(Preview(days, oldCharge, nextCharge, credit, fee, Max(0, nextCharge - credit) + Max(0, fee),
                   AddMonthsToDate(today, Multiplier(nextInterval))))
  }

  lemma ChargeIsNonNegative(price: nat, i: Interval)
    ensures MonthlyCharge(price, i) >= 0 && MonthlyCharge(price, i) * Multiplier(i) >= 0
  {
    LongerIntervalsCostNoMore(price);
  }

  /** An accepted upgrade costs at least the training fee difference and at most that plus the new charge;
      its credit is at most the old charge; paid-until lies after today. */
  lemma UpgradeChargeBounds(current: string, interval: Interval, trialEnds: Option<Instant>, next: string,
                            nextInterval: Interval, plans: map<string, Plan>, periodEnd: Date, today: Date)
    requires "free" in plans && Valid(periodEnd) && Valid(today) && (trialEnds.Some? ==> Valid(trialEnds.value.date))
    ensures
      var p := ComputeUpgradeProration(current, interval, trialEnds, next, nextInterval, plans, periodEnd, today);
      p.Some? ==>
        && 0 <= p.value.credit <= p.value.oldCharge
        && 0 <= p.value.trainingFee <= p.value.total <= p.value.nextCharge + p.value.trainingFee
        && p.value.total >= p.value.nextCharge - p.value.oldCharge + p.value.trainingFee
        && Earlier(today, p.value.paidUntil)
  {
    var p := ComputeUpgradeProration(current, interval, trialEnds, next, nextInterval, plans, periodEnd, today);
    if p.Some? {
      var end := CoverageEnd(trialEnds, periodEnd);
      CoverageStartsBeforeItEnds(end, interval);
      ShareBounds(CoverageStart(end, interval), end, today);
      ChargeIsNonNegative(PlanOf(plans, current).price, interval);
      ChargeIsNonNegative(plans[next].price, nextInterval);
      CreditBounds(p.value.oldCharge, p.value.days);
      RenewalMovesForward(today, Multiplier(nextInterval));
    }
  }

  // Training fees along a chain of upgrades.

  const DEFAULT_PLANS: map<string, Plan> :=
    map["free" := Plan(0, 1, 1, 500000, 7), "starter" := Plan(3900, 1, 1, 1000000, 0),
        "growth" := Plan(8900, 3, 5, 5000000, 0), "business" := Plan(24900, 10, 10, 25000000, 0)]

  function FeesPaid(codes: seq<string>): int {
    if |codes| < 2 then 0 else UpgradeTrainingFee(codes[0], codes[1]) + FeesPaid(codes[1..])
  }

  /** In any catalogue the fees paid along a chain cover the difference, and equal it exactly when no step
      goes to a plan with a lower fee. */
  lemma {:induction false} FeesCoverDifference(codes: seq<string>)
    requires codes != []
    ensures FeesPaid(codes) >= TrainingFee(codes[|codes| - 1]) - TrainingFee(codes[0])
    ensures FeesPaid(codes) == TrainingFee(codes[|codes| - 1]) - TrainingFee(codes[0]) <==>
            forall i :: 0 <= i < |codes| - 1 ==> TrainingFee(codes[i]) <= TrainingFee(codes[i + 1])
    decreases |codes|
  {
    if |codes| > 1 {
      var rest := codes[1..];
      FeesCoverDifference(rest);
      assert rest[|rest| - 1] == codes[|codes| - 1];
      if forall i :: 0 <= i < |rest| - 1 ==> TrainingFee(rest[i]) <= TrainingFee(rest[i + 1]) {
        forall i | 0 < i < |codes| - 1 && TrainingFee(codes[0]) <= TrainingFee(codes[1])
          ensures TrainingFee(codes[i]) <= TrainingFee(codes[i + 1])
        {
          assert rest[i - 1] == codes[i] && rest[i - 1 + 1] == codes[i + 1];
        }
      } else {
        var i :| 0 <= i < |rest| - 1 && TrainingFee(rest[i]) > TrainingFee(rest[i + 1]);
        assert TrainingFee(codes[i + 1]) > TrainingFee(codes[i + 2]);
      }
    }
  }

  lemma AcceptedUpgradeRaisesFee(current: string, next: string)
    requires UpgradeTarget(DEFAULT_PLANS, current, next)
    ensures TrainingFee(current) <= TrainingFee(next)
  {
  }

  /** With the default plans, accepted upgrades telescope: stopping on the way costs no extra training fee. */
  lemma UpgradeFeesTelescope(codes: seq<string>)
    requires codes != []
    requires forall i :: 0 <= i < |codes| - 1 ==> UpgradeTarget(DEFAULT_PLANS, codes[i], codes[i + 1])
    ensures FeesPaid(codes) == TrainingFee(codes[|codes| - 1]) - TrainingFee(codes[0])
  {
    forall i | 0 <= i < |codes| - 1
      ensures TrainingFee(codes[i]) <= TrainingFee(codes[i + 1])
    {
      AcceptedUpgradeRaisesFee(codes[i], codes[i + 1]);
    }
    FeesCoverDifference(codes);
  }
}
