/** Payment webhooks: every event is recorded once, before it is acted on
    (backend/apps/billing/service.py, backend/apps/billing/repositories.py).
 */
module PaymentEvents {
  import opened Basics
  import opened CivilCalendar
  import opened BillingPeriods
  import opened BillingChain
  import opened Proration

  datatype EventKey = EventKey(provider: string, eventId: string)

  /** The part of a subscription row that an upgrade touches. */
  datatype PlanRow = PlanRow(plan: string, interval: Interval, trialEnds: Option<Instant>, carryover: nat,
                             scheduled: Option<Schedule>)

  /** Invoices are keyed by the number of the recorded event. */
  datatype UpgradeInvoice = UpgradeInvoice(tenant: int, event: nat, plan: string, interval: Interval, total: int)

  /** Tenants with the moment they were created; a tenant need not have a subscription row yet. */
  datatype Books = Books(tenants: map<int, Instant>, recorded: seq<EventKey>, rows: map<int, PlanRow>,
                         invoices: seq<UpgradeInvoice>)

  /** Names are in normal form; an amount of 0 means none was sent. */
  datatype Delivery = Delivery(key: EventKey, kind: string, tenant: int, flow: string, plan: string, interval: Interval,
                               amount: int, now: Instant)

  /** UnknownTenant is the broken foreign key of the event row, which is then not written. */
  datatype Answer = Rejected | Duplicate | UnknownTenant | Recorded | ActionFailed | Processed

  type Plans = c: map<string, Plan> | "free" in c witness DEFAULT_PLANS

  predicate ValidRows(s: Books) {
    && (forall t :: t in s.tenants ==> ValidInstant(s.tenants[t]))
    && (forall t :: t in s.rows && s.rows[t].trialEnds.Some? ==> ValidInstant(s.rows[t].trialEnds.value))
  }

  /** The free trial a tenant gets when it is first looked at. */
  function TrialRow(plans: Plans, created: Instant): PlanRow
    requires ValidInstant(created)
  {
    PlanRow("free", Monthly, Some(Instant(AddDays(created.date, plans["free"].trialDays), created.second)),
            plans["free"].trainingChars, None)
  }

  function EnsureSubscription(plans: Plans, s: Books, tenant: int): (t: Books)
    requires ValidRows(s) && tenant in s.tenants
    ensures ValidRows(t) && tenant in t.rows && t.recorded == s.recorded && t.invoices == s.invoices && t.tenants == s.tenants
    ensures tenant in s.rows ==> t == s
  {
    if tenant in s.rows then s else s.(rows := s.rows[tenant := TrialRow(plans, s.tenants[tenant])])
  }

  predicate Acceptable(d: Delivery) { d.key.provider != "" && d.key.eventId != "" && d.tenant > 0 }

  predicate IsUpgrade(d: Delivery) {
    d.flow == "plan_upgrade"
    && (d.kind == "checkout.session.completed" || d.kind == "invoice.paid" || d.kind == "payment.succeeded")
  }

  function PreviewFor(plans: Plans, row: PlanRow, d: Delivery): Option<Preview>
    requires ValidInstant(d.now) && (row.trialEnds.Some? ==> ValidInstant(row.trialEnds.value))
  {
    PeriodShape(d.now);
    DueDayFacts(CurrentMonthPeriod(d.now).key + 1);
    ComputeUpgradeProration(row.plan, row.interval, row.trialEnds, d.plan, d.interval, plans,
                            CurrentMonthPeriod(d.now).end.date, d.now.date)
  }

  function Upgraded(plans: Plans, row: PlanRow, d: Delivery, paidUntil: Date): PlanRow
    requires d.plan in plans
  {
    PlanRow(d.plan, d.interval, if d.plan == "free" then row.trialEnds else Some(Midnight(paidUntil)),
            Max(row.carryover, plans[d.plan].trainingChars), None)
  }

  /** What acting on a recorded upgrade does to a tenant's row and invoices; None when it fails. */
  function Act(plans: Plans, s: Books, d: Delivery, event: nat): Option<Books>
    requires ValidRows(s) && ValidInstant(d.now) && d.tenant in s.rows
  {
    var preview := PreviewFor(plans, s.rows[d.tenant], d);
    if preview.None? then None
    else
      var total := if d.amount != 0 then d.amount else preview.value.total;
      var taken := exists i :: 0 <= i < |s.invoices| && s.invoices[i].tenant == d.tenant && s.invoices[i].event == event;
      Some(s.(rows := s.rows[d.tenant := Upgraded(plans, s.rows[d.tenant], d, preview.value.paidUntil)],
              invoices := if taken then s.invoices
                          else s.invoices + [UpgradeInvoice(d.tenant, event, d.plan, d.interval, total)]))
  }

  function Process(plans: Plans, s: Books, d: Delivery): (result: (Books, Answer))
    requires ValidRows(s) && ValidInstant(d.now)
    ensures ValidRows(result.0) && result.0.tenants == s.tenants
  {
    if !Acceptable(d) then (s, Rejected)
    else if d.key in s.recorded then (s, Duplicate)
    else if d.tenant !in s.tenants then (s, UnknownTenant)
    else
      var recorded := s.(recorded := s.recorded + [d.key]);
      if !IsUpgrade(d) then (recorded, Recorded)
      else
        var subscribed := EnsureSubscription(plans, recorded, d.tenant);
        var done := Act(plans, subscribed, d, |s.recorded|);
        if done.None? then (subscribed, ActionFailed) else (done.value, Processed)
  }

  class PaymentLedger {
    var tenants: map<int, Instant>
    var recorded: seq<EventKey>
    var rows: map<int, PlanRow>
    var invoices: seq<UpgradeInvoice>

    constructor (start: Books)
      ensures Ledger() == start
    {
      tenants, recorded, rows, invoices := start.tenants, start.recorded, start.rows, start.invoices;
    }

    ghost function Ledger(): Books
      reads this
    {
      Books(tenants, recorded, rows, invoices)
    }

    /** None stands for the broken foreign key of an unknown tenant. */
    method RecordPaymentEventOnce(key: EventKey, tenant: int) returns (number: Option<nat>, isNew: bool)
      modifies this`recorded
      ensures number.None? <==> key !in old(recorded) && tenant !in tenants
      ensures isNew <==> key !in old(recorded) && tenant in tenants
      ensures recorded == if isNew then old(recorded) + [key] else old(recorded)
      ensures number.Some? ==> number.value < |recorded| && recorded[number.value] == key
      ensures isNew ==> number == Some(|old(recorded)|)
    {
      var i := 0;
      while i < |recorded| && recorded[i] != key
        invariant i <= |recorded| && key !in recorded[..i]
      {
        i := i + 1;
      }
      if i < |recorded| {
        return Some(i), false;
      }
      assert recorded[..|recorded|] == recorded;
      if tenant !in tenants {
        return None, false;
      }
      recorded := recorded + [key];
      number, isNew := Some(i), true;
    }

    method EnsureRow(plans: Plans, tenant: int)
      requires ValidRows(Ledger()) && tenant in tenants
      modifies this`rows
      ensures Ledger() == EnsureSubscription(plans, old(Ledger()), tenant)
    {
      if tenant !in rows {
        rows := rows[tenant := TrialRow(plans, tenants[tenant])];
      }
    }

    method Upgrade(plans: Plans, d: Delivery, number: nat) returns (done: bool)
      requires ValidRows(Ledger()) && ValidInstant(d.now) && d.tenant in rows
      modifies this`rows, this`invoices
      ensures done <==> Act(plans, old(Ledger()), d, number).Some?
      ensures Ledger() == if done then Act(plans, old(Ledger()), d, number).value else old(Ledger())
    {
      var preview := PreviewFor(plans, rows[d.tenant], d);
      if preview.None? {
        return false;
      }
      rows := rows[d.tenant := Upgraded(plans, rows[d.tenant], d, preview.value.paidUntil)];
      if !exists i :: 0 <= i < |invoices| && invoices[i].tenant == d.tenant && invoices[i].event == number {
        invoices := invoices + [UpgradeInvoice(d.tenant, number, d.plan, d.interval,
                                               if d.amount != 0 then d.amount else preview.value.total)];
      }
      done := true;
    }

    method ProcessVerifiedPaymentEvent(plans: Plans, d: Delivery) returns (answer: Answer)
      requires ValidRows(Ledger()) && ValidInstant(d.now)
      modifies this`recorded, this`rows, this`invoices
      ensures (Ledger(), answer) == Process(plans, old(Ledger()), d)
    {
      if d.key.provider == "" || d.key.eventId == "" || d.tenant <= 0 {
        return Rejected;
      }
      var number, isNew := RecordPaymentEventOnce(d.key, d.tenant);
      if number.None? {
        return UnknownTenant;
      }
      if !isNew {
        return Duplicate;
      }
      if !IsUpgrade(d) {
        return Recorded;
      }
      EnsureRow(plans, d.tenant);
      var done := Upgrade(plans, d, number.value);
      answer := if done then Processed else ActionFailed;
    }
  }

  // ------------------------------------------------------------------ runs of deliveries

  predicate ValidTimes(ds: seq<Delivery>) { forall i :: 0 <= i < |ds| ==> ValidInstant(ds[i].now) }

  function DeliverAll(plans: Plans, s: Books, ds: seq<Delivery>): Books
    requires ValidRows(s) && ValidTimes(ds)
    decreases |ds|
  {
    if ds == [] then s else DeliverAll(plans, Process(plans, s, ds[0]).0, ds[1..])
  }

  /** A delivery that can be recorded: well-formed, and for a tenant there is. */
  predicate Recordable(tenants: set<int>, d: Delivery) { Acceptable(d) && d.tenant in tenants }

  /** Keeps the first recordable delivery of each event that was not `seen` before. */
  function WithoutRepeats(tenants: set<int>, seen: set<EventKey>, ds: seq<Delivery>): (kept: seq<Delivery>)
    ensures ValidTimes(ds) ==> ValidTimes(kept)
    decreases |ds|
  {
    if ds == [] then []
    else if Recordable(tenants, ds[0]) && ds[0].key !in seen
    then [ds[0]] + WithoutRepeats(tenants, seen + {ds[0].key}, ds[1..])
    else WithoutRepeats(tenants, seen, ds[1..])
  }

  function Seen(s: Books): set<EventKey> { set k | k in s.recorded }

  /** Repeated deliveries change nothing, whether the first one was acted on, only recorded, or recorded and
      then failed. */
  lemma {:induction false} RepeatsChangeNothing(plans: Plans, s: Books, ds: seq<Delivery>)
    requires ValidRows(s) && ValidTimes(ds)
    ensures DeliverAll(plans, s, ds) == DeliverAll(plans, s, WithoutRepeats(s.tenants.Keys, Seen(s), ds))
    decreases |ds|
  {
    if ds != [] {
      var t := Process(plans, s, ds[0]).0;
      RepeatsChangeNothing(plans, t, ds[1..]);
      if Recordable(s.tenants.Keys, ds[0]) && ds[0].key !in Seen(s) {
        RecordingIsSeen(plans, s, ds[0]);
        var rest := WithoutRepeats(t.tenants.Keys, Seen(t), ds[1..]);
        assert ([ds[0]] + rest)[1..] == rest;
      }
    }
  }

  lemma RecordingIsSeen(plans: Plans, s: Books, d: Delivery)
    requires ValidRows(s) && ValidInstant(d.now) && Recordable(s.tenants.Keys, d) && d.key !in Seen(s)
    ensures Seen(Process(plans, s, d).0) == Seen(s) + {d.key}
  {
    assert Process(plans, s, d).0.recorded == s.recorded + [d.key];
  }

  /** Events are recorded once, and each upgrade invoice belongs to an event of its own. */
  ghost predicate OneInvoicePerEvent(s: Books) {
    && (forall i, j :: 0 <= i < j < |s.recorded| ==> s.recorded[i] != s.recorded[j])
    && (forall i :: 0 <= i < |s.invoices| ==> s.invoices[i].event < |s.recorded|)
    && (forall i, j :: 0 <= i < j < |s.invoices| ==> s.invoices[i].event != s.invoices[j].event)
  }

  lemma {:induction false} NoEventIsInvoicedTwice(plans: Plans, s: Books, ds: seq<Delivery>)
    requires ValidRows(s) && ValidTimes(ds) && OneInvoicePerEvent(s)
    ensures OneInvoicePerEvent(DeliverAll(plans, s, ds))
    decreases |ds|
  {
    if ds != [] {
      ProcessKeepsOneInvoice(plans, s, ds[0]);
      NoEventIsInvoicedTwice(plans, Process(plans, s, ds[0]).0, ds[1..]);
    }
  }

  /** At most one invoice, numbered after the event, comes on top of the others. */
  predicate AddsAtMost(s: Books, t: Books, event: nat) {
    t.invoices == s.invoices
    || (|t.invoices| == |s.invoices| + 1 && t.invoices[..|s.invoices|] == s.invoices && t.invoices[|s.invoices|].event == event)
  }

  lemma ActAddsAtMostOne(plans: Plans, s: Books, d: Delivery, event: nat)
    requires ValidRows(s) && ValidInstant(d.now) && d.tenant in s.rows
    ensures
      var t := Act(plans, s, d, event);
      t.Some? ==> t.value.recorded == s.recorded && AddsAtMost(s, t.value, event)
  {
  }

  lemma ProcessAddsAtMostOne(plans: Plans, s: Books, d: Delivery)
    requires ValidRows(s) && ValidInstant(d.now)
    ensures
      var t := Process(plans, s, d).0;
      || (t.recorded == s.recorded && t.invoices == s.invoices)
      || (t.recorded == s.recorded + [d.key] && d.key !in s.recorded && AddsAtMost(s, t, |s.recorded|))
  {
    if Acceptable(d) && d.key !in s.recorded && d.tenant in s.tenants {
      var subscribed := EnsureSubscription(plans, s.(recorded := s.recorded + [d.key]), d.tenant);
      ActAddsAtMostOne(plans, subscribed, d, |s.recorded|);
    }
  }

  lemma OneMoreInvoice(s: Books, t: Books, key: EventKey)
    requires OneInvoicePerEvent(s) && t.recorded == s.recorded + [key] && key !in s.recorded && AddsAtMost(s, t, |s.recorded|)
    ensures OneInvoicePerEvent(t)
  {
    assert t.invoices != s.invoices ==> t.invoices == s.invoices + [t.invoices[|s.invoices|]];
  }

  lemma ProcessKeepsOneInvoice(plans: Plans, s: Books, d: Delivery)
    requires ValidRows(s) && ValidInstant(d.now) && OneInvoicePerEvent(s)
    ensures OneInvoicePerEvent(Process(plans, s, d).0)
  {
    var t := Process(plans, s, d).0;
    ProcessAddsAtMostOne(plans, s, d);
    if t.recorded != s.recorded {
      OneMoreInvoice(s, t, d.key);
    }
  }

  // ------------------------------------------------------------------ what one delivery leaves

  /** The answer to a delivery: malformed, known, of an unknown tenant, of no interest, or an upgrade that is possible or
      not. */
  lemma AnswerIs(plans: Plans, s: Books, d: Delivery)
    requires ValidRows(s) && ValidInstant(d.now)
    ensures
      var answer := Process(plans, s, d).1;
      var isNew := d.key.provider != "" && d.key.eventId != "" && d.tenant > 0 && d.key !in s.recorded && d.tenant in s.tenants;
      var upgrade := d.flow == "plan_upgrade"
                     && (d.kind == "checkout.session.completed" || d.kind == "invoice.paid" || d.kind == "payment.succeeded");
      && (answer == Rejected <==> d.key.provider == "" || d.key.eventId == "" || d.tenant <= 0)
      && (answer == Duplicate <==> answer != Rejected && d.key in s.recorded)
      && (answer == UnknownTenant <==> answer != Rejected && d.key !in s.recorded && d.tenant !in s.tenants)
      && (answer == Recorded <==> isNew && !upgrade)
      && (answer == ActionFailed || answer == Processed <==> isNew && upgrade)
  {
  }

  /** The row of a tenant who had none: the free plan, billed monthly, on trial for the plan's days from its creation. */
  lemma NewRowIsFreeTrial(plans: Plans, s: Books, tenant: int)
    requires ValidRows(s) && tenant in s.tenants && tenant !in s.rows
    ensures
      var row, created := EnsureSubscription(plans, s, tenant).rows[tenant], s.tenants[tenant];
      && row.plan == "free" && row.interval == Monthly && row.scheduled.None? && row.carryover == plans["free"].trainingChars
      && row.trialEnds.Some? && row.trialEnds.value.second == created.second && Valid(row.trialEnds.value.date)
      && Ordinal(row.trialEnds.value.date) == Ordinal(created.date) + plans["free"].trialDays
  {
  }

  /** A processed upgrade leaves the tenant on the plan and interval asked for, paid for one interval from that day, with
      nothing scheduled and no training characters lost; other rows stay; the invoice names the event and the amount sent,
      or else the amount computed. */
  lemma UpgradeLeaves(plans: Plans, s: Books, d: Delivery)
    requires ValidRows(s) && ValidInstant(d.now) && Process(plans, s, d).1 == Processed
    ensures
      var t := Process(plans, s, d).0;
      var before := EnsureSubscription(plans, s, d.tenant).rows[d.tenant];
      && d.tenant in t.rows && d.plan in plans
      && t.rows[d.tenant].plan == d.plan && t.rows[d.tenant].interval == d.interval && t.rows[d.tenant].scheduled.None?
      && t.rows[d.tenant].carryover == Max(before.carryover, plans[d.plan].trainingChars)
      && t.rows[d.tenant].trialEnds ==
           (if d.plan == "free" then before.trialEnds else Some(Midnight(AddMonthsToDate(d.now.date, Multiplier(d.interval)))))
      && (forall u :: u in s.rows && u != d.tenant ==> u in t.rows && t.rows[u] == s.rows[u])
      && t.recorded == s.recorded + [d.key]
  {
    UpgradeOf(plans, EnsureSubscription(plans, s.(recorded := s.recorded + [d.key]), d.tenant), d, |s.recorded|);
  }

  lemma UpgradeOf(plans: Plans, s: Books, d: Delivery, event: nat)
    requires ValidRows(s) && ValidInstant(d.now) && d.tenant in s.rows && Act(plans, s, d, event).Some?
    ensures
      var t, before := Act(plans, s, d, event).value, s.rows[d.tenant];
      && d.plan in plans && t.recorded == s.recorded && t.tenants == s.tenants
      && t.rows.Keys == s.rows.Keys && (forall u :: u in s.rows && u != d.tenant ==> t.rows[u] == s.rows[u])
      && t.rows[d.tenant].plan == d.plan && t.rows[d.tenant].interval == d.interval && t.rows[d.tenant].scheduled.None?
      && t.rows[d.tenant].carryover == Max(before.carryover, plans[d.plan].trainingChars)
      && t.rows[d.tenant].trialEnds ==
           (if d.plan == "free" then before.trialEnds else Some(Midnight(AddMonthsToDate(d.now.date, Multiplier(d.interval)))))
      && (t.invoices == s.invoices <==> exists i :: i in s.invoices && i.tenant == d.tenant && i.event == event)
  {
    var t := Act(plans, s, d, event).value;
    if i :| i in s.invoices && i.tenant == d.tenant && i.event == event {
      var k :| 0 <= k < |s.invoices| && s.invoices[k] == i;
      assert t.invoices == s.invoices;
    }
    assert t.invoices == s.invoices || |t.invoices| == |s.invoices| + 1;
  }

  /** Its invoice is for the tenant and the event, and for the amount sent, or else for the amount computed that day. */
  lemma UpgradeInvoiceIs(plans: Plans, s: Books, d: Delivery)
    requires ValidRows(s) && ValidInstant(d.now) && OneInvoicePerEvent(s) && Process(plans, s, d).1 == Processed
    ensures
      var t := Process(plans, s, d).0;
      var row := EnsureSubscription(plans, s, d.tenant).rows[d.tenant];
      && PreviewFor(plans, row, d).Some?
      && t.invoices == s.invoices + [UpgradeInvoice(d.tenant, |s.recorded|, d.plan, d.interval,
                                                    if d.amount != 0 then d.amount else PreviewFor(plans, row, d).value.total)]
  {
    assert !exists i :: 0 <= i < |s.invoices| && s.invoices[i].tenant == d.tenant && s.invoices[i].event == |s.recorded|;
  }

  /** What is previewed is the upgrade from the tenant's row on the day of the event, in the period that is running. */
  lemma PreviewIs(plans: Plans, row: PlanRow, d: Delivery)
    requires ValidInstant(d.now) && (row.trialEnds.Some? ==> ValidInstant(row.trialEnds.value))
    ensures
      var end := CurrentMonthPeriod(d.now).end.date;
      && Valid(end)
      && PreviewFor(plans, row, d)
         == ComputeUpgradeProration(row.plan, row.interval, row.trialEnds, d.plan, d.interval, plans, end, d.now.date)
  {
    PeriodShape(d.now);
    DueDayFacts(CurrentMonthPeriod(d.now).key + 1);
  }
}
