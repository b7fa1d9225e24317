/** The renewal engine of one tenant: due dates, paid and failed invoices, status, and the cycle pass
    (backend/apps/billing/service.py and backend/apps/billing/workflows.py).
 */
module BillingChain {
  import opened Basics
  import opened CivilCalendar
  import opened BillingPeriods

  datatype Status = Trial | Active | Restricted

  /** A change waiting for the period `effectiveKey`; without an interval the current one stays. */
  datatype Schedule = Schedule(plan: string, interval: Option<Interval>, effectiveKey: int)

  datatype Subscription = Subscription(plan: string, interval: Interval, status: Status, trialStarted: Option<Instant>,
                                       trialEnds: Option<Instant>, createdAt: Instant, updatedAt: Instant,
                                       scheduled: Option<Schedule>)

  /** Renewal invoices are keyed by the day they bill; checkout invoices by a time stamp. */
  datatype InvoiceKey = Dated(day: Date) | Stamped(stamp: int)

  datatype Invoice = Invoice(key: InvoiceKey, nextBilling: Date, issuedAt: Instant)

  datatype Failure = Failure(day: Date, dueAt: Date, issuedAt: Instant)

  /** Invoice lists are in order of issue. */
  datatype State = State(sub: Subscription, paid: seq<Invoice>, failed: seq<Failure>, tenantActive: bool)

  datatype Outcome = Success | Failed

  predicate ValidSub(sub: Subscription) {
    && ValidInstant(sub.createdAt) && ValidInstant(sub.updatedAt)
    && (sub.trialStarted.Some? ==> ValidInstant(sub.trialStarted.value))
    && (sub.trialEnds.Some? ==> ValidInstant(sub.trialEnds.value))
  }

  predicate ValidState(s: State) {
    && ValidSub(s.sub)
    && (forall i :: 0 <= i < |s.paid| ==> ValidInstant(s.paid[i].issuedAt))
    && (forall i :: 0 <= i < |s.failed| ==> ValidInstant(s.failed[i].issuedAt) && Valid(s.failed[i].dueAt))
  }

  // ------------------------------------------------------------------ what each step computes

  function DueDate(sub: Subscription): (due: Date)
    ensures ValidSub(sub) ==> Valid(due)
  {
    if sub.trialEnds.Some? then sub.trialEnds.value.date
    else
      var anchor := if sub.trialStarted.Some? then sub.trialStarted.value else sub.createdAt;
      AddMonthsToDate(anchor.date, Multiplier(sub.interval))
  }

  /** The latest failed invoice, unless something was paid after it. */
  function OpenFailure(s: State): Option<Failure> {
    if s.failed == [] then None
    else
      var f := s.failed[|s.failed| - 1];
      if s.paid != [] && Sooner(f.issuedAt, s.paid[|s.paid| - 1].issuedAt) then None else Some(f)
  }

  predicate HasInvoice(paid: seq<Invoice>, day: Date) { exists i :: 0 <= i < |paid| && paid[i].key == Dated(day) }

  predicate HasFailure(failed: seq<Failure>, day: Date) { exists i :: 0 <= i < |failed| && failed[i].day == day }

  function ApplySchedule(sub: Subscription, now: Instant): Subscription
    requires sub.scheduled.Some?
  {
    var change := sub.scheduled.value;
    var free := change.plan == "free";
    sub.(plan := change.plan, interval := if change.interval.Some? then change.interval.value else sub.interval,
         status := if free then Trial else Active, trialStarted := if free then sub.trialStarted else None,
         trialEnds := if free then sub.trialEnds else None, scheduled := None, updatedAt := now)
  }

  function ScheduledNow(sub: Subscription, now: Instant): Subscription
    requires ValidInstant(now)
  {
    if sub.scheduled.Some? && sub.scheduled.value.effectiveKey == CurrentMonthPeriod(now).key
    then ApplySchedule(sub, now) else sub
  }

  function BillSuccess(s: State, now: Instant): (t: State)
    requires ValidState(s) && ValidInstant(now)
    ensures ValidState(t)
  {
    var day, open, sub := DueDate(s.sub), OpenFailure(s), ScheduledNow(s.sub, now);
    var billed := if open.Some? then open.value.day else day;
    var next := AddMonthsToDate(day, Multiplier(sub.interval));
    State(Renew(sub, next, now),
          if HasInvoice(s.paid, billed) then s.paid else s.paid + [Invoice(Dated(billed), next, now)],
          s.failed, s.tenantActive)
  }

  function BillFailure(s: State, now: Instant): (t: State)
    requires ValidState(s) && ValidInstant(now)
    ensures ValidState(t)
  {
    var day, open := DueDate(s.sub), OpenFailure(s);
    State(ScheduledNow(s.sub, now), s.paid,
          if HasFailure(s.failed, day) then s.failed
          else s.failed + [Failure(day, if open.Some? then open.value.dueAt else day, now)],
          s.tenantActive)
  }

  function Complete(s: State, now: Instant, outcome: Outcome, force: bool): (t: State)
    requires ValidState(s) && ValidInstant(now)
    ensures ValidState(t)
  {
    if Earlier(now.date, DueDate(s.sub)) && !force then s
    else if outcome == Success then BillSuccess(s, now) else BillFailure(s, now)
  }

  /** Paid until `next`; whatever change was scheduled takes effect with the payment. */
  function Renew(sub: Subscription, next: Date, now: Instant): Subscription {
    var changed :=
      if sub.scheduled.None? then sub
      else sub.(plan := sub.scheduled.value.plan,
                interval := if sub.scheduled.value.interval.Some? then sub.scheduled.value.interval.value else sub.interval);
    changed.(status := Active, trialStarted := None, trialEnds := Some(Midnight(next)), scheduled := None, updatedAt := now)
  }

  function Overdue(s: State, now: Instant): Option<Failure>
    requires ValidState(s) && ValidInstant(now)
  {
    var open := OpenFailure(s);
    if open.Some? && Earlier(open.value.dueAt, now.date) && !Sooner(open.value.issuedAt, s.sub.updatedAt)
    then open else None
  }

  /** `cancelled` is the effective moment of an open cancellation whose access is not yet removed. */
  function Sync(s: State, now: Instant, cancelled: Option<Instant>): (t: State)
    requires ValidState(s) && ValidInstant(now) && (cancelled.Some? ==> ValidInstant(cancelled.value))
    ensures ValidState(t)
  {
    var overdue := Overdue(s, now);
    var ended := cancelled.Some? && !Sooner(now, cancelled.value);
    var status :=
      if overdue.Some? || ended then Restricted
      else if s.sub.plan == "free" then
        (if s.sub.trialEnds.Some? && !Sooner(now, s.sub.trialEnds.value) then Restricted else Trial)
      else Active;
    var deactivated :=
      || (ended && Ordinal(now.date) >= Ordinal(cancelled.value.date) + 7)
      || (overdue.Some? && Ordinal(now.date) >= Ordinal(overdue.value.dueAt) + 7);
    State(if status == s.sub.status then s.sub else s.sub.(status := status, updatedAt := now),
          s.paid, s.failed, s.tenantActive && !deactivated)
  }

  function Apply(s: State, now: Instant): (t: State)
    requires ValidState(s) && ValidInstant(now)
    ensures ValidState(t)
  {
    if s.sub.scheduled.Some? && ScheduledChangeDue(now, s.sub.scheduled.value.effectiveKey)
    then s.(sub := ApplySchedule(s.sub, now)) else s
  }

  function Bill(s: State, now: Instant): (t: State)
    requires ValidState(s) && ValidInstant(now)
    ensures ValidState(t)
  {
    if s.sub.plan == "free" || s.sub.status == Restricted || Earlier(now.date, DueDate(s.sub))
       || HasInvoice(s.paid, DueDate(s.sub))
    then s
    else Complete(s, now, Success, false)
  }

  function Pass(s: State, now: Instant, cancelled: Option<Instant>): (t: State)
    requires ValidState(s) && ValidInstant(now) && (cancelled.Some? ==> ValidInstant(cancelled.value))
    ensures ValidState(t)
  {
    if !s.tenantActive then s else Bill(Sync(Apply(s, now), now, cancelled), now)
  }

  // ------------------------------------------------------------------ the code

  class BillingRows {
    var sub: Subscription
    var paid: seq<Invoice>
    var failed: seq<Failure>
    var tenantActive: bool

    constructor (start: State)
      ensures Rows() == start
    {
      sub, paid, failed, tenantActive := start.sub, start.paid, start.failed, start.tenantActive;
    }

    ghost function Rows(): State
      reads this
    {
      State(sub, paid, failed, tenantActive)
    }

    method LatestUnsettledFailure() returns (open: Option<Failure>)
      requires ValidState(Rows())
      ensures open == OpenFailure(Rows())
    {
      open := None;
      if |failed| > 0 {
        var latest := failed[|failed| - 1];
        var paidAfter := |paid| > 0 && Sooner(latest.issuedAt, paid[|paid| - 1].issuedAt);
        if !paidAfter {
          open := Some(latest);
        }
      }
    }

    method CompleteSubscriptionBilling(now: Instant, outcome: Outcome, force: bool) returns (billed: bool)
      requires ValidState(Rows()) && ValidInstant(now)
      modifies this
      ensures Rows() == Complete(old(Rows()), now, outcome, force)
      ensures billed == (outcome == Success && (force || !Earlier(now.date, DueDate(old(sub)))))
    {
      var day := DueDate(sub);
      if Earlier(now.date, day) && !force {
        return false;
      }
      var open := LatestUnsettledFailure();
      if sub.scheduled.Some? && sub.scheduled.value.effectiveKey == CurrentMonthPeriod(now).key {
        sub := ApplySchedule(sub, now);
      }
      if outcome == Success {
        var key := if open.Some? then open.value.day else day;
        var next := AddMonthsToDate(day, Multiplier(sub.interval));
        if !HasInvoice(paid, key) {
          paid := paid + [Invoice(Dated(key), next, now)];
        }
        if sub.scheduled.Some? {
          var change := sub.scheduled.value;
          sub := sub.(plan := change.plan, interval := if change.interval.Some? then change.interval.value else sub.interval);
        }
        sub := sub.(status := Active, trialStarted := None, trialEnds := Some(Midnight(next)), scheduled := None,
                    updatedAt := now);
        return true;
      }
      if !HasFailure(failed, day) {
        failed := failed + [Failure(day, if open.Some? then open.value.dueAt else day, now)];
      }
      return false;
    }

    method SettleSubscription(now: Instant, paymentSucceeds: bool)
      requires ValidState(Rows()) && ValidInstant(now)
      modifies this
      ensures Rows() == Complete(old(Rows()), now, if paymentSucceeds then Success else Failed, true)
    {
      var _ := CompleteSubscriptionBilling(now, if paymentSucceeds then Success else Failed, true);
    }

    method SyncStatus(now: Instant, cancelled: Option<Instant>)
      requires ValidState(Rows()) && ValidInstant(now) && (cancelled.Some? ==> ValidInstant(cancelled.value))
      modifies this
      ensures Rows() == Sync(old(Rows()), now, cancelled)
    {
      var mustRestrict := false;
      if cancelled.Some? && !Sooner(now, cancelled.value) {
        mustRestrict := true;
        if Ordinal(now.date) >= Ordinal(cancelled.value.date) + 7 {
          tenantActive := false;
        }
      }
      var overdue := LatestUnsettledFailure();
      if overdue.Some? && !Earlier(overdue.value.dueAt, now.date) {
        overdue := None;
      }
      if overdue.Some? && Sooner(overdue.value.issuedAt, sub.updatedAt) {
        overdue := None;
      }
      var status := Active;
      if overdue.Some? {
        status := Restricted;
      } else if sub.plan == "free" {
        status := if sub.trialEnds.Some? && !Sooner(now, sub.trialEnds.value) then Restricted else Trial;
      }
      if mustRestrict {
        status := Restricted;
      }
      if overdue.Some? && Ordinal(now.date) >= Ordinal(overdue.value.dueAt) + 7 {
        tenantActive := false;
      }
      if status != sub.status {
        sub := sub.(status := status, updatedAt := now);
      }
    }

    method ProcessTenant(now: Instant, cancelled: Option<Instant>)
      requires ValidState(Rows()) && ValidInstant(now) && (cancelled.Some? ==> ValidInstant(cancelled.value))
      modifies this
      ensures Rows() == Pass(old(Rows()), now, cancelled)
    {
      if !tenantActive {
        return;
      }
      var period := CurrentMonthPeriod(now);
      if NotLater(period.dueThisMonth, now.date) && sub.scheduled.Some? && sub.scheduled.value.effectiveKey == period.key {
        sub := ApplySchedule(sub, now);
      }
      SyncStatus(now, cancelled);
      if sub.plan == "free" || sub.status == Restricted || Earlier(now.date, DueDate(sub)) {
        return;
      }
      if HasInvoice(paid, DueDate(sub)) {
        return;
      }
      var _ := CompleteSubscriptionBilling(now, Success, false);
    }
  }

  // ------------------------------------------------------------------ runs

  datatype Op = CyclePass(now: Instant, cancelled: Option<Instant>) | Settle(now: Instant, succeeds: bool)

  predicate ValidOp(op: Op) {
    ValidInstant(op.now) && (op.CyclePass? && op.cancelled.Some? ==> ValidInstant(op.cancelled.value))
  }

  /** Clock readings increase strictly from `clock` on. */
  predicate Timed(clock: Instant, ops: seq<Op>)
    decreases |ops|
  {
    ops == [] || (ValidOp(ops[0]) && Sooner(clock, ops[0].now) && Timed(ops[0].now, ops[1..]))
  }

  function Perform(s: State, op: Op): (t: State)
    requires ValidState(s) && ValidOp(op)
    ensures ValidState(t)
  {
    match op
    case CyclePass(now, cancelled) => Pass(s, now, cancelled)
    case Settle(now, succeeds) => Complete(s, now, if succeeds then Success else Failed, true)
  }

  function Run(s: State, clock: Instant, ops: seq<Op>): State
    requires ValidState(s) && Timed(clock, ops)
    decreases |ops|
  {
    if ops == [] then s else Run(Perform(s, ops[0]), ops[0].now, ops[1..])
  }

  ghost predicate IssuedBefore(s: State, clock: Instant) {
    && (forall i :: 0 <= i < |s.paid| ==> Sooner(s.paid[i].issuedAt, clock))
    && (forall i :: 0 <= i < |s.failed| ==> Sooner(s.failed[i].issuedAt, clock))
  }

  ghost predicate IssuedBy(s: State, clock: Instant) {
    && (forall i :: 0 <= i < |s.paid| ==> !Sooner(clock, s.paid[i].issuedAt))
    && (forall i :: 0 <= i < |s.failed| ==> !Sooner(clock, s.failed[i].issuedAt))
  }

  /** From place n on, the paid invoices bill the dates of the renewal chain that starts at `first`, each
      naming the next one, and the current due date is the chain's next date. An unsettled failure belongs to it. */
  ghost predicate Chained(s: State, n: nat, first: Date) {
    && ValidState(s) && s.sub.scheduled.None? && n <= |s.paid| && Valid(first)
    && (forall i :: 0 <= i < n ==> s.paid[i].key.Stamped?)
    && (forall i {:trigger s.paid[i]} :: n <= i < |s.paid| ==>
          && s.paid[i].key == Dated(Renewed(first, Multiplier(s.sub.interval), i - n))
          && s.paid[i].nextBilling == Renewed(first, Multiplier(s.sub.interval), i - n + 1))
    && DueDate(s.sub) == Renewed(first, Multiplier(s.sub.interval), |s.paid| - n)
    && (OpenFailure(s).Some? ==> OpenFailure(s).value.day == DueDate(s.sub))
  }

  /** Before renewals begin: no dated invoice, nothing unsettled, no change waiting. */
  ghost predicate Initial(s: State) {
    && ValidState(s) && s.sub.scheduled.None? && OpenFailure(s).None?
    && forall i :: 0 <= i < |s.paid| ==> s.paid[i].key.Stamped?
  }

  lemma {:induction false} ChainOrder(first: Date, step: int, i: nat, j: nat)
    requires Valid(first) && step >= 1 && i < j
    ensures Earlier(Renewed(first, step, i), Renewed(first, step, j))
    decreases j
  {
    RenewalsIncrease(first, step, j - 1);
    if i < j - 1 {
      ChainOrder(first, step, i, j - 1);
    }
  }

  lemma DueDateIsNotYetBilled(s: State, n: nat, first: Date)
    requires Chained(s, n, first)
    ensures !HasInvoice(s.paid, DueDate(s.sub))
  {
    forall i | 0 <= i < |s.paid|
      ensures s.paid[i].key != Dated(DueDate(s.sub))
    {
      if i >= n {
        ChainOrder(first, Multiplier(s.sub.interval), i - n, |s.paid| - n);
      }
    }
  }

  lemma SuccessKeepsChain(s: State, n: nat, first: Date, now: Instant)
    requires Chained(s, n, first) && ValidInstant(now) && IssuedBefore(s, now)
    ensures
      var t := BillSuccess(s, now);
      && Chained(t, n, first) && IssuedBy(t, now) && OpenFailure(t).None? && t.sub.interval == s.sub.interval
      && t.paid == s.paid + [Invoice(Dated(DueDate(s.sub)), DueDate(t.sub), now)]
      && DueDate(t.sub) == AddMonthsToDate(DueDate(s.sub), Multiplier(s.sub.interval))
  {
    var t, step := BillSuccess(s, now), Multiplier(s.sub.interval);
    DueDateIsNotYetBilled(s, n, first);
    assert t.paid == s.paid + [Invoice(Dated(DueDate(s.sub)), DueDate(t.sub), now)];
    assert Renewed(first, step, |t.paid| - n) == AddMonthsToDate(Renewed(first, step, |s.paid| - n), step);
    assert OpenFailure(t).None?;
  }

  lemma FailureKeepsChain(s: State, n: nat, first: Date, now: Instant)
    requires Chained(s, n, first) && ValidInstant(now) && IssuedBefore(s, now)
    ensures Chained(BillFailure(s, now), n, first) && IssuedBy(BillFailure(s, now), now)
    ensures BillFailure(s, now).sub == s.sub
  {
  }

  lemma SyncKeepsRows(s: State, now: Instant, cancelled: Option<Instant>)
    requires ValidState(s) && ValidInstant(now) && (cancelled.Some? ==> ValidInstant(cancelled.value))
    ensures
      var t := Sync(s, now, cancelled);
      && t.paid == s.paid && t.failed == s.failed
      && t.sub == s.sub.(status := t.sub.status, updatedAt := t.sub.updatedAt)
      && DueDate(t.sub) == DueDate(s.sub) && OpenFailure(t) == OpenFailure(s)
      && (OpenFailure(s).None? && cancelled.None? ==> t.tenantActive == s.tenantActive)
      && (OpenFailure(s).None? && cancelled.None? && s.sub.plan != "free" ==>
            t.sub.status == Active && (s.sub.status == Active ==> t == s))
  {
  }

  lemma PassShape(s: State, now: Instant, cancelled: Option<Instant>)
    requires ValidState(s) && s.sub.scheduled.None? && ValidInstant(now) && (cancelled.Some? ==> ValidInstant(cancelled.value))
    ensures Pass(s, now, cancelled) == s || Pass(s, now, cancelled) == Sync(s, now, cancelled)
         || Pass(s, now, cancelled) == BillSuccess(Sync(s, now, cancelled), now)
  {
  }

  lemma SyncKeepsChain(s: State, n: nat, first: Date, now: Instant, cancelled: Option<Instant>)
    requires Chained(s, n, first) && ValidInstant(now) && IssuedBefore(s, now)
    requires cancelled.Some? ==> ValidInstant(cancelled.value)
    ensures
      var t := Sync(s, now, cancelled);
      && Chained(t, n, first) && IssuedBefore(t, now) && IssuedBy(t, now) && t.sub.interval == s.sub.interval
  {
    SyncKeepsRows(s, now, cancelled);
  }

  lemma PassKeepsChain(s: State, n: nat, first: Date, now: Instant, cancelled: Option<Instant>)
    requires Chained(s, n, first) && ValidInstant(now) && IssuedBefore(s, now)
    requires cancelled.Some? ==> ValidInstant(cancelled.value)
    ensures
      var t := Pass(s, now, cancelled);
      && Chained(t, n, first) && IssuedBy(t, now) && t.sub.interval == s.sub.interval && |t.paid| >= |s.paid|
  {
    PassShape(s, now, cancelled);
    SyncKeepsRows(s, now, cancelled);
    SyncKeepsChain(s, n, first, now, cancelled);
    SuccessKeepsChain(Sync(s, now, cancelled), n, first, now);
  }

  lemma SettleKeepsChain(s: State, n: nat, first: Date, now: Instant, outcome: Outcome)
    requires Chained(s, n, first) && ValidInstant(now) && IssuedBefore(s, now)
    ensures
      var t := Complete(s, now, outcome, true);
      && Chained(t, n, first) && IssuedBy(t, now) && t.sub.interval == s.sub.interval && |t.paid| >= |s.paid|
  {
    if outcome == Success {
      SuccessKeepsChain(s, n, first, now);
    } else {
      FailureKeepsChain(s, n, first, now);
    }
  }

  lemma OpKeepsChain(s: State, n: nat, first: Date, op: Op)
    requires Chained(s, n, first) && ValidOp(op) && IssuedBefore(s, op.now)
    ensures
      var t := Perform(s, op);
      && Chained(t, n, first) && IssuedBy(t, op.now) && t.sub.interval == s.sub.interval && |t.paid| >= |s.paid|
  {
    match op
    case Settle(now, succeeds) => SettleKeepsChain(s, n, first, now, if succeeds then Success else Failed);
    case CyclePass(now, cancelled) => PassKeepsChain(s, n, first, now, cancelled);
  }

  lemma {:induction false} RunKeepsChain(s: State, n: nat, first: Date, clock: Instant, ops: seq<Op>)
    requires Chained(s, n, first) && Timed(clock, ops) && IssuedBy(s, clock)
    ensures Chained(Run(s, clock, ops), n, first) && Run(s, clock, ops).sub.interval == s.sub.interval
    ensures |Run(s, clock, ops).paid| >= |s.paid|
    decreases |ops|
  {
    if ops != [] {
      OpKeepsChain(s, n, first, ops[0]);
      RunKeepsChain(Perform(s, ops[0]), n, first, ops[0].now, ops[1..]);
    }
  }

  /** From place n on the invoices bill `first`, then each the day the one before it names, without
      repetition and all before the due date, which the last one names; an unsettled failure is for it. */
  ghost predicate OneChain(t: State, n: nat, first: Date) {
    && n <= |t.paid|
    && (forall i :: n <= i < |t.paid| ==> t.paid[i].key.Dated? && Earlier(t.paid[i].key.day, DueDate(t.sub)))
    && (forall i :: n <= i < |t.paid| - 1 ==> Dated(t.paid[i].nextBilling) == t.paid[i + 1].key)
    && (forall i, j :: n <= i < j < |t.paid| ==> t.paid[i].key != t.paid[j].key)
    && (n < |t.paid| ==> t.paid[n].key == Dated(first) && t.paid[|t.paid| - 1].nextBilling == DueDate(t.sub))
    && (n == |t.paid| ==> DueDate(t.sub) == first)
    && (OpenFailure(t).Some? ==> OpenFailure(t).value.day == DueDate(t.sub))
  }

  lemma ChainKeysDiffer(t: State, n: nat, first: Date)
    requires Chained(t, n, first)
    ensures forall i, j :: n <= i < j < |t.paid| ==> t.paid[i].key != t.paid[j].key
  {
    forall i, j | n <= i < j < |t.paid|
      ensures t.paid[i].key != t.paid[j].key
    {
      ChainOrder(first, Multiplier(t.sub.interval), i - n, j - n);
    }
  }

  lemma ChainKeysAreBehind(t: State, n: nat, first: Date)
    requires Chained(t, n, first)
    ensures forall i :: n <= i < |t.paid| ==> t.paid[i].key.Dated? && Earlier(t.paid[i].key.day, DueDate(t.sub))
  {
    forall i | n <= i < |t.paid|
      ensures t.paid[i].key.Dated? && Earlier(t.paid[i].key.day, DueDate(t.sub))
    {
      ChainOrder(first, Multiplier(t.sub.interval), i - n, |t.paid| - n);
    }
  }

  lemma ChainLinks(t: State, n: nat, first: Date)
    requires Chained(t, n, first)
    ensures forall i :: n <= i < |t.paid| - 1 ==> Dated(t.paid[i].nextBilling) == t.paid[i + 1].key
    ensures n < |t.paid| ==> t.paid[n].key == Dated(first) && t.paid[|t.paid| - 1].nextBilling == DueDate(t.sub)
    ensures n == |t.paid| ==> DueDate(t.sub) == first
  {
    assert Renewed(first, Multiplier(t.sub.interval), 0) == first;
  }

  lemma ChainedMeansOneChain(t: State, n: nat, first: Date)
    requires Chained(t, n, first)
    ensures OneChain(t, n, first)
  {
    ChainKeysAreBehind(t, n, first);
    ChainKeysDiffer(t, n, first);
    ChainLinks(t, n, first);
  }

  lemma InitialIsChained(s: State)
    requires Initial(s)
    ensures Chained(s, |s.paid|, DueDate(s.sub))
  {
    assert Renewed(DueDate(s.sub), Multiplier(s.sub.interval), 0) == DueDate(s.sub);
  }

  /** Over any run of cycle passes and settlements, paid or failed, the renewal invoices form one chain
      without gaps that starts at the first due date. */
  lemma InvoicesFormOneChain(s: State, clock: Instant, ops: seq<Op>)
    requires Initial(s) && Timed(clock, ops) && IssuedBy(s, clock)
    ensures OneChain(Run(s, clock, ops), |s.paid|, DueDate(s.sub))
  {
    InitialIsChained(s);
    RunKeepsChain(s, |s.paid|, DueDate(s.sub), clock, ops);
    ChainedMeansOneChain(Run(s, clock, ops), |s.paid|, DueDate(s.sub));
  }

  // ------------------------------------------------------------------ catching up on one day

  /** A paid plan with access, nothing unsettled and no change waiting. */
  predicate Settled(s: State) {
    s.tenantActive && s.sub.plan != "free" && OpenFailure(s).None? && s.sub.scheduled.None?
  }

  lemma PassWhenDue(s: State, n: nat, first: Date, now: Instant)
    requires Chained(s, n, first) && Settled(s) && ValidInstant(now) && !Earlier(now.date, DueDate(s.sub))
    ensures Pass(s, now, None) == BillSuccess(Sync(s, now, None), now)
  {
    SyncKeepsRows(s, now, None);
    DueDateIsNotYetBilled(s, n, first);
  }

  lemma PassWhenNotDue(s: State, now: Instant)
    requires ValidState(s) && Settled(s) && ValidInstant(now) && Earlier(now.date, DueDate(s.sub))
    ensures Pass(s, now, None) == Sync(s, now, None)
  {
    SyncKeepsRows(s, now, None);
  }

  lemma PassBillsDueDate(s: State, n: nat, first: Date, now: Instant)
    requires Chained(s, n, first) && Settled(s) && ValidInstant(now) && IssuedBefore(s, now)
    requires !Earlier(now.date, DueDate(s.sub))
    ensures
      var t := Pass(s, now, None);
      && Chained(t, n, first) && Settled(t) && IssuedBy(t, now) && t.sub.status == Active
      && t.paid == s.paid + [Invoice(Dated(DueDate(s.sub)), DueDate(t.sub), now)]
      && Ordinal(DueDate(t.sub)) >= Ordinal(DueDate(s.sub)) + 28
  {
    SyncKeepsRows(s, now, None);
    PassWhenDue(s, n, first, now);
    SuccessKeepsChain(Sync(s, now, None), n, first, now);
    RenewalMovesForward(DueDate(s.sub), Multiplier(s.sub.interval));
  }

  /** On a settled paid subscription a pass bills exactly one chain date while one is due. */
  lemma PassBillsOneDate(s: State, n: nat, first: Date, now: Instant)
    requires Chained(s, n, first) && Settled(s) && ValidInstant(now) && IssuedBefore(s, now)
    ensures
      var t := Pass(s, now, None);
      && Chained(t, n, first) && Settled(t) && IssuedBy(t, now) && t.sub.status == Active
      && (if Earlier(now.date, DueDate(s.sub)) then
            t.paid == s.paid && DueDate(t.sub) == DueDate(s.sub) && (s.sub.status == Active ==> t == s)
          else
            && t.paid == s.paid + [Invoice(Dated(DueDate(s.sub)), DueDate(t.sub), now)]
            && Ordinal(DueDate(t.sub)) >= Ordinal(DueDate(s.sub)) + 28)
  {
    if Earlier(now.date, DueDate(s.sub)) {
      SyncKeepsRows(s, now, None);
      PassWhenNotDue(s, now);
    } else {
      PassBillsDueDate(s, n, first, now);
    }
  }

  predicate SameDay(day: Date, clock: Instant, nows: seq<Instant>)
    decreases |nows|
  {
    nows == [] ||
    (ValidInstant(nows[0]) && nows[0].date == day && Sooner(clock, nows[0]) && SameDay(day, nows[0], nows[1..]))
  }

  function Passes(s: State, day: Date, clock: Instant, nows: seq<Instant>): (t: State)
    requires ValidState(s) && SameDay(day, clock, nows)
    ensures ValidState(t)
    decreases |nows|
  {
    if nows == [] then s else Passes(Pass(s, nows[0], None), day, nows[0], nows[1..])
  }

  lemma {:induction false} NothingDueNothingBilled(s: State, n: nat, first: Date, clock: Instant, day: Date, nows: seq<Instant>)
    requires Chained(s, n, first) && Settled(s) && IssuedBy(s, clock) && SameDay(day, clock, nows)
    requires s.sub.status == Active && Earlier(day, DueDate(s.sub))
    ensures Passes(s, day, clock, nows) == s
    decreases |nows|
  {
    if nows != [] {
      PassBillsOneDate(s, n, first, nows[0]);
      NothingDueNothingBilled(s, n, first, nows[0], day, nows[1..]);
    }
  }

  lemma PassCatchesUp(s: State, n: nat, first: Date, now: Instant, k: nat)
    requires Chained(s, n, first) && Settled(s) && ValidInstant(now) && IssuedBefore(s, now)
    requires k >= 1 && Ordinal(DueDate(s.sub)) + 28 * k > Ordinal(now.date)
    ensures
      var t := Pass(s, now, None);
      || Earlier(now.date, DueDate(t.sub))
      || (k >= 2 && Valid(DueDate(t.sub)) && Ordinal(DueDate(t.sub)) + 28 * (k - 1) > Ordinal(now.date))
  {
    PassBillsOneDate(s, n, first, now);
    OrdinalOrder(now.date, DueDate(Pass(s, now, None).sub));
  }

  /** What passes of one day leave behind: every date billed was due, and nothing else changed the list. */
  ghost predicate BilledUpTo(s: State, t: State, day: Date) {
    && s.paid <= t.paid
    && (forall i :: |s.paid| <= i < |t.paid| ==> t.paid[i].key.Dated? && NotLater(t.paid[i].key.day, day))
  }

  lemma FixedOnceAhead(t: State, now: Instant)
    requires ValidState(t) && Settled(t) && t.sub.status == Active && ValidInstant(now) && Earlier(now.date, DueDate(t.sub))
    ensures Pass(t, now, None) == t
  {
    PassWhenNotDue(t, now);
    SyncKeepsRows(t, now, None);
  }

  lemma BilledInTurn(s: State, n: nat, first: Date, now: Instant)
    requires Chained(s, n, first) && Settled(s) && ValidInstant(now) && IssuedBefore(s, now)
    ensures BilledUpTo(s, Pass(s, now, None), now.date)
  {
    PassBillsOneDate(s, n, first, now);
  }

  lemma BilledThrough(s: State, t: State, u: State, day: Date)
    requires BilledUpTo(s, t, day) && BilledUpTo(t, u, day)
    ensures BilledUpTo(s, u, day)
  {
  }

  lemma {:induction false} PassesCatchUp(s: State, n: nat, first: Date, clock: Instant, day: Date, nows: seq<Instant>)
    requires Chained(s, n, first) && Settled(s) && IssuedBy(s, clock)
    requires SameDay(day, clock, nows) && nows != []
    requires Valid(day) && Ordinal(DueDate(s.sub)) + 28 * |nows| > Ordinal(day)
    ensures
      var t := Passes(s, day, clock, nows);
      Settled(t) && t.sub.status == Active && Earlier(day, DueDate(t.sub)) && BilledUpTo(s, t, day)
    decreases |nows|
  {
    var t := Pass(s, nows[0], None);
    PassBillsOneDate(s, n, first, nows[0]);
    BilledInTurn(s, n, first, nows[0]);
    PassCatchesUp(s, n, first, nows[0], |nows|);
    if Earlier(day, DueDate(t.sub)) {
      NothingDueNothingBilled(t, n, first, nows[0], day, nows[1..]);
    } else {
      PassesCatchUp(t, n, first, nows[0], day, nows[1..]);
      BilledThrough(s, t, Passes(s, day, clock, nows), day);
    }
  }

  /** Repeated passes on one day reach a fixpoint: after k passes, where 28 k exceeds the number of days the
      due date lies behind, it lies in the future and another pass that day changes no row; every date
      billed on the way was due. */
  lemma PassesReachFixpoint(s: State, n: nat, first: Date, clock: Instant, day: Date, nows: seq<Instant>, now: Instant)
    requires Chained(s, n, first) && Settled(s) && IssuedBy(s, clock)
    requires SameDay(day, clock, nows) && nows != []
    requires Valid(day) && Ordinal(DueDate(s.sub)) + 28 * |nows| > Ordinal(day)
    requires ValidInstant(now) && now.date == day
    ensures
      var t := Passes(s, day, clock, nows);
      Earlier(day, DueDate(t.sub)) && Pass(t, now, None) == t && BilledUpTo(s, t, day)
  {
    PassesCatchUp(s, n, first, clock, day, nows);
    FixedOnceAhead(Passes(s, day, clock, nows), now);
  }
}
