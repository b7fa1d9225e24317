/** When a scheduled plan change takes effect (backend/apps/billing/workflows.py, backend/apps/billing/service.py).

    The change is stored with the key of the period it is meant for. The renewal use case waits for that period;
    billing does not, neither in a settlement nor in a cycle pass.
 */
module ScheduledChanges {
  import opened Basics
  import opened CivilCalendar
  import opened BillingPeriods
  import opened BillingChain

  /** A cycle pass bills an active tenant's paid plan that is neither overdue nor cancelled, once it is due and
      not yet invoiced. */
  predicate BillsInPass(s: State, now: Instant, cancelled: Option<Instant>)
    requires ValidState(s) && ValidInstant(now)
  {
    && s.sub.plan != "free" && Overdue(s, now).None? && !(cancelled.Some? && !Sooner(now, cancelled.value))
    && !Earlier(now.date, DueDate(s.sub)) && !HasInvoice(s.paid, DueDate(s.sub))
  }

  predicate KeepsSchedule(s: State, op: Op)
    requires ValidState(s) && ValidOp(op) && s.sub.scheduled.Some?
  {
    var key := s.sub.scheduled.value.effectiveKey;
    match op
    case CyclePass(now, cancelled) => !s.tenantActive || (!ScheduledChangeDue(now, key) && !BillsInPass(s, now, cancelled))
    case Settle(now, succeeds) => !succeeds && key != CurrentMonthPeriod(now).key
  }

  /** The change is still waiting and nothing of it shows. */
  predicate Waiting(s: State, t: State) {
    t.sub.scheduled == s.sub.scheduled && t.sub.plan == s.sub.plan && t.sub.interval == s.sub.interval
  }

  /** The change has been made: its plan, and its interval if it names one. */
  predicate Applied(s: State, t: State)
    requires s.sub.scheduled.Some?
  {
    var change := s.sub.scheduled.value;
    && t.sub.scheduled.None? && t.sub.plan == change.plan
    && t.sub.interval == (if change.interval.Some? then change.interval.value else s.sub.interval)
  }

  /** A billing attempt leaves the change waiting exactly if it is not due and not forced, or it fails in another
      period than the change is meant for. */
  lemma BillingKeepsScheduleIff(s: State, now: Instant, outcome: Outcome, force: bool)
    requires ValidState(s) && ValidInstant(now) && s.sub.scheduled.Some?
    ensures
      var t := Complete(s, now, outcome, force);
      var keeps := || (Earlier(now.date, DueDate(s.sub)) && !force)
                   || (outcome == Failed && s.sub.scheduled.value.effectiveKey != CurrentMonthPeriod(now).key);
      (Waiting(s, t) <==> keeps) && (Applied(s, t) <==> !keeps)
  {
  }

  lemma SyncKeepsSchedule(s: State, now: Instant, cancelled: Option<Instant>)
    requires ValidState(s) && ValidInstant(now) && (cancelled.Some? ==> ValidInstant(cancelled.value))
    ensures
      var t := Sync(s, now, cancelled);
      && Waiting(s, t) && t.paid == s.paid && DueDate(t.sub) == DueDate(s.sub)
      && (s.sub.plan != "free" ==>
            (t.sub.status == Restricted <==> Overdue(s, now).Some? || (cancelled.Some? && !Sooner(now, cancelled.value))))
  {
  }

  lemma BillKeepsScheduleIff(s: State, now: Instant)
    requires ValidState(s) && ValidInstant(now) && s.sub.scheduled.Some?
    ensures
      var t := Bill(s, now);
      var bills := s.sub.plan != "free" && s.sub.status != Restricted && !Earlier(now.date, DueDate(s.sub))
                   && !HasInvoice(s.paid, DueDate(s.sub));
      (Waiting(s, t) <==> !bills) && (Applied(s, t) <==> bills)
  {
    BillingKeepsScheduleIff(s, now, Success, false);
  }

  lemma AppliedStays(s: State, now: Instant, cancelled: Option<Instant>)
    requires ValidState(s) && ValidInstant(now) && (cancelled.Some? ==> ValidInstant(cancelled.value))
    requires s.sub.scheduled.None?
    ensures
      var t := Bill(Sync(s, now, cancelled), now);
      t.sub.scheduled.None? && t.sub.plan == s.sub.plan && t.sub.interval == s.sub.interval
  {
    SyncKeepsRows(s, now, cancelled);
  }

  /** A cycle pass leaves the change waiting exactly if the tenant is switched off, or neither the renewal step's
      window is open nor the pass bills. */
  lemma PassKeepsScheduleIff(s: State, now: Instant, cancelled: Option<Instant>)
    requires ValidState(s) && ValidInstant(now) && (cancelled.Some? ==> ValidInstant(cancelled.value))
    requires s.sub.scheduled.Some?
    ensures
      var t, op := Pass(s, now, cancelled), CyclePass(now, cancelled);
      (Waiting(s, t) <==> KeepsSchedule(s, op)) && (Applied(s, t) <==> !KeepsSchedule(s, op))
  {
    if s.tenantActive {
      if ScheduledChangeDue(now, s.sub.scheduled.value.effectiveKey) {
        AppliedStays(Apply(s, now), now, cancelled);
      } else {
        SyncKeepsSchedule(s, now, cancelled);
        BillKeepsScheduleIff(Sync(s, now, cancelled), now);
      }
    }
  }

  lemma OpKeepsScheduleIff(s: State, op: Op)
    requires ValidState(s) && ValidOp(op) && s.sub.scheduled.Some?
    ensures Waiting(s, Perform(s, op)) <==> KeepsSchedule(s, op)
    ensures Applied(s, Perform(s, op)) <==> !KeepsSchedule(s, op)
  {
    match op
    case CyclePass(now, cancelled) => PassKeepsScheduleIff(s, now, cancelled);
    case Settle(now, succeeds) => BillingKeepsScheduleIff(s, now, if succeeds then Success else Failed, true);
  }

  // ------------------------------------------------------------------ runs

  predicate KeepsScheduleAlong(s: State, clock: Instant, ops: seq<Op>)
    requires ValidState(s) && Timed(clock, ops) && s.sub.scheduled.Some?
    decreases |ops|
  {
    ops == [] ||
    (KeepsSchedule(s, ops[0])
     && (OpKeepsScheduleIff(s, ops[0]);
         KeepsScheduleAlong(Perform(s, ops[0]), ops[0].now, ops[1..])))
  }

  lemma NothingScheduled(s: State, op: Op)
    requires ValidState(s) && ValidOp(op) && s.sub.scheduled.None?
    ensures Perform(s, op).sub.scheduled.None? && Perform(s, op).sub.plan == s.sub.plan
    ensures Perform(s, op).sub.interval == s.sub.interval
  {
    if op.CyclePass? && s.tenantActive {
      AppliedStays(s, op.now, op.cancelled);
    }
  }

  lemma {:induction false} NothingScheduledAlong(s: State, clock: Instant, ops: seq<Op>)
    requires ValidState(s) && Timed(clock, ops) && s.sub.scheduled.None?
    ensures Run(s, clock, ops).sub.scheduled.None? && Run(s, clock, ops).sub.plan == s.sub.plan
    ensures Run(s, clock, ops).sub.interval == s.sub.interval
    decreases |ops|
  {
    if ops != [] {
      NothingScheduled(s, ops[0]);
      NothingScheduledAlong(Perform(s, ops[0]), ops[0].now, ops[1..]);
    }
  }

  /** Over any run of passes and settlements the change is still waiting at the end exactly if every operation kept
      it, and otherwise it has been made. */
  lemma {:induction false} RunKeepsScheduleIff(s: State, clock: Instant, ops: seq<Op>)
    requires ValidState(s) && Timed(clock, ops) && s.sub.scheduled.Some?
    ensures Waiting(s, Run(s, clock, ops)) <==> KeepsScheduleAlong(s, clock, ops)
    ensures Applied(s, Run(s, clock, ops)) <==> !KeepsScheduleAlong(s, clock, ops)
    decreases |ops|
  {
    if ops != [] {
      OpKeepsScheduleIff(s, ops[0]);
      var t := Perform(s, ops[0]);
      if KeepsSchedule(s, ops[0]) {
        RunKeepsScheduleIff(t, ops[0].now, ops[1..]);
      } else {
        NothingScheduledAlong(t, ops[0].now, ops[1..]);
      }
    }
  }

  /** A billing that makes the change reckons the next due date with the new interval only in the change's own period;
      otherwise the tenant first pays for one more of the old intervals. */
  lemma NextDueDateAfterChange(s: State, now: Instant, force: bool)
    requires ValidState(s) && ValidInstant(now) && s.sub.scheduled.Some? && (force || !Earlier(now.date, DueDate(s.sub)))
    ensures
      var t, change := Complete(s, now, Success, force), s.sub.scheduled.value;
      var own := change.effectiveKey == CurrentMonthPeriod(now).key && change.interval.Some?;
      && Applied(s, t) && t.sub.status == Active
      && DueDate(t.sub) == AddMonthsToDate(DueDate(s.sub), Multiplier(if own then change.interval.value else s.sub.interval))
  {
    BillingKeepsScheduleIff(s, now, Success, force);
  }

  /** The renewal step's change to the free plan keeps the trial as it stands; one to a paid plan ends it. */
  lemma StatusAfterRenewalStep(s: State, now: Instant)
    requires ValidState(s) && ValidInstant(now) && s.sub.scheduled.Some?
    requires ScheduledChangeDue(now, s.sub.scheduled.value.effectiveKey)
    ensures
      var t := Apply(s, now);
      && Applied(s, t) && t.sub.updatedAt == now && t.paid == s.paid && t.failed == s.failed && t.tenantActive == s.tenantActive
      && (if s.sub.scheduled.value.plan == "free"
          then t.sub.status == Trial && t.sub.trialStarted == s.sub.trialStarted && t.sub.trialEnds == s.sub.trialEnds
          else t.sub.status == Active && t.sub.trialStarted.None? && t.sub.trialEnds.None?)
  {
  }

  /** The renewal step forgets how far a tenant has paid: after a change to a paid plan the due date is one interval
      after the subscription began, so it stays where it was exactly if it was that day already. */
  lemma PaidChangeResetsDueDate(s: State, now: Instant)
    requires ValidState(s) && ValidInstant(now) && s.sub.scheduled.Some? && s.sub.scheduled.value.plan != "free"
    requires ScheduledChangeDue(now, s.sub.scheduled.value.effectiveKey)
    ensures
      var t := Apply(s, now);
      var anchor := AddMonthsToDate(s.sub.createdAt.date, Multiplier(t.sub.interval));
      Applied(s, t) && (DueDate(t.sub) == DueDate(s.sub) <==> DueDate(s.sub) == anchor)
  {
  }

  // ------------------------------------------------------------------ too early

  /** The clock has not reached the period the change is meant for. */
  predicate Before(s: State, now: Instant)
    requires ValidInstant(now) && s.sub.scheduled.Some?
  {
    CurrentMonthPeriod(now).key < s.sub.scheduled.value.effectiveKey
  }

  predicate BillsEarly(s: State, op: Op)
    requires ValidState(s) && ValidOp(op)
  {
    match op
    case CyclePass(now, cancelled) => s.tenantActive && BillsInPass(s, now, cancelled)
    case Settle(_, succeeds) => succeeds
  }

  /** Before its period a change is made exactly by a payment: a successful settlement, or a cycle pass that bills. */
  lemma EarlyChangeIff(s: State, op: Op)
    requires ValidState(s) && ValidOp(op) && s.sub.scheduled.Some? && Before(s, op.now)
    ensures Applied(s, Perform(s, op)) <==> BillsEarly(s, op)
    ensures Waiting(s, Perform(s, op)) <==> !BillsEarly(s, op)
  {
    OpKeepsScheduleIff(s, op);
  }

  /** No operation before the change's period makes the change. */
  predicate NeverEarly(s: State, clock: Instant, ops: seq<Op>)
    requires ValidState(s) && Timed(clock, ops)
    decreases |ops|
  {
    ops == [] ||
    ((s.sub.scheduled.Some? && Before(s, ops[0].now) ==> Waiting(s, Perform(s, ops[0])))
     && NeverEarly(Perform(s, ops[0]), ops[0].now, ops[1..]))
  }

  /** No operation before the change's period is a payment. */
  predicate NoEarlyPayment(s: State, clock: Instant, ops: seq<Op>)
    requires ValidState(s) && Timed(clock, ops)
    decreases |ops|
  {
    ops == [] ||
    ((s.sub.scheduled.Some? && Before(s, ops[0].now) ==> !BillsEarly(s, ops[0]))
     && NoEarlyPayment(Perform(s, ops[0]), ops[0].now, ops[1..]))
  }

  /** Over any run a change never takes effect before its period exactly if nothing is paid before it. */
  lemma {:induction false} NeverEarlyIff(s: State, clock: Instant, ops: seq<Op>)
    requires ValidState(s) && Timed(clock, ops)
    ensures NeverEarly(s, clock, ops) <==> NoEarlyPayment(s, clock, ops)
    decreases |ops|
  {
    if ops != [] {
      if s.sub.scheduled.Some? && Before(s, ops[0].now) {
        EarlyChangeIff(s, ops[0]);
      }
      NeverEarlyIff(Perform(s, ops[0]), ops[0].now, ops[1..]);
    }
  }

  /** A change asked for at `requested` waits for the next period, so within its own it is early. */
  lemma RequestedPeriodIsBefore(s: State, requested: Instant, now: Instant)
    requires ValidInstant(requested) && ValidInstant(now)
    requires s.sub.scheduled.Some? && s.sub.scheduled.value.effectiveKey == EffectiveKey(requested)
    ensures Before(s, now) <==> CurrentMonthPeriod(now).key <= CurrentMonthPeriod(requested).key
  {
    ScheduledChangeWindow(requested, now);
  }

  /** Paid until 20 March 2024, a downgrade asked for on the 10th for the period of April. */
  function SampleState(): State {
    var created := Instant(Date(2024, 2, 20), 0);
    State(Subscription("growth", Monthly, Active, None, Some(Midnight(Date(2024, 3, 20))), created, created,
                       Some(Schedule("starter", None, 12 * 2024 + 3))),
          [], [], true)
  }

  lemma MarchPeriod()
    ensures DueDay(12 * 2024 + 2) == Date(2024, 3, 5)
    ensures CurrentMonthPeriod(Midnight(Date(2024, 3, 10))).key == 12 * 2024 + 2
    ensures CurrentMonthPeriod(Midnight(Date(2024, 3, 20))).key == 12 * 2024 + 2
    ensures EffectiveKey(Midnight(Date(2024, 3, 10))) == 12 * 2024 + 3
  {
    assert DaysBeforeMonth(2024, 3) == 60;
    assert Weekday(Date(2024, 3, 5)) == 1;
    PeriodShape(Midnight(Date(2024, 3, 10)));
    PeriodShape(Midnight(Date(2024, 3, 20)));
    ScheduledChangeWindow(Midnight(Date(2024, 3, 10)), Midnight(Date(2024, 3, 10)));
  }

  lemma SampleBills(s: State, due: Instant)
    requires s == SampleState() && due == Midnight(Date(2024, 3, 20))
    ensures ValidState(s) && ValidInstant(due) && BillsEarly(s, CyclePass(due, None))
  {
  }

  /** The ordinary cycle pass on 20 March makes the change, and so does a settlement on the 10th, the day it was
      asked for. */
  lemma EarlyChangeHappens(s: State, asked: Instant, due: Instant)
    requires s == SampleState() && asked == Midnight(Date(2024, 3, 10)) && due == Midnight(Date(2024, 3, 20))
    ensures ValidState(s) && ValidInstant(due) && ValidInstant(asked)
    ensures s.sub.scheduled.value.effectiveKey == EffectiveKey(asked) && Before(s, asked) && Before(s, due)
    ensures Applied(s, Perform(s, CyclePass(due, None))) && Applied(s, Perform(s, Settle(asked, true)))
  {
    MarchPeriod();
    SampleBills(s, due);
    EarlyChangeIff(s, CyclePass(due, None));
    EarlyChangeIff(s, Settle(asked, true));
  }
}
