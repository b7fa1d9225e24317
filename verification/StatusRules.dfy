/** What a sync and a billing attempt leave behind, told from the rows they found (backend/apps/billing/workflows.py,
    backend/apps/billing/service.py).
 */
module StatusRules {
  import opened Basics
  import opened CivilCalendar
  import opened BillingPeriods
  import opened BillingChain

  // ------------------------------------------------------------------ which failure counts, and what is due

  /** A failure is unsettled if it is the last one and nothing was paid after it was issued. */
  lemma UnsettledIff(s: State, f: Failure)
    ensures OpenFailure(s) == Some(f) <==>
            && s.failed != [] && f == s.failed[|s.failed| - 1]
            && (s.paid != [] ==> !Sooner(f.issuedAt, s.paid[|s.paid| - 1].issuedAt))
  {
  }

  /** A failure is overdue if it is unsettled, its due day has passed, and the subscription was not written since. */
  predicate OverdueFailure(s: State, now: Instant) {
    && s.failed != []
    && (s.paid != [] ==> !Sooner(s.failed[|s.failed| - 1].issuedAt, s.paid[|s.paid| - 1].issuedAt))
    && Earlier(s.failed[|s.failed| - 1].dueAt, now.date)
    && !Sooner(s.failed[|s.failed| - 1].issuedAt, s.sub.updatedAt)
  }

  /** A cancellation that has taken effect. */
  predicate Ended(now: Instant, cancelled: Option<Instant>) { cancelled.Some? && !Sooner(now, cancelled.value) }

  predicate TrialOver(s: State, now: Instant) { s.sub.trialEnds.Some? && !Sooner(now, s.sub.trialEnds.value) }

  /** What counts as invoiced, or as failed before: any paid invoice, or any failure, of that day. */
  lemma KnownIff(s: State, day: Date)
    ensures HasInvoice(s.paid, day) <==> exists i :: i in s.paid && i.key == Dated(day)
    ensures HasFailure(s.failed, day) <==> exists f :: f in s.failed && f.day == day
  {
    if HasInvoice(s.paid, day) {
      var i :| 0 <= i < |s.paid| && s.paid[i].key == Dated(day);
      assert s.paid[i] in s.paid;
    }
    if HasFailure(s.failed, day) {
      var i :| 0 <= i < |s.failed| && s.failed[i].day == day;
      assert s.failed[i] in s.failed;
    }
  }

  /** Paid until that day; else one interval after the trial began, or after the subscription did. */
  lemma DueDateIs(sub: Subscription)
    requires ValidSub(sub)
    ensures sub.trialEnds.Some? ==> DueDate(sub) == sub.trialEnds.value.date
    ensures
      var start := if sub.trialStarted.Some? then sub.trialStarted.value.date else sub.createdAt.date;
      var months := match sub.interval case Monthly => 1 case Quarterly => 3 case Yearly => 12;
      sub.trialEnds.None? ==>
        && MonthIndex(DueDate(sub)) == MonthIndex(start) + months
        && DueDate(sub).day == Min(start.day, DaysAt(MonthIndex(start) + months))
  {
    var start := if sub.trialStarted.Some? then sub.trialStarted.value.date else sub.createdAt.date;
    AddMonthsMovesIndex(start, Multiplier(sub.interval));
  }

  // ------------------------------------------------------------------ the sync

  /** The status after a sync, for every plan: restricted by an overdue failure, an effective cancellation, or the end
      of a free trial; otherwise a free plan is on trial and a paid one active. */
  lemma StatusAfterSync(s: State, now: Instant, cancelled: Option<Instant>)
    requires ValidState(s) && ValidInstant(now) && (cancelled.Some? ==> ValidInstant(cancelled.value))
    ensures
      var status := Sync(s, now, cancelled).sub.status;
      && (status == Restricted <==> OverdueFailure(s, now) || Ended(now, cancelled) || (s.sub.plan == "free" && TrialOver(s, now)))
      && (status == Trial <==>
            !OverdueFailure(s, now) && !Ended(now, cancelled) && s.sub.plan == "free" && !TrialOver(s, now))
      && (status == Active <==> !OverdueFailure(s, now) && !Ended(now, cancelled) && s.sub.plan != "free")
  {
  }

  /** A sync switches the tenant off exactly a week after an effective cancellation or after an overdue failure was due,
      and writes the row exactly if the status changes. */
  lemma SwitchAfterSync(s: State, now: Instant, cancelled: Option<Instant>)
    requires ValidState(s) && ValidInstant(now) && (cancelled.Some? ==> ValidInstant(cancelled.value))
    ensures
      var t := Sync(s, now, cancelled);
      && (t.tenantActive <==>
            && s.tenantActive
            && !(Ended(now, cancelled) && Ordinal(now.date) >= Ordinal(cancelled.value.date) + 7)
            && !(OverdueFailure(s, now) && Ordinal(now.date) >= Ordinal(s.failed[|s.failed| - 1].dueAt) + 7))
      && t.sub.updatedAt == (if t.sub.status == s.sub.status then s.sub.updatedAt else now)
  {
  }

  // ------------------------------------------------------------------ the free trial

  /** Nothing but the trial itself decides: active tenant, free plan, nothing scheduled or unsettled. */
  predicate OnTrial(s: State) {
    s.tenantActive && s.sub.plan == "free" && s.sub.scheduled.None? && OpenFailure(s).None?
  }

  /** A pass leaves a free tenant on trial until the trial's end and restricts it from that moment on; it never
      invoices. */
  lemma FreePass(s: State, now: Instant, cancelled: Option<Instant>)
    requires ValidState(s) && ValidInstant(now) && (cancelled.Some? ==> ValidInstant(cancelled.value))
    requires OnTrial(s) && !Ended(now, cancelled)
    ensures
      var t := Pass(s, now, cancelled);
      && t.sub.status == (if TrialOver(s, now) then Restricted else Trial)
      && OnTrial(t) && t.paid == s.paid && t.failed == s.failed && t.sub.trialEnds == s.sub.trialEnds
  {
    StatusAfterSync(s, now, cancelled);
    SyncKeepsRows(s, now, cancelled);
    SwitchAfterSync(s, now, cancelled);
    UnsettledIsLast(s);
  }

  lemma UnsettledIsLast(s: State)
    ensures OpenFailure(s).None? <==>
            s.failed == [] || (s.paid != [] && Sooner(s.failed[|s.failed| - 1].issuedAt, s.paid[|s.paid| - 1].issuedAt))
  {
  }

  /** Cycle passes before any cancellation takes effect. */
  predicate QuietPasses(ops: seq<Op>) {
    forall i :: 0 <= i < |ops| ==> ops[i].CyclePass? && !Ended(ops[i].now, ops[i].cancelled)
  }

  /** A free trial left alone: at every pass before its end the status is Trial, at every pass from it on Restricted,
      and no invoice is ever written. */
  lemma {:induction false} FreeTrialRun(s: State, clock: Instant, ops: seq<Op>)
    requires ValidState(s) && Timed(clock, ops) && QuietPasses(ops) && OnTrial(s) && ops != []
    ensures
      var t := Run(s, clock, ops);
      && t.sub.status == (if TrialOver(s, ops[|ops| - 1].now) then Restricted else Trial)
      && OnTrial(t) && t.paid == s.paid && t.failed == s.failed && t.sub.trialEnds == s.sub.trialEnds
    decreases |ops|
  {
    FreePass(s, ops[0].now, ops[0].cancelled);
    var t := Perform(s, ops[0]);
    if |ops| == 1 {
      assert ops[1..] == [];
    } else {
      FreeTrialRun(t, ops[0].now, ops[1..]);
    }
  }

  // ------------------------------------------------------------------ billing attempts

  /** When a cycle pass bills: the renewal step first, then the sync, then an invoice for the due day exactly if the
      plan is paid, the status not restricted, the day has come, and it has no invoice yet. */
  lemma PassInvoicesIff(s: State, now: Instant, cancelled: Option<Instant>)
    requires ValidState(s) && ValidInstant(now) && (cancelled.Some? ==> ValidInstant(cancelled.value))
    requires s.tenantActive && s.sub.scheduled.None? && OpenFailure(s).None?
    ensures
      var t := Pass(s, now, cancelled);
      var bills := && s.sub.plan != "free" && !Ended(now, cancelled) && !Earlier(now.date, DueDate(s.sub))
                   && !HasInvoice(s.paid, DueDate(s.sub));
      && (bills ==> |t.paid| == |s.paid| + 1 && t.paid[..|s.paid|] == s.paid && t.paid[|s.paid|].key == Dated(DueDate(s.sub))
                    && t.paid[|s.paid|].issuedAt == now && t.sub.status == Active)
      && (!bills ==> t.paid == s.paid && DueDate(t.sub) == DueDate(s.sub))
  {
    StatusAfterSync(s, now, cancelled);
    SyncKeepsRows(s, now, cancelled);
    UnsettledIsLast(s);
  }

  /** A settlement that succeeds invoices the unsettled failure's day, or else the due day, unless that is invoiced;
      the tenant is active and paid until one interval after the due day. */
  lemma SuccessfulSettlement(s: State, now: Instant)
    requires ValidState(s) && ValidInstant(now) && s.sub.scheduled.None?
    ensures
      var t := Perform(s, Settle(now, true));
      var day := if OpenFailure(s).Some? then OpenFailure(s).value.day else DueDate(s.sub);
      && t.sub.status == Active && t.failed == s.failed && t.tenantActive == s.tenantActive
      && t.sub.trialStarted.None? && t.sub.trialEnds == Some(Midnight(DueDate(t.sub))) && t.sub.updatedAt == now
      && DueDate(t.sub) == AddMonthsToDate(DueDate(s.sub), Multiplier(s.sub.interval))
      && t.paid == (if HasInvoice(s.paid, day) then s.paid else s.paid + [Invoice(Dated(day), DueDate(t.sub), now)])
  {
  }

  /** One that fails records the due day once, keeps the first deadline while an earlier failure is unsettled, and
      changes nothing else. */
  lemma FailedSettlement(s: State, now: Instant)
    requires ValidState(s) && ValidInstant(now) && s.sub.scheduled.None?
    ensures
      var t := Perform(s, Settle(now, false));
      var deadline := if OpenFailure(s).Some? then OpenFailure(s).value.dueAt else DueDate(s.sub);
      && t.sub == s.sub && t.paid == s.paid && t.tenantActive == s.tenantActive
      && t.failed == (if HasFailure(s.failed, DueDate(s.sub)) then s.failed
                      else s.failed + [Failure(DueDate(s.sub), deadline, now)])
  {
  }

  /** Failing again on the same day records nothing more. */
  lemma FailingTwiceRecordsOnce(s: State, now: Instant, later: Instant)
    requires ValidState(s) && ValidInstant(now) && ValidInstant(later) && s.sub.scheduled.None?
    ensures Perform(Perform(s, Settle(now, false)), Settle(later, false)) == Perform(s, Settle(now, false))
  {
    FailedSettlement(s, now);
    var t := Perform(s, Settle(now, false));
    FailedSettlement(t, later);
    if !HasFailure(s.failed, DueDate(s.sub)) {
      assert t.failed[|s.failed|].day == DueDate(s.sub);
    }
  }

  /** After a failed settlement of a paid plan in good standing, the first pass after the due day restricts the tenant. */
  lemma FailedSettlementRestricts(s: State, now: Instant, later: Instant)
    requires ValidState(s) && ValidInstant(now) && ValidInstant(later) && Sooner(now, later) && IssuedBefore(s, now)
    requires s.tenantActive && s.sub.plan != "free" && s.sub.scheduled.None? && OpenFailure(s).None?
    requires !HasFailure(s.failed, DueDate(s.sub)) && !Sooner(now, s.sub.updatedAt) && Earlier(DueDate(s.sub), later.date)
    ensures
      var t := Perform(Perform(s, Settle(now, false)), CyclePass(later, None));
      t.sub.status == Restricted && t.paid == s.paid
  {
    FailedSettlement(s, now);
    var failed := Perform(s, Settle(now, false));
    StatusAfterSync(failed, later, None);
    SyncKeepsRows(failed, later, None);
  }
}
