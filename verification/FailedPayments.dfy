/** How long an unpaid invoice restricts a tenant (backend/apps/billing/workflows.py,
    backend/apps/billing/service.py, backend/apps/billing/repositories.py).

    A failed invoice counts against the tenant only while it is not older than the last write of the subscription row,
    and restricting the tenant is itself such a write.
 */
module FailedPayments {
  import opened Basics
  import opened CivilCalendar
  import opened BillingPeriods
  import opened BillingChain

  /** The row was written after the failed invoice was issued. */
  predicate WrittenSince(s: State, f: Failure) { Sooner(f.issuedAt, s.sub.updatedAt) }

  /** A paid plan that is not cancelled is restricted exactly while its latest failure is unsettled, past its due
      day, and not older than the row. */
  lemma RestrictedIff(s: State, now: Instant)
    requires ValidState(s) && ValidInstant(now) && s.sub.plan != "free"
    ensures Sync(s, now, None).sub.status == Restricted <==>
            && OpenFailure(s).Some? && Earlier(OpenFailure(s).value.dueAt, now.date) && !WrittenSince(s, OpenFailure(s).value)
  {
  }

  /** What restricts a tenant at `first` still restricts it at a later sync exactly if restricting it was no write,
      because the status was Restricted before, or the invoice is not older than that write. */
  lemma RestrictionStaysIff(s: State, first: Instant, later: Instant)
    requires ValidState(s) && ValidInstant(first) && ValidInstant(later) && s.sub.plan != "free" && Sooner(first, later)
    requires Sync(s, first, None).sub.status == Restricted
    ensures Sync(Sync(s, first, None), later, None).sub.status == Restricted <==>
            s.sub.status == Restricted || !Sooner(OpenFailure(s).value.issuedAt, first)
  {
    var t := Sync(s, first, None);
    RestrictedIff(s, first);
    SyncKeepsRows(s, first, None);
    RestrictedIff(t, later);
    DueStaysPassed(OpenFailure(s).value.dueAt, first, later);
  }

  lemma DueStaysPassed(due: Date, first: Instant, later: Instant)
    requires Earlier(due, first.date) && Sooner(first, later)
    ensures Earlier(due, later.date)
  {
  }

  /** A tenant whose payment failed is restricted by the first sync after the due day and free again at the next,
      though nothing was paid. */
  lemma NewRestrictionLastsOneSync(s: State, first: Instant, later: Instant)
    requires ValidState(s) && ValidInstant(first) && ValidInstant(later) && s.sub.plan != "free" && Sooner(first, later)
    requires s.sub.status != Restricted && Sync(s, first, None).sub.status == Restricted
    requires IssuedBefore(s, first)
    ensures
      var t := Sync(Sync(s, first, None), later, None);
      t.sub.status == Active && t.paid == s.paid && t.failed == s.failed && OpenFailure(t) == OpenFailure(s)
  {
    RestrictedIff(s, first);
    RestrictionStaysIff(s, first, later);
    SyncKeepsRows(s, first, None);
    SyncKeepsRows(Sync(s, first, None), later, None);
  }

  // ------------------------------------------------------------------ runs of passes

  /** Cycle passes without a cancellation. */
  predicate PlainPasses(ops: seq<Op>) { forall i :: 0 <= i < |ops| ==> ops[i].CyclePass? && ops[i].cancelled.None? }

  /** Restricted, with the failure past its due day and the row not written since. */
  predicate Held(s: State, now: Instant)
    requires ValidState(s) && ValidInstant(now)
  {
    && s.sub.plan != "free" && s.sub.status == Restricted && s.sub.scheduled.None? && OpenFailure(s).Some?
    && Earlier(OpenFailure(s).value.dueAt, now.date) && !WrittenSince(s, OpenFailure(s).value)
  }

  lemma PassHolds(s: State, now: Instant)
    requires ValidState(s) && ValidInstant(now) && Held(s, now)
    ensures
      var t := Pass(s, now, None);
      t.sub == s.sub && t.paid == s.paid && t.failed == s.failed
  {
    SyncKeepsRows(s, now, None);
    RestrictedIff(s, now);
  }

  /** While the row is not written the restriction holds through every run of passes, and nothing is billed. */
  lemma {:induction false} RestrictionHoldsThroughPasses(s: State, clock: Instant, ops: seq<Op>)
    requires ValidState(s) && ValidInstant(clock) && Held(s, clock) && Timed(clock, ops) && PlainPasses(ops)
    ensures
      var t := Run(s, clock, ops);
      t.sub == s.sub && t.paid == s.paid && t.failed == s.failed
    decreases |ops|
  {
    if ops != [] {
      var now := ops[0].now;
      DueStaysPassed(OpenFailure(s).value.dueAt, clock, now);
      PassHolds(s, now);
      RestrictionHoldsThroughPasses(Perform(s, ops[0]), now, ops[1..]);
    }
  }

  /** Two passes after a failed payment: the first restricts the tenant, the second bills it again. */
  lemma SecondPassBillsAgain(s: State, first: Instant, later: Instant)
    requires ValidState(s) && ValidInstant(first) && ValidInstant(later) && Sooner(first, later) && IssuedBefore(s, first)
    requires s.sub.plan != "free" && s.sub.status != Restricted && s.sub.scheduled.None? && s.tenantActive
    requires Overdue(s, first).Some? && !Earlier(later.date, DueDate(s.sub)) && !HasInvoice(s.paid, DueDate(s.sub))
    requires Pass(s, first, None).tenantActive
    ensures Pass(s, first, None).sub.status == Restricted && Pass(s, first, None).paid == s.paid
    ensures
      var t := Pass(Pass(s, first, None), later, None);
      && t.sub.status == Active
      && (!HasInvoice(s.paid, OpenFailure(s).value.day) ==>
            OpenFailure(t).None? && t.paid == s.paid + [Invoice(Dated(OpenFailure(s).value.day), DueDate(t.sub), later)])
  {
    var restricted := Sync(s, first, None);
    SyncKeepsRows(s, first, None);
    assert Pass(s, first, None) == restricted;
    NewRestrictionLastsOneSync(s, first, later);
    var back := Sync(restricted, later, None);
    SyncKeepsRows(restricted, later, None);
    assert Pass(restricted, later, None) == Bill(back, later);
  }
}
