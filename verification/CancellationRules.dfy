/** What each cancellation operation answers and changes, told from the requests it found
    (backend/apps/billing/service.py, backend/apps/billing/workflows.py, backend/apps/billing/repositories.py).
 */
module CancellationRules {
  import opened Basics
  import opened Cancellation

  /** The tenant's newest request. */
  ghost predicate IsLatest(w: World, t: int, id: nat) {
    id in w.requests && w.requests[id].tenant == t && forall k :: k in w.requests && w.requests[k].tenant == t ==> k <= id
  }

  /** Asked for, not yet acted on, and its effective day a week ago or more. */
  predicate RemovalDue(r: Request, now: Moment) {
    r.status == Requested && r.deactivated.None? && now.day >= r.effective + 7
  }

  lemma LatestIs(w: World, t: int, id: nat)
    requires Linked(w)
    ensures Latest(w, t) == Some(id) <==> IsLatest(w, t, id)
  {
  }

  lemma NoLatest(w: World, t: int)
    requires Linked(w)
    ensures Latest(w, t).None? <==> forall k :: k in w.requests ==> w.requests[k].tenant != t
  {
  }

  // ------------------------------------------------------------------ replies

  /** A restore succeeds exactly if the tenant's newest request is still asked for and its access not removed; then that
      request alone changes, and is closed. */
  lemma RestoreReplies(w: World, t: int, now: Moment, id: nat)
    requires Sound(w)
    ensures
      var (v, reply) := Perform(w, Restore(t, now));
      && (reply == RenewalRestored(id) <==> IsLatest(w, t, id) && w.requests[id].status == Requested && w.requests[id].deactivated.None?)
      && (reply == AccessRemoved <==>
            exists k :: IsLatest(w, t, k) && w.requests[k].status == Requested && w.requests[k].deactivated.Some?)
      && (reply == RenewalRestored(id) ==>
            v == w.(requests := w.requests[id := w.requests[id].(status := Restored, cleanup := Some(now))]))
      && (!reply.RenewalRestored? ==> v == w)
  {
    LatestIs(w, t, id);
    var latest := Latest(w, t);
    if latest.Some? {
      LatestIs(w, t, latest.value);
    } else {
      NoLatest(w, t);
    }
    if k :| IsLatest(w, t, k) && w.requests[k].status == Requested && w.requests[k].deactivated.Some? {
      LatestIs(w, t, k);
    }
  }

  /** An explicit deletion removes access exactly if no knowledge base is active and the newest request is asked for and
      not yet acted on. */
  lemma DeletionReplies(w: World, t: int, kbs: nat, now: Moment, id: nat)
    requires Sound(w) && t in w.tenants
    ensures
      var reply := Perform(w, DeleteAccess(t, kbs, now)).1;
      && (reply == BlockedByKnowledgeBases <==> kbs > 0)
      && (reply == Deactivated(id) <==>
            kbs == 0 && IsLatest(w, t, id) && w.requests[id].status == Requested && w.requests[id].deactivated.None?)
      && (reply == AlreadyDeactivated(id) <==>
            kbs == 0 && IsLatest(w, t, id) && w.requests[id].status == Requested && w.requests[id].deactivated.Some?)
      && (reply == NotCancelled <==> kbs == 0 && !exists k :: IsLatest(w, t, k) && w.requests[k].status == Requested)
  {
    LatestIs(w, t, id);
    var latest := Latest(w, t);
    if latest.Some? {
      LatestIs(w, t, latest.value);
    } else {
      NoLatest(w, t);
    }
    if k :| IsLatest(w, t, k) && w.requests[k].status == Requested {
      LatestIs(w, t, k);
    }
  }

  /** A cancellation with a valid reason opens one request more, effective the day after the paid period. */
  lemma CancellationOpens(w: World, t: int, paidUntil: int, validReason: bool)
    requires Sound(w) && t in w.tenants
    ensures
      var (v, reply) := Perform(w, Cancel(t, paidUntil, validReason));
      && (reply == InvalidReason <==> !validReason) && (!validReason ==> v == w)
      && (validReason ==>
            && reply == Recorded(w.nextId) && w.nextId !in w.requests && v.tenants == w.tenants
            && v.requests.Keys == w.requests.Keys + {w.nextId} && IsLatest(v, t, w.nextId)
            && v.requests[w.nextId].effective == paidUntil + 1 && Open(v.requests[w.nextId])
            && v.requests[w.nextId].deactivated.None?
            && forall k :: k in w.requests ==> v.requests[k] == w.requests[k])
  {
  }

  // ------------------------------------------------------------------ one request through a pass

  lemma HandledTwice(row: Request, now: Moment, o: Outside)
    ensures Handled(Handled(row, row, now, o), row, now, o) == Handled(row, row, now, o)
  {
  }

  ghost predicate RowsAfter(w: World, v: World, ids: set<nat>, now: Moment, outside: map<nat, Outside>) {
    forall k :: k in v.requests ==>
      && k in w.requests
      && v.requests[k] == if k in ids then Handled(w.requests[k], w.requests[k], now, Answer(outside, k)) else w.requests[k]
  }

  lemma OneMoreRow(w: World, u: World, ids: set<nat>, id: nat, now: Moment, outside: map<nat, Outside>)
    requires RowsAfter(w, u, ids, now, outside) && id in w.requests
    ensures RowsAfter(w, Handle(u, id, w.requests[id], now, Answer(outside, id)), ids + {id}, now, outside)
  {
    HandledTwice(w.requests[id], now, Answer(outside, id));
  }

  function IdSet(ids: seq<nat>): set<nat> { set id | id in ids }

  lemma {:induction false} RowsAfterAll(w: World, ids: seq<nat>, now: Moment, outside: map<nat, Outside>)
    requires forall id :: id in ids ==> id in w.requests
    ensures RowsAfter(w, HandleAll(w, w.requests, ids, now, outside), IdSet(ids), now, outside)
    decreases |ids|
  {
    if ids != [] {
      var n := |ids| - 1;
      RowsAfterAll(w, ids[..n], now, outside);
      OneMoreRow(w, HandleAll(w, w.requests, ids[..n], now, outside), IdSet(ids[..n]), ids[n], now, outside);
      assert IdSet(ids[..n]) + {ids[n]} == IdSet(ids);
    }
  }

  /** Every mark on every surviving request after a pass: each notice on its own day if there is an address and the mail is
      accepted, the removal a week after the effective day; marks already there stay. */
  lemma MarksAfterPass(w: World, outside: map<nat, Outside>, now: Moment, id: nat)
    requires Sound(w) && id in Perform(w, Lifecycle(outside, now)).0.requests
    ensures id in w.requests
    ensures
      var a, b, o := w.requests[id], Perform(w, Lifecycle(outside, now)).0.requests[id], Answer(outside, id);
      var open := a.status == Requested;
      && b.twoDays == (if open && a.twoDays.None? && o.owner && o.sendTwo && now.day == a.effective - 2 then Some(now) else a.twoDays)
      && b.oneDay == (if open && a.oneDay.None? && o.owner && o.sendOne && now.day == a.effective - 1 then Some(now) else a.oneDay)
      && b.expired == (if open && a.expired.None? && o.owner && o.sendExpired && now.day >= a.effective then Some(now) else a.expired)
      && b.deactivated == (if RemovalDue(a, now) then Some(now) else a.deactivated)
      && b.status == a.status && b.cleanup == a.cleanup && b.effective == a.effective && b.tenant == a.tenant
  {
    var ids := OpenIds(w.requests, w.nextId);
    RowsAfterAll(w, ids, now, outside);
    assert id in IdSet(ids) <==> w.requests[id].status == Requested;
    HandledMarks(w.requests[id], now, Answer(outside, id));
  }

  lemma HandledMarks(a: Request, now: Moment, o: Outside)
    ensures
      var b := Handled(a, a, now, o);
      && b.twoDays == (if a.twoDays.None? && o.owner && o.sendTwo && now.day == a.effective - 2 then Some(now) else a.twoDays)
      && b.oneDay == (if a.oneDay.None? && o.owner && o.sendOne && now.day == a.effective - 1 then Some(now) else a.oneDay)
      && b.expired == (if a.expired.None? && o.owner && o.sendExpired && now.day >= a.effective then Some(now) else a.expired)
      && b.deactivated == (if a.deactivated.None? && now.day >= a.effective + 7 then Some(now) else a.deactivated)
      && b.status == a.status && b.cleanup == a.cleanup && b.effective == a.effective && b.tenant == a.tenant
  {
  }

  // ------------------------------------------------------------------ switching off

  ghost predicate SwitchesOff(w: World, op: Operation, t: int) {
    match op
    case Lifecycle(_, now) => exists id :: id in w.requests && w.requests[id].tenant == t && RemovalDue(w.requests[id], now)
    case DeleteAccess(u, kbs, _) =>
      u == t && kbs == 0 && exists id :: IsLatest(w, t, id) && w.requests[id].status == Requested && w.requests[id].deactivated.None?
    case SyncStatus(u, unpaid, now) => u == t && (unpaid || exists id :: IsLatest(w, t, id) && RemovalDue(w.requests[id], now))
    case _ => false
  }

  ghost predicate DueAmong(rows: map<nat, Request>, ids: seq<nat>, now: Moment, t: int) {
    exists id :: id in ids && id in rows && rows[id].tenant == t && rows[id].deactivated.None? && now.day >= rows[id].effective + 7
  }

  lemma {:induction false} FlagAfterAll(w: World, rows: map<nat, Request>, ids: seq<nat>, now: Moment,
                                        outside: map<nat, Outside>, t: int)
    requires (forall id :: id in ids ==> id in rows) && t in HandleAll(w, rows, ids, now, outside).tenants
    ensures t in w.tenants
    ensures HandleAll(w, rows, ids, now, outside).tenants[t] == (w.tenants[t] && !DueAmong(rows, ids, now, t))
    decreases |ids|
  {
    if ids != [] {
      var n := |ids| - 1;
      FlagAfterAll(w, rows, ids[..n], now, outside, t);
      assert ids == ids[..n] + [ids[n]];
      assert DueAmong(rows, ids, now, t) <==>
             DueAmong(rows, ids[..n], now, t)
             || (rows[ids[n]].tenant == t && rows[ids[n]].deactivated.None? && now.day >= rows[ids[n]].effective + 7);
    }
  }

  lemma FlagAfterPass(w: World, op: Operation, t: int)
    requires Sound(w) && op.Lifecycle? && t in Perform(w, op).0.tenants
    ensures t in w.tenants && Perform(w, op).0.tenants[t] == (w.tenants[t] && !SwitchesOff(w, op, t))
  {
    var ids := OpenIds(w.requests, w.nextId);
    FlagAfterAll(w, w.requests, ids, op.now, op.outside, t);
    if id :| id in w.requests && w.requests[id].tenant == t && RemovalDue(w.requests[id], op.now) {
      assert id in ids;
    }
    if id :| id in ids && id in w.requests && w.requests[id].tenant == t && w.requests[id].deactivated.None?
             && op.now.day >= w.requests[id].effective + 7 {
      assert RemovalDue(w.requests[id], op.now);
    }
  }

  lemma FlagAfterCall(w: World, op: Operation, t: int)
    requires Sound(w) && !op.Lifecycle? && t in Perform(w, op).0.tenants
    ensures t in w.tenants && Perform(w, op).0.tenants[t] == (w.tenants[t] && !SwitchesOff(w, op, t))
  {
    var latest := Latest(w, t);
    if latest.Some? {
      LatestIs(w, t, latest.value);
    } else {
      NoLatest(w, t);
    }
  }

  /** A tenant's switch after any operation: off if it was off, or if a pass finds a request a week overdue, a deletion or a
      sync finds its newest request so, or a sync finds an unpaid invoice; on otherwise. */
  lemma FlagAfter(w: World, op: Operation, t: int)
    requires Sound(w) && t in Perform(w, op).0.tenants
    ensures t in w.tenants && Perform(w, op).0.tenants[t] == (w.tenants[t] && !SwitchesOff(w, op, t))
  {
    if op.Lifecycle? {
      FlagAfterPass(w, op, t);
    } else {
      FlagAfterCall(w, op, t);
    }
  }

  /** A deletion that reports success has switched the tenant off. */
  lemma DeactivatedIsOff(w: World, t: int, kbs: nat, now: Moment)
    requires Sound(w) && Perform(w, DeleteAccess(t, kbs, now)).1.Deactivated?
    ensures
      var (v, reply) := Perform(w, DeleteAccess(t, kbs, now));
      t in v.tenants && !v.tenants[t] && reply.id in v.requests && v.requests[reply.id].deactivated == Some(now)
  {
    var (v, reply) := Perform(w, DeleteAccess(t, kbs, now));
    DeletionReplies(w, t, kbs, now, reply.id);
    FlagAfter(w, DeleteAccess(t, kbs, now), t);
  }

  /** A switch once off stays off in every run, as long as the tenant is there. */
  lemma {:induction false} OffStaysOff(w: World, ops: seq<Operation>, t: int)
    requires Sound(w) && t in w.tenants && !w.tenants[t] && t in Run(w, ops).tenants
    ensures !Run(w, ops).tenants[t]
    decreases |ops|
  {
    if ops != [] {
      var n := |ops| - 1;
      RunAdvances(w, ops[..n]);
      FlagAfter(Run(w, ops[..n]), ops[n], t);
      OffStaysOff(w, ops[..n], t);
    }
  }

  /** Which requests an operation other than a pass marks as acted on. */
  lemma MarkAfterCall(w: World, op: Operation, id: nat)
    requires Sound(w) && !op.Lifecycle? && id in w.requests
    ensures
      var v := Perform(w, op).0;
      var acted := || (op.DeleteAccess? && op.activeKbs == 0 && IsLatest(w, op.tenant, id) && w.requests[id].status == Requested)
                   || (op.SyncStatus? && IsLatest(w, op.tenant, id) && RemovalDue(w.requests[id], op.now));
      && id in v.requests
      && v.requests[id].deactivated ==
           if acted && w.requests[id].deactivated.None? then Some(op.now) else w.requests[id].deactivated
  {
    LatestOf(w, op.tenant, id);
  }

  lemma LatestOf(w: World, t: int, id: nat)
    requires Linked(w)
    ensures Latest(w, t) == Some(id) <==> IsLatest(w, t, id)
    ensures Latest(w, t).Some? ==> IsLatest(w, t, Latest(w, t).value)
  {
    LatestIs(w, t, id);
    if Latest(w, t).Some? {
      LatestIs(w, t, Latest(w, t).value);
    }
  }

  // ------------------------------------------------------------------ erasing

  /** An open request acted on a week ago, whose schema is dropped. */
  ghost predicate ErasableAmong(rows: map<nat, Request>, ids: seq<nat>, now: Moment, outside: map<nat, Outside>, t: int) {
    exists id :: id in ids && id in rows && rows[id].tenant == t && rows[id].deactivated.Some?
                 && now.day >= rows[id].deactivated.value.day + 7 && Answer(outside, id).dropped
  }

  lemma {:induction false} ErasedAfterAll(w: World, rows: map<nat, Request>, ids: seq<nat>, now: Moment,
                                          outside: map<nat, Outside>, t: int)
    requires (forall id :: id in ids ==> id in rows) && t in w.tenants
    ensures t in HandleAll(w, rows, ids, now, outside).tenants <==> !ErasableAmong(rows, ids, now, outside, t)
    decreases |ids|
  {
    if ids != [] {
      var n := |ids| - 1;
      ErasedAfterAll(w, rows, ids[..n], now, outside, t);
      assert ids == ids[..n] + [ids[n]];
      var row := rows[ids[n]];
      assert ErasableAmong(rows, ids, now, outside, t) <==>
             ErasableAmong(rows, ids[..n], now, outside, t)
             || (row.tenant == t && row.deactivated.Some? && now.day >= row.deactivated.value.day + 7
                 && Answer(outside, ids[n]).dropped);
    }
  }

  /** A tenant is erased exactly by a pass that finds one of its requests asked for and acted on at least seven days before,
      and drops its schema. */
  lemma ErasedIff(w: World, op: Operation, t: int)
    requires Sound(w) && t in w.tenants
    ensures t !in Perform(w, op).0.tenants <==>
            && op.Lifecycle?
            && exists id :: id in w.requests && w.requests[id].tenant == t && w.requests[id].status == Requested
                            && w.requests[id].deactivated.Some? && op.now.day >= w.requests[id].deactivated.value.day + 7
                            && Answer(op.outside, id).dropped
  {
    if op.Lifecycle? {
      var ids := OpenIds(w.requests, w.nextId);
      ErasedAfterAll(w, w.requests, ids, op.now, op.outside, t);
      assert forall id :: id in w.requests && w.requests[id].status == Requested ==> id in ids;
    }
  }
}
