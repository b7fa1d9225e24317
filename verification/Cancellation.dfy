/** Cancelling, restoring and winding down a tenant's service (backend/apps/billing/service.py,
    backend/apps/billing/workflows.py, backend/apps/billing/repositories.py).

    Days are counted as Python's date ordinals; a request takes effect at midnight of its day.
 */
module Cancellation {
  import opened Basics

  datatype Moment = Moment(day: int, second: nat)

  datatype Status = Requested | Restored

  datatype Request = Request(tenant: int, effective: int, status: Status, twoDays: Option<Moment>, oneDay: Option<Moment>,
                             expired: Option<Moment>, deactivated: Option<Moment>, cleanup: Option<Moment>)

  /** Requests by id, ids in order of arrival; tenants with their active flag, erased ones absent. */
  datatype World = World(requests: map<nat, Request>, nextId: nat, tenants: map<int, bool>)

  /** What the outside answers about one request in one pass: is there an owner address, are the three mails
      accepted, and does dropping the schema succeed? */
  datatype Outside = Outside(owner: bool, sendTwo: bool, sendOne: bool, sendExpired: bool, dropped: bool)

  datatype Operation =
    | Cancel(tenant: int, paidUntil: int, validReason: bool)
    | Restore(tenant: int, now: Moment)
    | DeleteAccess(tenant: int, activeKbs: nat, now: Moment)
    | SyncStatus(tenant: int, unpaid: bool, now: Moment)
    | Lifecycle(outside: map<nat, Outside>, now: Moment)

  datatype Reply = Recorded(id: nat) | InvalidReason | AlreadyActive | AccessRemoved | RenewalRestored(id: nat)
    | BlockedByKnowledgeBases | NotCancelled | Deactivated(id: nat) | AlreadyDeactivated(id: nat) | NoTenant | Done

  predicate Open(r: Request) { r.status == Requested && r.cleanup.None? }

  // ------------------------------------------------------------------ queries and updates

  function LatestBelow(requests: map<nat, Request>, t: int, n: nat): (id: Option<nat>)
    ensures id.Some? ==> id.value < n && id.value in requests && requests[id.value].tenant == t
    ensures forall k :: 0 <= k < n && k in requests && requests[k].tenant == t ==> id.Some? && k <= id.value
  {
    if n == 0 then None
    else if n - 1 in requests && requests[n - 1].tenant == t then Some(n - 1)
    else LatestBelow(requests, t, n - 1)
  }

  function Latest(w: World, t: int): Option<nat> { LatestBelow(w.requests, t, w.nextId) }

  function OpenIds(requests: map<nat, Request>, n: nat): (ids: seq<nat>)
    ensures forall id :: id in ids <==> id < n && id in requests && Open(requests[id])
  {
    if n == 0 then []
    else OpenIds(requests, n - 1) + if n - 1 in requests && Open(requests[n - 1]) then [n - 1] else []
  }

  function SwitchOff(tenants: map<int, bool>, t: int): map<int, bool> {
    if t in tenants then tenants[t := false] else tenants
  }

  /** A mark is written only where there is none. */
  function Mark(mark: Option<Moment>, now: Moment): Option<Moment> { if mark.None? then Some(now) else mark }

  function MarkDeactivated(requests: map<nat, Request>, id: nat, now: Moment): map<nat, Request> {
    if id in requests then requests[id := requests[id].(deactivated := Mark(requests[id].deactivated, now))] else requests
  }

  /** Deleting a tenant deletes its requests. */
  function Erase(w: World, t: int): World {
    w.(tenants := w.tenants - {t}, requests := map id | id in w.requests && w.requests[id].tenant != t :: w.requests[id])
  }

  // ------------------------------------------------------------------ the operations

  predicate DueForRemoval(row: Request, now: Moment) { row.deactivated.None? && now.day >= row.effective + 7 }

  predicate DueForErasure(row: Request, now: Moment) {
    row.deactivated.Some? && now.day >= row.deactivated.value.day + 7
  }

  // What a pass does to one request: `row` is the request as it was read at the start of the pass, r as it is now.

  function TwoDayNotice(r: Request, row: Request, now: Moment, o: Outside): Request {
    if o.owner && row.effective - now.day == 2 && row.twoDays.None? && o.sendTwo
    then r.(twoDays := Mark(r.twoDays, now)) else r
  }

  function OneDayNotice(r: Request, row: Request, now: Moment, o: Outside): Request {
    if o.owner && row.effective - now.day == 1 && row.oneDay.None? && o.sendOne
    then r.(oneDay := Mark(r.oneDay, now)) else r
  }

  function Removal(r: Request, row: Request, now: Moment): Request {
    if DueForRemoval(row, now) then r.(deactivated := Mark(r.deactivated, now)) else r
  }

  function ExpiryNotice(r: Request, row: Request, now: Moment, o: Outside): Request {
    if row.effective <= now.day && row.expired.None? && o.owner && o.sendExpired
    then r.(expired := Mark(r.expired, now)) else r
  }

  function Handled(r: Request, row: Request, now: Moment, o: Outside): Request {
    ExpiryNotice(Removal(OneDayNotice(TwoDayNotice(r, row, now, o), row, now, o), row, now), row, now, o)
  }

  function Handle(w: World, id: nat, row: Request, now: Moment, o: Outside): World {
    var told := World(if id in w.requests then w.requests[id := Handled(w.requests[id], row, now, o)] else w.requests,
                      w.nextId,
                      if DueForRemoval(row, now) then SwitchOff(w.tenants, row.tenant) else w.tenants);
    if DueForErasure(row, now) && o.dropped && row.tenant in told.tenants then Erase(told, row.tenant) else told
  }

  function Answer(outside: map<nat, Outside>, id: nat): Outside {
    if id in outside then outside[id] else Outside(false, false, false, false, false)
  }

  function HandleAll(w: World, rows: map<nat, Request>, ids: seq<nat>, now: Moment, outside: map<nat, Outside>): World
    requires forall id :: id in ids ==> id in rows
    decreases |ids|
  {
    if ids == [] then w
    else
      var n := |ids| - 1;
      Handle(HandleAll(w, rows, ids[..n], now, outside), ids[n], rows[ids[n]], now, Answer(outside, ids[n]))
  }

  function Perform(w: World, op: Operation): (World, Reply) {
    match op
    case Lifecycle(outside, now) => (HandleAll(w, w.requests, OpenIds(w.requests, w.nextId), now, outside), Done)
    case Cancel(t, paidUntil, validReason) =>
      if t !in w.tenants then (w, NoTenant)
      else if !validReason then (w, InvalidReason)
      else (w.(requests := w.requests[w.nextId := Request(t, paidUntil + 1, Requested, None, None, None, None, None)],
               nextId := w.nextId + 1), Recorded(w.nextId))
    case Restore(t, now) =>
      if t !in w.tenants then (w, NoTenant)
      else
        var id := Latest(w, t);
        if id.None? || w.requests[id.value].status != Requested then (w, AlreadyActive)
        else if w.requests[id.value].deactivated.Some? then (w, AccessRemoved)
        else (w.(requests := w.requests[id.value := w.requests[id.value].(status := Restored, cleanup := Some(now))]),
              RenewalRestored(id.value))
    case DeleteAccess(t, activeKbs, now) =>
      if t !in w.tenants then (w, NoTenant)
      else if activeKbs > 0 then (w, BlockedByKnowledgeBases)
      else
        var id := Latest(w, t);
        if id.None? || w.requests[id.value].status != Requested then (w, NotCancelled)
        else if w.requests[id.value].deactivated.Some? then (w, AlreadyDeactivated(id.value))
        else (w.(tenants := SwitchOff(w.tenants, t), requests := MarkDeactivated(w.requests, id.value, now)),
              Deactivated(id.value))
    case SyncStatus(t, unpaid, now) =>
      var id := Latest(w, t);
      var removed :=
        if id.Some? && w.requests[id.value].status == Requested && DueForRemoval(w.requests[id.value], now)
        then w.(tenants := SwitchOff(w.tenants, t), requests := MarkDeactivated(w.requests, id.value, now))
        else w;
      (if unpaid then removed.(tenants := SwitchOff(removed.tenants, t)) else removed, Done)
  }

  function Run(w: World, ops: seq<Operation>): World
    decreases |ops|
  {
    if ops == [] then w else Perform(Run(w, ops[..|ops| - 1]), ops[|ops| - 1]).0
  }

  // ------------------------------------------------------------------ what every operation keeps

  ghost predicate Linked(w: World) {
    forall id :: id in w.requests ==> id < w.nextId && w.requests[id].tenant in w.tenants
  }

  predicate KeepsMark(a: Option<Moment>, b: Option<Moment>) { a.Some? ==> b == a }

  /** Marks are set at most once; everything else stays. */
  predicate Marked(a: Request, b: Request) {
    && b.tenant == a.tenant && b.effective == a.effective && b.status == a.status && b.cleanup == a.cleanup
    && KeepsMark(a.twoDays, b.twoDays) && KeepsMark(a.oneDay, b.oneDay)
    && KeepsMark(a.expired, b.expired) && KeepsMark(a.deactivated, b.deactivated)
  }

  /** Notices carry the days they were meant for. */
  predicate OnTime(r: Request) {
    && (r.twoDays.Some? ==> r.twoDays.value.day == r.effective - 2)
    && (r.oneDay.Some? ==> r.oneDay.value.day == r.effective - 1)
    && (r.expired.Some? ==> r.expired.value.day >= r.effective)
  }

  predicate LateMark(r: Request) { r.deactivated.Some? ==> r.deactivated.value.day >= r.effective + 7 }

  /** What holds of the request before the pass carries over to the request after it. */
  ghost predicate Follows(a: Request, b: Request) {
    Marked(a, b) && (OnTime(a) ==> OnTime(b)) && (LateMark(a) ==> LateMark(b))
  }

  lemma HandledFollows(r: Request, row: Request, now: Moment, o: Outside)
    requires Marked(row, r)
    ensures Follows(r, Handled(r, row, now, o))
  {
    var two := TwoDayNotice(r, row, now, o);
    var one := OneDayNotice(two, row, now, o);
    var removed := Removal(one, row, now);
    assert Follows(r, two);
    assert Follows(two, one);
    assert Follows(one, removed);
    assert Follows(removed, ExpiryNotice(removed, row, now, o));
  }

  ghost predicate FollowsAll(w: World, v: World, ids: set<nat>) {
    && v.nextId == w.nextId && v.tenants.Keys <= w.tenants.Keys
    && (forall k :: k in v.requests ==> k in w.requests && Follows(w.requests[k], v.requests[k]))
    && (forall k :: k in v.requests && k !in ids ==> v.requests[k] == w.requests[k])
    && (forall k :: k in w.requests && k !in v.requests ==> w.requests[k].tenant !in v.tenants)
  }

  lemma HandleFollows(w: World, id: nat, row: Request, now: Moment, o: Outside)
    requires Linked(w) && (id in w.requests ==> Marked(row, w.requests[id]))
    ensures FollowsAll(w, Handle(w, id, row, now, o), {id}) && Linked(Handle(w, id, row, now, o))
  {
    if id in w.requests {
      HandledFollows(w.requests[id], row, now, o);
    }
  }

  lemma FollowsTransitive(w: World, u: World, v: World, ids: set<nat>, more: set<nat>)
    requires FollowsAll(w, u, ids) && FollowsAll(u, v, more)
    ensures FollowsAll(w, v, ids + more)
  {
    forall k | k in v.requests
      ensures k in w.requests && Follows(w.requests[k], v.requests[k])
      ensures k !in ids + more ==> v.requests[k] == w.requests[k]
    {
      assert Follows(u.requests[k], v.requests[k]) && Follows(w.requests[k], u.requests[k]);
    }
    forall k | k in w.requests && k !in v.requests ensures w.requests[k].tenant !in v.tenants {
      if k in u.requests {
        assert Follows(w.requests[k], u.requests[k]);
      }
    }
  }

  lemma {:induction false} HandleAllFollows(w: World, rows: map<nat, Request>, ids: seq<nat>, now: Moment,
                                            outside: map<nat, Outside>)
    requires Linked(w) && rows == w.requests && forall id :: id in ids ==> id in rows
    ensures
      var v := HandleAll(w, rows, ids, now, outside);
      Linked(v) && FollowsAll(w, v, set id | id in ids)
    decreases |ids|
  {
    if ids != [] {
      var n := |ids| - 1;
      HandleAllFollows(w, rows, ids[..n], now, outside);
      var u := HandleAll(w, rows, ids[..n], now, outside);
      assert ids[n] in u.requests ==> Follows(w.requests[ids[n]], u.requests[ids[n]]);
      HandleFollows(u, ids[n], rows[ids[n]], now, Answer(outside, ids[n]));
      FollowsTransitive(w, u, HandleAll(w, rows, ids, now, outside), set id | id in ids[..n], {ids[n]});
      assert (set id | id in ids[..n]) + {ids[n]} == set id | id in ids;
    }
  }

  /** Marks stay, and a restored request never changes again. */
  predicate Advances(a: Request, b: Request) {
    && b.tenant == a.tenant && b.effective == a.effective
    && KeepsMark(a.twoDays, b.twoDays) && KeepsMark(a.oneDay, b.oneDay) && KeepsMark(a.expired, b.expired)
    && KeepsMark(a.deactivated, b.deactivated) && KeepsMark(a.cleanup, b.cleanup)
    && (a.status == Restored ==> b == a)
    && (a.status == Requested && b.status == Restored ==> b.deactivated.None?)
  }

  ghost predicate WorldAdvances(w: World, v: World) {
    && w.nextId <= v.nextId && v.tenants.Keys <= w.tenants.Keys
    && (forall k :: k in v.requests && k < w.nextId ==> k in w.requests && Advances(w.requests[k], v.requests[k]))
    && (forall k :: k in w.requests && k !in v.requests ==> w.requests[k].tenant !in v.tenants)
  }

  ghost predicate Sound(w: World) {
    Linked(w) && forall k :: k in w.requests ==> OnTime(w.requests[k]) && (w.requests[k].status == Requested ==> Open(w.requests[k]))
  }

  lemma PassAdvances(w: World, outside: map<nat, Outside>, now: Moment)
    requires Sound(w)
    ensures
      var v := Perform(w, Lifecycle(outside, now)).0;
      && Sound(v) && WorldAdvances(w, v)
      && (forall k :: k in v.requests ==> k in w.requests && (LateMark(w.requests[k]) ==> LateMark(v.requests[k])))
      && (forall k :: k in v.requests && w.requests[k].status == Restored ==> v.requests[k] == w.requests[k])
  {
    var ids := OpenIds(w.requests, w.nextId);
    HandleAllFollows(w, w.requests, ids, now, outside);
    var v := HandleAll(w, w.requests, ids, now, outside);
    forall k | k in v.requests
      ensures k in w.requests && Advances(w.requests[k], v.requests[k]) && OnTime(v.requests[k])
      ensures LateMark(w.requests[k]) ==> LateMark(v.requests[k])
    {
      assert Follows(w.requests[k], v.requests[k]);
      assert w.requests[k].status == Restored ==> k !in set id | id in ids;
    }
  }

  lemma OneRowAdvances(w: World, v: World, id: nat, r: Request)
    requires Sound(w) && id in w.requests && Advances(w.requests[id], r) && OnTime(r) && (r.status == Requested ==> Open(r))
    requires v.requests == w.requests[id := r] && v.nextId == w.nextId && v.tenants.Keys == w.tenants.Keys
    ensures Sound(v) && WorldAdvances(w, v)
  {
  }

  lemma CancelAdvances(w: World, op: Operation)
    requires Sound(w) && op.Cancel?
    ensures Sound(Perform(w, op).0) && WorldAdvances(w, Perform(w, op).0)
  {
  }

  lemma RestoreAdvances(w: World, op: Operation)
    requires Sound(w) && op.Restore?
    ensures Sound(Perform(w, op).0) && WorldAdvances(w, Perform(w, op).0)
  {
    var id, v := Latest(w, op.tenant), Perform(w, op).0;
    if v != w {
      OneRowAdvances(w, v, id.value, v.requests[id.value]);
    }
  }

  lemma RemovalAdvances(w: World, op: Operation)
    requires Sound(w) && (op.DeleteAccess? || op.SyncStatus?)
    ensures Sound(Perform(w, op).0) && WorldAdvances(w, Perform(w, op).0)
  {
    var id, v := Latest(w, op.tenant), Perform(w, op).0;
    assert v.tenants.Keys == w.tenants.Keys;
    if v.requests != w.requests {
      OneRowAdvances(w, v, id.value, v.requests[id.value]);
    }
  }

  /** Every operation sets marks at most once, clears none, and leaves restored requests alone. */
  lemma PerformAdvances(w: World, op: Operation)
    requires Sound(w)
    ensures Sound(Perform(w, op).0) && WorldAdvances(w, Perform(w, op).0)
  {
    match op
    case Lifecycle(outside, now) => PassAdvances(w, outside, now);
    case Cancel(_, _, _) => CancelAdvances(w, op);
    case Restore(_, _) => RestoreAdvances(w, op);
    case DeleteAccess(_, _, _) => RemovalAdvances(w, op);
    case SyncStatus(_, _, _) => RemovalAdvances(w, op);
  }

  lemma AdvancesTransitive(w: World, u: World, v: World)
    requires Linked(w) && WorldAdvances(w, u) && WorldAdvances(u, v)
    ensures WorldAdvances(w, v)
  {
    forall k | k in v.requests && k < w.nextId
      ensures k in w.requests && Advances(w.requests[k], v.requests[k])
    {
      assert k in u.requests && Advances(u.requests[k], v.requests[k]);
    }
  }

  lemma {:induction false} RunAdvances(w: World, ops: seq<Operation>)
    requires Sound(w)
    ensures Sound(Run(w, ops)) && WorldAdvances(w, Run(w, ops))
    decreases |ops|
  {
    if ops != [] {
      var n := |ops| - 1;
      RunAdvances(w, ops[..n]);
      PerformAdvances(Run(w, ops[..n]), ops[n]);
      AdvancesTransitive(w, Run(w, ops[..n]), Run(w, ops));
    }
  }

  // ------------------------------------------------------------------ erasure

  ghost predicate ErasedBecause(w: World, t: int, id: nat, now: Moment) {
    id in w.requests && w.requests[id].tenant == t && Open(w.requests[id]) && DueForErasure(w.requests[id], now)
  }

  lemma {:induction false} HandleAllErasesBecause(w: World, rows: map<nat, Request>, ids: seq<nat>, now: Moment,
                                                  outside: map<nat, Outside>, t: int) returns (id: nat)
    requires (forall id :: id in ids ==> id in rows) && t in w.tenants
    requires t !in HandleAll(w, rows, ids, now, outside).tenants
    ensures id in ids && rows[id].tenant == t && DueForErasure(rows[id], now)
    decreases |ids|
  {
    var n := |ids| - 1;
    if t in HandleAll(w, rows, ids[..n], now, outside).tenants {
      id := ids[n];
    } else {
      id := HandleAllErasesBecause(w, rows, ids[..n], now, outside, t);
    }
  }

  /** Only a pass erases, and only for a request that is open and was marked a week before. */
  lemma ErasureNeedsMarkedRequest(w: World, op: Operation, t: int) returns (id: nat)
    requires t in w.tenants && t !in Perform(w, op).0.tenants
    ensures op.Lifecycle? && ErasedBecause(w, t, id, op.now)
  {
    assert op.Lifecycle?;
    id := HandleAllErasesBecause(w, w.requests, OpenIds(w.requests, w.nextId), op.now, op.outside, t);
  }

  ghost predicate LateMarks(w: World, t: int) {
    forall k :: k in w.requests && w.requests[k].tenant == t ==> LateMark(w.requests[k])
  }

  lemma PerformKeepsLateMarks(w: World, op: Operation, t: int)
    requires Sound(w) && LateMarks(w, t) && !(op.DeleteAccess? && op.tenant == t)
    ensures LateMarks(Perform(w, op).0, t)
  {
    if op.Lifecycle? {
      PassAdvances(w, op.outside, op.now);
    }
  }

  ghost predicate NoDeletion(ops: seq<Operation>, t: int) {
    forall i :: 0 <= i < |ops| ==> !(ops[i].DeleteAccess? && ops[i].tenant == t)
  }

  lemma {:induction false} RunKeepsLateMarks(w: World, ops: seq<Operation>, t: int)
    requires Sound(w) && LateMarks(w, t) && NoDeletion(ops, t)
    ensures LateMarks(Run(w, ops), t)
    decreases |ops|
  {
    if ops != [] {
      var n := |ops| - 1;
      RunKeepsLateMarks(w, ops[..n], t);
      RunAdvances(w, ops[..n]);
      PerformKeepsLateMarks(Run(w, ops[..n]), ops[n], t);
    }
  }

  /** Without an explicit deletion of the access, a tenant is erased no earlier than fourteen days after the day
      one of its open requests takes effect. */
  lemma ErasureTakesFourteenDays(w: World, ops: seq<Operation>, op: Operation, t: int) returns (id: nat)
    requires Sound(w) && LateMarks(w, t) && NoDeletion(ops, t)
    requires t in Run(w, ops).tenants && t !in Perform(Run(w, ops), op).0.tenants
    ensures op.Lifecycle? && ErasedBecause(Run(w, ops), t, id, op.now)
    ensures op.now.day >= Run(w, ops).requests[id].effective + 14
  {
    RunKeepsLateMarks(w, ops, t);
    id := ErasureNeedsMarkedRequest(Run(w, ops), op, t);
  }

  // ------------------------------------------------------------------ when restoring is enough

  ghost predicate Threatened(w: World, t: int) {
    exists k :: k in w.requests && w.requests[k].tenant == t && Open(w.requests[k])
  }

  /** Nobody cancels for the tenant again, and no unpaid invoice switches it off. */
  ghost predicate LeftAlone(ops: seq<Operation>, t: int) {
    forall i :: 0 <= i < |ops| ==>
      !(ops[i].Cancel? && ops[i].tenant == t) && !(ops[i].SyncStatus? && ops[i].tenant == t && ops[i].unpaid)
  }

  ghost predicate Stays(w: World, v: World, t: int) {
    && t in w.tenants && t in v.tenants && v.tenants[t] == w.tenants[t]
    && (forall k :: k in v.requests && v.requests[k].tenant == t ==> k in w.requests && v.requests[k] == w.requests[k])
  }

  /** Whatever happens, the tenant keeps its state. */
  ghost predicate Safe(w: World, t: int) {
    forall ops: seq<Operation> :: LeftAlone(ops, t) ==> Stays(w, Run(w, ops), t)
  }

  lemma HandleLeavesOthers(w: World, id: nat, row: Request, now: Moment, o: Outside, t: int)
    requires t in w.tenants && row.tenant != t && (id in w.requests ==> Marked(row, w.requests[id]))
    ensures Stays(w, Handle(w, id, row, now, o), t)
  {
    if id in w.requests {
      HandledFollows(w.requests[id], row, now, o);
    }
  }

  lemma {:induction false} HandleAllLeavesOthers(w: World, rows: map<nat, Request>, ids: seq<nat>, now: Moment,
                                                 outside: map<nat, Outside>, t: int)
    requires Linked(w) && rows == w.requests && t in w.tenants
    requires forall id :: id in ids ==> id in rows && rows[id].tenant != t
    ensures Stays(w, HandleAll(w, rows, ids, now, outside), t)
    decreases |ids|
  {
    if ids != [] {
      var n := |ids| - 1;
      HandleAllLeavesOthers(w, rows, ids[..n], now, outside, t);
      HandleAllFollows(w, rows, ids[..n], now, outside);
      var u := HandleAll(w, rows, ids[..n], now, outside);
      assert ids[n] in u.requests ==> Follows(w.requests[ids[n]], u.requests[ids[n]]);
      HandleLeavesOthers(u, ids[n], rows[ids[n]], now, Answer(outside, ids[n]), t);
    }
  }

  lemma UnthreatenedStays(w: World, op: Operation, t: int)
    requires Sound(w) && t in w.tenants && !Threatened(w, t) && LeftAlone([op], t)
    ensures Stays(w, Perform(w, op).0, t) && !Threatened(Perform(w, op).0, t)
  {
    assert [op][0] == op;
    if op.Lifecycle? {
      HandleAllLeavesOthers(w, w.requests, OpenIds(w.requests, w.nextId), op.now, op.outside, t);
    }
  }

  lemma {:induction false} UnthreatenedIsSafe(w: World, ops: seq<Operation>, t: int)
    requires Sound(w) && t in w.tenants && !Threatened(w, t) && LeftAlone(ops, t)
    ensures Stays(w, Run(w, ops), t) && !Threatened(Run(w, ops), t)
    decreases |ops|
  {
    if ops != [] {
      var n := |ops| - 1;
      UnthreatenedIsSafe(w, ops[..n], t);
      RunAdvances(w, ops[..n]);
      assert [ops[n]][0] == ops[n];
      UnthreatenedStays(Run(w, ops[..n]), ops[n], t);
    }
  }

  // ------------------------------------------------------------------ an open request erases in the end

  lemma {:induction false} HandleAllErases(w: World, rows: map<nat, Request>, ids: seq<nat>, now: Moment,
                                           outside: map<nat, Outside>, id: nat)
    requires (forall k :: k in ids ==> k in rows) && id in ids
    requires DueForErasure(rows[id], now) && Answer(outside, id).dropped
    ensures rows[id].tenant !in HandleAll(w, rows, ids, now, outside).tenants
    decreases |ids|
  {
    var n := |ids| - 1;
    if ids[n] != id {
      HandleAllErases(w, rows, ids[..n], now, outside, id);
    }
  }

  lemma {:induction false} HandleAllRemoves(w: World, rows: map<nat, Request>, ids: seq<nat>, now: Moment)
    requires Linked(w) && rows == w.requests && forall k :: k in ids ==> k in rows
    ensures
      var v := HandleAll(w, rows, ids, now, map[]);
      && v.nextId == w.nextId && v.requests.Keys == w.requests.Keys && v.tenants.Keys == w.tenants.Keys
      && (forall k :: k in ids && DueForRemoval(rows[k], now) ==> v.requests[k].deactivated == Some(now))
    decreases |ids|
  {
    if ids != [] {
      var n := |ids| - 1;
      HandleAllRemoves(w, rows, ids[..n], now);
      HandleAllFollows(w, rows, ids[..n], now, map[]);
      var u := HandleAll(w, rows, ids[..n], now, map[]);
      assert Follows(w.requests[ids[n]], u.requests[ids[n]]);
      assert ids[n] !in ids[..n] ==> u.requests[ids[n]] == w.requests[ids[n]];
    }
  }

  lemma RunOne(w: World, a: Operation)
    ensures Run(w, [a]) == Perform(w, a).0
  {
    assert [a][..0] == [] && Run(w, []) == w;
  }

  lemma RunTwo(w: World, a: Operation, b: Operation)
    ensures Run(w, [a, b]) == Perform(Perform(w, a).0, b).0
  {
    assert [a, b][..1] == [a];
    RunOne(w, a);
  }

  function ErasingPass(id: nat, day: int): Operation {
    Lifecycle(map[id := Outside(false, false, false, false, true)], Moment(day, 0))
  }

  lemma MarkedRequestErases(w: World, id: nat)
    requires Sound(w) && id in w.requests && Open(w.requests[id]) && w.requests[id].deactivated.Some?
    ensures w.requests[id].tenant !in Perform(w, ErasingPass(id, w.requests[id].deactivated.value.day + 7)).0.tenants
  {
    var pass := ErasingPass(id, w.requests[id].deactivated.value.day + 7);
    HandleAllErases(w, w.requests, OpenIds(w.requests, w.nextId), pass.now, pass.outside, id);
  }

  lemma PassMarks(w: World, id: nat)
    requires Sound(w) && id in w.requests && Open(w.requests[id]) && w.requests[id].deactivated.None?
    ensures
      var now := Moment(w.requests[id].effective + 7, 0);
      var v := Perform(w, RemovingPass(w.requests[id].effective + 7)).0;
      && Sound(v) && id in v.requests && Open(v.requests[id]) && v.requests[id].tenant == w.requests[id].tenant
      && v.requests[id].deactivated == Some(now)
  {
    var now, ids := Moment(w.requests[id].effective + 7, 0), OpenIds(w.requests, w.nextId);
    PassAdvances(w, map[], now);
    HandleAllRemoves(w, w.requests, ids, now);
    HandleAllFollows(w, w.requests, ids, now, map[]);
    assert Follows(w.requests[id], HandleAll(w, w.requests, ids, now, map[]).requests[id]);
  }

  function RemovingPass(day: int): Operation { Lifecycle(map[], Moment(day, 0)) }

  lemma MarkedTwoWeeksErases(w: World, id: nat, day: int)
    requires Sound(w) && id in w.requests && Open(w.requests[id]) && w.requests[id].deactivated == Some(Moment(day + 7, 0))
    ensures w.requests[id].tenant !in Perform(w, ErasingPass(id, day + 14)).0.tenants
  {
    MarkedRequestErases(w, id);
  }

  /** The bound of fourteen days is reached: one pass seven days after the effective day, one fourteen days after. */
  lemma FourteenDaysAreReached(w: World, id: nat, first: Operation, second: Operation)
    requires Sound(w) && id in w.requests && Open(w.requests[id]) && w.requests[id].deactivated.None?
    requires first == RemovingPass(w.requests[id].effective + 7)
    requires second == ErasingPass(id, w.requests[id].effective + 14)
    ensures w.requests[id].tenant !in Run(w, [first, second]).tenants
  {
    PassMarks(w, id);
    MarkedTwoWeeksErases(Perform(w, first).0, id, w.requests[id].effective);
    RunTwo(w, first, second);
  }

  lemma ErasingRunIsUnsafe(w: World, ops: seq<Operation>, t: int)
    requires t !in Run(w, ops).tenants && forall i :: 0 <= i < |ops| ==> ops[i].Lifecycle?
    ensures !Safe(w, t)
  {
    assert LeftAlone(ops, t) && !Stays(w, Run(w, ops), t);
  }

  lemma UnmarkedIsUnsafe(w: World, id: nat, first: Operation, second: Operation)
    requires Sound(w) && id in w.requests && Open(w.requests[id]) && w.requests[id].deactivated.None?
    requires first == RemovingPass(w.requests[id].effective + 7)
    requires second == ErasingPass(id, w.requests[id].effective + 14)
    ensures !Safe(w, w.requests[id].tenant)
  {
    FourteenDaysAreReached(w, id, first, second);
    ErasingRunIsUnsafe(w, [first, second], w.requests[id].tenant);
  }

  lemma MarkedIsUnsafe(w: World, id: nat, pass: Operation)
    requires Sound(w) && id in w.requests && Open(w.requests[id]) && w.requests[id].deactivated.Some?
    requires pass == ErasingPass(id, w.requests[id].deactivated.value.day + 7)
    ensures !Safe(w, w.requests[id].tenant)
  {
    MarkedRequestErases(w, id);
    RunOne(w, pass);
    ErasingRunIsUnsafe(w, [pass], w.requests[id].tenant);
  }

  lemma ThreatenedIsUnsafe(w: World, t: int)
    requires Sound(w) && Threatened(w, t)
    ensures !Safe(w, t)
  {
    var id :| id in w.requests && w.requests[id].tenant == t && Open(w.requests[id]);
    var day := w.requests[id].effective;
    if w.requests[id].deactivated.None? {
      UnmarkedIsUnsafe(w, id, RemovingPass(day + 7), ErasingPass(id, day + 14));
    } else {
      MarkedIsUnsafe(w, id, ErasingPass(id, w.requests[id].deactivated.value.day + 7));
    }
  }

  /** A tenant is out of danger exactly if none of its requests is open. */
  lemma SafeIffNoOpenRequest(w: World, t: int)
    requires Sound(w) && t in w.tenants
    ensures Safe(w, t) <==> !Threatened(w, t)
  {
    if Threatened(w, t) {
      ThreatenedIsUnsafe(w, t);
    } else {
      forall ops: seq<Operation> | LeftAlone(ops, t) ensures Stays(w, Run(w, ops), t) {
        UnthreatenedIsSafe(w, ops, t);
      }
    }
  }

  /** Restoring the renewal is enough exactly if the tenant had no other open request. */
  lemma RestoreIsEnoughIff(w: World, t: int, now: Moment)
    requires Sound(w) && Perform(w, Restore(t, now)).1.RenewalRestored?
    ensures
      var (v, reply) := Perform(w, Restore(t, now));
      Safe(v, t) <==> forall k :: k in w.requests && w.requests[k].tenant == t && k != reply.id ==> !Open(w.requests[k])
  {
    var (v, reply) := Perform(w, Restore(t, now));
    RestoreAdvances(w, Restore(t, now));
    SafeIffNoOpenRequest(v, t);
    assert forall k :: k in w.requests && k != reply.id ==> v.requests[k] == w.requests[k];
    assert !Open(v.requests[reply.id]);
  }

  lemma CancelOpensRequest(w: World, t: int, paidUntil: int, v: World)
    requires Sound(w) && t in w.tenants && v == Perform(w, Cancel(t, paidUntil, true)).0
    ensures Sound(v) && v.nextId == w.nextId + 1 && v.tenants == w.tenants && Latest(v, t) == Some(w.nextId)
    ensures v.requests == w.requests[w.nextId := Request(t, paidUntil + 1, Requested, None, None, None, None, None)]
  {
    CancelAdvances(w, Cancel(t, paidUntil, true));
  }

  /** Cancelling twice and restoring once reports success and leaves the tenant to be erased. */
  lemma SecondCancellationOutlivesRestore(w: World, once: World, twice: World, t: int, first: int, second: int, now: Moment)
    requires Sound(w) && t in w.tenants
    requires once == Perform(w, Cancel(t, first, true)).0 && twice == Perform(once, Cancel(t, second, true)).0
    ensures Perform(twice, Restore(t, now)).1 == RenewalRestored(w.nextId + 1)
    ensures !Safe(Perform(twice, Restore(t, now)).0, t)
  {
    CancelOpensRequest(w, t, first, once);
    CancelOpensRequest(once, t, second, twice);
    assert twice.requests[w.nextId].tenant == t && Open(twice.requests[w.nextId]);
    RestoreIsEnoughIff(twice, t, now);
  }

  // ------------------------------------------------------------------ the code

  lemma SameSize(a: map<int, bool>, b: map<int, bool>)
    ensures a.Keys == b.Keys ==> |a| == |b|
  {
    assert |a.Keys| == |a| && |b.Keys| == |b|;
  }

  class CancellationTable {
    var requests: map<nat, Request>
    var nextId: nat
    var tenants: map<int, bool>

    function Contents(): World
      reads this
    {
      World(requests, nextId, tenants)
    }

    constructor (tenants: map<int, bool>)
      ensures Contents() == World(map[], 0, tenants) && Sound(Contents())
    {
      requests, nextId, this.tenants := map[], 0, tenants;
    }

    method Deactivate(t: int)
      modifies this`tenants
      ensures tenants == SwitchOff(old(tenants), t)
    {
      if t in tenants {
        tenants := tenants[t := false];
      }
    }

    method MarkCancellationDeactivated(id: nat, now: Moment) returns (changed: bool)
      modifies this`requests
      ensures requests == MarkDeactivated(old(requests), id, now)
      ensures changed <==> id in old(requests) && old(requests)[id].deactivated.None?
    {
      changed := id in requests && requests[id].deactivated.None?;
      if changed {
        requests := requests[id := requests[id].(deactivated := Some(now))];
      }
    }

    method CancelSubscription(t: int, paidUntil: int, validReason: bool) returns (reply: Reply)
      modifies this
      ensures (Contents(), reply) == Perform(old(Contents()), Cancel(t, paidUntil, validReason))
    {
      if t !in tenants {
        return NoTenant;
      }
      if !validReason {
        return InvalidReason;
      }
      requests := requests[nextId := Request(t, paidUntil + 1, Requested, None, None, None, None, None)];
      reply := Recorded(nextId);
      nextId := nextId + 1;
    }

    method RestoreSubscriptionRenewal(t: int, now: Moment) returns (reply: Reply)
      modifies this`requests
      ensures (Contents(), reply) == Perform(old(Contents()), Restore(t, now))
    {
      if t !in tenants {
        return NoTenant;
      }
      var latest := Latest(Contents(), t);
      if latest.None? || requests[latest.value].status != Requested {
        return AlreadyActive;
      }
      var row := requests[latest.value];
      if row.deactivated.Some? {
        return AccessRemoved;
      }
      requests := requests[latest.value := row.(status := Restored, cleanup := Some(now))];
      reply := RenewalRestored(latest.value);
    }

    method DeleteServiceAccess(t: int, activeKbs: nat, now: Moment) returns (reply: Reply)
      modifies this`requests, this`tenants
      ensures (Contents(), reply) == Perform(old(Contents()), DeleteAccess(t, activeKbs, now))
    {
      if t !in tenants {
        return NoTenant;
      }
      if activeKbs > 0 {
        return BlockedByKnowledgeBases;
      }
      var latest := Latest(Contents(), t);
      if latest.None? || requests[latest.value].status != Requested {
        return NotCancelled;
      }
      if requests[latest.value].deactivated.Some? {
        return AlreadyDeactivated(latest.value);
      }
      Deactivate(t);
      var _ := MarkCancellationDeactivated(latest.value, now);
      reply := Deactivated(latest.value);
    }

    /** The part of the status sync that touches tenants and requests. */
    method SyncStatus(t: int, unpaid: bool, now: Moment)
      modifies this`requests, this`tenants
      ensures Contents() == Perform(old(Contents()), Operation.SyncStatus(t, unpaid, now)).0
    {
      var latest := Latest(Contents(), t);
      if latest.Some? && requests[latest.value].status == Requested {
        var row := requests[latest.value];
        if row.deactivated.None? && row.effective <= now.day && now.day >= row.effective + 7 {
          Deactivate(t);
          var _ := MarkCancellationDeactivated(latest.value, now);
        }
      }
      if unpaid {
        Deactivate(t);
      }
    }

    method MarkCancellationNoticeTwoDaysSent(id: nat, now: Moment)
      modifies this`requests
      ensures requests == if id in old(requests) then old(requests)[id := old(requests[id]).(twoDays := Mark(old(requests[id]).twoDays, now))]
                          else old(requests)
    {
      if id in requests && requests[id].twoDays.None? {
        requests := requests[id := requests[id].(twoDays := Some(now))];
      }
    }

    method MarkCancellationNoticeOneDaySent(id: nat, now: Moment)
      modifies this`requests
      ensures requests == if id in old(requests) then old(requests)[id := old(requests[id]).(oneDay := Mark(old(requests[id]).oneDay, now))]
                          else old(requests)
    {
      if id in requests && requests[id].oneDay.None? {
        requests := requests[id := requests[id].(oneDay := Some(now))];
      }
    }

    method MarkCancellationNoticeExpiredSent(id: nat, now: Moment)
      modifies this`requests
      ensures requests == if id in old(requests) then old(requests)[id := old(requests[id]).(expired := Mark(old(requests[id]).expired, now))]
                          else old(requests)
    {
      if id in requests && requests[id].expired.None? {
        requests := requests[id := requests[id].(expired := Some(now))];
      }
    }

    method HardDeleteTenant(t: int) returns (deleted: bool)
      modifies this`requests, this`tenants
      ensures deleted <==> t in old(tenants)
      ensures Contents() == if deleted then Erase(old(Contents()), t) else old(Contents())
      ensures |old(tenants)| == |tenants| + if deleted then 1 else 0
    {
      deleted := t in tenants;
      if deleted {
        requests := map k | k in requests && requests[k].tenant != t :: requests[k];
        tenants := tenants - {t};
        assert tenants.Keys == old(tenants).Keys - {t} && |tenants.Keys| == |tenants|;
      }
    }

    method NotifyBefore(id: nat, row: Request, now: Moment, o: Outside)
      modifies this`requests
      ensures requests == if id in old(requests)
                          then old(requests)[id := OneDayNotice(TwoDayNotice(old(requests[id]), row, now, o), row, now, o)]
                          else old(requests)
    {
      var daysUntil := row.effective - now.day;
      if o.owner {
        if daysUntil == 2 && row.twoDays.None? && o.sendTwo {
          MarkCancellationNoticeTwoDaysSent(id, now);
        }
        if daysUntil == 1 && row.oneDay.None? && o.sendOne {
          MarkCancellationNoticeOneDaySent(id, now);
        }
      }
    }

    /** One request of a pass; `row` was read when the pass began. */
    method HandleRequest(id: nat, row: Request, now: Moment, o: Outside) returns (deleted: bool)
      modifies this`requests, this`tenants
      ensures Contents() == Handle(old(Contents()), id, row, now, o)
      ensures |old(tenants)| == |tenants| + if deleted then 1 else 0
    {
      NotifyBefore(id, row, now, o);
      if row.deactivated.None? && now.day >= row.effective + 7 {
        Deactivate(row.tenant);
        var _ := MarkCancellationDeactivated(id, now);
      }
      if row.effective <= now.day && row.expired.None? && o.owner && o.sendExpired {
        MarkCancellationNoticeExpiredSent(id, now);
      }
      assert requests == if id in old(requests) then old(requests)[id := Handled(old(requests[id]), row, now, o)] else old(requests);
      SameSize(old(tenants), tenants);
      if row.deactivated.None? || now.day < row.deactivated.value.day + 7 || !o.dropped {
        return false;
      }
      deleted := HardDeleteTenant(row.tenant);
    }

    /** The pass; it reports how many tenants it deleted. */
    method ProcessCancellationLifecycle(outside: map<nat, Outside>, now: Moment) returns (deleted: nat)
      modifies this`requests, this`tenants
      ensures Contents() == Perform(old(Contents()), Lifecycle(outside, now)).0
      ensures |old(tenants)| == |tenants| + deleted
    {
      var rows, ids := requests, OpenIds(requests, nextId);
      deleted := 0;
      for i := 0 to |ids|
        invariant Contents() == HandleAll(old(Contents()), rows, ids[..i], now, outside)
        invariant |old(tenants)| == |tenants| + deleted
      {
        assert ids[..i + 1][..i] == ids[..i];
        var gone := HandleRequest(ids[i], rows[ids[i]], now, Answer(outside, ids[i]));
        if gone {
          deleted := deleted + 1;
        }
      }
      assert ids[..|ids|] == ids;
    }
  }
}
