/** The windowed counter of failed second-factor attempts for one scope, with its lock
    (backend/admin/repository/platform_admin_repository.py). Times, windows and locks are in one unit.
 */
module MfaLockout {
  import opened Basics

  datatype Row = Row(attempts: int, windowStart: int, blockedUntil: Option<int>)

  datatype Policy = Policy(maxAttempts: int, window: int, lock: int)

  /** Every setting is at least one. */
  predicate Sane(p: Policy) { p.maxAttempts >= 1 && p.window >= 1 && p.lock >= 1 }

  function Normalized(maxAttempts: int, window: int, lock: int): (p: Policy)
    ensures Sane(p)
  {
    Policy(Max(1, maxAttempts), Max(1, window), Max(1, lock))
  }

  /** A setting below one counts as one, any other as it is. */
  lemma NormalizedIs(maxAttempts: int, window: int, lock: int)
    ensures
      var p := Normalized(maxAttempts, window, lock);
      && p.maxAttempts == (if maxAttempts < 1 then 1 else maxAttempts) && p.window == (if window < 1 then 1 else window)
      && p.lock == (if lock < 1 then 1 else lock)
  {
  }

  predicate Blocked(row: Option<Row>, now: int) {
    row.Some? && row.value.blockedUntil.Some? && row.value.blockedUntil.value > now
  }

  /** The row after a failed attempt that was counted. */
  function Counted(row: Option<Row>, now: int, p: Policy): Row {
    var r := if row.Some? then row.value else Row(0, now, None);
    var same := now < r.windowStart + p.window;
    var attempts := if same then r.attempts + 1 else 1;
    Row(attempts, if same then r.windowStart else now,
        if attempts >= p.maxAttempts then Some(now + p.lock) else None)
  }

  function Record(row: Option<Row>, now: int, p: Policy): Option<Row> {
    if Blocked(row, now) then row else Some(Counted(row, now, p))
  }

  class AttemptCounter {
    var row: Option<Row>

    constructor ()
      ensures row == None
    {
      row := None;
    }

    method IsBlocked(now: int) returns (blocked: bool)
      ensures blocked == Blocked(row, now)
    {
      blocked := row.Some? && row.value.blockedUntil.Some? && row.value.blockedUntil.value > now;
    }

    /** An attempt made while locked leaves the counter as it was. */
    method RecordFailedAttempt(now: int, maxAttempts: int, window: int, lock: int) returns (blocked: bool)
      modifies this
      ensures row == Record(old(row), now, Normalized(maxAttempts, window, lock))
      ensures Blocked(old(row), now) ==> row == old(row)
      ensures blocked == Blocked(row, now)
    {
      var p := Normalized(maxAttempts, window, lock);
      var r := if row.Some? then row.value else Row(0, now, None);
      if r.blockedUntil.Some? && r.blockedUntil.value > now {
        return true;
      }
      if now < r.windowStart + p.window {
        r := r.(attempts := r.attempts + 1);
      } else {
        r := r.(attempts := 1, windowStart := now);
      }
      blocked := r.attempts >= p.maxAttempts;
      row := Some(r.(blockedUntil := if blocked then Some(now + p.lock) else None));
    }

    method Reset(now: int)
      modifies this
      ensures row == if old(row).Some? then Some(Row(0, now, None)) else None
    {
      if row.Some? {
        row := Some(Row(0, now, None));
      }
    }
  }

  // ------------------------------------------------------------------ how long a lock lasts

  function RecordAll(row: Option<Row>, times: seq<int>, p: Policy): Option<Row>
    decreases |times|
  {
    if times == [] then row else RecordAll(Record(row, times[0], p), times[1..], p)
  }

  lemma {:induction false} LockedAttemptsChangeNothing(row: Option<Row>, times: seq<int>, p: Policy)
    requires forall i :: 0 <= i < |times| ==> Blocked(row, times[i])
    ensures RecordAll(row, times, p) == row
    decreases |times|
  {
    if times != [] {
      LockedAttemptsChangeNothing(row, times[1..], p);
    }
  }

  /** The attempt that fills the count locks the scope for exactly the lock's length, whatever further attempts are
      made meanwhile; any other counted attempt leaves it open. */
  lemma LockLastsItsLength(row: Option<Row>, now: int, p: Policy, times: seq<int>, later: int)
    requires Sane(p) && !Blocked(row, now)
    requires forall i :: 0 <= i < |times| ==> now <= times[i] < now + p.lock
    ensures
      var after := Record(row, now, p);
      && after.Some?
      && (after.value.attempts < p.maxAttempts ==> !Blocked(after, later))
      && (after.value.attempts >= p.maxAttempts ==>
            (Blocked(RecordAll(after, times, p), later) <==> later < now + p.lock))
  {
    var after := Record(row, now, p);
    if after.value.attempts >= p.maxAttempts {
      LockedAttemptsChangeNothing(after, times, p);
    }
  }

  // ------------------------------------------------------------------ how many attempts get counted

  predicate Ordered(times: seq<int>) { forall i, j :: 0 <= i < j < |times| ==> times[i] <= times[j] }

  /** How many failed attempts at these times are counted, starting from `row`, with no reset. */
  function CountOf(row: Option<Row>, times: seq<int>, p: Policy): nat
    decreases |times|
  {
    if times == [] then 0
    else (if Blocked(row, times[0]) then 0 else 1) + CountOf(Record(row, times[0], p), times[1..], p)
  }

  function Bound(span: int, p: Policy): int
    requires Sane(p)
  {
    p.maxAttempts * (span / p.window + 1)
  }

  ghost predicate AlwaysBounded(p: Policy)
    requires Sane(p)
  {
    forall times: seq<int> ::
      times != [] && Ordered(times) ==> CountOf(None, times, p) <= Bound(times[|times| - 1] - times[0], p)
  }

  /** The row is in its j-th window after the first, which began at `first`; a full window is locked past its end. */
  predicate InWindow(row: Row, first: int, j: nat, p: Policy) {
    && row.windowStart >= first + j * p.window && 1 <= row.attempts <= p.maxAttempts
    && (row.attempts == p.maxAttempts ==>
          row.blockedUntil.Some? && row.blockedUntil.value >= row.windowStart + p.window)
  }

  lemma CountedStaysInWindow(row: Row, first: int, j: nat, now: int, p: Policy) returns (k: nat)
    requires Sane(p) && p.lock >= p.window && InWindow(row, first, j, p) && row.windowStart <= now
    requires !Blocked(Some(row), now)
    ensures
      var r := Counted(Some(row), now, p);
      InWindow(r, first, k, p) && r.windowStart <= now && p.maxAttempts * j + row.attempts + 1 <= p.maxAttempts * k + r.attempts
  {
    if now < row.windowStart + p.window {
      k := j;
    } else {
      k := j + 1;
      assert (j + 1) * p.window == j * p.window + p.window;
      assert p.maxAttempts * (j + 1) == p.maxAttempts * j + p.maxAttempts;
    }
  }

  lemma {:induction false} LaterMultiple(q: int, j: int, w: int)
    requires w >= 1
    ensures q < j ==> q * w + w <= j * w
    decreases j - q
  {
    if q < j {
      if q + 1 < j {
        LaterMultiple(q, j - 1, w);
      }
      assert j * w == (j - 1) * w + w;
    }
  }

  lemma AtMostQuotient(j: nat, w: int, span: int)
    requires w >= 1 && j * w <= span
    ensures j <= span / w
  {
    LaterMultiple(span / w, j, w);
    assert span == (span / w) * w + span % w;
  }

  lemma Scale(m: nat, a: int, b: int)
    requires a <= b
    ensures m * a <= m * b
  {
  }

  lemma WindowsFit(first: int, end: int, j: nat, p: Policy)
    requires Sane(p) && first + j * p.window <= end
    ensures p.maxAttempts * j + p.maxAttempts <= Bound(end - first, p)
  {
    AtMostQuotient(j, p.window, end - first);
    Scale(p.maxAttempts, j + 1, (end - first) / p.window + 1);
    assert p.maxAttempts * (j + 1) == p.maxAttempts * j + p.maxAttempts;
  }

  lemma {:induction false} CountWithinBound(row: Row, first: int, j: nat, counted: nat, times: seq<int>, end: int, p: Policy)
    requires Sane(p) && p.lock >= p.window && InWindow(row, first, j, p) && row.windowStart <= end
    requires counted <= p.maxAttempts * j + row.attempts
    requires Ordered(times) && forall i :: 0 <= i < |times| ==> row.windowStart <= times[i] <= end
    ensures counted + CountOf(Some(row), times, p) <= Bound(end - first, p)
    decreases |times|
  {
    if times == [] {
      WindowsFit(first, end, j, p);
    } else if Blocked(Some(row), times[0]) {
      CountWithinBound(row, first, j, counted, times[1..], end, p);
    } else {
      var k := CountedStaysInWindow(row, first, j, times[0], p);
      CountWithinBound(Counted(Some(row), times[0], p), first, k, counted + 1, times[1..], end, p);
    }
  }

  lemma LongLockBounds(times: seq<int>, p: Policy)
    requires Sane(p) && p.lock >= p.window && times != [] && Ordered(times)
    ensures CountOf(None, times, p) <= Bound(times[|times| - 1] - times[0], p)
  {
    var row := Counted(None, times[0], p);
    CountWithinBound(row, times[0], 0, 1, times[1..], times[|times| - 1], p);
  }

  function Burst(n: nat, last: int): seq<int> { seq(n, _ => 0) + [last] }

  lemma {:induction false} BurstCounts(row: Option<Row>, done: nat, left: nat, p: Policy)
    requires Sane(p) && p.lock < p.window && done + left == p.maxAttempts
    requires if done == 0 then row == None
             else row == Some(Row(done, 0, if done == p.maxAttempts then Some(p.lock) else None))
    ensures CountOf(row, Burst(left, p.lock), p) == left + 1
    decreases left
  {
    var times := Burst(left, p.lock);
    if left == 0 {
      assert times == [p.lock] && times[1..] == [];
    } else {
      assert times[0] == 0 && times[1..] == Burst(left - 1, p.lock);
      BurstCounts(Record(row, 0, p), done + 1, left - 1, p);
    }
  }

  /** Counting at most maxAttempts per started window holds for every sequence of attempts exactly when the
      lock is at least as long as the window; a shorter lock lets one more attempt into the same window. */
  lemma BoundedIffLockCoversWindow(p: Policy)
    requires Sane(p)
    ensures AlwaysBounded(p) <==> p.lock >= p.window
  {
    if p.lock >= p.window {
      forall times: seq<int> | times != [] && Ordered(times)
        ensures CountOf(None, times, p) <= Bound(times[|times| - 1] - times[0], p)
      {
        LongLockBounds(times, p);
      }
    } else {
      var times := Burst(p.maxAttempts, p.lock);
      BurstCounts(None, 0, p.maxAttempts, p);
      assert times[0] == 0 && times[|times| - 1] == p.lock;
      assert p.lock / p.window == 0;
      assert Ordered(times) && CountOf(None, times, p) == p.maxAttempts + 1;
    }
  }

  // ------------------------------------------------------------------ when a scope gets locked

  /** How many of the times lie in a half-open stretch. */
  function CountIn(times: seq<int>, from: int, to: int): nat {
    if times == [] then 0
    else CountIn(times[..|times| - 1], from, to) + if from <= times[|times| - 1] < to then 1 else 0
  }

  lemma RecordLast(row: Option<Row>, times: seq<int>, p: Policy)
    requires times != []
    ensures RecordAll(row, times, p) == Record(RecordAll(row, times[..|times| - 1], p), times[|times| - 1], p)
    decreases |times|
  {
    if |times| > 1 {
      RecordLast(Record(row, times[0], p), times[1..], p);
      assert times[1..][..|times| - 2] == times[..|times| - 1][1..];
    } else {
      assert times[..0] == [] && times[1..] == [];
    }
  }

  /** The stored count never exceeds the failed attempts made within one window from its start, and a lock is stored only
      with a full count. */
  lemma {:induction false} StoredCountIsReal(times: seq<int>, p: Policy)
    requires Sane(p) && Ordered(times) && times != []
    ensures
      var r := RecordAll(None, times, p);
      && r.Some? && 1 <= r.value.attempts <= CountIn(times, r.value.windowStart, r.value.windowStart + p.window)
      && r.value.windowStart <= times[|times| - 1]
      && (r.value.blockedUntil.Some? <==> r.value.attempts >= p.maxAttempts)
    decreases |times|
  {
    var n := |times| - 1;
    RecordLast(None, times, p);
    assert times[..n + 1] == times;
    if n == 0 {
      assert times[..0] == [];
    } else {
      StoredCountIsReal(times[..n], p);
      var before := RecordAll(None, times[..n], p);
      assert times[n - 1] <= times[n];
    }
  }

  /** The window that starts at `from` saw at least maxAttempts failed attempts. */
  predicate FullFrom(times: seq<int>, from: int, p: Policy) { CountIn(times, from, from + p.window) >= p.maxAttempts }

  /** No lock without cause: a locked scope has had at least maxAttempts failed attempts within one window. */
  lemma LockNeedsFullWindow(times: seq<int>, p: Policy, now: int)
    requires Sane(p) && Ordered(times) && Blocked(RecordAll(None, times, p), now)
    ensures exists from :: FullFrom(times, from, p)
  {
    StoredCountIsReal(times, p);
    var r := RecordAll(None, times, p).value;
    assert FullFrom(times, r.windowStart, p);
  }

  /** And it comes in time: of failed attempts within one window of the first, the last of maxAttempts locks and none
      before it does. */
  lemma {:induction false} FullWindowLocks(times: seq<int>, p: Policy)
    requires Sane(p) && Ordered(times) && 1 <= |times| <= p.maxAttempts
    requires forall i :: 0 <= i < |times| ==> times[i] < times[0] + p.window
    ensures
      var last := times[|times| - 1];
      RecordAll(None, times, p) ==
        Some(Row(|times|, times[0], if |times| == p.maxAttempts then Some(last + p.lock) else None))
    ensures Blocked(RecordAll(None, times, p), times[|times| - 1]) <==> |times| == p.maxAttempts
    decreases |times|
  {
    var n := |times| - 1;
    RecordLast(None, times, p);
    if n == 0 {
      assert times[..0] == [];
    } else {
      FullWindowLocks(times[..n], p);
    }
  }

  /** Once the window has passed without a lock, the next failed attempt starts a new count at one. */
  lemma NextWindowStartsAtOne(row: Row, now: int, p: Policy)
    requires Sane(p) && !Blocked(Some(row), now)
    ensures
      var r := Record(Some(row), now, p).value;
      if now >= row.windowStart + p.window then r.attempts == 1 && r.windowStart == now
      else r.attempts == row.attempts + 1 && r.windowStart == row.windowStart
  {
  }
}
