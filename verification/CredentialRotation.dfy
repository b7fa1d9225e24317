/** Secret rotation of channel credentials (backend/apps/chat/channel_access.py).

    A rotation opens a window in which the old and the new secret both work. The code has no timer: the
    row is promoted when it is next used after the window, and the promotion is only stored when that use
    is accepted. What users should see is an eager timer; the lazy rows are compared with it.
 */
module CredentialRotation {
  import opened Basics

  /** The part before the first dot is the prefix. Hashing is injective, so a stored hash is the secret. */
  datatype Secret = Secret(prefix: string, tail: string)

  datatype Version = ActiveSecret | NextSecret | RotatingSecret

  datatype Status = Active | Revoked | Disabled

  /** Times are in seconds. */
  datatype Row = Row(keyPrefix: string, activeHash: Secret, nextPrefix: Option<string>, nextHash: Option<Secret>,
                     rotatingUntil: Option<int>, version: Version, status: Status, expiresAt: Option<int>)

  datatype Answer = Accepted(version: Version) | InvalidCredential | CredentialRevoked | CredentialExpired | InvalidOrigin

  const ROTATION_WINDOW: int := 7 * 24 * 3600

  // ------------------------------------------------------------------ the lazy row

  function Promote(row: Row, now: int): Row {
    if row.rotatingUntil.None? || row.rotatingUntil.value > now then row
    else
      var settled := row.(nextPrefix := None, nextHash := None, rotatingUntil := None, version := ActiveSecret);
      if row.nextPrefix.None? || row.nextHash.None? then settled
      else settled.(keyPrefix := row.nextPrefix.value, activeHash := row.nextHash.value)
  }

  function ResolveVersion(row: Row, presented: Secret, now: int): Option<Version> {
    if presented.prefix == row.keyPrefix && row.activeHash == presented then Some(ActiveSecret)
    else if row.nextPrefix == Some(presented.prefix) && row.nextHash == Some(presented)
            && row.rotatingUntil.Some? && row.rotatingUntil.value >= now then Some(NextSecret)
    else None
  }

  predicate Found(row: Row, presented: Secret) {
    row.keyPrefix == presented.prefix || row.nextPrefix == Some(presented.prefix)
  }

  predicate Admitted(row: Row, now: int) {
    row.status == Active && (row.expiresAt.Some? ==> row.expiresAt.value > now)
  }

  function Authenticate(row: Row, presented: Secret, now: int, originAllowed: bool): (Row, Answer) {
    if !Found(row, presented) then (row, InvalidCredential)
    else if row.status == Revoked then (row, CredentialRevoked)
    else if row.status != Active then (row, InvalidCredential)
    else if !Admitted(row, now) then (row, CredentialExpired)
    else
      var promoted := Promote(row, now);
      var version := ResolveVersion(promoted, presented, now);
      if version.None? then (row, InvalidCredential)
      else if !originAllowed then (row, InvalidOrigin)
      else (promoted.(version := version.value), Accepted(version.value))
  }

  function Rotate(row: Row, newSecret: Secret, now: int): Row {
    row.(nextPrefix := Some(newSecret.prefix), nextHash := Some(newSecret), rotatingUntil := Some(now + ROTATION_WINDOW),
         version := RotatingSecret, status := Active)
  }

  class ChannelCredential {
    var keyPrefix: string
    var activeHash: Secret
    var nextPrefix: Option<string>
    var nextHash: Option<Secret>
    var rotatingUntil: Option<int>
    var version: Version
    var status: Status
    var expiresAt: Option<int>

    constructor (secret: Secret, expires: Option<int>)
      ensures Stored() == Row(secret.prefix, secret, None, None, None, ActiveSecret, Active, expires)
      ensures Paired(Stored())
    {
      keyPrefix, activeHash, nextPrefix, nextHash, rotatingUntil := secret.prefix, secret, None, None, None;
      version, status, expiresAt := ActiveSecret, Active, expires;
    }

    ghost function Stored(): Row
      reads this
    {
      Row(keyPrefix, activeHash, nextPrefix, nextHash, rotatingUntil, version, status, expiresAt)
    }

    method PromoteNextSecretIfDue(now: int) returns (promoted: bool)
      modifies this
      ensures Stored() == Promote(old(Stored()), now)
      ensures promoted == (old(rotatingUntil).Some? && old(rotatingUntil).value <= now)
    {
      if rotatingUntil.None? || rotatingUntil.value > now {
        return false;
      }
      if nextPrefix.Some? && nextHash.Some? {
        keyPrefix := nextPrefix.value;
        activeHash := nextHash.value;
      }
      nextPrefix, nextHash, rotatingUntil, version := None, None, None, ActiveSecret;
      promoted := true;
    }

    /** A refused request ends without a commit, which undoes a promotion made on the way. */
    method AuthenticateWithReason(presented: Secret, now: int, originAllowed: bool) returns (answer: Answer)
      modifies this
      ensures (Stored(), answer) == Authenticate(old(Stored()), presented, now, originAllowed)
    {
      if keyPrefix != presented.prefix && nextPrefix != Some(presented.prefix) {
        return InvalidCredential;
      }
      if status == Revoked {
        return CredentialRevoked;
      }
      if status != Active {
        return InvalidCredential;
      }
      if expiresAt.Some? && expiresAt.value <= now {
        return CredentialExpired;
      }
      var kp, ah, np, nh, ru, v := keyPrefix, activeHash, nextPrefix, nextHash, rotatingUntil, version;
      var _ := PromoteNextSecretIfDue(now);
      var found := None;
      if presented.prefix == keyPrefix && activeHash == presented {
        found := Some(ActiveSecret);
      } else if nextPrefix == Some(presented.prefix) && nextHash == Some(presented)
                && rotatingUntil.Some? && rotatingUntil.value >= now {
        found := Some(NextSecret);
      }
      if found.None? || !originAllowed {
        keyPrefix, activeHash, nextPrefix, nextHash, rotatingUntil, version := kp, ah, np, nh, ru, v;
        return if found.None? then InvalidCredential else InvalidOrigin;
      }
      version := found.value;
      answer := Accepted(found.value);
    }

    method RotateCredential(newSecret: Secret, now: int)
      modifies this
      ensures Stored() == Rotate(old(Stored()), newSecret, now)
    {
      nextPrefix, nextHash, rotatingUntil := Some(newSecret.prefix), Some(newSecret), Some(now + ROTATION_WINDOW);
      version, status := RotatingSecret, Active;
    }

    method RevokeCredential()
      modifies this
      ensures Stored() == old(Stored()).(status := Revoked)
      ensures forall s, now, ok :: !Authenticate(Stored(), s, now, ok).1.Accepted?
    {
      status := Revoked;
    }
  }

  // ------------------------------------------------------------------ the eager timer

  datatype Pending = Pending(secret: Secret, until: int)

  datatype Timer = Timer(current: Secret, pending: Option<Pending>)

  /** At `until` the new secret takes over. */
  function Tick(t: Timer, now: int): Timer {
    if t.pending.Some? && t.pending.value.until <= now then Timer(t.pending.value.secret, None) else t
  }

  predicate Works(t: Timer, s: Secret, now: int) {
    var at := Tick(t, now);
    s == at.current || (at.pending.Some? && s == at.pending.value.secret)
  }

  function TimerRotate(t: Timer, newSecret: Secret, now: int): Timer {
    Timer(Tick(t, now).current, Some(Pending(newSecret, now + ROTATION_WINDOW)))
  }

  /** Rows written by creation, rotation and promotion keep prefix and hash together. */
  predicate Paired(row: Row) {
    && row.keyPrefix == row.activeHash.prefix
    && row.nextHash.Some? == row.nextPrefix.Some? == row.rotatingUntil.Some?
    && (row.nextHash.Some? ==> row.nextPrefix.value == row.nextHash.value.prefix)
  }

  function TimerOf(row: Row): Timer
    requires Paired(row)
  {
    Timer(row.activeHash,
          if row.rotatingUntil.Some? then Some(Pending(row.nextHash.value, row.rotatingUntil.value)) else None)
  }

  /** A promotion that has come due and has not been stored. */
  predicate PromotionDue(row: Row, now: int) { row.rotatingUntil.Some? && row.rotatingUntil.value <= now }

  /** A lazy row answers like the timer, and no request changes what the timer shows from then on. */
  lemma AuthenticationFollowsTimer(row: Row, s: Secret, now: int, originAllowed: bool, later: int)
    requires Paired(row) && now <= later
    ensures
      var (after, answer) := Authenticate(row, s, now, originAllowed);
      && Paired(after)
      && (answer.Accepted? <==> Admitted(row, now) && originAllowed && Works(TimerOf(row), s, now))
      && Tick(TimerOf(after), later) == Tick(TimerOf(row), later)
      && (answer.Accepted? ==> !PromotionDue(after, now))
      && after.status == row.status && after.expiresAt == row.expiresAt
  {
  }

  /** Rotating a row does what rotating the timer does, exactly when no promotion is due and unsaved (or
      the due secret is the one in force anyway). */
  lemma RotationFollowsTimer(row: Row, newSecret: Secret, now: int)
    requires Paired(row)
    ensures Paired(Rotate(row, newSecret, now))
    ensures TimerOf(Rotate(row, newSecret, now)) == TimerRotate(TimerOf(row), newSecret, now) <==>
            !PromotionDue(row, now) || row.nextHash.value == row.activeHash
  {
  }

  // ------------------------------------------------------------------ runs

  datatype Event =
    | Present(secret: Secret, now: int, originAllowed: bool)
    | StartRotation(newSecret: Secret, now: int)
    | Revoke(now: int)

  predicate Ordered(clock: int, es: seq<Event>)
    decreases |es|
  {
    es == [] || (clock <= es[0].now && Ordered(es[0].now, es[1..]))
  }

  function LazyStep(row: Row, e: Event): Row {
    match e
    case Present(s, now, ok) => Authenticate(row, s, now, ok).0
    case StartRotation(newSecret, now) => Rotate(row, newSecret, now)
    case Revoke(_) => row.(status := Revoked)
  }

  /** Which presented secrets are accepted. */
  function LazyAnswers(row: Row, es: seq<Event>): seq<bool>
    decreases |es|
  {
    if es == [] then []
    else
      (if es[0].Present? then [Authenticate(row, es[0].secret, es[0].now, es[0].originAllowed).1.Accepted?] else [])
      + LazyAnswers(LazyStep(row, es[0]), es[1..])
  }

  datatype Eager = Eager(timer: Timer, status: Status, expiresAt: Option<int>)

  function EagerStep(g: Eager, e: Event): Eager {
    match e
    case Present(_, now, _) => g.(timer := Tick(g.timer, now))
    case StartRotation(newSecret, now) => g.(timer := TimerRotate(g.timer, newSecret, now), status := Active)
    case Revoke(now) => g.(timer := Tick(g.timer, now), status := Revoked)
  }

  predicate EagerAccepts(g: Eager, e: Event)
    requires e.Present?
  {
    g.status == Active && (g.expiresAt.Some? ==> g.expiresAt.value > e.now) && e.originAllowed
    && Works(g.timer, e.secret, e.now)
  }

  function EagerAnswers(g: Eager, es: seq<Event>): seq<bool>
    decreases |es|
  {
    if es == [] then []
    else (if es[0].Present? then [EagerAccepts(g, es[0])] else []) + EagerAnswers(EagerStep(g, es[0]), es[1..])
  }

  /** No rotation starts while a promotion is due and unsaved. */
  predicate RotationsWait(row: Row, es: seq<Event>)
    decreases |es|
  {
    es == [] ||
    ((es[0].StartRotation? ==> !PromotionDue(row, es[0].now)) && RotationsWait(LazyStep(row, es[0]), es[1..]))
  }

  predicate SameFrom(row: Row, g: Eager, clock: int)
    requires Paired(row)
  {
    Tick(TimerOf(row), clock) == Tick(g.timer, clock) && row.status == g.status && row.expiresAt == g.expiresAt
  }

  lemma StepFollowsTimer(row: Row, g: Eager, clock: int, e: Event)
    requires Paired(row) && SameFrom(row, g, clock) && clock <= e.now
    requires e.StartRotation? ==> !PromotionDue(row, e.now)
    ensures Paired(LazyStep(row, e)) && SameFrom(LazyStep(row, e), EagerStep(g, e), e.now)
    ensures e.Present? ==>
              (Authenticate(row, e.secret, e.now, e.originAllowed).1.Accepted? <==> EagerAccepts(g, e))
  {
    TicksCompose(TimerOf(row), clock, e.now);
    TicksCompose(g.timer, clock, e.now);
    match e
    case Present(s, now, ok) => AuthenticationFollowsTimer(row, s, now, ok, now);
    case StartRotation(newSecret, now) => RotationFollowsTimer(row, newSecret, now);
    case Revoke(_) =>
  }

  lemma TicksCompose(t: Timer, clock: int, now: int)
    requires clock <= now
    ensures Tick(Tick(t, clock), now) == Tick(t, now)
  {
  }

  lemma {:induction false} WaitingRotationsFollowTimer(row: Row, g: Eager, clock: int, es: seq<Event>)
    requires Paired(row) && SameFrom(row, g, clock) && Ordered(clock, es) && RotationsWait(row, es)
    ensures LazyAnswers(row, es) == EagerAnswers(g, es)
    decreases |es|
  {
    if es != [] {
      StepFollowsTimer(row, g, clock, es[0]);
      WaitingRotationsFollowTimer(LazyStep(row, es[0]), EagerStep(g, es[0]), es[0].now, es[1..]);
    }
  }

  // The same condition in terms of the timer's own answers.

  function EagerAfter(g: Eager, es: seq<Event>): Eager
    decreases |es|
  {
    if es == [] then g else EagerAfter(EagerStep(g, es[0]), es[1..])
  }

  /** The end of the window that the last rotation before i opened; `open` is the one already open at the start. */
  function WindowEnd(open: Option<int>, es: seq<Event>, i: nat): Option<int>
    requires i <= |es|
  {
    if i == 0 then open
    else if es[i - 1].StartRotation? then Some(es[i - 1].now + ROTATION_WINDOW) else WindowEnd(open, es, i - 1)
  }

  predicate AcceptedAt(g: Eager, es: seq<Event>, k: nat)
    requires k < |es|
  {
    es[k].Present? && EagerAccepts(EagerAfter(g, es[..k]), es[k])
  }

  /** Before event i the last window has not ended, or some accepted request came after its end. */
  predicate SavedBefore(g: Eager, open: Option<int>, es: seq<Event>, i: nat)
    requires i < |es|
  {
    var end := WindowEnd(open, es, i);
    end.None? || es[i].now < end.value || exists k :: 0 <= k < i && AcceptedAt(g, es, k) && end.value <= es[k].now
  }

  /** Between the end of each window and the next rotation after it some request is accepted. */
  predicate SavedInTime(g: Eager, open: Option<int>, es: seq<Event>) {
    forall i :: 0 <= i < |es| && es[i].StartRotation? ==> SavedBefore(g, open, es, i)
  }

  /** What is open after the first event, seen from the rest of the run. */
  function OpenAfter(g: Eager, open: Option<int>, e: Event): Option<int> {
    match e
    case StartRotation(_, now) => Some(now + ROTATION_WINDOW)
    case Present(_, now, _) => if open.Some? && open.value <= now && EagerAccepts(g, e) then None else open
    case Revoke(_) => open
  }

  predicate RotatesBefore(es: seq<Event>, i: nat)
    requires i <= |es|
  {
    exists j :: 0 <= j < i && es[j].StartRotation?
  }

  lemma {:induction false} WindowOfRest(open: Option<int>, other: Option<int>, clock: int, es: seq<Event>, i: nat)
    requires i <= |es| && Ordered(clock, es)
    ensures RotatesBefore(es, i) ==>
              && WindowEnd(open, es, i) == WindowEnd(other, es, i)
              && WindowEnd(open, es, i).Some? && WindowEnd(open, es, i).value > clock
    ensures !RotatesBefore(es, i) ==> WindowEnd(open, es, i) == open
    decreases i
  {
    if i > 0 {
      WindowOfRest(open, other, clock, es, i - 1);
      EventsFollow(clock, es, i - 1);
    }
  }

  lemma {:induction false} EventsFollow(clock: int, es: seq<Event>, i: nat)
    requires i < |es| && Ordered(clock, es)
    ensures clock <= es[i].now
    decreases |es|
  {
    if i > 0 {
      EventsFollow(es[0].now, es[1..], i - 1);
    }
  }

  lemma {:induction false} WindowAfterFirst(open: Option<int>, es: seq<Event>, i: nat)
    requires 1 <= i <= |es|
    ensures WindowEnd(open, es, i)
         == WindowEnd(if es[0].StartRotation? then Some(es[0].now + ROTATION_WINDOW) else open, es[1..], i - 1)
    decreases i
  {
    if i > 1 {
      WindowAfterFirst(open, es, i - 1);
    }
  }

  lemma AcceptedLater(g: Eager, es: seq<Event>, k: nat)
    requires 1 <= k < |es|
    ensures AcceptedAt(g, es, k) <==> AcceptedAt(EagerStep(g, es[0]), es[1..], k - 1)
  {
    assert es[..k][1..] == es[1..][..k - 1];
  }

  lemma AcceptedFirst(g: Eager, es: seq<Event>)
    requires es != []
    ensures AcceptedAt(g, es, 0) <==> es[0].Present? && EagerAccepts(g, es[0])
  {
    assert es[..0] == [];
  }

  /** An accepted request after the end, among the first i events. */
  predicate AcceptedSince(g: Eager, es: seq<Event>, i: nat, end: int)
    requires i <= |es|
  {
    exists k :: 0 <= k < i && AcceptedAt(g, es, k) && end <= es[k].now
  }

  lemma AcceptedSinceShift(g: Eager, es: seq<Event>, i: nat, end: int)
    requires 1 <= i <= |es|
    ensures AcceptedSince(g, es, i, end) <==>
            || (AcceptedAt(g, es, 0) && end <= es[0].now)
            || AcceptedSince(EagerStep(g, es[0]), es[1..], i - 1, end)
  {
    if AcceptedSince(g, es, i, end) {
      var k :| 0 <= k < i && AcceptedAt(g, es, k) && end <= es[k].now;
      if k > 0 {
        AcceptedLater(g, es, k);
        assert es[1..][k - 1] == es[k];
      }
    }
    if AcceptedSince(EagerStep(g, es[0]), es[1..], i - 1, end) {
      var k :| 0 <= k < i - 1 && AcceptedAt(EagerStep(g, es[0]), es[1..], k) && end <= es[1..][k].now;
      AcceptedLater(g, es, k + 1);
      assert es[1..][k] == es[k + 1];
    }
  }

  lemma SavedLater(g: Eager, open: Option<int>, clock: int, es: seq<Event>, i: nat)
    requires Ordered(clock, es) && 1 <= i < |es|
    ensures SavedBefore(g, open, es, i) <==> SavedBefore(EagerStep(g, es[0]), OpenAfter(g, open, es[0]), es[1..], i - 1)
  {
    var rest, next, still := es[1..], OpenAfter(g, open, es[0]),
                             if es[0].StartRotation? then Some(es[0].now + ROTATION_WINDOW) else open;
    WindowAfterFirst(open, es, i);
    WindowOfRest(still, next, es[0].now, rest, i - 1);
    WindowOfRest(next, still, es[0].now, rest, i - 1);
    AcceptedFirst(g, es);
    assert rest[i - 1] == es[i];
    var end := WindowEnd(open, es, i);
    if end.Some? {
      AcceptedSinceShift(g, es, i, end.value);
      SavedBeforeMeans(g, open, es, i);
      SavedBeforeMeans(EagerStep(g, es[0]), next, rest, i - 1);
    }
  }

  lemma SavedBeforeMeans(g: Eager, open: Option<int>, es: seq<Event>, i: nat)
    requires i < |es|
    ensures
      var end := WindowEnd(open, es, i);
      SavedBefore(g, open, es, i) <==> end.None? || es[i].now < end.value || AcceptedSince(g, es, i, end.value)
  {
  }

  lemma SavedInTimeStep(g: Eager, open: Option<int>, clock: int, es: seq<Event>)
    requires Ordered(clock, es) && es != []
    ensures SavedInTime(g, open, es) <==>
            && (es[0].StartRotation? ==> open.None? || es[0].now < open.value)
            && SavedInTime(EagerStep(g, es[0]), OpenAfter(g, open, es[0]), es[1..])
  {
    var h, next, rest := EagerStep(g, es[0]), OpenAfter(g, open, es[0]), es[1..];
    forall i | 1 <= i < |es|
      ensures SavedBefore(g, open, es, i) <==> SavedBefore(h, next, rest, i - 1)
    {
      SavedLater(g, open, clock, es, i);
    }
    assert forall j :: 0 <= j < |rest| ==> rest[j] == es[j + 1];
    if SavedInTime(h, next, rest) && (es[0].StartRotation? ==> open.None? || es[0].now < open.value) {
      forall i | 0 <= i < |es| && es[i].StartRotation? ensures SavedBefore(g, open, es, i) {
        assert i >= 1 ==> rest[i - 1] == es[i];
      }
    }
    if SavedInTime(g, open, es) {
      forall j | 0 <= j < |rest| && rest[j].StartRotation? ensures SavedBefore(h, next, rest, j) {
        assert SavedBefore(g, open, es, j + 1);
      }
    }
  }

  lemma OpenAfterFollows(row: Row, g: Eager, clock: int, e: Event)
    requires Paired(row) && SameFrom(row, g, clock) && clock <= e.now
    requires e.StartRotation? ==> !PromotionDue(row, e.now)
    ensures LazyStep(row, e).rotatingUntil == OpenAfter(g, row.rotatingUntil, e)
  {
    StepFollowsTimer(row, g, clock, e);
  }

  /** Rotations find no promotion due and unsaved exactly if, between each window's end and the next rotation, the
      timer accepts some request. */
  lemma {:induction false} RotationsWaitIffSavedInTime(row: Row, g: Eager, clock: int, es: seq<Event>)
    requires Paired(row) && SameFrom(row, g, clock) && Ordered(clock, es)
    ensures RotationsWait(row, es) <==> SavedInTime(g, row.rotatingUntil, es)
    decreases |es|
  {
    if es != [] {
      SavedInTimeStep(g, row.rotatingUntil, clock, es);
      if es[0].StartRotation? ==> !PromotionDue(row, es[0].now) {
        StepFollowsTimer(row, g, clock, es[0]);
        OpenAfterFollows(row, g, clock, es[0]);
        RotationsWaitIffSavedInTime(LazyStep(row, es[0]), EagerStep(g, es[0]), es[0].now, es[1..]);
      }
    }
  }

  /** Over any run in which some accepted request falls between each window's end and the next rotation, the lazy
      row accepts exactly what the eager timer accepts. */
  lemma LazyPromotionRefinesTimer(row: Row, g: Eager, clock: int, es: seq<Event>)
    requires Paired(row) && SameFrom(row, g, clock) && Ordered(clock, es) && SavedInTime(g, row.rotatingUntil, es)
    ensures LazyAnswers(row, es) == EagerAnswers(g, es)
  {
    RotationsWaitIffSavedInTime(row, g, clock, es);
    WaitingRotationsFollowTimer(row, g, clock, es);
  }

  /** A revoked credential accepts nothing until it is rotated. */
  lemma {:induction false} RevokedAcceptsNothing(row: Row, es: seq<Event>)
    requires row.status == Revoked && forall i :: 0 <= i < |es| ==> !es[i].StartRotation?
    ensures true !in LazyAnswers(row, es) && After(row, es).status == Revoked
    decreases |es|
  {
    if es != [] {
      RevokedAcceptsNothing(LazyStep(row, es[0]), es[1..]);
    }
  }

  predicate OnlyRequests(es: seq<Event>) { forall i :: 0 <= i < |es| ==> es[i].Present? }

  function After(row: Row, es: seq<Event>): Row
    decreases |es|
  {
    if es == [] then row else After(LazyStep(row, es[0]), es[1..])
  }

  lemma {:induction false} RequestsKeepTimer(row: Row, clock: int, es: seq<Event>, later: int)
    requires Paired(row) && Ordered(clock, es) && OnlyRequests(es)
    requires forall i :: 0 <= i < |es| ==> es[i].now <= later
    ensures Paired(After(row, es)) && Tick(TimerOf(After(row, es)), later) == Tick(TimerOf(row), later)
    ensures After(row, es).status == row.status && After(row, es).expiresAt == row.expiresAt
    ensures row.rotatingUntil.None? ==> After(row, es).rotatingUntil.None?
    ensures After(row, es).rotatingUntil.Some? ==> After(row, es).rotatingUntil == row.rotatingUntil
    decreases |es|
  {
    if es != [] {
      AuthenticationFollowsTimer(row, es[0].secret, es[0].now, es[0].originAllowed, later);
      RequestsKeepTimer(LazyStep(row, es[0]), es[0].now, es[1..], later);
    }
  }

  lemma AcceptedRequestSavesPromotion(row: Row, s: Secret, now: int, es: seq<Event>, later: int)
    requires Paired(row) && Authenticate(row, s, now, true).1.Accepted? && PromotionDue(row, now)
    requires Ordered(now, es) && OnlyRequests(es) && forall i :: 0 <= i < |es| ==> es[i].now <= later
    ensures !PromotionDue(After(Authenticate(row, s, now, true).0, es), later)
  {
    AuthenticationFollowsTimer(row, s, now, true, now);
    RequestsKeepTimer(Authenticate(row, s, now, true).0, now, es, later);
  }

  /** After a rotation that found no promotion due, and any requests since: the new secret works at every
      later instant, the end of the window included, and the old one exactly before the end. */
  lemma NewSecretAtOnceOldUntilWindowEnds(row: Row, newSecret: Secret, start: int, es: seq<Event>, now: int)
    requires Paired(row) && !PromotionDue(row, start) && newSecret != row.activeHash
    requires Ordered(start, es) && OnlyRequests(es) && start <= now && forall i :: 0 <= i < |es| ==> es[i].now <= now
    requires row.expiresAt.Some? ==> row.expiresAt.value > now
    ensures
      var after := After(Rotate(row, newSecret, start), es);
      && Authenticate(after, newSecret, now, true).1.Accepted?
      && (Authenticate(after, row.activeHash, now, true).1.Accepted? <==> now < start + ROTATION_WINDOW)
  {
    var rotated := Rotate(row, newSecret, start);
    RequestsKeepTimer(rotated, start, es, now);
    var after := After(rotated, es);
    AuthenticationFollowsTimer(after, newSecret, now, true, now);
    AuthenticationFollowsTimer(after, row.activeHash, now, true, now);
  }

  /** A rotation on the eighth day, with no request since the first one's window closed, loses the first
      rotation's secret and keeps the secret before it alive. */
  lemma SecondRotationTooEarly(a: Secret, b: Secret, c: Secret)
    requires a != b && b != c && a != c
    ensures
      var row := Row(a.prefix, a, None, None, None, ActiveSecret, Active, None);
      var again := Rotate(Rotate(row, b, 0), c, 8 * 24 * 3600);
      && PromotionDue(Rotate(row, b, 0), 8 * 24 * 3600)
      && Authenticate(again, a, 8 * 24 * 3600, true).1.Accepted?
      && !Authenticate(again, b, 8 * 24 * 3600, true).1.Accepted?
  {
  }

  // ------------------------------------------------------------------ which answer

  /** The answer to every request: unknown prefix, revoked, not active, expired, a secret that does not work, a foreign
      origin; and when accepted, as which of the two secrets. */
  lemma AnswerIs(row: Row, s: Secret, now: int, originAllowed: bool)
    requires Paired(row)
    ensures
      var answer, at := Authenticate(row, s, now, originAllowed).1, Tick(TimerOf(row), now);
      var known := row.keyPrefix == s.prefix || row.nextPrefix == Some(s.prefix);
      var current := row.expiresAt.Some? ==> row.expiresAt.value > now;
      var works := s == at.current || (at.pending.Some? && s == at.pending.value.secret);
      && (answer == CredentialRevoked <==> known && row.status == Revoked)
      && (answer == CredentialExpired <==> known && row.status == Active && !current)
      && (answer == InvalidCredential <==>
            !known || row.status == Disabled || (row.status == Active && current && !works))
      && (answer == InvalidOrigin <==> known && row.status == Active && current && works && !originAllowed)
      && (answer == Accepted(ActiveSecret) <==>
            row.status == Active && current && originAllowed && s == at.current)
      && (answer == Accepted(NextSecret) <==>
            row.status == Active && current && originAllowed && s != at.current
            && at.pending.Some? && s == at.pending.value.secret)
      && answer != Accepted(RotatingSecret)
  {
  }

  /** What is stored: nothing unless the request is accepted; then the due promotion and which secret was used. */
  lemma StoredAfter(row: Row, s: Secret, now: int, originAllowed: bool)
    requires Paired(row)
    ensures
      var (after, answer) := Authenticate(row, s, now, originAllowed);
      && (!answer.Accepted? ==> after == row)
      && (answer.Accepted? ==>
            && TimerOf(after) == Tick(TimerOf(row), now) && after.version == answer.version
            && after.status == row.status && after.expiresAt == row.expiresAt)
  {
  }
}
