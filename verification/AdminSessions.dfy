/** Sign-in sessions of platform administrators (backend/admin/service/platform_admin_service.py over
    backend/admin/repository/platform_admin_repository.py).

    A user row carries a security version; every token names the version it was issued under. Refresh
    tokens are backed by one session row each and are exchanged, never reused. Each service call is one
    atomic step, token ids are new, signatures cannot be forged, and hashing is injective, so a session
    row holds the token itself.
 */
module AdminSessions {
  import opened Basics

  datatype Kind = AccessToken | RefreshToken

  datatype Token = Token(kind: Kind, user: int, id: int, version: int, expires: int)

  datatype User = User(active: bool, deleted: bool, version: int, failures: int, mfa: bool)

  datatype Session = Session(user: int, token: Token, valid: bool)

  /** `logins` counts successful logins per user; the code keeps no such count. */
  datatype State = State(users: map<int, User>, sessions: map<int, Session>, logins: map<int, nat>)

  /** How the code of the second factor turns out; a wrong one may lock its scope. */
  datatype Factor = NoCode | ScopeLocked | WrongCode(locks: bool) | RightCode

  datatype Op =
    | Login(user: int, passwordRight: bool, factor: Factor, id: int, expires: int)
    | Refresh(token: Token, now: int, id: int, expires: int)
    | Logout(token: Token)
    | CreateUser(user: int)
    | UpdateUser(user: int, active: Option<bool>)
    | DeleteUser(user: int, actor: int)
    | ChangePassword(user: int, allowed: bool)
    | SetPassword(user: int, allowed: bool)
    | EnableMfa(user: int, codeRight: bool)
    | DisableMfa(user: int, passwordRight: bool)

  datatype Answer = Issued(access: Token, refresh: Token) | Done | Refused | MfaRequired | MfaLocked | MfaInvalid

  // ------------------------------------------------------------------ what each call does

  function InvalidateAll(sessions: map<int, Session>, user: int): map<int, Session> {
    map j | j in sessions :: if sessions[j].user == user then sessions[j].(valid := false) else sessions[j]
  }

  predicate Usable(s: State, user: int) { user in s.users && s.users[user].active && !s.users[user].deleted }

  function Bump(u: User): User { u.(version := u.version + 1) }

  function PutUser(s: State, user: int, u: User): State { s.(users := s.users[user := u]) }

  function DropSessions(s: State, user: int): State { s.(sessions := InvalidateAll(s.sessions, user)) }

  function Refreshing(s: State, user: int, id: int, expires: int): Token
    requires user in s.users
  {
    Token(RefreshToken, user, id, s.users[user].version, expires)
  }

  function Issue(s: State, user: int, id: int, expires: int): (State, Answer)
    requires user in s.users
  {
    var refresh := Refreshing(s, user, id, expires);
    (s.(sessions := s.sessions[id := Session(user, refresh, true)]), Issued(refresh.(kind := AccessToken), refresh))
  }

  function CountLogin(s: State, user: int): State {
    s.(logins := s.logins[user := Logins(s, user) + 1])
  }

  function Logins(s: State, user: int): nat { if user in s.logins then s.logins[user] else 0 }

  function LoginStep(s: State, user: int, passwordRight: bool, factor: Factor, id: int, expires: int, threshold: int): (State, Answer) {
    if !Usable(s, user) then (s, Refused)
    else
      var u := s.users[user];
      if !passwordRight then
        var failed := u.(failures := u.failures + 1);
        (PutUser(s, user, if failed.failures >= Max(1, threshold) then Bump(failed).(active := false) else failed), Refused)
      else if u.mfa && factor == NoCode then (s, MfaRequired)
      else if u.mfa && factor == ScopeLocked then (s, MfaLocked)
      else if u.mfa && factor.WrongCode? then
        if factor.locks then (DropSessions(s, user), MfaLocked) else (s, MfaInvalid)
      else
        var cleared := PutUser(s, user, u.(failures := 0));
        Issue(CountLogin(cleared, user), user, id, expires)
  }

  /** A refresh token is accepted when its session is valid, unexpired and holds this very token, and its
      user is usable and still at the token's version. */
  predicate RefreshAccepted(s: State, t: Token, now: int) {
    && t.kind == RefreshToken && t.expires > now && t.id in s.sessions
    && s.sessions[t.id].valid && s.sessions[t.id].token.expires > now && s.sessions[t.id].token == t
    && Usable(s, t.user) && t.version == s.users[t.user].version
  }

  predicate AccessAccepted(s: State, t: Token, now: int) {
    t.kind == AccessToken && t.expires > now && Usable(s, t.user) && t.version == s.users[t.user].version
  }

  function RefreshStep(s: State, t: Token, now: int, id: int, expires: int): (State, Answer) {
    if t.kind != RefreshToken || t.expires <= now || t.id !in s.sessions then (s, Refused)
    else
      var session := s.sessions[t.id];
      if !session.valid || session.token.expires <= now then (s, Refused)
      else if session.token != t then (DropSessions(s, session.user), Refused)
      else if !Usable(s, t.user) || t.version != s.users[t.user].version then (s, Refused)
      else Issue(s.(sessions := s.sessions[t.id := session.(valid := false)]), t.user, id, expires)
  }

  function LogoutStep(s: State, t: Token): State {
    if t.kind == RefreshToken && t.id in s.sessions && s.sessions[t.id].token == t
    then s.(sessions := s.sessions[t.id := s.sessions[t.id].(valid := false)]) else s
  }

  /** Bumping calls also drop the user's sessions, except for a deactivation through the user editor. */
  function AccountStep(s: State, op: Op): (State, Answer)
    requires !op.Login? && !op.Refresh? && !op.Logout?
  {
    match op
    case CreateUser(user) =>
      if user in s.users then (s, Refused) else (PutUser(s, user, User(false, false, 0, 0, false)), Done)
    case UpdateUser(user, active) =>
      if user !in s.users || s.users[user].deleted then (s, Refused)
      else if active.None? then (s, Done)
      else
        var u := s.users[user].(active := active.value);
        (PutUser(s, user, if active.value then u else Bump(u)), Done)
    case DeleteUser(user, actor) =>
      if user == actor || user !in s.users then (s, Refused)
      else (DropSessions(PutUser(s, user, Bump(s.users[user]).(active := false, deleted := true)), user), Done)
    case ChangePassword(user, allowed) =>
      if user !in s.users || !allowed then (s, Refused)
      else (DropSessions(PutUser(s, user, Bump(s.users[user])), user), Done)
    case SetPassword(user, allowed) =>
      if user !in s.users || !allowed then (s, Refused)
      else (DropSessions(PutUser(s, user, Bump(s.users[user]).(active := true, failures := 0)), user), Done)
    case EnableMfa(user, right) =>
      if user !in s.users || !right then (s, Refused)
      else (DropSessions(PutUser(s, user, Bump(s.users[user]).(mfa := true)), user), Done)
    case DisableMfa(user, right) =>
      if user !in s.users || !right then (s, Refused)
      else (DropSessions(PutUser(s, user, Bump(s.users[user]).(mfa := false)), user), Done)
  }

  function Call(s: State, op: Op, threshold: int): (State, Answer) {
    match op
    case Login(user, right, factor, id, expires) => LoginStep(s, user, right, factor, id, expires, threshold)
    case Refresh(t, now, id, expires) => RefreshStep(s, t, now, id, expires)
    case Logout(t) => (LogoutStep(s, t), Done)
    case _ => AccountStep(s, op)
  }

  // ------------------------------------------------------------------ the code

  class PlatformAdminService {
    var users: map<int, User>
    var sessions: map<int, Session>
    ghost var logins: map<int, nat>
    const threshold: int

    constructor (threshold: int)
      ensures Stored() == State(map[], map[], map[]) && this.threshold == threshold
    {
      this.threshold := threshold;
      users, sessions, logins := map[], map[], map[];
    }

    ghost function Stored(): State
      reads this
    {
      State(users, sessions, logins)
    }

    method InvalidateAllForUser(user: int)
      modifies this`sessions
      ensures sessions == InvalidateAll(old(sessions), user)
      ensures ValidSessions(Stored(), user) == {}
      ensures forall u :: u != user ==> ValidSessions(Stored(), u) == ValidSessions(old(Stored()), u)
      ensures forall j :: j in sessions && sessions[j].user != user ==> j in old(sessions) && sessions[j] == old(sessions)[j]
    {
      sessions := map j | j in sessions :: if sessions[j].user == user then sessions[j].(valid := false) else sessions[j];
    }

    method IssueAccessAndRefresh(user: int, id: int, expires: int) returns (answer: Answer)
      requires user in users
      modifies this`sessions
      ensures (Stored(), answer) == Issue(old(Stored()), user, id, expires)
    {
      var version := users[user].version;
      var refresh := Token(RefreshToken, user, id, version, expires);
      sessions := sessions[id := Session(user, refresh, true)];
      answer := Issued(Token(AccessToken, user, id, version, expires), refresh);
    }

    method SignIn(user: int, passwordRight: bool, factor: Factor, id: int, expires: int) returns (answer: Answer)
      modifies this
      ensures (Stored(), answer) == LoginStep(old(Stored()), user, passwordRight, factor, id, expires, threshold)
    {
      if user !in users || !users[user].active || users[user].deleted {
        return Refused;
      }
      var u := users[user];
      if !passwordRight {
        var failures := u.failures + 1;
        u := u.(failures := failures);
        if failures >= Max(1, threshold) {
          u := u.(active := false, version := u.version + 1);
        }
        users := users[user := u];
        return Refused;
      }
      if u.mfa {
        match factor {
          case NoCode => return MfaRequired;
          case ScopeLocked => return MfaLocked;
          case WrongCode(locks) =>
            if locks {
              InvalidateAllForUser(user);
              return MfaLocked;
            }
            return MfaInvalid;
          case RightCode =>
        }
      }
      users := users[user := u.(failures := 0)];
      logins := CountLogin(Stored(), user).logins;
      answer := IssueAccessAndRefresh(user, id, expires);
    }

    method ExchangeRefreshToken(t: Token, now: int, id: int, expires: int) returns (answer: Answer)
      modifies this
      ensures (Stored(), answer) == RefreshStep(old(Stored()), t, now, id, expires)
    {
      if t.expires <= now || t.kind != RefreshToken || t.id !in sessions {
        return Refused;
      }
      var session := sessions[t.id];
      if !session.valid || session.token.expires <= now {
        return Refused;
      }
      if session.token != t {
        InvalidateAllForUser(session.user);
        return Refused;
      }
      if t.user !in users || !users[t.user].active || users[t.user].deleted || t.version != users[t.user].version {
        return Refused;
      }
      sessions := sessions[t.id := session.(valid := false)];
      answer := IssueAccessAndRefresh(t.user, id, expires);
    }

    method SignOut(t: Token)
      modifies this`sessions
      ensures Stored() == LogoutStep(old(Stored()), t)
    {
      if t.kind == RefreshToken && t.id in sessions && sessions[t.id].token == t {
        sessions := sessions[t.id := sessions[t.id].(valid := false)];
      }
    }

    method ResolveToken(t: Token, now: int) returns (accepted: bool)
      ensures accepted == AccessAccepted(Stored(), t, now)
    {
      accepted := t.expires > now && t.kind == AccessToken && t.user in users
                  && users[t.user].active && !users[t.user].deleted && t.version == users[t.user].version;
    }

    method ManageAccount(op: Op) returns (answer: Answer)
      requires !op.Login? && !op.Refresh? && !op.Logout?
      modifies this
      ensures (Stored(), answer) == AccountStep(old(Stored()), op)
    {
      if op.CreateUser? {
        if op.user in users {
          return Refused;
        }
        users := users[op.user := User(false, false, 0, 0, false)];
        return Done;
      }
      if op.user !in users {
        return Refused;
      }
      var u := users[op.user];
      match op {
        case UpdateUser(user, active) =>
          if u.deleted {
            return Refused;
          }
          if active.Some? {
            u := u.(active := active.value);
            if !active.value {
              u := u.(version := u.version + 1);
            }
            users := users[user := u];
          }
          return Done;
        case DeleteUser(user, actor) =>
          if user == actor {
            return Refused;
          }
          u := u.(active := false, deleted := true);
        case ChangePassword(user, allowed) =>
          if !allowed {
            return Refused;
          }
        case SetPassword(user, allowed) =>
          if !allowed {
            return Refused;
          }
          u := u.(active := true, failures := 0);
        case EnableMfa(user, right) =>
          if !right {
            return Refused;
          }
          u := u.(mfa := true);
        case DisableMfa(user, right) =>
          if !right {
            return Refused;
          }
          u := u.(mfa := false);
      }
      users := users[op.user := u.(version := u.version + 1)];
      InvalidateAllForUser(op.user);
      answer := Done;
    }
  }

  // ------------------------------------------------------------------ runs

  predicate NewIds(s: State, op: Op) {
    (op.Login? ==> op.id !in s.sessions) && (op.Refresh? ==> op.id !in s.sessions)
  }

  predicate ValidRun(s: State, ops: seq<Op>, threshold: int)
    decreases |ops|
  {
    ops == [] || (NewIds(s, ops[0]) && ValidRun(Call(s, ops[0], threshold).0, ops[1..], threshold))
  }

  function Run(s: State, ops: seq<Op>, threshold: int): State
    decreases |ops|
  {
    if ops == [] then s else Run(Call(s, ops[0], threshold).0, ops[1..], threshold)
  }

  function Version(s: State, user: int): int { if user in s.users then s.users[user].version else 0 }

  function ValidSessions(s: State, user: int): set<int> {
    set j | j in s.sessions && s.sessions[j].user == user && s.sessions[j].valid
  }

  /** Session rows belong to existing users, hold their own refresh token, and never name a version the user
      has not reached. */
  ghost predicate SoundRows(s: State) {
    forall j :: j in s.sessions ==>
      && s.sessions[j].user in s.users && s.sessions[j].token.kind == RefreshToken
      && s.sessions[j].token.id == j && s.sessions[j].token.user == s.sessions[j].user
      && s.sessions[j].token.version <= s.users[s.sessions[j].user].version
  }

  ghost predicate WithinLogins(s: State, user: int) { |ValidSessions(s, user)| <= Logins(s, user) }

  ghost predicate Invariant(s: State) { SoundRows(s) && forall u :: WithinLogins(s, u) }

  lemma FewerValid(s: State, t: State, user: int)
    requires WithinLogins(s, user) && ValidSessions(t, user) <= ValidSessions(s, user) && Logins(t, user) >= Logins(s, user)
    ensures WithinLogins(t, user)
  {
    var gone := ValidSessions(s, user) - ValidSessions(t, user);
    assert ValidSessions(s, user) == ValidSessions(t, user) + gone;
  }

  lemma CallKeepsRows(s: State, op: Op, threshold: int)
    requires SoundRows(s) && NewIds(s, op)
    ensures SoundRows(Call(s, op, threshold).0)
  {
  }

  /** Only a login adds to the valid sessions, and it is counted; an exchange closes one for the one it opens. */
  lemma LoginStaysWithinLogins(s: State, op: Op, threshold: int, user: int)
    requires op.Login? && NewIds(s, op) && WithinLogins(s, user)
    ensures WithinLogins(Call(s, op, threshold).0, user)
  {
    var (t, answer) := Call(s, op, threshold);
    if answer.Issued? && op.user == user {
      assert ValidSessions(t, user) == ValidSessions(s, user) + {op.id};
      assert Logins(t, user) == Logins(s, user) + 1;
    } else if answer.Issued? {
      assert ValidSessions(t, user) == ValidSessions(s, user);
    } else {
      FewerValid(s, t, user);
    }
  }

  lemma RefreshStaysWithinLogins(s: State, op: Op, threshold: int, user: int)
    requires op.Refresh? && NewIds(s, op) && SoundRows(s) && WithinLogins(s, user)
    ensures WithinLogins(Call(s, op, threshold).0, user)
  {
    var (t, answer) := Call(s, op, threshold);
    if answer.Issued? && op.token.user == user {
      assert ValidSessions(t, user) == ValidSessions(s, user) - {op.token.id} + {op.id};
    } else if answer.Issued? {
      assert ValidSessions(t, user) == ValidSessions(s, user);
    } else {
      FewerValid(s, t, user);
    }
  }

  lemma CallKeepsInvariant(s: State, op: Op, threshold: int)
    requires Invariant(s) && NewIds(s, op)
    ensures Invariant(Call(s, op, threshold).0)
  {
    CallKeepsRows(s, op, threshold);
    forall u: int ensures WithinLogins(Call(s, op, threshold).0, u) {
      assert WithinLogins(s, u);
      if op.Login? {
        LoginStaysWithinLogins(s, op, threshold, u);
      } else if op.Refresh? {
        RefreshStaysWithinLogins(s, op, threshold, u);
      } else {
        FewerValid(s, Call(s, op, threshold).0, u);
      }
    }
  }

  lemma {:induction false} RunKeepsInvariant(s: State, ops: seq<Op>, threshold: int)
    requires Invariant(s) && ValidRun(s, ops, threshold)
    ensures Invariant(Run(s, ops, threshold))
    decreases |ops|
  {
    if ops != [] {
      CallKeepsInvariant(s, ops[0], threshold);
      RunKeepsInvariant(Call(s, ops[0], threshold).0, ops[1..], threshold);
    }
  }

  const START: State := State(map[], map[], map[])

  /** No user ever has more valid sessions than successful logins. */
  lemma SessionsNeverExceedLogins(ops: seq<Op>, threshold: int, user: int)
    requires ValidRun(START, ops, threshold)
    ensures |ValidSessions(Run(START, ops, threshold), user)| <= Logins(Run(START, ops, threshold), user)
  {
    forall u: int ensures WithinLogins(START, u) {
      assert ValidSessions(START, u) == {};
    }
    RunKeepsInvariant(START, ops, threshold);
    assert WithinLogins(Run(START, ops, threshold), user);
  }

  // Versions.

  lemma CallKeepsVersions(s: State, op: Op, threshold: int, user: int)
    requires user in s.users
    ensures user in Call(s, op, threshold).0.users
    ensures Version(s, user) <= Version(Call(s, op, threshold).0, user) <= Version(s, user) + 1
  {
  }

  lemma {:induction false} VersionsNeverDecrease(s: State, ops: seq<Op>, threshold: int, user: int)
    requires user in s.users
    ensures user in Run(s, ops, threshold).users && Version(s, user) <= Version(Run(s, ops, threshold), user)
    decreases |ops|
  {
    if ops != [] {
      CallKeepsVersions(s, ops[0], threshold, user);
      VersionsNeverDecrease(Call(s, ops[0], threshold).0, ops[1..], threshold, user);
    }
  }

  lemma {:induction false} RunAppends(s: State, a: seq<Op>, b: seq<Op>, threshold: int)
    ensures Run(s, a + b, threshold) == Run(Run(s, a, threshold), b, threshold)
    decreases |a|
  {
    if a == [] {
      assert a + b == b;
    } else {
      RunAppends(Call(s, a[0], threshold).0, a[1..], b, threshold);
      assert (a + b)[1..] == a[1..] + b;
    }
  }

  /** A token issued before its user's version was raised is never accepted again, as access or as refresh. */
  lemma BumpKillsEarlierTokens(s: State, t: Token, before: seq<Op>, bump: Op, after: seq<Op>, threshold: int, now: int)
    requires t.user in s.users && t.version <= Version(s, t.user)
    requires
      var r := Run(s, before, threshold);
      Version(Call(r, bump, threshold).0, t.user) > Version(r, t.user)
    ensures
      var e := Run(s, before + [bump] + after, threshold);
      !AccessAccepted(e, t, now) && !RefreshAccepted(e, t, now)
  {
    var r := Run(s, before, threshold);
    VersionsNeverDecrease(s, before, threshold, t.user);
    var b := Call(r, bump, threshold).0;
    CallKeepsVersions(r, bump, threshold, t.user);
    VersionsNeverDecrease(b, after, threshold, t.user);
    RunAppends(s, before, [bump], threshold);
    assert [bump][1..] == [];
    assert Run(r, [bump], threshold) == b;
    RunAppends(s, before + [bump], after, threshold);
  }

  /** Which calls raise a user's version: the ones that change a credential, and losing access. */
  lemma WhatRaisesVersion(s: State, op: Op, threshold: int, user: int)
    requires user in s.users
    ensures Version(Call(s, op, threshold).0, user) == Version(s, user) + 1 <==>
            match op
            case Login(u, right, _, _, _) =>
              u == user && Usable(s, user) && !right && s.users[user].failures + 1 >= Max(1, threshold)
            case UpdateUser(u, active) => u == user && !s.users[user].deleted && active == Some(false)
            case DeleteUser(u, actor) => u == user && u != actor
            case ChangePassword(u, allowed) => u == user && allowed
            case SetPassword(u, allowed) => u == user && allowed
            case EnableMfa(u, right) => u == user && right
            case DisableMfa(u, right) => u == user && right
            case _ => false
  {
  }

  // A refresh token works once.

  predicate Spent(s: State, id: int) { id in s.sessions && !s.sessions[id].valid }

  lemma SpentStaysSpent(s: State, op: Op, threshold: int, id: int)
    requires Spent(s, id) && NewIds(s, op)
    ensures Spent(Call(s, op, threshold).0, id)
  {
  }

  lemma {:induction false} SpentForever(s: State, ops: seq<Op>, threshold: int, id: int)
    requires Spent(s, id) && ValidRun(s, ops, threshold)
    ensures Spent(Run(s, ops, threshold), id)
    decreases |ops|
  {
    if ops != [] {
      SpentStaysSpent(s, ops[0], threshold, id);
      SpentForever(Call(s, ops[0], threshold).0, ops[1..], threshold, id);
    }
  }

  /** A refresh call is answered with tokens exactly when the token is acceptable, and from then on that
      token is never acceptable again. */
  lemma RefreshTokenWorksOnce(s: State, t: Token, now: int, id: int, expires: int, after: seq<Op>, threshold: int, later: int)
    requires id !in s.sessions && ValidRun(RefreshStep(s, t, now, id, expires).0, after, threshold)
    ensures RefreshStep(s, t, now, id, expires).1.Issued? <==> RefreshAccepted(s, t, now)
    ensures RefreshStep(s, t, now, id, expires).1.Issued? ==>
              !RefreshAccepted(Run(RefreshStep(s, t, now, id, expires).0, after, threshold), t, later)
  {
    if RefreshStep(s, t, now, id, expires).1.Issued? {
      SpentForever(RefreshStep(s, t, now, id, expires).0, after, threshold, t.id);
    }
  }

  // Raising the version signs the user out everywhere, until the next login.

  ghost predicate AllStale(s: State, user: int) {
    forall j :: j in s.sessions && s.sessions[j].user == user ==> s.sessions[j].token.version < Version(s, user)
  }

  predicate SignsIn(s: State, op: Op, threshold: int, user: int) {
    op.Login? && op.user == user && Call(s, op, threshold).1.Issued?
  }

  predicate NoSignIn(s: State, ops: seq<Op>, threshold: int, user: int)
    decreases |ops|
  {
    ops == [] || (!SignsIn(s, ops[0], threshold, user) && NoSignIn(Call(s, ops[0], threshold).0, ops[1..], threshold, user))
  }

  lemma CallKeepsStale(s: State, op: Op, threshold: int, user: int)
    requires Invariant(s) && NewIds(s, op) && user in s.users && AllStale(s, user) && !SignsIn(s, op, threshold, user)
    ensures AllStale(Call(s, op, threshold).0, user)
  {
    CallKeepsVersions(s, op, threshold, user);
  }

  /** After a version was raised, no refresh token of that user is accepted until the user logs in again. */
  lemma {:induction false} RaisedVersionNeedsLogin(s: State, ops: seq<Op>, threshold: int, t: Token, now: int)
    requires Invariant(s) && ValidRun(s, ops, threshold) && t.user in s.users
    requires AllStale(s, t.user) && NoSignIn(s, ops, threshold, t.user)
    ensures !RefreshAccepted(Run(s, ops, threshold), t, now)
    decreases |ops|
  {
    if ops != [] {
      CallKeepsInvariant(s, ops[0], threshold);
      CallKeepsVersions(s, ops[0], threshold, t.user);
      CallKeepsStale(s, ops[0], threshold, t.user);
      RaisedVersionNeedsLogin(Call(s, ops[0], threshold).0, ops[1..], threshold, t, now);
    }
  }

  // Dropping a user's sessions signs the user out of every refresh, until the next login.

  lemma AcceptedHasValidSession(s: State, t: Token, now: int)
    requires SoundRows(s)
    ensures RefreshAccepted(s, t, now) ==> t.id in ValidSessions(s, t.user)
  {
  }

  lemma RefusedRefreshOpensNothing(s: State, op: Op, threshold: int, user: int)
    requires op.Refresh? && SoundRows(s) && NewIds(s, op) && ValidSessions(s, user) == {}
    ensures ValidSessions(Call(s, op, threshold).0, user) == {}
  {
    var (t, answer) := Call(s, op, threshold);
    if answer.Issued? {
      assert op.token.id in ValidSessions(s, op.token.user);
    } else {
      assert ValidSessions(t, user) <= ValidSessions(s, user);
    }
  }

  lemma CallOpensNothing(s: State, op: Op, threshold: int, user: int)
    requires SoundRows(s) && NewIds(s, op) && ValidSessions(s, user) == {} && !SignsIn(s, op, threshold, user)
    ensures ValidSessions(Call(s, op, threshold).0, user) == {}
  {
    if op.Refresh? {
      RefusedRefreshOpensNothing(s, op, threshold, user);
    } else if op.Login? && Call(s, op, threshold).1.Issued? {
      assert ValidSessions(Call(s, op, threshold).0, user) == ValidSessions(s, user);
    } else {
      assert ValidSessions(Call(s, op, threshold).0, user) <= ValidSessions(s, user);
    }
  }

  lemma {:induction false} NothingOpensWithoutLogin(s: State, ops: seq<Op>, threshold: int, user: int)
    requires SoundRows(s) && ValidRun(s, ops, threshold) && NoSignIn(s, ops, threshold, user) && ValidSessions(s, user) == {}
    ensures SoundRows(Run(s, ops, threshold)) && ValidSessions(Run(s, ops, threshold), user) == {}
    decreases |ops|
  {
    if ops != [] {
      CallKeepsRows(s, ops[0], threshold);
      CallOpensNothing(s, ops[0], threshold, user);
      NothingOpensWithoutLogin(Call(s, ops[0], threshold).0, ops[1..], threshold, user);
    }
  }

  lemma DropKeepsRows(s: State, d: State, user: int)
    requires SoundRows(s) && d == DropSessions(s, user)
    ensures SoundRows(d) && ValidSessions(d, user) == {}
    ensures forall u :: u != user ==> ValidSessions(d, u) == ValidSessions(s, u)
  {
  }

  /** Once a user's sessions are dropped, as a locked second factor does without raising the version, no refresh
      token of that user works in any run until the user logs in again; other users' sessions are untouched. */
  lemma DroppedSessionsStayDropped(s: State, d: State, ops: seq<Op>, threshold: int, t: Token, now: int)
    requires SoundRows(s) && d == DropSessions(s, t.user)
    requires ValidRun(d, ops, threshold) && NoSignIn(d, ops, threshold, t.user)
    ensures !RefreshAccepted(Run(d, ops, threshold), t, now)
    ensures forall u :: u != t.user ==> ValidSessions(d, u) == ValidSessions(s, u)
  {
    DropKeepsRows(s, d, t.user);
    NothingOpensWithoutLogin(d, ops, threshold, t.user);
    AcceptedHasValidSession(Run(d, ops, threshold), t, now);
  }

  lemma RaiseMakesStale(s: State, op: Op, threshold: int, user: int)
    requires Invariant(s) && NewIds(s, op) && user in s.users
    requires Version(Call(s, op, threshold).0, user) > Version(s, user)
    ensures AllStale(Call(s, op, threshold).0, user)
  {
  }
}
