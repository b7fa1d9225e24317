/** What each call of the administrator service answers and changes, told from its own arguments
    (backend/admin/service/platform_admin_service.py, backend/admin/repository/platform_admin_repository.py).
 */
module SignInRules {
  import opened Basics
  import opened AdminSessions

  // ------------------------------------------------------------------ answers

  /** A login succeeds exactly with the right password of a usable user and, where one is set up, a right second
      factor. */
  lemma LoginSucceedsIff(s: State, user: int, right: bool, factor: Factor, id: int, expires: int, threshold: int)
    ensures Call(s, Login(user, right, factor, id, expires), threshold).1.Issued? <==>
            && user in s.users && s.users[user].active && !s.users[user].deleted
            && right && (s.users[user].mfa ==> factor == RightCode)
  {
  }

  /** The reply to every login that does not succeed. */
  lemma LoginRefusals(s: State, user: int, right: bool, factor: Factor, id: int, expires: int, threshold: int)
    ensures
      var answer := Call(s, Login(user, right, factor, id, expires), threshold).1;
      var usable := user in s.users && s.users[user].active && !s.users[user].deleted;
      && (answer == Refused <==> !usable || !right)
      && (answer == MfaRequired <==> usable && right && s.users[user].mfa && factor == NoCode)
      && (answer == MfaLocked <==> usable && right && s.users[user].mfa && (factor == ScopeLocked || factor == WrongCode(true)))
      && (answer == MfaInvalid <==> usable && right && s.users[user].mfa && factor == WrongCode(false))
  {
  }

  /** A refresh succeeds exactly with the very token of a valid session, unexpired, of a usable user who is still at
      the token's version. */
  lemma RefreshSucceedsIff(s: State, t: Token, now: int, id: int, expires: int, threshold: int)
    ensures
      var answer := Call(s, Refresh(t, now, id, expires), threshold).1;
      (answer.Issued? <==>
        && t.kind == RefreshToken && t.expires > now && t.id in s.sessions
        && s.sessions[t.id].valid && s.sessions[t.id].token == t
        && t.user in s.users && s.users[t.user].active && !s.users[t.user].deleted && s.users[t.user].version == t.version)
      && (!answer.Issued? ==> answer == Refused)
  {
  }

  /** What is issued: a token of each kind for the user at the current version, which then works until it expires. */
  lemma IssuedTokensWork(s: State, op: Op, threshold: int, now: int)
    requires Call(s, op, threshold).1.Issued? && now < op.expires
    ensures
      var (t, answer) := Call(s, op, threshold);
      var user := if op.Login? then op.user else op.token.user;
      && answer.access == Token(AccessToken, user, op.id, Version(s, user), op.expires)
      && answer.refresh == Token(RefreshToken, user, op.id, Version(s, user), op.expires)
      && AccessAccepted(t, answer.access, now) && RefreshAccepted(t, answer.refresh, now)
  {
  }

  /** In any later state an access token is accepted exactly while it is unexpired, its user is active and not
      deleted, and the version is the one it was issued under. */
  lemma AccessAcceptedIff(s: State, ops: seq<Op>, threshold: int, t: Token, now: int)
    ensures
      var r := Run(s, ops, threshold);
      AccessAccepted(r, t, now) <==>
        && t.kind == AccessToken && now < t.expires && t.user in r.users && r.users[t.user].active && !r.users[t.user].deleted
        && r.users[t.user].version == t.version
  {
  }

  // ------------------------------------------------------------------ users

  predicate SucceedsFor(s: State, op: Op, user: int) {
    user in s.users &&
    match op
    case UpdateUser(u, active) => u == user && !s.users[user].deleted && active.Some?
    case DeleteUser(u, actor) => u == user && u != actor
    case ChangePassword(u, allowed) => u == user && allowed
    case SetPassword(u, allowed) => u == user && allowed
    case EnableMfa(u, right) => u == user && right
    case DisableMfa(u, right) => u == user && right
    case _ => false
  }

  predicate WrongPassword(s: State, op: Op, user: int) {
    op.Login? && op.user == user && Usable(s, user) && !op.passwordRight
  }

  predicate LocksOut(s: State, op: Op, threshold: int, user: int) {
    WrongPassword(s, op, user) && s.users[user].failures + 1 >= Max(1, threshold)
  }

  /** Every field of every user after any call. */
  lemma FieldsAfterCall(s: State, op: Op, threshold: int, user: int)
    requires user in s.users
    ensures
      var t := Call(s, op, threshold).0;
      && user in t.users
      && t.users[user].active == (
           if LocksOut(s, op, threshold, user) then false
           else if !SucceedsFor(s, op, user) then s.users[user].active
           else if op.UpdateUser? then op.active.value
           else if op.DeleteUser? then false
           else op.SetPassword? || s.users[user].active)
      && t.users[user].deleted == (s.users[user].deleted || (SucceedsFor(s, op, user) && op.DeleteUser?))
      && t.users[user].mfa == (
           if SucceedsFor(s, op, user) && op.EnableMfa? then true
           else if SucceedsFor(s, op, user) && op.DisableMfa? then false else s.users[user].mfa)
      && t.users[user].failures == (
           if WrongPassword(s, op, user) then s.users[user].failures + 1
           else if SignsIn(s, op, threshold, user) || (SucceedsFor(s, op, user) && op.SetPassword?) then 0
           else s.users[user].failures)
  {
  }

  /** A new user can do nothing until a password is set. */
  lemma NewUserIsInactive(s: State, op: Op, threshold: int, user: int)
    requires user !in s.users
    ensures
      var t := Call(s, op, threshold).0;
      && (user in t.users <==> op.CreateUser? && op.user == user)
      && (user in t.users ==> t.users[user] == User(false, false, 0, 0, false) && !Usable(t, user))
  {
  }

  // ------------------------------------------------------------------ wrong passwords in a row

  predicate AllWrong(ops: seq<Op>, user: int) {
    forall i :: 0 <= i < |ops| ==> ops[i].Login? && ops[i].user == user && !ops[i].passwordRight
  }

  lemma {:induction false} InactiveStaysInactive(s: State, ops: seq<Op>, threshold: int, user: int)
    requires user in s.users && !s.users[user].active && AllWrong(ops, user)
    ensures Run(s, ops, threshold) == s
    decreases |ops|
  {
    if ops != [] {
      InactiveStaysInactive(s, ops[1..], threshold, user);
    }
  }

  /** Wrong passwords in a row lock the user exactly when, with those counted before, there are Max(1, threshold);
      the version is raised once, and no session is touched. */
  lemma {:induction false} WrongPasswordsLock(s: State, ops: seq<Op>, threshold: int, user: int)
    requires Usable(s, user) && AllWrong(ops, user) && ops != []
    ensures
      var t, locks := Run(s, ops, threshold), s.users[user].failures + |ops| >= Max(1, threshold);
      && user in t.users && t.sessions == s.sessions
      && (t.users[user].active <==> !locks)
      && t.users[user].version == s.users[user].version + (if locks then 1 else 0)
      && (!locks ==> t.users[user].failures == s.users[user].failures + |ops|)
    decreases |ops|
  {
    FieldsAfterCall(s, ops[0], threshold, user);
    WhatRaisesVersion(s, ops[0], threshold, user);
    CallKeepsVersions(s, ops[0], threshold, user);
    var t := Call(s, ops[0], threshold).0;
    if t.users[user].active {
      if |ops| > 1 {
        WrongPasswordsLock(t, ops[1..], threshold, user);
      }
    } else {
      InactiveStaysInactive(t, ops[1..], threshold, user);
    }
  }

  // ------------------------------------------------------------------ sessions

  /** The valid session a refresh token names is not the token's own: someone presents a forged or old twin. */
  predicate MismatchedRefresh(s: State, op: Op) {
    && op.Refresh? && op.token.kind == RefreshToken && op.token.expires > op.now && op.token.id in s.sessions
    && s.sessions[op.token.id].valid && s.sessions[op.token.id].token.expires > op.now
    && s.sessions[op.token.id].token != op.token
  }

  /** The calls that end all of a user's sessions. */
  predicate EndsSessions(s: State, op: Op, user: int) {
    || (SucceedsFor(s, op, user) && !op.UpdateUser?)
    || (MismatchedRefresh(s, op) && s.sessions[op.token.id].user == user)
    || (op.Login? && op.user == user && Usable(s, user) && op.passwordRight && s.users[user].mfa && op.factor == WrongCode(true))
  }

  predicate LogsOut(s: State, op: Op) {
    op.Logout? && op.token.kind == RefreshToken && op.token.id in s.sessions && s.sessions[op.token.id].token == op.token
  }

  /** A user's valid sessions after any call: all ended, or one closed, or one opened, or one exchanged for another,
      or the same. */
  lemma SessionsAfterCall(s: State, op: Op, threshold: int, user: int)
    requires SoundRows(s) && NewIds(s, op)
    ensures
      var (t, answer) := Call(s, op, threshold);
      ValidSessions(t, user) ==
        if EndsSessions(s, op, user) then {}
        else if LogsOut(s, op) then ValidSessions(s, user) - {op.token.id}
        else if SignsIn(s, op, threshold, user) then ValidSessions(s, user) + {op.id}
        else if op.Refresh? && answer.Issued? && op.token.user == user then ValidSessions(s, user) - {op.token.id} + {op.id}
        else ValidSessions(s, user)
  {
    if op.Login? {
      LoginSessions(s, op, threshold, user);
    } else if op.Refresh? {
      RefreshSessions(s, op, threshold, user);
    }
  }

  lemma LoginSessions(s: State, op: Op, threshold: int, user: int)
    requires op.Login? && NewIds(s, op)
    ensures
      var t := Call(s, op, threshold).0;
      ValidSessions(t, user) ==
        if EndsSessions(s, op, user) then {}
        else if SignsIn(s, op, threshold, user) then ValidSessions(s, user) + {op.id} else ValidSessions(s, user)
  {
  }

  lemma RefreshSessions(s: State, op: Op, threshold: int, user: int)
    requires op.Refresh? && SoundRows(s) && NewIds(s, op)
    ensures
      var (t, answer) := Call(s, op, threshold);
      ValidSessions(t, user) ==
        if EndsSessions(s, op, user) then {}
        else if answer.Issued? && op.token.user == user then ValidSessions(s, user) - {op.token.id} + {op.id}
        else ValidSessions(s, user)
  {
  }

  // A logout is final.

  predicate Gone(s: State, t: Token) { t.id in s.sessions && (s.sessions[t.id].token != t || !s.sessions[t.id].valid) }

  lemma GoneStaysGone(s: State, op: Op, threshold: int, t: Token)
    requires Gone(s, t) && NewIds(s, op)
    ensures Gone(Call(s, op, threshold).0, t)
  {
  }

  lemma {:induction false} GoneForever(s: State, ops: seq<Op>, threshold: int, t: Token)
    requires Gone(s, t) && ValidRun(s, ops, threshold)
    ensures Gone(Run(s, ops, threshold), t)
    decreases |ops|
  {
    if ops != [] {
      GoneStaysGone(s, ops[0], threshold, t);
      GoneForever(Call(s, ops[0], threshold).0, ops[1..], threshold, t);
    }
  }

  /** A refresh token that was logged out is never accepted again in any run; other sessions are untouched. */
  lemma LogoutIsFinal(s: State, t: Token, ops: seq<Op>, threshold: int, now: int)
    requires t.id in s.sessions && t.kind == RefreshToken && ValidRun(Call(s, Logout(t), threshold).0, ops, threshold)
    ensures !RefreshAccepted(Run(Call(s, Logout(t), threshold).0, ops, threshold), t, now)
    ensures forall j :: j in s.sessions && j != t.id ==>
              j in Call(s, Logout(t), threshold).0.sessions && Call(s, Logout(t), threshold).0.sessions[j] == s.sessions[j]
    ensures Call(s, Logout(t), threshold).0.users == s.users
  {
    GoneForever(Call(s, Logout(t), threshold).0, ops, threshold, t);
  }
}
