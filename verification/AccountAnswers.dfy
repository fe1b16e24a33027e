/**
 What callers can and cannot learn from the answers of the account use cases, and what an answer is worth
 later: a request reads one store, its transaction meets another that any run of the others has left.
 */
module AccountAnswers {
  import opened Basics
  import opened Domain
  import opened OneTimeTokens
  import opened AccountStore
  import opened AccountRequests
  import opened AccountProvenance
  import R = RefreshTokens

  // ---- Concealing which emails are registered ----

  /** The endpoints that are to answer alike whether or not the email belongs to an account. */
  predicate Concealing(request: Request) { request.Register? || request.ResendConfirmation? || request.ForgotPassword? }

  predicate AwaitsConfirmation(s: Store, u: UserId, email: Email) {
    u in s.users && !s.users[u].deleted && s.users[u].email == email && s.users[u].status == MailUnverified
  }

  predicate IsUsable(s: Store, u: UserId, email: Email) {
    u in s.users && !s.users[u].deleted && s.users[u].email == email && s.users[u].status == Inactive
  }

  /**
   There is something to do: no account has the email that is to be registered, an account with the email awaits
   its confirmation, or an account with the email is confirmed and enabled.
   */
  ghost predicate HasWork(s: Store, request: Request) {
    match request
    case Register(email, _) => forall u :: u in s.users && !s.users[u].deleted ==> s.users[u].email != email
    case ResendConfirmation(email) => exists u :: AwaitsConfirmation(s, u, email)
    case ForgotPassword(email) => exists u :: IsUsable(s, u, email)
    case _ => false
  }

  lemma HasWorkIff(s: Store, now: Time, request: Request, verify: Verifier)
    requires EmailsUnique(s) && Concealing(request)
    ensures HasWork(s, request) <==> PlanOf(s, now, request, verify).Proceed?
    ensures !HasWork(s, request) ==> PlanOf(s, now, request, verify) == Refuse(Accepted)
  {
    var user := UserByEmail(s, request.email);
    if user.Some? {
      assert s.users[user.value].status == MailUnverified ==> AwaitsConfirmation(s, user.value, request.email);
      assert s.users[user.value].status == Inactive ==> IsUsable(s, user.value, request.email);
    }
  }

  predicate NewIdentifiers(s: Store, m: Moment) {
    m.newUser !in s.users && m.newToken !in s.confirmations && m.newToken !in s.resets
  }

  /** A registration whose email another account has taken since it looked. */
  predicate LosesRace(met: Meeting, request: Request) { request.Register? && met.found.EmailTaken(request.email) }

  lemma MailedResult(met: Meeting, call: Call, m: Moment)
    requires (call.Create? || (call.IssueToken? && !call.kind.Invitation?)) && NewIdentifiers(met.found, m)
    ensures PlannedOn(met, call, m).1
         == if call.Create? && met.found.EmailTaken(call.email) then DuplicateKey else if met.mailed then Ok else MailNotSent
  {
  }

  /**
   Such a request is accepted exactly if there is nothing to do, or the database does not fail, the mail is
   sent and no registration race is lost. Otherwise the answer tells which of these it was: the mail is
   named, the other two are internal errors.
   */
  lemma ConcealedIff(s: Store, met: Meeting, after: Store, answer: Answer, request: Request, verify: Verifier, m: Moment)
    requires EmailsUnique(s) && Concealing(request) && NewIdentifiers(met.found, m) && Handled(s, met, after, answer, request, verify, m)
    ensures var idle := !HasWork(s, request);
            && (answer == Accepted <==> idle || (!met.failed && met.mailed && !LosesRace(met, request)))
            && (answer == MailDeliveryFailed <==> !idle && !met.failed && !met.mailed && !LosesRace(met, request))
            && (answer == InternalError <==> !idle && (met.failed || LosesRace(met, request)))
  {
    var plan := PlanOf(s, m.now, request, verify);
    HasWorkIff(s, m.now, request, verify);
    if plan.Proceed? {
      MailedResult(met, plan.call, m);
    }
  }

  /**
   Two requests on stores with different accounts, whose transactions the database does not fail and which
   lose no race, are answered alike exactly if mail works or both or neither had something to send.
   */
  lemma AnsweredAlikeIff(s: Store, met: Meeting, after: Store, answer: Answer, request: Request,
                         s': Store, met': Meeting, after': Store, answer': Answer, request': Request, verify: Verifier, m: Moment)
    requires EmailsUnique(s) && EmailsUnique(s')
    requires Concealing(request) && NewIdentifiers(met.found, m) && Handled(s, met, after, answer, request, verify, m)
    requires Concealing(request') && NewIdentifiers(met'.found, m) && Handled(s', met', after', answer', request', verify, m)
    requires !met.failed && !met'.failed && !LosesRace(met, request) && !LosesRace(met', request') && met.mailed == met'.mailed
    ensures answer == answer' <==>
              met.mailed || (HasWork(s, request) <==> HasWork(s', request'))
  {
    ConcealedIff(s, met, after, answer, request, verify, m);
    ConcealedIff(s', met', after', answer', request', verify, m);
  }

  /** The action commits an account with the email. */
  ghost predicate CreatesAccount(w: World, a: Action, email: Email) {
    && a.Finish? && Commit(w.store, a.call, a.moment).1 == Ok
    && ((a.call.Create? && a.call.email == email) || (a.call.Accept? && a.call.email == email))
  }

  ghost predicate TakesEmail(w: World, run: seq<Action>, email: Email)
    requires IsRun(w, run)
    decreases |run|
  {
    run != [] && (CreatesAccount(w, run[0], email) || TakesEmail(Apply(w, run[0]), run[1..], email))
  }

  lemma EmailStaysTaken(s: Store, call: Call, m: Moment, email: Email)
    requires s.EmailTaken(email)
    ensures Commit(s, call, m).0.EmailTaken(email)
  {
    CommitMovesUsers(s, call, m);
    var u :| u in s.users && !s.users[u].deleted && s.users[u].email == email;
    var users' := Commit(s, call, m).0.users;
    assert u in users' && !users'[u].deleted && users'[u].email == email;
  }

  lemma NewAccountTakes(s: Store, call: Call, m: Moment)
    requires (call.Create? || call.Accept?) && Commit(s, call, m).1 == Ok
    ensures Commit(s, call, m).0.EmailTaken(call.email)
  {
    var users' := Commit(s, call, m).0.users;
    assert m.newUser in users' && !users'[m.newUser].deleted && users'[m.newUser].email == call.email;
  }

  lemma OnlyNewAccountsTake(s: Store, call: Call, m: Moment, email: Email)
    requires Commit(s, call, m).0.EmailTaken(email) && !s.EmailTaken(email)
    ensures Commit(s, call, m).1 == Ok && (call.Create? || call.Accept?) && call.email == email
  {
    var users' := Commit(s, call, m).0.users;
    var u :| u in users' && !users'[u].deleted && users'[u].email == email;
    CommitMovesUsers(s, call, m);
    assert u !in s.users;
    NewUserIsCreated(s, call, m, u);
  }

  lemma NewUserIsCreated(s: Store, call: Call, m: Moment, user: UserId)
    requires user !in s.users && user in Commit(s, call, m).0.users
    ensures Commit(s, call, m).1 == Ok && (call.Create? || call.Accept?) && Commit(s, call, m).0.users[user].email == call.email
  {
  }

  lemma StepTakesEmailIff(w: World, a: Action, email: Email)
    requires Enabled(w, a)
    ensures Apply(w, a).store.EmailTaken(email) <==> w.store.EmailTaken(email) || CreatesAccount(w, a, email)
  {
    if a.Finish? {
      if w.store.EmailTaken(email) {
        EmailStaysTaken(w.store, a.call, a.moment, email);
      } else if CreatesAccount(w, a, email) {
        NewAccountTakes(w.store, a.call, a.moment);
      } else if Apply(w, a).store.EmailTaken(email) {
        OnlyNewAccountsTake(w.store, a.call, a.moment, email);
      }
    }
  }

  /** An email is taken after a run exactly if it was before or the run commits an account with it. */
  lemma {:induction false} EmailTakenIff(w: World, run: seq<Action>, email: Email)
    requires IsRun(w, run)
    ensures After(w, run).store.EmailTaken(email) <==> w.store.EmailTaken(email) || TakesEmail(w, run, email)
    decreases |run|
  {
    if run != [] {
      StepTakesEmailIff(w, run[0], email);
      EmailTakenIff(Apply(w, run[0]), run[1..], email);
    }
  }

  /** The world in which a request has read and been planned. */
  ghost function Begun(w: World, request: Request, verify: Verifier, m: Moment): World {
    var plan := PlanOf(w.store, m.now, request, verify);
    if plan.Proceed? then w.(pending := w.pending + {plan.call}) else w
  }

  /** A run of the others, since the request has read, commits an account with the email that it registers. */
  ghost predicate Overtaken(w: World, others: seq<Action>, request: Request, verify: Verifier, m: Moment)
    requires IsRun(Begun(w, request, verify, m), others)
  {
    request.Register? && TakesEmail(Begun(w, request, verify, m), others, request.email)
  }

  /**
   Over every run of the others between reading and transaction: such a request is accepted exactly if there
   is nothing to do, or the database does not fail, the mail is sent and nobody has committed an account with
   the email that it registers.
   */
  lemma AcceptedIff(w: World, others: seq<Action>, met: Meeting, after: Store, answer: Answer,
                    request: Request, verify: Verifier, m: Moment)
    requires EmailsUnique(w.store) && Concealing(request) && IsRun(Begun(w, request, verify, m), others)
    requires met.found == After(Begun(w, request, verify, m), others).store && NewIdentifiers(met.found, m)
    requires Handled(w.store, met, after, answer, request, verify, m)
    ensures var idle, lost := !HasWork(w.store, request), Overtaken(w, others, request, verify, m);
            && (answer == Accepted <==> idle || (!met.failed && met.mailed && !lost))
            && (answer == MailDeliveryFailed <==> !idle && !met.failed && !met.mailed && !lost)
            && (answer == InternalError <==> !idle && (met.failed || lost))
  {
    ConcealedIff(w.store, met, after, answer, request, verify, m);
    if request.Register? {
      EmailTakenIff(Begun(w, request, verify, m), others, request.email);
    }
  }

  // ---- Tokens work once ----

  /** The request presents a one-time token of the given kind. */
  predicate Presents(request: Request, kind: Kind, token: TokenId) {
    match request
    case VerifyEmail(t) => kind.Confirmation? && t == token
    case ConfirmReset(t, _) => kind.PasswordReset? && t == token
    case AcceptInvitation(t, _) => kind.Invitation? && t == token
    case _ => false
  }

  predicate SpentIn(s: Store, kind: Kind, token: TokenId) { token in s.TableOf(kind) && !s.HasActive(kind, token) }

  lemma AcceptedSpends(s: Store, met: Meeting, after: Store, kind: Kind, token: TokenId, request: Request, verify: Verifier, m: Moment)
    requires Presents(request, kind, token) && Handled(s, met, after, Accepted, request, verify, m)
    ensures SpentIn(after, kind, token)
  {
  }

  lemma SpentIsRefused(s: Store, met: Meeting, after: Store, answer: Answer, kind: Kind, token: TokenId,
                       request: Request, verify: Verifier, m: Moment)
    requires Presents(request, kind, token) && Handled(s, met, after, answer, request, verify, m) && SpentIn(met.found, kind, token)
    ensures answer != Accepted && after == if PlanOf(s, m.now, request, verify).Refuse? then s else met.found
  {
  }

  /**
   A spent token is refused for ever, and changes nothing: whatever runs, and whether the request has read
   the token before or after it was spent.
   */
  lemma SpentForEver(w: World, kind: Kind, token: TokenId, run: seq<Action>,
                     s: Store, met: Meeting, after: Store, answer: Answer, request: Request, verify: Verifier, m: Moment)
    requires Inv(w) && IsRun(w, run) && SpentIn(w.store, kind, token)
    requires Presents(request, kind, token) && met.found == After(w, run).store && Handled(s, met, after, answer, request, verify, m)
    ensures answer != Accepted && after == if PlanOf(s, m.now, request, verify).Refuse? then s else met.found
  {
    InactiveStays(w, run, kind, token);
    SpentIsRefused(s, met, after, answer, kind, token, request, verify, m);
  }

  lemma {:induction false} InactiveStays(w: World, run: seq<Action>, kind: Kind, token: TokenId)
    requires Inv(w) && IsRun(w, run) && SpentIn(w.store, kind, token)
    ensures SpentIn(After(w, run).store, kind, token)
    decreases |run|
  {
    if run != [] {
      StepKeepsInv(w, run[0]);
      assert Grows(w.store.TableOf(kind), Apply(w, run[0]).store.TableOf(kind));
      InactiveStays(Apply(w, run[0]), run[1..], kind, token);
    }
  }

  /** Of all requests that present one token, at most one is accepted, however they overlap. */
  lemma AcceptedOnce(s: Store, met: Meeting, w: World, request: Request, m: Moment, run: seq<Action>,
                     s': Store, met': Meeting, after': Store, answer': Answer, request': Request, m': Moment,
                     kind: Kind, token: TokenId, verify: Verifier)
    requires Inv(w) && Presents(request, kind, token) && Handled(s, met, w.store, Accepted, request, verify, m)
    requires IsRun(w, run) && met'.found == After(w, run).store
    requires Presents(request', kind, token) && Handled(s', met', after', answer', request', verify, m')
    ensures answer' != Accepted
  {
    AcceptedSpends(s, met, w.store, kind, token, request, verify, m);
    SpentForEver(w, kind, token, run, s', met', after', answer', request', verify, m');
  }

  // ---- Disabling and reactivating ----

  predicate IsDisabled(s: Store, user: UserId) { s.Present(user) && s.users[user].status == Disabled }

  /** The action commits a reactivation of the user. */
  ghost predicate Reactivates(w: World, a: Action, user: UserId) {
    a.Finish? && a.call == Call.Reactivate(user) && Commit(w.store, a.call, a.moment).1 == Ok
  }

  ghost predicate NeverReactivated(w: World, run: seq<Action>, user: UserId)
    requires IsRun(w, run)
    decreases |run|
  {
    run == [] || (!Reactivates(w, run[0], user) && NeverReactivated(Apply(w, run[0]), run[1..], user))
  }

  /** In every state of the run the user is disabled. */
  ghost predicate AlwaysDisabled(w: World, run: seq<Action>, user: UserId)
    requires IsRun(w, run)
    decreases |run|
  {
    IsDisabled(w.store, user) && (run == [] || AlwaysDisabled(Apply(w, run[0]), run[1..], user))
  }

  lemma StepKeepsDisabledIff(w: World, a: Action, user: UserId)
    requires Enabled(w, a) && IsDisabled(w.store, user)
    ensures IsDisabled(Apply(w, a).store, user) <==> !Reactivates(w, a, user)
  {
    if a.Finish? {
      CommitMovesUsers(w.store, a.call, a.moment);
    }
  }

  /** A disabled account is disabled throughout a run exactly if the run commits no reactivation of it. */
  lemma {:induction false} AlwaysDisabledIff(w: World, run: seq<Action>, user: UserId)
    requires IsRun(w, run) && IsDisabled(w.store, user)
    ensures AlwaysDisabled(w, run, user) <==> NeverReactivated(w, run, user)
    ensures NeverReactivated(w, run, user) ==> IsDisabled(After(w, run).store, user)
    decreases |run|
  {
    if run != [] {
      StepKeepsDisabledIff(w, run[0], user);
      if !Reactivates(w, run[0], user) {
        AlwaysDisabledIff(Apply(w, run[0]), run[1..], user);
      }
    }
  }

  /** Requests of a user to be let in or to stay in. */
  ghost predicate FromUser(s: Store, request: Request, user: UserId) {
    match request
    case LogIn(email, _) => user in s.users && email == s.users[user].email
    case Refresh(session) => session in s.sessions && s.sessions[session].user == user
    case ChangePassword(u, _, _) => u == user
    case _ => false
  }

  lemma DisabledIsRefused(s: Store, user: UserId, now: Time, request: Request, verify: Verifier)
    requires EmailsUnique(s) && IsDisabled(s, user) && FromUser(s, request, user)
    ensures PlanOf(s, now, request, verify).Refuse? && PlanOf(s, now, request, verify).answer != Accepted
  {
    if request.LogIn? {
      var found := UserByEmail(s, request.email);
      assert found.Some? ==> found.value == user;
    }
  }

  /**
   Until a reactivation commits, whatever else runs, a disabled account can neither log in nor refresh nor
   change its password, even with a session that was saved after the disable.
   */
  lemma DisabledIsOut(w: World, run: seq<Action>, user: UserId,
                      met: Meeting, after: Store, answer: Answer, request: Request, verify: Verifier, m: Moment)
    requires Inv(w) && IsRun(w, run) && IsDisabled(w.store, user) && NeverReactivated(w, run, user)
    requires var s := After(w, run).store; FromUser(s, request, user) && Handled(s, met, after, answer, request, verify, m)
    ensures answer != Accepted && after == After(w, run).store
  {
    RunKeepsInv(w, run);
    AlwaysDisabledIff(w, run, user);
    DisabledIsRefused(After(w, run).store, user, m.now, request, verify);
  }

  lemma DisableEffect(s: Store, user: UserId, isSuperAdmin: bool, m: Moment)
    requires Commit(s, Disable(user, isSuperAdmin), AllSeen(s, Disable(user, isSuperAdmin), m)).1 == Ok
    ensures s.Present(user) && s.users[user].status == Inactive
    ensures var s' := Commit(s, Disable(user, isSuperAdmin), AllSeen(s, Disable(user, isSuperAdmin), m)).0;
            s'.users == s.users[user := s.users[user].(status := Disabled)] && AllSessionsRevoked(s', user)
  {
    R.RevokeGrows(s.sessions, R.UserIds(s.sessions, user), m.now, Some(R.Reason.AccountDisabled));
  }

  /** Of a user's row only password and status ever change. */
  lemma {:induction false} RowKept(w: World, run: seq<Action>, user: UserId)
    requires IsRun(w, run) && Inv(w) && user in w.store.users
    ensures user in After(w, run).store.users
    ensures var row, row' := w.store.users[user], After(w, run).store.users[user];
            row' == row.(password := row'.password, status := row'.status)
    ensures R.Grows(w.store.sessions, After(w, run).store.sessions)
    decreases |run|
  {
    if run != [] {
      StepKeepsInv(w, run[0]);
      RowKept(Apply(w, run[0]), run[1..], user);
    }
  }

  /**
   A disable that met store `s`, whatever runs after it, and then a reactivation: the account is as it was,
   up to a new password, and none of the sessions that it had is live again. Unless another reactivation has
   come first, this one succeeds.
   */
  lemma ReactivateUndoesDisable(s: Store, user: UserId, isSuperAdmin: bool, m: Moment, w: World, run: seq<Action>)
    requires var disable := Disable(user, isSuperAdmin);
             Commit(s, disable, AllSeen(s, disable, m)).1 == Ok && w.store == Commit(s, disable, AllSeen(s, disable, m)).0
    requires Inv(w) && IsRun(w, run)
    ensures var (back, result) := ReactivateResult(After(w, run).store, user);
            && (NeverReactivated(w, run, user) ==> result == Ok)
            && (result == Ok ==> user in back.users && back.users[user] == s.users[user].(password := back.users[user].password))
            && forall id :: id in s.sessions && s.sessions[id].user == user ==> id in back.sessions && back.sessions[id].revocation.Some?
  {
    DisableEffect(s, user, isSuperAdmin, m);
    RowKept(w, run, user);
    AlwaysDisabledIff(w, run, user);
    var back := ReactivateResult(After(w, run).store, user).0;
    forall id | id in s.sessions && s.sessions[id].user == user ensures id in back.sessions && back.sessions[id].revocation.Some? {
      assert id in w.store.sessions && w.store.sessions[id].user == user;
    }
  }
}
