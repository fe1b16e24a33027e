/**
 The handlers of the account use cases, behind the request limiter where the use case has one. Each reads,
 decides, and runs its transaction while others may commit and the database may fail: it is a run of the
 system of AccountProvenance, and does what its request does alone (Serve) when all is calm.
 */
module AccountHandlers {
  import opened Basics
  import opened Domain
  import opened OneTimeTokens
  import opened AccountStore
  import opened AccountRequests
  import opened AccountProvenance
  import opened AccountStatements
  import opened AccountRepository
  import opened AccountMail
  import T = Transactions
  import R = RefreshTokens
  import Redis
  import RateLimit
  import opened FixedWindow
  import CountingWindow

  datatype Reply = RateLimited(retryAfter: Time) | Served(answer: Answer)

  /** The answer to an error: a refusal is told apart even where the rollback failed too. */
  function AnswerToError(error: Option<Failure>): Answer {
    if error.None? then Accepted
    else match T.Cause(error.value)
         case Some(result) => AnswerTo(result)
         case None => InternalError
  }

  /** An error of the database, not a refusal, ended the transaction. */
  predicate Stopped(error: Option<Failure>) { error.Some? && T.Cause(error.value).None? }

  function MeetingOf(found: Store, error: Option<Failure>): Meeting { Meeting(found, Stopped(error), !MailFailed(error)) }

  /** What a handler that read store `s` leaves and answers, by what its transaction met. */
  ghost predicate Outcome(s: Store, met: Meeting, after: Store, answer: Answer, request: Request, verify: Verifier, m: Moment, c: Conditions) {
    && Handled(s, met, after, answer, request, verify, m)
    && (PlanOf(s, m.now, request, verify).Proceed? ==> FoundByAttempt(c, s, met.found))
    && (Calm(c) ==> (after, answer) == Serve(s, request, verify, m.(mailed := true)))
  }

  /** A transaction that ran as its plan says makes the handler's outcome. */
  lemma RanIsOutcome(c: Conditions, s: Store, found: Store, after: Store, error: Option<Failure>, call: Call,
                     request: Request, verify: Verifier, m: Moment)
    requires PlanOf(s, m.now, request, verify) == Proceed(call)
    requires Ran(c, s, found, after, error, PlannedOn(MeetingOf(found, error), call, m))
    ensures Outcome(s, MeetingOf(found, error), after, AnswerToError(error), request, verify, m, c)
  {
    RefusedCommitsNothing(found, call, AllSeen(found, call, m.(mailed := !MailFailed(error))));
    RanIsSettled(c, s, found, after, error, PlannedOn(MeetingOf(found, error), call, m));
  }

  lemma RanIsSettled(c: Conditions, s: Store, found: Store, after: Store, error: Option<Failure>, planned: (Store, Result))
    requires Ran(c, s, found, after, error, planned) && (planned.1 != Ok ==> planned.0 == found)
    ensures Settled(MeetingOf(found, error), after, AnswerToError(error), planned)
    ensures Calm(c) ==> found == s && (after, AnswerToError(error)) == (planned.0, AnswerTo(planned.1))
  {
  }

  /** A request that is refused on reading is its own outcome. */
  lemma RefusedIsOutcome(c: Conditions, s: Store, answer: Answer, request: Request, verify: Verifier, m: Moment)
    requires PlanOf(s, m.now, request, verify) == Refuse(answer)
    ensures Outcome(s, MeetingOf(s, None), s, answer, request, verify, m, c)
  {
  }

  /** A request over its limit is told when to retry and changes no account; any other is handled. */
  ghost predicate Gated(verdict: RateLimit.Result, s: Store, met: Meeting, after: Store, reply: Reply,
                        request: Request, verify: Verifier, m: Moment, c: Conditions)
  {
    if verdict.allowed then reply.Served? && Outcome(s, met, after, reply.answer, request, verify, m, c)
    else reply == RateLimited(verdict.retryAfter) && after == s
  }

  /** Mails are sent only for a request that is allowed and planned, and at least one if it is then accepted. */
  ghost predicate Posted(verdict: RateLimit.Result, s: Store, reply: Reply, request: Request, verify: Verifier, m: Moment, mails: int) {
    if !verdict.allowed || PlanOf(s, m.now, request, verify).Refuse? then mails == 0
    else mails >= (if reply == Served(Accepted) then 1 else 0)
  }

  /** An issue that ran makes its handler's outcome, and has sent a mail if it is accepted. */
  lemma IssueIsOutcome(c: Conditions, s: Store, found: Store, after: Store, error: Option<Failure>, tries: nat, mails: int,
                       kind: Kind, owner: Owner, grants: Option<Role>, request: Request, verify: Verifier, m: Moment)
    requires PlanOf(s, m.now, request, verify) == Proceed(IssueToken(kind, owner, grants))
    requires Ran(c, s, found, after, error,
                 IssueResult(found, kind, owner, grants, m.newToken, m.expiresAt, ActiveIds(found.TableOf(kind), owner), m.now, !MailFailed(error)))
    requires Mailed(IssueStatements(kind, owner, grants, m.newToken, m.expiresAt), m.now, c, s, tries, error, mails)
    ensures Outcome(s, MeetingOf(found, error), after, AnswerToError(error), request, verify, m, c)
    ensures mails >= if AnswerToError(error) == Accepted then 1 else 0
  {
    assert Ran(c, s, found, after, error, PlannedOn(MeetingOf(found, error), IssueToken(kind, owner, grants), m));
    RanIsOutcome(c, s, found, after, error, IssueToken(kind, owner, grants), request, verify, m);
    MailsSent(IssueStatements(kind, owner, grants, m.newToken, m.expiresAt), m.now, c, s, tries, error, mails);
  }

  /** The same for a registration. */
  lemma CreateIsOutcome(c: Conditions, s: Store, found: Store, after: Store, error: Option<Failure>, tries: nat, mails: int,
                        email: Email, password: Hash, verify: Verifier, m: Moment)
    requires !s.EmailTaken(email)
    requires Ran(c, s, found, after, error, CreateUserResult(found, m.newUser, email, password, m.newToken, m.expiresAt, !MailFailed(error)))
    requires Mailed(CreateUserStatements(m.newUser, email, password, m.newToken, m.expiresAt), m.now, c, s, tries, error, mails)
    ensures Outcome(s, MeetingOf(found, error), after, AnswerToError(error), Request.Register(email, password), verify, m, c)
    ensures mails >= if AnswerToError(error) == Accepted then 1 else 0
  {
    assert Ran(c, s, found, after, error, PlannedOn(MeetingOf(found, error), Create(email, password), m));
    RanIsOutcome(c, s, found, after, error, Create(email, password), Request.Register(email, password), verify, m);
    MailsSent(CreateUserStatements(m.newUser, email, password, m.newToken, m.expiresAt), m.now, c, s, tries, error, mails);
  }

  class LimitedHandler {
    const repo: UserRepository
    const limiter: FixedWindowLimiter

    constructor (repo: UserRepository, limiter: FixedWindowLimiter)
      ensures this.repo == repo && this.limiter == limiter
    {
      this.repo := repo;
      this.limiter := limiter;
    }

    method Register(email: Email, password: Hash, ghost verify: Verifier, m: Moment, c: Conditions)
        returns (reply: Reply, ghost met: Meeting)
      requires limiter.window > 0
      modifies repo.db, limiter.client`cells
      ensures var (cell, verdict) := Step(Redis.Lookup(old(limiter.client.cells), limiter.prefix + email), limiter.client.now, limiter.window);
              && Redis.Lookup(limiter.client.cells, limiter.prefix + email) == cell
              && Gated(verdict, old(repo.db.committed), met, repo.db.committed, reply, Request.Register(email, password), verify, m, c)
              && Posted(verdict, old(repo.db.committed), reply, Request.Register(email, password), verify, m, repo.db.outside - old(repo.db.outside))
    {
      var verdict := limiter.Allow(email);
      if !verdict.allowed {
        return RateLimited(verdict.retryAfter), MeetingOf(old(repo.db.committed), None);
      }
      if repo.db.committed.EmailTaken(email) {
        return Served(Accepted), MeetingOf(old(repo.db.committed), None);
      }
      ghost var found, tries;
      var error;
      error, found, tries := repo.CreateUser(m.newUser, email, password, m.newToken, m.expiresAt, m.now, c);
      CreateIsOutcome(c, old(repo.db.committed), found, repo.db.committed, error, tries, repo.db.outside - old(repo.db.outside),
                      email, password, verify, m);
      return Served(AnswerToError(error)), MeetingOf(found, error);
    }

    method ResendConfirmation(email: Email, ghost verify: Verifier, m: Moment, c: Conditions)
        returns (reply: Reply, ghost met: Meeting)
      requires limiter.window > 0 && EmailsUnique(repo.db.committed)
      modifies repo.db, limiter.client`cells
      ensures var (cell, verdict) := Step(Redis.Lookup(old(limiter.client.cells), limiter.prefix + email), limiter.client.now, limiter.window);
              && Redis.Lookup(limiter.client.cells, limiter.prefix + email) == cell
              && Gated(verdict, old(repo.db.committed), met, repo.db.committed, reply, Request.ResendConfirmation(email), verify, m, c)
              && Posted(verdict, old(repo.db.committed), reply, Request.ResendConfirmation(email), verify, m, repo.db.outside - old(repo.db.outside))
    {
      var verdict := limiter.Allow(email);
      if !verdict.allowed {
        return RateLimited(verdict.retryAfter), MeetingOf(old(repo.db.committed), None);
      }
      var user := repo.FindUserByEmail(email);
      if user.None? || repo.db.committed.users[user.value].status != MailUnverified {
        return Served(Accepted), MeetingOf(old(repo.db.committed), None);
      }
      ghost var found, tries;
      var error;
      error, found, tries := repo.IssueToken(Confirmation, OfUser(user.value), None, m.newToken, m.expiresAt, m.now, c);
      IssueIsOutcome(c, old(repo.db.committed), found, repo.db.committed, error, tries, repo.db.outside - old(repo.db.outside),
                     Confirmation, OfUser(user.value), None, Request.ResendConfirmation(email), verify, m);
      return Served(AnswerToError(error)), MeetingOf(found, error);
    }

    method ForgotPassword(email: Email, ghost verify: Verifier, m: Moment, c: Conditions)
        returns (reply: Reply, ghost met: Meeting)
      requires limiter.window > 0 && EmailsUnique(repo.db.committed)
      modifies repo.db, limiter.client`cells
      ensures var (cell, verdict) := Step(Redis.Lookup(old(limiter.client.cells), limiter.prefix + email), limiter.client.now, limiter.window);
              && Redis.Lookup(limiter.client.cells, limiter.prefix + email) == cell
              && Gated(verdict, old(repo.db.committed), met, repo.db.committed, reply, Request.ForgotPassword(email), verify, m, c)
              && Posted(verdict, old(repo.db.committed), reply, Request.ForgotPassword(email), verify, m, repo.db.outside - old(repo.db.outside))
    {
      var verdict := limiter.Allow(email);
      if !verdict.allowed {
        return RateLimited(verdict.retryAfter), MeetingOf(old(repo.db.committed), None);
      }
      var user := repo.FindUserByEmail(email);
      if user.None? || repo.db.committed.users[user.value].status != Inactive {
        return Served(Accepted), MeetingOf(old(repo.db.committed), None);
      }
      ghost var found, tries;
      var error;
      error, found, tries := repo.IssueToken(PasswordReset, OfUser(user.value), None, m.newToken, m.expiresAt, m.now, c);
      IssueIsOutcome(c, old(repo.db.committed), found, repo.db.committed, error, tries, repo.db.outside - old(repo.db.outside),
                     PasswordReset, OfUser(user.value), None, Request.ForgotPassword(email), verify, m);
      return Served(AnswerToError(error)), MeetingOf(found, error);
    }

    method InviteAdmin(email: Email, role: Role, ghost verify: Verifier, m: Moment, c: Conditions)
        returns (reply: Reply, ghost met: Meeting)
      requires limiter.window > 0 && EmailsUnique(repo.db.committed)
      modifies repo.db, limiter.client`cells
      ensures var (cell, verdict) := Step(Redis.Lookup(old(limiter.client.cells), limiter.prefix + email), limiter.client.now, limiter.window);
              && Redis.Lookup(limiter.client.cells, limiter.prefix + email) == cell
              && Gated(verdict, old(repo.db.committed), met, repo.db.committed, reply, Request.InviteAdmin(email, role), verify, m, c)
              && Posted(verdict, old(repo.db.committed), reply, Request.InviteAdmin(email, role), verify, m, repo.db.outside - old(repo.db.outside))
    {
      var verdict := limiter.Allow(email);
      if !verdict.allowed {
        return RateLimited(verdict.retryAfter), MeetingOf(old(repo.db.committed), None);
      }
      if !IsAdminRole(role) {
        RefusedIsOutcome(c, repo.db.committed, InvalidRole, Request.InviteAdmin(email, role), verify, m);
        return Served(InvalidRole), MeetingOf(old(repo.db.committed), None);
      }
      var user := repo.FindUserByEmail(email);
      if user.Some? {
        var roles := repo.GetUserRoles(user.value);
        for i := 0 to |roles|
          invariant forall j :: 0 <= j < i ==> !IsAdminRole(roles[j])
        {
          if IsAdminRole(roles[i]) {
            assert roles[i] in repo.db.committed.users[user.value].roles;
            RefusedIsOutcome(c, repo.db.committed, RoleAlreadyAssigned, Request.InviteAdmin(email, role), verify, m);
            return Served(RoleAlreadyAssigned), MeetingOf(old(repo.db.committed), None);
          }
        }
        assert !IsAdmin(repo.db.committed.users[user.value].roles);
        RefusedIsOutcome(c, repo.db.committed, EmailRegistered, Request.InviteAdmin(email, role), verify, m);
        return Served(EmailRegistered), MeetingOf(old(repo.db.committed), None);
      }
      ghost var found, tries;
      var error;
      error, found, tries := repo.IssueToken(Invitation, OfEmail(email), Some(role), m.newToken, m.expiresAt, m.now, c);
      IssueIsOutcome(c, old(repo.db.committed), found, repo.db.committed, error, tries, repo.db.outside - old(repo.db.outside),
                     Invitation, OfEmail(email), Some(role), Request.InviteAdmin(email, role), verify, m);
      return Served(AnswerToError(error)), MeetingOf(found, error);
    }
  }

  class VerifyEmailHandler {
    const repo: UserRepository
    const limiter: CountingWindow.CountingWindowLimiter

    constructor (repo: UserRepository, limiter: CountingWindow.CountingWindowLimiter)
      ensures this.repo == repo && this.limiter == limiter
    {
      this.repo := repo;
      this.limiter := limiter;
    }

    method Handle(token: TokenId, clientAddress: string, ghost verify: Verifier, m: Moment, c: Conditions)
        returns (reply: Reply, ghost met: Meeting)
      requires limiter.window > 0
      requires PlainTokens(repo.db.committed.confirmations)
      modifies repo.db, limiter.client`cells
      ensures var script := CountingWindow.Script(Redis.Lookup(old(limiter.client.cells), limiter.prefix + clientAddress),
                                                  limiter.client.now, limiter.window, limiter.limit);
              var verdict := CountingWindow.Decision(script, limiter.client.now, limiter.limit);
              Gated(verdict, old(repo.db.committed), met, repo.db.committed, reply, VerifyEmail(token), verify, m, c)
    {
      var verdict := limiter.Allow(clientAddress);
      if !verdict.allowed {
        return RateLimited(verdict.retryAfter), MeetingOf(old(repo.db.committed), None);
      }
      var row := repo.GetTokenByHash(Confirmation, token);
      if row.None? {
        return Served(InvalidToken), MeetingOf(old(repo.db.committed), None);
      }
      if row.value.usedAt.Some? {
        return Served(InvalidToken), MeetingOf(old(repo.db.committed), None);
      }
      if m.now > row.value.expiresAt {
        return Served(TokenExpired), MeetingOf(old(repo.db.committed), None);
      }
      var user := row.value.owner.user;
      ghost var found;
      var error;
      error, found := repo.ConsumeEmailConfirmationToken(token, user, m.now, c);
      RanIsOutcome(c, old(repo.db.committed), found, repo.db.committed, error, ConfirmEmail(token, user),
                   VerifyEmail(token), verify, m);
      return Served(AnswerToError(error)), MeetingOf(found, error);
    }
  }

  class AccountHandler {
    const repo: UserRepository
    const verify: Verifier

    constructor (repo: UserRepository, verify: Verifier)
      ensures this.repo == repo && this.verify == verify
    {
      this.repo := repo;
      this.verify := verify;
    }

    method ConfirmReset(token: TokenId, password: Hash, m: Moment, c: Conditions) returns (answer: Answer, ghost met: Meeting)
      requires PlainTokens(repo.db.committed.resets)
      modifies repo.db
      ensures Outcome(old(repo.db.committed), met, repo.db.committed, answer, Request.ConfirmReset(token, password), verify, m, c)
    {
      var row := repo.GetTokenByHash(PasswordReset, token);
      if row.None? {
        return InvalidToken, MeetingOf(old(repo.db.committed), None);
      }
      if row.value.usedAt.Some? {
        return InvalidToken, MeetingOf(old(repo.db.committed), None);
      }
      if m.now > row.value.expiresAt {
        return TokenExpired, MeetingOf(old(repo.db.committed), None);
      }
      var user := row.value.owner.user;
      ghost var found;
      var error;
      error, found := repo.ConfirmPasswordReset(user, token, password, m.now, c);
      RanIsOutcome(c, old(repo.db.committed), found, repo.db.committed, error, ResetPassword(token, user, password),
                   Request.ConfirmReset(token, password), verify, m);
      return AnswerToError(error), MeetingOf(found, error);
    }

    method AcceptInvitation(token: TokenId, password: Hash, m: Moment, c: Conditions) returns (answer: Answer, ghost met: Meeting)
      requires InvitationsAreValid(repo.db.committed)
      modifies repo.db
      ensures Outcome(old(repo.db.committed), met, repo.db.committed, answer, Request.AcceptInvitation(token, password), verify, m, c)
    {
      var row := repo.GetTokenByHash(Invitation, token);
      if row.None? {
        return InvalidToken, MeetingOf(old(repo.db.committed), None);
      }
      if row.value.usedAt.Some? {
        return InvalidToken, MeetingOf(old(repo.db.committed), None);
      }
      if m.now > row.value.expiresAt {
        return TokenExpired, MeetingOf(old(repo.db.committed), None);
      }
      var email, role := row.value.owner.email, row.value.role.value;
      if repo.db.committed.EmailTaken(email) {
        return EmailRegistered, MeetingOf(old(repo.db.committed), None);
      }
      ghost var found;
      var error;
      error, found := repo.AcceptInvitation(token, email, role, password, m.newUser, m.now, c);
      RanIsOutcome(c, old(repo.db.committed), found, repo.db.committed, error, Accept(token, email, role, password),
                   Request.AcceptInvitation(token, password), verify, m);
      return AnswerToError(error), MeetingOf(found, error);
    }

    method ChangePassword(user: UserId, current: string, password: Hash, m: Moment, c: Conditions) returns (answer: Answer, ghost met: Meeting)
      modifies repo.db
      ensures Outcome(old(repo.db.committed), met, repo.db.committed, answer, Request.ChangePassword(user, current, password), verify, m, c)
    {
      var row := repo.GetUser(user);
      if row.None? {
        return SessionRevoked(R.AccountDeleted), MeetingOf(old(repo.db.committed), None);
      }
      if row.value.status == Disabled {
        return SessionRevoked(R.Reason.AccountDisabled), MeetingOf(old(repo.db.committed), None);
      }
      if !verify(row.value.password, current) {
        return PasswordMismatch, MeetingOf(old(repo.db.committed), None);
      }
      ghost var found;
      var error;
      error, found := repo.ChangePassword(user, password, m.now, c);
      RanIsOutcome(c, old(repo.db.committed), found, repo.db.committed, error, SetPassword(user, password),
                   Request.ChangePassword(user, current, password), verify, m);
      return AnswerToError(error), MeetingOf(found, error);
    }

    method DisableAccount(user: UserId, m: Moment, c: Conditions) returns (answer: Answer, ghost met: Meeting)
      modifies repo.db
      ensures Outcome(old(repo.db.committed), met, repo.db.committed, answer, Request.DisableAccount(user), verify, m, c)
    {
      var row := repo.GetUser(user);
      if row.None? {
        return UserNotFound, MeetingOf(old(repo.db.committed), None);
      }
      var roles := repo.GetUserRoles(user);
      var isAdmin, isSuperAdmin := false, false;
      for i := 0 to |roles|
        invariant isAdmin <==> exists j :: 0 <= j < i && IsAdminRole(roles[j])
        invariant isSuperAdmin <==> SuperAdmin in roles[..i]
      {
        if IsAdminRole(roles[i]) {
          isAdmin := true;
        }
        if roles[i] == SuperAdmin {
          isSuperAdmin := true;
        }
      }
      assert roles[..|roles|] == roles;
      assert isAdmin <==> IsAdmin(row.value.roles) by {
        assert forall j :: 0 <= j < |roles| ==> roles[j] in roles;
      }
      if !isAdmin {
        return NotAdminAccount, MeetingOf(old(repo.db.committed), None);
      }
      if row.value.status == Disabled {
        return WasAlreadyDisabled, MeetingOf(old(repo.db.committed), None);
      }
      ghost var found;
      var error;
      error, found := repo.DisableAccount(user, isSuperAdmin, m.now, c);
      RanIsOutcome(c, old(repo.db.committed), found, repo.db.committed, error, Disable(user, isSuperAdmin),
                   Request.DisableAccount(user), verify, m);
      return AnswerToError(error), MeetingOf(found, error);
    }

    method ReactivateAccount(user: UserId, m: Moment, c: Conditions) returns (answer: Answer, ghost met: Meeting)
      modifies repo.db
      ensures Outcome(old(repo.db.committed), met, repo.db.committed, answer, Request.ReactivateAccount(user), verify, m, c)
    {
      var row := repo.GetUser(user);
      if row.None? {
        return UserNotFound, MeetingOf(old(repo.db.committed), None);
      }
      var roles := repo.GetUserRoles(user);
      var isAdmin := false;
      for i := 0 to |roles|
        invariant forall j :: 0 <= j < i ==> !IsAdminRole(roles[j])
        invariant !isAdmin
      {
        if IsAdminRole(roles[i]) {
          isAdmin := true;
          break;
        }
      }
      assert isAdmin <==> IsAdmin(row.value.roles) by {
        assert forall j :: 0 <= j < |roles| ==> roles[j] in roles;
      }
      if !isAdmin {
        return NotAdminAccount, MeetingOf(old(repo.db.committed), None);
      }
      if row.value.status != Disabled {
        return WasNotDisabled, MeetingOf(old(repo.db.committed), None);
      }
      ghost var found;
      var error;
      error, found := repo.ReactivateAccount(user, c);
      RanIsOutcome(c, old(repo.db.committed), found, repo.db.committed, error, Reactivate(user),
                   Request.ReactivateAccount(user), verify, m);
      return AnswerToError(error), MeetingOf(found, error);
    }
  }
}
