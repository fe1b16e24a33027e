/**
 The answers of the account use cases, each by what the request, the store that it read and the store that its
 transaction met say about it, and what an accepted request leaves.
 */
module AccountDecisions {
  import opened Basics
  import opened Domain
  import opened OneTimeTokens
  import opened AccountStore
  import opened AccountRequests
  import opened AccountProvenance
  import opened AccountAnswers
  import R = RefreshTokens

  /** The account is in the table and not deleted. */
  predicate Exists(s: Store, u: UserId) { u in s.users && !s.users[u].deleted }

  /** An account that is not deleted has the email. */
  predicate Holds(s: Store, email: Email) { exists u :: u in s.users && !s.users[u].deleted && s.users[u].email == email }

  predicate Unused(s: Store, kind: Kind, token: TokenId) { token in s.TableOf(kind) && s.TableOf(kind)[token].usedAt.None? }

  // ---- One-time tokens ----

  /** The token exists, was not used, and has not expired. */
  predicate ValidAt(s: Store, kind: Kind, token: TokenId, now: Time) {
    token in s.TableOf(kind) && s.TableOf(kind)[token].usedAt.None? && now <= s.TableOf(kind)[token].expiresAt
  }

  /**
   A token that is unknown or used is answered as invalid, one that is unused and has expired as expired, and
   nothing changes; so a request is accepted only if its token was unused and unexpired when it was read, and
   unused still when its transaction met it.
   */
  lemma TokenIsVetted(s: Store, met: Meeting, after: Store, answer: Answer, request: Request, verify: Verifier, m: Moment,
                      kind: Kind, token: TokenId)
    requires Presents(request, kind, token) && Handled(s, met, after, answer, request, verify, m)
    ensures var unused := token in s.TableOf(kind) && s.TableOf(kind)[token].usedAt.None?;
            && (!unused ==> answer == InvalidToken && after == s)
            && (unused && s.TableOf(kind)[token].expiresAt < m.now ==> after == s)
            && (answer == TokenExpired <==> unused && s.TableOf(kind)[token].expiresAt < m.now)
            && (answer == Accepted ==> ValidAt(s, kind, token, m.now) && Unused(met.found, kind, token) && !met.failed)
  {
  }

  /** An email is confirmed exactly by a valid token of an account that is still unverified; a lost race reads as an invalid token. */
  lemma VerifyEmailAnswered(s: Store, met: Meeting, after: Store, answer: Answer, token: TokenId, verify: Verifier, m: Moment)
    requires PlainTokens(s.confirmations) && Handled(s, met, after, answer, VerifyEmail(token), verify, m)
    ensures var valid := ValidAt(s, Confirmation, token, m.now);
            && (answer == Accepted <==> valid && !met.failed && Confirms(s, met.found, token))
            && (answer == InternalError <==> valid && met.failed)
            && (answer == InvalidToken <==>
                  || !(token in s.confirmations && s.confirmations[token].usedAt.None?)
                  || (valid && !met.failed && !Confirms(s, met.found, token)))
            && (answer != Accepted && valid ==> after == met.found)
  {
  }

  lemma VerifyEmailLeaves(s: Store, met: Meeting, after: Store, token: TokenId, verify: Verifier, m: Moment)
    requires PlainTokens(s.confirmations) && Handled(s, met, after, Accepted, VerifyEmail(token), verify, m)
    ensures token in s.confirmations && token in met.found.confirmations && Exists(met.found, s.confirmations[token].owner.user)
    ensures var user := s.confirmations[token].owner.user;
            && UserBecomes(met.found, after, user, met.found.users[user].(status := Inactive))
            && after.confirmations == met.found.confirmations[token := met.found.confirmations[token].(usedAt := Some(m.now))]
            && after.sessions == met.found.sessions
  {
    VerifyEmailAnswered(s, met, after, Accepted, token, verify, m);
    ConfirmEmailIsAllOrNothing(met.found, token, s.confirmations[token].owner.user, m.now);
  }

  /** One account is added or changed to the given row; the others are as they were. */
  ghost predicate UserBecomes(found: Store, after: Store, user: UserId, row: User) {
    user in after.users && after.users[user] == row && OthersUntouched(found, after, user)
  }

  predicate Confirms(s: Store, found: Store, token: TokenId)
    requires token in s.confirmations && s.confirmations[token].owner.OfUser?
  {
    var user := s.confirmations[token].owner.user;
    Unused(found, Confirmation, token) && Exists(found, user) && found.users[user].status == MailUnverified
  }

  /** A password is reset exactly by a valid token of a present account, and then the account's sessions end. */
  lemma ConfirmResetAnswered(s: Store, met: Meeting, after: Store, answer: Answer, token: TokenId, password: Hash, verify: Verifier, m: Moment)
    requires PlainTokens(s.resets) && Handled(s, met, after, answer, Request.ConfirmReset(token, password), verify, m)
    ensures var valid := ValidAt(s, PasswordReset, token, m.now);
            var active := Unused(met.found, PasswordReset, token);
            && (answer == Accepted <==> valid && !met.failed && active && Exists(met.found, s.resets[token].owner.user))
            && (answer == InternalError <==> valid && (met.failed || (active && !Exists(met.found, s.resets[token].owner.user))))
            && (answer == InvalidToken <==>
                  || !(token in s.resets && s.resets[token].usedAt.None?)
                  || (valid && !met.failed && !active))
            && (answer != Accepted && valid ==> after == met.found)
  {
  }

  lemma ConfirmResetLeaves(s: Store, met: Meeting, after: Store, token: TokenId, password: Hash, verify: Verifier, m: Moment)
    requires PlainTokens(s.resets) && Handled(s, met, after, Accepted, Request.ConfirmReset(token, password), verify, m)
    ensures token in s.resets && Exists(met.found, s.resets[token].owner.user)
    ensures var user := s.resets[token].owner.user;
            && UserBecomes(met.found, after, user, met.found.users[user].(password := password))
            && SessionsEnded(met.found, after, user, m.now, R.PasswordChanged) && AllSessionsRevoked(after, user)
            && !Unused(after, PasswordReset, token) && ActiveIds(after.resets, OfUser(user)) == {}
  {
    ConfirmResetAnswered(s, met, after, Accepted, token, password, verify, m);
    ResetIsAllOrNothing(met.found, s.resets[token].owner.user, token, password, m.now);
  }

  /**
   An invitation is accepted exactly if its token is valid and its email free, and then creates one account with
   that email and the invitation's role.
   */
  lemma AcceptInvitationAnswered(s: Store, met: Meeting, after: Store, answer: Answer, token: TokenId, password: Hash, verify: Verifier, m: Moment)
    requires InvitationsAreValid(s) && m.newUser !in met.found.users
    requires Handled(s, met, after, answer, Request.AcceptInvitation(token, password), verify, m)
    ensures var valid := ValidAt(s, Invitation, token, m.now);
            var free := valid && !Holds(s, s.invitations[token].owner.email);
            var active := Unused(met.found, Invitation, token);
            && (answer == Accepted <==> free && !met.failed && active && !Holds(met.found, s.invitations[token].owner.email))
            && (answer == EmailRegistered <==>
                  valid && (!free || (!met.failed && active && Holds(met.found, s.invitations[token].owner.email))))
            && (answer == InternalError <==> free && met.failed)
            && (answer == InvalidToken <==>
                  || !(token in s.invitations && s.invitations[token].usedAt.None?)
                  || (free && !met.failed && !active))
            && (answer != Accepted && free ==> after == met.found)
  {
  }

  lemma AcceptInvitationLeaves(s: Store, met: Meeting, after: Store, token: TokenId, password: Hash, verify: Verifier, m: Moment)
    requires InvitationsAreValid(s) && m.newUser !in met.found.users
    requires Handled(s, met, after, Accepted, Request.AcceptInvitation(token, password), verify, m)
    ensures token in s.invitations
    ensures var row := s.invitations[token];
            && UserBecomes(met.found, after, m.newUser, User(row.owner.email, password, Inactive, {row.role.value}, false))
            && !Unused(after, Invitation, token) && ActiveIds(after.invitations, row.owner) == {}
            && after.sessions == met.found.sessions
  {
    TokenIsVetted(s, met, after, Accepted, Request.AcceptInvitation(token, password), verify, m, Invitation, token);
    var row := s.invitations[token];
    assert row.owner == OfEmail(row.owner.email);
    AcceptIsAllOrNothing(met.found, token, row.owner.email, row.role.value, password, m.newUser, m.now);
  }

  // ---- Changing the password ----

  /**
   A password is changed exactly for a present account that is not disabled and whose current password is given,
   and then its sessions end; what is missing is told in this order, and then nothing changes.
   */
  lemma ChangePasswordAnswered(s: Store, met: Meeting, after: Store, answer: Answer, user: UserId, current: string, password: Hash,
                               verify: Verifier, m: Moment)
    requires Handled(s, met, after, answer, Request.ChangePassword(user, current, password), verify, m)
    ensures var enabled := Exists(s, user) && s.users[user].status != Disabled;
            var allowed := enabled && verify(s.users[user].password, current);
            && (answer == SessionRevoked(R.AccountDeleted) <==> !Exists(s, user))
            && (answer == SessionRevoked(R.Reason.AccountDisabled) <==> Exists(s, user) && s.users[user].status == Disabled)
            && (answer == PasswordMismatch <==> enabled && !verify(s.users[user].password, current))
            && (answer == Accepted <==> allowed && !met.failed && Exists(met.found, user))
            && (answer == InternalError <==> allowed && (met.failed || !Exists(met.found, user)))
            && (answer != Accepted ==> after == if allowed then met.found else s)
  {
  }

  lemma ChangePasswordLeaves(s: Store, met: Meeting, after: Store, user: UserId, current: string, password: Hash, verify: Verifier, m: Moment)
    requires Handled(s, met, after, Accepted, Request.ChangePassword(user, current, password), verify, m)
    ensures Exists(met.found, user) && UserBecomes(met.found, after, user, met.found.users[user].(password := password))
    ensures SessionsEnded(met.found, after, user, m.now, R.PasswordChanged) && AllSessionsRevoked(after, user)
  {
    ChangePasswordIsAllOrNothing(met.found, user, password, m.now);
  }

  // ---- Administration ----

  predicate HasAdminRole(s: Store, user: UserId)
    requires user in s.users
  {
    SuperAdmin in s.users[user].roles || Operator in s.users[user].roles || SystemAdmin in s.users[user].roles
  }

  predicate AdminHolds(s: Store, email: Email) {
    exists u :: u in s.users && Exists(s, u) && s.users[u].email == email && HasAdminRole(s, u)
  }

  /** An invitation goes out exactly for an admin role and a free email; an admin with that email is told apart from others. */
  lemma InviteAnswered(s: Store, met: Meeting, after: Store, answer: Answer, email: Email, role: Role, verify: Verifier, m: Moment)
    requires EmailsUnique(s) && m.newToken !in met.found.invitations
    requires Handled(s, met, after, answer, Request.InviteAdmin(email, role), verify, m)
    ensures var valid := role == SuperAdmin || role == Operator || role == SystemAdmin;
            && (answer == InvalidRole <==> !valid)
            && (answer == RoleAlreadyAssigned <==> valid && AdminHolds(s, email))
            && (answer == EmailRegistered <==> valid && Holds(s, email) && !AdminHolds(s, email))
            && (answer == Accepted <==> valid && !Holds(s, email) && !met.failed && met.mailed)
            && (answer == MailDeliveryFailed <==> valid && !Holds(s, email) && !met.failed && !met.mailed)
            && (answer == InternalError <==> valid && !Holds(s, email) && met.failed)
            && (answer != Accepted ==> after == if valid && !Holds(s, email) then met.found else s)
  {
    HolderIsUnique(s, email);
  }

  lemma InviteLeaves(s: Store, met: Meeting, after: Store, email: Email, role: Role, verify: Verifier, m: Moment)
    requires EmailsUnique(s) && m.newToken !in met.found.invitations
    requires Handled(s, met, after, Accepted, Request.InviteAdmin(email, role), verify, m)
    ensures ActiveIds(after.invitations, OfEmail(email)) == {m.newToken} && m.newToken in after.invitations
    ensures after.invitations[m.newToken] == Token(OfEmail(email), Some(role), m.expiresAt, None)
    ensures after == met.found.(invitations := after.invitations)
  {
    InviteAnswered(s, met, after, Accepted, email, role, verify, m);
    IssueIsAllOrNothing(met.found, Invitation, OfEmail(email), Some(role), m.newToken, m.expiresAt, m.now, met.mailed);
  }

  lemma HolderIsUnique(s: Store, email: Email)
    requires EmailsUnique(s)
    ensures var user := UserByEmail(s, email);
            && (user.Some? <==> Holds(s, email))
            && (user.Some? ==> (AdminHolds(s, email) <==> IsAdmin(s.users[user.value].roles)))
            && (user.None? ==> !AdminHolds(s, email))
  {
    var user := UserByEmail(s, email);
    if user.Some? {
      AdminIff(s, user.value);
    }
  }

  lemma AdminIff(s: Store, user: UserId)
    requires user in s.users
    ensures IsAdmin(s.users[user].roles) <==> HasAdminRole(s, user)
  {
    assert IsAdminRole(SuperAdmin) && IsAdminRole(Operator) && IsAdminRole(SystemAdmin);
  }

  lemma DisableIsPlanned(s: Store, now: Time, user: UserId, verify: Verifier)
    ensures PlanOf(s, now, Request.DisableAccount(user), verify)
         == if !Exists(s, user) then Refuse(UserNotFound)
            else if !HasAdminRole(s, user) then Refuse(NotAdminAccount)
            else if s.users[user].status == Disabled then Refuse(WasAlreadyDisabled)
            else Proceed(Disable(user, SuperAdmin in s.users[user].roles))
    ensures PlanOf(s, now, Request.ReactivateAccount(user), verify)
         == if !Exists(s, user) then Refuse(UserNotFound)
            else if !HasAdminRole(s, user) then Refuse(NotAdminAccount)
            else if s.users[user].status != Disabled then Refuse(WasNotDisabled)
            else Proceed(Reactivate(user))
  {
    if Exists(s, user) {
      AdminIff(s, user);
    }
  }

  /**
   A disable is for a present account with an admin role that is active, and leaves another active super_admin
   where it is for one; each refusal tells which of these fails, and then nothing changes.
   */
  lemma DisableAnswered(s: Store, met: Meeting, after: Store, answer: Answer, user: UserId, verify: Verifier, m: Moment)
    requires Handled(s, met, after, answer, Request.DisableAccount(user), verify, m)
    ensures var admin := Exists(s, user) && HasAdminRole(s, user);
            var enabled := admin && s.users[user].status != Disabled;
            var last := enabled && !met.failed && SuperAdmin in s.users[user].roles && |ActiveSupers(met.found.users)| <= 1;
            var active := Exists(met.found, user) && met.found.users[user].status == Inactive;
            && (answer == UserNotFound <==> !Exists(s, user))
            && (answer == NotAdminAccount <==> Exists(s, user) && !HasAdminRole(s, user))
            && (answer == IsLastSuperAdmin <==> last)
            && (answer == WasAlreadyDisabled <==> admin && (!enabled || (!met.failed && !last && !active)))
            && (answer == InternalError <==> enabled && met.failed)
            && (answer == Accepted <==> enabled && !met.failed && !last && active)
            && (answer != Accepted ==> after == if enabled then met.found else s)
  {
    DisableIsPlanned(s, m.now, user, verify);
  }

  lemma DisableLeaves(s: Store, met: Meeting, after: Store, user: UserId, verify: Verifier, m: Moment)
    requires Handled(s, met, after, Accepted, Request.DisableAccount(user), verify, m)
    ensures Exists(met.found, user) && UserBecomes(met.found, after, user, met.found.users[user].(status := Disabled))
    ensures SessionsEnded(met.found, after, user, m.now, R.Reason.AccountDisabled) && AllSessionsRevoked(after, user)
  {
    DisableIsPlanned(s, m.now, user, verify);
    DisableIsAllOrNothing(met.found, user, Exists(s, user) && SuperAdmin in s.users[user].roles, m.now);
  }

  /** A reactivation is for a present account with an admin role that is disabled; each refusal tells which of these fails. */
  lemma ReactivateAnswered(s: Store, met: Meeting, after: Store, answer: Answer, user: UserId, verify: Verifier, m: Moment)
    requires Handled(s, met, after, answer, Request.ReactivateAccount(user), verify, m)
    ensures var admin := Exists(s, user) && HasAdminRole(s, user);
            var disabled := admin && s.users[user].status == Disabled;
            && (answer == UserNotFound <==> !Exists(s, user))
            && (answer == NotAdminAccount <==> Exists(s, user) && !HasAdminRole(s, user))
            && (answer == WasNotDisabled <==> admin && (!disabled || (!met.failed && !IsDisabled(met.found, user))))
            && (answer == InternalError <==> disabled && met.failed)
            && (answer == Accepted <==> disabled && !met.failed && IsDisabled(met.found, user))
            && (answer != Accepted ==> after == if disabled then met.found else s)
  {
    DisableIsPlanned(s, m.now, user, verify);
  }

  lemma ReactivateLeaves(s: Store, met: Meeting, after: Store, user: UserId, verify: Verifier, m: Moment)
    requires Handled(s, met, after, Accepted, Request.ReactivateAccount(user), verify, m)
    ensures Exists(met.found, user) && UserBecomes(met.found, after, user, met.found.users[user].(status := Inactive))
    ensures after == met.found.(users := after.users)
  {
    DisableIsPlanned(s, m.now, user, verify);
    ReactivateIsAllOrNothing(met.found, user);
  }

  // ---- Registration, resend and reset requests ----

  /** What an accepted request of these leaves: nothing where there was nothing to do, and the one new token where there was. */
  lemma AcceptedMails(s: Store, met: Meeting, after: Store, request: Request, verify: Verifier, m: Moment)
    requires EmailsUnique(s) && Concealing(request) && NewIdentifiers(met.found, m) && Handled(s, met, after, Accepted, request, verify, m)
    ensures !HasWork(s, request) ==> after == s
    ensures HasWork(s, request) && request.Register? ==>
              && UserBecomes(met.found, after, m.newUser, User(request.email, request.password, MailUnverified, {PlainUser}, false))
              && after.confirmations == met.found.confirmations[m.newToken := Token(OfUser(m.newUser), None, m.expiresAt, None)]
    ensures HasWork(s, request) && request.ResendConfirmation? ==>
              exists u :: AwaitsConfirmation(s, u, request.email) && ActiveIds(after.confirmations, OfUser(u)) == {m.newToken}
                          && after == met.found.(confirmations := after.confirmations)
    ensures HasWork(s, request) && request.ForgotPassword? ==>
              exists u :: IsUsable(s, u, request.email) && ActiveIds(after.resets, OfUser(u)) == {m.newToken}
                          && after == met.found.(resets := after.resets)
  {
    HasWorkIff(s, m.now, request, verify);
    if HasWork(s, request) {
      if request.Register? {
        CreateIsAllOrNothing(met.found, m.newUser, request.email, request.password, m.newToken, m.expiresAt, met.mailed);
      } else {
        var user := UserByEmail(s, request.email).value;
        var kind := if request.ResendConfirmation? then Confirmation else PasswordReset;
        IssueIsAllOrNothing(met.found, kind, OfUser(user), None, m.newToken, m.expiresAt, m.now, met.mailed);
        assert request.ResendConfirmation? ==> AwaitsConfirmation(s, user, request.email);
        assert request.ForgotPassword? ==> IsUsable(s, user, request.email);
      }
    }
  }

  // ---- Sessions ----

  predicate MayLogIn(s: Store, email: Email, current: string, verify: Verifier, u: UserId) {
    u in s.users && Exists(s, u) && s.users[u].email == email && verify(s.users[u].password, current)
  }

  /** A session is opened exactly for the account with that email and password, if it is confirmed and enabled. */
  lemma LogInAnswered(s: Store, met: Meeting, after: Store, answer: Answer, email: Email, current: string, verify: Verifier, m: Moment)
    requires EmailsUnique(s) && m.newSession !in met.found.sessions
    requires Handled(s, met, after, answer, LogIn(email, current), verify, m)
    ensures (answer == AuthenticationFailed <==> forall u :: u in s.users ==> !MayLogIn(s, email, current, verify, u))
    ensures forall u :: MayLogIn(s, email, current, verify, u) ==>
              && (answer == LoginRefused(LoginRefusal.AccountDisabled) <==> s.users[u].status == Disabled)
              && (answer == LoginRefused(EmailNotVerified) <==> s.users[u].status !in {Inactive, Disabled})
              && (answer == Accepted <==> s.users[u].status == Inactive && !met.failed)
              && (answer == InternalError <==> s.users[u].status == Inactive && met.failed)
              && (answer == Accepted ==>
                    after == met.found.(sessions := met.found.sessions[m.newSession := R.Token(u, m.newFamily, None, m.expiresAt, None, None)]))
    ensures answer != Accepted ==> after == s || after == met.found
  {
    var user := UserByEmail(s, email);
    assert user.Some? && verify(s.users[user.value].password, current) ==> MayLogIn(s, email, current, verify, user.value);
    forall u: UserId | MayLogIn(s, email, current, verify, u) ensures user == Some(u) {
      assert Holds(s, email);
    }
  }

  /** A session is rotated exactly while it is live, unexpired and its owner present and not disabled, and unused still at its transaction. */
  lemma RefreshAnswered(s: Store, met: Meeting, after: Store, answer: Answer, session: R.TokenId, verify: Verifier, m: Moment)
    requires m.newSession !in met.found.sessions && Handled(s, met, after, answer, Refresh(session), verify, m)
    ensures var known := session in s.sessions;
            var valid := known && m.now <= s.sessions[session].expiresAt
                         && s.sessions[session].usedAt.None? && s.sessions[session].revocation.None?;
            var usable := valid && Exists(s, s.sessions[session].user) && s.users[s.sessions[session].user].status != Disabled;
            var unused := session in met.found.sessions && met.found.sessions[session].usedAt.None?;
            && (answer == TokenExpired <==> known && s.sessions[session].expiresAt < m.now)
            && (answer == SessionRevoked(R.ReuseDetected) <==> known && m.now <= s.sessions[session].expiresAt && !valid)
            && (answer == SessionRevoked(R.AccountDeleted) <==> valid && !Exists(s, s.sessions[session].user))
            && (answer == SessionRevoked(R.Reason.AccountDisabled) <==>
                  valid && Exists(s, s.sessions[session].user) && s.users[s.sessions[session].user].status == Disabled)
            && (answer == InvalidToken <==> !known || (usable && !met.failed && !unused))
            && (answer == InternalError <==> usable && met.failed)
            && (answer == Accepted <==> usable && !met.failed && unused)
            && (answer != Accepted ==> after == if usable then met.found else s)
  {
  }

  /** The session is used, and has a successor of the same user and family. */
  lemma RefreshLeaves(s: Store, met: Meeting, after: Store, session: R.TokenId, verify: Verifier, m: Moment)
    requires m.newSession !in met.found.sessions && Handled(s, met, after, Accepted, Refresh(session), verify, m)
    ensures session in s.sessions && session in met.found.sessions
    ensures var row, then_ := s.sessions[session], met.found.sessions[session];
            after == met.found.(sessions := met.found.sessions
              [session := then_.(usedAt := Some(m.now))][m.newSession := R.Token(row.user, row.family, Some(session), m.expiresAt, None, None)])
  {
  }
}
