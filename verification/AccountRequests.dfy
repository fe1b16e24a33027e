/**
 The account use cases as requests: what a handler decides from what it reads, which is either an answer
 or the transaction it goes on to run with the values it has read, and the answer to that transaction.
 */
module AccountRequests {
  import opened Basics
  import opened Domain
  import opened OneTimeTokens
  import opened AccountStore
  import R = RefreshTokens

  datatype Request =
    | Register(email: Email, password: Hash)
    | ResendConfirmation(email: Email)
    | VerifyEmail(token: TokenId)
    | ForgotPassword(email: Email)
    | ConfirmReset(token: TokenId, password: Hash)
    | ChangePassword(user: UserId, current: string, password: Hash)
    | InviteAdmin(email: Email, role: Role)
    | AcceptInvitation(token: TokenId, password: Hash)
    | DisableAccount(user: UserId)
    | ReactivateAccount(user: UserId)
    | LogIn(email: Email, current: string)
    | Refresh(session: R.TokenId)

  datatype Answer =
    | Accepted
    | InvalidToken
    | TokenExpired
    | EmailRegistered
    | InvalidRole
    | RoleAlreadyAssigned
    | SessionRevoked(reason: R.Reason)
    | PasswordMismatch
    | AuthenticationFailed
    | LoginRefused(refusal: LoginRefusal)
    | UserNotFound
    | NotAdminAccount
    | WasAlreadyDisabled
    | WasNotDisabled
    | IsLastSuperAdmin
    | MailDeliveryFailed
    | InternalError

  /** A transaction, with the values its handler has read. */
  datatype Call =
    | Create(email: Email, password: Hash)
    | IssueToken(kind: Kind, owner: Owner, grants: Option<Role>)
    | ConfirmEmail(token: TokenId, user: UserId)
    | ResetPassword(token: TokenId, user: UserId, password: Hash)
    | SetPassword(user: UserId, password: Hash)
    | Accept(token: TokenId, email: Email, role: Role, password: Hash)
    | Disable(user: UserId, isSuperAdmin: bool)
    | Reactivate(user: UserId)
    | OpenSession(user: UserId)
    | Rotate(session: R.TokenId, row: R.Token)

  datatype Plan = Refuse(answer: Answer) | Proceed(call: Call)

  type Verifier = (Hash, string) -> bool

  function IsAdmin(roles: set<Role>): bool { exists role :: role in roles && IsAdminRole(role) }

  /** A token that was found, is unused and has not expired; a used token is answered like an unknown one. */
  function RefuseToken(s: Store, kind: Kind, token: TokenId, now: Time): Option<Answer> {
    if !s.HasActive(kind, token) then Some(InvalidToken)
    else if now > s.TableOf(kind)[token].expiresAt then Some(TokenExpired)
    else None
  }

  ghost function PlanOf(s: Store, now: Time, request: Request, verify: Verifier): Plan {
    match request
    case Register(email, password) =>
      if s.EmailTaken(email) then Refuse(Accepted) else Proceed(Create(email, password))
    case ResendConfirmation(email) =>
      var user := UserByEmail(s, email);
      if user.None? || s.users[user.value].status != MailUnverified then Refuse(Accepted)
      else Proceed(IssueToken(Confirmation, OfUser(user.value), None))
    case VerifyEmail(token) =>
      var refusal := RefuseToken(s, Confirmation, token, now);
      if refusal.Some? then Refuse(refusal.value)
      else if !s.confirmations[token].owner.OfUser? then Refuse(InternalError)
      else Proceed(ConfirmEmail(token, s.confirmations[token].owner.user))
    case ForgotPassword(email) =>
      var user := UserByEmail(s, email);
      if user.None? || s.users[user.value].status != Inactive then Refuse(Accepted)
      else Proceed(IssueToken(PasswordReset, OfUser(user.value), None))
    case ConfirmReset(token, password) =>
      var refusal := RefuseToken(s, PasswordReset, token, now);
      if refusal.Some? then Refuse(refusal.value)
      else if !s.resets[token].owner.OfUser? then Refuse(InternalError)
      else Proceed(ResetPassword(token, s.resets[token].owner.user, password))
    case ChangePassword(user, current, password) =>
      if !s.Present(user) then Refuse(SessionRevoked(R.AccountDeleted))
      else if s.users[user].status == Disabled then Refuse(SessionRevoked(R.Reason.AccountDisabled))
      else if !verify(s.users[user].password, current) then Refuse(PasswordMismatch)
      else Proceed(SetPassword(user, password))
    case InviteAdmin(email, role) =>
      var user := UserByEmail(s, email);
      if !IsAdminRole(role) then Refuse(InvalidRole)
      else if user.None? then Proceed(IssueToken(Invitation, OfEmail(email), Some(role)))
      else if IsAdmin(s.users[user.value].roles) then Refuse(RoleAlreadyAssigned)
      else Refuse(EmailRegistered)
    case AcceptInvitation(token, password) =>
      var refusal := RefuseToken(s, Invitation, token, now);
      if refusal.Some? then Refuse(refusal.value)
      else
        var row := s.invitations[token];
        if !row.owner.OfEmail? || row.role.None? then Refuse(InternalError)
        else if s.EmailTaken(row.owner.email) then Refuse(EmailRegistered)
        else Proceed(Accept(token, row.owner.email, row.role.value, password))
    case DisableAccount(user) =>
      if !s.Present(user) then Refuse(UserNotFound)
      else if !IsAdmin(s.users[user].roles) then Refuse(NotAdminAccount)
      else if s.users[user].status == Disabled then Refuse(WasAlreadyDisabled)
      else Proceed(Disable(user, SuperAdmin in s.users[user].roles))
    case ReactivateAccount(user) =>
      if !s.Present(user) then Refuse(UserNotFound)
      else if !IsAdmin(s.users[user].roles) then Refuse(NotAdminAccount)
      else if s.users[user].status != Disabled then Refuse(WasNotDisabled)
      else Proceed(Reactivate(user))
    case LogIn(email, current) =>
      var user := UserByEmail(s, email);
      if user.None? || !verify(s.users[user.value].password, current) then Refuse(AuthenticationFailed)
      else
        var refusal := CheckLoginableStatus(s.users[user.value].status);
        if refusal.Some? then Refuse(LoginRefused(refusal.value)) else Proceed(OpenSession(user.value))
    case Refresh(session) =>
      if session !in s.sessions then Refuse(InvalidToken)
      else
        var row := s.sessions[session];
        if row.expiresAt < now then Refuse(TokenExpired)
        else if !R.Live(row) then Refuse(SessionRevoked(R.ReuseDetected))
        else if !s.Present(row.user) then Refuse(SessionRevoked(R.AccountDeleted))
        else if s.users[row.user].status == Disabled then Refuse(SessionRevoked(R.Reason.AccountDisabled))
        else Proceed(Rotate(session, row))
  }

  /**
   What a transaction finds when it runs: the identifiers it generates, the clock, whether the mail goes
   out, and which rows its snapshot shows to its bulk updates and its count.
   */
  datatype Moment = Moment(
    now: Time, expiresAt: Time, newUser: UserId, newToken: TokenId, newSession: R.TokenId, newFamily: R.FamilyId,
    mailed: bool, seen: set<TokenId>, sessions: set<R.TokenId>, counted: set<UserId>)

  function SaveSession(s: Store, id: R.TokenId, row: R.Token): (Store, Result) {
    if id in s.sessions then (s, DuplicateKey) else (s.(sessions := s.sessions[id := row]), Ok)
  }

  function RotateSession(s: Store, session: R.TokenId, row: R.Token, m: Moment): (Store, Result) {
    if session !in s.sessions || s.sessions[session].usedAt.Some? then (s, ConsumeConflict)
    else
      var child := R.Token(row.user, row.family, Some(session), m.expiresAt, None, None);
      if m.newSession in s.sessions then (s, DuplicateKey)
      else (s.(sessions := s.sessions[session := R.Used(s.sessions[session], m.now)][m.newSession := child]), Ok)
  }

  function Commit(s: Store, call: Call, m: Moment): (Store, Result) {
    match call
    case Create(email, password) => CreateUserResult(s, m.newUser, email, password, m.newToken, m.expiresAt, m.mailed)
    case IssueToken(kind, owner, role) => IssueResult(s, kind, owner, role, m.newToken, m.expiresAt, m.seen, m.now, m.mailed)
    case ConfirmEmail(token, user) => ConfirmEmailResult(s, token, user, m.now)
    case ResetPassword(token, user, password) => ResetPasswordResult(s, user, token, password, m.seen, m.sessions, m.now)
    case SetPassword(user, password) => ChangePasswordResult(s, user, password, m.sessions, m.now)
    case Accept(token, email, role, password) => AcceptResult(s, token, email, role, password, m.newUser, m.seen, m.now)
    case Disable(user, isSuperAdmin) => DisableResult(s, user, isSuperAdmin, m.counted, m.sessions, m.now)
    case Reactivate(user) => ReactivateResult(s, user)
    case OpenSession(user) => SaveSession(s, m.newSession, R.Token(user, m.newFamily, None, m.expiresAt, None, None))
    case Rotate(session, row) => RotateSession(s, session, row, m)
  }

  /**
   The bulk updates of a transaction reach only rows that its snapshot shows to belong to its owner, and the
   super_admins that a disable has counted are still active: see SuperAdminGuard.CountedRowsStillActive.
   */
  ghost predicate SnapshotOf(s: Store, call: Call, m: Moment) {
    match call
    case IssueToken(kind, owner, _) => m.seen <= OwnedIds(s.TableOf(kind), owner)
    case ResetPassword(_, user, _) => m.seen <= OwnedIds(s.resets, OfUser(user)) && m.sessions <= R.UserIds(s.sessions, user)
    case SetPassword(user, _) => m.sessions <= R.UserIds(s.sessions, user)
    case Accept(_, email, _, _) => m.seen <= OwnedIds(s.invitations, OfEmail(email))
    case Disable(user, _) => m.sessions <= R.UserIds(s.sessions, user) && m.counted <= ActiveSupers(s.users)
    case _ => true
  }

  function OwnedIds(table: Table, owner: Owner): set<TokenId> {
    set id | id in table && table[id].owner == owner
  }

  /** The answer to a transaction's result: lost races read as a used token, other surprises as internal errors. */
  function AnswerTo(result: Result): Answer {
    match result
    case Ok => Accepted
    case ConsumeConflict => InvalidToken
    case EmailAlreadyRegistered => EmailRegistered
    case AlreadyDisabled => WasAlreadyDisabled
    case LastSuperAdmin => IsLastSuperAdmin
    case NotDisabled => WasNotDisabled
    case MailNotSent => MailDeliveryFailed
    case _ => InternalError
  }
}
