/**
 Refresh-token rotation as a concurrent protocol.

 Every handler that reads or writes refresh tokens is a request with a program counter and what it has
 read so far; any number of requests interleave freely. A step is one database statement, or the begin
 or the commit of one transaction attempt.
 */
module RefreshProtocol {
  import opened Basics
  import opened Domain
  import opened RefreshTokens

  const MAX_TRIES: nat := 10
  const REFRESH_TOKEN_TTL: Time := 30 * 24 * 60 * 60 * 1000

  datatype Account = Account(status: Status, deleted: bool, password: int)

  type Accounts = map<UserId, Account>
  type RequestId = nat

  datatype Purpose = NewPassword(password: int) | Disabling

  datatype Outcome =
    | InvalidToken
    | TokenExpired
    | SessionRevoked(reason: Reason)
    | NewPair(parent: TokenId, child: TokenId)
    | IssueFailed(parent: TokenId, child: TokenId)
    | RotationExhausted
    | LoggedOut
    | LoggedIn(token: TokenId)
    | LoginRefused
    | SessionsRevoked
    | AlreadyDisabled
    | RevocationExhausted
    | Failed

  datatype Request =
    // a refresh
    | Presented(token: TokenId)
    | Checking(token: TokenId, read: Token)
    | FindingUser(token: TokenId, read: Token)
    | Rotating(token: TokenId, read: Token, expiresAt: Time)
    | InRotation(token: TokenId, read: Token, expiresAt: Time, row: Token, tries: nat)
    | Signing(token: TokenId, child: TokenId)
    | RevokingFamily(family: FamilyId)
    | FamilyStatement(family: FamilyId, ids: set<TokenId>)
    // a refresh or a logout that revokes the one token it read
    | RevokingOne(token: TokenId, reason: Option<Reason>, outcome: Outcome)
    | LogoutPresented(token: TokenId, caller: UserId)
    // a login: before reading the account, and before saving the first token of a new family
    | LoggingIn(user: UserId)
    | SavingToken(user: UserId)
    // a password change, password reset or disable, which revokes every token of the user
    | Revoking(user: UserId, purpose: Purpose)
    | InRevocation(user: UserId, purpose: Purpose, account: Account, seen: Tokens, tries: nat)
    | Done(outcome: Outcome)

  datatype State = State(now: Time, accounts: Accounts, tokens: Tokens, requests: map<RequestId, Request>)

  datatype Action =
    | Arrive(r: RequestId, request: Request)
    | Step(r: RequestId, freshToken: TokenId, freshFamily: FamilyId)
    | Fail(r: RequestId)                                  // a database or signing error
    | Wait(duration: nat)
    | SetAccount(user: UserId, account: Account)          // any other use case that writes accounts

  predicate IsArrival(q: Request) {
    q.Presented? || q.LogoutPresented? || q.LoggingIn? || q.Revoking?
  }

  predicate Enabled(s: State, a: Action) {
    match a
    case Arrive(r, q) => r !in s.requests && IsArrival(q)
    case Step(r, id, family) =>
      && r in s.requests && !s.requests[r].Done?
      && (s.requests[r].InRotation? || s.requests[r].SavingToken? ==> id !in s.tokens)
      && (s.requests[r].SavingToken? ==> family !in Families(s.tokens))
      && (s.requests[r].Rotating? || s.requests[r].InRotation? ==> s.requests[r].token in s.tokens)
    case Fail(r) => r in s.requests && !s.requests[r].Done?
    case Wait(_) => true
    case SetAccount(_, _) => true
  }

  // ---- The steps of a request ----

  /** The checks on the row that was read: expiry first, then reuse. */
  function AfterCheck(q: Request, now: Time): Request
    requires q.Checking?
  {
    if q.read.expiresAt < now then RevokingOne(q.token, None, TokenExpired)
    else if !Live(q.read) then RevokingFamily(q.read.family)
    else FindingUser(q.token, q.read)
  }

  function AfterUser(q: Request, accounts: Accounts, now: Time): Request
    requires q.FindingUser?
  {
    if q.read.user !in accounts || accounts[q.read.user].deleted then
      RevokingOne(q.token, Some(AccountDeleted), SessionRevoked(AccountDeleted))
    else if accounts[q.read.user].status == Disabled then
      RevokingOne(q.token, Some(Reason.AccountDisabled), SessionRevoked(Reason.AccountDisabled))
    else Rotating(q.token, q.read, now + REFRESH_TOKEN_TTL)
  }

  /** The attempt commits when its row is unused and was not changed since the snapshot. */
  predicate CommitsRotation(q: Request, tokens: Tokens)
    requires q.InRotation?
  {
    q.row.usedAt.None? && q.token in tokens && tokens[q.token] == q.row
  }

  function AfterRotation(q: Request, tokens: Tokens, newId: TokenId): Request
    requires q.InRotation? && q.token in tokens
  {
    if q.row.usedAt.Some? then RevokingFamily(q.read.family)
    else if CommitsRotation(q, tokens) then Signing(q.token, newId)
    else if q.tries >= MAX_TRIES then Done(RotationExhausted)
    else q.(row := tokens[q.token], tries := q.tries + 1)
  }

  function Child(q: Request): Token
    requires q.InRotation?
  {
    Token(q.read.user, q.read.family, Some(q.token), q.expiresAt, None, None)
  }

  /** One attempt of a user-wide revocation takes its snapshot, or finds nothing to update in it. */
  function BeginRevocation(s: State, user: UserId, purpose: Purpose, tries: nat): Request {
    if user !in s.accounts || s.accounts[user].deleted then
      Done(if purpose.Disabling? then AlreadyDisabled else Failed)
    else if purpose.Disabling? && s.accounts[user].status != Inactive then Done(AlreadyDisabled)
    else InRevocation(user, purpose, s.accounts[user], Unrevoked(s.tokens, user), tries)
  }

  function Unrevoked(tokens: Tokens, user: UserId): Tokens {
    map id | id in tokens && tokens[id].user == user && tokens[id].revocation.None? :: tokens[id]
  }

  predicate CommitsRevocation(q: Request, s: State)
    requires q.InRevocation?
  {
    && q.user in s.accounts && s.accounts[q.user] == q.account
    && forall id :: id in q.seen ==> id in s.tokens && s.tokens[id] == q.seen[id]
  }

  function NextRequest(s: State, r: RequestId, newId: TokenId): Request
    requires r in s.requests && !s.requests[r].Done?
    requires s.requests[r].Rotating? || s.requests[r].InRotation? ==> s.requests[r].token in s.tokens
  {
    var q := s.requests[r];
    match q
    case Presented(id) => if id in s.tokens then Checking(id, s.tokens[id]) else Done(InvalidToken)
    case Checking(_, _) => AfterCheck(q, s.now)
    case FindingUser(_, _) => AfterUser(q, s.accounts, s.now)
    case Rotating(id, read, expiresAt) => InRotation(id, read, expiresAt, s.tokens[id], 1)
    case InRotation(_, _, _, _, _) => AfterRotation(q, s.tokens, newId)
    case Signing(id, child) => Done(NewPair(id, child))
    case RevokingFamily(family) => FamilyStatement(family, FamilyIds(s.tokens, family))
    case FamilyStatement(_, _) => Done(SessionRevoked(ReuseDetected))
    case RevokingOne(_, _, outcome) => Done(outcome)
    case LogoutPresented(id, caller) =>
      if id in s.tokens && s.tokens[id].user == caller then RevokingOne(id, None, LoggedOut) else Done(LoggedOut)
    case LoggingIn(user) =>
      if user in s.accounts && !s.accounts[user].deleted && CheckLoginableStatus(s.accounts[user].status).None?
      then SavingToken(user) else Done(LoginRefused)
    case SavingToken(_) => Done(LoggedIn(newId))
    case Revoking(user, purpose) => BeginRevocation(s, user, purpose, 1)
    case InRevocation(user, purpose, _, _, tries) =>
      if CommitsRevocation(q, s) then Done(SessionsRevoked)
      else if tries >= MAX_TRIES then Done(RevocationExhausted)
      else BeginRevocation(s, user, purpose, tries + 1)
  }

  function ReasonFor(purpose: Purpose): Reason {
    if purpose.Disabling? then Reason.AccountDisabled else PasswordChanged
  }

  function NextTokens(s: State, r: RequestId, newId: TokenId, family: FamilyId): Tokens
    requires r in s.requests
  {
    var q := s.requests[r];
    match q
    case InRotation(id, _, _, row, _) =>
      if CommitsRotation(q, s.tokens) then s.tokens[id := Used(row, s.now)][newId := Child(q)] else s.tokens
    case FamilyStatement(_, ids) => RevokeIn(s.tokens, ids, s.now, Some(ReuseDetected))
    case RevokingOne(id, reason, _) => RevokeIn(s.tokens, {id}, s.now, reason)
    case SavingToken(user) =>
      s.tokens[newId := Token(user, family, None, s.now + REFRESH_TOKEN_TTL, None, None)]
    case InRevocation(_, purpose, _, seen, _) =>
      if CommitsRevocation(q, s) then RevokeIn(s.tokens, seen.Keys, s.now, Some(ReasonFor(purpose))) else s.tokens
    case _ => s.tokens
  }

  function NextAccounts(s: State, r: RequestId): Accounts
    requires r in s.requests
  {
    var q := s.requests[r];
    if q.InRevocation? && CommitsRevocation(q, s) then
      s.accounts[q.user := if q.purpose.Disabling? then q.account.(status := Disabled)
                           else q.account.(password := q.purpose.password)]
    else s.accounts
  }

  /** An error ends the request without an effect; after the rotation has committed only signing can fail. */
  function AfterFailure(q: Request): Request {
    if q.Signing? then Done(IssueFailed(q.token, q.child)) else Done(Failed)
  }

  function Apply(s: State, a: Action): State
    requires Enabled(s, a)
  {
    match a
    case Arrive(r, q) => s.(requests := s.requests[r := q])
    case Step(r, newId, family) =>
      State(s.now, NextAccounts(s, r), NextTokens(s, r, newId, family), s.requests[r := NextRequest(s, r, newId)])
    case Fail(r) => s.(requests := s.requests[r := AfterFailure(s.requests[r])])
    case Wait(duration) => s.(now := s.now + duration)
    case SetAccount(user, account) => s.(accounts := s.accounts[user := account])
  }

  predicate Possible(s: State, trace: seq<Action>)
    decreases |trace|
  {
    trace == [] || (Enabled(s, trace[0]) && Possible(Apply(s, trace[0]), trace[1..]))
  }

  function Run(s: State, trace: seq<Action>): State
    requires Possible(s, trace)
    decreases |trace|
  {
    if trace == [] then s else Run(Apply(s, trace[0]), trace[1..])
  }
}
