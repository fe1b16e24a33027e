/** The account tables, what each transaction on them leaves behind, and what that achieves. */
module AccountStore {
  import opened Basics
  import opened Domain
  import opened OneTimeTokens
  import R = RefreshTokens

  type Hash = int

  datatype User = User(email: Email, password: Hash, status: Status, roles: set<Role>, deleted: bool)

  datatype Kind = Confirmation | PasswordReset | Invitation

  datatype Store = Store(
    users: map<UserId, User>, confirmations: Table, resets: Table, invitations: Table, sessions: R.Tokens)
  {
    function TableOf(kind: Kind): Table {
      match kind
      case Confirmation => confirmations
      case PasswordReset => resets
      case Invitation => invitations
    }

    function With(kind: Kind, table: Table): Store {
      match kind
      case Confirmation => this.(confirmations := table)
      case PasswordReset => this.(resets := table)
      case Invitation => this.(invitations := table)
    }

    /** The user exists and is not deleted. */
    predicate Present(user: UserId) { user in users && !users[user].deleted }

    predicate EmailTaken(email: Email) { exists u :: u in users && !users[u].deleted && users[u].email == email }

    predicate HasActive(kind: Kind, id: TokenId) { id in TableOf(kind) && Active(TableOf(kind)[id]) }
  }

  /** The users_email_unique index: no two accounts that are not deleted share an email. */
  ghost predicate EmailsUnique(s: Store) {
    forall u, v :: s.Present(u) && s.Present(v) && s.users[u].email == s.users[v].email ==> u == v
  }

  ghost function UserByEmail(s: Store, email: Email): (user: Option<UserId>)
    ensures user.Some? ==> s.Present(user.value) && s.users[user.value].email == email
    ensures user.None? <==> !s.EmailTaken(email)
  {
    if u :| s.Present(u) && s.users[u].email == email then Some(u) else None
  }

  datatype Result =
    | Ok
    | ConsumeConflict
    | EmailAlreadyRegistered
    | UserMissing
    | AlreadyDisabled
    | LastSuperAdmin
    | NotDisabled
    | MailNotSent
    | DuplicateKey

  function ActiveSupers(users: map<UserId, User>): set<UserId> {
    set u | u in users && SuperAdmin in users[u].roles && users[u].status == Inactive && !users[u].deleted
  }

  // ---- What each transaction leaves behind ----
  //
  // `seen` and `sessions` are the owner's active tokens and the user's refresh tokens in the snapshot of
  // the transaction: the bulk updates touch those rows and no row that was inserted later.


  function CreateUserResult(s: Store, user: UserId, email: Email, password: Hash, id: TokenId, expiresAt: Time, mailed: bool): (Store, Result) {
    if user in s.users || s.EmailTaken(email) || id in s.confirmations then (s, DuplicateKey)
    else if !mailed then (s, MailNotSent)
    else (s.(users := s.users[user := User(email, password, MailUnverified, {PlainUser}, false)],
             confirmations := s.confirmations[id := Token(OfUser(user), None, expiresAt, None)]), Ok)
  }

  function IssueResult(s: Store, kind: Kind, owner: Owner, role: Option<Role>, id: TokenId, expiresAt: Time,
                       seen: set<TokenId>, now: Time, mailed: bool): (Store, Result) {
    var table := s.TableOf(kind);
    if id in table then (s, DuplicateKey)
    else if !mailed then (s, MailNotSent)
    else (s.With(kind, Issue(table, seen, id, Token(owner, role, expiresAt, None), now)), Ok)
  }

  function ConfirmEmailResult(s: Store, id: TokenId, user: UserId, now: Time): (Store, Result) {
    if !s.HasActive(Confirmation, id) || !s.Present(user) || s.users[user].status != MailUnverified then (s, ConsumeConflict)
    else (s.(confirmations := UseAll(s.confirmations, {id}, now),
             users := s.users[user := s.users[user].(status := Inactive)]), Ok)
  }

  function ChangePasswordResult(s: Store, user: UserId, password: Hash, sessions: set<R.TokenId>, now: Time): (Store, Result) {
    if !s.Present(user) then (s, UserMissing)
    else (s.(users := s.users[user := s.users[user].(password := password)],
             sessions := R.RevokeIn(s.sessions, sessions, now, Some(R.PasswordChanged))), Ok)
  }

  function ResetPasswordResult(s: Store, user: UserId, id: TokenId, password: Hash,
                               seen: set<TokenId>, sessions: set<R.TokenId>, now: Time): (Store, Result) {
    if !s.HasActive(PasswordReset, id) then (s, ConsumeConflict)
    else if !s.Present(user) then (s, UserMissing)
    else (s.(resets := UseAll(s.resets, seen + {id}, now),
             users := s.users[user := s.users[user].(password := password)],
             sessions := R.RevokeIn(s.sessions, sessions, now, Some(R.PasswordChanged))), Ok)
  }

  function AcceptResult(s: Store, id: TokenId, email: Email, role: Role, password: Hash, user: UserId,
                        seen: set<TokenId>, now: Time): (Store, Result) {
    if !s.HasActive(Invitation, id) then (s, ConsumeConflict)
    else if s.EmailTaken(email) then (s, EmailAlreadyRegistered)
    else if user in s.users then (s, DuplicateKey)
    else (s.(invitations := UseAll(s.invitations, seen + {id}, now),
             users := s.users[user := User(email, password, Inactive, {role}, false)]), Ok)
  }

  /** `counted` are the active super_admins that a disable of one has locked. */
  function DisableResult(s: Store, user: UserId, isSuperAdmin: bool, counted: set<UserId>, sessions: set<R.TokenId>, now: Time): (Store, Result) {
    if isSuperAdmin && |counted| <= 1 then (s, LastSuperAdmin)
    else if !s.Present(user) || s.users[user].status != Inactive then (s, AlreadyDisabled)
    else (s.(users := s.users[user := s.users[user].(status := Disabled)],
             sessions := R.RevokeIn(s.sessions, sessions, now, Some(R.Reason.AccountDisabled))), Ok)
  }

  function ReactivateResult(s: Store, user: UserId): (Store, Result) {
    if !s.Present(user) || s.users[user].status != Disabled then (s, NotDisabled)
    else (s.(users := s.users[user := s.users[user].(status := Inactive)]), Ok)
  }

  /** Using one token and then the owner's active ones is using them all at once. */
  lemma UseThenSweep(table: Table, id: TokenId, owner: Owner, now: Time)
    ensures UseAll(UseAll(table, {id}, now), ActiveIds(UseAll(table, {id}, now), owner), now)
         == UseAll(table, ActiveIds(table, owner) + {id}, now)
  {
  }

  // ---- What the multi-effect transactions achieve ----

  ghost predicate AllSessionsRevoked(s: Store, user: UserId) {
    forall id :: id in s.sessions && s.sessions[id].user == user ==> s.sessions[id].revocation.Some?
  }

  /**
   A password reset that reports success has consumed its token, left the user no active reset token, set
   the new password and revoked every session, and touched no other user; any other answer changed nothing.
   */
  lemma ResetIsAllOrNothing(s: Store, user: UserId, id: TokenId, password: Hash, now: Time)
    ensures var (s', result) := ResetPasswordResult(s, user, id, password, ActiveIds(s.resets, OfUser(user)), R.UserIds(s.sessions, user), now);
            && (result != Ok ==> s' == s)
            && (result == Ok <==> s.HasActive(PasswordReset, id) && s.Present(user))
            && (result == ConsumeConflict <==> !s.HasActive(PasswordReset, id))
            && (result == UserMissing <==> s.HasActive(PasswordReset, id) && !s.Present(user))
            && (result == Ok ==>
                  && id in s'.resets && !Active(s'.resets[id]) && ActiveIds(s'.resets, OfUser(user)) == {}
                  && s'.users[user] == s.users[user].(password := password) && OthersUntouched(s, s', user)
                  && SessionsEnded(s, s', user, now, R.PasswordChanged) && AllSessionsRevoked(s', user)
                  && s' == s.(users := s'.users, resets := s'.resets, sessions := s'.sessions)
                  && (forall owner :: owner != OfUser(user) && owner != s.resets[id].owner ==>
                        ActiveIds(s'.resets, owner) == ActiveIds(s.resets, owner)))
  {
    var (s', result) := ResetPasswordResult(s, user, id, password, ActiveIds(s.resets, OfUser(user)), R.UserIds(s.sessions, user), now);
    if result == Ok {
      var ids := ActiveIds(s.resets, OfUser(user)) + {id};
      forall owner ensures ActiveIds(s'.resets, owner) == ActiveIds(s.resets, owner) - ids {
        ActiveAfterUse(s.resets, ids, now, owner);
      }
      R.RevokeGrows(s.sessions, R.UserIds(s.sessions, user), now, Some(R.PasswordChanged));
    }
  }

  /**
   An invitation that is accepted creates exactly one account, usable at once and with exactly the given
   role, and leaves its email no active invitation; any other answer changed nothing.
   */
  lemma AcceptIsAllOrNothing(s: Store, id: TokenId, email: Email, role: Role, password: Hash, user: UserId, now: Time)
    ensures var (s', result) := AcceptResult(s, id, email, role, password, user, ActiveIds(s.invitations, OfEmail(email)), now);
            && (result != Ok ==> s' == s)
            && (result == Ok <==> s.HasActive(Invitation, id) && !s.EmailTaken(email) && user !in s.users)
            && (result == ConsumeConflict <==> !s.HasActive(Invitation, id))
            && (result == EmailAlreadyRegistered <==> s.HasActive(Invitation, id) && s.EmailTaken(email))
            && (result == DuplicateKey <==> s.HasActive(Invitation, id) && !s.EmailTaken(email) && user in s.users)
            && (result == Ok ==>
                  && user !in s.users && OthersUntouched(s, s', user)
                  && s'.users[user] == User(email, password, Inactive, {role}, false)
                  && ActiveIds(s'.invitations, OfEmail(email)) == {} && !s'.HasActive(Invitation, id)
                  && s' == s.(users := s'.users, invitations := s'.invitations))
  {
    var (s', result) := AcceptResult(s, id, email, role, password, user, ActiveIds(s.invitations, OfEmail(email)), now);
    if result == Ok {
      ActiveAfterUse(s.invitations, ActiveIds(s.invitations, OfEmail(email)) + {id}, now, OfEmail(email));
    }
  }

  /** The other accounts are as they were. */
  ghost predicate OthersUntouched(s: Store, s': Store, user: UserId) {
    s'.users.Keys == s.users.Keys + {user} && forall u :: u in s.users && u != user ==> s'.users[u] == s.users[u]
  }

  /** The user's sessions are revoked, with the given reason where they were not, and nobody else's is touched. */
  ghost predicate SessionsEnded(s: Store, s': Store, user: UserId, now: Time, reason: R.Reason) {
    && s'.sessions.Keys == s.sessions.Keys
    && forall id :: id in s.sessions ==>
         s'.sessions[id] == if s.sessions[id].user == user && s.sessions[id].revocation.None?
                            then s.sessions[id].(revocation := Some(R.Revocation(now, Some(reason)))) else s.sessions[id]
  }

  /** A password change succeeds exactly for a present account, then sets the password and ends its sessions, and nothing else. */
  lemma ChangePasswordIsAllOrNothing(s: Store, user: UserId, password: Hash, now: Time)
    ensures var (s', result) := ChangePasswordResult(s, user, password, R.UserIds(s.sessions, user), now);
            && (result == Ok <==> s.Present(user)) && (result == UserMissing <==> !s.Present(user))
            && (result != Ok ==> s' == s)
            && (result == Ok ==>
                  && s'.users[user] == s.users[user].(password := password) && OthersUntouched(s, s', user)
                  && SessionsEnded(s, s', user, now, R.PasswordChanged) && AllSessionsRevoked(s', user)
                  && s' == s.(users := s'.users, sessions := s'.sessions))
  {
  }

  /** A registration that succeeds adds an unverified account with the plain role and its confirmation token, and nothing else. */
  lemma CreateIsAllOrNothing(s: Store, user: UserId, email: Email, password: Hash, id: TokenId, expiresAt: Time, mailed: bool)
    ensures var (s', result) := CreateUserResult(s, user, email, password, id, expiresAt, mailed);
            var free := user !in s.users && !s.EmailTaken(email) && id !in s.confirmations;
            && (result == Ok <==> free && mailed) && (result == DuplicateKey <==> !free) && (result == MailNotSent <==> free && !mailed)
            && (result != Ok ==> s' == s)
            && (result == Ok ==>
                  && s'.users[user] == User(email, password, MailUnverified, {PlainUser}, false) && OthersUntouched(s, s', user)
                  && s'.HasActive(Confirmation, id) && s'.confirmations[id].owner == OfUser(user)
                  && s'.confirmations[id].expiresAt == expiresAt
                  && s'.confirmations.Keys == s.confirmations.Keys + {id}
                  && (forall t :: t in s.confirmations ==> s'.confirmations[t] == s.confirmations[t])
                  && s' == s.(users := s'.users, confirmations := s'.confirmations))
  {
  }

  /** An issue that succeeds leaves its owner exactly the new token, and every other owner's as they were. */
  lemma IssueIsAllOrNothing(s: Store, kind: Kind, owner: Owner, role: Option<Role>, id: TokenId, expiresAt: Time, now: Time, mailed: bool)
    ensures var (s', result) := IssueResult(s, kind, owner, role, id, expiresAt, ActiveIds(s.TableOf(kind), owner), now, mailed);
            && (result == Ok <==> id !in s.TableOf(kind) && mailed)
            && (result == DuplicateKey <==> id in s.TableOf(kind)) && (result == MailNotSent <==> id !in s.TableOf(kind) && !mailed)
            && (result != Ok ==> s' == s)
            && (result == Ok ==>
                  && s' == s.With(kind, s'.TableOf(kind)) && s'.TableOf(kind).Keys == s.TableOf(kind).Keys + {id}
                  && s'.TableOf(kind)[id] == Token(owner, role, expiresAt, None)
                  && ActiveIds(s'.TableOf(kind), owner) == {id}
                  && forall o :: o != owner ==> ActiveIds(s'.TableOf(kind), o) == ActiveIds(s.TableOf(kind), o))
  {
    if id !in s.TableOf(kind) {
      ActiveAfterIssue(s.TableOf(kind), ActiveIds(s.TableOf(kind), owner), id, Token(owner, role, expiresAt, None), now);
    }
  }

  /** A confirmation succeeds exactly for an active token and an unverified account, and then spends the one and enables the other. */
  lemma ConfirmEmailIsAllOrNothing(s: Store, id: TokenId, user: UserId, now: Time)
    ensures var (s', result) := ConfirmEmailResult(s, id, user, now);
            && (result == Ok <==> s.HasActive(Confirmation, id) && s.Present(user) && s.users[user].status == MailUnverified)
            && (result != Ok ==> result == ConsumeConflict && s' == s)
            && (result == Ok ==>
                  && s'.confirmations == s.confirmations[id := s.confirmations[id].(usedAt := Some(now))]
                  && s'.users[user] == s.users[user].(status := Inactive) && OthersUntouched(s, s', user)
                  && s' == s.(users := s'.users, confirmations := s'.confirmations))
  {
  }

  /** A disable succeeds exactly for an active account that is not the last super_admin, and then ends its sessions. */
  lemma DisableIsAllOrNothing(s: Store, user: UserId, isSuperAdmin: bool, now: Time)
    ensures var (s', result) := DisableResult(s, user, isSuperAdmin, ActiveSupers(s.users), R.UserIds(s.sessions, user), now);
            var last := isSuperAdmin && |ActiveSupers(s.users)| <= 1;
            var active := s.Present(user) && s.users[user].status == Inactive;
            && (result == Ok <==> !last && active) && (result == LastSuperAdmin <==> last) && (result == AlreadyDisabled <==> !last && !active)
            && (result != Ok ==> s' == s)
            && (result == Ok ==>
                  && s'.users[user] == s.users[user].(status := Disabled) && OthersUntouched(s, s', user)
                  && SessionsEnded(s, s', user, now, R.Reason.AccountDisabled) && AllSessionsRevoked(s', user)
                  && s' == s.(users := s'.users, sessions := s'.sessions))
  {
  }

  lemma ReactivateIsAllOrNothing(s: Store, user: UserId)
    ensures var (s', result) := ReactivateResult(s, user);
            && (result == Ok <==> s.Present(user) && s.users[user].status == Disabled)
            && (result != Ok ==> result == NotDisabled && s' == s)
            && (result == Ok ==>
                  s'.users[user] == s.users[user].(status := Inactive) && OthersUntouched(s, s', user) && s' == s.(users := s'.users))
  {
  }

  /** The account has the role, and is confirmed, enabled and not deleted. */
  predicate IsActiveSuper(users: map<UserId, User>, u: UserId) {
    u in users && SuperAdmin in users[u].roles && users[u].status == Inactive && !users[u].deleted
  }

  predicate HasSuperAdmin(users: map<UserId, User>) { exists u :: u in users && IsActiveSuper(users, u) }

  lemma HasSuperAdminIff(users: map<UserId, User>)
    ensures HasSuperAdmin(users) <==> ActiveSupers(users) != {}
    ensures forall u :: u in ActiveSupers(users) <==> IsActiveSuper(users, u)
  {
    if ActiveSupers(users) != {} {
      var u :| u in ActiveSupers(users);
      assert IsActiveSuper(users, u);
    }
    if u :| u in users && IsActiveSuper(users, u) {
      assert u in ActiveSupers(users);
    }
  }

  /** A disable never removes the last active super_admin, and ends every session of the account it disables. */
  lemma DisableKeepsASuperAdmin(s: Store, user: UserId, now: Time)
    requires HasSuperAdmin(s.users)
    ensures var isSuper := user in s.users && SuperAdmin in s.users[user].roles;
            var (s', result) := DisableResult(s, user, isSuper, ActiveSupers(s.users), R.UserIds(s.sessions, user), now);
            && HasSuperAdmin(s'.users)
            && (result != Ok ==> s' == s)
            && (result == Ok ==> s'.users[user].status == Disabled && AllSessionsRevoked(s', user))
            && (result == LastSuperAdmin ==> isSuper && forall u, v :: IsActiveSuper(s.users, u) && IsActiveSuper(s.users, v) ==> u == v)
  {
    HasSuperAdminIff(s.users);
    var isSuper := user in s.users && SuperAdmin in s.users[user].roles;
    var (s', result) := DisableResult(s, user, isSuper, ActiveSupers(s.users), R.UserIds(s.sessions, user), now);
    if result == Ok {
      R.RevokeGrows(s.sessions, R.UserIds(s.sessions, user), now, Some(R.Reason.AccountDisabled));
      assert ActiveSupers(s'.users) == ActiveSupers(s.users) - {user};
      assert user in ActiveSupers(s.users) ==> isSuper;
      if ActiveSupers(s.users) <= {user} {
        SubsetSize(ActiveSupers(s.users), {user});
      }
      HasSuperAdminIff(s'.users);
    } else if result == LastSuperAdmin {
      var u :| u in ActiveSupers(s.users);
      SingletonSet(ActiveSupers(s.users), u);
    }
  }
}
