/** The account transactions as lists of statements, any of which can fail with an error of the database. */
module AccountStatements {
  import opened Basics
  import opened Domain
  import opened OneTimeTokens
  import opened AccountStore
  import R = RefreshTokens
  import T = Transactions

  type Failure = T.Error<Result>

  /** Which statement of an attempt fails, counted from 0, and with which message. */
  type Faults = nat -> Option<T.Message>

  function MessageOf(result: Result): T.Message {
    match result
    case Ok => ""
    case ConsumeConflict => "token consume conflict"
    case EmailAlreadyRegistered => "email already registered"
    case UserMissing => "user not found"
    case AlreadyDisabled => "account already disabled"
    case LastSuperAdmin => "cannot disable the last active super_admin"
    case NotDisabled => "account is not disabled"
    case MailNotSent => "could not send confirmation email"
    case DuplicateKey => "duplicate key value " + "violates unique constraint"
  }

  function Refusal(result: Result): Failure { T.Domain(result, MessageOf(result)) }

  /** A mail that is not sent, with the text of the mailer's error. */
  function MailError(text: T.Message): Failure { T.Domain(MailNotSent, MessageOf(MailNotSent) + ": " + text) }

  predicate MailFailed(error: Option<Failure>) { error.Some? && T.Cause(error.value) == Some(MailNotSent) }

  /** No refusal of a transaction is mistaken for a serialization failure. */
  lemma RefusalsAreFinal(result: Result)
    ensures !T.Retryable(Refusal(result))
  {
    if result == LastSuperAdmin {
      LastSuperAdminText(MessageOf(result));
    } else if result == MailNotSent {
      WithoutZ(MessageOf(result));
    } else if result == DuplicateKey {
      DuplicateKeyText(MessageOf(result));
    } else {
      assert |MessageOf(result)| < |T.COULD_NOT_SERIALIZE|;
    }
  }

  lemma LastSuperAdminText(text: T.Message)
    requires text == "cannot disable the last active super_admin"
    ensures !Contains(text, T.COULD_NOT_SERIALIZE)
  {
    WithoutZ(text);
  }

  lemma DuplicateKeyText(text: T.Message)
    requires text == "duplicate key value " + "violates unique constraint"
    ensures !Contains(text, T.COULD_NOT_SERIALIZE)
  {
    assert 'z' !in "duplicate key value " && 'z' !in "violates unique constraint";
    WithoutZ(text);
  }

  lemma WithoutZ(text: T.Message)
    requires 'z' !in text
    ensures !Contains(text, T.COULD_NOT_SERIALIZE)
  {
    var part := T.COULD_NOT_SERIALIZE;
    assert part[17] == 'z';
    forall i | 0 <= i <= |text| - |part| ensures !OccursAt(text, part, i) {
      assert text[i..i + |part|][17] == text[i + 17];
    }
  }

  // ---- Statements ----

  /** A statement of a transaction, with the refusal it is turned into where the transaction checks its outcome. */
  datatype Statement =
    | InsertUser(user: UserId, email: Email, password: Hash, status: Status, taken: Result)
    | InsertUserRole(user: UserId, role: Role)
    | InsertToken(kind: Kind, id: TokenId, token: Token)
    | SendMail
    | UpdateUserPassword(user: UserId, password: Hash)
    | TransitionUserStatus(user: UserId, to: Status, from: Status, refusal: Result)
    | MarkTokenUsed(kind: Kind, id: TokenId)
    | InvalidateActiveTokens(kind: Kind, owner: Owner)
    | RevokeRefreshTokensByUser(user: UserId, reason: R.Reason)
    | LockActiveSuperAdmins

  /** What a statement makes of the store that the transaction has so far; a refusal changes nothing. */
  function Perform(statement: Statement, s: Store, now: Time): (Store, Result) {
    match statement
    case InsertUser(user, email, password, status, taken) =>
      if s.EmailTaken(email) then (s, taken)
      else if user in s.users then (s, DuplicateKey)
      else (s.(users := s.users[user := User(email, password, status, {}, false)]), Ok)
    case InsertUserRole(user, role) =>
      if user !in s.users then (s, UserMissing)
      else (s.(users := s.users[user := s.users[user].(roles := s.users[user].roles + {role})]), Ok)
    case InsertToken(kind, id, token) =>
      if id in s.TableOf(kind) then (s, DuplicateKey) else (s.With(kind, s.TableOf(kind)[id := token]), Ok)
    case SendMail => (s, Ok)
    case UpdateUserPassword(user, password) =>
      if !s.Present(user) then (s, UserMissing)
      else (s.(users := s.users[user := s.users[user].(password := password)]), Ok)
    case TransitionUserStatus(user, to, from, refusal) =>
      if !s.Present(user) || s.users[user].status != from then (s, refusal)
      else (s.(users := s.users[user := s.users[user].(status := to)]), Ok)
    case MarkTokenUsed(kind, id) =>
      if !s.HasActive(kind, id) then (s, ConsumeConflict) else (s.With(kind, UseAll(s.TableOf(kind), {id}, now)), Ok)
    case InvalidateActiveTokens(kind, owner) =>
      (s.With(kind, UseAll(s.TableOf(kind), ActiveIds(s.TableOf(kind), owner), now)), Ok)
    case RevokeRefreshTokensByUser(user, reason) =>
      (s.(sessions := R.RevokeIn(s.sessions, R.UserIds(s.sessions, user), now, Some(reason))), Ok)
    case LockActiveSuperAdmins => (s, if |ActiveSupers(s.users)| <= 1 then LastSuperAdmin else Ok)
  }

  // ---- Transactions as lists of statements ----

  function CreateUserStatements(user: UserId, email: Email, password: Hash, id: TokenId, expiresAt: Time): seq<Statement> {
    [InsertUser(user, email, password, MailUnverified, DuplicateKey), InsertUserRole(user, PlainUser),
     InsertToken(Confirmation, id, Token(OfUser(user), None, expiresAt, None)), SendMail]
  }

  function IssueStatements(kind: Kind, owner: Owner, role: Option<Role>, id: TokenId, expiresAt: Time): seq<Statement> {
    [InvalidateActiveTokens(kind, owner), InsertToken(kind, id, Token(owner, role, expiresAt, None)), SendMail]
  }

  function ConfirmEmailStatements(id: TokenId, user: UserId): seq<Statement> {
    [MarkTokenUsed(Confirmation, id), TransitionUserStatus(user, Inactive, MailUnverified, ConsumeConflict)]
  }

  function ChangePasswordStatements(user: UserId, password: Hash): seq<Statement> {
    [UpdateUserPassword(user, password), RevokeRefreshTokensByUser(user, R.PasswordChanged)]
  }

  function ResetPasswordStatements(user: UserId, id: TokenId, password: Hash): seq<Statement> {
    [MarkTokenUsed(PasswordReset, id), InvalidateActiveTokens(PasswordReset, OfUser(user)),
     UpdateUserPassword(user, password), RevokeRefreshTokensByUser(user, R.PasswordChanged)]
  }

  function AcceptStatements(id: TokenId, email: Email, role: Role, password: Hash, user: UserId): seq<Statement> {
    [MarkTokenUsed(Invitation, id), InvalidateActiveTokens(Invitation, OfEmail(email)),
     InsertUser(user, email, password, Inactive, EmailAlreadyRegistered), InsertUserRole(user, role)]
  }

  function DisableStatements(user: UserId, isSuperAdmin: bool): seq<Statement> {
    (if isSuperAdmin then [LockActiveSuperAdmins] else [])
    + [TransitionUserStatus(user, Disabled, Inactive, AlreadyDisabled), RevokeRefreshTokensByUser(user, R.Reason.AccountDisabled)]
  }

  function FaultOf(statement: Statement, text: T.Message): Failure {
    if statement.SendMail? then MailError(text) else T.Database(text)
  }

  /** One statement, which fails if there is a fault and refuses if it must. */
  function One(statement: Statement, fault: Option<T.Message>, s: Store, now: Time): (Store, Option<Failure>) {
    if fault.Some? then (s, Some(FaultOf(statement, fault.value)))
    else
      var (s', result) := Perform(statement, s, now);
      (s', if result == Ok then None else Some(Refusal(result)))
  }

  /** The mails that a statement sends. */
  function Mails(statement: Statement, fault: Option<T.Message>): nat {
    if statement.SendMail? && fault.None? then 1 else 0
  }

  /** Runs the statements from number `k` on, up to the first that fails or refuses, and counts the mails sent. */
  function Execute(statements: seq<Statement>, faults: Faults, k: nat, s: Store, now: Time): (Store, Option<Failure>, nat)
    decreases |statements| - k
  {
    if k >= |statements| then (s, None, 0)
    else
      var (s', failure) := One(statements[k], faults(k), s, now);
      if failure.Some? then (s', failure, 0)
      else
        var (s'', failure', mails) := Execute(statements, faults, k + 1, s', now);
        (s'', failure', Mails(statements[k], faults(k)) + mails)
  }

  lemma ExecuteStep(statements: seq<Statement>, faults: Faults, k: nat, s: Store, now: Time, s': Store, failure: Option<Failure>)
    requires k < |statements| && !statements[k].SendMail? && (s', failure) == One(statements[k], faults(k), s, now)
    ensures Execute(statements, faults, k, s, now)
         == if failure.Some? then (s', failure, 0) else Execute(statements, faults, k + 1, s', now)
  {
  }

  /** What the statements from number `k` on do when none fails, up to the first refusal. */
  function PlanFrom(statements: seq<Statement>, k: nat, s: Store, now: Time): (Store, Result)
    decreases |statements| - k
  {
    if k >= |statements| then (s, Ok)
    else
      var (s', result) := Perform(statements[k], s, now);
      if result != Ok then (s', result) else PlanFrom(statements, k + 1, s', now)
  }

  /** All of the statements' effects, or a refusal and none of them. */
  function Plan(statements: seq<Statement>, s: Store, now: Time): (Store, Result) {
    var (s', result) := PlanFrom(statements, 0, s, now);
    (if result == Ok then s' else s, result)
  }

  /** The mail, if the list sends one, comes last. */
  predicate MailLast(statements: seq<Statement>) {
    forall k :: 0 <= k < |statements| && statements[k].SendMail? ==> k == |statements| - 1
  }

  /**
   An execution does what is planned, refuses for the reason that is planned, or is stopped by an error of
   the database or of the mailer. A mail fails only when all else has been done.
   */
  lemma {:induction false} ExecutedAsPlanned(statements: seq<Statement>, faults: Faults, k: nat, s: Store, now: Time)
    requires MailLast(statements)
    ensures var (s', failure, mails) := Execute(statements, faults, k, s, now);
            var (planned, result) := PlanFrom(statements, k, s, now);
            && (failure.None? ==> (planned, result) == (s', Ok))
            && (failure.Some? ==>
                  || failure.value.Database? || (result != Ok && failure.value == Refusal(result))
                  || (result == Ok && statements[|statements| - 1].SendMail? && exists text :: failure.value == MailError(text)))
            && ((forall j :: k <= j < |statements| ==> faults(j).None?) ==> failure == if result == Ok then None else Some(Refusal(result)))
    decreases |statements| - k
  {
    if k < |statements| {
      ExecutedAsPlanned(statements, faults, k + 1, Perform(statements[k], s, now).0, now);
    }
  }

  /** No planned statement refuses because of a mail. */
  lemma {:induction false} NoMailRefusal(statements: seq<Statement>, k: nat, s: Store, now: Time)
    requires forall j :: 0 <= j < |statements| ==> PlainRefusals(statements[j])
    ensures PlanFrom(statements, k, s, now).1 != MailNotSent
    decreases |statements| - k
  {
    if k < |statements| {
      NoMailRefusal(statements, k + 1, Perform(statements[k], s, now).0, now);
    }
  }

  predicate PlainRefusals(statement: Statement) {
    && (statement.InsertUser? ==> statement.taken != MailNotSent)
    && (statement.TransitionUserStatus? ==> statement.refusal != MailNotSent)
  }

  /** A mail is sent exactly by an execution that has it last and does not fail. */
  lemma {:induction false} MailedIff(statements: seq<Statement>, faults: Faults, k: nat, s: Store, now: Time)
    requires MailLast(statements) && k <= |statements|
    ensures var (_, failure, mails) := Execute(statements, faults, k, s, now);
            mails == if failure.None? && k < |statements| && statements[|statements| - 1].SendMail? then 1 else 0
    decreases |statements| - k
  {
    if k < |statements| {
      MailedIff(statements, faults, k + 1, Perform(statements[k], s, now).0, now);
    }
  }

  // ---- What the lists do, transaction by transaction ----

  lemma CreateUserPlan(s: Store, user: UserId, email: Email, password: Hash, id: TokenId, expiresAt: Time, now: Time)
    ensures Plan(CreateUserStatements(user, email, password, id, expiresAt), s, now)
         == CreateUserResult(s, user, email, password, id, expiresAt, true)
  {
    var statements := CreateUserStatements(user, email, password, id, expiresAt);
    var s1 := Perform(statements[0], s, now).0;
    assert user !in s.users && !s.EmailTaken(email) ==> PlanFrom(statements, 0, s, now) == PlanFrom(statements, 1, s1, now);
    var s2 := Perform(statements[1], s1, now).0;
    assert user !in s.users && !s.EmailTaken(email) ==> PlanFrom(statements, 1, s1, now) == PlanFrom(statements, 2, s2, now);
    var s3 := Perform(statements[2], s2, now).0;
    assert id !in s2.confirmations ==> PlanFrom(statements, 2, s2, now) == PlanFrom(statements, 3, s3, now);
    var s4 := Perform(statements[3], s3, now).0;
    assert PlanFrom(statements, 3, s3, now) == PlanFrom(statements, 4, s4, now);
    assert PlanFrom(statements, 4, s4, now) == (s4, Ok);
    assert {} + {PlainUser} == {PlainUser};
    assert user !in s.users && !s.EmailTaken(email) ==> s2.users == s.users[user := User(email, password, MailUnverified, {PlainUser}, false)];
  }

  lemma IssuePlan(s: Store, kind: Kind, owner: Owner, role: Option<Role>, id: TokenId, expiresAt: Time, now: Time)
    ensures Plan(IssueStatements(kind, owner, role, id, expiresAt), s, now)
         == IssueResult(s, kind, owner, role, id, expiresAt, ActiveIds(s.TableOf(kind), owner), now, true)
  {
    var statements := IssueStatements(kind, owner, role, id, expiresAt);
    var s1 := Perform(statements[0], s, now).0;
    assert PlanFrom(statements, 0, s, now) == PlanFrom(statements, 1, s1, now);
    var s2 := Perform(statements[1], s1, now).0;
    assert id !in s.TableOf(kind) ==> PlanFrom(statements, 1, s1, now) == PlanFrom(statements, 2, s2, now);
    var s3 := Perform(statements[2], s2, now).0;
    assert PlanFrom(statements, 2, s2, now) == PlanFrom(statements, 3, s3, now);
    assert PlanFrom(statements, 3, s3, now) == (s3, Ok);
  }

  lemma ConfirmEmailPlan(s: Store, id: TokenId, user: UserId, now: Time)
    ensures Plan(ConfirmEmailStatements(id, user), s, now) == ConfirmEmailResult(s, id, user, now)
  {
    var statements := ConfirmEmailStatements(id, user);
    var s1 := Perform(statements[0], s, now).0;
    assert s.HasActive(Confirmation, id) ==> PlanFrom(statements, 0, s, now) == PlanFrom(statements, 1, s1, now);
    var s2 := Perform(statements[1], s1, now).0;
    assert s1.Present(user) && s1.users[user].status == MailUnverified ==> PlanFrom(statements, 1, s1, now) == PlanFrom(statements, 2, s2, now);
    assert PlanFrom(statements, 2, s2, now) == (s2, Ok);
  }

  lemma ChangePasswordPlan(s: Store, user: UserId, password: Hash, now: Time)
    ensures Plan(ChangePasswordStatements(user, password), s, now)
         == ChangePasswordResult(s, user, password, R.UserIds(s.sessions, user), now)
  {
    var statements := ChangePasswordStatements(user, password);
    var s1 := Perform(statements[0], s, now).0;
    assert s.Present(user) ==> PlanFrom(statements, 0, s, now) == PlanFrom(statements, 1, s1, now);
    var s2 := Perform(statements[1], s1, now).0;
    assert PlanFrom(statements, 1, s1, now) == PlanFrom(statements, 2, s2, now);
    assert PlanFrom(statements, 2, s2, now) == (s2, Ok);
  }

  lemma ResetPasswordPlan(s: Store, user: UserId, id: TokenId, password: Hash, now: Time)
    ensures Plan(ResetPasswordStatements(user, id, password), s, now)
         == ResetPasswordResult(s, user, id, password, ActiveIds(s.resets, OfUser(user)), R.UserIds(s.sessions, user), now)
  {
    var statements := ResetPasswordStatements(user, id, password);
    UseThenSweep(s.resets, id, OfUser(user), now);
    var s1 := Perform(statements[0], s, now).0;
    assert s.HasActive(PasswordReset, id) ==> PlanFrom(statements, 0, s, now) == PlanFrom(statements, 1, s1, now);
    var s2 := Perform(statements[1], s1, now).0;
    assert PlanFrom(statements, 1, s1, now) == PlanFrom(statements, 2, s2, now);
    var s3 := Perform(statements[2], s2, now).0;
    assert s2.Present(user) ==> PlanFrom(statements, 2, s2, now) == PlanFrom(statements, 3, s3, now);
    var s4 := Perform(statements[3], s3, now).0;
    assert PlanFrom(statements, 3, s3, now) == PlanFrom(statements, 4, s4, now);
    assert PlanFrom(statements, 4, s4, now) == (s4, Ok);
  }

  lemma AcceptPlan(s: Store, id: TokenId, email: Email, role: Role, password: Hash, user: UserId, now: Time)
    ensures Plan(AcceptStatements(id, email, role, password, user), s, now)
         == AcceptResult(s, id, email, role, password, user, ActiveIds(s.invitations, OfEmail(email)), now)
  {
    var statements := AcceptStatements(id, email, role, password, user);
    if s.HasActive(Invitation, id) {
      var s1 := Perform(statements[0], s, now).0;
      var s2 := Perform(statements[1], s1, now).0;
      UseThenSweep(s.invitations, id, OfEmail(email), now);
      assert PlanFrom(statements, 0, s, now) == PlanFrom(statements, 1, s1, now);
      assert PlanFrom(statements, 1, s1, now) == PlanFrom(statements, 2, s2, now);
      assert s2.users == s.users;
      if !s.EmailTaken(email) && user !in s.users {
        var s3 := Perform(statements[2], s2, now).0;
        var s4 := Perform(statements[3], s3, now).0;
        assert {} + {role} == {role};
        assert s4.users == s.users[user := User(email, password, Inactive, {role}, false)];
        assert PlanFrom(statements, 2, s2, now) == PlanFrom(statements, 3, s3, now);
        assert PlanFrom(statements, 3, s3, now) == PlanFrom(statements, 4, s4, now) == (s4, Ok);
      }
    }
  }

  lemma DisablePlan(s: Store, user: UserId, isSuperAdmin: bool, now: Time)
    ensures Plan(DisableStatements(user, isSuperAdmin), s, now)
         == DisableResult(s, user, isSuperAdmin, ActiveSupers(s.users), R.UserIds(s.sessions, user), now)
  {
    var statements, k := DisableStatements(user, isSuperAdmin), if isSuperAdmin then 1 else 0;
    assert statements[k] == TransitionUserStatus(user, Disabled, Inactive, AlreadyDisabled);
    var s1 := Perform(statements[k], s, now).0;
    var s2 := Perform(statements[k + 1], s1, now).0;
    assert isSuperAdmin && |ActiveSupers(s.users)| >= 2 ==> PlanFrom(statements, 0, s, now) == PlanFrom(statements, 1, s, now);
    assert s.Present(user) && s.users[user].status == Inactive ==> PlanFrom(statements, k, s, now) == PlanFrom(statements, k + 1, s1, now);
    assert PlanFrom(statements, k + 1, s1, now) == PlanFrom(statements, k + 2, s2, now) == (s2, Ok);
  }
}
