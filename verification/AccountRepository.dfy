/**
 The repository's transactions as they are sent to the database, and its methods, which run them in the
 transaction wrapper: any statement, begin, rollback or commit can fail, and others commit between attempts.
 */
module AccountRepository {
  import opened Basics
  import opened Domain
  import opened OneTimeTokens
  import opened AccountStore
  import opened AccountStatements
  import R = RefreshTokens
  import T = Transactions

  /** A transaction: its working copy of the store, how many statements it has sent, and how many mails. */
  class Transaction {
    const now: Time
    const faults: Faults
    var s: Store
    var sent: nat
    var mails: nat

    constructor (s: Store, now: Time, faults: Faults)
      ensures this.s == s && this.now == now && this.faults == faults && sent == 0 && mails == 0
    {
      this.s := s;
      this.now := now;
      this.faults := faults;
      this.sent := 0;
      this.mails := 0;
    }

    /** Sends the next statement: the database may answer with an error. */
    method Send() returns (error: Option<Failure>)
      modifies this`sent
      ensures sent == old(sent) + 1
      ensures error == if faults(old(sent)).Some? then Some(T.Database(faults(old(sent)).value)) else None
    {
      var fault := faults(sent);
      sent := sent + 1;
      if fault.Some? {
        return Some(T.Database(fault.value));
      }
      return None;
    }

    /** Inserts the account; `taken` is the answer to a violation of the unique email. */
    method InsertUser(user: UserId, email: Email, password: Hash, status: Status, taken: Result) returns (error: Option<Failure>)
      requires taken != Ok
      modifies this`s, this`sent
      ensures sent == old(sent) + 1
      ensures (s, error) == One(Statement.InsertUser(user, email, password, status, taken), faults(old(sent)), old(s), now)
    {
      error := Send();
      if error.Some? {
        return;
      }
      if s.EmailTaken(email) {
        return Some(Refusal(taken));
      }
      if user in s.users {
        return Some(Refusal(DuplicateKey));
      }
      s := s.(users := s.users[user := User(email, password, status, {}, false)]);
    }

    method InsertUserRole(user: UserId, role: Role) returns (error: Option<Failure>)
      modifies this`s, this`sent
      ensures sent == old(sent) + 1
      ensures (s, error) == One(Statement.InsertUserRole(user, role), faults(old(sent)), old(s), now)
    {
      error := Send();
      if error.Some? {
        return;
      }
      if user !in s.users {
        return Some(Refusal(UserMissing));
      }
      s := s.(users := s.users[user := s.users[user].(roles := s.users[user].roles + {role})]);
    }

    method InsertToken(kind: Kind, id: TokenId, token: Token) returns (error: Option<Failure>)
      modifies this`s, this`sent
      ensures sent == old(sent) + 1
      ensures (s, error) == One(Statement.InsertToken(kind, id, token), faults(old(sent)), old(s), now)
    {
      error := Send();
      if error.Some? {
        return;
      }
      if id in s.TableOf(kind) {
        return Some(Refusal(DuplicateKey));
      }
      s := s.With(kind, s.TableOf(kind)[id := token]);
    }

    method UpdateUserPassword(user: UserId, password: Hash) returns (affected: nat, error: Option<Failure>)
      modifies this`s, this`sent
      ensures sent == old(sent) + 1
      ensures error.Some? ==> faults(old(sent)).Some? && error.value == T.Database(faults(old(sent)).value) && s == old(s)
      ensures error.None? ==> faults(old(sent)).None? && affected == if old(s).Present(user) then 1 else 0
      ensures error.None? ==>
        s == if affected == 0 then old(s) else old(s).(users := old(s).users[user := old(s).users[user].(password := password)])
    {
      affected := 0;
      error := Send();
      if error.None? && s.Present(user) {
        s := s.(users := s.users[user := s.users[user].(password := password)]);
        affected := 1;
      }
    }

    method TransitionUserStatus(user: UserId, to: Status, from: Status) returns (affected: nat, error: Option<Failure>)
      modifies this`s, this`sent
      ensures sent == old(sent) + 1
      ensures error.Some? ==> faults(old(sent)).Some? && error.value == T.Database(faults(old(sent)).value) && s == old(s)
      ensures error.None? ==>
        faults(old(sent)).None? && affected == if old(s).Present(user) && old(s).users[user].status == from then 1 else 0
      ensures error.None? ==>
        s == if affected == 0 then old(s) else old(s).(users := old(s).users[user := old(s).users[user].(status := to)])
    {
      affected := 0;
      error := Send();
      if error.None? && s.Present(user) && s.users[user].status == from {
        s := s.(users := s.users[user := s.users[user].(status := to)]);
        affected := 1;
      }
    }

    method MarkTokenUsed(kind: Kind, id: TokenId) returns (affected: nat, error: Option<Failure>)
      modifies this`s, this`sent
      ensures sent == old(sent) + 1
      ensures error.Some? ==> faults(old(sent)).Some? && error.value == T.Database(faults(old(sent)).value) && s == old(s)
      ensures error.None? ==> faults(old(sent)).None? && affected == if old(s).HasActive(kind, id) then 1 else 0
      ensures error.None? ==> s == if affected == 0 then old(s) else old(s).With(kind, UseAll(old(s).TableOf(kind), {id}, now))
    {
      affected := 0;
      error := Send();
      if error.None? && s.HasActive(kind, id) {
        var table := s.TableOf(kind);
        assert table[id := table[id].(usedAt := Some(now))] == UseAll(table, {id}, now);
        s := s.With(kind, table[id := table[id].(usedAt := Some(now))]);
        affected := 1;
      }
    }

    method InvalidateActiveTokens(kind: Kind, owner: Owner) returns (error: Option<Failure>)
      modifies this`s, this`sent
      ensures sent == old(sent) + 1
      ensures (s, error) == One(Statement.InvalidateActiveTokens(kind, owner), faults(old(sent)), old(s), now)
    {
      error := Send();
      if error.Some? {
        return;
      }
      var table := s.TableOf(kind);
      var swept := map id | id in table ::
        if table[id].owner == owner && table[id].usedAt.None? then table[id].(usedAt := Some(now)) else table[id];
      assert swept == UseAll(table, ActiveIds(table, owner), now);
      s := s.With(kind, swept);
    }

    method RevokeRefreshTokensByUser(user: UserId, reason: R.Reason) returns (error: Option<Failure>)
      modifies this`s, this`sent
      ensures sent == old(sent) + 1
      ensures (s, error) == One(Statement.RevokeRefreshTokensByUser(user, reason), faults(old(sent)), old(s), now)
    {
      error := Send();
      if error.Some? {
        return;
      }
      var sessions := map id | id in s.sessions ::
        if s.sessions[id].user == user && s.sessions[id].revocation.None?
        then s.sessions[id].(revocation := Some(R.Revocation(now, Some(reason)))) else s.sessions[id];
      assert sessions == R.RevokeIn(s.sessions, R.UserIds(s.sessions, user), now, Some(reason));
      s := s.(sessions := sessions);
    }

    /** The active super_admins, in ascending order, each once. */
    method LockActiveSuperAdmins() returns (ids: seq<UserId>, error: Option<Failure>)
      modifies this`sent
      ensures sent == old(sent) + 1
      ensures error == if faults(old(sent)).Some? then Some(T.Database(faults(old(sent)).value)) else None
      ensures error.None? ==> forall u :: u in ids <==> IsActiveSuper(s.users, u)
      ensures error.None? ==> forall i, j :: 0 <= i < j < |ids| ==> ids[i] < ids[j]
      ensures error.None? ==> |ids| == |ActiveSupers(s.users)|
    {
      HasSuperAdminIff(s.users);
      ids := [];
      error := Send();
      if error.Some? {
        return;
      }
      var rest := ActiveSupers(s.users);
      while rest != {}
        invariant sent == old(sent) + 1 && rest <= ActiveSupers(s.users)
        invariant forall u :: u in ids <==> u in ActiveSupers(s.users) - rest
        invariant forall i, j :: 0 <= i < j < |ids| ==> ids[i] < ids[j]
        invariant forall u, v :: u in ids && v in rest ==> u < v
        invariant |ids| == |ActiveSupers(s.users)| - |rest|
      {
        ghost var least := LeastMember(rest);
        var next :| next in rest && forall v :: v in rest ==> next <= v;
        forall i | 0 <= i < |ids| ensures ids[i] < next {
          assert ids[i] in ids;
        }
        ids := ids + [next];
        rest := rest - {next};
      }
    }

    /** The callback that sends the mail: an error of the mailer is told apart. */
    method SendMail() returns (error: Option<Failure>)
      modifies this`sent, this`mails
      ensures sent == old(sent) + 1 && mails == old(mails) + Mails(Statement.SendMail, faults(old(sent)))
      ensures (s, error) == One(Statement.SendMail, faults(old(sent)), s, now)
    {
      var fault := faults(sent);
      sent := sent + 1;
      if fault.Some? {
        return Some(MailError(fault.value));
      }
      mails := mails + 1;
      return None;
    }

    // ---- The bodies ----

    method ConfirmPasswordReset(user: UserId, id: TokenId, password: Hash) returns (error: Option<Failure>)
      requires sent == 0 && mails == 0
      modifies this
      ensures (s, error, mails) == Execute(ResetPasswordStatements(user, id, password), faults, 0, old(s), now)
    {
      ghost var statements, s0 := ResetPasswordStatements(user, id, password), s;
      var rows;
      rows, error := MarkTokenUsed(PasswordReset, id);
      if error.Some? {
        return;
      }
      if rows == 0 {
        return Some(Refusal(ConsumeConflict));
      }
      assert Execute(statements, faults, 0, s0, now) == Execute(statements, faults, 1, s, now);
      ghost var s1 := s;
      error := InvalidateActiveTokens(PasswordReset, OfUser(user));
      if error.Some? {
        return;
      }
      assert Execute(statements, faults, 1, s1, now) == Execute(statements, faults, 2, s, now);
      ghost var s2 := s;
      rows, error := UpdateUserPassword(user, password);
      if error.Some? {
        return;
      }
      if rows == 0 {
        return Some(Refusal(UserMissing));
      }
      assert Execute(statements, faults, 2, s2, now) == Execute(statements, faults, 3, s, now);
      ghost var s3 := s;
      error := RevokeRefreshTokensByUser(user, R.PasswordChanged);
      assert Execute(statements, faults, 3, s3, now) == (s, error, mails);
    }

    method CreateUser(user: UserId, email: Email, password: Hash, id: TokenId, expiresAt: Time) returns (error: Option<Failure>)
      requires sent == 0 && mails == 0
      modifies this
      ensures (s, error, mails) == Execute(CreateUserStatements(user, email, password, id, expiresAt), faults, 0, old(s), now)
    {
      ghost var statements, s0 := CreateUserStatements(user, email, password, id, expiresAt), s;
      error := InsertUser(user, email, password, MailUnverified, DuplicateKey);
      if error.Some? {
        return;
      }
      assert Execute(statements, faults, 0, s0, now) == Execute(statements, faults, 1, s, now);
      ghost var s1 := s;
      error := InsertUserRole(user, PlainUser);
      if error.Some? {
        return;
      }
      assert Execute(statements, faults, 1, s1, now) == Execute(statements, faults, 2, s, now);
      ghost var s2 := s;
      error := InsertToken(Confirmation, id, Token(OfUser(user), None, expiresAt, None));
      if error.Some? {
        return;
      }
      assert Execute(statements, faults, 2, s2, now) == Execute(statements, faults, 3, s, now);
      ghost var s3 := s;
      error := SendMail();
      assert Execute(statements, faults, 3, s3, now) == (s, error, mails);
    }

    method IssueToken(kind: Kind, owner: Owner, role: Option<Role>, id: TokenId, expiresAt: Time) returns (error: Option<Failure>)
      requires sent == 0 && mails == 0
      modifies this
      ensures (s, error, mails) == Execute(IssueStatements(kind, owner, role, id, expiresAt), faults, 0, old(s), now)
    {
      ghost var statements, s0 := IssueStatements(kind, owner, role, id, expiresAt), s;
      error := InvalidateActiveTokens(kind, owner);
      if error.Some? {
        return;
      }
      assert Execute(statements, faults, 0, s0, now) == Execute(statements, faults, 1, s, now);
      ghost var s1 := s;
      error := InsertToken(kind, id, Token(owner, role, expiresAt, None));
      if error.Some? {
        return;
      }
      assert Execute(statements, faults, 1, s1, now) == Execute(statements, faults, 2, s, now);
      ghost var s2 := s;
      error := SendMail();
      assert Execute(statements, faults, 2, s2, now) == (s, error, mails);
    }

    method ConsumeEmailConfirmationToken(id: TokenId, user: UserId) returns (error: Option<Failure>)
      requires sent == 0 && mails == 0
      modifies this
      ensures (s, error, mails) == Execute(ConfirmEmailStatements(id, user), faults, 0, old(s), now)
    {
      ghost var statements, s0 := ConfirmEmailStatements(id, user), s;
      var rows;
      rows, error := MarkTokenUsed(Confirmation, id);
      if error.Some? {
        return;
      }
      if rows == 0 {
        return Some(Refusal(ConsumeConflict));
      }
      assert Execute(statements, faults, 0, s0, now) == Execute(statements, faults, 1, s, now);
      ghost var s1 := s;
      rows, error := TransitionUserStatus(user, Inactive, MailUnverified);
      if error.Some? {
        return;
      }
      if rows == 0 {
        return Some(Refusal(ConsumeConflict));
      }
      assert Execute(statements, faults, 1, s1, now) == (s, error, mails);
    }

    method ChangePassword(user: UserId, password: Hash) returns (error: Option<Failure>)
      requires sent == 0 && mails == 0
      modifies this
      ensures (s, error, mails) == Execute(ChangePasswordStatements(user, password), faults, 0, old(s), now)
    {
      ghost var statements, s0 := ChangePasswordStatements(user, password), s;
      var rows;
      rows, error := UpdateUserPassword(user, password);
      if error.Some? {
        return;
      }
      if rows == 0 {
        return Some(Refusal(UserMissing));
      }
      assert Execute(statements, faults, 0, s0, now) == Execute(statements, faults, 1, s, now);
      ghost var s1 := s;
      error := RevokeRefreshTokensByUser(user, R.PasswordChanged);
      assert Execute(statements, faults, 1, s1, now) == (s, error, mails);
    }

    method AcceptInvitation(id: TokenId, email: Email, role: Role, password: Hash, user: UserId) returns (error: Option<Failure>)
      requires sent == 0 && mails == 0
      modifies this
      ensures (s, error, mails) == Execute(AcceptStatements(id, email, role, password, user), faults, 0, old(s), now)
    {
      ghost var statements, s0 := AcceptStatements(id, email, role, password, user), s;
      var rows;
      rows, error := MarkTokenUsed(Invitation, id);
      if error.Some? {
        return;
      }
      if rows == 0 {
        return Some(Refusal(ConsumeConflict));
      }
      assert Execute(statements, faults, 0, s0, now) == Execute(statements, faults, 1, s, now);
      ghost var s1 := s;
      error := InvalidateActiveTokens(Invitation, OfEmail(email));
      if error.Some? {
        return;
      }
      assert Execute(statements, faults, 1, s1, now) == Execute(statements, faults, 2, s, now);
      ghost var s2 := s;
      error := InsertUser(user, email, password, Inactive, EmailAlreadyRegistered);
      if error.Some? {
        return;
      }
      assert Execute(statements, faults, 2, s2, now) == Execute(statements, faults, 3, s, now);
      ghost var s3 := s;
      error := InsertUserRole(user, role);
      assert Execute(statements, faults, 3, s3, now) == (s, error, mails);
    }

    method DisableAccount(user: UserId, isSuperAdmin: bool) returns (error: Option<Failure>)
      requires sent == 0 && mails == 0
      modifies this
      ensures (s, error, mails) == Execute(DisableStatements(user, isSuperAdmin), faults, 0, old(s), now)
    {
      ghost var statements, k, s0 := DisableStatements(user, isSuperAdmin), if isSuperAdmin then 1 else 0, s;
      if isSuperAdmin {
        var active;
        active, error := LockActiveSuperAdmins();
        if error.Some? {
          return;
        }
        if |active| <= 1 {
          return Some(Refusal(LastSuperAdmin));
        }
      }
      assert sent == k && s == s0 && Execute(statements, faults, 0, s0, now) == Execute(statements, faults, k, s0, now);
      assert statements[k] == Statement.TransitionUserStatus(user, Disabled, Inactive, AlreadyDisabled);
      var rows;
      rows, error := TransitionUserStatus(user, Disabled, Inactive);
      ExecuteStep(statements, faults, k, s0, now, s, if error.None? && rows == 0 then Some(Refusal(AlreadyDisabled)) else error);
      if error.Some? {
        return;
      }
      if rows == 0 {
        return Some(Refusal(AlreadyDisabled));
      }
      ghost var s1 := s;
      error := RevokeRefreshTokensByUser(user, R.Reason.AccountDisabled);
      assert Execute(statements, faults, k + 1, s1, now) == (s, error, mails);
    }
  }

  // ---- Repository methods ----

  /** What surrounds the attempts of one call, and which statements fail in each. */
  datatype Conditions = Conditions(weather: nat -> T.Weather<Store>, faults: nat -> Faults)

  /** Nobody else commits before the first attempt, and nothing fails in it. */
  ghost predicate Calm(c: Conditions) {
    var w := c.weather(0);
    && (forall s :: w.others(s) == s) && w.begin.None? && w.rollback.None? && w.commit.None?
    && forall k :: c.faults(0)(k).None?
  }

  /** The store that some attempt finds: what others have made of it by then. */
  ghost predicate FoundByAttempt(c: Conditions, s: Store, found: Store) {
    exists i: nat :: i < T.MAX_TRIES && T.Found(c.weather, s, i) == found
  }

  /**
   All or nothing: without an error the store is exactly what is planned on the store the last attempt found;
   with an error it is what that attempt found, and a refusal is the planned one.
   */
  ghost predicate Atomic(found: Store, after: Store, error: Option<Failure>, planned: (Store, Result)) {
    if error.None? then planned == (after, Ok)
    else after == found && (T.Cause(error.value).Some? ==> planned.1 == T.Cause(error.value).value != Ok)
  }

  function ErrorOf(result: Result): Option<Failure> { if result == Ok then None else Some(Refusal(result)) }

  /** A call that began on store `s`: atomic on what some attempt found, and just as planned when all is calm. */
  ghost predicate Ran(c: Conditions, s: Store, found: Store, after: Store, error: Option<Failure>, planned: (Store, Result)) {
    && FoundByAttempt(c, s, found) && Atomic(found, after, error, planned)
    && (Calm(c) ==> found == s && error == ErrorOf(planned.1) && !MailFailed(error))
  }

  /** The body that runs the statements of a transaction. */
  function BodyOf(statements: seq<Statement>, now: Time, c: Conditions): T.Body<Store, Result> {
    (i, s) => Execute(statements, c.faults(i), 0, s, now)
  }

  /** Attempt `i` of a call that began on store `s` gets through all its statements. */
  predicate Completes(statements: seq<Statement>, now: Time, c: Conditions, s: Store, i: nat) {
    c.weather(i).begin.None? && Execute(statements, c.faults(i), 0, T.Found(c.weather, s, i), now).1.None?
  }

  function Completing(statements: seq<Statement>, now: Time, c: Conditions, s: Store, n: nat): set<nat> {
    set i: nat | i < n && Completes(statements, now, c, s, i)
  }

  /** A call with a mail ran `tries` attempts and sent `mails` mails: one in each attempt that got through the mail. */
  ghost predicate Mailed(statements: seq<Statement>, now: Time, c: Conditions, s: Store, tries: nat, error: Option<Failure>, mails: int) {
    && T.RanTo(BodyOf(statements, now, c), c.weather, s, tries, error)
    && mails == |Completing(statements, now, c, s, tries)|
  }

  lemma MailsOfAttempt(statements: seq<Statement>, now: Time, c: Conditions, s: Store, i: nat)
    requires MailLast(statements) && statements != []
    ensures T.Attempted(BodyOf(statements, now, c), i, c.weather(i), T.Found(c.weather, s, i)).2
         == if statements[|statements| - 1].SendMail? && Completes(statements, now, c, s, i) then 1 else 0
  {
    MailedIff(statements, c.faults(i), 0, T.Found(c.weather, s, i), now);
  }

  lemma {:induction false} MailsAddUp(statements: seq<Statement>, now: Time, c: Conditions, s: Store, n: nat)
    requires MailLast(statements) && statements != []
    ensures T.Effects(BodyOf(statements, now, c), c.weather, s, n)
         == if statements[|statements| - 1].SendMail? then |Completing(statements, now, c, s, n)| else 0
  {
    if n > 0 {
      MailsAddUp(statements, now, c, s, n - 1);
      MailsOfAttempt(statements, now, c, s, n - 1);
      var before, after := Completing(statements, now, c, s, n - 1), Completing(statements, now, c, s, n);
      assert after == if Completes(statements, now, c, s, n - 1) then before + {n - 1} else before;
    }
  }

  function Planned(statements: seq<Statement>, found: Store, now: Time, error: Option<Failure>): (Store, Result) {
    if MailFailed(error) then (found, MailNotSent) else Plan(statements, found, now)
  }

  /** No statement but the mail is refused because of a mail. */
  predicate Plain(statements: seq<Statement>) {
    statements != [] && MailLast(statements) && forall k :: 0 <= k < |statements| ==> PlainRefusals(statements[k])
  }

  lemma LastAttemptAtomic(statements: seq<Statement>, now: Time, c: Conditions, s: Store, tries: nat, error: Option<Failure>, after: Store)
    requires Plain(statements) && T.RanTo(BodyOf(statements, now, c), c.weather, s, tries, error)
    requires var found := T.Found(c.weather, s, tries - 1);
             after == if error.None? then BodyOf(statements, now, c)(tries - 1, found).0 else found
    ensures var found := T.Found(c.weather, s, tries - 1);
            && (MailFailed(error) ==> Plan(statements, found, now).1 == Ok && statements[|statements| - 1].SendMail?)
            && Atomic(found, after, error, Planned(statements, found, now, error))
  {
    var found := T.Found(c.weather, s, tries - 1);
    ExecutedAsPlanned(statements, c.faults(tries - 1), 0, found, now);
    NoMailRefusal(statements, 0, found, now);
    var failure := Execute(statements, c.faults(tries - 1), 0, found, now).1;
    assert error.Some? ==> T.Cause(error.value).None? || (failure.Some? && T.Cause(error.value) == T.Cause(failure.value));
  }

  lemma CalmAttempt(statements: seq<Statement>, now: Time, c: Conditions, s: Store, tries: nat, error: Option<Failure>)
    requires Plain(statements) && T.RanTo(BodyOf(statements, now, c), c.weather, s, tries, error)
    ensures Calm(c) ==> tries == 1 && T.Found(c.weather, s, 0) == s && error == ErrorOf(Plan(statements, s, now).1) && !MailFailed(error)
  {
    if Calm(c) {
      ExecutedAsPlanned(statements, c.faults(0), 0, s, now);
      NoMailRefusal(statements, 0, s, now);
      RefusalsAreFinal(Plan(statements, s, now).1);
      assert T.AttemptError(BodyOf(statements, now, c), c.weather, s, 0) == ErrorOf(Plan(statements, s, now).1);
      T.RetriedIff(BodyOf(statements, now, c), c.weather, s, tries, error, 0);
    }
  }

  class UserRepository {
    const db: T.Store<Store>

    constructor (db: T.Store<Store>)
      ensures this.db == db
    {
      this.db := db;
    }

    /** Runs the statements of a transaction in the wrapper; `found` is what the last attempt found. */
    method UpdateInTx(statements: seq<Statement>, now: Time, c: Conditions)
        returns (error: Option<Failure>, ghost found: Store, ghost tries: nat)
      requires Plain(statements)
      modifies db
      ensures MailFailed(error) ==> Plan(statements, found, now).1 == Ok && statements[|statements| - 1].SendMail?
      ensures Ran(c, old(db.committed), found, db.committed, error, Planned(statements, found, now, error))
      ensures if statements[|statements| - 1].SendMail?
              then Mailed(statements, now, c, old(db.committed), tries, error, db.outside - old(db.outside))
              else db.outside == old(db.outside)
    {
      var attempts;
      error, attempts := db.UpdateInTx(BodyOf(statements, now, c), c.weather);
      tries := attempts;
      found := T.Found(c.weather, old(db.committed), tries - 1);
      MailsAddUp(statements, now, c, old(db.committed), tries);
      LastAttemptAtomic(statements, now, c, old(db.committed), tries, error, db.committed);
      CalmAttempt(statements, now, c, old(db.committed), tries, error);
    }

    method FindUserByEmail(email: Email) returns (user: Option<UserId>)
      requires EmailsUnique(db.committed)
      ensures user == UserByEmail(db.committed, email)
    {
      if !db.committed.EmailTaken(email) {
        return None;
      }
      var u :| u in db.committed.users && db.committed.Present(u) && db.committed.users[u].email == email;
      return Some(u);
    }

    method GetUser(user: UserId) returns (row: Option<User>)
      ensures row == if db.committed.Present(user) then Some(db.committed.users[user]) else None
    {
      row := if db.committed.Present(user) then Some(db.committed.users[user]) else None;
    }

    method GetUserRoles(user: UserId) returns (roles: seq<Role>)
      requires user in db.committed.users
      ensures forall role :: role in roles <==> role in db.committed.users[user].roles
    {
      roles := [];
      var rest := db.committed.users[user].roles;
      while rest != {}
        invariant forall role :: role in db.committed.users[user].roles <==> role in roles || role in rest
      {
        var role :| role in rest;
        roles := roles + [role];
        rest := rest - {role};
      }
    }

    method GetTokenByHash(kind: Kind, id: TokenId) returns (row: Option<Token>)
      ensures row == if id in db.committed.TableOf(kind) then Some(db.committed.TableOf(kind)[id]) else None
    {
      row := if id in db.committed.TableOf(kind) then Some(db.committed.TableOf(kind)[id]) else None;
    }

    method CreateUser(user: UserId, email: Email, password: Hash, id: TokenId, expiresAt: Time, now: Time, c: Conditions)
        returns (error: Option<Failure>, ghost found: Store, ghost tries: nat)
      modifies db
      ensures Ran(c, old(db.committed), found, db.committed, error,
          CreateUserResult(found, user, email, password, id, expiresAt, !MailFailed(error)))
      ensures Mailed(CreateUserStatements(user, email, password, id, expiresAt), now, c, old(db.committed), tries, error,
                     db.outside - old(db.outside))
    {
      error, found, tries := UpdateInTx(CreateUserStatements(user, email, password, id, expiresAt), now, c);
      CreateUserPlan(found, user, email, password, id, expiresAt, now);
    }

    /** Issues a reset, invitation or confirmation token in place of the owner's active ones. */
    method IssueToken(kind: Kind, owner: Owner, role: Option<Role>, id: TokenId, expiresAt: Time, now: Time, c: Conditions)
        returns (error: Option<Failure>, ghost found: Store, ghost tries: nat)
      modifies db
      ensures Ran(c, old(db.committed), found, db.committed, error,
          IssueResult(found, kind, owner, role, id, expiresAt, ActiveIds(found.TableOf(kind), owner), now, !MailFailed(error)))
      ensures Mailed(IssueStatements(kind, owner, role, id, expiresAt), now, c, old(db.committed), tries, error,
                     db.outside - old(db.outside))
    {
      error, found, tries := UpdateInTx(IssueStatements(kind, owner, role, id, expiresAt), now, c);
      IssuePlan(found, kind, owner, role, id, expiresAt, now);
    }

    method ConsumeEmailConfirmationToken(id: TokenId, user: UserId, now: Time, c: Conditions) returns (error: Option<Failure>, ghost found: Store)
      modifies db
      ensures Ran(c, old(db.committed), found, db.committed, error, ConfirmEmailResult(found, id, user, now))
    {
      ghost var tries;
      error, found, tries := UpdateInTx(ConfirmEmailStatements(id, user), now, c);
      ConfirmEmailPlan(found, id, user, now);
    }

    method ChangePassword(user: UserId, password: Hash, now: Time, c: Conditions) returns (error: Option<Failure>, ghost found: Store)
      modifies db
      ensures Ran(c, old(db.committed), found, db.committed, error, 
          ChangePasswordResult(found, user, password, R.UserIds(found.sessions, user), now))
    {
      ghost var tries;
      error, found, tries := UpdateInTx(ChangePasswordStatements(user, password), now, c);
      ChangePasswordPlan(found, user, password, now);
    }

    method ConfirmPasswordReset(user: UserId, id: TokenId, password: Hash, now: Time, c: Conditions) returns (error: Option<Failure>, ghost found: Store)
      modifies db
      ensures Ran(c, old(db.committed), found, db.committed, error, 
          ResetPasswordResult(found, user, id, password, ActiveIds(found.resets, OfUser(user)), R.UserIds(found.sessions, user), now))
    {
      ghost var tries;
      error, found, tries := UpdateInTx(ResetPasswordStatements(user, id, password), now, c);
      ResetPasswordPlan(found, user, id, password, now);
    }

    method AcceptInvitation(id: TokenId, email: Email, role: Role, password: Hash, user: UserId, now: Time, c: Conditions) returns (error: Option<Failure>, ghost found: Store)
      modifies db
      ensures Ran(c, old(db.committed), found, db.committed, error, 
          AcceptResult(found, id, email, role, password, user, ActiveIds(found.invitations, OfEmail(email)), now))
    {
      ghost var tries;
      error, found, tries := UpdateInTx(AcceptStatements(id, email, role, password, user), now, c);
      AcceptPlan(found, id, email, role, password, user, now);
    }

    method DisableAccount(user: UserId, isSuperAdmin: bool, now: Time, c: Conditions) returns (error: Option<Failure>, ghost found: Store)
      modifies db
      ensures Ran(c, old(db.committed), found, db.committed, error, 
          DisableResult(found, user, isSuperAdmin, ActiveSupers(found.users), R.UserIds(found.sessions, user), now))
    {
      ghost var tries;
      error, found, tries := UpdateInTx(DisableStatements(user, isSuperAdmin), now, c);
      DisablePlan(found, user, isSuperAdmin, now);
    }

    /** A single statement, outside the wrapper. */
    method ReactivateAccount(user: UserId, c: Conditions) returns (error: Option<Failure>, ghost found: Store)
      modifies db
      ensures Ran(c, old(db.committed), found, db.committed, error, ReactivateResult(found, user))
    {
      db.committed := c.weather(0).others(db.committed);
      found := db.committed;
      assert found == T.Found(c.weather, old(db.committed), 0);
      var fault := c.faults(0)(0);
      if fault.Some? {
        return Some(T.Database(fault.value)), found;
      }
      var s := db.committed;
      if !s.Present(user) || s.users[user].status != Disabled {
        return Some(Refusal(NotDisabled)), found;
      }
      db.committed := s.(users := s.users[user := s.users[user].(status := Inactive)]);
      return None, found;
    }
  }
}
