/**
 Disabling an account under snapshot transactions.

 PostgreSQL is reduced to what the protection of the last super_admin relies on: a repeatable-read
 snapshot per attempt, row locks held until the attempt ends, a serialization failure when a row was
 changed after the snapshot, and a retry with a new snapshot.
 */
module SuperAdminGuard {
  import opened Basics
  import opened Domain

  const MAX_TRIES: nat := 10

  /** A committed version of a row of auth.users, with its roles; `version` counts the updates of the row. */
  datatype Row = Row(status: Status, roles: set<Role>, deleted: bool, version: nat)

  type Users = map<UserId, Row>
  type RequestId = nat

  predicate IsActiveSuper(row: Row) {
    SuperAdmin in row.roles && row.status == Inactive && !row.deleted
  }

  function ActiveSupers(users: Users): set<UserId> {
    set u | u in users && IsActiveSuper(users[u])
  }

  datatype Outcome = NotFound | NotAdmin | AlreadyDisabled | LastSuperAdmin | Success | RetriesExhausted | Failed

  /** Where one disable request stands. `held` is the set of rows its transaction has locked. */
  datatype Request =
    | Arrived(target: UserId)
    | Waiting(target: UserId, isSuper: bool, tries: nat)
    | Locking(target: UserId, isSuper: bool, snap: Users, held: set<UserId>, tries: nat)
    | Updating(target: UserId, isSuper: bool, snap: Users, held: set<UserId>, tries: nat)
    | Committing(target: UserId, isSuper: bool, snap: Users, held: set<UserId>, tries: nat)
    | Finished(outcome: Outcome)
  {
    predicate InTransaction() { Locking? || Updating? || Committing? }

    function Held(): set<UserId> { if InTransaction() then held else {} }
  }

  datatype State = State(users: Users, requests: map<RequestId, Request>)

  /** No transaction other than that of request `t` holds the lock on `row`. */
  predicate Free(s: State, row: UserId, t: RequestId) {
    forall r :: r in s.requests && r != t ==> row !in s.requests[r].Held()
  }

  predicate Unlocked(s: State, row: UserId) {
    forall r :: r in s.requests ==> row !in s.requests[r].Held()
  }

  datatype Action =
    | Arrive(t: RequestId, target: UserId)
    | Read(t: RequestId)
    | Begin(t: RequestId)
    | Lock(t: RequestId, row: UserId)
    | Count(t: RequestId)
    | Update(t: RequestId)
    | Commit(t: RequestId)
    | Conflict(t: RequestId)                     // serialization failure while revoking refresh tokens
    | Fail(t: RequestId)                         // any other error, at any point
    | Reactivate(user: UserId)
    | Confirm(user: UserId)                      // mail_unverified to inactive
    | Touch(user: UserId)                        // another update of the row, such as a password change
    | Create(user: UserId, status: Status, roles: set<Role>)

  /** Row `row` comes next in the ordered locking of the active super_admins of the snapshot. */
  predicate NextToLock(r: Request, row: UserId)
    requires r.Locking?
  {
    && row in ActiveSupers(r.snap) - r.held
    && forall x :: x in ActiveSupers(r.snap) && x < row ==> x in r.held
  }

  predicate Enabled(s: State, a: Action) {
    match a
    case Arrive(t, _) => t !in s.requests
    case Read(t) => t in s.requests && s.requests[t].Arrived?
    case Begin(t) => t in s.requests && s.requests[t].Waiting?
    case Lock(t, row) =>
      && t in s.requests && s.requests[t].Locking? && row in s.users
      && NextToLock(s.requests[t], row)
      && Free(s, row, t)
    case Count(t) =>
      t in s.requests && s.requests[t].Locking? && ActiveSupers(s.requests[t].snap) <= s.requests[t].held
    case Update(t) =>
      t in s.requests && s.requests[t].Updating? && (NothingToUpdate(s.requests[t]) || Free(s, s.requests[t].target, t))
    case Commit(t) => t in s.requests && s.requests[t].Committing? && s.requests[t].target in s.users
    case Conflict(t) => t in s.requests && s.requests[t].Committing?
    case Fail(t) => t in s.requests && !s.requests[t].Finished?
    case Reactivate(user) => user in s.users && s.users[user].status == Disabled && !s.users[user].deleted && Unlocked(s, user)
    case Confirm(user) => user in s.users && s.users[user].status == MailUnverified && !s.users[user].deleted && Unlocked(s, user)
    case Touch(user) => user in s.users && Unlocked(s, user)
    case Create(user, status, _) => user !in s.users && status in {MailUnverified, Inactive}
  }

  /** The guarded update matches no row of the snapshot. */
  predicate NothingToUpdate(r: Request)
    requires r.InTransaction()
  {
    r.target !in r.snap || r.snap[r.target].status != Inactive || r.snap[r.target].deleted
  }

  /** The checks made before the transaction, on the roles and status read without a lock. */
  function AfterRead(users: Users, target: UserId): Request {
    if target !in users || users[target].deleted then Finished(NotFound)
    else if !exists role :: role in users[target].roles && IsAdminRole(role) then Finished(NotAdmin)
    else if users[target].status == Disabled then Finished(AlreadyDisabled)
    else Waiting(target, SuperAdmin in users[target].roles, 1)
  }

  /** A serialization failure: roll back and try again, at most MAX_TRIES attempts in all. */
  function Retry(r: Request): Request
    requires r.InTransaction()
  {
    if r.tries >= MAX_TRIES then Finished(RetriesExhausted) else Waiting(r.target, r.isSuper, r.tries + 1)
  }

  predicate SameVersion(users: Users, snap: Users, row: UserId) {
    row in users && row in snap && users[row].version == snap[row].version
  }

  /** What an action of request `t` makes of that request. */
  function NextRequest(s: State, a: Action): Request
    requires Enabled(s, a) && !(a.Arrive? || a.Reactivate? || a.Confirm? || a.Touch? || a.Create?)
  {
    var r := s.requests[a.t];
    match a
    case Read(_) => AfterRead(s.users, r.target)
    case Begin(_) =>
      if r.isSuper then Locking(r.target, true, s.users, {}, r.tries)
      else Updating(r.target, false, s.users, {}, r.tries)
    case Lock(_, row) =>
      if SameVersion(s.users, r.snap, row) then r.(held := r.held + {row}) else Retry(r)
    case Count(_) =>
      if |r.held| <= 1 then Finished(LastSuperAdmin)
      else Updating(r.target, r.isSuper, r.snap, r.held, r.tries)
    case Update(_) =>
      if NothingToUpdate(r) then Finished(AlreadyDisabled)
      else if SameVersion(s.users, r.snap, r.target) then
        Committing(r.target, r.isSuper, r.snap, r.held + {r.target}, r.tries)
      else Retry(r)
    case Commit(_) => Finished(Success)
    case Conflict(_) => Retry(r)
    case Fail(_) => Finished(Failed)
  }

  function Bump(users: Users, user: UserId, status: Status): Users
    requires user in users
  {
    users[user := users[user].(status := status, version := users[user].version + 1)]
  }

  function Apply(s: State, a: Action): State
    requires Enabled(s, a)
  {
    match a
    case Arrive(t, target) => s.(requests := s.requests[t := Arrived(target)])
    case Reactivate(user) => s.(users := Bump(s.users, user, Inactive))
    case Confirm(user) => s.(users := Bump(s.users, user, Inactive))
    case Touch(user) => s.(users := Bump(s.users, user, s.users[user].status))
    case Create(user, status, roles) => s.(users := s.users[user := Row(status, roles, false, 0)])
    case Commit(t) =>
      State(Bump(s.users, s.requests[t].target, Disabled), s.requests[t := NextRequest(s, a)])
    case _ => s.(requests := s.requests[a.t := NextRequest(s, a)])
  }

  /** `trace` can be taken from `s` action by action. */
  predicate Possible(s: State, trace: seq<Action>)
    decreases |trace|
  {
    trace == [] || (Enabled(s, trace[0]) && Possible(Apply(s, trace[0]), trace[1..]))
  }

  function Run(s: State, trace: seq<Action>): State
    requires Possible(s, trace)
    decreases |trace|
  {
    if trace == [] then s else Run(Apply(s, trace[0]), trace[1..])
  }

  // ---- What every step keeps ----

  /** `snap` was the committed table at some earlier time. */
  ghost predicate Earlier(snap: Users, users: Users) {
    forall u :: u in snap ==>
      && u in users
      && users[u].roles == snap[u].roles
      && snap[u].version <= users[u].version
      && (snap[u].version == users[u].version ==> users[u] == snap[u])
  }

  ghost predicate HeldRowsUnchanged(users: Users, r: Request)
    requires r.InTransaction()
  {
    forall u :: u in r.held ==> SameVersion(users, r.snap, u)
  }

  ghost predicate TransactionInv(users: Users, r: Request)
    requires r.InTransaction()
  {
    && r.target in r.snap && Earlier(r.snap, users) && HeldRowsUnchanged(users, r)
    && (r.isSuper <==> SuperAdmin in r.snap[r.target].roles)
    && match r
       case Locking(_, _, _, _, _) =>
         && r.isSuper && r.held <= ActiveSupers(r.snap)
         && forall x, y :: x in r.held && y in ActiveSupers(r.snap) - r.held ==> x < y
       case Updating(_, _, _, _, _) =>
         if r.isSuper then r.held == ActiveSupers(r.snap) && |r.held| >= 2 else r.held == {}
       case Committing(_, _, _, _, _) =>
         && r.target in r.held && !NothingToUpdate(r)
         && (r.isSuper ==> r.held == ActiveSupers(r.snap) && |r.held| >= 2)
         && (!r.isSuper ==> r.held == {r.target})
  }

  ghost predicate RequestInv(users: Users, r: Request) {
    && (r.Waiting? ==> r.target in users && (r.isSuper <==> SuperAdmin in users[r.target].roles))
    && (r.InTransaction() ==> TransactionInv(users, r))
    && (r.Waiting? || r.InTransaction() ==> 1 <= r.tries <= MAX_TRIES)
  }

  ghost predicate LocksExclusive(s: State) {
    forall t, t' :: t in s.requests && t' in s.requests && t != t' ==> s.requests[t].Held() !! s.requests[t'].Held()
  }

  ghost predicate Inv(s: State) {
    && LocksExclusive(s)
    && forall t :: t in s.requests ==> RequestInv(s.users, s.requests[t])
  }

  /** Changing a row that a request has not locked, or adding one, keeps what is known of the request. */
  lemma RowChangeKeepsRequest(users: Users, users': Users, user: UserId, r: Request)
    requires RequestInv(users, r) && user !in r.Held()
    requires users'.Keys == users.Keys + {user}
    requires forall u :: u in users && u != user ==> users'[u] == users[u]
    requires user in users ==> users'[user].roles == users[user].roles && users'[user].version > users[user].version
    ensures RequestInv(users', r)
  {
  }

  predicate IsOwnStep(a: Action) {
    a.Read? || a.Begin? || a.Lock? || a.Count? || a.Update? || a.Conflict? || a.Fail?
  }

  lemma LockKeepsRequest(s: State, a: Action)
    requires Inv(s) && Enabled(s, a) && a.Lock?
    ensures RequestInv(s.users, NextRequest(s, a))
    ensures NextRequest(s, a).Held() <= s.requests[a.t].Held() + {a.row}
  {
    var r := s.requests[a.t];
    assert RequestInv(s.users, r);
    if SameVersion(s.users, r.snap, a.row) {
      var r' := NextRequest(s, a);
      assert r' == Locking(r.target, r.isSuper, r.snap, r.held + {a.row}, r.tries);
      forall x, y | x in r'.held && y in ActiveSupers(r'.snap) - r'.held ensures x < y {
        assert y in ActiveSupers(r.snap) - r.held;
      }
    }
  }

  lemma UpdateKeepsRequest(s: State, a: Action)
    requires Inv(s) && Enabled(s, a) && a.Update?
    ensures RequestInv(s.users, NextRequest(s, a))
    ensures NextRequest(s, a).Held() <= s.requests[a.t].Held() + {s.requests[a.t].target}
    ensures NextRequest(s, a).Held() == {} || Free(s, s.requests[a.t].target, a.t)
  {
    var r := s.requests[a.t];
    assert RequestInv(s.users, r);
    if !NothingToUpdate(r) && r.isSuper {
      assert r.target in ActiveSupers(r.snap);
      assert r.held + {r.target} == r.held;
    }
  }

  lemma OtherStepKeepsRequest(s: State, a: Action)
    requires Inv(s) && Enabled(s, a) && IsOwnStep(a) && !a.Lock? && !a.Update?
    ensures RequestInv(s.users, NextRequest(s, a))
    ensures NextRequest(s, a).Held() <= s.requests[a.t].Held()
  {
    assert RequestInv(s.users, s.requests[a.t]);
    if a.Count? {
      assert s.requests[a.t].held == ActiveSupers(s.requests[a.t].snap);
    }
  }

  lemma ReplaceKeepsInv(s: State, t: RequestId, r: Request)
    requires Inv(s) && t in s.requests && RequestInv(s.users, r)
    requires forall u :: u in r.Held() ==> Free(s, u, t)
    ensures Inv(s.(requests := s.requests[t := r]))
  {
    forall t' | t' in s.requests && t' != t ensures r.Held() !! s.requests[t'].Held() {
      forall u | u in r.Held() ensures u !in s.requests[t'].Held() {
        assert Free(s, u, t);
      }
    }
  }

  lemma OwnRowsFree(s: State, t: RequestId, u: UserId)
    requires Inv(s) && t in s.requests && u in s.requests[t].Held()
    ensures Free(s, u, t)
  {
  }

  lemma OwnStepKeepsInv(s: State, a: Action)
    requires Inv(s) && Enabled(s, a) && IsOwnStep(a)
    ensures Inv(Apply(s, a))
  {
    var r := NextRequest(s, a);
    match a {
      case Lock(_, _) => LockKeepsRequest(s, a);
      case Update(_) => UpdateKeepsRequest(s, a);
      case _ => OtherStepKeepsRequest(s, a);
    }
    forall u | u in r.Held() ensures Free(s, u, a.t) {
      if u in s.requests[a.t].Held() {
        OwnRowsFree(s, a.t, u);
      }
    }
    ReplaceKeepsInv(s, a.t, r);
    assert Apply(s, a) == s.(requests := s.requests[a.t := r]);
  }

  /** A committed change of one unlocked row, or a new row, keeps the invariant. */
  lemma TableChangeKeepsInv(s: State, users': Users, user: UserId)
    requires Inv(s) && Unlocked(s, user)
    requires users'.Keys == s.users.Keys + {user}
    requires forall u :: u in s.users && u != user ==> users'[u] == s.users[u]
    requires user in s.users ==> users'[user].roles == s.users[user].roles && users'[user].version > s.users[user].version
    ensures Inv(State(users', s.requests))
  {
    forall t | t in s.requests ensures RequestInv(users', s.requests[t]) {
      RowChangeKeepsRequest(s.users, users', user, s.requests[t]);
    }
  }

  lemma NewRowIsUnlocked(s: State, user: UserId)
    requires Inv(s) && user !in s.users
    ensures Unlocked(s, user)
  {
    forall t | t in s.requests ensures user !in s.requests[t].Held() {
      assert RequestInv(s.users, s.requests[t]);
    }
  }

  lemma CommitKeepsInv(s: State, t: RequestId)
    requires Inv(s) && Enabled(s, Commit(t))
    ensures Inv(Apply(s, Commit(t)))
  {
    var target := s.requests[t].target;
    var done := State(s.users, s.requests[t := Finished(Success)]);
    assert RequestInv(s.users, s.requests[t]);
    assert Inv(done);
    assert Unlocked(done, target);
    TableChangeKeepsInv(done, Bump(s.users, target, Disabled), target);
  }

  /** Every action of every request, and of every other writer of the table, keeps the invariant. */
  lemma StepKeepsInv(s: State, a: Action)
    requires Inv(s) && Enabled(s, a)
    ensures Inv(Apply(s, a))
  {
    match a {
      case Arrive(t, target) =>
      case Reactivate(user) => TableChangeKeepsInv(s, Bump(s.users, user, Inactive), user);
      case Confirm(user) => TableChangeKeepsInv(s, Bump(s.users, user, Inactive), user);
      case Touch(user) => TableChangeKeepsInv(s, Bump(s.users, user, s.users[user].status), user);
      case Create(user, status, roles) =>
        NewRowIsUnlocked(s, user);
        TableChangeKeepsInv(s, s.users[user := Row(status, roles, false, 0)], user);
      case Commit(t) => CommitKeepsInv(s, t);
      case _ => OwnStepKeepsInv(s, a);
    }
  }

  // ---- The protection ----

  /** The rows a transaction counted are still active when it commits, and its target is one of them. */
  lemma CountedRowsStillActive(s: State, t: RequestId)
    requires Inv(s) && t in s.requests && s.requests[t].Committing? && s.requests[t].isSuper
    ensures s.requests[t].held <= ActiveSupers(s.users)
    ensures s.requests[t].target in s.requests[t].held && |s.requests[t].held| >= 2
  {
    var r := s.requests[t];
    assert RequestInv(s.users, r);
    forall u | u in r.held ensures u in ActiveSupers(s.users) {
      assert SameVersion(s.users, r.snap, u);
    }
  }

  lemma StepKeepsASuperAdmin(s: State, a: Action)
    requires Inv(s) && Enabled(s, a) && ActiveSupers(s.users) != {}
    ensures ActiveSupers(Apply(s, a).users) != {}
  {
    var s' := Apply(s, a);
    if a.Commit? {
      var r := s.requests[a.t];
      assert RequestInv(s.users, r);
      if r.isSuper {
        CountedRowsStillActive(s, a.t);
        OthersRemain(r.held, r.target);
        var other :| other in r.held - {r.target};
        assert other in ActiveSupers(s'.users);
      } else {
        assert r.target !in ActiveSupers(s.users);
        assert ActiveSupers(s.users) <= ActiveSupers(s'.users);
      }
    } else {
      var u :| u in ActiveSupers(s.users);
      assert u in ActiveSupers(s'.users);
    }
  }

  /**
   Under every interleaving of disables, reactivations, confirmations, other updates and new accounts,
   once there is an active super_admin there is one in every later state.
   */
  lemma NeverWithoutSuperAdmin(s: State, trace: seq<Action>)
    requires Inv(s) && Possible(s, trace) && HasSuperAdmin(s.users)
    ensures Inv(Run(s, trace)) && HasSuperAdmin(Run(s, trace).users)
  {
    HasSuperAdminIff(s.users);
    AlwaysActiveSupers(s, trace);
    HasSuperAdminIff(Run(s, trace).users);
  }

  lemma {:induction false} AlwaysActiveSupers(s: State, trace: seq<Action>)
    requires Inv(s) && Possible(s, trace) && ActiveSupers(s.users) != {}
    ensures Inv(Run(s, trace)) && ActiveSupers(Run(s, trace).users) != {}
    decreases |trace|
  {
    if trace != [] {
      StepKeepsInv(s, trace[0]);
      StepKeepsASuperAdmin(s, trace[0]);
      AlwaysActiveSupers(Apply(s, trace[0]), trace[1..]);
    }
  }

  /** Some account with the role is confirmed, enabled and not deleted. */
  predicate HasSuperAdmin(users: Users) {
    exists u :: u in users && SuperAdmin in users[u].roles && users[u].status == Inactive && !users[u].deleted
  }

  lemma HasSuperAdminIff(users: Users)
    ensures HasSuperAdmin(users) <==> ActiveSupers(users) != {}
  {
    if u :| u in users && SuperAdmin in users[u].roles && users[u].status == Inactive && !users[u].deleted {
      assert u in ActiveSupers(users);
    }
    if ActiveSupers(users) != {} {
      var u :| u in ActiveSupers(users);
      assert u in users && SuperAdmin in users[u].roles && users[u].status == Inactive && !users[u].deleted;
    }
  }

  // ---- Whom a disable is for ----

  predicate IsAdminRow(row: Row) { SuperAdmin in row.roles || Operator in row.roles || SystemAdmin in row.roles }

  /** A request goes on exactly for a present account with an admin role that is not disabled, and is told what it lacks otherwise. */
  lemma ReadDecides(s: State, t: RequestId)
    requires Enabled(s, Read(t))
    ensures var target, q' := s.requests[t].target, Apply(s, Read(t)).requests[t];
            var present := target in s.users && !s.users[target].deleted;
            && (q' == Finished(NotFound) <==> !present)
            && (q' == Finished(NotAdmin) <==> present && !IsAdminRow(s.users[target]))
            && (q' == Finished(AlreadyDisabled) <==> present && IsAdminRow(s.users[target]) && s.users[target].status == Disabled)
            && (q'.Waiting? <==> present && IsAdminRow(s.users[target]) && s.users[target].status != Disabled)
            && (q'.Waiting? ==> q' == Waiting(target, SuperAdmin in s.users[target].roles, 1))
  {
    assert IsAdminRole(SuperAdmin) && IsAdminRole(Operator) && IsAdminRole(SystemAdmin);
  }

  /** Every disabled account, and every target of a request past its reading, has an admin role. */
  ghost predicate OnlyAdmins(s: State) {
    && (forall u :: u in s.users && s.users[u].status == Disabled ==> IsAdminRow(s.users[u]))
    && forall t :: t in s.requests && (s.requests[t].Waiting? || s.requests[t].InTransaction()) ==>
         s.requests[t].target in s.users && IsAdminRow(s.users[s.requests[t].target])
  }

  lemma StepKeepsOnlyAdmins(s: State, a: Action)
    requires OnlyAdmins(s) && Enabled(s, a)
    ensures OnlyAdmins(Apply(s, a))
  {
    if a.Read? {
      ReadDecides(s, a.t);
    }
  }

  /** Under every interleaving only accounts with an admin role are disabled. */
  lemma {:induction false} OnlyAdminsAreDisabled(s: State, trace: seq<Action>)
    requires OnlyAdmins(s) && Possible(s, trace)
    ensures OnlyAdmins(Run(s, trace))
    decreases |trace|
  {
    if trace != [] {
      StepKeepsOnlyAdmins(s, trace[0]);
      OnlyAdminsAreDisabled(Apply(s, trace[0]), trace[1..]);
    }
  }

  /** A disable of a super_admin is refused as the last one exactly if its snapshot shows at most one that is active. */
  lemma CountDecides(s: State, t: RequestId)
    requires Inv(s) && Enabled(s, Count(t))
    ensures var q, q' := s.requests[t], Apply(s, Count(t)).requests[t];
            && Apply(s, Count(t)).users == s.users
            && (q' == Finished(LastSuperAdmin) <==> |ActiveSupers(q.snap)| <= 1)
            && (q'.Updating? <==> |ActiveSupers(q.snap)| >= 2)
  {
    assert RequestInv(s.users, s.requests[t]);
    assert s.requests[t].held == ActiveSupers(s.requests[t].snap);
  }

  function TriesOf(q: Request): nat { if q.Waiting? || q.InTransaction() then q.tries else 0 }

  /** Attempts are counted one by one, and a request gives up only when its tenth fails to serialize. */
  lemma TriesCountUp(s: State, a: Action, t: RequestId)
    requires Enabled(s, a) && t in s.requests && TriesOf(s.requests[t]) <= 10
    ensures var q, q' := s.requests[t], Apply(s, a).requests[t];
            && (TriesOf(q') > 0 && TriesOf(q') != TriesOf(q) ==> TriesOf(q') == TriesOf(q) + 1 <= 10)
            && (q != q' && q' == Finished(RetriesExhausted) ==> TriesOf(q) == 10)
            && (a.Conflict? && a.t == t ==> q' == if TriesOf(q) == 10 then Finished(RetriesExhausted)
                                                  else Waiting(q.target, q.isSuper, TriesOf(q) + 1))
  {
  }

  /** A disable that commits disables its target, which was active and present, and changes no other row. */
  lemma CommitDisables(s: State, t: RequestId)
    requires Inv(s) && Enabled(s, Commit(t))
    ensures var target, users' := s.requests[t].target, Apply(s, Commit(t)).users;
            && s.users[target].status == Inactive && !s.users[target].deleted
            && users'.Keys == s.users.Keys && users'[target].status == Disabled
            && users'[target].roles == s.users[target].roles && !users'[target].deleted
            && forall u :: u in s.users && u != target ==> users'[u] == s.users[u]
  {
    assert RequestInv(s.users, s.requests[t]);
  }

  /** A table that no request has touched yet satisfies the invariant. */
  lemma InitialInv(users: Users)
    ensures Inv(State(users, map[]))
  {
  }

  // ---- Ordered locking never deadlocks ----

  /** Request `t` has a step of its own, other than giving up, that it can take now. */
  ghost predicate CanProceed(s: State, t: RequestId) {
    || Enabled(s, Read(t)) || Enabled(s, Begin(t)) || Enabled(s, Count(t)) || Enabled(s, Update(t)) || Enabled(s, Commit(t))
    || exists row :: Enabled(s, Lock(t, row))
  }

  /** Request `t` waits for the lock on `row`. */
  ghost predicate WaitsFor(s: State, t: RequestId, row: UserId) {
    && t in s.requests && !Free(s, row, t)
    && ((s.requests[t].Locking? && NextToLock(s.requests[t], row))
        || (s.requests[t].Updating? && s.requests[t].target == row))
  }

  lemma ProceedsOrWaits(s: State, t: RequestId) returns (row: UserId)
    requires Inv(s) && t in s.requests && !s.requests[t].Finished?
    ensures CanProceed(s, t) || WaitsFor(s, t, row)
    ensures !CanProceed(s, t) && s.requests[t].Updating? ==> s.requests[t].held == {}
  {
    var r := s.requests[t];
    assert RequestInv(s.users, r);
    row := 0;
    match r {
      case Locking(_, _, _, _, _) =>
        var open := ActiveSupers(r.snap) - r.held;
        assert forall x :: x in ActiveSupers(r.snap) ==> x in open || x in r.held;
        if open == {} {
          assert Enabled(s, Count(t));
        } else {
          row := LeastMember(open);
          assert NextToLock(r, row);
          if Free(s, row, t) {
            assert Enabled(s, Lock(t, row));
          }
        }
      case Updating(_, _, _, _, _) =>
        row := r.target;
        if r.isSuper && !NothingToUpdate(r) {
          assert row in r.Held();
          assert Free(s, row, t);
        }
      case Committing(_, _, _, _, _) => assert Enabled(s, Commit(t));
      case Waiting(_, _, _) => assert Enabled(s, Begin(t));
      case Arrived(_) => assert Enabled(s, Read(t));
    }
  }

  /** Following the waits from request to request ends at one that can move: the awaited row only grows. */
  lemma {:induction false} ChaseWaits(s: State, t: RequestId, row: UserId, bound: nat) returns (mover: RequestId)
    requires Inv(s) && WaitsFor(s, t, row)
    requires forall u :: u in s.users ==> u < bound
    ensures mover in s.requests && !s.requests[mover].Finished? && CanProceed(s, mover)
    decreases bound - row
  {
    var holder :| holder in s.requests && holder != t && row in s.requests[holder].Held();
    assert RequestInv(s.users, s.requests[holder]);
    assert row in s.users;
    var row' := ProceedsOrWaits(s, holder);
    if CanProceed(s, holder) {
      mover := holder;
    } else {
      assert s.requests[holder].Locking?;
      mover := ChaseWaits(s, holder, row', bound);
    }
  }

  /**
   While some request is unfinished, some unfinished request can take a step of its own: the row locks of
   disables on users do not deadlock. LockOrder adds the locks of other transactions on the same rows.
   */
  lemma NoDeadlock(s: State, t: RequestId)
    requires Inv(s) && t in s.requests && !s.requests[t].Finished?
    ensures exists mover :: mover in s.requests && !s.requests[mover].Finished? && CanProceed(s, mover)
  {
    var row := ProceedsOrWaits(s, t);
    if !CanProceed(s, t) {
      var bound := UpperBound(s.users.Keys);
      var mover := ChaseWaits(s, t, row, bound);
    }
  }
}
