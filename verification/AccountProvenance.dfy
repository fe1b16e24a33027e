/**
 Where accounts, roles and sessions come from, over every run of the account use cases. A request reads,
 is planned, and its transaction commits at any later time, any number of times, against whatever the
 other requests have left by then.
 */
module AccountProvenance {
  import opened Basics
  import opened Domain
  import opened OneTimeTokens
  import opened AccountStore
  import opened AccountRequests
  import R = RefreshTokens

  datatype World = World(store: Store, pending: set<Call>)

  datatype Action =
    | Begin(request: Request, now: Time, verify: Verifier)
    | Finish(call: Call, moment: Moment)
    | Revoke(ids: set<R.TokenId>, now: Time, reason: Option<R.Reason>)   // logout, or a refresh that refuses

  const EMPTY := World(Store(map[], map[], map[], map[], map[]), {})

  ghost predicate Enabled(w: World, a: Action) {
    match a
    case Begin(request, now, verify) => PlanOf(w.store, now, request, verify).Proceed?
    case Finish(call, m) => call in w.pending && SnapshotOf(w.store, call, m)
    case Revoke(_, _, _) => true
  }

  ghost function Apply(w: World, a: Action): World
    requires Enabled(w, a)
  {
    match a
    case Begin(request, now, verify) => w.(pending := w.pending + {PlanOf(w.store, now, request, verify).call})
    case Finish(call, m) => w.(store := Commit(w.store, call, m).0)
    case Revoke(ids, now, reason) => w.(store := w.store.(sessions := R.RevokeIn(w.store.sessions, ids, now, reason)))
  }

  ghost predicate IsRun(w: World, run: seq<Action>)
    decreases |run|
  {
    run == [] || (Enabled(w, run[0]) && IsRun(Apply(w, run[0]), run[1..]))
  }

  ghost function After(w: World, run: seq<Action>): World
    requires IsRun(w, run)
    decreases |run|
  {
    if run == [] then w else After(Apply(w, run[0]), run[1..])
  }

  // ---- Invariants ----

  /** A used token of the owner, with the given role. */
  ghost predicate Spent(table: Table, id: TokenId, owner: Owner, role: Option<Role>) {
    id in table && table[id].usedAt.Some? && table[id].owner == owner && table[id].role == role
  }

  /** The account registered itself, has the plain role only, and was confirmed by a used token if it is past that. */
  ghost predicate SelfRegistered(s: Store, user: UserId)
    requires user in s.users
  {
    && s.users[user].roles == {PlainUser}
    && (s.users[user].status != MailUnverified ==> exists id :: Spent(s.confirmations, id, OfUser(user), None))
  }

  /** The account has exactly the admin role of a used invitation for its email. */
  ghost predicate Invited(s: Store, user: UserId)
    requires user in s.users
  {
    && s.users[user].status != MailUnverified
    && exists id, role :: Spent(s.invitations, id, OfEmail(s.users[user].email), Some(role))
                          && s.users[user].roles == {role} && IsAdminRole(role)
  }

  ghost predicate UsersHaveOrigin(s: Store) {
    forall u :: u in s.users ==>
      !s.users[u].deleted && s.users[u].status != Deleted && (SelfRegistered(s, u) || Invited(s, u))
  }

  ghost predicate InvitationsAreValid(s: Store) {
    forall id :: id in s.invitations ==>
      s.invitations[id].owner.OfEmail? && s.invitations[id].role.Some? && IsAdminRole(s.invitations[id].role.value)
  }

  ghost predicate PlainTokens(table: Table) {
    forall id :: id in table ==> table[id].owner.OfUser? && table[id].role.None?
  }

  ghost predicate PastConfirmation(s: Store, user: UserId) {
    user in s.users && s.users[user].status != MailUnverified
  }

  ghost predicate SessionsHaveOwners(s: Store) {
    forall id :: id in s.sessions ==> PastConfirmation(s, s.sessions[id].user)
  }

  /** What a handler has read and relies on still holds when its transaction runs. */
  ghost predicate StillTrue(s: Store, call: Call) {
    match call
    case IssueToken(kind, owner, role) =>
      if kind.Invitation? then owner.OfEmail? && role.Some? && IsAdminRole(role.value) else owner.OfUser? && role.None?
    case ConfirmEmail(token, user) => token in s.confirmations && s.confirmations[token].owner == OfUser(user)
    case Accept(token, email, role, _) =>
      token in s.invitations && s.invitations[token].owner == OfEmail(email) && s.invitations[token].role == Some(role)
    case Disable(user, isSuperAdmin) => user in s.users && (isSuperAdmin <==> SuperAdmin in s.users[user].roles)
    case OpenSession(user) => PastConfirmation(s, user)
    case Rotate(_, row) => PastConfirmation(s, row.user)
    case _ => true
  }

  ghost predicate StoreInv(s: Store) {
    && UsersHaveOrigin(s) && EmailsUnique(s) && InvitationsAreValid(s)
    && PlainTokens(s.confirmations) && PlainTokens(s.resets) && SessionsHaveOwners(s)
  }

  ghost predicate Inv(w: World) {
    StoreInv(w.store) && forall call :: call in w.pending ==> StillTrue(w.store, call)
  }

  // ---- One step ----

  predicate StatusMove(before: Status, after: Status) {
    || before == after
    || (before == MailUnverified && after == Inactive)
    || (before == Inactive && after == Disabled)
    || (before == Disabled && after == Inactive)
  }

  /** Accounts keep their email and roles, and change their status by allowed moves. */
  ghost predicate UsersMove(users: map<UserId, User>, users': map<UserId, User>) {
    forall u :: u in users ==>
      && u in users' && users'[u].email == users[u].email && users'[u].roles == users[u].roles
      && users'[u].deleted == users[u].deleted && StatusMove(users[u].status, users'[u].status)
  }

  /** One step of the store: no row of any table is removed or changes its identity. */
  ghost predicate Moves(s: Store, s': Store) {
    && UsersMove(s.users, s'.users)
    && Grows(s.confirmations, s'.confirmations) && Grows(s.resets, s'.resets) && Grows(s.invitations, s'.invitations)
    && R.Grows(s.sessions, s'.sessions)
  }

  /** Every transaction leaves the accounts alone, adds one, or replaces one along an allowed move. */
  lemma CommitUsers(s: Store, call: Call, m: Moment)
    ensures var users' := Commit(s, call, m).0.users;
            || users' == s.users
            || (exists user, row :: ReplacesUser(s.users, users', user, row))
  {
    var users' := Commit(s, call, m).0.users;
    match call {
      case Create(_, _) => assert users' == s.users || ReplacesUser(s.users, users', m.newUser, users'[m.newUser]);
      case Accept(_, _, _, _) => assert users' == s.users || ReplacesUser(s.users, users', m.newUser, users'[m.newUser]);
      case ConfirmEmail(_, user) => assert users' == s.users || ReplacesUser(s.users, users', user, users'[user]);
      case ResetPassword(_, user, _) => assert users' == s.users || ReplacesUser(s.users, users', user, users'[user]);
      case SetPassword(user, _) => assert users' == s.users || ReplacesUser(s.users, users', user, users'[user]);
      case Disable(user, _) => assert users' == s.users || ReplacesUser(s.users, users', user, users'[user]);
      case Reactivate(user) => assert users' == s.users || ReplacesUser(s.users, users', user, users'[user]);
      case IssueToken(_, _, _) =>
      case OpenSession(_) =>
      case Rotate(_, _) =>
    }
  }

  ghost predicate ReplacesUser(users: map<UserId, User>, users': map<UserId, User>, user: UserId, row: User) {
    && users' == users[user := row]
    && (user in users ==> row.email == users[user].email && row.roles == users[user].roles && row.deleted == users[user].deleted
                          && StatusMove(users[user].status, row.status))
  }

  lemma CommitMovesUsers(s: Store, call: Call, m: Moment)
    ensures UsersMove(s.users, Commit(s, call, m).0.users)
  {
    CommitUsers(s, call, m);
  }

  /** Which transactions write which token table, and how. */
  function TableAfter(table: Table, kind: Kind, call: Call, m: Moment): Table {
    match call
    case Create(_, _) => if kind.Confirmation? then table[m.newToken := Token(OfUser(m.newUser), None, m.expiresAt, None)] else table
    case IssueToken(k, owner, role) =>
      if kind == k then Issue(table, m.seen, m.newToken, Token(owner, role, m.expiresAt, None), m.now) else table
    case ConfirmEmail(token, _) => if kind.Confirmation? then UseAll(table, {token}, m.now) else table
    case ResetPassword(token, _, _) => if kind.PasswordReset? then UseAll(table, m.seen + {token}, m.now) else table
    case Accept(token, _, _, _) => if kind.Invitation? then UseAll(table, m.seen + {token}, m.now) else table
    case _ => table
  }

  lemma CommitTables(s: Store, call: Call, m: Moment, kind: Kind)
    ensures var (s', result) := Commit(s, call, m);
            s'.TableOf(kind) == if result == Ok then TableAfter(s.TableOf(kind), kind, call, m) else s.TableOf(kind)
    ensures Commit(s, call, m).1 == Ok && (call.Create? || call.IssueToken?) && TableAfter(s.TableOf(kind), kind, call, m) != s.TableOf(kind)
            ==> m.newToken !in s.TableOf(kind)
  {
  }

  lemma CommitGrowsTokens(s: Store, call: Call, m: Moment, kind: Kind)
    ensures Grows(s.TableOf(kind), Commit(s, call, m).0.TableOf(kind))
  {
    CommitTables(s, call, m, kind);
  }

  lemma CommitGrowsSessions(s: Store, call: Call, m: Moment)
    ensures R.Grows(s.sessions, Commit(s, call, m).0.sessions)
  {
  }

  lemma CommitMoves(s: Store, call: Call, m: Moment)
    ensures Moves(s, Commit(s, call, m).0)
  {
    CommitMovesUsers(s, call, m);
    CommitGrowsSessions(s, call, m);
    CommitGrowsTokens(s, call, m, Confirmation);
    CommitGrowsTokens(s, call, m, PasswordReset);
    CommitGrowsTokens(s, call, m, Invitation);
  }

  /** What a handler relies on survives whatever anyone else commits. */
  lemma StillTrueAfterMoves(s: Store, s': Store, call: Call)
    requires StillTrue(s, call) && Moves(s, s')
    ensures StillTrue(s', call)
  {
  }

  lemma PlanIsTrue(s: Store, now: Time, request: Request, verify: Verifier)
    requires StoreInv(s) && PlanOf(s, now, request, verify).Proceed?
    ensures StillTrue(s, PlanOf(s, now, request, verify).call)
  {
  }

  /** An account that is unchanged keeps its origin. */
  lemma OriginKept(s: Store, s': Store, user: UserId)
    requires Moves(s, s') && user in s.users && (SelfRegistered(s, user) || Invited(s, user))
    requires s'.users[user].status == s.users[user].status || s.users[user].status != MailUnverified
    ensures SelfRegistered(s', user) || Invited(s', user)
  {
    if SelfRegistered(s, user) {
      if s.users[user].status != MailUnverified {
        var id :| Spent(s.confirmations, id, OfUser(user), None);
        assert Spent(s'.confirmations, id, OfUser(user), None);
      }
      assert SelfRegistered(s', user);
    } else {
      var id, role :| Spent(s.invitations, id, OfEmail(s.users[user].email), Some(role))
                      && s.users[user].roles == {role} && IsAdminRole(role);
      assert Spent(s'.invitations, id, OfEmail(s'.users[user].email), Some(role));
    }
  }

  /** An account that leaves mail_unverified has had its confirmation token used. */
  lemma ConfirmedHasOrigin(s: Store, call: Call, m: Moment, user: UserId)
    requires user in s.users && s.users[user].status == MailUnverified && (SelfRegistered(s, user) || Invited(s, user))
    requires StillTrue(s, call) && PlainTokens(s.confirmations)
    requires user in Commit(s, call, m).0.users && Commit(s, call, m).0.users[user].status != MailUnverified
    ensures SelfRegistered(Commit(s, call, m).0, user)
  {
    assert call.ConfirmEmail? && call.user == user;
    assert Spent(Commit(s, call, m).0.confirmations, call.token, OfUser(user), None);
  }

  lemma NewHasOrigin(s: Store, call: Call, m: Moment, user: UserId)
    requires user !in s.users && user in Commit(s, call, m).0.users
    requires StillTrue(s, call) && InvitationsAreValid(s)
    ensures SelfRegistered(Commit(s, call, m).0, user) || Invited(Commit(s, call, m).0, user)
  {
    if call.Accept? {
      assert Spent(Commit(s, call, m).0.invitations, call.token, OfEmail(call.email), Some(call.role));
    }
  }

  lemma CommitKeepsLiveness(s: Store, call: Call, m: Moment)
    requires forall u :: u in s.users ==> !s.users[u].deleted && s.users[u].status != Deleted
    ensures var users' := Commit(s, call, m).0.users;
            forall u :: u in users' ==> !users'[u].deleted && users'[u].status != Deleted
  {
  }

  lemma CommitKeepsOrigins(s: Store, call: Call, m: Moment)
    requires UsersHaveOrigin(s) && InvitationsAreValid(s) && PlainTokens(s.confirmations)
    requires StillTrue(s, call) && Moves(s, Commit(s, call, m).0)
    ensures UsersHaveOrigin(Commit(s, call, m).0)
  {
    var s' := Commit(s, call, m).0;
    CommitKeepsLiveness(s, call, m);
    forall u | u in s'.users ensures SelfRegistered(s', u) || Invited(s', u) {
      if u !in s.users {
        NewHasOrigin(s, call, m, u);
      } else if s'.users[u].status == s.users[u].status || s.users[u].status != MailUnverified {
        OriginKept(s, s', u);
      } else {
        ConfirmedHasOrigin(s, call, m, u);
      }
    }
  }

  lemma CommitKeepsEmails(s: Store, call: Call, m: Moment)
    requires EmailsUnique(s)
    ensures EmailsUnique(Commit(s, call, m).0)
  {
  }

  lemma CommitKeepsTables(s: Store, call: Call, m: Moment)
    requires InvitationsAreValid(s) && PlainTokens(s.confirmations) && PlainTokens(s.resets) && StillTrue(s, call)
    ensures var s' := Commit(s, call, m).0;
            InvitationsAreValid(s') && PlainTokens(s'.confirmations) && PlainTokens(s'.resets)
  {
    CommitTables(s, call, m, Confirmation);
    CommitTables(s, call, m, PasswordReset);
    CommitTables(s, call, m, Invitation);
  }

  /** Sessions keep their users; a new one belongs to the user of the login or of the rotated token. */
  lemma CommitSessions(s: Store, call: Call, m: Moment)
    ensures var sessions' := Commit(s, call, m).0.sessions;
            forall id :: id in sessions' ==>
              || (id in s.sessions && sessions'[id].user == s.sessions[id].user)
              || (call.OpenSession? && sessions'[id].user == call.user)
              || (call.Rotate? && sessions'[id].user == call.row.user)
  {
  }

  lemma CommitKeepsSessions(s: Store, call: Call, m: Moment)
    requires SessionsHaveOwners(s) && StillTrue(s, call) && UsersMove(s.users, Commit(s, call, m).0.users)
    ensures SessionsHaveOwners(Commit(s, call, m).0)
  {
    CommitSessions(s, call, m);
  }

  lemma CommitKeepsInv(s: Store, call: Call, m: Moment)
    requires StoreInv(s) && StillTrue(s, call)
    ensures StoreInv(Commit(s, call, m).0)
  {
    CommitMoves(s, call, m);
    CommitKeepsOrigins(s, call, m);
    CommitKeepsEmails(s, call, m);
    CommitKeepsTables(s, call, m);
    CommitKeepsSessions(s, call, m);
  }

  lemma StepKeepsInv(w: World, a: Action)
    requires Inv(w) && Enabled(w, a)
    ensures Inv(Apply(w, a)) && Moves(w.store, Apply(w, a).store)
  {
    var w' := Apply(w, a);
    match a {
      case Begin(request, now, verify) => PlanIsTrue(w.store, now, request, verify);
      case Finish(call, m) =>
        CommitMoves(w.store, call, m);
        CommitKeepsInv(w.store, call, m);
      case Revoke(ids, now, reason) =>
        R.RevokeGrows(w.store.sessions, ids, now, reason);
        forall u | u in w.store.users ensures SelfRegistered(w'.store, u) || Invited(w'.store, u) {
          OriginKept(w.store, w'.store, u);
        }
    }
    forall call | call in w.pending ensures StillTrue(w'.store, call) {
      StillTrueAfterMoves(w.store, w'.store, call);
    }
  }

  // ---- Every run ----

  /** The store before each of the first `i` actions of a run. */
  ghost function StoreAt(w: World, run: seq<Action>, i: nat): Store
    requires IsRun(w, run) && i <= |run|
    decreases i
  {
    if i == 0 then w.store else StoreAt(Apply(w, run[0]), run[1..], i - 1)
  }

  lemma {:induction false} RunKeepsInv(w: World, run: seq<Action>)
    requires IsRun(w, run) && Inv(w)
    ensures Inv(After(w, run))
    decreases |run|
  {
    if run != [] {
      StepKeepsInv(w, run[0]);
      RunKeepsInv(Apply(w, run[0]), run[1..]);
    }
  }

  /** Every step of every run moves statuses along the allowed edges only, and rewrites no identity. */
  lemma {:induction false} EveryStepMoves(w: World, run: seq<Action>, i: nat)
    requires IsRun(w, run) && Inv(w) && i < |run|
    ensures Moves(StoreAt(w, run, i), StoreAt(w, run, i + 1))
    decreases i
  {
    StepKeepsInv(w, run[0]);
    if i == 0 {
      assert StoreAt(w, run, 1) == StoreAt(Apply(w, run[0]), run[1..], 0);
    } else {
      EveryStepMoves(Apply(w, run[0]), run[1..], i - 1);
    }
  }

  /**
   From the empty store, after every run: no two accounts share an email; every session belongs to an
   account past its confirmation; every account that is past it was confirmed by a used token or created
   by a used invitation; and every admin role is the valid role of a used invitation for the account's email.
   */
  lemma Provenance(run: seq<Action>)
    requires IsRun(EMPTY, run)
    ensures var s := After(EMPTY, run).store;
            && (forall u, v :: u in s.users && v in s.users && s.users[u].email == s.users[v].email ==> u == v)
            && (forall id :: id in s.sessions ==> s.sessions[id].user in s.users && s.users[s.sessions[id].user].status in {Inactive, Disabled})
            && (forall u :: u in s.users && s.users[u].status != MailUnverified ==>
                  || (exists id :: Spent(s.confirmations, id, OfUser(u), None))
                  || (exists id, role :: Spent(s.invitations, id, OfEmail(s.users[u].email), Some(role))))
            && (forall u, role :: u in s.users && role in s.users[u].roles && role != PlainUser ==>
                  && IsAdminRole(role) && s.users[u].roles == {role}
                  && exists id :: Spent(s.invitations, id, OfEmail(s.users[u].email), Some(role)))
  {
    RunKeepsInv(EMPTY, run);
    var s := After(EMPTY, run).store;
    forall u, role | u in s.users && role in s.users[u].roles && role != PlainUser
      ensures IsAdminRole(role) && s.users[u].roles == {role}
              && exists id :: Spent(s.invitations, id, OfEmail(s.users[u].email), Some(role))
    {
      assert Invited(s, u);
      var id, role' :| Spent(s.invitations, id, OfEmail(s.users[u].email), Some(role'))
                       && s.users[u].roles == {role'} && IsAdminRole(role');
    }
    forall u | u in s.users && s.users[u].status != MailUnverified
      ensures (exists id :: Spent(s.confirmations, id, OfUser(u), None))
              || (exists id, role :: Spent(s.invitations, id, OfEmail(s.users[u].email), Some(role)))
    {
      assert SelfRegistered(s, u) || Invited(s, u);
    }
  }

  /** Roles and email of an account never change, and once past its confirmation it stays past it. */
  lemma {:induction false} IdentityIsFixed(w: World, run: seq<Action>, user: UserId)
    requires IsRun(w, run) && Inv(w) && user in w.store.users
    ensures var users' := After(w, run).store.users;
            && user in users' && users'[user].roles == w.store.users[user].roles && users'[user].email == w.store.users[user].email
            && (w.store.users[user].status != MailUnverified ==> users'[user].status != MailUnverified)
    decreases |run|
  {
    if run != [] {
      StepKeepsInv(w, run[0]);
      IdentityIsFixed(Apply(w, run[0]), run[1..], user);
    }
  }

  /**
   Once there is an active super_admin there always is one: what a disable has read of the roles still
   holds when it commits, so it counts whenever its target is a super_admin, and two that it has counted
   are two that are active.
   */
  lemma AlwaysASuperAdmin(w: World, run: seq<Action>)
    requires IsRun(w, run) && Inv(w) && HasSuperAdmin(w.store.users)
    ensures HasSuperAdmin(After(w, run).store.users)
  {
    HasSuperAdminIff(w.store.users);
    AlwaysActiveSupers(w, run);
    HasSuperAdminIff(After(w, run).store.users);
  }

  lemma {:induction false} AlwaysActiveSupers(w: World, run: seq<Action>)
    requires IsRun(w, run) && Inv(w) && ActiveSupers(w.store.users) != {}
    ensures ActiveSupers(After(w, run).store.users) != {}
    decreases |run|
  {
    if run != [] {
      StepKeepsASuperAdmin(w, run[0]);
      StepKeepsInv(w, run[0]);
      AlwaysActiveSupers(Apply(w, run[0]), run[1..]);
    }
  }

  lemma StepKeepsASuperAdmin(w: World, a: Action)
    requires Inv(w) && Enabled(w, a) && ActiveSupers(w.store.users) != {}
    ensures ActiveSupers(Apply(w, a).store.users) != {}
  {
    if a.Finish? {
      var users, users' := w.store.users, Apply(w, a).store.users;
      if a.call.Disable? {
        var user := a.call.user;
        assert user in ActiveSupers(users) ==> a.call.isSuperAdmin;
        if a.call.isSuperAdmin && |a.moment.counted| >= 2 {
          OthersRemain(a.moment.counted, user);
        }
        assert ActiveSupers(users) - {user} <= ActiveSupers(users');
        assert users' == users || ActiveSupers(users) - {user} != {};
      } else {
        CommitMovesUsers(w.store, a.call, a.moment);
        OnlyDisableDisables(w.store, a.call, a.moment);
        assert ActiveSupers(users) <= ActiveSupers(users');
      }
    }
  }

  lemma OnlyDisableDisables(s: Store, call: Call, m: Moment)
    requires !call.Disable?
    ensures forall u :: u in s.users && s.users[u].status == Inactive ==> Commit(s, call, m).0.users[u].status == Inactive
  {
    CommitMovesUsers(s, call, m);
  }

  // ---- The handlers, run alone ----

  /** The rows that the snapshot of a transaction that meets no other shows to its bulk updates. */
  function AllSeen(s: Store, call: Call, m: Moment): Moment {
    match call
    case IssueToken(kind, owner, _) => m.(seen := ActiveIds(s.TableOf(kind), owner))
    case ResetPassword(_, user, _) => m.(seen := ActiveIds(s.resets, OfUser(user)), sessions := R.UserIds(s.sessions, user))
    case SetPassword(user, _) => m.(sessions := R.UserIds(s.sessions, user))
    case Accept(_, email, _, _) => m.(seen := ActiveIds(s.invitations, OfEmail(email)))
    case Disable(user, _) => m.(sessions := R.UserIds(s.sessions, user), counted := ActiveSupers(s.users))
    case _ => m
  }

  /** What a request that meets no other leaves behind, and its answer. */
  ghost function Serve(s: Store, request: Request, verify: Verifier, m: Moment): (Store, Answer) {
    match PlanOf(s, m.now, request, verify)
    case Refuse(answer) => (s, answer)
    case Proceed(call) =>
      var (s', result) := Commit(s, call, AllSeen(s, call, m));
      (s', AnswerTo(result))
  }

  /** A request served alone is a run of two actions, so it keeps every invariant of the interleaved system. */
  lemma ServedAloneIsARun(w: World, request: Request, verify: Verifier, m: Moment) returns (run: seq<Action>)
    ensures IsRun(w, run) && After(w, run).store == Serve(w.store, request, verify, m).0
  {
    var plan := PlanOf(w.store, m.now, request, verify);
    if plan.Proceed? {
      var begin, finish := Begin(request, m.now, verify), Finish(plan.call, AllSeen(w.store, plan.call, m));
      run := [begin, finish];
      assert run[1..] == [finish] && run[1..][1..] == [];
      assert After(w, run) == After(Apply(w, begin), [finish]);
      assert After(Apply(w, begin), [finish]) == After(Apply(Apply(w, begin), finish), []);
    } else {
      run := [];
    }
  }

  // ---- The handlers, with others in between ----

  /** What the transaction of a request meets: a store, whether an error of the database ends it, and whether its mail is sent. */
  datatype Meeting = Meeting(found: Store, failed: bool, mailed: bool)

  /**
   A request planned on store `s`: it was refused and changed nothing, or its transaction did, on what it
   met, what is planned, or a database error ended it without effect.
   */
  ghost predicate Handled(s: Store, met: Meeting, after: Store, answer: Answer, request: Request, verify: Verifier, m: Moment) {
    match PlanOf(s, m.now, request, verify)
    case Refuse(refusal) => after == s && answer == refusal
    case Proceed(call) => Settled(met, after, answer, PlannedOn(met, call, m))
  }

  function PlannedOn(met: Meeting, call: Call, m: Moment): (Store, Result) {
    Commit(met.found, call, AllSeen(met.found, call, m.(mailed := met.mailed)))
  }

  predicate Settled(met: Meeting, after: Store, answer: Answer, planned: (Store, Result)) {
    if met.failed then after == met.found && answer == InternalError else after == planned.0 && answer == AnswerTo(planned.1)
  }

  lemma RefusedCommitsNothing(s: Store, call: Call, m: Moment)
    ensures Commit(s, call, m).1 != Ok ==> Commit(s, call, m).0 == s
  {
  }

  lemma {:induction false} PendingGrows(w: World, run: seq<Action>)
    requires IsRun(w, run)
    ensures w.pending <= After(w, run).pending
    decreases |run|
  {
    if run != [] {
      PendingGrows(Apply(w, run[0]), run[1..]);
    }
  }

  lemma {:induction false} RunsJoin(w: World, run: seq<Action>, more: seq<Action>)
    requires IsRun(w, run) && IsRun(After(w, run), more)
    ensures IsRun(w, run + more) && After(w, run + more) == After(After(w, run), more)
    decreases |run|
  {
    if run == [] {
      assert run + more == more;
    } else {
      assert (run + more)[1..] == run[1..] + more;
      RunsJoin(Apply(w, run[0]), run[1..], more);
    }
  }

  /**
   A handler whose transaction meets what any run of the others has made of the store since it read is
   itself a run of the system, whatever fails in it, so it keeps every invariant.
   */
  lemma HandledIsARun(w: World, others: seq<Action>, met: Meeting, after: Store, answer: Answer,
                      request: Request, verify: Verifier, m: Moment)
      returns (run: seq<Action>)
    requires var plan := PlanOf(w.store, m.now, request, verify);
             var begun := if plan.Proceed? then w.(pending := w.pending + {plan.call}) else w;
             IsRun(begun, others) && met.found == After(begun, others).store && Handled(w.store, met, after, answer, request, verify, m)
    ensures IsRun(w, run) && After(w, run).store == after
  {
    var plan := PlanOf(w.store, m.now, request, verify);
    if plan.Refuse? {
      return [];
    }
    var begin := Begin(request, m.now, verify);
    var begun := Apply(w, begin);
    var end := After(begun, others);
    assert ([begin] + others)[1..] == others;
    run := [begin] + others;
    assert IsRun(w, run) && After(w, run) == end;
    RefusedCommitsNothing(met.found, plan.call, AllSeen(met.found, plan.call, m.(mailed := met.mailed)));
    if answer == Accepted {
      PendingGrows(begun, others);
      var finish := Finish(plan.call, AllSeen(met.found, plan.call, m.(mailed := met.mailed)));
      assert IsRun(Apply(end, finish), []) && [finish][1..] == [];
      assert IsRun(end, [finish]) && After(end, [finish]) == Apply(end, finish);
      RunsJoin(w, run, [finish]);
      run := run + [finish];
    }
  }
}
