/** The outcome of disabling every active super_admin at the same time. */
module SuperAdminRace {
  import opened Basics
  import opened Domain
  import opened SuperAdminGuard

  /** Each active super_admin is the target of one disable request, named after it, that has just arrived. */
  ghost predicate RaceStart(s: State) {
    && s.requests.Keys == ActiveSupers(s.users)
    && forall t :: t in s.requests ==> s.requests[t] == Arrived(t)
  }

  /** No activation, no new account or request, and no failure other than a serialization failure. */
  predicate RaceAction(a: Action) {
    a.Read? || a.Begin? || a.Lock? || a.Count? || a.Update? || a.Commit? || a.Conflict? || a.Touch?
  }

  ghost predicate RaceTrace(trace: seq<Action>) {
    forall i :: 0 <= i < |trace| ==> RaceAction(trace[i])
  }

  function WithOutcome(s: State, outcome: Outcome): set<RequestId> {
    set t | t in s.requests && s.requests[t] == Finished(outcome)
  }

  ghost predicate AllFinished(s: State) {
    forall t :: t in s.requests ==> s.requests[t].Finished?
  }

  // ---- The invariant of the race ----

  ghost predicate ContenderInv(users: Users, t: RequestId, r: Request) {
    && t in users && SuperAdmin in users[t].roles && !users[t].deleted && users[t].status in {Inactive, Disabled}
    && (users[t].status == Disabled <==> r == Finished(Success))
    && (r.Finished? ==> r.outcome in {Success, LastSuperAdmin, RetriesExhausted})
    && (!r.Finished? ==> r.target == t)
    && (r.Waiting? || r.InTransaction() ==> r.isSuper)
    && (r.InTransaction() ==> ActiveSupers(users) <= ActiveSupers(r.snap))
    && (r == Finished(LastSuperAdmin) ==> ActiveSupers(users) == {t})
  }

  ghost predicate RaceInv(s: State) {
    && Inv(s)
    && ActiveSupers(s.users) <= s.requests.Keys
    && forall t :: t in s.requests ==> ContenderInv(s.users, t, s.requests[t])
  }

  lemma StartSatisfiesRaceInv(s: State)
    requires RaceStart(s)
    ensures RaceInv(s)
  {
  }

  lemma ActiveUnlessDisabled(s: State, t: RequestId)
    requires RaceInv(s) && t in s.requests && s.requests[t] != Finished(Success)
    ensures t in ActiveSupers(s.users)
  {
    assert ContenderInv(s.users, t, s.requests[t]);
  }

  lemma RaceOwnStep(s: State, a: Action)
    requires RaceInv(s) && Enabled(s, a) && RaceAction(a) && !a.Commit? && !a.Touch?
    ensures ContenderInv(s.users, a.t, NextRequest(s, a))
  {
    var r := s.requests[a.t];
    assert ContenderInv(s.users, a.t, r);
    assert RequestInv(s.users, r);
    ActiveUnlessDisabled(s, a.t);
    if a.Read? {
      RaceRead(s, a.t);
    } else if a.Count? {
      RaceCount(s, a.t);
    }
  }

  lemma RaceRead(s: State, t: RequestId)
    requires RaceInv(s) && Enabled(s, Read(t)) && t in ActiveSupers(s.users)
    ensures ContenderInv(s.users, t, NextRequest(s, Read(t)))
  {
    assert ContenderInv(s.users, t, s.requests[t]);
    assert SuperAdmin in s.users[t].roles && IsAdminRole(SuperAdmin);
  }

  lemma RaceCount(s: State, t: RequestId)
    requires RaceInv(s) && Enabled(s, Count(t)) && t in ActiveSupers(s.users)
    ensures ContenderInv(s.users, t, NextRequest(s, Count(t)))
  {
    var r := s.requests[t];
    assert ContenderInv(s.users, t, r);
    assert RequestInv(s.users, r);
    if |r.held| <= 1 {
      SingletonSet(r.held, t);
    }
  }

  lemma RaceCommit(s: State, t: RequestId)
    requires RaceInv(s) && Enabled(s, Commit(t))
    ensures RaceInv(Apply(s, Commit(t)))
  {
    var s' := Apply(s, Commit(t));
    StepKeepsInv(s, Commit(t));
    ActiveUnlessDisabled(s, t);
    assert ContenderInv(s.users, t, s.requests[t]);
    assert ActiveSupers(s'.users) <= ActiveSupers(s.users);
    forall t' | t' in s'.requests ensures ContenderInv(s'.users, t', s'.requests[t']) {
      assert ContenderInv(s.users, t', s.requests[t']);
    }
  }

  lemma RaceTouch(s: State, user: UserId)
    requires RaceInv(s) && Enabled(s, Touch(user))
    ensures RaceInv(Apply(s, Touch(user)))
  {
    StepKeepsInv(s, Touch(user));
    var users' := Apply(s, Touch(user)).users;
    assert ActiveSupers(users') == ActiveSupers(s.users);
    forall t | t in s.requests ensures ContenderInv(users', t, s.requests[t]) {
      assert ContenderInv(s.users, t, s.requests[t]);
    }
  }

  lemma RaceStep(s: State, a: Action)
    requires RaceInv(s) && Enabled(s, a) && RaceAction(a)
    ensures RaceInv(Apply(s, a)) && Apply(s, a).requests.Keys == s.requests.Keys
  {
    match a {
      case Commit(t) =>
        RaceCommit(s, t);
        assert t in s.requests;
      case Touch(user) => RaceTouch(s, user);
      case _ => RaceOther(s, a);
    }
  }

  lemma RaceOther(s: State, a: Action)
    requires RaceInv(s) && Enabled(s, a) && RaceAction(a) && !a.Commit? && !a.Touch?
    ensures RaceInv(Apply(s, a)) && Apply(s, a).requests.Keys == s.requests.Keys
  {
    StepKeepsInv(s, a);
    RaceOwnStep(s, a);
    assert Apply(s, a) == s.(requests := s.requests[a.t := NextRequest(s, a)]);
  }

  lemma {:induction false} RaceRun(s: State, trace: seq<Action>)
    requires RaceInv(s) && Possible(s, trace) && RaceTrace(trace)
    ensures RaceInv(Run(s, trace)) && Run(s, trace).requests.Keys == s.requests.Keys
    decreases |trace|
  {
    if trace != [] {
      RaceStep(s, trace[0]);
      RaceRun(Apply(s, trace[0]), trace[1..]);
    }
  }

  /** In a finished race without exhausted retries the refused requests are those of the surviving super_admins. */
  lemma FinishedRace(end: State)
    requires RaceInv(end) && AllFinished(end) && WithOutcome(end, RetriesExhausted) == {}
    ensures WithOutcome(end, LastSuperAdmin) == ActiveSupers(end.users)
    ensures WithOutcome(end, Success) == end.requests.Keys - ActiveSupers(end.users)
    ensures forall t :: t in ActiveSupers(end.users) ==> ActiveSupers(end.users) == {t}
  {
    forall t | t in end.requests
      ensures end.requests[t] == Finished(LastSuperAdmin) <==> t in ActiveSupers(end.users)
      ensures end.requests[t] == Finished(Success) <==> t !in ActiveSupers(end.users)
    {
      assert ContenderInv(end.users, t, end.requests[t]);
      assert t !in WithOutcome(end, RetriesExhausted);
    }
    forall t | t in ActiveSupers(end.users) ensures ActiveSupers(end.users) == {t} {
      assert ContenderInv(end.users, t, end.requests[t]);
    }
  }

  /**
   When the m >= 1 active super_admins are all disabled at the same time and every request finishes
   without exhausting its retries, exactly m - 1 requests succeed and exactly one is told that its
   target is the last super_admin, whatever the schedule.
   */
  lemma ExactlyOneIsRefused(s: State, trace: seq<Action>)
    requires RaceStart(s) && ActiveSupers(s.users) != {}
    requires Possible(s, trace) && RaceTrace(trace)
    requires AllFinished(Run(s, trace)) && WithOutcome(Run(s, trace), RetriesExhausted) == {}
    ensures |WithOutcome(Run(s, trace), Success)| == |ActiveSupers(s.users)| - 1
    ensures |WithOutcome(Run(s, trace), LastSuperAdmin)| == 1
    ensures ActiveSupers(Run(s, trace).users) == WithOutcome(Run(s, trace), LastSuperAdmin)
  {
    StartSatisfiesRaceInv(s);
    RaceRun(s, trace);
    AlwaysActiveSupers(s, trace);
    FinishedRace(Run(s, trace));
    var last :| last in ActiveSupers(Run(s, trace).users);
  }

  // ---- Retries ----

  /** Only the disables themselves change rows: no other update, no conflict on other tables. */
  predicate UndisturbedAction(a: Action) {
    RaceAction(a) && !a.Conflict? && !a.Touch?
  }

  ghost predicate UndisturbedTrace(trace: seq<Action>) {
    forall i :: 0 <= i < |trace| ==> UndisturbedAction(trace[i])
  }

  /** How many of the contenders are already disabled in `users`. */
  function DisabledCount(contenders: set<RequestId>, users: Users): nat {
    |contenders - ActiveSupers(users)|
  }

  /** Each failed attempt of a request is paid for by a disable that committed. */
  ghost predicate TriesPaid(contenders: set<RequestId>, users: Users, r: Request) {
    && (r.Waiting? ==> r.tries - 1 <= DisabledCount(contenders, users))
    && (r.InTransaction() ==>
          && r.tries - 1 <= DisabledCount(contenders, r.snap)
          && forall u :: u in r.snap && u in users && users[u].version != r.snap[u].version ==>
               u in contenders && u !in ActiveSupers(users) && u in ActiveSupers(r.snap))
    && r != Finished(RetriesExhausted)
  }

  ghost predicate PaidInv(s: State) {
    && RaceInv(s)
    && ActiveSupers(s.users) != {}
    && forall t :: t in s.requests ==> TriesPaid(s.requests.Keys, s.users, s.requests[t])
  }

  lemma FewerActiveMoreDisabled(contenders: set<RequestId>, users: Users, users': Users)
    requires ActiveSupers(users') <= ActiveSupers(users)
    ensures DisabledCount(contenders, users) <= DisabledCount(contenders, users')
  {
    SubsetSize(contenders - ActiveSupers(users), contenders - ActiveSupers(users'));
  }

  /** A row that changed after the snapshot of `r` means a contender was disabled since. */
  lemma ConflictIsPaid(contenders: set<RequestId>, users: Users, r: Request, u: UserId)
    requires r.InTransaction() && TriesPaid(contenders, users, r)
    requires ActiveSupers(users) <= ActiveSupers(r.snap) && ActiveSupers(users) <= contenders
    requires ActiveSupers(users) != {} && |contenders| <= MAX_TRIES
    requires u in r.snap && u in users && r.snap[u].version != users[u].version
    ensures TriesPaid(contenders, users, Retry(r))
  {
    var before, after := contenders - ActiveSupers(r.snap), contenders - ActiveSupers(users);
    assert before < after by { assert u in after && u !in before; }
    SubsetSize(before, after);
    var active :| active in ActiveSupers(users);
    assert after < contenders by { assert active in contenders && active !in after; }
    SubsetSize(after, contenders);
  }

  lemma CommitPaysOthers(contenders: set<RequestId>, users: Users, t: RequestId, r: Request)
    requires TriesPaid(contenders, users, r)
    requires r.InTransaction() ==> ActiveSupers(users) <= ActiveSupers(r.snap)
    requires t in contenders && t in ActiveSupers(users)
    ensures TriesPaid(contenders, Bump(users, t, Disabled), r)
  {
    var users' := Bump(users, t, Disabled);
    FewerActiveMoreDisabled(contenders, users, users');
    if r.InTransaction() {
      forall u | u in r.snap && u in users' && users'[u].version != r.snap[u].version
        ensures u in contenders && u !in ActiveSupers(users') && u in ActiveSupers(r.snap)
      {
        if u == t {
          assert u in ActiveSupers(users);
        } else {
          assert users[u] == users'[u];
        }
      }
    }
  }

  lemma PaidLock(s: State, t: RequestId, row: UserId)
    requires PaidInv(s) && Enabled(s, Lock(t, row)) && |s.requests.Keys| <= MAX_TRIES
    ensures TriesPaid(s.requests.Keys, s.users, NextRequest(s, Lock(t, row)))
  {
    var r := s.requests[t];
    assert TriesPaid(s.requests.Keys, s.users, r);
    if !SameVersion(s.users, r.snap, row) {
      assert ContenderInv(s.users, t, r);
      ConflictIsPaid(s.requests.Keys, s.users, r, row);
    }
  }

  /** The target is one of the locked rows, so the guarded update meets no conflict. */
  lemma PaidUpdate(s: State, t: RequestId)
    requires PaidInv(s) && Enabled(s, Update(t))
    ensures TriesPaid(s.requests.Keys, s.users, NextRequest(s, Update(t)))
  {
    var r := s.requests[t];
    assert TriesPaid(s.requests.Keys, s.users, r);
    assert ContenderInv(s.users, t, r);
    ActiveUnlessDisabled(s, t);
    assert t in ActiveSupers(r.snap);
    assert RequestInv(s.users, r);
    assert SameVersion(s.users, r.snap, t);
  }

  lemma PaidRead(s: State, t: RequestId)
    requires Enabled(s, Read(t))
    ensures TriesPaid(s.requests.Keys, s.users, NextRequest(s, Read(t)))
  {
  }

  lemma PaidBegin(s: State, t: RequestId)
    requires Enabled(s, Begin(t)) && TriesPaid(s.requests.Keys, s.users, s.requests[t])
    ensures TriesPaid(s.requests.Keys, s.users, NextRequest(s, Begin(t)))
  {
  }

  lemma PaidCount(s: State, t: RequestId)
    requires Enabled(s, Count(t)) && TriesPaid(s.requests.Keys, s.users, s.requests[t])
    ensures TriesPaid(s.requests.Keys, s.users, NextRequest(s, Count(t)))
  {
  }

  lemma PaidOwnStep(s: State, a: Action)
    requires PaidInv(s) && Enabled(s, a) && UndisturbedAction(a) && !a.Commit? && |s.requests.Keys| <= MAX_TRIES
    ensures TriesPaid(s.requests.Keys, s.users, NextRequest(s, a))
  {
    if a.Lock? {
      PaidLock(s, a.t, a.row);
    } else if a.Update? {
      PaidUpdate(s, a.t);
    } else if a.Read? {
      PaidRead(s, a.t);
    } else if a.Begin? {
      PaidBegin(s, a.t);
    } else {
      PaidCount(s, a.t);
    }
  }

  lemma PaidCommit(s: State, t0: RequestId, t: RequestId)
    requires PaidInv(s) && Enabled(s, Commit(t0)) && t in s.requests
    ensures s.requests[t0].target == t0 && t0 in s.users
    ensures t != t0 ==> TriesPaid(s.requests.Keys, Bump(s.users, t0, Disabled), s.requests[t])
  {
    ActiveUnlessDisabled(s, t0);
    assert ContenderInv(s.users, t0, s.requests[t0]);
    assert ContenderInv(s.users, t, s.requests[t]);
    assert TriesPaid(s.requests.Keys, s.users, s.requests[t]);
    CommitPaysOthers(s.requests.Keys, s.users, t0, s.requests[t]);
  }

  /** What an action of the race changes: its request, and the target's row on a commit. */
  lemma UndisturbedEffect(s: State, a: Action)
    requires Enabled(s, a) && UndisturbedAction(a)
    ensures a.t in s.requests
    ensures Apply(s, a) == State(if a.Commit? then Bump(s.users, s.requests[a.t].target, Disabled) else s.users,
                                 s.requests[a.t := NextRequest(s, a)])
  {
  }

  lemma PaidStepTries(s: State, a: Action, t: RequestId)
    requires PaidInv(s) && Enabled(s, a) && UndisturbedAction(a) && |s.requests.Keys| <= MAX_TRIES
    requires t in s.requests && a.t in s.requests
    ensures TriesPaid(s.requests.Keys, if a.Commit? then Bump(s.users, s.requests[a.t].target, Disabled) else s.users,
                      if t == a.t then NextRequest(s, a) else s.requests[t])
  {
    if a.Commit? {
      PaidCommit(s, a.t, t);
    } else if a.t == t {
      PaidOwnStep(s, a);
    }
  }

  lemma PaidStep(s: State, a: Action)
    requires PaidInv(s) && Enabled(s, a) && UndisturbedAction(a) && |s.requests.Keys| <= MAX_TRIES
    ensures PaidInv(Apply(s, a)) && Apply(s, a).requests.Keys == s.requests.Keys
  {
    RaceStep(s, a);
    StepKeepsASuperAdmin(s, a);
    UndisturbedEffect(s, a);
    forall t | t in s.requests ensures TriesPaid(s.requests.Keys, Apply(s, a).users, Apply(s, a).requests[t]) {
      PaidStepTries(s, a, t);
    }
  }

  lemma {:induction false} PaidRun(s: State, trace: seq<Action>)
    requires PaidInv(s) && Possible(s, trace) && UndisturbedTrace(trace) && |s.requests.Keys| <= MAX_TRIES
    ensures PaidInv(Run(s, trace))
    decreases |trace|
  {
    if trace != [] {
      PaidStep(s, trace[0]);
      PaidRun(Apply(s, trace[0]), trace[1..]);
    }
  }

  lemma StartSatisfiesPaidInv(s: State)
    requires RaceStart(s) && ActiveSupers(s.users) != {}
    ensures PaidInv(s)
  {
    StartSatisfiesRaceInv(s);
  }

  /** Up to ten contenders, no request runs out of its ten attempts, whatever the schedule. */
  lemma UpToTenNeverExhaust(s: State, trace: seq<Action>)
    requires RaceStart(s) && ActiveSupers(s.users) != {} && |ActiveSupers(s.users)| <= 10
    requires Possible(s, trace) && UndisturbedTrace(trace)
    ensures WithOutcome(Run(s, trace), RetriesExhausted) == {}
  {
    StartSatisfiesPaidInv(s);
    PaidRun(s, trace);
    var end := Run(s, trace);
    forall t | t in end.requests ensures end.requests[t] != Finished(RetriesExhausted) {
      assert TriesPaid(end.requests.Keys, end.users, end.requests[t]);
    }
  }
}
