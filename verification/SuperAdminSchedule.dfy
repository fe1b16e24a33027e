/** Eleven simultaneous disables are too many: a schedule that makes one of them exhaust its attempts. */
module SuperAdminSchedule {
  import opened Basics
  import opened Domain
  import opened SuperAdminGuard
  import opened SuperAdminRace

  ghost predicate Leads(s: State, trace: seq<Action>, end: State) {
    UndisturbedTrace(trace) && Possible(s, trace) && Run(s, trace) == end
  }

  lemma OneStep(s: State, a: Action, end: State)
    requires UndisturbedAction(a) && Enabled(s, a) && Apply(s, a) == end
    ensures Leads(s, [a], end)
  {
    assert [a][1..] == [] && Possible(end, []) && Run(end, []) == end;
    assert Run(s, [a]) == Run(Apply(s, a), [a][1..]);
  }

  lemma {:induction false} Join(s: State, first: seq<Action>, mid: State, second: seq<Action>, end: State)
    requires Leads(s, first, mid) && Leads(mid, second, end)
    ensures Leads(s, first + second, end)
    decreases |first|
  {
    if first == [] {
      assert first + second == second;
    } else {
      assert (first + second)[1..] == first[1..] + second;
      assert UndisturbedTrace(first[1..]);
      Join(Apply(s, first[0]), first[1..], mid, second, end);
    }
  }

  /** Only request `y` may hold locks. */
  ghost predicate OthersHoldNothing(s: State, y: RequestId) {
    forall r :: r in s.requests && r != y ==> s.requests[r].Held() == {}
  }

  function With(s: State, t: RequestId, r: Request): State { s.(requests := s.requests[t := r]) }

  lemma LockIsNext(s: State, y: RequestId, held: set<UserId>, row: UserId)
    requires y in s.requests && s.requests[y] == Locking(y, true, s.users, held, 1) && OthersHoldNothing(s, y)
    requires row in ActiveSupers(s.users) - held && forall x :: x in ActiveSupers(s.users) - held ==> row <= x
    ensures Leads(s, [Lock(y, row)], With(s, y, Locking(y, true, s.users, held + {row}, 1)))
  {
    forall x | x in ActiveSupers(s.users) && x < row ensures x in held {
      assert x !in ActiveSupers(s.users) - held;
    }
    OneStep(s, Lock(y, row), With(s, y, Locking(y, true, s.users, held + {row}, 1)));
  }

  lemma StillFirst(s: State, y: RequestId, held: set<UserId>, row: UserId)
    requires y in s.requests && OthersHoldNothing(s, y) && held <= ActiveSupers(s.users)
    requires forall u, v :: u in held && v in ActiveSupers(s.users) - held ==> u < v
    requires row in ActiveSupers(s.users) - held && forall x :: x in ActiveSupers(s.users) - held ==> row <= x
    ensures var next, active := With(s, y, Locking(y, true, s.users, held + {row}, 1)), ActiveSupers(s.users);
            && OthersHoldNothing(next, y) && held + {row} <= active && |active - (held + {row})| < |active - held|
            && forall u, v :: u in held + {row} && v in active - (held + {row}) ==> u < v
  {
    var active := ActiveSupers(s.users);
    assert active - (held + {row}) == (active - held) - {row};
  }

  /** A disable that meets no lock takes all of its locks. */
  lemma {:induction false} LocksAll(s: State, y: RequestId, held: set<UserId>) returns (trace: seq<Action>)
    requires y in s.requests && s.requests[y] == Locking(y, true, s.users, held, 1) && OthersHoldNothing(s, y)
    requires held <= ActiveSupers(s.users) && forall u, v :: u in held && v in ActiveSupers(s.users) - held ==> u < v
    ensures Leads(s, trace, With(s, y, Locking(y, true, s.users, ActiveSupers(s.users), 1)))
    decreases |ActiveSupers(s.users) - held|
  {
    var open := ActiveSupers(s.users) - held;
    if open == {} {
      assert held == ActiveSupers(s.users);
      assert s == With(s, y, Locking(y, true, s.users, ActiveSupers(s.users), 1));
      trace := [];
    } else {
      var row := LeastMember(open);
      var next := With(s, y, Locking(y, true, s.users, held + {row}, 1));
      var end := Locking(y, true, s.users, ActiveSupers(s.users), 1);
      LockIsNext(s, y, held, row);
      StillFirst(s, y, held, row);
      var rest := LocksAll(next, y, held + {row});
      assert With(next, y, end) == With(s, y, end);
      Join(s, [Lock(y, row)], next, rest, With(s, y, end));
      trace := [Lock(y, row)] + rest;
    }
  }

  /** From its arrival a disable of one of at least two active super_admins runs through without interruption. */
  lemma DisableRuns(s: State, y: RequestId) returns (trace: seq<Action>)
    requires y in s.requests && s.requests[y] == Arrived(y) && OthersHoldNothing(s, y)
    requires y in ActiveSupers(s.users) && |ActiveSupers(s.users)| >= 2
    ensures Leads(s, trace, State(Bump(s.users, y, Disabled), s.requests[y := Finished(Success)]))
  {
    var active := ActiveSupers(s.users);
    var s1 := With(s, y, Waiting(y, true, 1));
    var s2 := With(s, y, Locking(y, true, s.users, {}, 1));
    var s3 := With(s, y, Locking(y, true, s.users, active, 1));
    assert IsAdminRole(SuperAdmin);
    OneStep(s, Read(y), s1);
    OneStep(s1, Begin(y), s2);
    var locks := LocksAll(s2, y, {});
    Join(s, [Read(y)], s1, [Begin(y)], s2);
    Join(s, [Read(y)] + [Begin(y)], s2, locks, s3);
    LockedRuns(s3, y, active);
    Join(s, [Read(y)] + [Begin(y)] + locks, s3, [Count(y)] + [Update(y)] + [Commit(y)],
         State(Bump(s.users, y, Disabled), s3.requests[y := Finished(Success)]));
    trace := [Read(y)] + [Begin(y)] + locks + ([Count(y)] + [Update(y)] + [Commit(y)]);
  }

  /** With its locks taken it counts, updates and commits. */
  lemma LockedRuns(s: State, y: RequestId, active: set<UserId>)
    requires y in s.requests && s.requests[y] == Locking(y, true, s.users, active, 1) && OthersHoldNothing(s, y)
    requires active == ActiveSupers(s.users) && y in active && |active| >= 2
    ensures Leads(s, [Count(y)] + [Update(y)] + [Commit(y)], State(Bump(s.users, y, Disabled), s.requests[y := Finished(Success)]))
  {
    var s4 := With(s, y, Updating(y, true, s.users, active, 1));
    var s5 := With(s, y, Committing(y, true, s.users, active, 1));
    var s6 := State(Bump(s.users, y, Disabled), s.requests[y := Finished(Success)]);
    OneStep(s, Count(y), s4);
    assert active + {y} == active;
    OneStep(s4, Update(y), s5);
    OneStep(s5, Commit(y), s6);
    Join(s, [Count(y)], s4, [Update(y)], s5);
    Join(s, [Count(y)] + [Update(y)], s5, [Commit(y)], s6);
  }

  /** Request `x`, for the greatest active super_admin, is about to make attempt `k`; the others have just arrived. */
  ghost predicate AboutToTry(s: State, x: RequestId, k: nat) {
    && 1 <= k <= MAX_TRIES && x in s.requests && s.requests[x] == Waiting(x, true, k) && x in ActiveSupers(s.users)
    && (forall u :: u in ActiveSupers(s.users) ==> u <= x)
    && (forall u :: u in ActiveSupers(s.users) && u != x ==> u in s.requests && s.requests[u] == Arrived(u))
    && forall t :: t in s.requests ==> s.requests[t].Held() == {}
  }

  /** While attempt `k` has only its snapshot, the disable of the least active super_admin runs through; the attempt fails. */
  lemma Round(s: State, x: RequestId, k: nat) returns (y: RequestId, trace: seq<Action>)
    requires AboutToTry(s, x, k) && |ActiveSupers(s.users)| >= 2
    ensures y in ActiveSupers(s.users) && y != x
    ensures Leads(s, trace, State(Bump(s.users, y, Disabled),
                                  s.requests[y := Finished(Success)][x := Retry(Locking(x, true, s.users, {}, k))]))
  {
    y := LeastMember(ActiveSupers(s.users));
    if y == x {
      SubsetSize(ActiveSupers(s.users), {x});
    }
    var begun := With(s, x, Locking(x, true, s.users, {}, k));
    var met := State(Bump(s.users, y, Disabled), begun.requests[y := Finished(Success)]);
    var end := With(met, x, Retry(Locking(x, true, s.users, {}, k)));
    OneStep(s, Begin(x), begun);
    var disable := DisableRuns(begun, y);
    OneStep(met, Lock(x, y), end);
    Join(s, [Begin(x)], begun, disable, met);
    Join(s, [Begin(x)] + disable, met, [Lock(x, y)], end);
    trace := [Begin(x)] + disable + [Lock(x, y)];
    assert end.requests == s.requests[y := Finished(Success)][x := Retry(Locking(x, true, s.users, {}, k))];
  }

  lemma {:induction false} Exhausts(s: State, x: RequestId, k: nat) returns (trace: seq<Action>, end: State)
    requires AboutToTry(s, x, k) && |ActiveSupers(s.users)| >= MAX_TRIES + 2 - k
    ensures Leads(s, trace, end) && x in WithOutcome(end, RetriesExhausted)
    decreases MAX_TRIES - k
  {
    var y, first := Round(s, x, k);
    var next := State(Bump(s.users, y, Disabled), s.requests[y := Finished(Success)][x := Retry(Locking(x, true, s.users, {}, k))]);
    if k == MAX_TRIES {
      trace, end := first, next;
    } else {
      assert ActiveSupers(next.users) == ActiveSupers(s.users) - {y};
      var rest;
      rest, end := Exhausts(next, x, k + 1);
      Join(s, first, next, rest, end);
      trace := first + rest;
    }
  }

  /** No schedule makes a request run out of its attempts. */
  ghost predicate NeverExhausts(s: State) {
    forall trace :: Possible(s, trace) && UndisturbedTrace(trace) ==> WithOutcome(Run(s, trace), RetriesExhausted) == {}
  }

  /** The simultaneous disables of all active super_admins never exhaust their attempts exactly when there are at most ten. */
  lemma NeverExhaustsIff(s: State)
    requires RaceStart(s) && ActiveSupers(s.users) != {}
    ensures NeverExhausts(s) <==> |ActiveSupers(s.users)| <= 10
  {
    if |ActiveSupers(s.users)| <= 10 {
      forall trace | Possible(s, trace) && UndisturbedTrace(trace) ensures WithOutcome(Run(s, trace), RetriesExhausted) == {} {
        UpToTenNeverExhaust(s, trace);
      }
    } else {
      var x := GreatestMember(ActiveSupers(s.users));
      var next := With(s, x, Waiting(x, true, 1));
      assert IsAdminRole(SuperAdmin);
      OneStep(s, Read(x), next);
      var rest, end := Exhausts(next, x, 1);
      Join(s, [Read(x)], next, rest, end);
    }
  }
}
