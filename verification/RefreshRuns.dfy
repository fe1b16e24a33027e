/** Runs from an empty table that reach each exception of RefreshBarrier: a session outlives its revocation. */
module RefreshRuns {
  import opened Basics
  import opened Domain
  import opened RefreshTokens
  import opened RefreshProtocol
  import opened RefreshChain
  import opened RefreshBarrier

  ghost predicate Next(s: State, a: Action, s': State) { Enabled(s, a) && Apply(s, a) == s' }

  ghost predicate Leads(s: State, trace: seq<Action>, end: State) { Possible(s, trace) && Run(s, trace) == end }

  ghost predicate Reaches(s: State, end: State) { exists trace :: Leads(s, trace, end) }

  lemma ThreeMore(start: State, s: State, a: Action, s1: State, b: Action, s2: State, c: Action, end: State)
    requires Reaches(start, s) && Next(s, a, s1) && Next(s1, b, s2) && Next(s2, c, end)
    ensures Reaches(start, end)
  {
    OneMore(start, s, a, s1);
    OneMore(start, s1, b, s2);
    OneMore(start, s2, c, end);
  }

  lemma OneMore(start: State, s: State, a: Action, end: State)
    requires Reaches(start, s) && Next(s, a, end)
    ensures Reaches(start, end)
  {
    var first :| Leads(start, first, s);
    assert [a][1..] == [];
    assert Possible(end, []) && Run(end, []) == end;
    assert Run(s, [a]) == Run(Apply(s, a), [a][1..]);
    Join(start, first, s, [a], end);
  }

  lemma Stays(s: State)
    ensures Reaches(s, s)
  {
    assert Leads(s, [], s);
  }

  lemma {:induction false} Join(s: State, first: seq<Action>, mid: State, second: seq<Action>, end: State)
    requires Leads(s, first, mid) && Leads(mid, second, end)
    ensures Leads(s, first + second, end)
    decreases |first|
  {
    if first == [] {
      assert first + second == second;
    } else {
      assert (first + second)[1..] == first[1..] + second;
      Join(Apply(s, first[0]), first[1..], mid, second, end);
    }
  }

  const USER: UserId := 1
  const FAMILY: FamilyId := 20
  const ACTIVE := Account(Inactive, false, 0)
  const DISABLED := ACTIVE.(status := Disabled)
  const ROOT := Token(USER, FAMILY, None, REFRESH_TOKEN_TTL, None, None)
  const LOGGED_IN := Done(LoggedIn(10))

  /** Time does not pass, and only the disable and the password change below write the account. */
  function At(tokens: Tokens, requests: map<RequestId, Request>): State { State(0, map[USER := ACTIVE], tokens, requests) }

  const EMPTY := At(map[], map[])
  const IN := At(map[10 := ROOT], map[0 := LOGGED_IN])

  function Of(r: RequestId, newId: TokenId): Action { Step(r, newId, FAMILY) }

  // ---- A login between the snapshot and the commit ----

  const DISABLE := Revoking(USER, Disabling)
  const DISABLE_ARRIVED := At(map[], map[0 := SavingToken(USER), 1 := DISABLE])
  const AFTER_DISABLE := State(0, map[USER := DISABLED], map[10 := ROOT], map[0 := LOGGED_IN, 1 := Done(SessionsRevoked)])
  const DISABLE_SNAPSHOT := InRevocation(USER, Disabling, ACTIVE, map[], 1)

  lemma DisableBegins()
    ensures Reaches(EMPTY, DISABLE_ARRIVED)
  {
    var s0, s3 := EMPTY, DISABLE_ARRIVED;
    var s1 := At(map[], map[0 := LoggingIn(USER)]);
    var s2 := At(map[], map[0 := LoggingIn(USER), 1 := DISABLE]);
    assert Next(s0, Arrive(0, LoggingIn(USER)), s1);
    assert Next(s1, Arrive(1, DISABLE), s2);
    assert Next(s2, Of(0, 0), s3);
    Stays(EMPTY);
    ThreeMore(EMPTY, s0, Arrive(0, LoggingIn(USER)), s1, Arrive(1, DISABLE), s2, Of(0, 0), s3);
  }

  lemma DisableCommits()
    ensures Reaches(EMPTY, AFTER_DISABLE)
  {
    var s0, s3 := DISABLE_ARRIVED, AFTER_DISABLE;
    var s1 := At(map[], map[0 := SavingToken(USER), 1 := DISABLE_SNAPSHOT]);
    var s2 := At(map[10 := ROOT], map[0 := LOGGED_IN, 1 := DISABLE_SNAPSHOT]);
    assert Unrevoked(map[], USER) == map[];
    assert RevokeIn(map[10 := ROOT], {}, 0, Some(Reason.AccountDisabled)) == map[10 := ROOT];
    assert Next(s0, Of(1, 0), s1);
    assert Next(s1, Of(0, 10), s2);
    assert Next(s2, Of(1, 0), s3);
    DisableBegins();
    ThreeMore(EMPTY, s0, Of(1, 0), s1, Of(0, 10), s2, Of(1, 0), s3);
  }

  /**
   A login that has read the account and saves its token between the snapshot and the commit of a disable
   keeps its session, and both are told that they succeeded.
   */
  lemma LoginSurvivesDisable()
    ensures IsStart(EMPTY) && Reaches(EMPTY, AFTER_DISABLE)
    ensures AFTER_DISABLE.accounts[USER].status == Disabled && Live(AFTER_DISABLE.tokens[10])
    ensures AFTER_DISABLE.requests[0] == Done(LoggedIn(10)) && AFTER_DISABLE.requests[1] == Done(SessionsRevoked)
  {
    DisableCommits();
  }

  // ---- A rotation of a token that was revoked after it was read ----

  const REVOKED := ROOT.(revocation := Some(Revocation(0, None)))
  const CHILD := Token(USER, FAMILY, Some(10), REFRESH_TOKEN_TTL, None, None)
  const ROTATED: Tokens := map[10 := Used(REVOKED, 0), 11 := CHILD]
  const CHANGE := Revoking(USER, NewPassword(7))
  const CHANGE_SNAPSHOT := InRevocation(USER, NewPassword(7), ACTIVE, map[], 1)
  const ROTATING := Rotating(10, ROOT, REFRESH_TOKEN_TTL)
  const REFRESH_READ := At(map[10 := ROOT], map[0 := LOGGED_IN, 1 := FindingUser(10, ROOT)])
  const LEAVING := At(map[10 := ROOT], map[0 := LOGGED_IN, 1 := ROTATING, 2 := RevokingOne(10, None, LoggedOut)])
  const LOGGED_OUT := At(map[10 := REVOKED], map[0 := LOGGED_IN, 1 := ROTATING, 2 := Done(LoggedOut)])
  const ROTATION_BEGUN := At(map[10 := REVOKED],
    map[0 := LOGGED_IN, 1 := InRotation(10, ROOT, REFRESH_TOKEN_TTL, REVOKED, 1), 2 := Done(LoggedOut), 3 := CHANGE_SNAPSHOT])
  const AFTER_CHANGE := State(0, map[USER := Account(Inactive, false, 7)], ROTATED,
    map[0 := LOGGED_IN, 1 := Done(NewPair(10, 11)), 2 := Done(LoggedOut), 3 := Done(SessionsRevoked)])

  lemma LoginPath()
    ensures Reaches(EMPTY, IN)
  {
    var s0, s3 := EMPTY, IN;
    var s1 := At(map[], map[0 := LoggingIn(USER)]);
    var s2 := At(map[], map[0 := SavingToken(USER)]);
    assert Next(s0, Arrive(0, LoggingIn(USER)), s1);
    assert Next(s1, Of(0, 0), s2);
    assert Next(s2, Of(0, 10), s3);
    Stays(EMPTY);
    ThreeMore(EMPTY, s0, Arrive(0, LoggingIn(USER)), s1, Of(0, 0), s2, Of(0, 10), s3);
  }

  lemma RefreshReads()
    ensures Reaches(EMPTY, REFRESH_READ)
  {
    var s0, s3 := IN, REFRESH_READ;
    var s1 := At(map[10 := ROOT], map[0 := LOGGED_IN, 1 := Presented(10)]);
    var s2 := At(map[10 := ROOT], map[0 := LOGGED_IN, 1 := Checking(10, ROOT)]);
    assert Next(s0, Arrive(1, Presented(10)), s1);
    assert Next(s1, Of(1, 0), s2);
    assert Next(s2, Of(1, 0), s3);
    LoginPath();
    ThreeMore(EMPTY, s0, Arrive(1, Presented(10)), s1, Of(1, 0), s2, Of(1, 0), s3);
  }

  lemma LogoutBegins()
    ensures Reaches(EMPTY, LEAVING)
  {
    var s0, s3 := REFRESH_READ, LEAVING;
    var s1 := At(map[10 := ROOT], map[0 := LOGGED_IN, 1 := FindingUser(10, ROOT), 2 := LogoutPresented(10, USER)]);
    var s2 := At(map[10 := ROOT], map[0 := LOGGED_IN, 1 := ROTATING, 2 := LogoutPresented(10, USER)]);
    assert Next(s0, Arrive(2, LogoutPresented(10, USER)), s1);
    assert Next(s1, Of(1, 0), s2);
    assert Next(s2, Of(2, 0), s3);
    RefreshReads();
    ThreeMore(EMPTY, s0, Arrive(2, LogoutPresented(10, USER)), s1, Of(1, 0), s2, Of(2, 0), s3);
  }

  lemma ChangeBegins()
    ensures Reaches(LOGGED_OUT, ROTATION_BEGUN)
  {
    var s0, s3 := LOGGED_OUT, ROTATION_BEGUN;
    var s1 := At(map[10 := REVOKED], map[0 := LOGGED_IN, 1 := ROTATING, 2 := Done(LoggedOut), 3 := CHANGE]);
    var s2 := At(map[10 := REVOKED], map[0 := LOGGED_IN, 1 := ROTATING, 2 := Done(LoggedOut), 3 := CHANGE_SNAPSHOT]);
    assert Unrevoked(map[10 := REVOKED], USER) == map[];
    assert Next(s0, Arrive(3, CHANGE), s1);
    assert Next(s1, Of(3, 0), s2);
    assert Next(s2, Of(1, 0), s3);
    Stays(LOGGED_OUT);
    ThreeMore(LOGGED_OUT, s0, Arrive(3, CHANGE), s1, Of(3, 0), s2, Of(1, 0), s3);
  }

  lemma ChangeCommits()
    ensures Reaches(LOGGED_OUT, AFTER_CHANGE)
  {
    var s0, s3 := ROTATION_BEGUN, AFTER_CHANGE;
    var s1 := At(ROTATED, map[0 := LOGGED_IN, 1 := Signing(10, 11), 2 := Done(LoggedOut), 3 := CHANGE_SNAPSHOT]);
    var s2 := At(ROTATED, map[0 := LOGGED_IN, 1 := Done(NewPair(10, 11)), 2 := Done(LoggedOut), 3 := CHANGE_SNAPSHOT]);
    assert Next(s0, Of(1, 11), s1);
    assert Next(s1, Of(1, 0), s2);
    ChangeEnds();
    ChangeBegins();
    ThreeMore(LOGGED_OUT, s0, Of(1, 11), s1, Of(1, 0), s2, Of(3, 0), s3);
  }

  lemma ChangeEnds()
    ensures Next(At(ROTATED, map[0 := LOGGED_IN, 1 := Done(NewPair(10, 11)), 2 := Done(LoggedOut), 3 := CHANGE_SNAPSHOT]), Of(3, 0), AFTER_CHANGE)
  {
    assert RevokeIn(ROTATED, {}, 0, Some(PasswordChanged)) == ROTATED;
  }

  /**
   A family whose only token is logged out while a refresh holds its live read is fully revoked and then
   gains a live token. A password change that took its snapshot in between does not end that session
   either, although no refresh is in flight when it commits.
   */
  lemma StaleReadSurvives()
    ensures IsStart(EMPTY) && Reaches(EMPTY, LOGGED_OUT) && Reaches(LOGGED_OUT, AFTER_CHANGE)
    ensures FamilyIds(LOGGED_OUT.tokens, FAMILY) == {10} && AllRevokedIn(LOGGED_OUT.tokens, {FAMILY})
    ensures AFTER_CHANGE.tokens[11].family == FAMILY && Live(AFTER_CHANGE.tokens[11])
    ensures AFTER_CHANGE.requests[3] == Done(SessionsRevoked) && NothingInFlight(AFTER_CHANGE, {FAMILY})
  {
    LogoutBegins();
    LogoutEnds();
    OneMore(EMPTY, LEAVING, Of(2, 0), LOGGED_OUT);
    ChangeCommits();
    NothingIsLeft();
  }

  lemma NothingIsLeft()
    ensures FamilyIds(LOGGED_OUT.tokens, FAMILY) == {10} && AllRevokedIn(LOGGED_OUT.tokens, {FAMILY})
    ensures NothingInFlight(AFTER_CHANGE, {FAMILY})
  {
  }

  lemma LogoutEnds()
    ensures Next(LEAVING, Of(2, 0), LOGGED_OUT)
  {
    assert RevokeIn(map[10 := ROOT], {10}, 0, None) == map[10 := REVOKED];
  }

  // ---- A rotation that commits within the statement that revokes its family ----

  const USED_ROOT := Used(ROOT, 0)
  const GRANDCHILD := Token(USER, FAMILY, Some(11), REFRESH_TOKEN_TTL, None, None)
  const TWO: Tokens := map[10 := USED_ROOT, 11 := CHILD]
  const THREE: Tokens := map[10 := USED_ROOT, 11 := Used(CHILD, 0), 12 := GRANDCHILD]
  const SWEPT: Tokens := RevokeIn(THREE, {10, 11}, 0, Some(ReuseDetected))
  const SECOND := InRotation(11, CHILD, REFRESH_TOKEN_TTL, CHILD, 1)
  const FIRST_ROTATED := At(TWO, map[0 := LOGGED_IN, 1 := Signing(10, 11)])
  const SECOND_READ := At(TWO, map[0 := LOGGED_IN, 1 := Signing(10, 11), 2 := FindingUser(11, CHILD)])
  const REUSE_PRESENTED := At(TWO, map[0 := LOGGED_IN, 1 := Signing(10, 11), 2 := SECOND, 3 := Presented(10)])
  const REVOKING := At(TWO, map[0 := LOGGED_IN, 1 := Signing(10, 11), 2 := SECOND, 3 := FamilyStatement(FAMILY, {10, 11})])
  const AFTER_REUSE := At(SWEPT, map[0 := LOGGED_IN, 1 := Signing(10, 11), 2 := Done(NewPair(11, 12)), 3 := Done(SessionRevoked(ReuseDetected))])

  lemma FirstRotation()
    ensures Reaches(EMPTY, FIRST_ROTATED)
  {
    var s0, s3 := REFRESH_READ, FIRST_ROTATED;
    var s1 := At(map[10 := ROOT], map[0 := LOGGED_IN, 1 := ROTATING]);
    var s2 := At(map[10 := ROOT], map[0 := LOGGED_IN, 1 := InRotation(10, ROOT, REFRESH_TOKEN_TTL, ROOT, 1)]);
    assert Next(s0, Of(1, 0), s1);
    assert Next(s1, Of(1, 0), s2);
    assert Next(s2, Of(1, 11), s3);
    RefreshReads();
    ThreeMore(EMPTY, s0, Of(1, 0), s1, Of(1, 0), s2, Of(1, 11), s3);
  }

  lemma SecondReads()
    ensures Reaches(EMPTY, SECOND_READ)
  {
    var s0, s3 := FIRST_ROTATED, SECOND_READ;
    var s1 := At(TWO, map[0 := LOGGED_IN, 1 := Signing(10, 11), 2 := Presented(11)]);
    var s2 := At(TWO, map[0 := LOGGED_IN, 1 := Signing(10, 11), 2 := Checking(11, CHILD)]);
    assert Next(s0, Arrive(2, Presented(11)), s1);
    assert Next(s1, Of(2, 0), s2);
    assert Next(s2, Of(2, 0), s3);
    FirstRotation();
    ThreeMore(EMPTY, s0, Arrive(2, Presented(11)), s1, Of(2, 0), s2, Of(2, 0), s3);
  }

  lemma SecondBegins()
    ensures Reaches(EMPTY, REUSE_PRESENTED)
  {
    var s0, s3 := SECOND_READ, REUSE_PRESENTED;
    var s1 := At(TWO, map[0 := LOGGED_IN, 1 := Signing(10, 11), 2 := Rotating(11, CHILD, REFRESH_TOKEN_TTL)]);
    var s2 := At(TWO, map[0 := LOGGED_IN, 1 := Signing(10, 11), 2 := SECOND]);
    assert Next(s0, Of(2, 0), s1);
    assert Next(s1, Of(2, 0), s2);
    assert Next(s2, Arrive(3, Presented(10)), s3);
    SecondReads();
    ThreeMore(EMPTY, s0, Of(2, 0), s1, Of(2, 0), s2, Arrive(3, Presented(10)), s3);
  }

  lemma ReuseFound()
    ensures Reaches(EMPTY, REVOKING)
  {
    var s0, s3 := REUSE_PRESENTED, REVOKING;
    var s1 := At(TWO, map[0 := LOGGED_IN, 1 := Signing(10, 11), 2 := SECOND, 3 := Checking(10, USED_ROOT)]);
    var s2 := At(TWO, map[0 := LOGGED_IN, 1 := Signing(10, 11), 2 := SECOND, 3 := RevokingFamily(FAMILY)]);
    assert FamilyIds(TWO, FAMILY) == {10, 11};
    assert Next(s0, Of(3, 0), s1);
    assert Next(s1, Of(3, 0), s2);
    assert Next(s2, Of(3, 0), s3);
    SecondBegins();
    ThreeMore(EMPTY, s0, Of(3, 0), s1, Of(3, 0), s2, Of(3, 0), s3);
  }

  lemma SecondCommits()
    ensures Reaches(EMPTY, AFTER_REUSE)
  {
    var s0, s3 := REVOKING, AFTER_REUSE;
    var s1 := At(THREE, map[0 := LOGGED_IN, 1 := Signing(10, 11), 2 := Signing(11, 12), 3 := FamilyStatement(FAMILY, {10, 11})]);
    var s2 := At(THREE, map[0 := LOGGED_IN, 1 := Signing(10, 11), 2 := Done(NewPair(11, 12)), 3 := FamilyStatement(FAMILY, {10, 11})]);
    assert Next(s0, Of(2, 12), s1);
    assert Next(s1, Of(2, 0), s2);
    assert Next(s2, Of(3, 0), s3);
    ReuseFound();
    ThreeMore(EMPTY, s0, Of(2, 12), s1, Of(2, 0), s2, Of(3, 0), s3);
  }

  /**
   A token presented again makes its family be revoked, but a rotation that commits while that statement
   runs leaves its child live: one request is told that the session is revoked, the other gets a new pair.
   */
  lemma RotationSurvivesFamilyRevocation()
    ensures IsStart(EMPTY) && Reaches(EMPTY, AFTER_REUSE)
    ensures AFTER_REUSE.tokens[12].family == FAMILY && Live(AFTER_REUSE.tokens[12])
    ensures AFTER_REUSE.requests[2] == Done(NewPair(11, 12)) && AFTER_REUSE.requests[3] == Done(SessionRevoked(ReuseDetected))
  {
    SecondCommits();
  }
}
