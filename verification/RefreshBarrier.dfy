/** When a revoked family stays dead, and what a password change, reset or disable guarantees afterwards. */
module RefreshBarrier {
  import opened Basics
  import opened Domain
  import opened RefreshTokens
  import opened RefreshProtocol
  import opened RefreshChain

  /**
   Request `q` can still rotate an unused token of one of the families: it read the token while it was
   live, whatever has been revoked since, because the rotation looks at used_at only.
   */
  predicate InFlight(s: State, q: Request, families: set<FamilyId>) {
    && (q.Checking? || q.FindingUser? || q.Rotating? || q.InRotation?)
    && q.read.family in families
    && q.token in s.tokens && s.tokens[q.token].usedAt.None?
    && (q.Checking? ==> Live(q.read) && s.now <= q.read.expiresAt)
  }

  ghost predicate NothingInFlight(s: State, families: set<FamilyId>) {
    forall r :: r in s.requests ==> !InFlight(s, s.requests[r], families)
  }

  ghost predicate AllRevokedIn(tokens: Tokens, families: set<FamilyId>) {
    forall id :: id in tokens && tokens[id].family in families ==> tokens[id].revocation.Some?
  }

  ghost predicate Dead(s: State, families: set<FamilyId>) {
    families <= Families(s.tokens) && AllRevokedIn(s.tokens, families) && NothingInFlight(s, families)
  }

  function MembersIn(tokens: Tokens, families: set<FamilyId>): set<TokenId> {
    set id | id in tokens && tokens[id].family in families
  }

  // ---- Dead families stay dead ----

  lemma FamiliesGrow(s: State, a: Action)
    requires Enabled(s, a)
    ensures Families(s.tokens) <= Families(Apply(s, a).tokens)
  {
    StepGrows(s, a);
    forall family | family in Families(s.tokens) ensures family in Families(Apply(s, a).tokens) {
      var id :| id in s.tokens && s.tokens[id].family == family;
      assert id in Apply(s, a).tokens;
    }
  }

  /** A step adds a token to the families only by a rotation that was in flight. */
  lemma GrowthComesFromFlight(s: State, a: Action, families: set<FamilyId>)
    requires Inv(s) && Enabled(s, a) && families <= Families(s.tokens)
    ensures MembersIn(Apply(s, a).tokens, families) != MembersIn(s.tokens, families) ==>
              && a.Step? && s.requests[a.r].InRotation? && CommitsRotation(s.requests[a.r], s.tokens)
              && InFlight(s, s.requests[a.r], families)
  {
    var s' := Apply(s, a);
    StepGrows(s, a);
    if a.Step? {
      var q := s.requests[a.r];
      assert RequestInv(s.tokens, q);
      if q.SavingToken? || (q.InRotation? && q.read.family !in families) {
        assert MembersIn(s'.tokens, families) == MembersIn(s.tokens, families);
      }
    }
  }

  /** The own step of a request that is in flight afterwards: it was already, or it read a live row. */
  lemma FlightAfterOwnStep(s: State, r: RequestId, newId: TokenId, family: FamilyId, families: set<FamilyId>)
    requires Enabled(s, Step(r, newId, family)) && RequestInv(s.tokens, s.requests[r])
    requires InFlight(Apply(s, Step(r, newId, family)), NextRequest(s, r, newId), families)
    ensures s.requests[r].Presented? || s.requests[r].Checking? || s.requests[r].FindingUser?
            || s.requests[r].Rotating? || s.requests[r].InRotation?
    ensures s.requests[r].token in s.tokens && NextRequest(s, r, newId).token == s.requests[r].token
    ensures s.requests[r].Presented? ==>
      Live(s.tokens[s.requests[r].token]) && s.tokens[s.requests[r].token].family in families
    ensures !s.requests[r].Presented? ==> InFlight(s, s.requests[r], families)
  {
  }

  /** A request that is in flight after a step was in flight on the same token, or has just read it live. */
  lemma FlightComesFromRead(s: State, a: Action, r: RequestId, families: set<FamilyId>)
    requires Inv(s) && Enabled(s, a) && r in Apply(s, a).requests
    requires InFlight(Apply(s, a), Apply(s, a).requests[r], families)
    ensures r in s.requests
    ensures !(InFlight(s, s.requests[r], families) && s.requests[r].token == Apply(s, a).requests[r].token) ==>
              var id := Apply(s, a).requests[r].token;
              id in s.tokens && Live(s.tokens[id]) && s.tokens[id].family in families
  {
    StepGrows(s, a);
    if r in s.requests {
      assert RequestInv(s.tokens, s.requests[r]);
      if a.Step? && a.r == r {
        FlightAfterOwnStep(s, r, a.freshToken, a.freshFamily, families);
      }
    }
  }

  lemma DeadStep(s: State, a: Action, families: set<FamilyId>)
    requires Inv(s) && Dead(s, families) && Enabled(s, a)
    ensures Dead(Apply(s, a), families)
    ensures MembersIn(Apply(s, a).tokens, families) == MembersIn(s.tokens, families)
  {
    var s' := Apply(s, a);
    StepGrows(s, a);
    FamiliesGrow(s, a);
    GrowthComesFromFlight(s, a, families);
    forall id | id in s'.tokens && s'.tokens[id].family in families ensures s'.tokens[id].revocation.Some? {
      assert id in MembersIn(s.tokens, families);
    }
    forall r | r in s'.requests ensures !InFlight(s', s'.requests[r], families) {
      if InFlight(s', s'.requests[r], families) {
        FlightComesFromRead(s, a, r, families);
      }
    }
  }

  /** Fully revoked families with nothing in flight never gain a token and never come back. */
  lemma {:induction false} DeadStaysDead(s: State, families: set<FamilyId>, trace: seq<Action>)
    requires Inv(s) && Dead(s, families) && Possible(s, trace)
    ensures Dead(Run(s, trace), families)
    ensures MembersIn(Run(s, trace).tokens, families) == MembersIn(s.tokens, families)
    decreases |trace|
  {
    if trace != [] {
      StepKeepsInv(s, trace[0]);
      DeadStep(s, trace[0], families);
      DeadStaysDead(Apply(s, trace[0]), families, trace[1..]);
    }
  }

  // ---- Exactly when a revoked family can come back ----

  /** How many steps a request in flight is away from committing its rotation. */
  function Distance(s: State, q: Request): nat {
    if q.Checking? then 4 else if q.FindingUser? then 3 else if q.Rotating? then 2
    else if q.InRotation? && !CommitsRotation(q, s.tokens) then 1 else 0
  }

  lemma FlightAdvances(s: State, r: RequestId, families: set<FamilyId>, a: Action)
    requires a.Step? && a.r == r && Enabled(s, a) && RequestInv(s.tokens, s.requests[r])
    requires InFlight(s, s.requests[r], families) && Distance(s, s.requests[r]) > 0
    requires s.requests[r].FindingUser? ==>
      s.requests[r].read.user in s.accounts && s.accounts[s.requests[r].read.user] == Account(Inactive, false, 0)
    ensures Apply(s, a).tokens == s.tokens && InFlight(Apply(s, a), Apply(s, a).requests[r], families)
    ensures Distance(Apply(s, a), Apply(s, a).requests[r]) < Distance(s, s.requests[r])
  {
  }

  /** A request in flight can be led to commit its rotation, reactivating the account where needed. */
  lemma {:induction false} FlightLands(s: State, r: RequestId, families: set<FamilyId>, newId: TokenId, newFamily: FamilyId)
      returns (trace: seq<Action>)
    requires Inv(s) && r in s.requests && InFlight(s, s.requests[r], families)
    requires newId !in s.tokens && newFamily !in Families(s.tokens)
    ensures Possible(s, trace)
    ensures newId in MembersIn(Run(s, trace).tokens, families) && Live(Run(s, trace).tokens[newId])
    decreases Distance(s, s.requests[r])
  {
    var q, a := s.requests[r], Step(r, newId, newFamily);
    assert RequestInv(s.tokens, q);
    if Distance(s, q) == 0 {
      assert Possible(Apply(s, a), [a][1..]);
      trace := [a];
    } else {
      var open := if q.FindingUser? then SetAccount(q.read.user, Account(Inactive, false, 0)) else Wait(0);
      var s1 := Apply(s, open);
      StepKeepsInv(s, open);
      FlightAdvances(s1, r, families, a);
      StepKeepsInv(s1, a);
      var rest := FlightLands(Apply(s1, a), r, families, newId, newFamily);
      trace := [open] + ([a] + rest);
      assert trace[1..] == [a] + rest && ([a] + rest)[1..] == rest;
    }
  }

  lemma FreshNumber(s: set<nat>) returns (n: nat)
    ensures n !in s
  {
    n := UpperBound(s);
  }

  /** Some continuation gives one of the families a new token. */
  ghost predicate CanGain(s: State, families: set<FamilyId>) {
    exists trace :: Possible(s, trace) && MembersIn(Run(s, trace).tokens, families) != MembersIn(s.tokens, families)
  }

  /** A fully revoked family can gain a token again exactly when a request that read it live is in flight. */
  lemma RevokedFamilyComesBackIff(s: State, families: set<FamilyId>)
    requires Inv(s) && families <= Families(s.tokens) && AllRevokedIn(s.tokens, families)
    ensures CanGain(s, families) <==> exists r :: r in s.requests && InFlight(s, s.requests[r], families)
  {
    if r :| r in s.requests && InFlight(s, s.requests[r], families) {
      var newId := FreshNumber(s.tokens.Keys);
      var newFamily := FreshNumber(Families(s.tokens));
      var trace := FlightLands(s, r, families, newId, newFamily);
      assert newId in MembersIn(Run(s, trace).tokens, families);
    } else if CanGain(s, families) {
      var trace :| Possible(s, trace) && MembersIn(Run(s, trace).tokens, families) != MembersIn(s.tokens, families);
      assert Dead(s, families);
      DeadStaysDead(s, families, trace);
      assert false;
    }
  }

  /** Some continuation has an unrevoked token in one of the families. */
  ghost predicate CanBeLive(s: State, families: set<FamilyId>) {
    exists trace, id :: Possible(s, trace) && UnrevokedMember(Run(s, trace).tokens, families, id)
  }

  ghost predicate UnrevokedMember(tokens: Tokens, families: set<FamilyId>, id: TokenId) {
    id in tokens && tokens[id].family in families && tokens[id].revocation.None?
  }

  lemma AllRevokedMeans(tokens: Tokens, families: set<FamilyId>)
    ensures AllRevokedIn(tokens, families) <==> forall id :: !UnrevokedMember(tokens, families, id)
  {
    if !AllRevokedIn(tokens, families) {
      var id :| id in tokens && tokens[id].family in families && tokens[id].revocation.None?;
      assert UnrevokedMember(tokens, families, id);
    }
    assert (forall id :: !UnrevokedMember(tokens, families, id)) || exists id :: UnrevokedMember(tokens, families, id);
  }

  /** Families are over for good exactly when they are fully revoked and nothing is in flight. */
  lemma CanBeLiveIff(s: State, families: set<FamilyId>)
    requires Inv(s) && families <= Families(s.tokens)
    ensures CanBeLive(s, families) <==> !Dead(s, families)
  {
    AllRevokedMeans(s.tokens, families);
    if id :| UnrevokedMember(s.tokens, families, id) {
      assert Possible(s, []) && Run(s, []) == s;
    } else if r :| r in s.requests && InFlight(s, s.requests[r], families) {
      var newId := FreshNumber(s.tokens.Keys);
      var newFamily := FreshNumber(Families(s.tokens));
      var trace := FlightLands(s, r, families, newId, newFamily);
      assert UnrevokedMember(Run(s, trace).tokens, families, newId);
    } else {
      assert Dead(s, families);
      forall trace, id | Possible(s, trace) ensures !UnrevokedMember(Run(s, trace).tokens, families, id) {
        DeadStaysDead(s, families, trace);
      }
    }
  }

  // ---- The revocation of a family after reuse ----

  /**
   The statement that revokes a family covers the rows it found when it began. It leaves the family fully
   revoked exactly when no unrevoked token was inserted since, and over for good exactly when, moreover,
   no rotation in it is in flight.
   */
  lemma FamilyRevocationIff(s: State, a: Action)
    requires Inv(s) && Enabled(s, a) && a.Step? && s.requests[a.r].FamilyStatement?
    requires s.requests[a.r].family in Families(s.tokens)
    ensures var q, s' := s.requests[a.r], Apply(s, a);
            var covered := forall id :: UnrevokedMember(s.tokens, {q.family}, id) ==> id in q.ids;
            && (AllRevokedIn(s'.tokens, {q.family}) <==> covered)
            && (CanBeLive(s', {q.family}) <==> !(covered && NothingInFlight(s', {q.family})))
  {
    var q, s' := s.requests[a.r], Apply(s, a);
    StepKeepsInv(s, a);
    FamiliesGrow(s, a);
    assert RequestInv(s.tokens, q);
    RevokeGrows(s.tokens, q.ids, s.now, Some(ReuseDetected));
    assert forall id :: UnrevokedMember(s'.tokens, {q.family}, id) <==> UnrevokedMember(s.tokens, {q.family}, id) && id !in q.ids;
    AllRevokedMeans(s'.tokens, {q.family});
    CanBeLiveIff(s', {q.family});
  }

  // ---- The barrier of a user-wide revocation ----

  function FamiliesOf(tokens: Tokens, user: UserId): set<FamilyId> {
    set id | id in tokens && tokens[id].user == user :: tokens[id].family
  }

  /** An unrevoked token of the user that the attempt's snapshot did not contain. */
  ghost predicate Missed(tokens: Tokens, user: UserId, seen: Tokens, id: TokenId) {
    id in tokens && tokens[id].user == user && tokens[id].revocation.None? && id !in seen
  }

  /**
   When a password change, reset or disable commits, the families the user has at that moment can have an
   unrevoked token again, then or later, exactly when an unrevoked token was inserted since the snapshot of
   the committing attempt or a refresh in one of these families is in flight.
   */
  lemma RevocationBarrierIff(s: State, commit: Action)
    requires Inv(s) && Enabled(s, commit) && commit.Step?
    requires s.requests[commit.r].InRevocation? && CommitsRevocation(s.requests[commit.r], s)
    ensures var q, s' := s.requests[commit.r], Apply(s, commit);
            CanBeLive(s', FamiliesOf(s'.tokens, q.user))
            <==> (exists id :: Missed(s.tokens, q.user, q.seen, id)) || !NothingInFlight(s', FamiliesOf(s'.tokens, q.user))
  {
    var q, s' := s.requests[commit.r], Apply(s, commit);
    var families := FamiliesOf(s'.tokens, q.user);
    StepKeepsInv(s, commit);
    RevokeGrows(s.tokens, q.seen.Keys, s.now, Some(ReasonFor(q.purpose)));
    assert s'.tokens == RevokeIn(s.tokens, q.seen.Keys, s.now, Some(ReasonFor(q.purpose)));
    FamiliesOfExist(s'.tokens, q.user);
    forall id ensures UnrevokedMember(s'.tokens, families, id) <==> Missed(s.tokens, q.user, q.seen, id) {
      if id in s'.tokens && s'.tokens[id].family in families {
        MemberOwner(s'.tokens, q.user, id);
      }
    }
    AllRevokedMeans(s'.tokens, families);
    CanBeLiveIff(s', families);
  }

  lemma FamiliesOfExist(tokens: Tokens, user: UserId)
    ensures FamiliesOf(tokens, user) <= Families(tokens)
  {
  }

  /**
   The barrier: where neither is the case, every unrevoked token of the user, in every later state, belongs
   to a family that did not exist at the commit, so to a login that saved its token after it.
   */
  lemma RevocationBarrier(s: State, commit: Action, after: seq<Action>, id: TokenId)
    requires Inv(s) && Enabled(s, commit) && commit.Step?
    requires s.requests[commit.r].InRevocation? && CommitsRevocation(s.requests[commit.r], s)
    requires forall id :: !Missed(s.tokens, s.requests[commit.r].user, s.requests[commit.r].seen, id)
    requires NothingInFlight(Apply(s, commit), FamiliesOf(Apply(s, commit).tokens, s.requests[commit.r].user))
    requires Possible(Apply(s, commit), after)
    requires var end := Run(Apply(s, commit), after);
             id in end.tokens && end.tokens[id].user == s.requests[commit.r].user && end.tokens[id].revocation.None?
    ensures Run(Apply(s, commit), after).tokens[id].family !in Families(Apply(s, commit).tokens)
  {
    var user, s' := s.requests[commit.r].user, Apply(s, commit);
    RevocationBarrierIff(s, commit);
    StepKeepsInv(s, commit);
    RunKeepsInv(s', after);
    RunGrows(s', after);
    FamiliesOfExist(s'.tokens, user);
    CanBeLiveIff(s', FamiliesOf(s'.tokens, user));
    DeadStaysDead(s', FamiliesOf(s'.tokens, user), after);
    LiveOutsideDead(s'.tokens, Run(s', after), user, id);
  }

  // ---- What a snapshot without stale reads guarantees ----

  /** Request `r` has just taken the snapshot of an attempt to revoke every token of its user. */
  ghost predicate TookSnapshot(s: State, r: RequestId) {
    r in s.requests && s.requests[r].InRevocation? && s.requests[r].seen == Unrevoked(s.tokens, s.requests[r].user)
  }

  /** Nobody holds a live read of a token of `user` that has been revoked since. */
  ghost predicate NoStaleRead(s: State, user: UserId) {
    forall r :: r in s.requests && InFlight(s, s.requests[r], FamiliesOf(s.tokens, user)) ==>
      s.tokens[s.requests[r].token].revocation.None?
  }

  predicate LeavesAlone(trace: seq<Action>, r: RequestId) {
    forall i :: 0 <= i < |trace| ==> !((trace[i].Step? || trace[i].Fail?) && trace[i].r == r)
  }

  ghost predicate SeenChanged(tokens: Tokens, seen: Tokens) {
    exists id :: id in seen && id in tokens && tokens[id] != seen[id]
  }

  /**
   Between the snapshot and the commit: either a row of the snapshot was changed, so that the attempt
   cannot commit, or the families of the snapshot have gained no token and only rows of the snapshot can
   still be rotated.
   */
  ghost predicate Between(s: State, start: Tokens, user: UserId, seen: Tokens) {
    || SeenChanged(s.tokens, seen)
    || (MembersIn(s.tokens, FamiliesOf(start, user)) <= start.Keys
        && forall r :: r in s.requests && InFlight(s, s.requests[r], FamiliesOf(start, user)) ==> s.requests[r].token in seen)
  }

  /** The fixed part of the situation between snapshot and commit. */
  ghost predicate SinceSnapshot(s: State, start: Tokens, user: UserId, seen: Tokens) {
    && Inv(s) && Grows(start, s.tokens) && AllChained(start) && seen == Unrevoked(start, user)
    && FamiliesOf(start, user) <= Families(s.tokens)
  }

  lemma ChangedStaysChanged(start: Tokens, seen: Tokens, tokens: Tokens, tokens': Tokens, user: UserId)
    requires Grows(start, tokens) && Grows(tokens, tokens') && seen == Unrevoked(start, user)
    requires SeenChanged(tokens, seen)
    ensures SeenChanged(tokens', seen)
  {
    var id :| id in seen && id in tokens && tokens[id] != seen[id];
    ChangedRowsCountUp(seen[id], tokens[id]);
    assert Later(tokens[id], tokens'[id]);
    assert tokens'[id] != seen[id];
  }

  lemma MemberOwner(start: Tokens, user: UserId, id: TokenId)
    requires AllChained(start) && id in start && start[id].family in FamiliesOf(start, user)
    ensures start[id].user == user
  {
    var id' :| id' in start && start[id'].user == user && start[id'].family == start[id].family;
    OneOwner(start, id, id');
  }

  /** A family of the snapshot that gains a token does so from a row of the snapshot, which thereby changes. */
  lemma GrowthChangesSeen(s: State, a: Action, start: Tokens, user: UserId, seen: Tokens)
    requires SinceSnapshot(s, start, user, seen) && Between(s, start, user, seen) && !SeenChanged(s.tokens, seen)
    requires Enabled(s, a) && MembersIn(Apply(s, a).tokens, FamiliesOf(start, user)) != MembersIn(s.tokens, FamiliesOf(start, user))
    ensures SeenChanged(Apply(s, a).tokens, seen)
  {
    GrowthComesFromFlight(s, a, FamiliesOf(start, user));
    var id := s.requests[a.r].token;
    assert id in seen && Apply(s, a).tokens[id].usedAt.Some? && seen[id].usedAt.None?;
  }

  lemma FlightsStaySeen(s: State, a: Action, start: Tokens, user: UserId, seen: Tokens, r: RequestId)
    requires SinceSnapshot(s, start, user, seen) && Between(s, start, user, seen) && !SeenChanged(s.tokens, seen)
    requires Enabled(s, a) && r in Apply(s, a).requests
    requires InFlight(Apply(s, a), Apply(s, a).requests[r], FamiliesOf(start, user))
    ensures Apply(s, a).requests[r].token in seen
  {
    FlightComesFromRead(s, a, r, FamiliesOf(start, user));
    var id := Apply(s, a).requests[r].token;
    if !(InFlight(s, s.requests[r], FamiliesOf(start, user)) && s.requests[r].token == id) {
      assert id in MembersIn(s.tokens, FamiliesOf(start, user));
      MemberOwner(start, user, id);
    }
  }

  lemma BetweenStep(s: State, a: Action, start: Tokens, user: UserId, seen: Tokens)
    requires SinceSnapshot(s, start, user, seen) && Between(s, start, user, seen) && Enabled(s, a)
    ensures SinceSnapshot(Apply(s, a), start, user, seen) && Between(Apply(s, a), start, user, seen)
  {
    var s', families := Apply(s, a), FamiliesOf(start, user);
    SinceSnapshotStep(s, a, start, user, seen);
    if SeenChanged(s.tokens, seen) {
      StepGrows(s, a);
      ChangedStaysChanged(start, seen, s.tokens, s'.tokens, user);
    } else if MembersIn(s'.tokens, families) != MembersIn(s.tokens, families) {
      GrowthChangesSeen(s, a, start, user, seen);
    } else {
      forall r | r in s'.requests && InFlight(s', s'.requests[r], families) ensures s'.requests[r].token in seen {
        FlightsStaySeen(s, a, start, user, seen, r);
      }
    }
  }

  lemma SinceSnapshotStep(s: State, a: Action, start: Tokens, user: UserId, seen: Tokens)
    requires SinceSnapshot(s, start, user, seen) && Enabled(s, a)
    ensures SinceSnapshot(Apply(s, a), start, user, seen)
  {
    StepGrows(s, a);
    StepKeepsInv(s, a);
    FamiliesGrow(s, a);
  }

  lemma {:induction false} BetweenRun(s: State, trace: seq<Action>, start: Tokens, user: UserId, seen: Tokens, r: RequestId)
    requires SinceSnapshot(s, start, user, seen) && Between(s, start, user, seen)
    requires Possible(s, trace) && LeavesAlone(trace, r) && r in s.requests
    ensures SinceSnapshot(Run(s, trace), start, user, seen) && Between(Run(s, trace), start, user, seen)
    ensures r in Run(s, trace).requests && Run(s, trace).requests[r] == s.requests[r]
    decreases |trace|
  {
    if trace != [] {
      BetweenStep(s, trace[0], start, user, seen);
      assert LeavesAlone(trace[1..], r);
      BetweenRun(Apply(s, trace[0]), trace[1..], start, user, seen, r);
    }
  }

  lemma SeenOrRevoked(s: State, start: Tokens, user: UserId, seen: Tokens, id: TokenId)
    requires SinceSnapshot(s, start, user, seen) && Between(s, start, user, seen) && !SeenChanged(s.tokens, seen)
    requires id in s.tokens && s.tokens[id].family in FamiliesOf(start, user)
    ensures id in seen || s.tokens[id].revocation.Some?
  {
    assert id in MembersIn(s.tokens, FamiliesOf(start, user));
    assert id in start;
    MemberOwner(start, user, id);
  }

  /** The commit leaves every token of every family of the snapshot revoked. */
  lemma CommitRevokesFamilies(s: State, a: Action, start: Tokens)
    requires Enabled(s, a) && a.Step? && s.requests[a.r].InRevocation? && CommitsRevocation(s.requests[a.r], s)
    requires SinceSnapshot(s, start, s.requests[a.r].user, s.requests[a.r].seen)
    requires Between(s, start, s.requests[a.r].user, s.requests[a.r].seen)
    ensures AllRevokedIn(Apply(s, a).tokens, FamiliesOf(start, s.requests[a.r].user))
  {
    var q, tokens' := s.requests[a.r], Apply(s, a).tokens;
    RevokeGrows(s.tokens, q.seen.Keys, s.now, Some(ReasonFor(q.purpose)));
    assert tokens' == RevokeIn(s.tokens, q.seen.Keys, s.now, Some(ReasonFor(q.purpose)));
    forall id | id in tokens' && tokens'[id].family in FamiliesOf(start, q.user) ensures tokens'[id].revocation.Some? {
      SeenOrRevoked(s, start, q.user, q.seen, id);
    }
  }

  /**
   If at the snapshot of the committing attempt nobody held a live read of a token revoked since, and no
   refresh of the families of that snapshot is in flight at the commit, then every unrevoked token of the
   user in every later state belongs to a family started after the snapshot.
   */
  lemma BarrierSinceSnapshot(s: State, r: RequestId, before: seq<Action>, commit: Action, after: seq<Action>, id: TokenId)
    requires Inv(s) && TookSnapshot(s, r) && NoStaleRead(s, s.requests[r].user)
    requires Possible(s, before) && LeavesAlone(before, r)
    requires commit.Step? && commit.r == r && Enabled(Run(s, before), commit)
    requires Run(s, before).requests[r].InRevocation? ==> CommitsRevocation(Run(s, before).requests[r], Run(s, before))
    requires NothingInFlight(Apply(Run(s, before), commit), FamiliesOf(s.tokens, s.requests[r].user))
    requires Possible(Apply(Run(s, before), commit), after)
    requires id in Run(Apply(Run(s, before), commit), after).tokens
    requires Run(Apply(Run(s, before), commit), after).tokens[id].user == s.requests[r].user
    requires Run(Apply(Run(s, before), commit), after).tokens[id].revocation.None?
    ensures Run(Apply(Run(s, before), commit), after).tokens[id].family !in Families(s.tokens)
  {
    var user, seen := s.requests[r].user, s.requests[r].seen;
    var families := FamiliesOf(s.tokens, user);
    FlightsSeen(s, r);
    BetweenRun(s, before, s.tokens, user, seen, r);
    var s1 := Run(s, before);
    var s2 := Apply(s1, commit);
    CommitRevokesFamilies(s1, commit, s.tokens);
    StepKeepsInv(s1, commit);
    FamiliesGrow(s1, commit);
    assert Dead(s2, families);
    DeadStaysDead(s2, families, after);
    RunKeepsInv(s2, after);
    StepGrows(s1, commit);
    RunGrows(s2, after);
    LiveOutsideDead(s.tokens, Run(s2, after), user, id);
  }

  lemma FlightsSeen(s: State, r: RequestId)
    requires Inv(s) && TookSnapshot(s, r) && NoStaleRead(s, s.requests[r].user)
    ensures SinceSnapshot(s, s.tokens, s.requests[r].user, s.requests[r].seen)
    ensures Between(s, s.tokens, s.requests[r].user, s.requests[r].seen)
  {
    var user := s.requests[r].user;
    forall q | q in s.requests && InFlight(s, s.requests[q], FamiliesOf(s.tokens, user))
      ensures s.requests[q].token in s.requests[r].seen
    {
      assert RequestInv(s.tokens, s.requests[q]);
      MemberOwner(s.tokens, user, s.requests[q].token);
    }
  }

  lemma LiveOutsideDead(start: Tokens, s: State, user: UserId, id: TokenId)
    requires Inv(s) && Grows(start, s.tokens) && Dead(s, FamiliesOf(start, user))
    requires id in s.tokens && s.tokens[id].user == user && s.tokens[id].revocation.None?
    ensures s.tokens[id].family !in Families(start)
  {
    assert s.tokens[id].family !in FamiliesOf(start, user);
    forall id' | id' in start ensures start[id'].family != s.tokens[id].family {
      if start[id'].family == s.tokens[id].family {
        OneOwner(s.tokens, id, id');
      }
    }
  }
}
