/** Several requests present the same live token: one wins, the others revoke the whole family. */
module RefreshContest {
  import opened Basics
  import opened Domain
  import opened RefreshTokens
  import opened RefreshProtocol
  import opened RefreshChain

  /** The contested token, its row and its family's tokens at the start, and the requests that present it. */
  datatype Contest = Contest(id: TokenId, row: Token, members: set<TokenId>, contenders: set<RequestId>)

  /** A request outside the contest that has read nothing of the contested family and will not revoke its owner. */
  ghost predicate Bystander(c: Contest, tokens: Tokens, q: Request) {
    && (q.Checking? || q.FindingUser? || q.Rotating? || q.InRotation? ==> q.read.family != c.row.family)
    && (q.RevokingFamily? || q.FamilyStatement? ==> q.family != c.row.family)
    && (q.RevokingOne? ==> q.token in tokens && tokens[q.token].family != c.row.family)
    && (q.Revoking? || q.InRevocation? ==> q.user != c.row.user)
  }

  predicate ActiveAccount(accounts: Accounts, user: UserId) {
    user in accounts && !accounts[user].deleted && accounts[user].status != Disabled
  }

  ghost predicate ContestStart(c: Contest, s: State) {
    && Inv(s)
    && c.id in s.tokens && s.tokens[c.id] == c.row && Live(c.row) && s.now <= c.row.expiresAt
    && c.members == FamilyIds(s.tokens, c.row.family)
    && ActiveAccount(s.accounts, c.row.user)
    && (forall r :: r in c.contenders ==> r in s.requests && s.requests[r] == Presented(c.id))
    && (forall r :: r in s.requests && r !in c.contenders ==> Bystander(c, s.tokens, s.requests[r]))
  }

  /**
   What may happen during the contest: anything the contenders do, and all other traffic that neither
   presents a token of the family, nor revokes the owner's sessions or changes his account; no contender
   fails and the token does not expire.
   */
  predicate ContestAction(c: Contest, s: State, a: Action) {
    match a
    case Arrive(_, q) => q.Revoking? ==> q.user != c.row.user
    case Step(r, _, _) =>
      r in c.contenders
      || (r in s.requests && (s.requests[r].Presented? || s.requests[r].LogoutPresented? ==>
            s.requests[r].token !in FamilyIds(s.tokens, c.row.family)))
    case Fail(r) => r !in c.contenders
    case Wait(duration) => s.now + duration <= c.row.expiresAt
    case SetAccount(user, _) => user != c.row.user
  }

  predicate ContestTrace(c: Contest, s: State, trace: seq<Action>)
    requires Possible(s, trace)
    decreases |trace|
  {
    trace == [] || (ContestAction(c, s, trace[0]) && ContestTrace(c, Apply(s, trace[0]), trace[1..]))
  }

  // ---- The two phases of a contest ----

  /** Nobody has rotated the token: every contender still sees it as it was. */
  ghost predicate Undecided(c: Contest, s: State) {
    && c.id in s.tokens && s.tokens[c.id] == c.row
    && FamilyIds(s.tokens, c.row.family) == c.members
    && forall r :: r in c.contenders ==> r in s.requests && OnTheWay(c, s.requests[r])
  }

  ghost predicate OnTheWay(c: Contest, q: Request) {
    || q == Presented(c.id)
    || ((q.Checking? || q.FindingUser? || q.Rotating?) && q.token == c.id && q.read == c.row)
    || (q.InRotation? && q.token == c.id && q.read == c.row && q.row == c.row)
  }

  /** Request `winner` has rotated the token into `child`; the others can only find that out. */
  ghost predicate Decided(c: Contest, s: State, winner: RequestId, child: TokenId) {
    && c.id in s.tokens && s.tokens[c.id].usedAt.Some?
    && FamilyIds(s.tokens, c.row.family) == c.members + {child}
    && winner in c.contenders && winner in s.requests
    && s.requests[winner] in {Signing(c.id, child), Done(NewPair(c.id, child))}
    && forall r :: r in c.contenders && r != winner ==> r in s.requests && Losing(c, s, child, s.requests[r])
  }

  ghost predicate Losing(c: Contest, s: State, child: TokenId, q: Request) {
    || q == Presented(c.id)
    || ((q.Checking? || q.FindingUser? || q.Rotating? || q.InRotation?)
        && q.token == c.id && q.read.family == c.row.family && q.read.expiresAt == c.row.expiresAt
        && q.read.user == c.row.user)
    || q == RevokingFamily(c.row.family)
    || q == FamilyStatement(c.row.family, c.members + {child})
    || (q == Done(SessionRevoked(ReuseDetected)) && AllRevoked(s.tokens, c.row.family))
  }

  ghost predicate AllRevoked(tokens: Tokens, family: FamilyId) {
    forall id :: id in FamilyIds(tokens, family) ==> tokens[id].revocation.Some?
  }

  ghost predicate Phase(c: Contest, s: State) {
    Undecided(c, s) || exists winner, child :: Decided(c, s, winner, child)
  }

  ghost predicate ContestInv(c: Contest, s: State) {
    && Inv(s)
    && c.id in s.tokens && s.tokens[c.id].user == c.row.user && s.tokens[c.id].family == c.row.family
    && s.tokens[c.id].expiresAt == c.row.expiresAt
    && c.row.usedAt.None? && s.now <= c.row.expiresAt && Live(c.row)
    && ActiveAccount(s.accounts, c.row.user)
    && (forall r :: r in s.requests && r !in c.contenders ==> Bystander(c, s.tokens, s.requests[r]))
    && Phase(c, s)
  }

  // ---- Bystanders ----

  ghost predicate FamilyUntouched(c: Contest, tokens: Tokens, tokens': Tokens) {
    && FamilyIds(tokens', c.row.family) == FamilyIds(tokens, c.row.family)
    && forall id :: id in FamilyIds(tokens, c.row.family) ==> tokens'[id] == tokens[id]
  }

  lemma BystanderTokens(c: Contest, s: State, r: RequestId, newId: TokenId, family: FamilyId)
    requires ContestInv(c, s) && Enabled(s, Step(r, newId, family))
    requires r !in c.contenders
    ensures FamilyUntouched(c, s.tokens, NextTokens(s, r, newId, family))
  {
    var q := s.requests[r];
    assert RequestInv(s.tokens, q) && Bystander(c, s.tokens, q);
    assert c.row.family in Families(s.tokens);
    if q.InRevocation? && CommitsRevocation(q, s) {
      forall id | id in FamilyIds(s.tokens, c.row.family) ensures id !in q.seen {
        OneOwner(s.tokens, id, c.id);
      }
    }
  }

  lemma BystanderRequest(c: Contest, s: State, r: RequestId, newId: TokenId, family: FamilyId)
    requires Enabled(s, Step(r, newId, family))
    requires RequestInv(s.tokens, s.requests[r]) && Bystander(c, s.tokens, s.requests[r])
    requires r !in c.contenders && ContestAction(c, s, Step(r, newId, family))
    ensures Bystander(c, s.tokens, NextRequest(s, r, newId))
  {
  }

  lemma BystanderKept(c: Contest, tokens: Tokens, tokens': Tokens, q: Request)
    requires Bystander(c, tokens, q) && Grows(tokens, tokens')
    ensures Bystander(c, tokens', q)
  {
  }

  /** A change outside the family leaves the phase as it is. */
  lemma PhaseKept(c: Contest, s: State, s': State)
    requires Phase(c, s) && FamilyUntouched(c, s.tokens, s'.tokens)
    requires c.id in s.tokens && s.tokens[c.id].family == c.row.family
    requires forall r :: r in c.contenders && r in s.requests ==> r in s'.requests && s'.requests[r] == s.requests[r]
    ensures Phase(c, s')
  {
    assert c.id in FamilyIds(s.tokens, c.row.family);
    assert c.id in FamilyIds(s'.tokens, c.row.family);
    if !Undecided(c, s) {
      var winner, child :| Decided(c, s, winner, child);
      forall r | r in c.contenders && r != winner ensures r in s'.requests && Losing(c, s', child, s'.requests[r]) {
        assert Losing(c, s, child, s.requests[r]);
      }
      assert Decided(c, s', winner, child);
    } else {
      assert Undecided(c, s');
    }
  }

  // ---- Contenders ----

  /** Before the decision a step of a contender brings it nearer to the rotation, or decides the contest. */
  lemma UndecidedStep(c: Contest, s: State, r: RequestId, newId: TokenId, family: FamilyId)
    requires ContestInv(c, s) && Undecided(c, s) && r in c.contenders && Enabled(s, Step(r, newId, family))
    ensures Phase(c, Apply(s, Step(r, newId, family)))
  {
    var s', q := Apply(s, Step(r, newId, family)), s.requests[r];
    assert OnTheWay(c, q);
    if q.InRotation? {
      assert s'.requests[r] == Signing(c.id, newId);
      assert FamilyIds(s'.tokens, c.row.family) == c.members + {newId};
      assert c.id != newId;
      forall r' | r' in c.contenders && r' != r ensures r' in s'.requests && Losing(c, s', newId, s'.requests[r']) {
        assert OnTheWay(c, s.requests[r']);
      }
      assert Decided(c, s', r, newId);
    } else {
      assert s'.tokens == s.tokens;
      assert OnTheWay(c, s'.requests[r]);
      assert Undecided(c, s');
    }
  }

  lemma LosingStep(c: Contest, s: State, winner: RequestId, child: TokenId, r: RequestId, newId: TokenId, family: FamilyId)
    requires ContestInv(c, s) && Decided(c, s, winner, child) && r in c.contenders && r != winner
    requires Enabled(s, Step(r, newId, family))
    ensures Losing(c, Apply(s, Step(r, newId, family)), child, NextRequest(s, r, newId))
    ensures FamilyIds(Apply(s, Step(r, newId, family)).tokens, c.row.family) == c.members + {child}
  {
    var s', q := Apply(s, Step(r, newId, family)), s.requests[r];
    assert RequestInv(s.tokens, q) && Losing(c, s, child, q);
    if q.FamilyStatement? {
      assert FamilyIds(s'.tokens, c.row.family) == FamilyIds(s.tokens, c.row.family);
      assert AllRevoked(s'.tokens, c.row.family);
    } else {
      assert s'.tokens == s.tokens;
      if q.InRotation? && q.row.usedAt.None? {
        ChangedRowsCountUp(q.row, s.tokens[q.token]);
      }
    }
  }

  lemma OthersStayLosing(c: Contest, s: State, s': State, child: TokenId, q: Request)
    requires Losing(c, s, child, q) && Grows(s.tokens, s'.tokens)
    requires FamilyIds(s'.tokens, c.row.family) == FamilyIds(s.tokens, c.row.family)
    ensures Losing(c, s', child, q)
  {
    if q.Done? {
      RevokedStays(c, s.tokens, s'.tokens);
    }
  }

  lemma DecidedStepTokens(c: Contest, s: State, winner: RequestId, child: TokenId, r: RequestId, newId: TokenId, family: FamilyId)
    requires ContestInv(c, s) && Decided(c, s, winner, child) && r in c.contenders && Enabled(s, Step(r, newId, family))
    ensures FamilyIds(Apply(s, Step(r, newId, family)).tokens, c.row.family) == c.members + {child}
    ensures r == winner ==> Apply(s, Step(r, newId, family)).requests[r] == Done(NewPair(c.id, child))
    ensures r != winner ==> Losing(c, Apply(s, Step(r, newId, family)), child, NextRequest(s, r, newId))
  {
    if r != winner {
      LosingStep(c, s, winner, child, r, newId, family);
    }
  }

  lemma DecidedStep(c: Contest, s: State, winner: RequestId, child: TokenId, r: RequestId, newId: TokenId, family: FamilyId)
    requires ContestInv(c, s) && Decided(c, s, winner, child) && r in c.contenders && Enabled(s, Step(r, newId, family))
    ensures Decided(c, Apply(s, Step(r, newId, family)), winner, child)
  {
    var s' := Apply(s, Step(r, newId, family));
    StepGrows(s, Step(r, newId, family));
    DecidedStepTokens(c, s, winner, child, r, newId, family);
    forall r' | r' in c.contenders && r' != winner ensures r' in s'.requests && Losing(c, s', child, s'.requests[r']) {
      if r' != r {
        assert Losing(c, s, child, s.requests[r']);
        OthersStayLosing(c, s, s', child, s.requests[r']);
      }
    }
  }

  lemma RevokedStays(c: Contest, tokens: Tokens, tokens': Tokens)
    requires AllRevoked(tokens, c.row.family) && Grows(tokens, tokens')
    requires FamilyIds(tokens', c.row.family) == FamilyIds(tokens, c.row.family)
    ensures AllRevoked(tokens', c.row.family)
  {
    forall id | id in FamilyIds(tokens', c.row.family) ensures tokens'[id].revocation.Some? {
      assert id in FamilyIds(tokens, c.row.family);
    }
  }

  // ---- Every action ----

  lemma ContestPhaseStep(c: Contest, s: State, a: Action)
    requires ContestInv(c, s) && Enabled(s, a) && ContestAction(c, s, a)
    ensures Phase(c, Apply(s, a))
  {
    var s' := Apply(s, a);
    if a.Step? && a.r in c.contenders {
      if Undecided(c, s) {
        UndecidedStep(c, s, a.r, a.freshToken, a.freshFamily);
      } else {
        var winner, child :| Decided(c, s, winner, child);
        DecidedStep(c, s, winner, child, a.r, a.freshToken, a.freshFamily);
      }
    } else {
      if a.Step? {
        BystanderTokens(c, s, a.r, a.freshToken, a.freshFamily);
      }
      PhaseKept(c, s, s');
    }
  }

  lemma ContestBystanders(c: Contest, s: State, a: Action)
    requires ContestInv(c, s) && Enabled(s, a) && ContestAction(c, s, a)
    ensures forall r :: r in Apply(s, a).requests && r !in c.contenders ==>
              Bystander(c, Apply(s, a).tokens, Apply(s, a).requests[r])
  {
    var s' := Apply(s, a);
    StepGrows(s, a);
    forall r | r in s'.requests && r !in c.contenders ensures Bystander(c, s'.tokens, s'.requests[r]) {
      if a.Step? && a.r == r {
        assert RequestInv(s.tokens, s.requests[r]);
        BystanderRequest(c, s, r, a.freshToken, a.freshFamily);
        BystanderKept(c, s.tokens, s'.tokens, s'.requests[r]);
      } else if r in s.requests {
        BystanderKept(c, s.tokens, s'.tokens, s.requests[r]);
      }
    }
  }

  lemma ContestStep(c: Contest, s: State, a: Action)
    requires ContestInv(c, s) && Enabled(s, a) && ContestAction(c, s, a)
    ensures ContestInv(c, Apply(s, a))
  {
    StepKeepsInv(s, a);
    StepGrows(s, a);
    ContestPhaseStep(c, s, a);
    ContestBystanders(c, s, a);
    ContestAccounts(c, s, a);
  }

  lemma ContendersRevokeNoUser(c: Contest, s: State, r: RequestId)
    requires ContestInv(c, s) && r in c.contenders
    ensures r in s.requests && !s.requests[r].InRevocation?
  {
    if Undecided(c, s) {
      assert OnTheWay(c, s.requests[r]);
    } else {
      var winner, child :| Decided(c, s, winner, child);
      assert r != winner ==> Losing(c, s, child, s.requests[r]);
    }
  }

  lemma ContestAccounts(c: Contest, s: State, a: Action)
    requires ContestInv(c, s) && Enabled(s, a) && ContestAction(c, s, a)
    ensures ActiveAccount(Apply(s, a).accounts, c.row.user) && Apply(s, a).now <= c.row.expiresAt
  {
    if a.Step? {
      if a.r in c.contenders {
        ContendersRevokeNoUser(c, s, a.r);
      } else {
        assert Bystander(c, s.tokens, s.requests[a.r]);
      }
    }
  }

  lemma {:induction false} ContestRun(c: Contest, s: State, trace: seq<Action>)
    requires ContestInv(c, s) && Possible(s, trace) && ContestTrace(c, s, trace)
    ensures ContestInv(c, Run(s, trace))
    decreases |trace|
  {
    if trace != [] {
      ContestStep(c, s, trace[0]);
      ContestRun(c, Apply(s, trace[0]), trace[1..]);
    }
  }

  /** The contenders that obtained a new token pair. */
  function Winners(c: Contest, s: State): set<RequestId> {
    set r | r in c.contenders && r in s.requests && s.requests[r].Done? && s.requests[r].outcome.NewPair?
  }

  lemma DecidedOnceFinished(c: Contest, s: State, r: RequestId)
    requires Phase(c, s) && r in c.contenders && r in s.requests && s.requests[r].Done?
    ensures exists winner, child :: Decided(c, s, winner, child)
  {
    assert Undecided(c, s) ==> OnTheWay(c, s.requests[r]);
  }

  lemma FinishedContest(c: Contest, s: State, winner: RequestId, child: TokenId)
    requires Decided(c, s, winner, child) && |c.contenders| >= 2
    requires forall r :: r in c.contenders ==> r in s.requests && s.requests[r].Done?
    ensures Winners(c, s) == {winner}
    ensures forall r :: r in c.contenders && r != winner ==> s.requests[r] == Done(SessionRevoked(ReuseDetected))
    ensures AllRevoked(s.tokens, c.row.family)
  {
    forall r | r in c.contenders && r != winner
      ensures s.requests[r] == Done(SessionRevoked(ReuseDetected)) && AllRevoked(s.tokens, c.row.family)
    {
      assert Losing(c, s, child, s.requests[r]);
    }
    assert c.contenders == {winner} + (c.contenders - {winner});
    var other :| other in c.contenders - {winner};
  }

  /**
   When n >= 2 requests present the same live, unexpired token of an active account, then under every
   interleaving, with any unrelated traffic, exactly one of them obtains a new pair, all others report
   reuse, and once all have finished every token of the family is revoked.
   */
  lemma ExactlyOneWinner(c: Contest, s: State, trace: seq<Action>)
    requires ContestStart(c, s) && |c.contenders| >= 2
    requires Possible(s, trace) && ContestTrace(c, s, trace)
    requires forall r :: r in c.contenders ==> r in Run(s, trace).requests && Run(s, trace).requests[r].Done?
    ensures |Winners(c, Run(s, trace))| == 1
    ensures forall r :: r in c.contenders - Winners(c, Run(s, trace)) ==>
              Run(s, trace).requests[r] == Done(SessionRevoked(ReuseDetected))
    ensures AllRevoked(Run(s, trace).tokens, c.row.family)
  {
    assert Undecided(c, s);
    ContestRun(c, s, trace);
    var r :| r in c.contenders;
    DecidedOnceFinished(c, Run(s, trace), r);
    var winner, child :| Decided(c, Run(s, trace), winner, child);
    FinishedContest(c, Run(s, trace), winner, child);
  }
}
