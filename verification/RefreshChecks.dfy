/**
 What a refresh, a login and a revocation have checked, over every interleaving: nothing is rotated, saved or
 revoked that the checks on the way have not let through.
 */
module RefreshChecks {
  import opened Basics
  import opened Domain
  import opened RefreshTokens
  import opened RefreshProtocol

  predicate Present(accounts: Accounts, user: UserId) { user in accounts && !accounts[user].deleted }

  /** The request has read an unused, unrevoked token that has not expired, and is about to look at it. */
  predicate ReadsValid(s: State, r: RequestId) {
    && r in s.requests && s.requests[r].Checking?
    && var row := s.requests[r].read; row.usedAt.None? && row.revocation.None? && s.now <= row.expiresAt
  }

  /** The request is about to look at the owner of its token, who is present and not disabled. */
  predicate FindsUsable(s: State, r: RequestId) {
    && r in s.requests && s.requests[r].FindingUser? && Present(s.accounts, s.requests[r].read.user)
    && s.accounts[s.requests[r].read.user].status != Disabled
  }

  /** Only these checks lead on to the owner, and from there to a rotation. */
  lemma StepPassesIff(s: State, r: RequestId, newId: TokenId, family: FamilyId)
    requires Enabled(s, Step(r, newId, family))
    ensures Apply(s, Step(r, newId, family)).requests[r].FindingUser? <==> ReadsValid(s, r)
    ensures Apply(s, Step(r, newId, family)).requests[r].Rotating? <==> FindsUsable(s, r)
  {
  }

  /** Where a check fails, the request goes on to revoke what it must, with the answer that it must. */
  lemma FailedChecks(s: State, r: RequestId, newId: TokenId, family: FamilyId)
    requires Enabled(s, Step(r, newId, family))
    ensures var q, q' := s.requests[r], Apply(s, Step(r, newId, family)).requests[r];
            && (q.Checking? && q.read.expiresAt < s.now ==> q' == RevokingOne(q.token, None, TokenExpired))
            && (q.Checking? && q.read.expiresAt >= s.now && (q.read.usedAt.Some? || q.read.revocation.Some?) ==> q' == RevokingFamily(q.read.family))
            && (q.FindingUser? && !Present(s.accounts, q.read.user) ==>
                  q' == RevokingOne(q.token, Some(AccountDeleted), SessionRevoked(AccountDeleted)))
            && (q.FindingUser? && Present(s.accounts, q.read.user) && s.accounts[q.read.user].status == Disabled ==>
                  q' == RevokingOne(q.token, Some(Reason.AccountDisabled), SessionRevoked(Reason.AccountDisabled)))
  {
  }

  /** The request is past looking at the token, or at its owner. */
  predicate PastToken(q: Request) { q.FindingUser? || PastOwner(q) }

  predicate PastOwner(q: Request) {
    q.Rotating? || q.InRotation? || q.Signing? || ((q.Done? || q.RevokingOne?) && (q.outcome.NewPair? || q.outcome.IssueFailed?))
  }

  ghost predicate OnceValid(s: State, trace: seq<Action>, r: RequestId)
    requires Possible(s, trace)
    decreases |trace|
  {
    trace != [] && (ReadsValid(s, r) || OnceValid(Apply(s, trace[0]), trace[1..], r))
  }

  ghost predicate OnceUsable(s: State, trace: seq<Action>, r: RequestId)
    requires Possible(s, trace)
    decreases |trace|
  {
    trace != [] && (FindsUsable(s, r) || OnceUsable(Apply(s, trace[0]), trace[1..], r))
  }

  predicate At(s: State, r: RequestId, past: Request -> bool) { r in s.requests && past(s.requests[r]) }

  lemma EntersThroughChecks(s: State, a: Action, r: RequestId)
    requires Enabled(s, a)
    ensures At(Apply(s, a), r, PastToken) ==> At(s, r, PastToken) || ReadsValid(s, r)
    ensures At(Apply(s, a), r, PastOwner) ==> At(s, r, PastOwner) || FindsUsable(s, r)
  {
  }

  /**
   Under every interleaving a request that rotates its token, obtains a pair, or fails in signing after a
   rotation, has in this run met its token unused, unrevoked and unexpired, and its owner present and not disabled.
   */
  lemma {:induction false} RotatedWasVetted(s: State, trace: seq<Action>, r: RequestId)
    requires Possible(s, trace) && !At(s, r, PastToken)
    ensures At(Run(s, trace), r, PastToken) ==> OnceValid(s, trace, r)
    ensures At(Run(s, trace), r, PastOwner) ==> OnceUsable(s, trace, r)
    decreases |trace|
  {
    TokenWasVetted(s, trace, r);
    OwnerWasVetted(s, trace, r);
  }

  lemma {:induction false} TokenWasVetted(s: State, trace: seq<Action>, r: RequestId)
    requires Possible(s, trace) && !At(s, r, PastToken)
    ensures At(Run(s, trace), r, PastToken) ==> OnceValid(s, trace, r)
    decreases |trace|
  {
    if trace != [] {
      EntersThroughChecks(s, trace[0], r);
      if !At(Apply(s, trace[0]), r, PastToken) {
        TokenWasVetted(Apply(s, trace[0]), trace[1..], r);
      }
    }
  }

  lemma {:induction false} OwnerWasVetted(s: State, trace: seq<Action>, r: RequestId)
    requires Possible(s, trace) && !At(s, r, PastOwner)
    ensures At(Run(s, trace), r, PastOwner) ==> OnceUsable(s, trace, r)
    decreases |trace|
  {
    if trace != [] {
      EntersThroughChecks(s, trace[0], r);
      if !At(Apply(s, trace[0]), r, PastOwner) {
        OwnerWasVetted(Apply(s, trace[0]), trace[1..], r);
      }
    }
  }

  /** An error changes no row; only one in signing comes after a rotation, and is told as such. */
  lemma ErrorIsAnswered(s: State, r: RequestId)
    requires Enabled(s, Fail(r))
    ensures var q, s' := s.requests[r], Apply(s, Fail(r));
            && s'.tokens == s.tokens && s'.accounts == s.accounts
            && s'.requests[r] == if q.Signing? then Done(IssueFailed(q.token, q.child)) else Done(Failed)
  {
  }

  /** A login saves a session exactly if its account is present and may log in when it is read. */
  lemma LoginPassesIff(s: State, r: RequestId, newId: TokenId, family: FamilyId)
    requires Enabled(s, Step(r, newId, family)) && s.requests[r].LoggingIn?
    ensures var user, q' := s.requests[r].user, Apply(s, Step(r, newId, family)).requests[r];
            q' == if Present(s.accounts, user) && s.accounts[user].status == Inactive then SavingToken(user) else Done(LoginRefused)
  {
  }

  // ---- Revocations of all of a user's tokens ----

  /** The request's user can be the target: present, and for a disable active. */
  predicate CanRevoke(s: State, user: UserId, purpose: Purpose) {
    Present(s.accounts, user) && (purpose.Disabling? ==> s.accounts[user].status == Inactive)
  }

  ghost predicate RevocationInv(s: State) {
    forall r :: r in s.requests && s.requests[r].InRevocation? ==>
      var q := s.requests[r];
      && !q.account.deleted && (q.purpose.Disabling? ==> q.account.status == Inactive)
      && forall id :: id in q.seen ==> q.seen[id].user == q.user && q.seen[id].revocation.None?
  }

  lemma StepKeepsRevocationInv(s: State, a: Action)
    requires RevocationInv(s) && Enabled(s, a)
    ensures RevocationInv(Apply(s, a))
  {
  }

  /**
   A revocation that succeeds is one that could begin at its commit: it changes the account as it is then, to
   disabled or to the new password only, and revokes, with its reason, unrevoked tokens of the user as they
   are then.
   */
  lemma CommittedRevocation(s: State, r: RequestId, newId: TokenId, family: FamilyId)
    requires RevocationInv(s) && Enabled(s, Step(r, newId, family)) && s.requests[r].InRevocation?
    requires Apply(s, Step(r, newId, family)).requests[r] == Done(SessionsRevoked)
    ensures var q, s' := s.requests[r], Apply(s, Step(r, newId, family));
            && CanRevoke(s, q.user, q.purpose)
            && s'.accounts == s.accounts[q.user := if q.purpose.Disabling? then s.accounts[q.user].(status := Disabled)
                                                   else s.accounts[q.user].(password := q.purpose.password)]
            && s'.tokens.Keys == s.tokens.Keys
            && forall id :: id in s.tokens ==>
                 s'.tokens[id] == if id in q.seen then s.tokens[id].(revocation := Some(Revocation(s.now, Some(
                                        if q.purpose.Disabling? then Reason.AccountDisabled else PasswordChanged))))
                                  else s.tokens[id]
  {
  }

  /** A revocation that does not succeed changes nothing, and is told what its user lacks. */
  lemma RefusedRevocation(s: State, r: RequestId, newId: TokenId, family: FamilyId)
    requires Enabled(s, Step(r, newId, family)) && (s.requests[r].Revoking? || s.requests[r].InRevocation?)
    requires Apply(s, Step(r, newId, family)).requests[r] != Done(SessionsRevoked)
    ensures var q, s' := s.requests[r], Apply(s, Step(r, newId, family));
            && s'.accounts == s.accounts && s'.tokens == s.tokens
            && (s'.requests[r] == Done(AlreadyDisabled) <==>
                  (q.Revoking? || q.tries < 10) && q.purpose.Disabling? && !CanRevoke(s, q.user, q.purpose))
            && (s'.requests[r] == Done(Failed) <==>
                  (q.Revoking? || q.tries < 10) && !q.purpose.Disabling? && !CanRevoke(s, q.user, q.purpose))
            && (s'.requests[r] == Done(RevocationExhausted) <==> q.InRevocation? && q.tries >= 10)
  {
  }

  /** The snapshot of an attempt shows exactly the unrevoked tokens that the user has then. */
  lemma SnapshotIsComplete(s: State, r: RequestId, newId: TokenId, family: FamilyId)
    requires Enabled(s, Step(r, newId, family)) && (s.requests[r].Revoking? || s.requests[r].InRevocation?)
    requires Apply(s, Step(r, newId, family)).requests[r].InRevocation?
    ensures var q, q' := s.requests[r], Apply(s, Step(r, newId, family)).requests[r];
            && CanRevoke(s, q.user, q.purpose) && q'.user == q.user && q'.purpose == q.purpose && q'.account == s.accounts[q.user]
            && forall id :: (id in q'.seen <==> id in s.tokens && s.tokens[id].user == q.user && s.tokens[id].revocation.None?)
                            && (id in q'.seen ==> q'.seen[id] == s.tokens[id])
  {
  }
}
