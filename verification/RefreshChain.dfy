/** What every interleaving of the refresh protocol keeps: rows only grow and families are chains. */
module RefreshChain {
  import opened Basics
  import opened Domain
  import opened RefreshTokens
  import opened RefreshProtocol

  // ---- Rows ----

  lemma StepGrows(s: State, a: Action)
    requires Enabled(s, a)
    ensures Grows(s.tokens, Apply(s, a).tokens)
  {
  }

  /** used_at, revoked_at and revocation_reason are written once, and no row is removed, over any run. */
  lemma {:induction false} RunGrows(s: State, trace: seq<Action>)
    requires Possible(s, trace)
    ensures Grows(s.tokens, Run(s, trace).tokens)
    decreases |trace|
  {
    if trace != [] {
      StepGrows(s, trace[0]);
      RunGrows(Apply(s, trace[0]), trace[1..]);
    }
  }

  // ---- What a request remembers ----

  predicate IsRotated(q: Request) {
    q.Signing? || (q.Done? && (q.outcome.NewPair? || q.outcome.IssueFailed?))
  }

  function RotatedFrom(q: Request): TokenId
    requires IsRotated(q)
  {
    if q.Signing? then q.token else q.outcome.parent
  }

  function RotatedTo(q: Request): TokenId
    requires IsRotated(q)
  {
    if q.Signing? then q.child else q.outcome.child
  }

  /** Attempt number `tries` of a rotation: every earlier attempt met an update of the row. */
  ghost predicate RequestInv(tokens: Tokens, q: Request) {
    && (q.Checking? || q.FindingUser? || q.Rotating? || q.InRotation? ==>
          q.token in tokens && Later(q.read, tokens[q.token]))
    && (q.FindingUser? || q.Rotating? || q.InRotation? ==> Live(q.read))
    && (q.InRotation? ==> Later(q.row, tokens[q.token]) && 1 <= q.tries <= 1 + Updates(q.row))
    && (q.InRevocation? ==>
          forall id :: id in q.seen ==> id in tokens && Later(q.seen[id], tokens[id]) && q.seen[id].user == q.user)
    && (q.FamilyStatement? ==> forall id :: id in q.ids ==> id in tokens && tokens[id].family == q.family)
    && (IsRotated(q) ==> RotatedTo(q) in tokens && tokens[RotatedTo(q)].parent == Some(RotatedFrom(q)))
    && (q.RevokingOne? ==> q.outcome.TokenExpired? || q.outcome.SessionRevoked? || q.outcome.LoggedOut?)
    && q != Done(RotationExhausted)
  }

  ghost predicate RequestsInv(s: State) {
    forall r :: r in s.requests ==> RequestInv(s.tokens, s.requests[r])
  }

  lemma GrowthKeepsRequest(tokens: Tokens, tokens': Tokens, q: Request)
    requires RequestInv(tokens, q) && Grows(tokens, tokens')
    ensures RequestInv(tokens', q)
  {
  }

  lemma OwnStepKeepsRequest(s: State, r: RequestId, newId: TokenId, family: FamilyId)
    requires Enabled(s, Step(r, newId, family)) && RequestInv(s.tokens, s.requests[r])
    ensures RequestInv(NextTokens(s, r, newId, family), NextRequest(s, r, newId))
  {
    var q := s.requests[r];
    if q.InRotation? && q.row.usedAt.None? && s.tokens[q.token] != q.row {
      ChangedRowsCountUp(q.row, s.tokens[q.token]);
    }
  }

  lemma StepKeepsRequests(s: State, a: Action)
    requires RequestsInv(s) && Enabled(s, a)
    ensures RequestsInv(Apply(s, a))
  {
    var s' := Apply(s, a);
    StepGrows(s, a);
    forall r | r in s'.requests ensures RequestInv(s'.tokens, s'.requests[r]) {
      if a.Step? && r == a.r {
        OwnStepKeepsRequest(s, r, a.freshToken, a.freshFamily);
      } else if r in s.requests {
        GrowthKeepsRequest(s.tokens, s'.tokens, s.requests[r]);
      }
    }
  }

  // ---- Families are chains ----

  /** `chain` lists family `family`: a root, then each token's only child; all but the last are used. */
  ghost predicate IsChain(tokens: Tokens, family: FamilyId, chain: seq<TokenId>) {
    && chain != []
    && (forall id :: id in chain <==> id in tokens && tokens[id].family == family)
    && (forall i, j :: 0 <= i < j < |chain| ==> chain[i] != chain[j])
    && forall i :: 0 <= i < |chain| ==> IsLink(tokens, chain, i)
  }

  ghost predicate IsLink(tokens: Tokens, chain: seq<TokenId>, i: nat)
    requires i < |chain|
  {
    && chain[i] in tokens && chain[0] in tokens
    && tokens[chain[i]].user == tokens[chain[0]].user
    && tokens[chain[i]].parent == (if i == 0 then None else Some(chain[i - 1]))
    && (tokens[chain[i]].usedAt.Some? <==> i < |chain| - 1)
  }

  ghost predicate Chained(tokens: Tokens, family: FamilyId) {
    exists chain :: IsChain(tokens, family, chain)
  }

  ghost predicate AllChained(tokens: Tokens) {
    forall family :: family in Families(tokens) ==> Chained(tokens, family)
  }

  lemma RevokeKeepsChains(tokens: Tokens, ids: set<TokenId>, now: Time, reason: Option<Reason>)
    requires AllChained(tokens)
    ensures AllChained(RevokeIn(tokens, ids, now, reason))
  {
    var tokens' := RevokeIn(tokens, ids, now, reason);
    forall family | family in Families(tokens') ensures Chained(tokens', family) {
      assert family in Families(tokens);
      var chain :| IsChain(tokens, family, chain);
      forall i | 0 <= i < |chain| ensures IsLink(tokens', chain, i) {
        assert IsLink(tokens, chain, i);
      }
      assert IsChain(tokens', family, chain);
    }
  }

  lemma NewFamilyKeepsChains(tokens: Tokens, newId: TokenId, root: Token)
    requires AllChained(tokens) && newId !in tokens && root.family !in Families(tokens)
    requires root.parent.None? && root.usedAt.None?
    ensures AllChained(tokens[newId := root])
  {
    var tokens' := tokens[newId := root];
    forall family | family in Families(tokens') ensures Chained(tokens', family) {
      if family == root.family {
        assert forall id :: id in tokens ==> tokens[id].family in Families(tokens);
        assert IsLink(tokens', [newId], 0);
        assert IsChain(tokens', family, [newId]);
      } else {
        assert family in Families(tokens);
        var chain :| IsChain(tokens, family, chain);
        forall i | 0 <= i < |chain| ensures IsLink(tokens', chain, i) {
          assert IsLink(tokens, chain, i);
        }
        assert IsChain(tokens', family, chain);
      }
    }
  }

  /** Rotation is possible only at the end of a chain, and appends one link. */
  lemma RotationExtendsChain(tokens: Tokens, id: TokenId, newId: TokenId, child: Token, now: Time, chain: seq<TokenId>)
    requires id in tokens && tokens[id].usedAt.None? && newId !in tokens
    requires child.family == tokens[id].family && child.user == tokens[id].user
    requires child.parent == Some(id) && child.usedAt.None?
    requires IsChain(tokens, tokens[id].family, chain)
    ensures chain[|chain| - 1] == id
    ensures IsChain(tokens[id := Used(tokens[id], now)][newId := child], tokens[id].family, chain + [newId])
  {
    var family, longer := tokens[id].family, chain + [newId];
    var tokens' := tokens[id := Used(tokens[id], now)][newId := child];
    assert id in chain;
    var k :| 0 <= k < |chain| && chain[k] == id;
    assert IsLink(tokens, chain, k);
    forall i | 0 <= i < |longer| ensures IsLink(tokens', longer, i) {
      assert IsLink(tokens, chain, 0);
      if i < |chain| {
        assert IsLink(tokens, chain, i);
        assert chain[i] in chain;
      }
    }
    forall x ensures x in longer <==> x in tokens' && tokens'[x].family == family {
      assert x in longer <==> x in chain || x == newId;
    }
    forall i, j | 0 <= i < j < |longer| ensures longer[i] != longer[j] {
      assert longer[i] in chain;
    }
  }

  lemma RotationKeepsChains(tokens: Tokens, id: TokenId, newId: TokenId, child: Token, now: Time)
    requires AllChained(tokens) && id in tokens && tokens[id].usedAt.None? && newId !in tokens
    requires child.family == tokens[id].family && child.user == tokens[id].user
    requires child.parent == Some(id) && child.usedAt.None?
    ensures AllChained(tokens[id := Used(tokens[id], now)][newId := child])
  {
    var tokens' := tokens[id := Used(tokens[id], now)][newId := child];
    forall family | family in Families(tokens') ensures Chained(tokens', family) {
      assert child.family in Families(tokens);
      assert family in Families(tokens);
      var chain :| IsChain(tokens, family, chain);
      if family == child.family {
        RotationExtendsChain(tokens, id, newId, child, now, chain);
      } else {
        forall i | 0 <= i < |chain| ensures IsLink(tokens', chain, i) {
          assert IsLink(tokens, chain, i) && chain[i] in chain;
        }
        forall x ensures x in chain <==> x in tokens' && tokens'[x].family == family {
        }
        assert IsChain(tokens', family, chain);
      }
    }
  }

  lemma StepKeepsChains(s: State, a: Action)
    requires RequestsInv(s) && AllChained(s.tokens) && Enabled(s, a)
    ensures AllChained(Apply(s, a).tokens)
  {
    if a.Step? {
      var q := s.requests[a.r];
      assert RequestInv(s.tokens, q);
      if q.InRotation? && CommitsRotation(q, s.tokens) {
        RotationKeepsChains(s.tokens, q.token, a.freshToken, Child(q), s.now);
      } else if q.FamilyStatement? {
        RevokeKeepsChains(s.tokens, q.ids, s.now, Some(ReuseDetected));
      } else if q.RevokingOne? {
        RevokeKeepsChains(s.tokens, {q.token}, s.now, q.reason);
      } else if q.SavingToken? {
        NewFamilyKeepsChains(s.tokens, a.freshToken,
          Token(q.user, a.freshFamily, None, s.now + REFRESH_TOKEN_TTL, None, None));
      } else if q.InRevocation? && CommitsRevocation(q, s) {
        RevokeKeepsChains(s.tokens, q.seen.Keys, s.now, Some(ReasonFor(q.purpose)));
      }
    }
  }

  // ---- Rotations and children correspond ----

  function Rotators(requests: map<RequestId, Request>): set<RequestId> {
    set r | r in requests && IsRotated(requests[r])
  }

  /** Every child was made by exactly one request that rotated its parent. */
  ghost predicate ChildrenHaveRotators(s: State) {
    && (forall r, r' ::
          r in Rotators(s.requests) && r' in Rotators(s.requests) && SameChild(s.requests[r], s.requests[r']) ==> r == r')
    && (forall id :: id in s.tokens && s.tokens[id].parent.Some? ==> HasRotator(s, id))
  }

  predicate SameChild(q: Request, q': Request)
    requires IsRotated(q) && IsRotated(q')
  {
    RotatedTo(q) == RotatedTo(q')
  }

  ghost predicate HasRotator(s: State, id: TokenId) {
    exists r :: r in Rotators(s.requests) && RotatedTo(s.requests[r]) == id
  }

  ghost predicate Inv(s: State) {
    RequestsInv(s) && AllChained(s.tokens) && ChildrenHaveRotators(s)
  }

  lemma RotatorsKept(s: State, a: Action, r: RequestId)
    requires Enabled(s, a) && r in Rotators(s.requests)
    ensures r in Rotators(Apply(s, a).requests)
    ensures RotatedTo(Apply(s, a).requests[r]) == RotatedTo(s.requests[r])
    ensures RotatedFrom(Apply(s, a).requests[r]) == RotatedFrom(s.requests[r])
  {
  }

  /** Only a committing rotation makes a new rotator, for the token it inserts. */
  lemma NewRotator(s: State, a: Action, r: RequestId)
    requires RequestsInv(s) && Enabled(s, a) && r in Rotators(Apply(s, a).requests) && r !in Rotators(s.requests)
    ensures a.Step? && a.r == r && s.requests[r].InRotation? && CommitsRotation(s.requests[r], s.tokens)
    ensures RotatedTo(Apply(s, a).requests[r]) == a.freshToken
  {
    if r in s.requests {
      assert RequestInv(s.tokens, s.requests[r]);
    }
  }

  lemma StepKeepsRotators(s: State, a: Action)
    requires Inv(s) && Enabled(s, a)
    ensures ChildrenHaveRotators(Apply(s, a))
  {
    var s' := Apply(s, a);
    forall r, r' | r in Rotators(s'.requests) && r' in Rotators(s'.requests) && SameChild(s'.requests[r], s'.requests[r'])
      ensures r == r'
    {
      OldOrNew(s, a, r);
      OldOrNew(s, a, r');
    }
    forall id | id in s'.tokens && s'.tokens[id].parent.Some? ensures HasRotator(s', id) {
      if id in s.tokens {
        StepGrows(s, a);
        assert HasRotator(s, id);
        var r :| r in Rotators(s.requests) && RotatedTo(s.requests[r]) == id;
        RotatorsKept(s, a, r);
      } else {
        assert a.r in Rotators(s'.requests) && RotatedTo(s'.requests[a.r]) == id;
      }
    }
  }

  lemma OldOrNew(s: State, a: Action, r: RequestId)
    requires RequestsInv(s) && Enabled(s, a) && r in Rotators(Apply(s, a).requests)
    ensures r in Rotators(s.requests) ==>
      RotatedTo(Apply(s, a).requests[r]) == RotatedTo(s.requests[r]) && RotatedTo(s.requests[r]) in s.tokens
    ensures r !in Rotators(s.requests) ==>
      a.Step? && a.r == r && RotatedTo(Apply(s, a).requests[r]) == a.freshToken && a.freshToken !in s.tokens
  {
    if r in Rotators(s.requests) {
      RotatorsKept(s, a, r);
      assert RequestInv(s.tokens, s.requests[r]);
    } else {
      NewRotator(s, a, r);
    }
  }

  lemma StepKeepsInv(s: State, a: Action)
    requires Inv(s) && Enabled(s, a)
    ensures Inv(Apply(s, a))
  {
    StepKeepsRequests(s, a);
    StepKeepsChains(s, a);
    StepKeepsRotators(s, a);
  }

  lemma {:induction false} RunKeepsInv(s: State, trace: seq<Action>)
    requires Inv(s) && Possible(s, trace)
    ensures Inv(Run(s, trace))
    decreases |trace|
  {
    if trace != [] {
      StepKeepsInv(s, trace[0]);
      RunKeepsInv(Apply(s, trace[0]), trace[1..]);
    }
  }

  // ---- Main results ----

  ghost predicate IsStart(s: State) {
    s.tokens == map[] && s.requests == map[]
  }

  lemma StartSatisfiesInv(s: State)
    requires IsStart(s)
    ensures Inv(s)
  {
  }

  /** In every reachable state each family is one linear chain. */
  lemma FamiliesAreChains(s: State, trace: seq<Action>)
    requires IsStart(s) && Possible(s, trace)
    ensures forall family :: family in Families(Run(s, trace).tokens) ==> Chained(Run(s, trace).tokens, family)
  {
    StartSatisfiesInv(s);
    RunKeepsInv(s, trace);
  }

  /** No two requests ever rotate the same token, so at most one of those presenting it gets a new pair. */
  lemma OneRotationPerToken(s: State, r: RequestId, r': RequestId)
    requires Inv(s) && r in Rotators(s.requests) && r' in Rotators(s.requests)
    requires RotatedFrom(s.requests[r]) == RotatedFrom(s.requests[r'])
    ensures r == r'
  {
    var id, id' := RotatedTo(s.requests[r]), RotatedTo(s.requests[r']);
    var parent := RotatedFrom(s.requests[r]);
    assert RequestInv(s.tokens, s.requests[r]) && RequestInv(s.tokens, s.requests[r']);
    ParentInFamily(s.tokens, id, parent);
    ParentInFamily(s.tokens, id', parent);
    OnlyChild(s.tokens, id, id', parent);
  }

  lemma ParentInFamily(tokens: Tokens, id: TokenId, parent: TokenId)
    requires AllChained(tokens) && id in tokens && tokens[id].parent == Some(parent)
    ensures parent in tokens && tokens[parent].family == tokens[id].family && tokens[parent].usedAt.Some?
    ensures tokens[parent].user == tokens[id].user
  {
    var family := tokens[id].family;
    assert family in Families(tokens);
    var chain :| IsChain(tokens, family, chain);
    assert id in chain;
    var k :| 0 <= k < |chain| && chain[k] == id;
    assert IsLink(tokens, chain, k);
    assert IsLink(tokens, chain, k - 1) && chain[k - 1] in chain;
  }

  lemma OnlyChild(tokens: Tokens, id: TokenId, id': TokenId, parent: TokenId)
    requires AllChained(tokens) && id in tokens && id' in tokens
    requires tokens[id].parent == Some(parent) == tokens[id'].parent
    ensures id == id'
  {
    ParentInFamily(tokens, id, parent);
    ParentInFamily(tokens, id', parent);
    var family := tokens[id].family;
    assert family in Families(tokens);
    var chain :| IsChain(tokens, family, chain);
    assert id in chain && id' in chain;
    var k :| 0 <= k < |chain| && chain[k] == id;
    var k' :| 0 <= k' < |chain| && chain[k'] == id';
    assert IsLink(tokens, chain, k) && IsLink(tokens, chain, k');
  }

  /** All tokens of a family belong to one user. */
  lemma OneOwner(tokens: Tokens, id: TokenId, id': TokenId)
    requires AllChained(tokens) && id in tokens && id' in tokens && tokens[id].family == tokens[id'].family
    ensures tokens[id].user == tokens[id'].user
  {
    assert tokens[id].family in Families(tokens);
    var chain :| IsChain(tokens, tokens[id].family, chain);
    assert id in chain && id' in chain;
    var k :| 0 <= k < |chain| && chain[k] == id;
    var k' :| 0 <= k' < |chain| && chain[k'] == id';
    assert IsLink(tokens, chain, k) && IsLink(tokens, chain, k');
  }

  /** The requests that rotated a token of `family`. */
  function FamilyRotators(s: State, family: FamilyId): set<RequestId> {
    set r | r in Rotators(s.requests) && RotatedTo(s.requests[r]) in FamilyIds(s.tokens, family)
  }

  /** A family has one token for the login that started it and one for each rotation in it. */
  lemma FamilySize(s: State, family: FamilyId)
    requires Inv(s) && family in Families(s.tokens)
    ensures |FamilyIds(s.tokens, family)| == 1 + |FamilyRotators(s, family)|
  {
    var ids, rotators := FamilyIds(s.tokens, family), FamilyRotators(s, family);
    var chain :| IsChain(s.tokens, family, chain);
    var root := chain[0];
    assert IsLink(s.tokens, chain, 0) && root in chain;
    forall id | id in ids && id != root ensures s.tokens[id].parent.Some? {
      assert id in chain;
      var k :| 0 <= k < |chain| && chain[k] == id;
      assert IsLink(s.tokens, chain, k);
    }
    var made := r requires r in rotators => RotatedTo(s.requests[r]);
    forall r | r in rotators ensures made(r) in ids - {root} {
      assert RequestInv(s.tokens, s.requests[r]);
    }
    forall id | id in ids - {root} ensures exists r :: r in rotators && made(r) == id {
      assert HasRotator(s, id);
      var r :| r in Rotators(s.requests) && RotatedTo(s.requests[r]) == id;
      assert r in rotators && made(r) == id;
    }
    InjectiveImageSize(rotators, made, ids - {root});
  }

  /** Contention on one token costs a rotation at most two attempts: it never runs out of its ten. */
  lemma RotationNeverExhausted(s: State, trace: seq<Action>, r: RequestId)
    requires IsStart(s) && Possible(s, trace) && r in Run(s, trace).requests
    ensures Run(s, trace).requests[r] != Done(RotationExhausted)
    ensures Run(s, trace).requests[r].InRotation? ==> Run(s, trace).requests[r].tries <= 3
  {
    StartSatisfiesInv(s);
    RunKeepsInv(s, trace);
    assert RequestInv(Run(s, trace).tokens, Run(s, trace).requests[r]);
  }
}
