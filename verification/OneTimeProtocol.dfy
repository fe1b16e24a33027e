/**
 Issuing and consuming single-use tokens concurrently. A transaction attempt takes a snapshot and commits
 only if no row it changes was changed since; it misses rows inserted since.
 */
module OneTimeProtocol {
  import opened Basics
  import opened Domain
  import opened OneTimeTokens

  const MAX_TRIES: nat := 10

  type RequestId = nat

  datatype Outcome =
    | Issued(id: TokenId)
    | Consumed(id: TokenId)
    | InvalidToken
    | TokenExpired
    | RetriesExhausted
    | Failed                       // a refused guard, a mail that cannot be sent, or any other error

  datatype Request =
    | Issuing(owner: Owner, role: Option<Role>, expiresAt: Time)
    | InIssue(owner: Owner, role: Option<Role>, expiresAt: Time, seen: Table, tries: nat)
    | Presented(id: TokenId)
    | Checking(id: TokenId, read: Token)
    | Consuming(id: TokenId, read: Token)
    | InConsume(id: TokenId, read: Token, row: Token, seen: Table, tries: nat)
    | Done(outcome: Outcome)

  /** `sweeps`: consuming a token also uses the owner's other active ones (resets and invitations). */
  datatype State = State(now: Time, sweeps: bool, table: Table, requests: map<RequestId, Request>)

  datatype Action =
    | Arrive(r: RequestId, request: Request)
    | Step(r: RequestId, newId: TokenId)
    | Conflict(r: RequestId)       // an attempt fails to serialize for a row of another table, or at its commit
    | Fail(r: RequestId)
    | Wait(duration: nat)

  predicate Enabled(s: State, a: Action) {
    match a
    case Arrive(r, q) => r !in s.requests && (q.Issuing? || q.Presented?)
    case Step(r, newId) =>
      && r in s.requests && !s.requests[r].Done?
      && (s.requests[r].InIssue? ==> newId !in s.table)
      && (s.requests[r].Consuming? || s.requests[r].InConsume? ==> s.requests[r].id in s.table)
    case Conflict(r) => r in s.requests && Attempting(s.requests[r], s.table)
    case Fail(r) => r in s.requests && !s.requests[r].Done?
    case Wait(_) => true
  }

  /** The request is in an attempt; one that finds its token used ends without a conflict. */
  predicate Attempting(q: Request, table: Table) {
    q.InIssue? || (q.InConsume? && Active(q.row) && q.id in table)
  }

  /** The next attempt, with a new snapshot, unless it was the last. */
  function Retried(s: State, q: Request): Request
    requires Attempting(q, s.table)
  {
    match q
    case InIssue(owner, role, expiresAt, _, tries) =>
      if tries >= MAX_TRIES then Done(RetriesExhausted)
      else InIssue(owner, role, expiresAt, ActiveRows(s.table, owner), tries + 1)
    case InConsume(id, read, _, _, tries) =>
      if tries >= MAX_TRIES then Done(RetriesExhausted)
      else InConsume(id, read, s.table[id], SeenBy(s, read.owner), tries + 1)
  }

  function ActiveRows(table: Table, owner: Owner): Table {
    map id | id in table && table[id].owner == owner && Active(table[id]) :: table[id]
  }

  predicate Unchanged(table: Table, seen: Table) {
    forall id :: id in seen ==> id in table && table[id] == seen[id]
  }

  predicate CommitsConsume(q: Request, table: Table)
    requires q.InConsume?
  {
    Active(q.row) && q.id in table && table[q.id] == q.row && Unchanged(table, q.seen)
  }

  function SeenBy(s: State, owner: Owner): Table {
    if s.sweeps then ActiveRows(s.table, owner) else map[]
  }

  function NextRequest(s: State, r: RequestId, newId: TokenId): Request
    requires r in s.requests && !s.requests[r].Done?
    requires s.requests[r].Consuming? || s.requests[r].InConsume? ==> s.requests[r].id in s.table
  {
    var q := s.requests[r];
    match q
    case Issuing(owner, role, expiresAt) => InIssue(owner, role, expiresAt, ActiveRows(s.table, owner), 1)
    case InIssue(owner, role, expiresAt, seen, tries) =>
      if Unchanged(s.table, seen) then Done(Issued(newId)) else Retried(s, q)
    case Presented(id) => if id in s.table then Checking(id, s.table[id]) else Done(InvalidToken)
    case Checking(id, read) =>
      if !Active(read) then Done(InvalidToken)
      else if s.now > read.expiresAt then Done(TokenExpired)
      else Consuming(id, read)
    case Consuming(id, read) => InConsume(id, read, s.table[id], SeenBy(s, read.owner), 1)
    case InConsume(id, read, row, seen, tries) =>
      if !Active(row) then Done(InvalidToken)
      else if CommitsConsume(q, s.table) then Done(Consumed(id))
      else Retried(s, q)
  }

  function NextTable(s: State, r: RequestId, newId: TokenId): Table
    requires r in s.requests
  {
    var q := s.requests[r];
    match q
    case InIssue(owner, role, expiresAt, seen, _) =>
      if Unchanged(s.table, seen) then Issue(s.table, seen.Keys, newId, Token(owner, role, expiresAt, None), s.now)
      else s.table
    case InConsume(id, _, _, seen, _) =>
      if CommitsConsume(q, s.table) then UseAll(s.table, seen.Keys + {id}, s.now) else s.table
    case _ => s.table
  }

  function Apply(s: State, a: Action): State
    requires Enabled(s, a)
  {
    match a
    case Arrive(r, q) => s.(requests := s.requests[r := q])
    case Step(r, newId) => s.(table := NextTable(s, r, newId), requests := s.requests[r := NextRequest(s, r, newId)])
    case Conflict(r) => s.(requests := s.requests[r := Retried(s, s.requests[r])])
    case Fail(r) => s.(requests := s.requests[r := Done(Failed)])
    case Wait(duration) => s.(now := s.now + duration)
  }

  predicate Possible(s: State, trace: seq<Action>)
    decreases |trace|
  {
    trace == [] || (Enabled(s, trace[0]) && Possible(Apply(s, trace[0]), trace[1..]))
  }

  function Run(s: State, trace: seq<Action>): State
    requires Possible(s, trace)
    decreases |trace|
  {
    if trace == [] then s else Run(Apply(s, trace[0]), trace[1..])
  }

  // ---- What every step keeps ----

  ghost predicate RequestInv(table: Table, q: Request) {
    && (q.InIssue? ==> SeenInv(table, q.owner, q.seen))
    && (q.Checking? || q.Consuming? || q.InConsume? ==> q.id in table && table[q.id].owner == q.read.owner)
    && (q.InConsume? ==> SeenInv(table, q.read.owner, q.seen) && q.row.owner == q.read.owner)
    && (q.Done? && q.outcome.Consumed? ==> q.outcome.id in table && !Active(table[q.outcome.id]))
  }

  ghost predicate SeenInv(table: Table, owner: Owner, seen: Table) {
    forall id :: id in seen ==> id in table && table[id].owner == owner && seen[id].owner == owner && Active(seen[id])
  }

  ghost predicate Inv(s: State) {
    && (forall r :: r in s.requests ==> RequestInv(s.table, s.requests[r]))
    && forall r, r' :: r in s.requests && r' in s.requests && SameConsumed(s.requests[r], s.requests[r']) ==> r == r'
  }

  predicate SameConsumed(q: Request, q': Request) {
    q.Done? && q.outcome.Consumed? && q == q'
  }

  lemma StepGrows(s: State, a: Action)
    requires Enabled(s, a)
    ensures Grows(s.table, Apply(s, a).table)
  {
  }

  lemma GrowthKeepsRequest(table: Table, table': Table, q: Request)
    requires RequestInv(table, q) && Grows(table, table')
    ensures RequestInv(table', q)
  {
  }

  lemma OwnStepKeepsRequest(s: State, r: RequestId, newId: TokenId)
    requires Enabled(s, Step(r, newId)) && RequestInv(s.table, s.requests[r])
    ensures RequestInv(NextTable(s, r, newId), NextRequest(s, r, newId))
  {
  }

  /** A request becomes a consumer only by using a token that was active until then. */
  lemma NewConsumer(s: State, a: Action, r: RequestId)
    requires Inv(s) && Enabled(s, a) && r in Apply(s, a).requests
    requires Apply(s, a).requests[r].Done? && Apply(s, a).requests[r].outcome.Consumed?
    requires !(r in s.requests && s.requests[r] == Apply(s, a).requests[r])
    ensures a.Step? && a.r == r && s.requests[r].InConsume? && CommitsConsume(s.requests[r], s.table)
    ensures s.requests[r].id == Apply(s, a).requests[r].outcome.id && Active(s.table[s.requests[r].id])
  {
  }

  lemma StepKeepsInv(s: State, a: Action)
    requires Inv(s) && Enabled(s, a)
    ensures Inv(Apply(s, a))
  {
    var s' := Apply(s, a);
    StepGrows(s, a);
    forall r | r in s'.requests ensures RequestInv(s'.table, s'.requests[r]) {
      if a.Step? && a.r == r {
        OwnStepKeepsRequest(s, r, a.newId);
      } else if r in s.requests {
        GrowthKeepsRequest(s.table, s'.table, s.requests[r]);
      }
    }
    forall r, r' | r in s'.requests && r' in s'.requests && SameConsumed(s'.requests[r], s'.requests[r']) ensures r == r' {
      OldConsumerUsed(s, a, r);
      OldConsumerUsed(s, a, r');
    }
  }

  lemma OldConsumerUsed(s: State, a: Action, r: RequestId)
    requires Inv(s) && Enabled(s, a) && r in Apply(s, a).requests
    requires Apply(s, a).requests[r].Done? && Apply(s, a).requests[r].outcome.Consumed?
    ensures (r in s.requests && s.requests[r] == Apply(s, a).requests[r]
             && var id := Apply(s, a).requests[r].outcome.id; id in s.table && !Active(s.table[id]))
         || (a.Step? && a.r == r
             && var id := Apply(s, a).requests[r].outcome.id; id in s.table && Active(s.table[id]))
  {
    if r in s.requests && s.requests[r] == Apply(s, a).requests[r] {
      assert RequestInv(s.table, s.requests[r]);
    } else {
      NewConsumer(s, a, r);
    }
  }

  lemma {:induction false} RunKeepsInv(s: State, trace: seq<Action>)
    requires Inv(s) && Possible(s, trace)
    ensures Inv(Run(s, trace)) && Grows(s.table, Run(s, trace).table)
    decreases |trace|
  {
    if trace != [] {
      StepGrows(s, trace[0]);
      StepKeepsInv(s, trace[0]);
      RunKeepsInv(Apply(s, trace[0]), trace[1..]);
    }
  }

  // ---- Main results ----

  /** Under any interleaving of lookups, consumes and issues a token is consumed by at most one request. */
  lemma ConsumedAtMostOnce(now: Time, sweeps: bool, trace: seq<Action>, r: RequestId, r': RequestId, id: TokenId)
    requires Possible(State(now, sweeps, map[], map[]), trace)
    requires r in Run(State(now, sweeps, map[], map[]), trace).requests
    requires r' in Run(State(now, sweeps, map[], map[]), trace).requests
    requires Run(State(now, sweeps, map[], map[]), trace).requests[r] == Done(Consumed(id))
    requires Run(State(now, sweeps, map[], map[]), trace).requests[r'] == Done(Consumed(id))
    ensures r == r'
  {
    var end := Run(State(now, sweeps, map[], map[]), trace);
    RunKeepsInv(State(now, sweeps, map[], map[]), trace);
    assert SameConsumed(end.requests[r], end.requests[r']);
  }

  /** A token that is used, consumed or superseded, is never consumed by a request that has not consumed it yet. */
  lemma {:induction false} UsedNeverConsumed(s: State, trace: seq<Action>, id: TokenId, r: RequestId)
    requires Inv(s) && Possible(s, trace)
    requires id in s.table && !Active(s.table[id])
    requires r in s.requests ==> s.requests[r] != Done(Consumed(id))
    ensures r in Run(s, trace).requests ==> Run(s, trace).requests[r] != Done(Consumed(id))
    decreases |trace|
  {
    if trace != [] {
      var s' := Apply(s, trace[0]);
      StepGrows(s, trace[0]);
      StepKeepsInv(s, trace[0]);
      if r in s'.requests && s'.requests[r] == Done(Consumed(id)) {
        OldConsumerUsed(s, trace[0], r);
      }
      UsedNeverConsumed(s', trace[1..], id, r);
    }
  }

  /**
   Once an issue has committed, no token that was active for the owner when the issue took its snapshot can
   be consumed any more.
   */
  lemma SupersededNeverConsumed(s: State, r: RequestId, newId: TokenId, trace: seq<Action>, id: TokenId, r': RequestId)
    requires Inv(s) && Enabled(s, Step(r, newId)) && s.requests[r].InIssue? && Unchanged(s.table, s.requests[r].seen)
    requires id in s.requests[r].seen && Possible(Apply(s, Step(r, newId)), trace)
    ensures r' in Run(Apply(s, Step(r, newId)), trace).requests ==>
              Run(Apply(s, Step(r, newId)), trace).requests[r'] != Done(Consumed(id))
  {
    var s' := Apply(s, Step(r, newId));
    assert RequestInv(s.table, s.requests[r]);
    StepKeepsInv(s, Step(r, newId));
    if r' in s'.requests && s'.requests[r'] == Done(Consumed(id)) {
      OldConsumerUsed(s, Step(r, newId), r');
    }
    UsedNeverConsumed(s', trace, id, r');
  }

  ghost predicate AtMostOneActive(table: Table) {
    forall owner :: |ActiveIds(table, owner)| <= 1
  }

  /** The action commits an issue that found no active token, for an owner who has one by now. */
  ghost predicate Overlaps(s: State, a: Action) {
    a.Step? && a.r in s.requests && s.requests[a.r].InIssue? && s.requests[a.r].seen == map[]
    && ActiveIds(s.table, s.requests[a.r].owner) != {}
  }

  /** No action of the trace is such a commit. */
  ghost predicate NeverOverlaps(s: State, trace: seq<Action>)
    requires Possible(s, trace)
    decreases |trace|
  {
    trace == [] || (!Overlaps(s, trace[0]) && NeverOverlaps(Apply(s, trace[0]), trace[1..]))
  }

  /** In every state of the run every owner has at most one active token. */
  ghost predicate AlwaysAtMostOne(s: State, trace: seq<Action>)
    requires Possible(s, trace)
    decreases |trace|
  {
    AtMostOneActive(s.table) && (trace == [] || AlwaysAtMostOne(Apply(s, trace[0]), trace[1..]))
  }

  /** A committing issue that found an active token has found the only one. */
  lemma FoundTheOnlyOne(table: Table, q: Request)
    requires AtMostOneActive(table) && q.InIssue? && RequestInv(table, q) && Unchanged(table, q.seen) && q.seen != map[]
    ensures ActiveIds(table, q.owner) == q.seen.Keys
  {
    forall id | id in q.seen ensures id in ActiveIds(table, q.owner) {
      assert table[id] == q.seen[id];
    }
    assert |ActiveIds(table, q.owner)| <= 1;
    var id :| id in q.seen;
    SingletonSet(ActiveIds(table, q.owner), id);
  }

  lemma SerialIssueKeepsOne(table: Table, q: Request, newId: TokenId, now: Time)
    requires AtMostOneActive(table) && q.InIssue? && RequestInv(table, q) && newId !in table
    requires ActiveIds(table, q.owner) <= q.seen.Keys
    ensures AtMostOneActive(Issue(table, q.seen.Keys, newId, Token(q.owner, q.role, q.expiresAt, None), now))
  {
    var token := Token(q.owner, q.role, q.expiresAt, None);
    ActiveAfterIssue(table, q.seen.Keys, newId, token, now);
    forall owner ensures |ActiveIds(Issue(table, q.seen.Keys, newId, token, now), owner)| <= 1 {
      assert |ActiveIds(table, owner)| <= 1;
    }
  }

  lemma UseKeepsOne(table: Table, ids: set<TokenId>, now: Time)
    requires AtMostOneActive(table)
    ensures AtMostOneActive(UseAll(table, ids, now))
  {
    forall owner ensures |ActiveIds(UseAll(table, ids, now), owner)| <= 1 {
      ActiveAfterUse(table, ids, now, owner);
      assert |ActiveIds(table, owner)| <= 1;
      SubsetSize(ActiveIds(UseAll(table, ids, now), owner), ActiveIds(table, owner));
    }
  }

  lemma StepKeepsOneIff(s: State, a: Action)
    requires Inv(s) && Enabled(s, a) && AtMostOneActive(s.table)
    ensures AtMostOneActive(Apply(s, a).table) <==> !Overlaps(s, a)
  {
    if a.Step? {
      var q := s.requests[a.r];
      assert RequestInv(s.table, q);
      if q.InIssue? && Unchanged(s.table, q.seen) {
        if Overlaps(s, a) {
          OverlapLeavesTwo(s.table, q, a.newId, s.now);
        } else {
          if q.seen != map[] {
            FoundTheOnlyOne(s.table, q);
          }
          SerialIssueKeepsOne(s.table, q, a.newId, s.now);
        }
      } else if q.InConsume? && CommitsConsume(q, s.table) {
        UseKeepsOne(s.table, q.seen.Keys + {q.id}, s.now);
      }
    }
  }

  lemma OverlapLeavesTwo(table: Table, q: Request, newId: TokenId, now: Time)
    requires q.InIssue? && q.seen == map[] && ActiveIds(table, q.owner) != {} && newId !in table
    ensures !AtMostOneActive(Issue(table, q.seen.Keys, newId, Token(q.owner, q.role, q.expiresAt, None), now))
  {
    var token := Token(q.owner, q.role, q.expiresAt, None);
    ActiveAfterIssue(table, q.seen.Keys, newId, token, now);
    var id :| id in ActiveIds(table, q.owner);
    SubsetSize({id, newId}, ActiveIds(Issue(table, q.seen.Keys, newId, token, now), q.owner));
    assert |ActiveIds(Issue(table, q.seen.Keys, newId, token, now), q.owner)| >= 2;
  }

  /**
   Every owner has at most one active token in every state of a run exactly when no issue that found none
   commits while its owner has one. Conflicts, retries and consumes are free.
   */
  lemma {:induction false} AlwaysAtMostOneIff(s: State, trace: seq<Action>)
    requires Inv(s) && AtMostOneActive(s.table) && Possible(s, trace)
    ensures AlwaysAtMostOne(s, trace) <==> NeverOverlaps(s, trace)
    decreases |trace|
  {
    if trace != [] {
      StepKeepsOneIff(s, trace[0]);
      StepKeepsInv(s, trace[0]);
      if !Overlaps(s, trace[0]) {
        AlwaysAtMostOneIff(Apply(s, trace[0]), trace[1..]);
      }
    }
  }

  lemma {:induction false} SerialKeepsOneActive(s: State, trace: seq<Action>)
    requires Inv(s) && AtMostOneActive(s.table) && Possible(s, trace) && NeverOverlaps(s, trace)
    ensures AtMostOneActive(Run(s, trace).table)
    decreases |trace|
  {
    if trace != [] {
      StepKeepsOneIff(s, trace[0]);
      StepKeepsInv(s, trace[0]);
      SerialKeepsOneActive(Apply(s, trace[0]), trace[1..]);
    }
  }

  lemma StepThen(s: State, a: Action, next: State, rest: seq<Action>, end: State)
    requires Enabled(s, a) && Apply(s, a) == next && Possible(next, rest) && Run(next, rest) == end
    ensures Possible(s, [a] + rest) && Run(s, [a] + rest) == end
  {
    assert ([a] + rest)[1..] == rest;
  }

  /** Both issues begin before either commits, so both snapshots are empty. */
  lemma TwoIssuesBegin(owner: Owner, s: State, begun: State, rest: seq<Action>, end: State)
    requires s == State(0, true, map[], map[0 := Issuing(owner, None, 0), 1 := Issuing(owner, None, 0)])
    requires begun == State(0, true, map[], map[0 := InIssue(owner, None, 0, map[], 1), 1 := InIssue(owner, None, 0, map[], 1)])
    requires Possible(begun, rest) && Run(begun, rest) == end
    ensures Possible(s, [Step(0, 0)] + ([Step(1, 0)] + rest)) && Run(s, [Step(0, 0)] + ([Step(1, 0)] + rest)) == end
  {
    var s1 := Apply(s, Step(0, 0));
    assert Apply(s1, Step(1, 0)) == begun;
    StepThen(s1, Step(1, 0), begun, rest, end);
    StepThen(s, Step(0, 0), s1, [Step(1, 0)] + rest, end);
  }

  /** Then both commit. */
  lemma TwoIssuesCommit(owner: Owner, begun: State) returns (end: State)
    requires begun == State(0, true, map[], map[0 := InIssue(owner, None, 0, map[], 1), 1 := InIssue(owner, None, 0, map[], 1)])
    ensures Possible(begun, [Step(0, 10)] + ([Step(1, 11)] + [])) && Run(begun, [Step(0, 10)] + ([Step(1, 11)] + [])) == end
    ensures |ActiveIds(end.table, owner)| == 2
  {
    var s1 := Apply(begun, Step(0, 10));
    end := Apply(s1, Step(1, 11));
    StepThen(s1, Step(1, 11), end, [], end);
    StepThen(begun, Step(0, 10), s1, [Step(1, 11)] + [], end);
    assert ActiveIds(end.table, owner) == {10, 11};
  }

  /**
   Two overlapping issues for one owner can both commit and leave two active tokens: neither snapshot has
   an active row to conflict on.
   */
  lemma OverlappingIssuesLeaveTwo(owner: Owner)
    ensures exists s: State, trace ::
              Inv(s) && AtMostOneActive(s.table) && Possible(s, trace) && |ActiveIds(Run(s, trace).table, owner)| == 2
  {
    var q, waiting := Issuing(owner, None, 0), InIssue(owner, None, 0, map[], 1);
    var s := State(0, true, map[], map[0 := q, 1 := q]);
    var begun := State(0, true, map[], map[0 := waiting, 1 := waiting]);
    var end := TwoIssuesCommit(owner, begun);
    assert Inv(s) && AtMostOneActive(s.table);
    var rest := [Step(0, 10)] + ([Step(1, 11)] + []);
    TwoIssuesBegin(owner, s, begun, rest, end);
    var trace := [Step(0, 0)] + ([Step(1, 0)] + rest);
    assert Possible(s, trace) && Run(s, trace) == end;
  }

  /** A consume that sweeps, run without interruption, leaves its owner without an active token. */
  lemma SerialConsumeLeavesNone(s: State, r: RequestId)
    requires s.sweeps && r in s.requests && s.requests[r].Consuming? && Inv(s)
    requires Active(s.table[s.requests[r].id])
    ensures var s2 := Apply(Apply(s, Step(r, 0)), Step(r, 0));
            && s2.requests[r] == Done(Consumed(s.requests[r].id))
            && ActiveIds(s2.table, s.requests[r].read.owner) == {}
            && forall owner :: owner != s.requests[r].read.owner ==> ActiveIds(s2.table, owner) == ActiveIds(s.table, owner)
  {
    var q := s.requests[r];
    assert RequestInv(s.table, q);
    var s1 := Apply(s, Step(r, 0));
    var ids := ActiveRows(s.table, q.read.owner).Keys + {q.id};
    assert CommitsConsume(s1.requests[r], s1.table);
    forall owner ensures ActiveIds(UseAll(s.table, ids, s.now), owner) == ActiveIds(s.table, owner) - ids {
      ActiveAfterUse(s.table, ids, s.now, owner);
    }
  }
}
