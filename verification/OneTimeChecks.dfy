/** What a request that consumes a single-use token has checked, over every interleaving, and what its attempts do. */
module OneTimeChecks {
  import opened Basics
  import opened Domain
  import opened OneTimeTokens
  import opened OneTimeProtocol

  /** The request has read an unused token that has not expired. */
  predicate ReadsValid(s: State, r: RequestId) {
    r in s.requests && s.requests[r].Checking? && Active(s.requests[r].read) && s.now <= s.requests[r].read.expiresAt
  }

  /** Only such a read leads on to the transaction; every other is answered by what it found. */
  lemma ReadIsAnswered(s: State, r: RequestId, newId: TokenId)
    requires Enabled(s, Step(r, newId)) && (s.requests[r].Presented? || s.requests[r].Checking?)
    ensures var q, q' := s.requests[r], Apply(s, Step(r, newId)).requests[r];
            && Apply(s, Step(r, newId)).table == s.table
            && (q'.Consuming? <==> ReadsValid(s, r))
            && (q' == Done(InvalidToken) <==> (q.Presented? && q.id !in s.table) || (q.Checking? && q.read.usedAt.Some?))
            && (q' == Done(TokenExpired) <==> q.Checking? && q.read.usedAt.None? && q.read.expiresAt < s.now)
            && (q'.Checking? <==> q.Presented? && q.id in s.table) && (q'.Checking? ==> q' == Checking(q.id, s.table[q.id]))
  {
  }

  predicate PastRead(q: Request) { q.Consuming? || q.InConsume? || (q.Done? && q.outcome.Consumed?) }

  predicate IsPast(s: State, r: RequestId) { r in s.requests && PastRead(s.requests[r]) }

  ghost predicate OnceValid(s: State, trace: seq<Action>, r: RequestId)
    requires Possible(s, trace)
    decreases |trace|
  {
    trace != [] && (ReadsValid(s, r) || OnceValid(Apply(s, trace[0]), trace[1..], r))
  }

  lemma EntersThroughRead(s: State, a: Action, r: RequestId)
    requires Enabled(s, a) && IsPast(Apply(s, a), r) && !IsPast(s, r)
    ensures ReadsValid(s, r)
  {
  }

  /** Under every interleaving a request that consumes a token has in this run read it unused and unexpired. */
  lemma {:induction false} ConsumedWasVetted(s: State, trace: seq<Action>, r: RequestId)
    requires Possible(s, trace) && !IsPast(s, r)
    ensures IsPast(Run(s, trace), r) ==> OnceValid(s, trace, r)
    decreases |trace|
  {
    if trace != [] {
      if IsPast(Apply(s, trace[0]), r) {
        EntersThroughRead(s, trace[0], r);
      } else {
        ConsumedWasVetted(Apply(s, trace[0]), trace[1..], r);
      }
    }
  }

  /**
   A consume that commits finds its token active then, uses it and, where consuming sweeps, the owner's tokens
   that its snapshot showed active, all as they are then; one that finds its token used is refused.
   */
  lemma CommittedConsume(s: State, r: RequestId, newId: TokenId)
    requires Inv(s) && Enabled(s, Step(r, newId)) && s.requests[r].InConsume?
    ensures var q, s' := s.requests[r], Apply(s, Step(r, newId));
            && (s'.requests[r] == Done(InvalidToken) <==> q.row.usedAt.Some?)
            && (s'.requests[r] == Done(Consumed(q.id)) ==>
                  && s.table[q.id].usedAt.None? && s'.table.Keys == s.table.Keys
                  && forall id :: id in s.table ==>
                       s'.table[id] == if id == q.id || id in q.seen then s.table[id].(usedAt := Some(s.now)) else s.table[id])
            && (s'.requests[r] != Done(Consumed(q.id)) ==> s'.table == s.table)
  {
    var q := s.requests[r];
    assert RequestInv(s.table, q);
    if CommitsConsume(q, s.table) {
      assert forall id :: id in q.seen ==> s.table[id] == q.seen[id];
    }
  }

  /** An issue that commits uses the tokens of its snapshot and adds one, valid until its expiry, for its owner. */
  lemma CommittedIssue(s: State, r: RequestId, newId: TokenId)
    requires Inv(s) && Enabled(s, Step(r, newId)) && s.requests[r].InIssue?
    ensures var q, s' := s.requests[r], Apply(s, Step(r, newId));
            && (s'.requests[r] == Done(Issued(newId)) ==>
                  && s'.table.Keys == s.table.Keys + {newId} && newId !in s.table
                  && s'.table[newId] == Token(q.owner, q.role, q.expiresAt, None)
                  && forall id :: id in s.table ==>
                       s'.table[id] == if id in q.seen then s.table[id].(usedAt := Some(s.now)) else s.table[id])
            && (s'.requests[r] != Done(Issued(newId)) ==> s'.table == s.table)
  {
    var q := s.requests[r];
    assert RequestInv(s.table, q);
    if Unchanged(s.table, q.seen) {
      assert forall id :: id in q.seen ==> s.table[id] == q.seen[id];
    }
  }

  /** The snapshot of an attempt shows the owner's active tokens, all of them for an issue and where consuming sweeps. */
  lemma SnapshotIsComplete(s: State, a: Action, r: RequestId)
    requires Enabled(s, a) && r in s.requests && r in Apply(s, a).requests && s.requests[r] != Apply(s, a).requests[r]
    ensures var q' := Apply(s, a).requests[r];
            && (q'.InIssue? ==> q'.seen.Keys == ActiveIds(s.table, q'.owner))
            && (q'.InConsume? ==> q'.seen.Keys == (if s.sweeps then ActiveIds(s.table, q'.read.owner) else {}))
            && (q'.InConsume? ==> q'.id in s.table && q'.row == s.table[q'.id])
            && (q'.InIssue? || q'.InConsume? ==> forall id :: id in q'.seen ==> q'.seen[id] == s.table[id])
  {
  }

  /** An error changes no row, and neither does a conflict. */
  lemma ErrorIsAnswered(s: State, r: RequestId)
    ensures Enabled(s, Fail(r)) ==> Apply(s, Fail(r)).table == s.table && Apply(s, Fail(r)).requests[r] == Done(Failed)
    ensures Enabled(s, Conflict(r)) ==> Apply(s, Conflict(r)).table == s.table
  {
  }

  function TriesOf(q: Request): nat { if q.InIssue? || q.InConsume? then q.tries else 0 }

  /** Attempts are counted one by one, and a request gives up exactly when its tenth fails to serialize. */
  lemma TriesCountUp(s: State, a: Action, r: RequestId)
    requires Enabled(s, a) && r in s.requests && TriesOf(s.requests[r]) <= 10
    ensures var q, q' := s.requests[r], Apply(s, a).requests[r];
            && (q' != q && TriesOf(q') > 0 ==> TriesOf(q') == TriesOf(q) + 1 <= 10)
            && (q' == Done(RetriesExhausted) && q != q' ==> TriesOf(q) == 10)
            && (a.Conflict? && a.r == r && TriesOf(q) == 10 ==> q' == Done(RetriesExhausted))
  {
  }
}
