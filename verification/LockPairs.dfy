/** Which two or three transactions deadlock, and when no more need to be looked at. */
module LockPairs {
  import opened Basics
  import opened Domain
  import opened RowLocks
  import opened LockOrder
  import opened LockKnots
  import opened LockShapes
  import OT = OneTimeTokens
  import AS = AccountStore

  lemma DisableLockAt(p: Program, owners: map<TokenId, UserId>, k: nat)
    requires p.DisableSuper? && k < |p.supers| + 1 + |p.tokens|
    ensures |Locks(p, owners)| == |p.supers| + 1 + |p.tokens|
    ensures Locks(p, owners)[k] == if k < |p.supers| then Lock(UserRow(p.supers[k]), ForUpdate)
                                   else if k == |p.supers| then Lock(UserRow(p.target), NoKeyUpdate)
                                   else Lock(TokenRow(p.tokens[k - |p.supers| - 1]), NoKeyUpdate)
  {
  }

  lemma DisableTakesTokens(p: Program, owners: map<TokenId, UserId>, groups: map<OneTimeId, Group>) returns (k: nat)
    requires ValidProgram(p, owners, groups) && p.DisableSuper?
    ensures DisableTakes(Locks(p, owners), |p.supers| + 1, k, p.target, p.tokens)
  {
    k := DisableLocksTarget(p, owners, groups);
    var base := |p.supers| + 1;
    DisableLockAt(p, owners, 0);
    forall x | 0 <= x < base + |p.tokens| ensures TakesTokensAfter(base, p.tokens, Locks(p, owners), x) {
      DisableLockAt(p, owners, x);
    }
  }

  lemma RevocationTakesTokens(p: Program, owners: map<TokenId, UserId>, groups: map<OneTimeId, Group>)
    requires ValidProgram(p, owners, groups) && p.RevokeTokens?
    ensures RevocationTakes(Locks(p, owners), p.tokens)
  {
    assert Locks(p, owners) == TokenLocks(p.tokens);
  }

  lemma DisableOf(sys: System, d: TxId) returns (k: nat)
    requires sys.Valid() && d in sys.programs && sys.programs[d].DisableSuper?
    ensures DisableTakes(sys.Orders()[d], |sys.programs[d].supers| + 1, k, sys.programs[d].target, sys.programs[d].tokens)
  {
    k := DisableTakesTokens(sys.programs[d], sys.owners, sys.groups);
  }

  lemma RotationOf(sys: System, d: TxId, r: TxId)
    requires sys.Valid() && Collide(sys, d, r)
    ensures RotationTakes(sys.Orders()[r], sys.programs[d].target, sys.programs[r].token) && d != r
  {
    RotationHasTwo(sys.programs[r], sys.owners, sys.groups);
  }

  lemma RevocationOf(sys: System, c: TxId, user: UserId)
    requires sys.Valid() && RevokesOf(sys, c, user)
    ensures RevocationTakes(sys.Orders()[c], sys.programs[c].tokens)
  {
    RevocationTakesTokens(sys.programs[c], sys.owners, sys.groups);
  }

  /** Where a disable's list holds the token of a rotation that it meets, the two can deadlock. */
  lemma CollisionDeadlocks(sys: System, d: TxId, r: TxId)
    requires sys.Valid() && Collide(sys, d, r) && sys.programs[r].token in sys.programs[d].tokens
    ensures CanDeadlock(sys.Orders())
  {
    var p := sys.programs[d];
    var n :| 0 <= n < |p.tokens| && p.tokens[n] == sys.programs[r].token;
    var k := DisableOf(sys, d);
    RotationOf(sys, d, r);
    CollisionKnot(sys.Orders(), d, |p.supers| + 1, k, p.tokens, n, r, p.target, sys.programs[r].token);
  }

  /**
   A disable that does not list the rotated token can deadlock with its rotation all the same, if a revocation
   of tokens of its target takes first a token that the disable lists, and then the rotated one.
   */
  lemma RevocationBetweenDeadlocks(sys: System, d: TxId, c: TxId, r: TxId, n: nat, b: nat, e: nat)
    requires sys.Valid() && Collide(sys, d, r) && RevokesOf(sys, c, sys.programs[d].target)
    requires FirstShares(sys.programs[d].tokens, n, sys.programs[c].tokens, b, e, sys.programs[r].token)
    ensures CanDeadlock(sys.Orders())
  {
    var k := DisableOf(sys, d);
    RotationOf(sys, d, r);
    RevocationOf(sys, c, sys.programs[d].target);
    RingOfThree(sys.Orders(), d, |sys.programs[d].supers| + 1, k, sys.programs[d].tokens, n, c, sys.programs[c].tokens, b, e, r,
                sys.programs[d].target, sys.programs[r].token);
  }

  // ---- One-time tokens ----

  /** A consume meets another transaction that takes, before the token it consumes, a token that it sweeps. */
  predicate Cross(sys: System, c: TxId, x: TxId) {
    && c in sys.programs && x in sys.programs && c != x && Consumes(sys.programs[c])
    && var order := Order(sys.programs[x]);
       exists p, q :: 0 <= p < q < |order| && order[q] == Order(sys.programs[c])[0] && order[p] in Order(sys.programs[c])[1..]
  }

  lemma OrderDistinct(p: Program, owners: map<TokenId, UserId>, groups: map<OneTimeId, Group>, k: nat, m: nat)
    requires ValidProgram(p, owners, groups) && k < m < |Order(p)|
    ensures Order(p)[k] != Order(p)[m]
  {
    OrderAscends(p, owners, groups, k, m);
    assert Order(p)[1..][m - 1] == Order(p)[m];
  }

  lemma OrderFirst(sys: System, i: TxId)
    requires sys.Valid() && i in sys.programs
    ensures TakesFirst(Order(sys.programs[i]), sys.Orders()[i])
  {
    var p := sys.programs[i];
    var order, locks := Order(p), Locks(p, sys.owners);
    LaterLocksAreOthers(p, sys.owners);
    forall k | |order| <= k < |locks| ensures !locks[k].row.OneTimeRow? {
      assert locks[k] in LaterLocks(p, sys.owners);
    }
    forall k, m | 0 <= k < m < |order| ensures order[k] != order[m] {
      OrderDistinct(p, sys.owners, sys.groups, k, m);
    }
  }

  /** Such a meeting can deadlock, whatever else runs. */
  lemma CrossDeadlocks(sys: System, c: TxId, x: TxId)
    requires sys.Valid() && Cross(sys, c, x)
    ensures CanDeadlock(sys.Orders())
  {
    var own, other := Order(sys.programs[c]), Order(sys.programs[x]);
    var p0, q :| 0 <= p0 < q < |other| && other[q] == own[0] && other[p0] in own[1..];
    OrderFirst(sys, c);
    OrderFirst(sys, x);
    CrossKnot(sys.Orders(), c, own, x, other, p0, q);
  }

  /** In a knot over one-time tokens some consume has its own token and waits for one that it sweeps. */
  lemma {:induction false} FindConsume(sys: System, at: State, waits: map<TxId, TxId>, group: Group, i: TxId, bound: nat) returns (c: TxId)
    requires sys.Valid() && OneTimeKnot(sys, at, waits, group) && i in waits && Bounds(sys.Orders(), bound)
    ensures c in waits && c in sys.programs && c in at && Consumes(sys.programs[c]) && 1 <= at[c] < |Order(sys.programs[c])|
    decreases DistanceOf(sys.Orders(), at, i, bound)
  {
    var j, k := Follow(sys, at, waits, i, bound);
    assert WantsIn(sys, at, i, group) && WantsIn(sys, at, j, group);
    OneTimeHolder(sys.programs[j], sys.owners, sys.groups, at[j]);
    if Consumes(sys.programs[j]) && k == 0 {
      c := j;
    } else {
      if HasItsToken(sys, at, j) {
        RotationHasTwo(sys.programs[j], sys.owners, sys.groups);
      }
      c := FindConsume(sys, at, waits, group, j, bound);
    }
  }

  /** Where no consume finds another token to sweep, one-time tokens are no part of any deadlock. */
  lemma SingleTokensAreSafe(sys: System)
    requires sys.Valid() && forall c :: c in sys.programs && Consumes(sys.programs[c]) ==> |Order(sys.programs[c])| == 1
    ensures CanDeadlock(sys.Orders()) <==> exists at, waits, d, r :: DisableKnot(sys, at, waits, d, r)
  {
    CanDeadlockIff(sys);
    if at, waits, group :| OneTimeKnot(sys, at, waits, group) {
      var bound := BoundExists(sys.Orders());
      var i := Member(waits.Keys);
      var c := FindConsume(sys, at, waits, group, i, bound);
    }
  }

  lemma Member(s: set<TxId>) returns (i: TxId)
    requires s != {}
    ensures i in s
  {
    i :| i in s;
  }

  // ---- Pairs suffice where the lists are complete ----

  /** A disable of a super_admin revokes the tokens that rotations of its target meet. */
  predicate Listed(sys: System) {
    forall d, r :: d in sys.programs && r in sys.programs && Collide(sys, d, r) ==> sys.programs[r].token in sys.programs[d].tokens
  }

  /** Whoever locks a one-time token that a consume sweeps also locks the one that it consumes. */
  predicate Swept(sys: System) {
    forall c, x :: c in sys.programs && x in sys.programs && Consumes(sys.programs[c])
                   && (exists t :: t in Order(sys.programs[c])[1..] && t in Order(sys.programs[x]))
                   ==> Order(sys.programs[c])[0] in Order(sys.programs[x])
  }

  lemma ConsumeCrosses(sys: System, at: State, waits: map<TxId, TxId>, group: Group, c: TxId)
    requires sys.Valid() && Swept(sys) && OneTimeKnot(sys, at, waits, group) && c in waits && c in sys.programs && c in at
    requires Consumes(sys.programs[c]) && 1 <= at[c] < |Order(sys.programs[c])|
    ensures Cross(sys, c, waits[c])
  {
    assert Stuck(sys.Orders(), at, waits, c);
    var x := waits[c];
    var own, other := Order(sys.programs[c]), Order(sys.programs[x]);
    OrderFirst(sys, c);
    OrderFirst(sys, x);
    var p := WaitedFor(sys.Orders(), at, c, own, x, other);
    assert other[p] in own[1..] && other[p] in other;
    assert own[0] in other;
    var q := TakenLater(sys.Orders(), at, c, own, x, other);
    assert p < q;
  }

  /**
   Where a disable lists every token of its target and a sweep finds the same tokens for all of one owner, the
   transactions can deadlock exactly when a disable of a super_admin meets a rotation of one of its target's
   tokens, or a consume meets a consume or issue of the same owner that takes another of its tokens first.
   */
  lemma CanDeadlockPairIff(sys: System)
    requires sys.Valid() && Listed(sys) && Swept(sys)
    ensures CanDeadlock(sys.Orders()) <==> (exists d, r :: Collide(sys, d, r)) || (exists c, x :: Cross(sys, c, x))
  {
    CanDeadlockIff(sys);
    if d, r :| Collide(sys, d, r) {
      CollisionDeadlocks(sys, d, r);
    }
    if c, x :| Cross(sys, c, x) {
      CrossDeadlocks(sys, c, x);
    }
    if at, waits, group :| OneTimeKnot(sys, at, waits, group) {
      var bound := BoundExists(sys.Orders());
      var i := Member(waits.Keys);
      var c := FindConsume(sys, at, waits, group, i, bound);
      ConsumeCrosses(sys, at, waits, group, c);
    }
  }

  /** Two password resets with two tokens of one user that are both active can deadlock. */
  lemma TwoResetsDeadlock(user: UserId, t: OneTimeId, t': OneTimeId)
    requires t != t'
    ensures var group := Group(AS.PasswordReset, OT.OfUser(user));
            var sys := System(map[0 := ResetPassword(user, t, [t'], []), 1 := ResetPassword(user, t', [t], [])],
                              map[], map[t := group, t' := group]);
            sys.Valid() && CanDeadlock(sys.Orders())
  {
    var group := Group(AS.PasswordReset, OT.OfUser(user));
    var one, two := ResetPassword(user, t, [t'], []), ResetPassword(user, t', [t], []);
    var sys := System(map[0 := one, 1 := two], map[], map[t := group, t' := group]);
    assert Order(one) == [t, t'] && Order(two) == [t', t] && Order(one)[1..] == [t'] && Order(two)[1..] == [t];
    assert Order(two)[0] == t' && Order(two)[1] == t && t' in Order(one)[1..];
    assert Cross(sys, 0, 1);
    CrossDeadlocks(sys, 0, 1);
  }
}
