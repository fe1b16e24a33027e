/**
 When the transactions on accounts and their tokens can deadlock: there are exactly two shapes of knots. In
 one, a disable of a super_admin waits, possibly through revocations, for a rotation that waits for the
 disable. In the other, consumes and issues of one owner wait for each other's one-time tokens.
 */
module LockKnots {
  import opened Basics
  import opened Domain
  import opened RowLocks
  import opened LockOrder

  /** A rotation that has its token and waits for its owner's row. */
  predicate HasItsToken(sys: System, s: State, i: TxId) {
    i in sys.programs && sys.programs[i].Rotate? && i in s && s[i] == 1 && Running(sys.Orders(), s, i)
  }

  predicate WantsOneTime(sys: System, s: State, i: TxId) {
    Running(sys.Orders(), s, i) && Wanted(sys.Orders(), s, i).row.OneTimeRow?
  }

  predicate WantsTokenOf(sys: System, s: State, i: TxId, user: UserId) {
    Running(sys.Orders(), s, i)
    && match Wanted(sys.Orders(), s, i).row
       case TokenRow(token) => token in sys.owners && sys.owners[token] == user
       case _ => false
  }

  /** A disable has its target's row locked before it updates it, so it does not wait for it. */
  lemma TargetIsFree(sys: System, s: State, j: TxId, next: TxId)
    requires sys.Valid() && Compatible(sys.Orders(), s) && WaitsFor(sys.Orders(), s, j, next)
    ensures !UpdatesTarget(sys.programs[j], s[j])
  {
    var p, orders := sys.programs[j], sys.Orders();
    if UpdatesTarget(p, s[j]) {
      var k := DisableLocksTarget(p, sys.owners, sys.groups);
      assert HoldsAt(orders, s, j, k);
      TargetAgain(p, sys.owners);
    }
  }

  lemma TargetAgain(p: Program, owners: map<TokenId, UserId>)
    requires p.DisableSuper?
    ensures |p.supers| < |Locks(p, owners)| && Locks(p, owners)[|p.supers|] == Lock(UserRow(p.target), NoKeyUpdate)
  {
  }

  lemma RotationHasTwo(p: Program, owners: map<TokenId, UserId>, groups: map<OneTimeId, Group>)
    requires ValidProgram(p, owners, groups) && p.Rotate?
    ensures Locks(p, owners) == [Lock(TokenRow(p.token), NoKeyUpdate), Lock(UserRow(owners[p.token]), KeyShare)]
  {
  }

  /** What a waiting transaction holds comes before what it waits for, but for such a rotation and a consume's own token. */
  lemma HeldBeforeWanted(sys: System, s: State, j: TxId, next: TxId, k: nat)
    requires sys.Valid() && Compatible(sys.Orders(), s) && WaitsFor(sys.Orders(), s, j, next)
    requires HoldsAt(sys.Orders(), s, j, k) && !HasItsToken(sys, s, j)
    ensures || Before(sys.Orders()[j][k].row, Wanted(sys.Orders(), s, j).row)
            || (WantsOneTime(sys, s, j) && k == 0 && Consumes(sys.programs[j]))
  {
    var p := sys.programs[j];
    LocksAscend(p, sys.owners, sys.groups, k, s[j]);
    TargetIsFree(sys, s, j, next);
    if p.Rotate? {
      RotationHasTwo(p, sys.owners, sys.groups);
    } else if Consumes(p) && s[j] < |Order(p)| {
      assert Wanted(sys.Orders(), s, j) == OneTimeLocks(Order(p))[s[j]];
    }
  }

  // ---- Following waits ----

  predicate Bounds(orders: Orders, bound: nat) {
    forall i, k {:trigger orders[i][k]} :: i in orders && 0 <= k < |orders[i]| ==> IdOf(orders[i][k].row) < bound
  }

  lemma BoundExists(orders: Orders) returns (bound: nat)
    ensures Bounds(orders, bound)
  {
    var ids := set i, k | i in orders && 0 <= k < |orders[i]| :: IdOf(orders[i][k].row);
    bound := UpperBound(ids);
    forall i, k {:trigger orders[i][k]} | i in orders && 0 <= k < |orders[i]| ensures IdOf(orders[i][k].row) < bound {
      assert IdOf(orders[i][k].row) in ids;
    }
  }

  /** How far a row is from the last one. */
  function Distance(row: Row, bound: nat): nat {
    if IdOf(row) >= bound then 0
    else match row
         case OneTimeRow(id) => 4 * bound - id
         case UserRow(user) => 3 * bound - user
         case TokenRow(token) => 2 * bound - token
         case EmailKey(_) => bound
  }

  lemma DistanceFalls(a: Row, b: Row, bound: nat)
    requires Before(a, b) && IdOf(a) < bound && IdOf(b) < bound
    ensures Distance(b, bound) < Distance(a, bound)
  {
  }

  function DistanceOf(orders: Orders, s: State, i: TxId, bound: nat): nat {
    if Running(orders, s, i) then Distance(Wanted(orders, s, i).row, bound) else 0
  }

  /** One wait further: the next transaction holds the wanted row, and waits itself. */
  lemma Follow(sys: System, s: State, waits: map<TxId, TxId>, i: TxId, bound: nat) returns (j: TxId, k: nat)
    requires sys.Valid() && Compatible(sys.Orders(), s) && Deadlocked(sys.Orders(), s, waits) && i in waits && Bounds(sys.Orders(), bound)
    ensures j == waits[i] && j in waits && waits[j] in waits
    ensures WaitsFor(sys.Orders(), s, i, j) && WaitsFor(sys.Orders(), s, j, waits[j])
    ensures HoldsAt(sys.Orders(), s, j, k) && Conflicts(Wanted(sys.Orders(), s, i), sys.Orders()[j][k])
    ensures || HasItsToken(sys, s, j)
            || DistanceOf(sys.Orders(), s, j, bound) < DistanceOf(sys.Orders(), s, i, bound)
            || (WantsOneTime(sys, s, j) && k == 0 && Consumes(sys.programs[j]))
  {
    var orders := sys.Orders();
    assert Stuck(orders, s, waits, i);
    j := waits[i];
    assert Stuck(orders, s, waits, j);
    k :| HoldsAt(orders, s, j, k) && Conflicts(Wanted(orders, s, i), orders[j][k]);
    if !HasItsToken(sys, s, j) {
      HeldBeforeWanted(sys, s, j, waits[j], k);
      if Before(orders[j][k].row, Wanted(orders, s, j).row) {
        DistanceFalls(orders[j][k].row, Wanted(orders, s, j).row, bound);
      }
    }
  }

  lemma NoReturn(p: Program, owners: map<TokenId, UserId>, groups: map<OneTimeId, Group>, k: nat, m: nat)
    requires ValidProgram(p, owners, groups) && k < m < |Locks(p, owners)| && Locks(p, owners)[m].row.OneTimeRow?
    ensures Locks(p, owners)[k].row.OneTimeRow?
  {
    OneTimeHolder(p, owners, groups, m);
    assert Locks(p, owners)[k] == OneTimeLocks(Order(p))[k];
  }

  /** A deadlock without such a rotation is one over one-time tokens only. */
  lemma {:induction false} AllWantOneTime(sys: System, s: State, waits: map<TxId, TxId>, i: TxId, bound: nat)
    requires sys.Valid() && Compatible(sys.Orders(), s) && Deadlocked(sys.Orders(), s, waits) && i in waits && Bounds(sys.Orders(), bound)
    requires forall r {:trigger HasItsToken(sys, s, r)} :: r in waits ==> !HasItsToken(sys, s, r)
    ensures WantsOneTime(sys, s, i)
    decreases DistanceOf(sys.Orders(), s, i, bound)
  {
    var j, k := Follow(sys, s, waits, i, bound);
    if !WantsOneTime(sys, s, i) {
      if WantsOneTime(sys, s, j) {
        NoReturn(sys.programs[j], sys.owners, sys.groups, k, s[j]);
      } else {
        AllWantOneTime(sys, s, waits, j, bound);
      }
    }
  }

  // ---- Knots over one-time tokens ----

  predicate WantsIn(sys: System, s: State, i: TxId, group: Group) {
    WantsOneTime(sys, s, i)
    && var id := Wanted(sys.Orders(), s, i).row.id; id in sys.groups && sys.groups[id] == group
  }

  /** Consumes and issues of one owner that wait for each other's one-time tokens. */
  ghost predicate OneTimeKnot(sys: System, at: State, waits: map<TxId, TxId>, group: Group) {
    Knot(sys.Orders(), at, waits) && forall i {:trigger WantsIn(sys, at, i, group)} :: i in waits ==> WantsIn(sys, at, i, group)
  }

  lemma WantsInItsGroup(sys: System, s: State, i: TxId)
    requires sys.Valid() && WantsOneTime(sys, s, i)
    ensures WantsIn(sys, s, i, GroupOf(sys.programs[i]))
  {
    OneTimeHolder(sys.programs[i], sys.owners, sys.groups, s[i]);
  }

  /** Whoever holds a one-time token of a group and wants one wants one of that group. */
  lemma SameGroup(sys: System, s: State, i: TxId, j: TxId, k: nat, group: Group)
    requires sys.Valid() && WantsIn(sys, s, i, group) && WantsOneTime(sys, s, j)
    requires HoldsAt(sys.Orders(), s, j, k) && Conflicts(Wanted(sys.Orders(), s, i), sys.Orders()[j][k])
    ensures WantsIn(sys, s, j, group)
  {
    OneTimeHolder(sys.programs[j], sys.owners, sys.groups, k);
    WantsInItsGroup(sys, s, j);
  }

  lemma GroupStays(sys: System, s: State, waits: map<TxId, TxId>, i: TxId, group: Group, bound: nat)
    requires sys.Valid() && Compatible(sys.Orders(), s) && Deadlocked(sys.Orders(), s, waits) && Bounds(sys.Orders(), bound)
    requires forall r {:trigger HasItsToken(sys, s, r)} :: r in waits ==> !HasItsToken(sys, s, r)
    requires i in waits && WantsIn(sys, s, i, group)
    ensures waits[i] in waits && WantsIn(sys, s, waits[i], group)
  {
    var j, k := Follow(sys, s, waits, i, bound);
    AllWantOneTime(sys, s, waits, j, bound);
    SameGroup(sys, s, i, j, k, group);
  }

  lemma WantsInPart(sys: System, s: State, members: set<TxId>, i: TxId, group: Group)
    requires i in members && WantsIn(sys, s, i, group)
    ensures WantsIn(sys, Part(s, members), i, group)
  {
  }

  lemma FindOneTimeKnot(sys: System, s: State, waits: map<TxId, TxId>)
    requires sys.Valid() && Compatible(sys.Orders(), s) && Deadlocked(sys.Orders(), s, waits)
    requires forall r {:trigger HasItsToken(sys, s, r)} :: r in waits ==> !HasItsToken(sys, s, r)
    ensures exists at, waits', group :: OneTimeKnot(sys, at, waits', group)
  {
    var bound := BoundExists(sys.Orders());
    var first :| first in waits.Keys;
    AllWantOneTime(sys, s, waits, first, bound);
    var group := GroupOf(sys.programs[first]);
    WantsInItsGroup(sys, s, first);
    var members := set i | i in waits && WantsIn(sys, s, i, group);
    assert first in members;
    forall i | i in members ensures StaysIn(waits, members, i) {
      GroupStays(sys, s, waits, i, group, bound);
    }
    PartIsKnot(sys.Orders(), s, waits, members);
    forall i | i in members ensures WantsIn(sys, Part(s, members), i, group) {
      WantsInPart(sys, s, members, i, group);
    }
    assert OneTimeKnot(sys, Part(s, members), Part(waits, members), group);
  }

  // ---- Knots around a disable and a rotation ----

  /** A disable of a super_admin meets a rotation of one of its target's tokens. */
  predicate Collide(sys: System, d: TxId, r: TxId) {
    && d in sys.programs && r in sys.programs && sys.programs[d].DisableSuper? && sys.programs[r].Rotate?
    && sys.programs[r].token in sys.owners && sys.owners[sys.programs[r].token] == sys.programs[d].target
  }

  predicate RevokesOf(sys: System, i: TxId, user: UserId) {
    i in sys.programs && sys.programs[i].RevokeTokens? && sys.programs[i].owner == user
  }

  /**
   A disable of a super_admin waits for a token of its target, directly or through revocations of the
   target's tokens, that a rotation has, which waits for the target's row.
   */
  ghost predicate DisableKnot(sys: System, at: State, waits: map<TxId, TxId>, d: TxId, r: TxId) {
    && Knot(sys.Orders(), at, waits) && Collide(sys, d, r) && d in waits && r in waits && waits[r] == d && HasItsToken(sys, at, r)
    && forall i {:trigger RevokesOf(sys, i, sys.programs[d].target)} :: i in waits && i != d && i != r ==> RevokesOf(sys, i, sys.programs[d].target)
  }

  predicate HoldsToken(sys: System, s: State, i: TxId) {
    Running(sys.Orders(), s, i) && exists k {:trigger sys.Orders()[i][k]} :: 0 <= k < s[i] && sys.Orders()[i][k].row.TokenRow?
  }

  /** Who holds the wanted token of `user` either rotates it and waits for its owner, or wants another of `user`. */
  lemma NextToken(sys: System, s: State, waits: map<TxId, TxId>, i: TxId, bound: nat, user: UserId) returns (j: TxId)
    requires sys.Valid() && Compatible(sys.Orders(), s) && Deadlocked(sys.Orders(), s, waits) && i in waits && Bounds(sys.Orders(), bound)
    requires WantsTokenOf(sys, s, i, user)
    ensures j == waits[i] && j in waits
    ensures if HasItsToken(sys, s, j) then sys.programs[j].token in sys.owners && sys.owners[sys.programs[j].token] == user
            else WantsTokenOf(sys, s, j, user) && HoldsToken(sys, s, j)
                 && DistanceOf(sys.Orders(), s, j, bound) < DistanceOf(sys.Orders(), s, i, bound)
  {
    var k;
    j, k := Follow(sys, s, waits, i, bound);
    TokenHolder(sys.programs[j], sys.owners, sys.groups, k, s[j]);
    assert sys.Orders()[j][k].row.TokenRow?;
  }

  /** A member on the way to rotation `r` waits for a token of `user`, and holds one unless it is the first. */
  predicate OnTheWay(sys: System, s: State, waits: map<TxId, TxId>, members: set<TxId>, user: UserId, first: TxId, m: TxId) {
    StaysIn(waits, members, m) && WantsTokenOf(sys, s, m, user) && (m == first || HoldsToken(sys, s, m))
  }

  /** From a transaction that waits for a token of `user`, waits lead over holders of such tokens to a rotation. */
  lemma {:induction false} FindRotation(sys: System, s: State, waits: map<TxId, TxId>, i: TxId, bound: nat, user: UserId)
      returns (r: TxId, members: set<TxId>)
    requires sys.Valid() && Compatible(sys.Orders(), s) && Deadlocked(sys.Orders(), s, waits) && i in waits && Bounds(sys.Orders(), bound)
    requires WantsTokenOf(sys, s, i, user)
    ensures r in members && i in members && r in waits && HasItsToken(sys, s, r)
    ensures sys.programs[r].token in sys.owners && sys.owners[sys.programs[r].token] == user
    ensures forall m {:trigger OnTheWay(sys, s, waits, members, user, i, m)} ::
              m in members && m != r ==> OnTheWay(sys, s, waits, members, user, i, m)
    decreases DistanceOf(sys.Orders(), s, i, bound)
  {
    var j := NextToken(sys, s, waits, i, bound, user);
    if HasItsToken(sys, s, j) {
      r, members := j, {i, j};
    } else {
      var rest;
      r, rest := FindRotation(sys, s, waits, j, bound, user);
      members := rest + {i};
      forall m | m in members && m != r ensures OnTheWay(sys, s, waits, members, user, i, m) {
        assert m in rest ==> OnTheWay(sys, s, waits, rest, user, j, m);
      }
    }
  }

  predicate HoldsUser(sys: System, s: State, i: TxId) {
    Running(sys.Orders(), s, i) && exists k {:trigger sys.Orders()[i][k]} :: 0 <= k < s[i] && sys.Orders()[i][k].row.UserRow?
  }

  /** The transaction holds the user's row in a mode that excludes others' updates. */
  predicate HoldsRowOf(sys: System, s: State, i: TxId, user: UserId, k: int) {
    HoldsAt(sys.Orders(), s, i, k) && sys.Orders()[i][k].row == UserRow(user) && !sys.Orders()[i][k].mode.KeyShare?
  }

  lemma OnlyOneHoldsRow(sys: System, s: State, i: TxId, j: TxId, user: UserId, k: int, m: int)
    requires Compatible(sys.Orders(), s) && HoldsRowOf(sys, s, i, user, k) && HoldsRowOf(sys, s, j, user, m)
    ensures i == j
  {
    var orders := sys.Orders();
    assert Conflicts(orders[i][k], orders[j][m]);
  }

  /** Who waits for a token after its user's row has that row. */
  lemma HasUsersRow(sys: System, s: State, i: TxId, user: UserId) returns (k: nat)
    requires sys.Valid() && WantsTokenOf(sys, s, i, user) && UpdatesAndRevokes(sys.programs[i])
    ensures HoldsRowOf(sys, s, i, user, k)
  {
    var p := sys.programs[i];
    k := UserFirst(p, sys.owners, sys.groups, s[i]);
    TokensComeLast(p, sys.owners, sys.groups, k, s[i]);
  }

  /** A rotation that waits for its owner waits for a disable that has locked the owner's row. */
  lemma OwnerIsLocked(sys: System, s: State, r: TxId, z: TxId) returns (k: nat)
    requires sys.Valid() && HasItsToken(sys, s, r) && WaitsFor(sys.Orders(), s, r, z)
    ensures sys.programs[r].token in sys.owners
    ensures HoldsRowOf(sys, s, z, sys.owners[sys.programs[r].token], k) && sys.Orders()[z][k].mode.ForUpdate? && HoldsUser(sys, s, z)
  {
    RotationHasTwo(sys.programs[r], sys.owners, sys.groups);
    k :| HoldsAt(sys.Orders(), s, z, k) && Conflicts(Wanted(sys.Orders(), s, r), sys.Orders()[z][k]);
    assert sys.Orders()[z][k].row.UserRow?;
  }

  /** Who holds an account row and waits either wants a token of its user or another account row. */
  lemma UserHolderWants(sys: System, s: State, i: TxId, next: TxId)
    requires sys.Valid() && Compatible(sys.Orders(), s) && WaitsFor(sys.Orders(), s, i, next) && HoldsUser(sys, s, i)
    ensures UpdatesAndRevokes(sys.programs[i])
    ensures WantsTokenOf(sys, s, i, UserOf(sys.programs[i])) || Wanted(sys.Orders(), s, i).row.UserRow?
  {
    var p := sys.programs[i];
    var k :| 0 <= k < s[i] && sys.Orders()[i][k].row.UserRow?;
    UserHolder(p, sys.owners, sys.groups, k, s[i]);
    LocksAscend(p, sys.owners, sys.groups, k, s[i]);
    TargetIsFree(sys, s, i, next);
    NoEmails(p, sys.owners, s[i]);
    if Wanted(sys.Orders(), s, i).row.TokenRow? {
      TokensComeLast(p, sys.owners, sys.groups, k, s[i]);
    } else if Wanted(sys.Orders(), s, i).row.OneTimeRow? {
      NoReturn(p, sys.owners, sys.groups, k, s[i]);
    }
  }

  lemma NoEmails(p: Program, owners: map<TokenId, UserId>, k: nat)
    requires UpdatesAndRevokes(p) && k < |Locks(p, owners)|
    ensures !Locks(p, owners)[k].row.EmailKey?
  {
  }

  /** Following waits from a transaction that holds an account row leads to one that waits for a token of its user. */
  lemma {:induction false} FindDisable(sys: System, s: State, waits: map<TxId, TxId>, i: TxId, bound: nat) returns (d: TxId)
    requires sys.Valid() && Compatible(sys.Orders(), s) && Deadlocked(sys.Orders(), s, waits) && i in waits && Bounds(sys.Orders(), bound)
    requires HoldsUser(sys, s, i)
    ensures d in waits && d in sys.programs && UpdatesAndRevokes(sys.programs[d]) && WantsTokenOf(sys, s, d, UserOf(sys.programs[d]))
    decreases DistanceOf(sys.Orders(), s, i, bound)
  {
    var j, k := Follow(sys, s, waits, i, bound);
    UserHolderWants(sys, s, i, j);
    if WantsTokenOf(sys, s, i, UserOf(sys.programs[i])) {
      d := i;
    } else {
      assert sys.Orders()[j][k].row.UserRow?;
      UserHolderWants(sys, s, j, waits[j]);
      d := FindDisable(sys, s, waits, j, bound);
    }
  }

  /** Those between the disable and the rotation revoke tokens of the disable's target. */
  lemma MiddleRevokes(sys: System, s: State, d: TxId, k: int, m: TxId, user: UserId)
    requires sys.Valid() && Compatible(sys.Orders(), s) && HoldsRowOf(sys, s, d, user, k)
    requires m != d && WantsTokenOf(sys, s, m, user) && HoldsToken(sys, s, m)
    ensures RevokesOf(sys, m, user)
  {
    var p := sys.programs[m];
    var n :| 0 <= n < s[m] && sys.Orders()[m][n].row.TokenRow?;
    TokenHolder(p, sys.owners, sys.groups, n, s[m]);
    if UpdatesAndRevokes(p) {
      var own := HasUsersRow(sys, s, m, user);
      OnlyOneHoldsRow(sys, s, d, m, user, k, own);
    }
  }

  lemma FindDisableKnot(sys: System, s: State, waits: map<TxId, TxId>, r0: TxId)
    requires sys.Valid() && Compatible(sys.Orders(), s) && Deadlocked(sys.Orders(), s, waits) && r0 in waits && HasItsToken(sys, s, r0)
    ensures exists at, waits', d, r :: DisableKnot(sys, at, waits', d, r)
  {
    var bound := BoundExists(sys.Orders());
    assert Stuck(sys.Orders(), s, waits, r0);
    var k0 := OwnerIsLocked(sys, s, r0, waits[r0]);
    var d := FindDisable(sys, s, waits, waits[r0], bound);
    var user := UserOf(sys.programs[d]);
    var k := HasUsersRow(sys, s, d, user);
    var r, members := FindRotation(sys, s, waits, d, bound, user);
    RotationClosesRing(sys, s, waits, d, k, r, user);
    CloseKnot(sys, s, waits, members, d, k, r);
  }

  lemma RotationClosesRing(sys: System, s: State, waits: map<TxId, TxId>, d: TxId, k: nat, r: TxId, user: UserId)
    requires sys.Valid() && Compatible(sys.Orders(), s) && Deadlocked(sys.Orders(), s, waits)
    requires HoldsRowOf(sys, s, d, user, k) && r in waits && HasItsToken(sys, s, r)
    requires sys.programs[r].token in sys.owners && sys.owners[sys.programs[r].token] == user
    requires UpdatesAndRevokes(sys.programs[d]) && UserOf(sys.programs[d]) == user
    ensures waits[r] == d && Collide(sys, d, r)
  {
    assert Stuck(sys.Orders(), s, waits, r);
    var m := OwnerIsLocked(sys, s, r, waits[r]);
    OnlyOneHoldsRow(sys, s, d, waits[r], user, k, m);
    UserHolder(sys.programs[d], sys.owners, sys.groups, m, s[d]);
  }

  lemma CloseKnot(sys: System, s: State, waits: map<TxId, TxId>, members: set<TxId>, d: TxId, k: nat, r: TxId)
    requires sys.Valid() && Compatible(sys.Orders(), s) && Deadlocked(sys.Orders(), s, waits) && d in members && r in members && r in waits
    requires Collide(sys, d, r) && HoldsRowOf(sys, s, d, sys.programs[d].target, k) && HasItsToken(sys, s, r) && waits[r] == d
    requires forall m {:trigger OnTheWay(sys, s, waits, members, sys.programs[d].target, d, m)} ::
               m in members && m != r ==> OnTheWay(sys, s, waits, members, sys.programs[d].target, d, m)
    ensures exists at, waits', d, r :: DisableKnot(sys, at, waits', d, r)
  {
    var user := sys.programs[d].target;
    forall m | m in members ensures StaysIn(waits, members, m) {
      assert m != r ==> OnTheWay(sys, s, waits, members, user, d, m);
    }
    PartIsKnot(sys.Orders(), s, waits, members);
    forall m | m in members && m != d && m != r ensures RevokesOf(sys, m, user) {
      assert OnTheWay(sys, s, waits, members, user, d, m);
      MiddleRevokes(sys, s, d, k, m, user);
    }
    assert DisableKnot(sys, Part(s, members), Part(waits, members), d, r);
  }

  /**
   Transactions on accounts and their tokens can deadlock exactly when some of them can stand in a knot of
   one of the two shapes; no other transactions, and no other rows, are ever part of a deadlock.
   */
  lemma CanDeadlockIff(sys: System)
    requires sys.Valid()
    ensures CanDeadlock(sys.Orders())
        <==> || (exists at, waits, d, r :: DisableKnot(sys, at, waits, d, r))
             || (exists at, waits, group :: OneTimeKnot(sys, at, waits, group))
  {
    CanDeadlockIffKnot(sys.Orders());
    if at, waits :| Knot(sys.Orders(), at, waits) {
      if r :| r in waits && HasItsToken(sys, at, r) {
        FindDisableKnot(sys, at, waits, r);
      } else {
        FindOneTimeKnot(sys, at, waits);
      }
    }
  }
}
