/**
 Transactions that take row locks one after the other and hold them to their end, each in an order of its own:
 they can deadlock exactly when some of them can stand in a knot, which is seen from their orders alone.
 */
module RowLocks {
  import opened Basics
  import opened Domain

  type TokenId = nat
  type OneTimeId = nat   // of all three tables
  type TxId = nat

  datatype Row = OneTimeRow(id: OneTimeId) | UserRow(user: UserId) | TokenRow(token: TokenId) | EmailKey(email: Email)

  datatype Mode = KeyShare | NoKeyUpdate | ForUpdate

  datatype Lock = Lock(row: Row, mode: Mode)

  predicate Conflicts(a: Lock, b: Lock) {
    a.row == b.row && (a.mode.ForUpdate? || b.mode.ForUpdate? || (a.mode.NoKeyUpdate? && b.mode.NoKeyUpdate?))
  }

  predicate Ascending(s: seq<nat>) { forall i, j :: 0 <= i < j < |s| ==> s[i] < s[j] }

  /** The locks each transaction takes, in order. */
  type Orders = map<TxId, seq<Lock>>

  /** How many locks each transaction has taken; one that has taken all has committed and holds none. */
  type State = map<TxId, nat>

  predicate Running(orders: Orders, s: State, i: TxId) { i in orders && i in s && s[i] < |orders[i]| }

  /** Transaction `j` holds its lock number `k`. */
  predicate HoldsAt(orders: Orders, s: State, j: TxId, k: int) { Running(orders, s, j) && 0 <= k < s[j] }

  function Wanted(orders: Orders, s: State, i: TxId): Lock
    requires Running(orders, s, i)
  {
    orders[i][s[i]]
  }

  /** Transaction `i` waits for a lock that `j` holds. */
  ghost predicate WaitsFor(orders: Orders, s: State, i: TxId, j: TxId) {
    i != j && Running(orders, s, i) && exists k :: HoldsAt(orders, s, j, k) && Conflicts(Wanted(orders, s, i), orders[j][k])
  }

  datatype Action = Take(i: TxId) | Abort(i: TxId)

  ghost predicate Enabled(orders: Orders, s: State, a: Action) {
    Running(orders, s, a.i) && (a.Take? ==> forall j :: !WaitsFor(orders, s, a.i, j))
  }

  ghost function Apply(orders: Orders, s: State, a: Action): State
    requires Enabled(orders, s, a)
  {
    s[a.i := if a.Take? then s[a.i] + 1 else |orders[a.i]|]
  }

  ghost predicate Reachable(orders: Orders, s: State, trace: seq<Action>, end: State)
    decreases |trace|
  {
    if trace == [] then s == end
    else Enabled(orders, s, trace[0]) && Reachable(orders, Apply(orders, s, trace[0]), trace[1..], end)
  }

  function Start(orders: Orders): State { map i | i in orders :: 0 }

  /** The member waits for another member: `waits` says which. */
  ghost predicate Stuck(orders: Orders, s: State, waits: map<TxId, TxId>, i: TxId)
    requires i in waits
  {
    waits[i] in waits && WaitsFor(orders, s, i, waits[i])
  }

  ghost predicate Deadlocked(orders: Orders, s: State, waits: map<TxId, TxId>) {
    waits.Keys != {} && forall i {:trigger Stuck(orders, s, waits, i)} :: i in waits ==> Stuck(orders, s, waits, i)
  }

  ghost predicate CanDeadlock(orders: Orders) {
    exists trace, s, waits :: Reachable(orders, Start(orders), trace, s) && Deadlocked(orders, s, waits)
  }

  // ---- No two transactions hold conflicting locks ----

  ghost predicate Compatible(orders: Orders, s: State) {
    forall i, j, k, m :: i != j && HoldsAt(orders, s, i, k) && HoldsAt(orders, s, j, m) ==> !Conflicts(orders[i][k], orders[j][m])
  }

  lemma StepKeepsCompatible(orders: Orders, s: State, a: Action)
    requires Compatible(orders, s) && Enabled(orders, s, a)
    ensures Compatible(orders, Apply(orders, s, a))
  {
    var s' := Apply(orders, s, a);
    forall i, j, k, m | i != j && HoldsAt(orders, s', i, k) && HoldsAt(orders, s', j, m) ensures !Conflicts(orders[i][k], orders[j][m]) {
      if i == a.i && !HoldsAt(orders, s, i, k) {
        assert HoldsAt(orders, s, j, m) && !WaitsFor(orders, s, i, j);
      } else if j == a.i && !HoldsAt(orders, s, j, m) {
        assert HoldsAt(orders, s, i, k) && !WaitsFor(orders, s, j, i);
      } else {
        assert HoldsAt(orders, s, i, k) && HoldsAt(orders, s, j, m);
      }
    }
  }

  lemma {:induction false} RunKeepsCompatible(orders: Orders, s: State, trace: seq<Action>, end: State)
    requires Compatible(orders, s) && Reachable(orders, s, trace, end)
    ensures Compatible(orders, end)
    decreases |trace|
  {
    if trace != [] {
      StepKeepsCompatible(orders, s, trace[0]);
      RunKeepsCompatible(orders, Apply(orders, s, trace[0]), trace[1..], end);
    }
  }

  // ---- Knots ----

  /** Some transactions, each part of the way, that hold no conflicting locks. */
  ghost predicate Standing(orders: Orders, at: State) {
    Compatible(orders, at) && forall i :: i in at ==> Running(orders, at, i)
  }

  /** A deadlock as such: every member of a standing waits for another member. */
  ghost predicate Knot(orders: Orders, at: State, waits: map<TxId, TxId>) {
    at.Keys == waits.Keys && Standing(orders, at) && Deadlocked(orders, at, waits)
  }

  /** The state in which the transactions of the standing are where it says, and the others have not begun. */
  function Full(orders: Orders, at: State): State { map i | i in orders :: if i in at then at[i] else 0 }

  lemma {:induction false} ReachJoin(orders: Orders, s: State, trace: seq<Action>, mid: State, more: seq<Action>, end: State)
    requires Reachable(orders, s, trace, mid) && Reachable(orders, mid, more, end)
    ensures Reachable(orders, s, trace + more, end)
    decreases |trace|
  {
    if trace == [] {
      assert trace + more == more;
    } else {
      assert (trace + more)[1..] == trace[1..] + more;
      ReachJoin(orders, Apply(orders, s, trace[0]), trace[1..], mid, more, end);
    }
  }

  /** Transaction `i` runs on to position `n` if nobody holds what it takes on the way. */
  lemma {:induction false} Advance(orders: Orders, s: State, i: TxId, n: nat) returns (trace: seq<Action>)
    requires i in orders && i in s && s[i] <= n < |orders[i]|
    requires forall k, j, m :: s[i] <= k < n && j != i && HoldsAt(orders, s, j, m) ==> !Conflicts(orders[i][k], orders[j][m])
    ensures Reachable(orders, s, trace, s[i := n])
    decreases n - s[i]
  {
    if s[i] == n {
      trace := [];
      assert s[i := n] == s;
    } else {
      assert Enabled(orders, s, Take(i));
      var s' := Apply(orders, s, Take(i));
      forall j, m | j != i && HoldsAt(orders, s', j, m) ensures HoldsAt(orders, s, j, m) {
      }
      var rest := Advance(orders, s', i, n);
      trace := [Take(i)] + rest;
      assert trace[1..] == rest && s'[i := n] == s[i := n];
    }
  }

  /** One more transaction runs to its place while the others of the standing are at theirs. */
  lemma PlaceOne(orders: Orders, at: State, placed: State, i: TxId) returns (trace: seq<Action>)
    requires Standing(orders, at) && i in at && i !in placed
    requires forall j :: j in placed ==> j in at && placed[j] == at[j]
    ensures Reachable(orders, Full(orders, placed), trace, Full(orders, placed[i := at[i]]))
  {
    var s := Full(orders, placed);
    assert Running(orders, at, i);
    forall k, j, m | s[i] <= k < at[i] && j != i && HoldsAt(orders, s, j, m) ensures !Conflicts(orders[i][k], orders[j][m]) {
      assert HoldsAt(orders, at, j, m) && HoldsAt(orders, at, i, k);
    }
    trace := Advance(orders, s, i, at[i]);
    assert s[i := at[i]] == Full(orders, placed[i := at[i]]);
  }

  lemma AllPlaced(at: State, placed: State)
    requires (forall j :: j in placed ==> j in at && placed[j] == at[j]) && forall i :: i !in at.Keys - placed.Keys
    ensures placed == at
  {
    forall i | i in at ensures i in placed {
      assert i !in at.Keys - placed.Keys;
    }
  }

  /** Every standing is reached. */
  lemma {:induction false} PlaceAll(orders: Orders, at: State, placed: State) returns (trace: seq<Action>)
    requires Standing(orders, at)
    requires forall j :: j in placed ==> j in at && placed[j] == at[j]
    ensures Reachable(orders, Full(orders, placed), trace, Full(orders, at))
    decreases |at.Keys - placed.Keys|
  {
    if i :| i in at.Keys - placed.Keys {
      var placed' := placed[i := at[i]];
      assert at.Keys - placed'.Keys == at.Keys - placed.Keys - {i};
      var first := PlaceOne(orders, at, placed, i);
      var rest := PlaceAll(orders, at, placed');
      ReachJoin(orders, Full(orders, placed), first, Full(orders, placed'), rest, Full(orders, at));
      trace := first + rest;
    } else {
      AllPlaced(at, placed);
      trace := [];
    }
  }

  lemma WaitsAlike(orders: Orders, s: State, s': State, i: TxId, j: TxId)
    requires WaitsFor(orders, s, i, j) && i in s' && s'[i] == s[i] && j in s' && s'[j] == s[j]
    ensures WaitsFor(orders, s', i, j)
  {
    var k :| HoldsAt(orders, s, j, k) && Conflicts(Wanted(orders, s, i), orders[j][k]);
    assert HoldsAt(orders, s', j, k);
  }

  lemma KnotDeadlocks(orders: Orders, at: State, waits: map<TxId, TxId>)
    requires Knot(orders, at, waits)
    ensures CanDeadlock(orders)
  {
    assert Full(orders, map[]) == Start(orders);
    var trace := PlaceAll(orders, at, map[]);
    var s := Full(orders, at);
    forall i | i in waits ensures Stuck(orders, s, waits, i) {
      assert Stuck(orders, at, waits, i);
      WaitsAlike(orders, at, s, i, waits[i]);
    }
    assert Deadlocked(orders, s, waits);
  }

  predicate StaysIn(waits: map<TxId, TxId>, members: set<TxId>, i: TxId) { i in waits && waits[i] in members }

  function Part(m: map<TxId, nat>, members: set<TxId>): map<TxId, nat> { map i | i in m && i in members :: m[i] }

  lemma PartOfState(orders: Orders, s: State, members: set<TxId>)
    requires Compatible(orders, s) && forall i :: i in members ==> Running(orders, s, i)
    ensures Standing(orders, Part(s, members)) && Part(s, members).Keys == members
  {
    var at := Part(s, members);
    forall i, j, k, m | i != j && HoldsAt(orders, at, i, k) && HoldsAt(orders, at, j, m) ensures !Conflicts(orders[i][k], orders[j][m]) {
      assert HoldsAt(orders, s, i, k) && HoldsAt(orders, s, j, m);
    }
    forall i | i in members ensures i in at {
      assert Running(orders, s, i);
    }
  }

  /** A part of a deadlock in which every member still waits for a member is a knot. */
  lemma PartIsKnot(orders: Orders, s: State, waits: map<TxId, TxId>, members: set<TxId>)
    requires Compatible(orders, s) && Deadlocked(orders, s, waits)
    requires members != {} && forall i {:trigger StaysIn(waits, members, i)} :: i in members ==> StaysIn(waits, members, i)
    ensures Knot(orders, Part(s, members), Part(waits, members)) && Part(waits, members).Keys == members
  {
    var at, waits' := Part(s, members), Part(waits, members);
    forall i | i in members ensures i in waits && Running(orders, s, i) {
      assert StaysIn(waits, members, i) && Stuck(orders, s, waits, i);
    }
    PartOfState(orders, s, members);
    assert waits'.Keys == members;
    forall i | i in waits' ensures Stuck(orders, at, waits', i) {
      assert Stuck(orders, s, waits, i) && StaysIn(waits, members, i);
      WaitsAlike(orders, s, at, i, waits[i]);
    }
  }

  /** Transactions can deadlock exactly when some of them can stand in a knot. */
  lemma CanDeadlockIffKnot(orders: Orders)
    ensures CanDeadlock(orders) <==> exists at, waits :: Knot(orders, at, waits)
  {
    if CanDeadlock(orders) {
      var trace, s, waits :| Reachable(orders, Start(orders), trace, s) && Deadlocked(orders, s, waits);
      RunKeepsCompatible(orders, Start(orders), trace, s);
      forall i | i in waits.Keys ensures StaysIn(waits, waits.Keys, i) {
        assert Stuck(orders, s, waits, i);
      }
      PartIsKnot(orders, s, waits, waits.Keys);
    }
    if at, waits :| Knot(orders, at, waits) {
      KnotDeadlocks(orders, at, waits);
    }
  }
}
