/** Knots of two and three transactions, from their lock orders alone. */
module LockShapes {
  import opened Basics
  import opened Domain
  import opened RowLocks

  /** Transaction `i` standing at `a` holds nothing that conflicts with what `j` holds at `b`. */
  predicate Apart(orders: Orders, i: TxId, a: nat, j: TxId, b: nat)
    requires i in orders && a <= |orders[i]| && j in orders && b <= |orders[j]|
  {
    forall k, m :: 0 <= k < a && 0 <= m < b ==> !Conflicts(orders[i][k], orders[j][m])
  }

  /** Two transactions, each of which has the lock that the other takes next. */
  lemma TwoKnot(orders: Orders, i: TxId, a: nat, j: TxId, b: nat, k: nat, m: nat)
    requires i != j && i in orders && j in orders && k < a < |orders[i]| && m < b < |orders[j]|
    requires Conflicts(orders[i][a], orders[j][m]) && Conflicts(orders[j][b], orders[i][k])
    requires Apart(orders, i, a, j, b)
    ensures Knot(orders, map[i := a, j := b], map[i := j, j := i])
  {
    var at, waits := map[i := a, j := b], map[i := j, j := i];
    assert i in waits && HoldsAt(orders, at, i, k) && HoldsAt(orders, at, j, m);
    assert WaitsFor(orders, at, i, j) && WaitsFor(orders, at, j, i);
    forall x, y, k, m | x != y && HoldsAt(orders, at, x, k) && HoldsAt(orders, at, y, m)
      ensures !Conflicts(orders[x][k], orders[y][m])
    {
      assert if x == i then !Conflicts(orders[i][k], orders[j][m]) else !Conflicts(orders[i][m], orders[j][k]);
    }
  }

  /** Lock number `x` is that of a user row, or that of a token after `base` user rows. */
  predicate TakesTokensAfter(base: nat, tokens: seq<TokenId>, locks: seq<Lock>, x: int) {
    0 <= x < |locks| && if x < base then locks[x].row.UserRow?
                        else x - base < |tokens| && locks[x] == Lock(TokenRow(tokens[x - base]), NoKeyUpdate)
  }

  /** A disable has its target locked FOR UPDATE, as lock number `k`, and then takes the tokens. */
  predicate DisableTakes(locks: seq<Lock>, base: nat, k: nat, user: UserId, tokens: seq<TokenId>) {
    && |locks| == base + |tokens| && k < base && locks[k] == Lock(UserRow(user), ForUpdate) && Ascending(tokens)
    && forall x {:trigger locks[x]} :: 0 <= x < base + |tokens| ==> TakesTokensAfter(base, tokens, locks, x)
  }

  predicate RotationTakes(locks: seq<Lock>, user: UserId, token: TokenId) {
    locks == [Lock(TokenRow(token), NoKeyUpdate), Lock(UserRow(user), KeyShare)]
  }

  predicate RevocationTakes(locks: seq<Lock>, tokens: seq<TokenId>) {
    |locks| == |tokens| && Ascending(tokens) && forall k :: 0 <= k < |tokens| ==> locks[k] == Lock(TokenRow(tokens[k]), NoKeyUpdate)
  }

  lemma CollisionKnot(orders: Orders, d: TxId, base: nat, k: nat, listed: seq<TokenId>, n: nat, r: TxId, user: UserId, token: TokenId)
    requires d != r && d in orders && r in orders && n < |listed| && listed[n] == token
    requires DisableTakes(orders[d], base, k, user, listed) && RotationTakes(orders[r], user, token)
    ensures CanDeadlock(orders)
  {
    var a := base + n;
    assert TakesTokensAfter(base, listed, orders[d], a);
    forall x | 0 <= x < a ensures orders[d][x].row != TokenRow(listed[n]) {
      assert TakesTokensAfter(base, listed, orders[d], x);
    }
    TwoKnot(orders, d, a, r, 1, k, 0);
    KnotDeadlocks(orders, map[d := a, r := 1], map[d := r, r := d]);
  }

  /**
   The first tokens that a disable and a revocation share are number `n` of the one and `b` of the other; the
   revocation goes on to `token`, which the disable does not take before.
   */
  predicate FirstShares(listed: seq<TokenId>, n: nat, revoked: seq<TokenId>, b: nat, e: nat, token: TokenId) {
    && n < |listed| && b < e < |revoked| && listed[n] == revoked[b] && revoked[e] == token
    && (forall x :: 0 <= x < n ==> listed[x] != token)
    && (forall x, y :: 0 <= x < n && 0 <= y < e ==> listed[x] != revoked[y])
  }

  lemma RingOfThree(orders: Orders, d: TxId, base: nat, k: nat, listed: seq<TokenId>, n: nat, c: TxId, revoked: seq<TokenId>,
                    b: nat, e: nat, r: TxId, user: UserId, token: TokenId)
    requires d in orders && c in orders && r in orders && d != c && c != r && d != r
    requires FirstShares(listed, n, revoked, b, e, token)
    requires DisableTakes(orders[d], base, k, user, listed) && RevocationTakes(orders[c], revoked)
    requires RotationTakes(orders[r], user, token)
    ensures CanDeadlock(orders)
  {
    var a := base + n;
    assert TakesTokensAfter(base, listed, orders[d], a);
    forall x, y | 0 <= x < a && 0 <= y < e ensures !Conflicts(orders[d][x], orders[c][y]) {
      assert TakesTokensAfter(base, listed, orders[d], x);
    }
    forall x | 0 <= x < a ensures orders[d][x].row != TokenRow(revoked[e]) {
      assert TakesTokensAfter(base, listed, orders[d], x);
    }
    ThreeKnot(orders, d, a, k, c, e, b, r, 1, 0);
  }

  /** Three transactions, each of which has the lock that the one before it takes next. */
  lemma ThreeKnot(orders: Orders, h: TxId, a: nat, k: nat, i: TxId, b: nat, m: nat, j: TxId, e: nat, n: nat)
    requires h != i && i != j && h != j && h in orders && i in orders && j in orders
    requires k < a < |orders[h]| && m < b < |orders[i]| && n < e < |orders[j]|
    requires Conflicts(orders[h][a], orders[i][m]) && Conflicts(orders[i][b], orders[j][n]) && Conflicts(orders[j][e], orders[h][k])
    requires Apart(orders, h, a, i, b) && Apart(orders, i, b, j, e) && Apart(orders, h, a, j, e)
    ensures CanDeadlock(orders)
  {
    var at, waits := map[h := a, i := b, j := e], map[h := i, i := j, j := h];
    assert HoldsAt(orders, at, h, k) && HoldsAt(orders, at, i, m) && HoldsAt(orders, at, j, n);
    assert WaitsFor(orders, at, h, i) && WaitsFor(orders, at, i, j) && WaitsFor(orders, at, j, h);
    forall x, y, k, m | x != y && HoldsAt(orders, at, x, k) && HoldsAt(orders, at, y, m)
      ensures !Conflicts(orders[x][k], orders[y][m])
    {
      AnyApart(orders, at, x, k, y, m, h, i, j);
    }
    assert h in waits;
    assert Knot(orders, at, waits);
    KnotDeadlocks(orders, at, waits);
  }

  lemma AnyApart(orders: Orders, at: State, x: TxId, k: int, y: TxId, m: int, h: TxId, i: TxId, j: TxId)
    requires h in at && i in at && j in at && h in orders && i in orders && j in orders
    requires at[h] <= |orders[h]| && at[i] <= |orders[i]| && at[j] <= |orders[j]|
    requires Apart(orders, h, at[h], i, at[i]) && Apart(orders, i, at[i], j, at[j]) && Apart(orders, h, at[h], j, at[j])
    requires x in {h, i, j} && y in {h, i, j} && x != y && HoldsAt(orders, at, x, k) && HoldsAt(orders, at, y, m)
    ensures !Conflicts(orders[x][k], orders[y][m])
  {
    assert Conflicts(orders[x][k], orders[y][m]) == Conflicts(orders[y][m], orders[x][k]);
  }

  // ---- One-time tokens ----

  /** Its one-time tokens are the first rows that a transaction takes. */
  predicate TakesFirst(order: seq<OneTimeId>, locks: seq<Lock>) {
    && |order| <= |locks|
    && (forall k :: 0 <= k < |order| ==> locks[k] == Lock(OneTimeRow(order[k]), NoKeyUpdate))
    && (forall k :: |order| <= k < |locks| ==> !locks[k].row.OneTimeRow?)
    && (forall k, m :: 0 <= k < m < |order| ==> order[k] != order[m])
  }

  /** The first token of a consume's sweep that the other has taken when it comes to the consumed one. */
  lemma FirstShared(own: seq<OneTimeId>, other: seq<OneTimeId>, q: nat, p0: nat) returns (n: nat, p: nat)
    requires p0 < q < |other| && |own| >= 1 && other[p0] in own[1..]
    ensures 1 <= n < |own| && p < q && other[p] == own[n]
    ensures forall k, m :: 1 <= k < n && 0 <= m < q ==> own[k] != other[m]
  {
    var k0 :| 0 <= k0 < |own[1..]| && own[1..][k0] == other[p0];
    var shared := set k: nat | 1 <= k < |own| && own[k] in other[..q];
    assert other[..q][p0] == own[k0 + 1];
    assert k0 + 1 in shared;
    n := LeastMember(shared);
    p :| 0 <= p < |other[..q]| && other[..q][p] == own[n];
    forall k, m | 1 <= k < n && 0 <= m < q ensures own[k] != other[m] {
      assert other[..q][m] == other[m] && k !in shared;
    }
  }

  lemma CrossKnot(orders: Orders, c: TxId, own: seq<OneTimeId>, x: TxId, other: seq<OneTimeId>, p0: nat, q: nat)
    requires c in orders && x in orders && c != x && TakesFirst(own, orders[c]) && TakesFirst(other, orders[x])
    requires p0 < q < |other| && |own| >= 1 && other[q] == own[0] && other[p0] in own[1..]
    ensures CanDeadlock(orders)
  {
    var n, p := FirstShared(own, other, q, p0);
    forall k, m | 0 <= k < n && 0 <= m < q ensures !Conflicts(orders[c][k], orders[x][m]) {
      assert own[k] != other[m];
    }
    TwoKnot(orders, c, n, x, q, 0, p);
    KnotDeadlocks(orders, map[c := n, x := q], map[c := x, x := c]);
  }

  lemma WaitedFor(orders: Orders, at: State, c: TxId, own: seq<OneTimeId>, x: TxId, other: seq<OneTimeId>) returns (p: nat)
    requires WaitsFor(orders, at, c, x) && TakesFirst(own, orders[c]) && 1 <= at[c] < |own|
    requires x in orders && TakesFirst(other, orders[x])
    ensures p < |other| && x in at && p < at[x] && other[p] == own[at[c]] && own[at[c]] in own[1..]
  {
    var k :| HoldsAt(orders, at, x, k) && Conflicts(Wanted(orders, at, c), orders[x][k]);
    p := k;
    assert own[1..][at[c] - 1] == own[at[c]];
  }

  /** What the consume holds, the other takes only later. */
  lemma TakenLater(orders: Orders, at: State, c: TxId, own: seq<OneTimeId>, x: TxId, other: seq<OneTimeId>) returns (q: nat)
    requires Compatible(orders, at) && c != x && Running(orders, at, c) && Running(orders, at, x)
    requires TakesFirst(own, orders[c]) && TakesFirst(other, orders[x]) && at[c] >= 1 && |own| >= 1 && own[0] in other
    ensures at[x] <= q < |other| && other[q] == own[0]
  {
    q :| 0 <= q < |other| && other[q] == own[0];
    assert HoldsAt(orders, at, c, 0);
    assert HoldsAt(orders, at, x, q) ==> Conflicts(orders[c][0], orders[x][q]);
  }
}
