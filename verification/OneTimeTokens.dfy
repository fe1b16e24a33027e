/** Tables of single-use tokens: password resets, invitations and email confirmations. */
module OneTimeTokens {
  import opened Basics
  import opened Domain

  type TokenId = nat

  /** Resets and confirmations belong to a user, invitations to an email address. */
  datatype Owner = OfUser(user: UserId) | OfEmail(email: Email)

  /** A row; only invitations carry a role. The hash of the plain token is identified with the token's id. */
  datatype Token = Token(owner: Owner, role: Option<Role>, expiresAt: Time, usedAt: Option<Time>)

  type Table = map<TokenId, Token>

  predicate Active(t: Token) { t.usedAt.None? }

  function ActiveIds(table: Table, owner: Owner): set<TokenId> {
    set id | id in table && table[id].owner == owner && Active(table[id])
  }

  /** Marks those of the given tokens used that are not used yet. */
  function UseAll(table: Table, ids: set<TokenId>, now: Time): Table {
    map id | id in table :: if id in ids && Active(table[id]) then table[id].(usedAt := Some(now)) else table[id]
  }

  /** Rows are never removed; owner, role and expiry are fixed and used_at is written once. */
  ghost predicate Grows(table: Table, table': Table) {
    forall id :: id in table ==>
      && id in table'
      && table'[id].owner == table[id].owner && table'[id].role == table[id].role
      && table'[id].expiresAt == table[id].expiresAt
      && (table[id].usedAt.Some? ==> table'[id].usedAt == table[id].usedAt)
  }

  /** A committed issue: every active token of the owner in the snapshot is used, and a new one is active. */
  function Issue(table: Table, seen: set<TokenId>, newId: TokenId, token: Token, now: Time): Table {
    UseAll(table, seen, now)[newId := token]
  }

  /** After an issue the owner has the new token and those that were inserted since the snapshot. */
  lemma ActiveAfterIssue(table: Table, seen: set<TokenId>, newId: TokenId, token: Token, now: Time)
    requires newId !in table && Active(token)
    requires forall id :: id in seen ==> id in table && table[id].owner == token.owner
    ensures ActiveIds(Issue(table, seen, newId, token, now), token.owner) == (ActiveIds(table, token.owner) - seen) + {newId}
    ensures forall owner :: owner != token.owner ==>
              ActiveIds(Issue(table, seen, newId, token, now), owner) == ActiveIds(table, owner)
  {
    forall owner | owner != token.owner
      ensures ActiveIds(Issue(table, seen, newId, token, now), owner) == ActiveIds(table, owner)
    {
    }
  }

  /** The owner has exactly one active token after an issue exactly when none was inserted since the snapshot. */
  lemma OneActiveAfterIssueIff(table: Table, seen: set<TokenId>, newId: TokenId, token: Token, now: Time)
    requires newId !in table && Active(token)
    requires forall id :: id in seen ==> id in table && table[id].owner == token.owner
    ensures |ActiveIds(Issue(table, seen, newId, token, now), token.owner)| == 1 <==> ActiveIds(table, token.owner) <= seen
  {
    ActiveAfterIssue(table, seen, newId, token, now);
    var missed := ActiveIds(table, token.owner) - seen;
    assert newId !in missed;
    assert |missed + {newId}| == |missed| + 1;
    if missed == {} {
      assert forall id :: id in ActiveIds(table, token.owner) ==> id in seen || id in missed;
    }
  }

  /** Using tokens removes exactly them from the active ones. */
  lemma ActiveAfterUse(table: Table, ids: set<TokenId>, now: Time, owner: Owner)
    ensures ActiveIds(UseAll(table, ids, now), owner) == ActiveIds(table, owner) - ids
    ensures Grows(table, UseAll(table, ids, now))
  {
  }
}
