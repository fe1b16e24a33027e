/** The table of refresh tokens and the guarded statements on it. */
module RefreshTokens {
  import opened Basics
  import opened Domain

  type TokenId = nat
  type FamilyId = nat

  datatype Reason = PasswordChanged | ReuseDetected | AccountDeleted | AccountDisabled

  datatype Revocation = Revocation(at: Time, reason: Option<Reason>)

  /** A row of auth.refresh_tokens; the hash of the plain token is identified with the token's id. */
  datatype Token = Token(
    user: UserId, family: FamilyId, parent: Option<TokenId>, expiresAt: Time,
    usedAt: Option<Time>, revocation: Option<Revocation>)

  type Tokens = map<TokenId, Token>

  predicate Live(t: Token) { t.usedAt.None? && t.revocation.None? }

  function FamilyIds(tokens: Tokens, family: FamilyId): set<TokenId> {
    set id | id in tokens && tokens[id].family == family
  }

  function UserIds(tokens: Tokens, user: UserId): set<TokenId> {
    set id | id in tokens && tokens[id].user == user
  }

  function Families(tokens: Tokens): set<FamilyId> {
    set id | id in tokens :: tokens[id].family
  }

  function Used(t: Token, now: Time): Token { t.(usedAt := Some(now)) }

  /** Revokes those of the given rows that are not revoked yet. */
  function RevokeIn(tokens: Tokens, ids: set<TokenId>, now: Time, reason: Option<Reason>): Tokens {
    map id | id in tokens ::
      if id in ids && tokens[id].revocation.None? then tokens[id].(revocation := Some(Revocation(now, reason)))
      else tokens[id]
  }

  // ---- Write-once columns ----

  /** `t'` is a later version of `t`: identity columns are fixed, used_at and the revocation are written once. */
  ghost predicate Later(t: Token, t': Token) {
    && t'.user == t.user && t'.family == t.family && t'.parent == t.parent && t'.expiresAt == t.expiresAt
    && (t.usedAt.Some? ==> t'.usedAt == t.usedAt)
    && (t.revocation.Some? ==> t'.revocation == t.revocation)
  }

  /** How often a row has been updated, at most twice. */
  function Updates(t: Token): nat {
    (if t.usedAt.Some? then 1 else 0) + (if t.revocation.Some? then 1 else 0)
  }

  /** No row disappears and every row only moves on. */
  ghost predicate Grows(tokens: Tokens, tokens': Tokens) {
    forall id :: id in tokens ==> id in tokens' && Later(tokens[id], tokens'[id])
  }

  lemma ChangedRowsCountUp(t: Token, t': Token)
    requires Later(t, t') && t != t'
    ensures Updates(t) < Updates(t') <= 2
  {
  }

  lemma RevokeGrows(tokens: Tokens, ids: set<TokenId>, now: Time, reason: Option<Reason>)
    ensures Grows(tokens, RevokeIn(tokens, ids, now, reason))
    ensures forall id :: id in ids && id in tokens ==> RevokeIn(tokens, ids, now, reason)[id].revocation.Some?
  {
  }
}
