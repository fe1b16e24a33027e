/**
 The statements, repository methods and handlers on refresh tokens as they run when nothing interferes.
 Each handler, run alone, does exactly what its request does in the interleaved protocol.
 */
module RefreshStore {
  import opened Basics
  import opened Domain
  import opened RefreshTokens
  import opened RefreshProtocol

  datatype RotationResult = Rotated | AlreadyUsed | NotRotated

  class Database {
    var now: Time
    var accounts: Accounts
    var tokens: Tokens

    constructor (now: Time, accounts: Accounts, tokens: Tokens)
      ensures this.now == now && this.accounts == accounts && this.tokens == tokens
    {
      this.now := now;
      this.accounts := accounts;
      this.tokens := tokens;
    }

    method GetRefreshTokenByHash(id: TokenId) returns (row: Option<Token>)
      ensures row == if id in tokens then Some(tokens[id]) else None
    {
      row := if id in tokens then Some(tokens[id]) else None;
    }

    method GetUser(user: UserId) returns (account: Option<Account>)
      ensures account == if user in accounts && !accounts[user].deleted then Some(accounts[user]) else None
    {
      account := if user in accounts && !accounts[user].deleted then Some(accounts[user]) else None;
    }

    method MarkRefreshTokenUsed(id: TokenId) returns (affected: nat)
      modifies this`tokens
      ensures affected == if id in old(tokens) && old(tokens)[id].usedAt.None? then 1 else 0
      ensures tokens == if affected == 1 then old(tokens)[id := Used(old(tokens)[id], now)] else old(tokens)
    {
      if id in tokens && tokens[id].usedAt.None? {
        tokens := tokens[id := Used(tokens[id], now)];
        return 1;
      }
      return 0;
    }

    /** The primary key refuses a second row with the same id. */
    method InsertRefreshToken(id: TokenId, row: Token) returns (ok: bool)
      modifies this`tokens
      ensures ok == (id !in old(tokens))
      ensures tokens == if ok then old(tokens)[id := row] else old(tokens)
    {
      ok := id !in tokens;
      if ok {
        tokens := tokens[id := row];
      }
    }

    method RevokeRefreshToken(id: TokenId, reason: Option<Reason>)
      modifies this`tokens
      ensures tokens == RevokeIn(old(tokens), {id}, now, reason)
    {
      if id in tokens && tokens[id].revocation.None? {
        tokens := tokens[id := tokens[id].(revocation := Some(Revocation(now, reason)))];
      }
    }

    method RevokeRefreshTokenFamily(family: FamilyId, reason: Reason)
      modifies this`tokens
      ensures tokens == RevokeIn(old(tokens), FamilyIds(old(tokens), family), now, Some(reason))
    {
      tokens := map id | id in tokens ::
        if tokens[id].family == family && tokens[id].revocation.None?
        then tokens[id].(revocation := Some(Revocation(now, Some(reason)))) else tokens[id];
    }

    method RevokeRefreshTokensByUser(user: UserId, reason: Reason)
      modifies this`tokens
      ensures tokens == RevokeIn(old(tokens), UserIds(old(tokens), user), now, Some(reason))
    {
      tokens := map id | id in tokens ::
        if tokens[id].user == user && tokens[id].revocation.None?
        then tokens[id].(revocation := Some(Revocation(now, Some(reason)))) else tokens[id];
    }

    /** Marks the old token used and inserts its successor, both or neither. */
    method RotateRefreshToken(id: TokenId, newId: TokenId, row: Token) returns (result: RotationResult)
      modifies this`tokens
      ensures result.Rotated? <==> id in old(tokens) && old(tokens)[id].usedAt.None? && newId !in old(tokens)
      ensures result.AlreadyUsed? <==> !(id in old(tokens) && old(tokens)[id].usedAt.None?)
      ensures tokens ==
        if result.Rotated? then old(tokens)[id := Used(old(tokens)[id], now)][newId := row] else old(tokens)
    {
      var atBegin := tokens;
      var affected := MarkRefreshTokenUsed(id);
      if affected == 0 {
        tokens := atBegin;
        return AlreadyUsed;
      }
      var ok := InsertRefreshToken(newId, row);
      if !ok {
        tokens := atBegin;
        return NotRotated;
      }
      return Rotated;
    }
  }

  /** The steps of the only request, with nothing in between, until it is done or `n` steps have been taken. */
  function Alone(now: Time, accounts: Accounts, tokens: Tokens, q: Request, newId: TokenId, n: nat): (Tokens, Request)
    decreases n
  {
    var s := State(now, accounts, tokens, map[0 := q]);
    if n == 0 || !Enabled(s, Step(0, newId, 0)) then (tokens, q)
    else
      var s' := Apply(s, Step(0, newId, 0));
      Alone(now, accounts, s'.tokens, s'.requests[0], newId, n - 1)
  }

  /** A request that runs alone up to its rotation, and on alone after others have made `met` of the tokens. */
  function Interrupted(now: Time, accounts: Accounts, tokens: Tokens, q: Request, newId: TokenId, others: Tokens -> Tokens): (Tokens, Request) {
    var (tokens', q') := Alone(now, accounts, tokens, q, newId, 3);
    Alone(now, accounts, if q'.Rotating? then others(tokens') else tokens', q', newId, 4)
  }

  class RefreshTokenHandler {
    const db: Database

    constructor (db: Database)
      ensures this.db == db
    {
      this.db := db;
    }

    /**
     `newId` is the fresh identifier of the token that a rotation inserts, and `others` what other requests
     make of the tokens between the handler's reads and its rotation.
     */
    method Handle(id: TokenId, newId: TokenId, others: Tokens -> Tokens) returns (outcome: Outcome)
      requires Grows(db.tokens, others(db.tokens)) && newId !in others(db.tokens)
      modifies db`tokens
      ensures (db.tokens, Done(outcome)) == Interrupted(db.now, db.accounts, old(db.tokens), Presented(id), newId, others)
      ensures RefreshAnswered(db.now, db.accounts, old(db.tokens), id, newId, others, db.tokens, outcome)
    {
      RefreshAnsweredAsRead(db.now, db.accounts, db.tokens, id, newId, others);
      var stored := db.GetRefreshTokenByHash(id);
      if stored.None? {
        UnknownRun(db.now, db.accounts, db.tokens, id, newId, others);
        return InvalidToken;
      }
      var row := stored.value;
      if row.expiresAt < db.now {
        ExpiredRun(db.now, db.accounts, db.tokens, id, newId, others);
        db.RevokeRefreshToken(id, None);
        return TokenExpired;
      }
      if row.usedAt.Some? || row.revocation.Some? {
        ReuseRun(db.now, db.accounts, db.tokens, id, newId, others);
        db.RevokeRefreshTokenFamily(row.family, ReuseDetected);
        return SessionRevoked(ReuseDetected);
      }
      var account := db.GetUser(row.user);
      if account.None? {
        DeletedRun(db.now, db.accounts, db.tokens, id, newId, others);
        db.RevokeRefreshToken(id, Some(AccountDeleted));
        return SessionRevoked(AccountDeleted);
      }
      if account.value.status == Disabled {
        DisabledRun(db.now, db.accounts, db.tokens, id, newId, others);
        db.RevokeRefreshToken(id, Some(Reason.AccountDisabled));
        return SessionRevoked(Reason.AccountDisabled);
      }
      ReadyRun(db.now, db.accounts, db.tokens, id, newId, others);
      db.tokens := others(db.tokens);
      outcome := Rotate(id, row, newId);
    }

    /** Rotates a token that was read live; a lost race is taken for reuse. */
    method Rotate(id: TokenId, row: Token, newId: TokenId) returns (outcome: Outcome)
      requires id in db.tokens && newId !in db.tokens
      modifies db`tokens
      ensures (db.tokens, outcome) == Rotation(db.now, old(db.tokens), id, row, newId)
    {
      var child := Token(row.user, row.family, Some(id), db.now + REFRESH_TOKEN_TTL, None, None);
      var result := db.RotateRefreshToken(id, newId, child);
      if result.AlreadyUsed? {
        db.RevokeRefreshTokenFamily(row.family, ReuseDetected);
        return SessionRevoked(ReuseDetected);
      }
      return NewPair(id, newId);
    }
  }

  /**
   The end of a rotation of a token that was read as `row`: if another request has used it since, the family
   is revoked; otherwise the token gets one child, even if it was revoked since.
   */
  function Rotation(now: Time, tokens: Tokens, id: TokenId, row: Token, newId: TokenId): (Tokens, Outcome)
    requires id in tokens
  {
    if tokens[id].usedAt.Some?
    then (RevokeIn(tokens, FamilyIds(tokens, row.family), now, Some(ReuseDetected)), SessionRevoked(ReuseDetected))
    else (tokens[id := Used(tokens[id], now)][newId := Token(row.user, row.family, Some(id), now + REFRESH_TOKEN_TTL, None, None)],
          NewPair(id, newId))
  }

  /** An expired token is revoked by itself. */
  lemma ExpiredRun(now: Time, accounts: Accounts, tokens: Tokens, id: TokenId, newId: TokenId, others: Tokens -> Tokens)
    requires id in tokens && tokens[id].expiresAt < now
    ensures Interrupted(now, accounts, tokens, Presented(id), newId, others) == (RevokeIn(tokens, {id}, now, None), Done(TokenExpired))
  {
    assert Alone(now, accounts, tokens, Presented(id), newId, 3) == Alone(now, accounts, tokens, Checking(id, tokens[id]), newId, 2);
    assert Alone(now, accounts, tokens, Checking(id, tokens[id]), newId, 2)
        == Alone(now, accounts, tokens, RevokingOne(id, None, TokenExpired), newId, 1);
  }

  /** A token that was used or revoked when it was read makes its whole family be revoked. */
  lemma ReuseRun(now: Time, accounts: Accounts, tokens: Tokens, id: TokenId, newId: TokenId, others: Tokens -> Tokens)
    requires id in tokens && now <= tokens[id].expiresAt && !Live(tokens[id])
    ensures Interrupted(now, accounts, tokens, Presented(id), newId, others)
         == (RevokeIn(tokens, FamilyIds(tokens, tokens[id].family), now, Some(ReuseDetected)), Done(SessionRevoked(ReuseDetected)))
  {
    var family := tokens[id].family;
    assert Alone(now, accounts, tokens, Presented(id), newId, 3) == Alone(now, accounts, tokens, Checking(id, tokens[id]), newId, 2);
    assert Alone(now, accounts, tokens, Checking(id, tokens[id]), newId, 2)
        == Alone(now, accounts, tokens, RevokingFamily(family), newId, 1)
        == (tokens, FamilyStatement(family, FamilyIds(tokens, family)));
    FamilyRevokedAlone(now, accounts, tokens, family, newId, 4);
  }

  predicate Absent(accounts: Accounts, user: UserId) { user !in accounts || accounts[user].deleted }

  /** A token that is not in the table is invalid. */
  lemma UnknownRun(now: Time, accounts: Accounts, tokens: Tokens, id: TokenId, newId: TokenId, others: Tokens -> Tokens)
    requires id !in tokens
    ensures Interrupted(now, accounts, tokens, Presented(id), newId, others) == (tokens, Done(InvalidToken))
  {
    assert Alone(now, accounts, tokens, Presented(id), newId, 3) == Alone(now, accounts, tokens, Done(InvalidToken), newId, 2);
  }

  /** A live token of an absent or deleted account is revoked by itself. */
  lemma DeletedRun(now: Time, accounts: Accounts, tokens: Tokens, id: TokenId, newId: TokenId, others: Tokens -> Tokens)
    requires id in tokens && now <= tokens[id].expiresAt && Live(tokens[id]) && Absent(accounts, tokens[id].user)
    ensures Interrupted(now, accounts, tokens, Presented(id), newId, others)
         == (RevokeIn(tokens, {id}, now, Some(AccountDeleted)), Done(SessionRevoked(AccountDeleted)))
  {
    ReadAlone(now, accounts, tokens, id, newId);
    RevokedAlone(now, accounts, tokens, id, Some(AccountDeleted), SessionRevoked(AccountDeleted), newId);
  }

  /** A live token of a disabled account is revoked by itself, and not rotated. */
  lemma DisabledRun(now: Time, accounts: Accounts, tokens: Tokens, id: TokenId, newId: TokenId, others: Tokens -> Tokens)
    requires id in tokens && now <= tokens[id].expiresAt && Live(tokens[id])
    requires !Absent(accounts, tokens[id].user) && accounts[tokens[id].user].status == Disabled
    ensures Interrupted(now, accounts, tokens, Presented(id), newId, others)
         == (RevokeIn(tokens, {id}, now, Some(Reason.AccountDisabled)), Done(SessionRevoked(Reason.AccountDisabled)))
  {
    ReadAlone(now, accounts, tokens, id, newId);
    RevokedAlone(now, accounts, tokens, id, Some(Reason.AccountDisabled), SessionRevoked(Reason.AccountDisabled), newId);
  }

  lemma ReadAlone(now: Time, accounts: Accounts, tokens: Tokens, id: TokenId, newId: TokenId)
    requires id in tokens && now <= tokens[id].expiresAt && Live(tokens[id])
    ensures Alone(now, accounts, tokens, Presented(id), newId, 3)
         == Alone(now, accounts, tokens, FindingUser(id, tokens[id]), newId, 1)
  {
    assert Alone(now, accounts, tokens, Presented(id), newId, 3) == Alone(now, accounts, tokens, Checking(id, tokens[id]), newId, 2);
  }

  lemma RevokedAlone(now: Time, accounts: Accounts, tokens: Tokens, id: TokenId, reason: Option<Reason>, outcome: Outcome, newId: TokenId)
    ensures Alone(now, accounts, tokens, RevokingOne(id, reason, outcome), newId, 4) == (RevokeIn(tokens, {id}, now, reason), Done(outcome))
  {
  }

  /** A live token of a usable account brings its request to the rotation of whatever others have made of it by then. */
  lemma ReadyRun(now: Time, accounts: Accounts, tokens: Tokens, id: TokenId, newId: TokenId, others: Tokens -> Tokens)
    requires id in tokens && now <= tokens[id].expiresAt && Live(tokens[id])
    requires Grows(tokens, others(tokens)) && newId !in others(tokens)
    requires tokens[id].user in accounts && !accounts[tokens[id].user].deleted && accounts[tokens[id].user].status != Disabled
    ensures var (end, outcome) := Rotation(now, others(tokens), id, tokens[id], newId);
            Interrupted(now, accounts, tokens, Presented(id), newId, others) == (end, Done(outcome))
  {
    var row, met := tokens[id], others(tokens);
    ReadAlone(now, accounts, tokens, id, newId);
    assert Alone(now, accounts, tokens, FindingUser(id, row), newId, 1) == (tokens, Rotating(id, row, now + REFRESH_TOKEN_TTL));
    if met[id].usedAt.Some? {
      LostAlone(now, accounts, met, id, row, newId);
    } else {
      RotationAlone(now, accounts, met, id, row, newId);
    }
  }

  /** What was read decides the answer, and with what others have made of the token since, what is left. */
  predicate RefreshAnswered(now: Time, accounts: Accounts, tokens: Tokens, id: TokenId, newId: TokenId, others: Tokens -> Tokens,
                            after: Tokens, outcome: Outcome)
    requires Grows(tokens, others(tokens))
  {
    var valid := id in tokens && now <= tokens[id].expiresAt && tokens[id].usedAt.None? && tokens[id].revocation.None?;
    var usable := valid && !Absent(accounts, tokens[id].user) && accounts[tokens[id].user].status != Disabled;
    && (outcome == InvalidToken <==> id !in tokens)
    && (outcome == TokenExpired <==> id in tokens && tokens[id].expiresAt < now)
    && (outcome == SessionRevoked(AccountDeleted) <==> valid && Absent(accounts, tokens[id].user))
    && (outcome == SessionRevoked(Reason.AccountDisabled) <==>
          valid && !Absent(accounts, tokens[id].user) && accounts[tokens[id].user].status == Disabled)
    && (outcome == NewPair(id, newId) <==> usable && others(tokens)[id].usedAt.None?)
    && (outcome == SessionRevoked(ReuseDetected) <==>
          || (id in tokens && now <= tokens[id].expiresAt && (tokens[id].usedAt.Some? || tokens[id].revocation.Some?))
          || (usable && others(tokens)[id].usedAt.Some?))
    && (newId in after <==> outcome == NewPair(id, newId))
    && (outcome == NewPair(id, newId) ==>
          && newId in after
          && after[newId] == Token(tokens[id].user, tokens[id].family, Some(id), now + 30 * 24 * 60 * 60 * 1000, None, None)
          && id in after && after[id].usedAt == Some(now))
    && (outcome == SessionRevoked(ReuseDetected) ==>
          forall t :: t in after && after[t].family == tokens[id].family ==> after[t].revocation.Some?)
    && (outcome == TokenExpired || outcome == SessionRevoked(AccountDeleted) || outcome == SessionRevoked(Reason.AccountDisabled) ==>
          id in after && after[id].revocation.Some? && forall t :: t in tokens && t != id ==> t in after && after[t] == tokens[t])
  }

  lemma RefreshAnsweredAsRead(now: Time, accounts: Accounts, tokens: Tokens, id: TokenId, newId: TokenId, others: Tokens -> Tokens)
    requires Grows(tokens, others(tokens)) && newId !in others(tokens)
    ensures var (after, q) := Interrupted(now, accounts, tokens, Presented(id), newId, others);
            q.Done? && RefreshAnswered(now, accounts, tokens, id, newId, others, after, q.outcome)
  {
    if id !in tokens {
      UnknownRun(now, accounts, tokens, id, newId, others);
    } else if tokens[id].expiresAt < now {
      ExpiredRun(now, accounts, tokens, id, newId, others);
    } else if !Live(tokens[id]) {
      ReuseRun(now, accounts, tokens, id, newId, others);
    } else if Absent(accounts, tokens[id].user) {
      DeletedRun(now, accounts, tokens, id, newId, others);
    } else if accounts[tokens[id].user].status == Disabled {
      DisabledRun(now, accounts, tokens, id, newId, others);
    } else {
      ReadyRun(now, accounts, tokens, id, newId, others);
    }
  }

  lemma FamilyRevokedAlone(now: Time, accounts: Accounts, tokens: Tokens, family: FamilyId, newId: TokenId, n: nat)
    requires n >= 1
    ensures Alone(now, accounts, tokens, FamilyStatement(family, FamilyIds(tokens, family)), newId, n)
         == (RevokeIn(tokens, FamilyIds(tokens, family), now, Some(ReuseDetected)), Done(SessionRevoked(ReuseDetected)))
  {
  }

  /** The rotation of a token that is still unused, whether or not it was revoked since it was read, gives it one child. */
  lemma RotationAlone(now: Time, accounts: Accounts, tokens: Tokens, id: TokenId, row: Token, newId: TokenId)
    requires id in tokens && tokens[id].usedAt.None? && newId !in tokens
    ensures Alone(now, accounts, tokens, Rotating(id, row, now + REFRESH_TOKEN_TTL), newId, 4)
         == (tokens[id := Used(tokens[id], now)][newId := Token(row.user, row.family, Some(id), now + REFRESH_TOKEN_TTL, None, None)],
             Done(NewPair(id, newId)))
  {
    var expiresAt := now + REFRESH_TOKEN_TTL;
    assert Alone(now, accounts, tokens, Rotating(id, row, expiresAt), newId, 4)
        == Alone(now, accounts, tokens, InRotation(id, row, expiresAt, tokens[id], 1), newId, 3);
    var tokens' := tokens[id := Used(tokens[id], now)][newId := Token(row.user, row.family, Some(id), expiresAt, None, None)];
    assert Alone(now, accounts, tokens, InRotation(id, row, expiresAt, tokens[id], 1), newId, 3)
        == Alone(now, accounts, tokens', Signing(id, newId), newId, 2);
  }

  /** The rotation of a token that another request has used since it was read is taken for reuse: the family is revoked. */
  lemma LostAlone(now: Time, accounts: Accounts, tokens: Tokens, id: TokenId, row: Token, newId: TokenId)
    requires id in tokens && tokens[id].usedAt.Some? && newId !in tokens
    ensures Alone(now, accounts, tokens, Rotating(id, row, now + REFRESH_TOKEN_TTL), newId, 4)
         == (RevokeIn(tokens, FamilyIds(tokens, row.family), now, Some(ReuseDetected)), Done(SessionRevoked(ReuseDetected)))
  {
    var expiresAt := now + REFRESH_TOKEN_TTL;
    assert Alone(now, accounts, tokens, Rotating(id, row, expiresAt), newId, 4)
        == Alone(now, accounts, tokens, InRotation(id, row, expiresAt, tokens[id], 1), newId, 3);
    assert Alone(now, accounts, tokens, InRotation(id, row, expiresAt, tokens[id], 1), newId, 3)
        == Alone(now, accounts, tokens, RevokingFamily(row.family), newId, 2)
        == Alone(now, accounts, tokens, FamilyStatement(row.family, FamilyIds(tokens, row.family)), newId, 1);
    FamilyRevokedAlone(now, accounts, tokens, row.family, newId, 1);
  }

  class LogoutHandler {
    const db: Database

    constructor (db: Database)
      ensures this.db == db
    {
      this.db := db;
    }

    method Handle(id: TokenId, caller: UserId) returns (outcome: Outcome)
      modifies db`tokens
      ensures (db.tokens, Done(outcome)) == Alone(db.now, db.accounts, old(db.tokens), LogoutPresented(id, caller), 0, 2)
      ensures outcome == LoggedOut
      ensures id in old(db.tokens) && old(db.tokens)[id].user == caller ==>
                id in db.tokens && db.tokens[id].revocation
                  == if old(db.tokens)[id].revocation.Some? then old(db.tokens)[id].revocation else Some(Revocation(db.now, None))
      ensures id in old(db.tokens) && old(db.tokens)[id].user == caller ==>
                db.tokens[id].(revocation := None) == old(db.tokens)[id].(revocation := None)
      ensures !(id in old(db.tokens) && old(db.tokens)[id].user == caller) ==> db.tokens == old(db.tokens)
      ensures forall other :: other in old(db.tokens) && other != id ==> other in db.tokens && db.tokens[other] == old(db.tokens)[other]
    {
      var stored := db.GetRefreshTokenByHash(id);
      if stored.None? || stored.value.user != caller {
        return LoggedOut;
      }
      assert Alone(db.now, db.accounts, db.tokens, LogoutPresented(id, caller), 0, 2)
          == Alone(db.now, db.accounts, db.tokens, RevokingOne(id, None, LoggedOut), 0, 1);
      db.RevokeRefreshToken(id, None);
      return LoggedOut;
    }
  }
}
