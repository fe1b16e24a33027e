/** Login: lockout check, password verification, status check, count reset and the first token of a family. */
module Login {
  import opened Basics
  import opened Domain
  import opened Redis
  import opened RateLimit
  import opened Lockout
  import opened RefreshTokens
  import Protocol = RefreshProtocol
  import RefreshStore

  type Password = string
  type PasswordHash = string

  /** What a login reads of an account that is not deleted. */
  datatype Credentials = Credentials(user: UserId, hash: PasswordHash, status: Domain.Status)

  datatype Answer =
    | Locked(retryAfter: Time)
    | AuthenticationFailed
    | Refused(reason: LoginRefusal)
    | LoggedIn(user: UserId)

  /** Fifteen minutes each, and ten failures. */
  const LOGIN_LOCKOUT := Config(15 * 60 * 1000, 15 * 60 * 1000, 10)

  predicate Correct(account: Option<Credentials>, password: Password, verify: (PasswordHash, Password) -> bool) {
    account.Some? && verify(account.value.hash, password)
  }

  /** One login attempt: what it leaves of the two lockout keys, and the answer. */
  function LoginStep(k: Keys, now: Time, account: Option<Credentials>, password: Password,
                     verify: (PasswordHash, Password) -> bool, f: Config): (Keys, Answer)
  {
    var (checked, status) := CheckStep(k, now, f);
    if status.locked then (checked, Locked(status.retryAfter))
    else if !Correct(account, password, verify) then (RecordStep(checked, now, f).0, AuthenticationFailed)
    else match CheckLoginableStatus(account.value.status)
         case Some(reason) => (checked, Refused(reason))
         case None => (ResetStep(checked), LoggedIn(account.value.user))
  }

  class LoginHandler {
    const lockout: LockoutLimiter
    const db: RefreshStore.Database
    const verify: (PasswordHash, Password) -> bool

    constructor (lockout: LockoutLimiter, db: RefreshStore.Database, verify: (PasswordHash, Password) -> bool)
      ensures this.lockout == lockout && this.db == db && this.verify == verify
    {
      this.lockout := lockout;
      this.db := db;
      this.verify := verify;
    }

    /**
     `account` is what the account lookup by email finds; `newId` and `newFamily` are the fresh identifiers
     of the token. A successful login, and nothing else, starts a new family for the account's user.
     */
    method Handle(email: Email, password: Password, account: Option<Credentials>, newId: TokenId, newFamily: FamilyId)
        returns (answer: Answer)
      requires ValidConfig(lockout.config) && newId !in db.tokens
      modifies lockout.client`cells, db`tokens
      ensures (lockout.KeysOf(lockout.client.cells, email), answer)
           == LoginStep(lockout.KeysOf(old(lockout.client.cells), email), lockout.client.now, account, password, verify, lockout.config)
      ensures answer.LoggedIn? ==>
        db.tokens == old(db.tokens)[newId := Token(answer.user, newFamily, None, db.now + 30 * 24 * 60 * 60 * 1000, None, None)]
      ensures !answer.LoggedIn? ==> db.tokens == old(db.tokens)
    {
      lockout.KeysDistinct(email, email);
      var status := lockout.Check(email);
      if status.locked {
        return Locked(status.retryAfter);
      }
      if account.None? {
        var _ := lockout.RecordFailure(email);
        return AuthenticationFailed;
      }
      if !verify(account.value.hash, password) {
        var _ := lockout.RecordFailure(email);
        return AuthenticationFailed;
      }
      var refusal := CheckLoginableStatus(account.value.status);
      if refusal.Some? {
        return Refused(refusal.value);
      }
      lockout.Reset(email);
      var row := Token(account.value.user, newFamily, None, db.now + Protocol.REFRESH_TOKEN_TTL, None, None);
      var _ := db.InsertRefreshToken(newId, row);
      return LoggedIn(account.value.user);
    }
  }

  // ---- Answers ----

  /**
   The lockout comes first, then the password, and only then the status: every status but that of a confirmed
   and enabled account is refused, a disabled one as such and any other as unverified. Only a wrong password is
   counted, only a login forgets the count, and it is for the account that was found.
   */
  lemma AnsweredByAccount(k: Keys, now: Time, account: Option<Credentials>, password: Password,
                          verify: (PasswordHash, Password) -> bool, f: Config)
    requires ValidConfig(f)
    ensures var (next, answer) := LoginStep(k, now, account, password, verify, f);
            var locked := IsLive(k.lock, now);
            var right := account.Some? && verify(account.value.hash, password);
            && (answer.Locked? <==> locked)
            && (answer.AuthenticationFailed? <==> !locked && !right)
            && (answer == Refused(Domain.AccountDisabled) <==> !locked && right && account.value.status == Disabled)
            && (answer == Refused(EmailNotVerified) <==> !locked && right && account.value.status !in {Inactive, Disabled})
            && (answer.LoggedIn? <==> !locked && right && account.value.status == Inactive)
            && (answer.LoggedIn? ==> answer.user == account.value.user && next == k.(count := Absent))
            && (answer.AuthenticationFailed? ==> next == RecordStep(k, now, f).0)
            && (answer.Refused? ==> next == k)
            && (answer.Locked? ==> next.count == k.count)
  {
  }

  /** Ten wrong passwords within fifteen minutes of the first lock an account for fifteen minutes after the last; nine do not. */
  lemma LockedForFifteenMinutes(times: seq<Time>, last: Time, later: Time)
    requires |times| <= 9 && later >= last && forall i :: 0 <= i < |times| ==> times[0] <= times[i] <= last < times[0] + 900_000
    ensures CheckStep(AfterAttempts(Keys(Absent, Absent), times + [last], LOGIN_LOCKOUT), later, LOGIN_LOCKOUT).1
         == if |times| == 9 && later < last + 900_000 then Status(true, last + 900_000 - later) else UNLOCKED
  {
    LockedByThreshold(times, last, later, LOGIN_LOCKOUT);
  }

  // ---- Sequences of attempts on one email ----

  /** An attempt, with the account as it is at that time. */
  datatype Attempt = Attempt(at: Time, password: Password, account: Option<Credentials>)

  function KeysAfter(k: Keys, attempts: seq<Attempt>, verify: (PasswordHash, Password) -> bool, f: Config): Keys
    decreases |attempts|
  {
    if attempts == [] then k
    else
      var a := attempts[0];
      KeysAfter(LoginStep(k, a.at, a.account, a.password, verify, f).0, attempts[1..], verify, f)
  }

  function Answers(k: Keys, attempts: seq<Attempt>, verify: (PasswordHash, Password) -> bool, f: Config): (answers: seq<Answer>)
    ensures |answers| == |attempts|
    decreases |attempts|
  {
    if attempts == [] then []
    else
      var a := attempts[0];
      var (next, answer) := LoginStep(k, a.at, a.account, a.password, verify, f);
      [answer] + Answers(next, attempts[1..], verify, f)
  }

  predicate NeverCorrect(attempts: seq<Attempt>, verify: (PasswordHash, Password) -> bool) {
    forall i :: 0 <= i < |attempts| ==> !Correct(attempts[i].account, attempts[i].password, verify)
  }

  /**
   Attempts that never carry the correct password get the same answers, retry times included, and leave the
   same lockout state whatever the account is: absent, unverified, disabled or active, and however it
   changes in between.
   */
  lemma {:induction false} WrongPasswordsRevealNothing(k: Keys, attempts: seq<Attempt>, others: seq<Attempt>,
                                                     verify: (PasswordHash, Password) -> bool, f: Config)
    requires |attempts| == |others|
    requires forall i :: 0 <= i < |attempts| ==> attempts[i].at == others[i].at
    requires NeverCorrect(attempts, verify) && NeverCorrect(others, verify)
    ensures Answers(k, attempts, verify, f) == Answers(k, others, verify, f)
    ensures KeysAfter(k, attempts, verify, f) == KeysAfter(k, others, verify, f)
    decreases |attempts|
  {
    if attempts != [] {
      var a, b := attempts[0], others[0];
      var (next, answer) := LoginStep(k, a.at, a.account, a.password, verify, f);
      assert (next, answer) == LoginStep(k, b.at, b.account, b.password, verify, f);
      WrongPasswordsRevealNothing(next, attempts[1..], others[1..], verify, f);
    }
  }

  /** How many attempts in the interval of one window from `start` had their password compared and rejected. */
  function Guesses(k: Keys, attempts: seq<Attempt>, verify: (PasswordHash, Password) -> bool, f: Config, start: Time): nat
    decreases |attempts|
  {
    if attempts == [] then 0
    else
      var a := attempts[0];
      var (next, answer) := LoginStep(k, a.at, a.account, a.password, verify, f);
      (if answer.AuthenticationFailed? && Within(a.at, start, f.window) then 1 else 0)
      + Guesses(next, attempts[1..], verify, f, start)
  }

  function TimesOf(attempts: seq<Attempt>): (times: seq<Time>)
    ensures |times| == |attempts|
    ensures forall i :: 0 <= i < |attempts| ==> times[i] == attempts[i].at
  {
    seq(|attempts|, i requires 0 <= i < |attempts| => attempts[i].at)
  }

  lemma {:induction false} GuessesAreRecorded(k: Keys, attempts: seq<Attempt>, verify: (PasswordHash, Password) -> bool,
                                              f: Config, start: Time)
    requires NeverCorrect(attempts, verify)
    ensures Guesses(k, attempts, verify, f, start) == Recorded(k, TimesOf(attempts), f, start)
    decreases |attempts|
  {
    if attempts != [] {
      var a := attempts[0];
      var next := LoginStep(k, a.at, a.account, a.password, verify, f).0;
      assert TimesOf(attempts)[1..] == TimesOf(attempts[1..]);
      assert NeverCorrect(attempts[1..], verify);
      GuessesAreRecorded(next, attempts[1..], verify, f, start);
    }
  }

  /**
   Guesses on one account that come one at a time: at most 18 are compared in any fifteen minutes. LoginRace
   has the bound for guesses that overlap.
   */
  lemma AtMost18GuessesPerWindow(attempts: seq<Attempt>, verify: (PasswordHash, Password) -> bool, start: Time)
    requires NeverCorrect(attempts, verify) && Sorted(TimesOf(attempts))
    ensures Guesses(Keys(Absent, Absent), attempts, verify, LOGIN_LOCKOUT, start) <= 18
  {
    GuessesAreRecorded(Keys(Absent, Absent), attempts, verify, LOGIN_LOCKOUT, start);
    AtMostNearlyTwiceTheThreshold(Keys(Absent, Absent), TimesOf(attempts), LOGIN_LOCKOUT, start);
  }
}
