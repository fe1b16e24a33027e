/**
 Mails and commits. The callback that sends a mail runs inside the transaction, before the commit: a rollback
 does not take the mail back, and a retry sends it again.
 */
module AccountMail {
  import opened Basics
  import opened Domain
  import opened OneTimeTokens
  import opened AccountStore
  import opened AccountStatements
  import opened AccountRepository
  import T = Transactions

  /** Attempt `i` sends its mail, and then its commit fails. */
  predicate LosesMail(statements: seq<Statement>, now: Time, c: Conditions, s: Store, i: nat) {
    Completes(statements, now, c, s, i) && c.weather(i).commit.Some?
  }

  function MailsLost(statements: seq<Statement>, now: Time, c: Conditions, s: Store, n: nat): set<nat> {
    set i: nat | i < n && LosesMail(statements, now, c, s, i)
  }

  lemma CommitsIff(statements: seq<Statement>, now: Time, c: Conditions, s: Store, i: nat)
    ensures T.AttemptError(BodyOf(statements, now, c), c.weather, s, i).None?
        <==> Completes(statements, now, c, s, i) && !LosesMail(statements, now, c, s, i)
  {
  }

  /** A call sends one mail for each attempt that loses it to its commit, and one more exactly if it returns no error. */
  lemma MailsSent(statements: seq<Statement>, now: Time, c: Conditions, s: Store, tries: nat, error: Option<Failure>, mails: int)
    requires Mailed(statements, now, c, s, tries, error, mails)
    ensures mails == (if error.None? then 1 else 0) + |MailsLost(statements, now, c, s, tries)|
    ensures 0 <= mails <= tries <= 10
  {
    CompletingSplits(statements, now, c, s, tries);
    T.CommitsAtMostOnce(BodyOf(statements, now, c), c.weather, s, tries, error);
    UpToSize(Completing(statements, now, c, s, tries), tries);
  }

  lemma CompletingSplits(statements: seq<Statement>, now: Time, c: Conditions, s: Store, n: nat)
    ensures |Completing(statements, now, c, s, n)|
         == |T.Commits(BodyOf(statements, now, c), c.weather, s, n)| + |MailsLost(statements, now, c, s, n)|
  {
    var completing, lost := Completing(statements, now, c, s, n), MailsLost(statements, now, c, s, n);
    var commits := T.Commits(BodyOf(statements, now, c), c.weather, s, n);
    forall i: nat | i < n ensures (i in completing <==> i in commits || i in lost) && !(i in commits && i in lost) {
      CommitsIff(statements, now, c, s, i);
    }
    Partition(completing, commits, lost);
  }

  lemma Partition(whole: set<nat>, left: set<nat>, right: set<nat>)
    requires forall i :: i in whole <==> i in left || i in right
    requires forall i :: i in left ==> i !in right
    ensures |whole| == |left| + |right|
  {
    assert whole == left + right;
  }

  lemma {:induction false} UpToSize(numbers: set<nat>, n: nat)
    requires forall i :: i in numbers ==> i < n
    ensures |numbers| <= n
    decreases n
  {
    if n == 0 {
      SubsetSize(numbers, {});
    } else {
      UpToSize(numbers - {n - 1}, n - 1);
    }
  }

  /** There are as many mails as committed tokens exactly when no attempt lost its mail. */
  lemma OneMailPerTokenIff(statements: seq<Statement>, now: Time, c: Conditions, s: Store, tries: nat, error: Option<Failure>, mails: int)
    requires Mailed(statements, now, c, s, tries, error, mails)
    ensures mails == |T.Commits(BodyOf(statements, now, c), c.weather, s, tries)|
        <==> forall i: nat :: i < tries && Completes(statements, now, c, s, i) ==> c.weather(i).commit.None?
  {
    MailsSent(statements, now, c, s, tries, error, mails);
    T.CommitsAtMostOnce(BodyOf(statements, now, c), c.weather, s, tries, error);
    var lost := MailsLost(statements, now, c, s, tries);
    if lost == {} {
      forall i: nat | i < tries && Completes(statements, now, c, s, i) ensures c.weather(i).commit.None? {
        assert i !in lost;
      }
    } else {
      var i :| i in lost;
      assert Completes(statements, now, c, s, i) && c.weather(i).commit.Some?;
    }
  }

  /** Some attempt got through its mail and then failed. */
  predicate LostSome(statements: seq<Statement>, now: Time, c: Conditions, s: Store, tries: nat) {
    exists i: nat :: i < tries && LosesMail(statements, now, c, s, i)
  }

  lemma LostSomeIff(statements: seq<Statement>, now: Time, c: Conditions, s: Store, tries: nat)
    ensures LostSome(statements, now, c, s, tries) <==> |MailsLost(statements, now, c, s, tries)| > 0
  {
    var lost := MailsLost(statements, now, c, s, tries);
    if i: nat :| i < tries && LosesMail(statements, now, c, s, i) {
      SubsetSize({i}, lost);
    }
    if lost != {} {
      var i :| i in lost;
    }
  }

  /**
   A registration leaves a mail under way whose token is not in the store, exactly when it ends in an error
   although some attempt got through its mail; `id` is new to the store that its last attempt found.
   */
  lemma RegistrationMailStrandedIff(user: UserId, email: Email, password: Hash, id: TokenId, expiresAt: Time, now: Time, c: Conditions,
                                    s: Store, found: Store, after: Store, tries: nat, error: Option<Failure>, mails: int)
    requires Mailed(CreateUserStatements(user, email, password, id, expiresAt), now, c, s, tries, error, mails)
    requires Ran(c, s, found, after, error, CreateUserResult(found, user, email, password, id, expiresAt, !MailFailed(error)))
    requires id !in found.confirmations
    ensures mails > 0 && id !in after.confirmations
        <==> error.Some? && LostSome(CreateUserStatements(user, email, password, id, expiresAt), now, c, s, tries)
    ensures error.None? ==> mails > 0 && id in after.confirmations && after.HasActive(Confirmation, id)
  {
    MailsSent(CreateUserStatements(user, email, password, id, expiresAt), now, c, s, tries, error, mails);
    LostSomeIff(CreateUserStatements(user, email, password, id, expiresAt), now, c, s, tries);
  }

  /** The same for an issue. */
  lemma IssueMailStrandedIff(kind: Kind, owner: Owner, role: Option<Role>, id: TokenId, expiresAt: Time, now: Time, c: Conditions,
                             s: Store, found: Store, after: Store, tries: nat, error: Option<Failure>, mails: int)
    requires Mailed(IssueStatements(kind, owner, role, id, expiresAt), now, c, s, tries, error, mails)
    requires Ran(c, s, found, after, error, 
                 IssueResult(found, kind, owner, role, id, expiresAt, ActiveIds(found.TableOf(kind), owner), now, !MailFailed(error)))
    requires id !in found.TableOf(kind)
    ensures mails > 0 && id !in after.TableOf(kind)
        <==> error.Some? && LostSome(IssueStatements(kind, owner, role, id, expiresAt), now, c, s, tries)
    ensures error.None? ==> mails > 0 && after.HasActive(kind, id)
  {
    MailsSent(IssueStatements(kind, owner, role, id, expiresAt), now, c, s, tries, error, mails);
    LostSomeIff(IssueStatements(kind, owner, role, id, expiresAt), now, c, s, tries);
  }

  // ---- Mails that are sent again ----

  const COMMIT_CONFLICT: T.Message := "ERROR: could not serialize access" + " due to concurrent update (SQLSTATE 40001)"

  /** The first `k` commits fail to serialize; nothing else fails, and nobody else commits. */
  function CommitsFail(k: nat): Conditions {
    Conditions((i: nat) => T.Weather((s: Store) => s, None, None, if i < k then Some(COMMIT_CONFLICT) else None),
               (i: nat) => (j: nat) => None)
  }

  lemma ConflictIsRetried()
    ensures T.Retryable<Result>(T.Database(COMMIT_CONFLICT))
  {
    T.ConcurrentUpdateIsRetried<Result>();
  }

  lemma {:induction false} NobodyElse(k: nat, s: Store, i: nat)
    ensures T.Found(CommitsFail(k).weather, s, i) == s
    decreases i
  {
    if i > 0 {
      NobodyElse(k, s, i - 1);
    }
  }

  lemma EachAttempt(statements: seq<Statement>, now: Time, k: nat, s: Store, i: nat)
    requires MailLast(statements) && Plan(statements, s, now).1 == Ok
    ensures Completes(statements, now, CommitsFail(k), s, i)
    ensures T.AttemptError(BodyOf(statements, now, CommitsFail(k)), CommitsFail(k).weather, s, i)
         == if i < k then Some(T.Database(COMMIT_CONFLICT)) else None
  {
    NobodyElse(k, s, i);
    ExecutedAsPlanned(statements, CommitsFail(k).faults(i), 0, s, now);
  }

  /**
   Every number of mails up to ten is sent: with k failing commits one mail for each, and one for the attempt
   that commits, unless all ten attempts fail; then ten mails are out, an error is returned, and nothing is
   committed.
   */
  lemma MailsRepeat(statements: seq<Statement>, now: Time, k: nat, s: Store)
    requires MailLast(statements) && Plan(statements, s, now).1 == Ok && k <= 10
    ensures if k < 10 then Mailed(statements, now, CommitsFail(k), s, k + 1, None, k + 1)
            else Mailed(statements, now, CommitsFail(k), s, 10, Some(T.Database(COMMIT_CONFLICT)), 10)
    ensures T.Found(CommitsFail(k).weather, s, 9) == s
  {
    var tries, c := if k < T.MAX_TRIES then k + 1 else T.MAX_TRIES, CommitsFail(k);
    ConflictIsRetried();
    forall i: nat ensures T.FailsToSerialize(BodyOf(statements, now, c), c.weather, s, i) <==> i < k {
      EachAttempt(statements, now, k, s, i);
    }
    EachAttempt(statements, now, k, s, tries - 1);
    forall i: nat ensures Completes(statements, now, c, s, i) {
      EachAttempt(statements, now, k, s, i);
    }
    AllUpTo(Completing(statements, now, c, s, tries), tries);
    NobodyElse(k, s, T.MAX_TRIES - 1);
  }

  lemma {:induction false} AllUpTo(numbers: set<nat>, n: nat)
    requires forall i: nat :: i in numbers <==> i < n
    ensures |numbers| == n
    decreases n
  {
    if n == 0 {
      SubsetSize(numbers, {});
    } else {
      AllUpTo(numbers - {n - 1}, n - 1);
    }
  }

  /** A registration of a new email can send ten mails and fail, so that no account has the token in them. */
  lemma TenMailsNoAccount(s: Store, user: UserId, email: Email, password: Hash, id: TokenId, expiresAt: Time, now: Time)
    requires user !in s.users && !s.EmailTaken(email) && id !in s.confirmations
    ensures Mailed(CreateUserStatements(user, email, password, id, expiresAt), now, CommitsFail(10), s, 10,
                   Some(T.Database(COMMIT_CONFLICT)), 10)
    ensures T.Found(CommitsFail(10).weather, s, 9) == s
  {
    CreateUserPlan(s, user, email, password, id, expiresAt, now);
    MailsRepeat(CreateUserStatements(user, email, password, id, expiresAt), now, 10, s);
  }

  // ---- Errors that end a call ----

  /** An error of the database in a statement is followed by another attempt exactly when its text, or the rollback's, has the phrase. */
  lemma DatabaseErrorRetriedIff(statements: seq<Statement>, now: Time, c: Conditions, s: Store, tries: nat, error: Option<Failure>,
                                i: nat, text: T.Message)
    requires T.RanTo(BodyOf(statements, now, c), c.weather, s, tries, error) && i < tries && c.weather(i).begin.None?
    requires Execute(statements, c.faults(i), 0, T.Found(c.weather, s, i), now).1 == Some(T.Database(text))
    ensures i + 1 < tries <==>
              && i + 1 < 10
              && (|| Contains(text, "could not serialize access")
                  || (c.weather(i).rollback.Some? && Contains(c.weather(i).rollback.value, "could not serialize access")))
  {
    T.RetriedIff(BodyOf(statements, now, c), c.weather, s, tries, error, i);
    if c.weather(i).rollback.Some? {
      T.JoinedContains(text, c.weather(i).rollback.value);
    }
  }

  /** A mail that fails is tried again exactly if the mailer's text has the phrase. */
  lemma MailErrorRetriedIff(text: T.Message)
    ensures T.Retryable(MailError(text)) <==> Contains(text, "could not serialize access")
  {
    var prefix := MessageOf(MailNotSent) + ": ";
    assert prefix == "could not send confirmation email: ";
    T.PrefixAddsNothing("could not send confirmation email: ", text);
  }

  /** So a transaction that the database picks to break a deadlock is not tried again. */
  lemma DeadlockIsFinal(statements: seq<Statement>, now: Time, c: Conditions, s: Store, tries: nat, error: Option<Failure>, i: nat)
    requires T.RanTo(BodyOf(statements, now, c), c.weather, s, tries, error) && i < tries
    requires c.weather(i).begin.None? && c.weather(i).rollback.None?
    requires Execute(statements, c.faults(i), 0, T.Found(c.weather, s, i), now).1
          == Some(T.Database("ERROR: deadlock detected (SQLSTATE 40P01)"))
    ensures tries == i + 1 && error == Some(T.Database("ERROR: deadlock detected (SQLSTATE 40P01)"))
  {
    var text := "ERROR: deadlock detected (SQLSTATE 40P01)";
    WithoutZ(text);
    DatabaseErrorRetriedIff(statements, now, c, s, tries, error, i, text);
  }
}
