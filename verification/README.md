# Verification of the authentication service's protocols

This project models the parts of the authentication service whose correctness depends on interleaving,
on a clock, or on several rows changing together, and proves what they keep. Run

    dafny verify dfyconfig.toml

## What is modelled

**Disabling accounts and the last super_admin** (`SuperAdminGuard`, `SuperAdminRace`, `SuperAdminSchedule`,
`RowLocks`, `LockOrder`, `LockKnots`, `LockShapes`, `LockPairs`). PostgreSQL is reduced to a snapshot per
attempt, row locks held to the end of the attempt, a serialization failure when a row changed after the
snapshot, and a retry with a new snapshot. Any number of disables, reactivations, confirmations, other updates and new accounts interleave. Once there is an active
super_admin there always is one; m simultaneous disables of all m of them end in m - 1 successes and one
refusal, and never run out of attempts exactly when m is at most ten. The row locks of disables on users do
not deadlock. With the locks of all transactions on accounts, sessions and one-time tokens a deadlock is
possible exactly when some of them can stand in a knot of one of two shapes, without any hypothesis; where the
transactions' lists of tokens are complete, exactly when one of two kinds of pairs meets.

**Transactions** (`Transactions`, `AccountStatements`, `AccountRepository`, `AccountMail`). The wrapper runs a
body that reads the store it finds, with others committing between attempts and any begin, rollback or commit
failing; at most one attempt commits, and no error is returned exactly when one did. The repository's bodies
are programs of statements, any of which can fail, and run in the wrapper all or nothing as far as the database
goes. Mails are effects outside the database that no rollback takes back: how many go out, and when one is left
without a token in the store, is stated exactly.

**Refresh-token rotation** (`RefreshTokens`, `RefreshProtocol`, `RefreshChain`, `RefreshContest`,
`RefreshBarrier`, `RefreshRuns`, `RefreshChecks`, `RefreshStore`). Every handler is a program counter with what it has read; a
step is one statement or the begin or commit of one attempt. The invariants are inductive over all runs:
columns are written once, each family is one chain with one owner, each token is rotated by at most one
request, and a rotation meets at most two conflicts. On top of them: n simultaneous presentations of one live
token yield exactly one new pair and a fully revoked family; a fully revoked family gains a token again, and a
password change, reset or disable fails to end the families it meets, under exactly stated conditions, each of
which a run from an empty table reaches. The imperative handlers are proved equal to the protocol's run of a
request that others interrupt.

**Rate limiters, the login lockout and guesses** (`Redis`, `RateLimit`, `CountingWindow`, `FixedWindow`,
`Lockout`, `Login`, `LoginRace`, `LockLength`). The Lua scripts run command by command on keys with expiry; a key is live
while now < expiry. Proved are sliding-interval bounds and that they are reached, exact retry times, the
relation of the two limiters, that an unlocked account always has fewer live failures than the threshold
(exactly when the count window is not longer than the lock), that answers to wrong passwords do not depend on
the account, exactly how many guesses get through, by the attempts in flight and the logins among them, and
exactly when a lock can be extended.

**One-time tokens and accounts** (`OneTimeTokens`, `OneTimeProtocol`, `OneTimeChecks`, `AccountStore`,
`AccountRequests`, `AccountProvenance`, `AccountHandlers`, `AccountAnswers`, `AccountDecisions`). Resets, invitations and confirmations are issued,
superseded and consumed under snapshot transactions. Over every run from the empty store: statuses move along
three edges only, emails are unique, sessions belong to accounts past their confirmation, and every admin role
is the role of a used invitation for that email. The handlers, with others in between and any failure, are
proved to be runs of that system; what their answers tell, and what an accepted answer is worth later, is
stated for requests that any run of the others interrupts, each answer by what the stores that a request read
and met say about it.

**Log bodies** (`LogBody`, `LogBodyInPlace`, `LogBodyRewrite`). Redaction and truncation of JSON trees,
first as functions with their laws, then as methods that rewrite mutable array and object nodes in place,
with the append that writes into the shared backing array.

## Where the code's behaviour is less than one may expect

- A rotation looks at `used_at` only, so a token revoked after it was read can still be rotated
  (`backend/auth/adapters/db/dbmodels/refresh_tokens.sql.go:83-88`). `RefreshRuns.StaleReadSurvives` is a run;
  `RefreshBarrier.RevokedFamilyComesBackIff` is the exact condition.
- A revocation by user covers the rows of its snapshot, and a login that saves its token between the snapshot
  and the commit keeps it: `RefreshRuns.LoginSurvivesDisable` is a run, `RefreshBarrier.RevocationBarrierIff`
  the exact condition.
- A revocation of a family after reuse covers the rows its statement found:
  `RefreshRuns.RotationSurvivesFamilyRevocation` is a run, `RefreshBarrier.FamilyRevocationIff` the exact condition.
- A disable of a super_admin locks user rows FOR UPDATE and then waits for refresh tokens, while a rotation
  holds a refresh token and needs its owner's row for the foreign key
  (`backend/auth/adapters/db/migrations/0003_refresh_tokens.up.sql`): the two can deadlock
  (`LockPairs.CollisionDeadlocks`). A consume locks its own one-time token before it sweeps the owner's others,
  so two resets, two acceptances, or one of them and an issue of the same owner can deadlock over two active
  tokens (`LockPairs.CrossDeadlocks`, `LockPairs.TwoResetsDeadlock`). There are no other deadlocks
  (`LockKnots.CanDeadlockIff`), and the database's error is not retried (`AccountMail.DeadlockIsFinal`).
- Mails are sent before the commit (`backend/auth/adapters/db/users_repo.go:76`,
  `backend/auth/adapters/db/password_reset_tokens_repo.go:51`): a failing commit leaves a mail out whose token
  is not stored, and a retry sends the mail again (`AccountMail.MailsSent`,
  `AccountMail.RegistrationMailStrandedIff`). `AccountMail.TenMailsNoAccount` is a registration that sends ten
  mails, fails, and leaves no account.
- Eleven simultaneous disables can make one exhaust its ten attempts (`SuperAdminSchedule.NeverExhaustsIff`).
- 18 guesses in a window are a bound for the login's lockout exactly when attempts come one at a time and no
  login succeeds in between: each login deletes the count and adds nine, and attempts in flight add theirs
  (`LoginRace.EighteenIff`; `LoginRace.MostGuessesIff` is the exact maximum).
- A lock can be extended by attempts that passed the check before it was set, exactly when more than the
  threshold are in flight (`LockLength.LocksKeepTheirEndIff`).
- Two overlapping issues can leave two active one-time tokens (`OneTimeProtocol.OverlappingIssuesLeaveTwo`);
  `OneTimeProtocol.AlwaysAtMostOneIff` says exactly when this does not happen. The comments in
  `backend/auth/adapters/db/password_reset_tokens_repo.go` promise at most one.
- A registration, resend or reset request whose mail or database fails is answered with an error only if there
  was something to do, and a registration that loses a race for its email with an internal error
  (`AccountAnswers.AcceptedIff`).
- A truncated log body can nest one level deeper than what it was made from, and so be unreadable where that
  was not (`LogBody.DeepestTruncationIsUnreadable`).
- A fixed-window key that lost its expiry denies every request for ever, with a retry time of 0
  (`FixedWindow.WithoutExpiryDeniesForever`), whereas the counting window heals it.
- Truncation is not idempotent; `LogBody.TruncateIdempotentIff` gives the exact condition.

## Model

| member | source | states |
|---|---|---|
| SuperAdminGuard.StepKeepsInv | backend/auth/adapters/db/admin_account_repo.go:70-101 | Every step of every disable, and of every other writer of the users table, keeps: row locks are exclusive, locked rows are as in the snapshot, locks are taken in ascending order, and a disable that counted holds every row it counted |
| SuperAdminGuard.CountedRowsStillActive | backend/auth/adapters/db/dbmodels/users.sql.go:181-197 | When a disable of a super_admin reaches its commit, all the rows it locked are still active super_admins, its target is one of them, and there are at least two |
| SuperAdminGuard.NeverWithoutSuperAdmin | backend/auth/adapters/db/admin_account_repo.go:73-94 | Under every interleaving of disables, reactivations, confirmations, updates, new accounts and failures, once there is an active super_admin there is one in every later state |
| SuperAdminGuard.ReadDecides | backend/auth/app/command/disable_account.go:57-87 | A disable goes on if and only if its target is present, has one of the three admin roles and is not disabled; each refusal tells which of these fails |
| SuperAdminGuard.OnlyAdminsAreDisabled | backend/auth/app/command/disable_account.go:74-82 | Under every interleaving only accounts with an admin role are disabled |
| SuperAdminGuard.CountDecides | backend/auth/adapters/db/admin_account_repo.go:73-82 | A disable of a super_admin is refused as the last one if and only if its snapshot shows at most one active super_admin |
| SuperAdminGuard.CommitDisables | backend/auth/adapters/db/dbmodels/users.sql.go:216-223 | A disable that commits finds its target active and present, disables it and changes no other row |
| SuperAdminGuard.NoDeadlock | backend/auth/adapters/db/dbmodels/users.sql.go:188-195 | As far as the row locks of disables on users go: while a request is unfinished, some unfinished request can take a step of its own |
| LockKnots.CanDeadlockIff | backend/auth/adapters/db/admin_account_repo.go:80-98 | With the row locks of disables, password changes, resets, acceptances, confirmations, issues, registrations, rotations, revocations and logins, foreign keys included, and no hypothesis: a deadlock is reachable if and only if transactions among them can stand in a knot of one of two shapes - a disable of a super_admin that waits, directly or through revocations of its target's tokens, for a rotation of such a token that waits for the target's row, or transactions that each wait for another's one-time token of one kind and owner |
| RowLocks.CanDeadlockIffKnot | backend/auth/adapters/db/dbmodels/users.sql.go:188-195 | For any lock orders: a deadlock is reachable by some interleaving if and only if some transactions can stand at compatible locks, each waiting for another |
| RowLocks.PlaceAll | backend/auth/adapters/db/dbmodels/users.sql.go:188-195 | Every state in which some transactions stand at compatible locks is reached, by running them one after the other |
| LockPairs.CanDeadlockPairIff | backend/auth/adapters/db/password_reset_tokens_repo.go:60-69 | Where a disable lists every token of its target that a rotation meets, and whoever locks a token that a consume sweeps locks the consumed one too: a deadlock is reachable if and only if a disable of a super_admin meets a rotation of one of its target's tokens, or a consume meets a consume or issue of the same owner that locks another of its tokens first |
| LockPairs.CrossDeadlocks | backend/auth/adapters/db/invitation_tokens_repo.go:80-89 | A consume and another transaction that locks, before the consumed token, one that the consume sweeps, can deadlock, whatever else runs |
| LockPairs.TwoResetsDeadlock | backend/auth/adapters/db/password_reset_tokens_repo.go:57-87 | Two resets of one user with two active tokens can deadlock |
| LockPairs.SingleTokensAreSafe | backend/auth/adapters/db/password_reset_tokens_repo.go:60-69 | Where no consume finds another token to sweep, a deadlock needs a disable and a rotation in a knot of the first shape |
| LockPairs.RevocationBetweenDeadlocks | backend/auth/app/command/refresh_token.go:118-126 | A disable that does not list the rotated token can deadlock with its rotation through a revocation that holds a listed token and waits for the rotated one |
| LockPairs.CollisionDeadlocks | backend/auth/adapters/db/refresh_tokens_repo.go:58-77 | A disable of a super_admin and a rotation of a token on its list can deadlock, whatever else runs |
| AccountMail.DatabaseErrorRetriedIff | backend/common/db.go:71-86 | An attempt that an error of the database ends in a statement is followed by another if and only if it is not the tenth and the error's text, or that of a failed rollback, contains the phrase of a serialization failure |
| AccountMail.MailErrorRetriedIff | backend/auth/app/command/register_account.go:106-109 | A mail that fails is tried again if and only if the mailer's text contains the phrase |
| AccountMail.DeadlockIsFinal | backend/common/db.go:76-80 | So an attempt that the database ends to break a deadlock is the last, and its error is returned |
| SuperAdminRace.ExactlyOneIsRefused | backend/auth/adapters/db/admin_account_repo.go:80-98 | m active super_admins, each disabled by one concurrent request, for every m and every schedule without exhausted retries: m - 1 succeed, exactly one is told it is the last, and that one stays active |
| SuperAdminRace.UpToTenNeverExhaust | backend/common/db.go:71-86 | With at most ten such requests and no other updates, no request runs out of its ten attempts |
| SuperAdminSchedule.NeverExhaustsIff | backend/common/db.go:71-86 | No schedule of the disables of all active super_admins makes one of them exhaust its attempts, if and only if there are at most ten |
| Transactions.Store.UpdateOnce | backend/common/db.go:91-116 | One attempt commits all that the body makes of the store it finds or nothing, keeps its effects outside the database in any case, and the error it returns keeps that of the body and adds that of a failed rollback |
| Transactions.Store.UpdateInTx | backend/common/db.go:59-89 | At most ten attempts run, all but the last failed to serialize; besides what others have committed, the store holds exactly what the last attempt's body did if no error is returned, and nothing otherwise; the outside effects of all attempts add up |
| Transactions.StopsOnce | backend/common/db.go:71-88 | The number of attempts and the final error are determined by the body, which reads the store, and by what surrounds it |
| Transactions.RetriedIff | backend/common/db.go:71-86 | An attempt is followed by another if and only if it is not the tenth and fails with a text that contains the phrase |
| Transactions.DatabaseErrorRetriedIff | backend/common/db.go:76-80 | An error of the database is retried if and only if its text is something, the phrase, and something |
| Transactions.ConcurrentUpdateIsRetried | backend/common/db.go:76-80 | What PostgreSQL sends for a row that was changed since the snapshot is retried |
| Transactions.BeginErrorRetriedIff | backend/common/db.go:97-103 | A transaction that could not begin is tried again if and only if the cause contains the phrase |
| Transactions.CommitsAtMostOnce | backend/common/db.go:71-88 | Of the attempts made, exactly the last one commits if no error is returned, and none otherwise |
| Transactions.RollbackErrorKeepsCause | backend/common/db.go:76-110 | The error of a failed rollback hides neither the program's error nor a serialization failure, and makes an attempt be retried only if it is one itself |
| RefreshChain.RunGrows | backend/auth/adapters/db/dbmodels/refresh_tokens.sql.go:83-158 | Over every run no row is removed, identity columns never change, and used_at, revoked_at and revocation_reason are written once |
| RefreshTokens.ChangedRowsCountUp | backend/auth/adapters/db/dbmodels/refresh_tokens.sql.go:83-158 | Every update of a row raises its update count, which never exceeds two |
| RefreshChain.RotationExtendsChain | backend/auth/adapters/db/refresh_tokens_repo.go:58-77 | An unused token is the end of its chain, and rotating it appends one link |
| RefreshChain.FamiliesAreChains | backend/auth/app/command/refresh_token.go:156-164 | In every reachable state every family is one chain: one root, one owner, each parent the previous token of the family, and used_at set on all but the last |
| RefreshChain.OneRotationPerToken | backend/auth/adapters/db/refresh_tokens_repo.go:61-68 | No token is rotated by two requests |
| RefreshChain.OneOwner | backend/auth/app/command/refresh_token.go:157-160 | All tokens of a family belong to one user |
| RefreshChain.FamilySize | backend/auth/app/command/login.go:151-157 | The size of a family is one plus the number of rotations that committed in it |
| RefreshChain.RotationNeverExhausted | backend/common/db.go:71-86 | A rotation makes at most three attempts and never exhausts its ten |
| RefreshChecks.RotatedWasVetted | backend/auth/app/command/refresh_token.go:103-146 | Under every interleaving a request that rotates its token, obtains a pair, or fails in signing after a rotation, has met its token unused, unrevoked and unexpired, and its owner present and not disabled |
| RefreshChecks.StepPassesIff | backend/auth/app/command/refresh_token.go:103-149 | A request goes on to its owner if and only if the token it read is unused, unrevoked and unexpired, and to its rotation if and only if the owner is present and not disabled in that state |
| RefreshChecks.FailedChecks | backend/auth/app/command/refresh_token.go:103-146 | What each failed check makes the request revoke, with which reason and answer |
| RefreshChecks.LoginPassesIff | backend/auth/domain/login.go:21-33 | A login saves a session if and only if its account is present, confirmed and not disabled |
| RefreshChecks.CommittedRevocation | backend/auth/adapters/db/users_repo.go:118-137 | A password change, reset or disable that commits could have begun at its commit: it changes the account as it is then, and revokes with its reason the tokens of its snapshot, unrevoked still |
| RefreshChecks.RefusedRevocation | backend/auth/adapters/db/admin_account_repo.go:82-91 | One that does not commit changes nothing, and is refused if and only if its user is absent, or for a disable not active, and gives up if and only if its tenth attempt fails to serialize |
| RefreshChecks.SnapshotIsComplete | backend/auth/adapters/db/dbmodels/refresh_tokens.sql.go:140-158 | The snapshot of an attempt shows exactly the unrevoked tokens that the user has then |
| RefreshContest.ExactlyOneWinner | backend/auth/app/command/refresh_token.go:94-178 | n >= 2 requests presenting one live, unexpired token of an active account, under every interleaving with unrelated traffic, where no contender meets an error of the database or of signing: exactly one obtains a new pair, every other reports reuse, and when all have finished every token of the family is revoked |
| RefreshBarrier.DeadStaysDead | backend/auth/adapters/db/dbmodels/refresh_tokens.sql.go:121-138 | Fully revoked families with no request under way that read a live token of them never gain a token and stay fully revoked |
| RefreshBarrier.RevokedFamilyComesBackIff | backend/auth/adapters/db/dbmodels/refresh_tokens.sql.go:83-88 | A fully revoked family can gain a token in some continuation if and only if such a request is under way |
| RefreshBarrier.CanBeLiveIff | backend/auth/adapters/db/dbmodels/refresh_tokens.sql.go:83-138 | Some continuation has an unrevoked token in given families if and only if one is unrevoked now or a request that read a live token of them is under way |
| RefreshBarrier.FamilyRevocationIff | backend/auth/adapters/db/dbmodels/refresh_tokens.sql.go:121-138 | The statement that revokes a family leaves it fully revoked if and only if no unrevoked token was inserted since the statement began, and over for good if and only if moreover no rotation of it is under way |
| RefreshBarrier.RevocationBarrierIff | backend/auth/adapters/db/users_repo.go:118-137 | When a password change, reset or disable commits, the families the user has then can have an unrevoked token then or later, if and only if an unrevoked token of the user was inserted since the snapshot of the committing attempt or a refresh in one of these families is under way |
| RefreshBarrier.RevocationBarrier | backend/auth/adapters/db/users_repo.go:118-137 | Where neither is the case, every unrevoked token of the user in every later state belongs to a family that did not exist at the commit |
| RefreshBarrier.BarrierSinceSnapshot | backend/auth/adapters/db/users_repo.go:118-137 | If at the snapshot of the committing attempt nobody held a live read of a token of the user revoked since, and at the commit no refresh of the families of the snapshot is under way, every later unrevoked token of the user belongs to a family started after the snapshot |
| RefreshRuns.LoginSurvivesDisable | backend/auth/app/command/login.go:101-157 | A run from an empty table in which a login and a disable of its account both succeed and the login's token is live |
| RefreshRuns.StaleReadSurvives | backend/auth/adapters/db/dbmodels/refresh_tokens.sql.go:83-88 | A run in which a logout leaves a family fully revoked, a refresh that had read its token gives it a live one, and a password change that began in between does not end it |
| RefreshRuns.RotationSurvivesFamilyRevocation | backend/auth/app/command/refresh_token.go:118-126 | A run in which a token is presented again and its family revoked, while a rotation that commits within that statement leaves a live token |
| RefreshStore.Database.MarkRefreshTokenUsed | backend/auth/adapters/db/dbmodels/refresh_tokens.sql.go:83-99 | Sets used_at where it is null and reports how many rows changed; nothing else changes |
| RefreshStore.Database.RevokeRefreshToken | backend/auth/adapters/db/dbmodels/refresh_tokens.sql.go:101-119 | Revokes the one row unless it is revoked already |
| RefreshStore.Database.RevokeRefreshTokenFamily | backend/auth/adapters/db/dbmodels/refresh_tokens.sql.go:121-138 | Revokes exactly the unrevoked rows of the family |
| RefreshStore.Database.RevokeRefreshTokensByUser | backend/auth/adapters/db/dbmodels/refresh_tokens.sql.go:140-158 | Revokes exactly the unrevoked rows of the user |
| RefreshStore.Database.RotateRefreshToken | backend/auth/adapters/db/refresh_tokens_repo.go:58-77 | Marks the old token used and inserts its successor, both or neither; an already used token is told apart |
| RefreshStore.RefreshTokenHandler.Handle | backend/auth/app/command/refresh_token.go:78-188 | The handler does what the protocol's run of its request does, whatever others make of the tokens between its reads and its rotation; each answer is given if and only if the rows it read say so: unknown, expired, used or revoked, owner absent, owner disabled, and a new pair only for a live token of a usable account that is unused still |
| RefreshStore.RefreshTokenHandler.Rotate | backend/auth/app/command/refresh_token.go:148-178 | A rotation that finds its token used by another request revokes the family and reports reuse; otherwise the token is used and has one child |
| RefreshStore.LogoutHandler.Handle | backend/auth/app/command/logout.go:39-81 | The one answer whatever is presented; the caller's own token is revoked without a reason unless it is already, and no other token changes, least of all another user's |
| RefreshStore.ReadyRun | backend/auth/app/command/refresh_token.go:94-178 | A live, unexpired token of a usable account brings its request to that rotation, on the tokens as others have left them |
| RefreshStore.RotationAlone | backend/auth/app/command/refresh_token.go:148-178 | The protocol rotates a token that is still unused, even one revoked since it was read, giving it one child in the same family with the same owner |
| RefreshStore.LostAlone | backend/auth/app/command/refresh_token.go:166-178 | A lost race leaves the whole family revoked with the reuse answer |
| RefreshStore.ReuseRun | backend/auth/app/command/refresh_token.go:113-126 | A token that was used or revoked when it was read leaves its whole family revoked |
| RefreshStore.RefreshAnsweredAsRead | backend/auth/app/command/refresh_token.go:94-178 | The protocol's run of one request ends in each answer if and only if the token and account say so, and leaves one child of 30 days, the family revoked, or the one token revoked |
| RefreshStore.DisabledRun | backend/auth/app/command/refresh_token.go:139-146 | A live, unexpired token of a disabled account is revoked by itself for that reason, and not rotated |
| RefreshStore.DeletedRun | backend/auth/app/command/refresh_token.go:130-137 | A live, unexpired token of an absent or deleted account is revoked by itself for that reason |
| RefreshStore.UnknownRun | backend/auth/app/command/refresh_token.go:98-101 | An unknown token is invalid and changes nothing |
| RefreshStore.ExpiredRun | backend/auth/app/command/refresh_token.go:104-111 | An expired token is revoked by itself, without a reason |
| CountingWindow.CountingWindowLimiter.Allow | backend/common/ratelimit/countingwindow.go:48-70 | Run command by command, the script leaves the key and gives the answer of `Script` and `Decision`, which `AnsweredByCount` pins, and touches no other key |
| CountingWindow.AnsweredByCount | backend/common/ratelimit/countingwindow.go:60-69 | A request is admitted, and counted, if and only if fewer than the limit are counted; the answer tells how many more there may be, when the window ends, and how long to wait if denied |
| CountingWindow.CountStaysWithinLimit | backend/common/ratelimit/countingwindow.go:14-31 | The stored count never exceeds the limit |
| CountingWindow.AtMostTwiceTheLimit | backend/common/ratelimit/countingwindow.go:14-31 | Any half-open interval of one window admits at most 2 * limit - 1 requests |
| CountingWindow.BoundAttained | backend/common/ratelimit/countingwindow.go:14-31 | Some sequence of requests is answered with that many admissions |
| CountingWindow.RetryAfterIsExact | backend/common/ratelimit/countingwindow.go:62-69 | After a denial at t with retry time r, every request before t + r is denied and announces t + r, whatever else arrives, and the first request from then on is admitted |
| CountingWindow.RecoversWithinOneWindow | backend/common/ratelimit/countingwindow.go:26-29 | A key without expiry lets a request through at the latest one window after the next request |
| FixedWindow.FixedWindowLimiter.Allow | backend/common/ratelimit/fixedwindow.go:38-67 | Run command by command, the script leaves the key and gives the answer of `Step`, and touches no other key |
| FixedWindow.AnsweredByKey | backend/common/ratelimit/fixedwindow.go:52-66 | A request is admitted if and only if the key is not live, and then the key lives for exactly one window; a denied one changes nothing and is told the time left |
| FixedWindow.SameDecisions | backend/common/ratelimit/fixedwindow.go:15-22 | On a key with expiry the fixed window answers every sequence of requests as a counting window of limit 1 does, retry times included |
| FixedWindow.SameAsCountingWindowIff | backend/common/ratelimit/fixedwindow.go:52-66 | The two agree on all sequences of requests if and only if the key does not lack its expiry |
| FixedWindow.WithoutExpiryDeniesForever | backend/common/ratelimit/fixedwindow.go:52-57 | A key without expiry denies every request, with a retry time of 0 |
| FixedWindow.AdmissionsOneWindowApart | backend/common/ratelimit/fixedwindow.go:15-22 | Any two admitted requests are at least one window apart |
| Lockout.LockoutLimiter.Check | backend/common/ratelimit/lockout.go:55-72 | Answers and heals as `CheckStep`: a lock without expiry is given one; no other key is touched |
| Lockout.LockoutLimiter.RecordFailure | backend/common/ratelimit/lockout.go:77-90 | Counts and locks as `RecordStep`, on the two keys only |
| Lockout.LockoutLimiter.Reset | backend/common/ratelimit/lockout.go:93-98 | Clears the count and keeps the lock |
| Lockout.RunKeepsCovered | backend/common/ratelimit/lockout.go:14-29 | With window <= lockTTL, over passing time, checks, failures and resets in any order: a live count at the threshold is covered by a live lock that expires no earlier |
| Lockout.UnlockedMeansBelowIff | backend/auth/domain/login.go:9-13 | Unlocked always means fewer live failures than the threshold, if and only if the window is not longer than the lock |
| Lockout.AtMostNearlyTwiceTheThreshold | backend/common/ratelimit/lockout.go:14-29 | Any half-open interval of one window records at most max(threshold, 2 * threshold - 2) failures of attempts that check first |
| Lockout.BoundAttained | backend/common/ratelimit/lockout.go:14-29 | Some spread of attempts reaches that bound |
| Lockout.LockNeverExtended | backend/common/ratelimit/lockout.go:74-77 | For attempts whose check and record are taken together: while a lock lasts, failing attempts change neither key, so it ends when it was set to end |
| Lockout.LockedIff | backend/common/ratelimit/lockout.go:55-72 | An account is locked if and only if its lock is live, and told the time left |
| Lockout.RetryAfterIsExact | backend/common/ratelimit/lockout.go:30-33 | After an answer at t with retry time r, whatever attempts fail meanwhile, the account is locked before t + r, with what is left of r, and unlocked from then on |
| Lockout.RecordedFailure | backend/common/ratelimit/lockout.go:14-29 | A failure counts one more in the window that the first one opened, and sets a lock if and only if it reaches the threshold |
| Lockout.LockedByThreshold | backend/common/ratelimit/lockout.go:14-29 | From empty keys, failures within a window of the first leave the account unlocked while fewer than the threshold, and the one that reaches it locks it for exactly the length of a lock |
| Lockout.ResetForgets | backend/common/ratelimit/lockout.go:92-98 | After a success the failures before it count no more |
| LockLength.LocksKeepTheirEndIff | backend/common/ratelimit/lockout.go:14-29 | With checks, records and resets as separate steps: no lock is ever extended by at most n attempts in flight, if and only if n is at most the threshold (two, where threshold is 1 and the lock as long as the window) |
| Login.LoginHandler.Handle | backend/auth/app/command/login.go:92-157 | Check, verification, record, reset and the first token of a new family in the order of `LoginStep`; a token is saved exactly on success |
| Login.AnsweredByAccount | backend/auth/domain/login.go:21-33 | Locked, wrong password, disabled, unverified and logged in, each if and only if lock, password and status say so in this order; a login is for the account that was found and deletes the count, only a wrong password is counted |
| Login.LockedForFifteenMinutes | backend/auth/domain/login.go:9-13 | Ten wrong passwords within fifteen minutes of the first lock an account for fifteen minutes after the last; nine do not |
| Login.WrongPasswordsRevealNothing | backend/auth/app/command/login.go:92-124 | Two sequences of attempts at the same times, none with the correct password, get the same answers and leave the same lockout state whatever the account is |
| Login.AtMost18GuessesPerWindow | backend/auth/domain/login.go:9-13 | Attempts that come one at a time, from empty keys, none of which carries the correct password: at most 18 passwords are compared and rejected in any fifteen minutes |
| LoginRace.AtMostGuessBound | backend/auth/app/command/login.go:92-136 | With checks, records and resets as separate steps, at most n attempts in flight and r logins in a window, it records at most threshold + (n - 1) + max(threshold - 2, n - 1) + (threshold - 1) * r wrong passwords |
| LoginRace.GuessBoundAttained | backend/auth/app/command/login.go:92-136 | That bound is reached for every number of logins, while n is below the threshold, and for every n where the lock is as long as the window |
| LoginRace.MostGuessesIff | backend/auth/app/command/login.go:92-136 | Where the lock is as long as the window, a number is a bound on the wrong passwords of a window, for at most n in flight and r logins, if and only if it is at least that |
| LoginRace.SequentialBoundIff | backend/auth/app/command/login.go:92-136 | The bound for failing attempts one at a time holds for at most n in flight and at most r logins if and only if n = 1 and r = 0 |
| LoginRace.EighteenIff | backend/auth/domain/login.go:9-13 | For the login's configuration 18 guesses are a bound if and only if attempts come one at a time and none in the window succeeds; the exact maximum for n in flight and r logins is 9 + n + max(8, n - 1) + 9 * r |
| LoginRace.AttemptsAreEvents | backend/auth/app/command/login.go:92-136 | Whole attempts, right or wrong, are runs of checks, records and resets with one in flight, with the same guesses and logins |
| LoginRace.AtMost18AndNinePerLogin | backend/auth/domain/login.go:9-13 | Any attempts that come one at a time, from empty keys: at most 18 passwords are rejected in any fifteen minutes, and nine more for each login among them |
| RateLimit.CeilSecondsSuffices | backend/auth/api/http/handler.go:52-53 | The announced whole seconds are enough and less than one second too many |
| OneTimeTokens.ActiveAfterIssue | backend/auth/adapters/db/password_reset_tokens_repo.go:36-53 | An issue leaves the owner the new token and those inserted since the snapshot, and no other owner changes |
| OneTimeTokens.OneActiveAfterIssueIff | backend/auth/adapters/db/password_reset_tokens_repo.go:33-53 | From any table, an issue leaves exactly one active token if and only if no token was inserted for the owner since the snapshot |
| OneTimeTokens.ActiveAfterUse | backend/auth/adapters/db/dbmodels/password_reset_tokens.sql.go:75-103 | Using tokens removes exactly them from the active ones of every owner, and changes no other column |
| OneTimeProtocol.ConsumedAtMostOnce | backend/auth/app/command/confirm_password_reset.go:57-90 | Under every interleaving of lookups, consumes and issues a token is consumed by at most one request |
| OneTimeProtocol.UsedNeverConsumed | backend/auth/adapters/db/email_confirmation_tokens_repo.go:52-61 | A used token is never consumed afterwards, however early it was read |
| OneTimeProtocol.SupersededNeverConsumed | backend/auth/adapters/db/password_reset_tokens_repo.go:36-53 | After a committed re-issue no token of its snapshot is ever consumed |
| OneTimeProtocol.AlwaysAtMostOneIff | backend/auth/adapters/db/password_reset_tokens_repo.go:33-53 | Every owner has at most one active token in every state of a run if and only if no issue that found none commits while its owner has one; conflicts, retries and consumes are free |
| OneTimeProtocol.FoundTheOnlyOne | backend/auth/adapters/db/dbmodels/password_reset_tokens.sql.go:75-88 | While owners have at most one active token, a committing issue that found one has found the only one |
| OneTimeProtocol.SerialKeepsOneActive | backend/auth/adapters/db/invitation_tokens_repo.go:53-70 | If no issue that found no active token commits while its owner has one, every owner has at most one active token at the end of the run |
| OneTimeProtocol.OverlappingIssuesLeaveTwo | backend/auth/adapters/db/password_reset_tokens_repo.go:33-53 | Two overlapping issues can leave one owner two active tokens |
| OneTimeProtocol.SerialConsumeLeavesNone | backend/auth/adapters/db/invitation_tokens_repo.go:79-88 | An uninterrupted consume leaves its owner no active token and no other owner changed |
| OneTimeChecks.ConsumedWasVetted | backend/auth/app/command/accept_invitation.go:59-82 | Under every interleaving a request that consumes a token has read it unused and unexpired |
| OneTimeChecks.ReadIsAnswered | backend/auth/app/command/verify_email.go:49-66 | A request goes on to its transaction if and only if it read its token unused and unexpired; unknown or used is answered as invalid, unused and expired as expired, and nothing changes |
| OneTimeChecks.CommittedConsume | backend/auth/adapters/db/password_reset_tokens_repo.go:57-69 | A consume that commits finds its token active then, and uses it and the tokens of its snapshot as they are then; one that finds it used is refused and changes nothing |
| OneTimeChecks.CommittedIssue | backend/auth/adapters/db/password_reset_tokens_repo.go:36-53 | An issue that commits uses the tokens of its snapshot and adds its own; any other changes nothing |
| OneTimeChecks.SnapshotIsComplete | backend/auth/adapters/db/dbmodels/password_reset_tokens.sql.go:75-88 | The snapshot of an attempt shows exactly the owner's active tokens, where consuming sweeps |
| OneTimeChecks.TriesCountUp | backend/common/db.go:71-86 | Attempts are counted one by one, and a request gives up if and only if its tenth fails to serialize |
| AccountRepository.Transaction.LockActiveSuperAdmins | backend/auth/adapters/db/dbmodels/users.sql.go:181-214 | Lists the active super_admins, each once, in ascending order |
| AccountRepository.Transaction.TransitionUserStatus | backend/auth/adapters/db/dbmodels/users.sql.go:216-237 | Changes the status of a present account only from the given one, and reports whether it did |
| AccountRepository.Transaction.MarkTokenUsed | backend/auth/adapters/db/dbmodels/invitation_tokens.sql.go:96-109 | Uses the token if it is active, and reports whether it was |
| AccountRepository.Transaction.InvalidateActiveTokens | backend/auth/adapters/db/dbmodels/invitation_tokens.sql.go:81-94 | Uses exactly the owner's active tokens |
| AccountRepository.Transaction.ConfirmPasswordReset | backend/auth/adapters/db/password_reset_tokens_repo.go:58-86 | The body sends its statements in order, stops at the first error of the database or unmatched row, and does exactly what the list of its statements does |
| AccountRepository.Transaction.AcceptInvitation | backend/auth/adapters/db/invitation_tokens_repo.go:78-105 | The same for an acceptance, with the unique email told apart |
| AccountRepository.Transaction.DisableAccount | backend/auth/adapters/db/admin_account_repo.go:71-100 | The same for a disable, which counts only for a super_admin |
| AccountRepository.Transaction.ChangePassword | backend/auth/adapters/db/users_repo.go:119-136 | The same for a password change |
| AccountRepository.Transaction.CreateUser | backend/auth/adapters/db/users_repo.go:51-77 | The same for a registration, whose last statement sends the mail |
| AccountRepository.Transaction.IssueToken | backend/auth/adapters/db/invitation_tokens_repo.go:54-69 | The same for an issue, whose last statement sends the mail |
| AccountRepository.Transaction.ConsumeEmailConfirmationToken | backend/auth/adapters/db/email_confirmation_tokens_repo.go:53-76 | The same for a confirmation |
| AccountRepository.UserRepository.CreateUser | backend/auth/adapters/db/users_repo.go:50-78 | User, plain role and confirmation token are stored, all or none, on the store the last attempt found, whichever statement, mail, begin, rollback or commit fails; a mail goes out in each attempt that gets through it, whether or not that attempt commits |
| AccountRepository.UserRepository.IssueToken | backend/auth/adapters/db/password_reset_tokens_repo.go:36-53 | The owner's active tokens are used and a new one inserted, both or neither, on the store the last attempt found, whichever statement, mail, begin, rollback or commit fails; a mail goes out in each attempt that gets through it, whether or not that attempt commits |
| AccountRepository.UserRepository.ConsumeEmailConfirmationToken | backend/auth/adapters/db/email_confirmation_tokens_repo.go:52-77 | The token is used and the account confirmed, both or neither - on the store the last attempt found, whichever statement, begin, rollback or commit fails |
| AccountRepository.UserRepository.ChangePassword | backend/auth/adapters/db/users_repo.go:118-137 | The password is set and every session revoked, both or neither - on the store the last attempt found, whichever statement, begin, rollback or commit fails |
| AccountRepository.UserRepository.ConfirmPasswordReset | backend/auth/adapters/db/password_reset_tokens_repo.go:57-87 | Its four effects happen together or not at all - on the store the last attempt found, whichever statement, begin, rollback or commit fails |
| AccountRepository.UserRepository.AcceptInvitation | backend/auth/adapters/db/invitation_tokens_repo.go:76-110 | Token, other invitations, account and role change together or not at all - on the store the last attempt found, whichever statement, begin, rollback or commit fails; a taken email is told apart |
| AccountRepository.UserRepository.DisableAccount | backend/auth/adapters/db/admin_account_repo.go:70-101 | Count, guarded transition and revocation happen together or not at all - on the store the last attempt found, whichever statement, begin, rollback or commit fails |
| AccountRepository.UserRepository.ReactivateAccount | backend/auth/adapters/db/admin_account_repo.go:51-64 | Moves a disabled account to inactive and changes nothing otherwise |
| AccountRepository.UserRepository.UpdateInTx | backend/common/db.go:35-41 | Runs a transaction's statements in the wrapper: the store ends as what others made of it, or exactly as planned on that; when nothing fails the answer is the planned one |
| AccountStatements.ExecutedAsPlanned | backend/common/db.go:91-116 | Whatever statements fail, an execution does what is planned, refuses for the planned reason, or is stopped by an error of the database, or by the mail when all else is done |
| AccountMail.MailsSent | backend/auth/adapters/db/users_repo.go:50-78 | A call sends one mail for each attempt that gets through it and then fails to commit, and one more if and only if it returns no error; at most ten in all |
| AccountMail.OneMailPerTokenIff | backend/common/db.go:91-116 | There are as many mails as committed tokens if and only if no attempt that got through its mail failed to commit |
| AccountMail.RegistrationMailStrandedIff | backend/auth/app/command/register_account.go:105-117 | A registration leaves a mail out whose token is not in the store if and only if it ends in an error although some attempt got through its mail; without an error a mail is out and its token active |
| AccountMail.IssueMailStrandedIff | backend/auth/app/command/request_password_reset.go:65-78 | The same for an issue |
| AccountMail.MailsRepeat | backend/common/db.go:71-86 | With k commits that fail to serialize a call sends k + 1 mails, for every k below ten; with ten it sends ten, returns an error and commits nothing |
| AccountMail.TenMailsNoAccount | backend/auth/adapters/db/users_repo.go:50-78 | A run in which the registration of a new email sends ten mails, fails and leaves the store as it was |
| AccountStatements.ResetPasswordPlan | backend/auth/adapters/db/password_reset_tokens_repo.go:58-86 | Statement by statement a reset amounts to `ResetPasswordResult` |
| AccountStatements.AcceptPlan | backend/auth/adapters/db/invitation_tokens_repo.go:78-105 | Statement by statement an acceptance amounts to `AcceptResult` |
| AccountStatements.DisablePlan | backend/auth/adapters/db/admin_account_repo.go:71-100 | Statement by statement a disable amounts to `DisableResult` |
| AccountStatements.RefusalsAreFinal | backend/common/db.go:76-80 | No refusal of a transaction is retried as a serialization failure, whatever the refusal |
| AccountStore.ResetIsAllOrNothing | backend/auth/adapters/db/password_reset_tokens_repo.go:57-87 | What is planned for a reset: it succeeds if and only if its token is active and its user present; then its token is spent, no reset token of the user is active, the password is set, all sessions are revoked and nobody else is touched; otherwise nothing changes |
| AccountStore.AcceptIsAllOrNothing | backend/auth/adapters/db/invitation_tokens_repo.go:76-110 | What is planned for an acceptance: it succeeds if and only if the token is active, the email free and the identifier new; then exactly one account is added, usable and with exactly the given role, and no invitation for the email is active; otherwise nothing changes |
| AccountStore.DisableKeepsASuperAdmin | backend/auth/adapters/db/admin_account_repo.go:70-101 | A disable leaves an active super_admin, ends every session of its target, and is refused as the last one only where there is one |
| AccountStore.ChangePasswordIsAllOrNothing | backend/auth/adapters/db/users_repo.go:118-137 | What is planned for a password change: it succeeds if and only if its user is present; then the password is set, all sessions of the user are revoked for that reason and nothing else changes |
| AccountStore.CreateIsAllOrNothing | backend/auth/adapters/db/users_repo.go:50-78 | What is planned for a registration: each result by the identifiers, the email and the mail; on success one unverified account with the plain role and its token are added, and nothing else changes |
| AccountStore.IssueIsAllOrNothing | backend/auth/adapters/db/invitation_tokens_repo.go:53-70 | What is planned for an issue: on success its owner has exactly the new token, and every other owner those it had |
| AccountStore.ConfirmEmailIsAllOrNothing | backend/auth/adapters/db/email_confirmation_tokens_repo.go:52-77 | What is planned for a confirmation: it succeeds if and only if the token is active and the account unverified; then the one is used, the other confirmed, and nothing else changes |
| AccountStore.DisableIsAllOrNothing | backend/auth/adapters/db/admin_account_repo.go:70-101 | What is planned for a disable: each result by the count and the account; on success the account is disabled, its sessions are revoked for that reason and nothing else changes |
| AccountStore.ReactivateIsAllOrNothing | backend/auth/adapters/db/admin_account_repo.go:51-64 | What is planned for a reactivation: it succeeds if and only if the account is disabled, and changes its status only |
| AccountStore.UseThenSweep | backend/auth/adapters/db/password_reset_tokens_repo.go:60-69 | Using one token and then sweeping its owner's is the same as using them all at once |
| AccountProvenance.StepKeepsInv | backend/auth/app/command/accept_invitation.go:59-98 | Every planned, delayed or repeated transaction of every use case keeps the origin of accounts, unique emails, valid invitations and session owners, and what handlers have read stays true |
| AccountProvenance.Provenance | backend/auth/adapters/db/invitation_tokens_repo.go:76-110 | After every run from the empty store: one account per email; every session's owner is past its confirmation; such accounts have a used confirmation or invitation; every admin role is the valid role of a used invitation for the account's email, and the only role |
| AccountProvenance.EveryStepMoves | backend/auth/adapters/db/dbmodels/users.sql.go:216-223 | Every step of every run moves statuses only from mail_unverified to inactive, inactive to disabled and disabled to inactive, and no row of any table is removed or loses its identity |
| AccountProvenance.IdentityIsFixed | backend/auth/adapters/db/dbmodels/users.sql.go:134-179 | Over every run an account keeps its email and roles, and never becomes unconfirmed again |
| AccountProvenance.AlwaysASuperAdmin | backend/auth/app/command/disable_account.go:68-87 | Although roles are read before the transaction and super_admins counted in its snapshot, once there is an active super_admin there is one after every run |
| AccountProvenance.PlanIsTrue | backend/auth/app/command/invite_admin.go:55-81 | What a handler has read when it decides to go on holds: an invitation carries a valid admin role and an email, a token its own owner, a session a confirmed owner |
| AccountProvenance.StillTrueAfterMoves | backend/auth/app/command/disable_account.go:57-87 | What a handler has read still holds after whatever other requests commit before its transaction |
| AccountProvenance.CommitMoves | backend/auth/adapters/db/email_confirmation_tokens_repo.go:52-76 | Every transaction moves statuses along allowed edges and keeps write-once columns |
| AccountProvenance.ServedAloneIsARun | backend/auth/app/command/register_account.go:57-123 | Serving one request alone is a run of the interleaved system |
| AccountProvenance.HandledIsARun | backend/auth/app/command/confirm_password_reset.go:57-90 | A handler that reads, lets any run of others happen, and then runs its transaction with any failure in it, is itself a run of the system |
| AccountHandlers.LimitedHandler.Register | backend/auth/app/command/register_account.go:57-123 | Limiter, existence check and creation: a limited request changes no account; any other ends as `Handled` says on whatever store its transaction met, and as `Serve` says when nothing interferes or fails; mails go out only for a request that is planned, and at least one if it is then accepted |
| AccountHandlers.LimitedHandler.ResendConfirmation | backend/auth/app/command/resend_email_verification.go:30-76 | The same for a resend, silent unless the account awaits its confirmation |
| AccountHandlers.LimitedHandler.ForgotPassword | backend/auth/app/command/request_password_reset.go:31-82 | The same for a reset request, silent unless the account is usable |
| AccountHandlers.LimitedHandler.InviteAdmin | backend/auth/app/command/invite_admin.go:37-100 | The same for an invitation: role check, then an admin holding the email is told apart from any other account |
| AccountHandlers.VerifyEmailHandler.Handle | backend/auth/app/command/verify_email.go:35-78 | The same for a confirmation, limited by client; its answers are those of `VerifyEmailAnswered` |
| AccountHandlers.AccountHandler.ConfirmReset | backend/auth/app/command/confirm_password_reset.go:42-96 | The same for a reset, not limited; its answers are those of `ConfirmResetAnswered` |
| AccountHandlers.AccountHandler.AcceptInvitation | backend/auth/app/command/accept_invitation.go:44-110 | The same for an acceptance; its answers are those of `AcceptInvitationAnswered` |
| AccountHandlers.AccountHandler.ChangePassword | backend/auth/app/command/change_password.go:44-105 | The same for a password change; its answers are those of `ChangePasswordAnswered` |
| AccountHandlers.AccountHandler.DisableAccount | backend/auth/app/command/disable_account.go:46-105 | The loop over the roles finds out whether the account is an admin and a super_admin; refusals in the order of the code |
| AccountHandlers.AccountHandler.ReactivateAccount | backend/auth/app/command/reactivate_account.go:37-89 | The same for a reactivation of a disabled admin account |
| AccountAnswers.AcceptedIff | backend/auth/app/command/register_account.go:79-119 | Whatever run of the others a registration, resend or reset request meets between reading and its transaction: it is accepted if and only if there is nothing to do, or the database does not fail, the mail is sent and nobody has committed an account with the email that it registers; a failing mail is named, the other two are internal errors |
| AccountAnswers.HasWorkIff | backend/auth/app/command/request_password_reset.go:49-57 | A registration has something to do if and only if no account has the email, a resend if and only if an account with it awaits its confirmation, a reset request if and only if one with it is confirmed and not disabled; otherwise it is accepted at once |
| AccountAnswers.AnsweredAlikeIff | backend/auth/app/command/register_account.go:79-117 | Two such requests on stores with different accounts, whose transactions meet no database error and lose no race, are answered alike if and only if mail works or both or neither had something to send |
| AccountAnswers.EmailTakenIff | backend/auth/adapters/db/migrations/0001_users.up.sql:18-19 | An email is taken after a run if and only if it was before or the run commits an account with it |
| AccountAnswers.SpentForEver | backend/auth/app/command/accept_invitation.go:67-71 | After any run of other requests a spent token is refused and changes nothing, even where the request read it before it was spent |
| AccountAnswers.AcceptedOnce | backend/auth/app/command/confirm_password_reset.go:57-90 | Of all requests that present one token at most one is accepted, however they overlap |
| AccountAnswers.AlwaysDisabledIff | backend/auth/app/command/reactivate_account.go:70-84 | A disabled account is disabled in every state of a run if and only if the run commits no reactivation of it |
| AccountAnswers.DisabledIsOut | backend/auth/app/command/change_password.go:76-80 | After any run without such a reactivation a disabled account can neither log in nor refresh nor change its password, whatever sessions it has |
| AccountAnswers.ReactivateUndoesDisable | backend/auth/app/command/reactivate_account.go:70-84 | A reactivation after a disable and any run leaves the account as the disable found it, up to a new password, and every session that the disable found revoked; it succeeds unless another reactivation came first |
| AccountDecisions.TokenIsVetted | backend/auth/app/command/accept_invitation.go:59-82 | Of a confirmation, reset or acceptance: an unknown or used token is answered as invalid, an unused one as expired if and only if it has expired, and nothing changes; it is accepted only if its token was unused and unexpired when read, and unused when its transaction met it |
| AccountDecisions.VerifyEmailAnswered | backend/auth/app/command/verify_email.go:49-77 | Each answer of a confirmation, if and only if the token it read and the token and account that its transaction met say so |
| AccountDecisions.VerifyEmailLeaves | backend/auth/adapters/db/email_confirmation_tokens_repo.go:52-77 | An accepted confirmation uses its token and confirms its account, and nothing else |
| AccountDecisions.ConfirmResetAnswered | backend/auth/app/command/confirm_password_reset.go:57-90 | Each answer of a reset, by what it read and met |
| AccountDecisions.ConfirmResetLeaves | backend/auth/adapters/db/password_reset_tokens_repo.go:57-87 | An accepted reset sets the password of the token's owner, ends the owner's sessions and leaves the owner no active reset token |
| AccountDecisions.AcceptInvitationAnswered | backend/auth/app/command/accept_invitation.go:59-105 | Each answer of an acceptance, by what it read and met |
| AccountDecisions.AcceptInvitationLeaves | backend/auth/adapters/db/invitation_tokens_repo.go:76-110 | An accepted invitation adds one account with its email and role, and leaves the email no active invitation |
| AccountDecisions.ChangePasswordAnswered | backend/auth/app/command/change_password.go:67-105 | Absent, disabled and wrong current password are refused if and only if the account read says so, and change nothing; a change is accepted only if the current password verified |
| AccountDecisions.ChangePasswordLeaves | backend/auth/adapters/db/users_repo.go:118-137 | An accepted change sets the password of its account and ends its sessions, and nothing else |
| AccountDecisions.InviteAnswered | backend/auth/app/command/invite_admin.go:55-95 | An invalid role, an admin holding the email and any other account holding it are told apart, each if and only if it is so; an invitation goes out if and only if the email is free and mail and database work |
| AccountDecisions.InviteLeaves | backend/auth/adapters/db/invitation_tokens_repo.go:53-70 | An accepted invitation leaves the email exactly the new token, with the role |
| AccountDecisions.DisableAnswered | backend/auth/app/command/disable_account.go:57-98 | Each answer of a disable by the account it read, and by the active super_admins and the account that its transaction met |
| AccountDecisions.DisableLeaves | backend/auth/adapters/db/admin_account_repo.go:70-101 | An accepted disable disables its account and ends its sessions, and nothing else |
| AccountDecisions.ReactivateAnswered | backend/auth/app/command/reactivate_account.go:48-83 | Each answer of a reactivation by the account it read and met |
| AccountDecisions.ReactivateLeaves | backend/auth/adapters/db/admin_account_repo.go:51-64 | An accepted reactivation enables its account, and changes nothing else |
| AccountDecisions.AcceptedMails | backend/auth/app/command/resend_email_verification.go:46-76 | What an accepted registration, resend or reset request leaves: nothing where there was nothing to do, and otherwise the new account or its owner's one active token |
| AccountDecisions.LogInAnswered | backend/auth/app/command/login.go:101-157 | In the account system: each answer of a login by the account with that email and password, and a session for it if and only if it is confirmed and not disabled |
| AccountDecisions.RefreshAnswered | backend/auth/app/command/refresh_token.go:94-178 | In the account system: each answer of a refresh by the session and account it read and the session it met |
| LogBody.IsSensitiveLogKey | backend/common/http/requestlog.go:51-59 | True if and only if one of the four words is written in the key, each letter small or capital |
| LogBody.SensitiveIff | backend/common/http/requestlog.go:47-59 | A key is sensitive if and only if password, token, secret or email is written in it, letter by letter in either case, dotted I and the Kelvin sign included |
| LogBody.SensitiveInside | backend/common/http/requestlog.go:47-59 | A key that contains one of the words in small letters stays sensitive whatever letters of it are capitals, and so does every key around it |
| LogBody.RedactIsClean | backend/common/http/requestlog.go:85-104 | After redaction no sensitive key at any depth holds anything but the mark |
| LogBody.RedactFixesClean | backend/common/http/requestlog.go:85-104 | Redaction changes a tree if and only if a sensitive key in it holds something else than the mark |
| LogBody.RedactIdempotent | backend/common/http/requestlog.go:85-104 | Redacting twice is redacting once |
| LogBody.RedactHidesExactlyTheSensitive | backend/common/http/requestlog.go:85-104 | Two trees are redacted alike if and only if they differ only under sensitive keys |
| LogBody.ItoaRoundTrip | backend/common/http/truncate.go:46 | The number in a marker can be read back |
| LogBody.TruncatedArray | backend/common/http/truncate.go:42-47 | An array longer than six becomes its first five rewritten, a marker and its last rewritten, and 5 + marker count + 1 is its length |
| LogBody.TruncatedArraysAreShort | backend/common/http/truncate.go:36-56 | No array in a truncated tree is longer than seven |
| LogBody.TruncateKeepsClean | backend/common/http/requestlog.go:140 | Truncating a redacted tree keeps it redacted |
| LogBody.TruncateFixesSettled | backend/common/http/truncate.go:42-47 | Truncation changes a tree unless every array has at most six elements, or seven with the marker for one in its place |
| LogBody.TruncateIdempotentIff | backend/common/http/truncate.go:42-47 | Truncating twice is truncating once if and only if no surviving array was longer than seven |
| LogBody.HeadTailTellsEndsAndLength | backend/common/http/truncate.go:58-61 | Two long texts are shortened alike if and only if they have the same length, first 256 and last 256 bytes |
| LogBody.LogTextHidesTheSensitive | backend/common/http/requestlog.go:63-83 | Bodies that differ only under sensitive keys, or texts of one length that are no JSON object or array, are logged alike |
| LogBody.LogTextIsClean | backend/common/http/requestlog.go:140 | What is logged of a JSON object or array is the print of its redaction if that takes at most 512 bytes, and of the truncation of its redaction otherwise, and clean; it reads back as that tree unless that nests deeper than 10000, which a body that nests at most 9999 deep never leads to |
| LogBody.LogTextOfOthers | backend/common/http/requestlog.go:63-83 | Of a body that is no JSON object or array, scalars included, the log shows its length and nothing else |
| LogBody.ShortenedText | backend/common/http/truncate.go:14-34 | A text of at most 512 bytes stays as it is; of a longer one that is no JSON the first and last 256 bytes stay, around the number of those left out |
| LogBody.TruncateDeepensByOne | backend/common/http/truncate.go:42-47 | Truncation deepens a tree by at most one level |
| LogBody.DeepestTruncationIsUnreadable | backend/common/http/truncate.go:42-47 | A tree of the greatest depth that can be read, whose truncation cannot |
| LogBodyRewrite.RedactValues | backend/common/http/requestlog.go:85-104 | Rewriting a tree of mutable nodes in place leaves a tree, over the same nodes, that stands for the redaction |
| LogBodyRewrite.TruncateArrays | backend/common/http/truncate.go:36-56 | Rewriting in place leaves a tree of the same nodes and new ones that stands for the truncation |
| LogBodyRewrite.Append | backend/common/http/truncate.go:45-47 | Writes into the backing array itself while its capacity lasts, and into a new one otherwise |
| LogBodyRewrite.ShortenInPlace | backend/common/http/truncate.go:45-47 | Appending the marker and the last element to the first five stays in the backing array and does not clobber the last element |
| LogBodyInPlace.ItemApart | backend/common/http/truncate.go:39-41 | Writing a rewritten child back into its array keeps the tree free of shared nodes |
| LogBodyInPlace.FieldApart | backend/common/http/truncate.go:49-51 | The same for a field of an object |

## Left out

- Mail transport: a mail that the mailer reports as failed is taken not to have gone out.
- HTTP layer, JWT and role middleware, generated API code, module wiring, logging and audit text: plumbing. Signing an access token is kept only as a step of a refresh that can fail after the rotation.
- bcrypt, SHA-256, HMAC, RSA and random generation: a token's hash is identified with the token's identifier, limiter keys are not hashed, password verification is a parameter, and new identifiers are parameters that the primary keys check.
- Validation of email, password and empty refresh tokens, and UUID parsing: they only refuse before anything is read.
- PostgreSQL beyond snapshots, row locks, first-updater-wins and unique constraints; Redis beyond keys with expiry. Foreign keys appear only as the lock on the owner of a new token. In the protocols a bulk update is applied at once to the rows that its snapshot shows, and a call reads the clock once.
- The order in which one statement locks several rows of one table is taken to be the same for all statements. Locks of new primary keys and token hashes, which nobody else has, are not modelled.
- Backoff timing, the retry library's total time limit and context cancellation: the number of attempts is kept. A commit that fails is taken to have committed nothing.
- `FailModeLimiter`, the HMAC secret, the constructors of the limiters per endpoint and `RequireRoles`: settled by reading one branch.
- Redis errors: a script or command that fails ends the request with an internal error.
- Deletion of accounts: no code performs it; `deleted_at` is kept as a read filter.
- In `AccountProvenance` a transaction's bulk updates reach any subset of its owner's rows, and the super_admins that a disable has counted are still active at its commit, which `SuperAdminGuard.CountedRowsStillActive` proves.
- In `AccountProvenance` a token row's owner is one type for users and emails; the branches of `PlanOf` for an owner of the wrong kind exist because of that, and the handlers assume the column types.
- In `RefreshProtocol` the other use cases write accounts through an arbitrary update.
- In `AccountHandlers` each use case's handler is a method; those with the same collaborators share a class.
- JSON parsing and printing are parameters; printing is assumed not to fail. Numbers are the bits of a float64.
- `LogBody.Lower` lowers exactly those characters whose lower case can be a letter of a sensitive part.
- Login.LoginHandler.Handle: the account that the lookup by email finds is a parameter, because the accounts of the refresh-token store carry no email.
- AccountAnswers.AcceptedIff: for requests that the limiter lets through, with identifiers that are new; so are the registrations and issues of AccountMail.RegistrationMailStrandedIff and AccountMail.IssueMailStrandedIff.
- AccountDecisions.AcceptInvitationAnswered: with an identifier that is new; so are AccountDecisions.InviteAnswered, AccountDecisions.LogInAnswered and AccountDecisions.RefreshAnswered. How long new tokens are valid is a parameter of the account system.
- LogBody.LogTextOfOthers: for lengths that a signed 64-bit integer holds.
- RefreshBarrier.BarrierSinceSnapshot: assumes that nobody holds a stale live read at the snapshot; RevocationBarrierIff needs no such assumption.
- RefreshContest.ExactlyOneWinner: no contender fails with an error of the database or of signing, after which a token may be used without a pair being answered; the other traffic does not present other tokens of the family, revoke its owner's sessions or change the owner's account, because a rotation of the winner's token can outlive the revocation of the family.
- OneTimeProtocol.SerialKeepsOneActive: assumes that no issue that found no active token commits while its owner has one; AlwaysAtMostOneIff shows that nothing less will do.
- SuperAdminRace.ExactlyOneIsRefused: assumes that no request exhausts its retries, which NeverExhaustsIff decides.
- LockPairs.CanDeadlockPairIff: assumes that the lists of tokens are complete; LockKnots.CanDeadlockIff needs no such assumption.
- Lockout.AtMostNearlyTwiceTheThreshold: takes the check and the record of one attempt together; LoginRace.AtMostGuessBound takes them apart.
- Login.AtMost18GuessesPerWindow: for attempts one at a time without a correct password, because the code lets concurrent attempts pass the check together and a login deletes the count; LoginRace.EighteenIff has both.
- Lockout.LockNeverExtended: takes the check and the record of one attempt together; LockLength.LocksKeepTheirEndIff takes them apart.
- LoginRace.AtMostGuessBound: counts a wrong password when it is recorded, so one whose record fails with an error is not counted.
- LoginRace.GuessBoundAttained: where the lock is longer than the window, only while fewer attempts than the threshold are in flight.
- RefreshStore.RefreshTokenHandler.Handle: errors of the database and of signing, and others' commits between its two reads, are not modelled in the handler; RefreshProtocol has them as steps.
- AccountProvenance.AlwaysASuperAdmin: that the counted super_admins are still active at the commit is taken from SuperAdminGuard.CountedRowsStillActive.
- LogBody.LogTextIsClean: assumes that printed trees of finite numbers and well-formed texts, at most 10000 deep, parse back to themselves, and that parsing yields such trees only.
