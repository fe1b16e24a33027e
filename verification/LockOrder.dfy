/**
 The row locks that transactions on accounts and their tokens wait for, and when they can deadlock.

 A disable of a super_admin locks user rows FOR UPDATE; an insert of a token needs its owner's row in share
 mode because of the foreign key; a consume locks its own one-time token before it sweeps the others of its
 owner. One statement locks several rows of a table in one common order.
 */
module LockOrder {
  import opened Basics
  import opened Domain
  import opened RowLocks
  import OT = OneTimeTokens
  import AS = AccountStore

  datatype Program =
    | DisableSuper(target: UserId, supers: seq<UserId>, tokens: seq<TokenId>)
    | UpdateUser(user: UserId, tokens: seq<TokenId>)      // other disables, reactivations and password changes
    | ResetPassword(user: UserId, own: OneTimeId, swept: seq<OneTimeId>, tokens: seq<TokenId>)
    | AcceptInvitation(email: Email, own: OneTimeId, swept: seq<OneTimeId>)
    | ConfirmEmail(user: UserId, own: OneTimeId)
    | IssueForUser(kind: AS.Kind, user: UserId, swept: seq<OneTimeId>)
    | IssueInvitation(email: Email, swept: seq<OneTimeId>)
    | Register(email: Email)
    | Rotate(token: TokenId)
    | RevokeTokens(owner: UserId, tokens: seq<TokenId>)   // of a family, or a single one
    | SaveToken(user: UserId)                             // a login

  /** Locks of several rows of one table, taken by updates. */
  function OneTimeLocks(ids: seq<OneTimeId>): (r: seq<Lock>)
    ensures |r| == |ids| && forall i :: 0 <= i < |ids| ==> r[i] == Lock(OneTimeRow(ids[i]), NoKeyUpdate)
  {
    seq(|ids|, i requires 0 <= i < |ids| => Lock(OneTimeRow(ids[i]), NoKeyUpdate))
  }

  function UserLocks(users: seq<UserId>): (r: seq<Lock>)
    ensures |r| == |users| && forall i :: 0 <= i < |users| ==> r[i] == Lock(UserRow(users[i]), ForUpdate)
  {
    seq(|users|, i requires 0 <= i < |users| => Lock(UserRow(users[i]), ForUpdate))
  }

  function TokenLocks(tokens: seq<TokenId>): (r: seq<Lock>)
    ensures |r| == |tokens| && forall i :: 0 <= i < |tokens| ==> r[i] == Lock(TokenRow(tokens[i]), NoKeyUpdate)
  {
    seq(|tokens|, i requires 0 <= i < |tokens| => Lock(TokenRow(tokens[i]), NoKeyUpdate))
  }

  /** The one-time tokens a transaction locks, in its order: its own first, if it consumes one. */
  function Order(p: Program): seq<OneTimeId> {
    match p
    case ResetPassword(_, own, swept, _) => [own] + swept
    case AcceptInvitation(_, own, swept) => [own] + swept
    case ConfirmEmail(_, own) => [own]
    case IssueForUser(_, _, swept) => swept
    case IssueInvitation(_, swept) => swept
    case _ => []
  }

  predicate Consumes(p: Program) { p.ResetPassword? || p.AcceptInvitation? || p.ConfirmEmail? }

  /** The locks that it takes after those. */
  function LaterLocks(p: Program, owners: map<TokenId, UserId>): seq<Lock>
  {
    match p
    case DisableSuper(target, supers, tokens) => UserLocks(supers) + [Lock(UserRow(target), NoKeyUpdate)] + TokenLocks(tokens)
    case UpdateUser(user, tokens) => [Lock(UserRow(user), NoKeyUpdate)] + TokenLocks(tokens)
    case ResetPassword(user, _, _, tokens) => [Lock(UserRow(user), NoKeyUpdate)] + TokenLocks(tokens)
    case AcceptInvitation(email, _, _) => [Lock(EmailKey(email), ForUpdate)]
    case ConfirmEmail(user, _) => [Lock(UserRow(user), NoKeyUpdate)]
    case IssueForUser(_, user, _) => [Lock(UserRow(user), KeyShare)]
    case IssueInvitation(_, _) => []
    case Register(email) => [Lock(EmailKey(email), ForUpdate)]
    case Rotate(token) =>
      [Lock(TokenRow(token), NoKeyUpdate)] + if token in owners then [Lock(UserRow(owners[token]), KeyShare)] else []
    case RevokeTokens(_, tokens) => TokenLocks(tokens)
    case SaveToken(user) => [Lock(UserRow(user), KeyShare)]
  }

  /** The locks a transaction takes, in order. */
  function Locks(p: Program, owners: map<TokenId, UserId>): seq<Lock>
  {
    OneTimeLocks(Order(p)) + LaterLocks(p, owners)
  }

  predicate OwnedBy(tokens: seq<TokenId>, user: UserId, owners: map<TokenId, UserId>) {
    forall i :: 0 <= i < |tokens| ==> tokens[i] in owners && owners[tokens[i]] == user
  }

  /** One-time tokens that supersede each other. */
  datatype Group = Group(kind: AS.Kind, owner: OT.Owner)

  predicate Grouped(ids: seq<OneTimeId>, group: Group, groups: map<OneTimeId, Group>) {
    forall i :: 0 <= i < |ids| ==> ids[i] in groups && groups[ids[i]] == group
  }

  /** The group of the one-time tokens that a transaction locks; in the last case it locks none. */
  function GroupOf(p: Program): Group {
    match p
    case ResetPassword(user, _, _, _) => Group(AS.PasswordReset, OT.OfUser(user))
    case AcceptInvitation(email, _, _) => Group(AS.Invitation, OT.OfEmail(email))
    case ConfirmEmail(user, _) => Group(AS.Confirmation, OT.OfUser(user))
    case IssueForUser(kind, user, _) => Group(kind, OT.OfUser(user))
    case IssueInvitation(email, _) => Group(AS.Invitation, OT.OfEmail(email))
    case _ => Group(AS.Invitation, OT.OfEmail(""))
  }

  /** Each statement takes its rows in ascending order; a sweep does not find the token that was just consumed. */
  predicate ValidProgram(p: Program, owners: map<TokenId, UserId>, groups: map<OneTimeId, Group>) {
    && Grouped(Order(p), GroupOf(p), groups)
    && (if Consumes(p) then Ascending(Order(p)[1..]) && Order(p)[0] !in Order(p)[1..] else Ascending(Order(p)))
    && match p
       case DisableSuper(target, supers, tokens) =>
         Ascending(supers) && target in supers && Ascending(tokens) && OwnedBy(tokens, target, owners)
       case UpdateUser(user, tokens) => Ascending(tokens) && OwnedBy(tokens, user, owners)
       case ResetPassword(user, _, _, tokens) => Ascending(tokens) && OwnedBy(tokens, user, owners)
       case Rotate(token) => token in owners
       case RevokeTokens(owner, tokens) => Ascending(tokens) && OwnedBy(tokens, owner, owners)
       case _ => true
  }

  datatype System = System(programs: map<TxId, Program>, owners: map<TokenId, UserId>, groups: map<OneTimeId, Group>)
  {
    predicate Valid() {
      forall i {:trigger ValidProgram(programs[i], owners, groups)} :: i in programs ==> ValidProgram(programs[i], owners, groups)
    }

    function Orders(): Orders { map i | i in programs :: Locks(programs[i], owners) }
  }

  // ---- In which order locks are taken ----

  function Tier(row: Row): nat {
    match row
    case OneTimeRow(_) => 0
    case UserRow(_) => 1
    case TokenRow(_) => 2
    case EmailKey(_) => 3
  }

  function IdOf(row: Row): nat {
    match row
    case OneTimeRow(id) => id
    case UserRow(user) => user
    case TokenRow(token) => token
    case EmailKey(_) => 0
  }

  /** The order in which all transactions but rotations and consumes take their rows. */
  predicate Before(a: Row, b: Row) { Tier(a) < Tier(b) || (Tier(a) == Tier(b) && IdOf(a) < IdOf(b)) }

  lemma JoinAscends(order: seq<OneTimeId>, later: seq<Lock>, k: nat, m: nat)
    requires (forall lock :: lock in later ==> !lock.row.OneTimeRow?) && k < m < |order| + |later|
    ensures var locks := OneTimeLocks(order) + later;
            || Before(locks[k].row, locks[m].row)
            || (m < |order| && order[k] >= order[m])
            || (k >= |order| && !Before(later[k - |order|].row, later[m - |order|].row))
  {
    var locks := OneTimeLocks(order) + later;
    if k < |order| <= m {
      assert locks[m] == later[m - |order|] && later[m - |order|] in later;
    }
  }

  lemma LaterLocksAreOthers(p: Program, owners: map<TokenId, UserId>)
    ensures forall lock :: lock in LaterLocks(p, owners) ==> !lock.row.OneTimeRow?
  {
  }

  /** Number `m` of a disable of a super_admin: the target's row, locked already, is updated. */
  predicate UpdatesTarget(p: Program, m: int) { p.DisableSuper? && m == |p.supers| }

  lemma LaterLocksAscend(p: Program, owners: map<TokenId, UserId>, groups: map<OneTimeId, Group>, k: nat, m: nat)
    requires ValidProgram(p, owners, groups) && k < m < |LaterLocks(p, owners)|
    ensures Before(LaterLocks(p, owners)[k].row, LaterLocks(p, owners)[m].row) || p.Rotate? || UpdatesTarget(p, m)
  {
  }

  /** A transaction takes its rows in order, but for rotations, a consume's own token, and a row it has locked already. */
  lemma LocksAscend(p: Program, owners: map<TokenId, UserId>, groups: map<OneTimeId, Group>, k: nat, m: nat)
    requires ValidProgram(p, owners, groups) && k < m < |Locks(p, owners)|
    ensures || Before(Locks(p, owners)[k].row, Locks(p, owners)[m].row)
            || p.Rotate? || UpdatesTarget(p, m) || (Consumes(p) && k == 0 && m < |Order(p)|)
  {
    var n := |Order(p)|;
    LaterLocksAreOthers(p, owners);
    JoinAscends(Order(p), LaterLocks(p, owners), k, m);
    if k >= n {
      LaterAscend(p, owners, groups, k - n, m - n);
    } else if m < n {
      OrderAscends(p, owners, groups, k, m);
    }
  }

  lemma LaterAscend(p: Program, owners: map<TokenId, UserId>, groups: map<OneTimeId, Group>, k: nat, m: nat)
    requires ValidProgram(p, owners, groups) && k < m < |LaterLocks(p, owners)|
    ensures Before(LaterLocks(p, owners)[k].row, LaterLocks(p, owners)[m].row) || p.Rotate? || UpdatesTarget(p, |Order(p)| + m)
  {
    LaterLocksAscend(p, owners, groups, k, m);
    if p.DisableSuper? {
      assert Order(p) == [];
    }
  }

  lemma OrderAscends(p: Program, owners: map<TokenId, UserId>, groups: map<OneTimeId, Group>, k: nat, m: nat)
    requires ValidProgram(p, owners, groups) && k < m < |Order(p)|
    ensures Order(p)[k] < Order(p)[m] || (Consumes(p) && k == 0)
  {
    if Consumes(p) && k > 0 {
      assert Order(p)[k] == Order(p)[1..][k - 1] && Order(p)[m] == Order(p)[1..][m - 1];
    }
  }

  // ---- What a transaction that waits holds ----

  function UserOf(p: Program): UserId
    requires p.DisableSuper? || p.UpdateUser? || p.ResetPassword?
  {
    match p
    case DisableSuper(target, _, _) => target
    case UpdateUser(user, _) => user
    case ResetPassword(user, _, _, _) => user
  }

  predicate UpdatesAndRevokes(p: Program) { p.DisableSuper? || p.UpdateUser? || p.ResetPassword? }

  /** A transaction that has an account row and goes on is a disable, a password change or a reset. */
  lemma UserHolder(p: Program, owners: map<TokenId, UserId>, groups: map<OneTimeId, Group>, k: nat, m: nat)
    requires ValidProgram(p, owners, groups) && k < m < |Locks(p, owners)| && Locks(p, owners)[k].row.UserRow?
    ensures UpdatesAndRevokes(p)
    ensures Locks(p, owners)[k].mode.ForUpdate? ==> p.DisableSuper?
  {
  }

  lemma DisableLocksTarget(p: Program, owners: map<TokenId, UserId>, groups: map<OneTimeId, Group>) returns (k: nat)
    requires ValidProgram(p, owners, groups) && p.DisableSuper?
    ensures k < |p.supers| <= |Locks(p, owners)| && Locks(p, owners)[k] == Lock(UserRow(p.target), ForUpdate)
  {
    k :| 0 <= k < |p.supers| && p.supers[k] == p.target;
    assert Locks(p, owners)[k] == LaterLocks(p, owners)[k];
  }

  /** Before it takes tokens it has the row of its user, in a mode that excludes others' updates. */
  lemma UserFirst(p: Program, owners: map<TokenId, UserId>, groups: map<OneTimeId, Group>, m: nat) returns (k: nat)
    requires ValidProgram(p, owners, groups) && UpdatesAndRevokes(p) && m < |Locks(p, owners)|
    requires Locks(p, owners)[m].row.TokenRow?
    ensures k < m && Locks(p, owners)[k].row == UserRow(UserOf(p)) && !Locks(p, owners)[k].mode.KeyShare?
  {
    if p.DisableSuper? {
      k := DisableLocksTarget(p, owners, groups);
    } else {
      k := |Order(p)|;
      assert Locks(p, owners)[k] == LaterLocks(p, owners)[0] == Lock(UserRow(UserOf(p)), NoKeyUpdate);
    }
    TokensComeLast(p, owners, groups, k, m);
  }

  lemma TokensComeLast(p: Program, owners: map<TokenId, UserId>, groups: map<OneTimeId, Group>, k: nat, m: nat)
    requires ValidProgram(p, owners, groups) && UpdatesAndRevokes(p) && k < |Locks(p, owners)| && m < |Locks(p, owners)|
    requires Locks(p, owners)[k].row.UserRow? && Locks(p, owners)[m].row.TokenRow?
    ensures k < m && Locks(p, owners)[m].row.token in owners && owners[Locks(p, owners)[m].row.token] == UserOf(p)
  {
    var n := |Order(p)|;
    OrderIsFirst(p, owners, k);
    OrderIsFirst(p, owners, m);
    LaterTokensComeLast(p, owners, groups, k - n, m - n);
  }

  lemma OrderIsFirst(p: Program, owners: map<TokenId, UserId>, k: nat)
    requires k < |Locks(p, owners)| && !Locks(p, owners)[k].row.OneTimeRow?
    ensures |Order(p)| <= k && k - |Order(p)| < |LaterLocks(p, owners)| && Locks(p, owners)[k] == LaterLocks(p, owners)[k - |Order(p)|]
  {
  }

  lemma LaterTokensComeLast(p: Program, owners: map<TokenId, UserId>, groups: map<OneTimeId, Group>, k: nat, m: nat)
    requires ValidProgram(p, owners, groups) && UpdatesAndRevokes(p) && k < |LaterLocks(p, owners)| && m < |LaterLocks(p, owners)|
    requires LaterLocks(p, owners)[k].row.UserRow? && LaterLocks(p, owners)[m].row.TokenRow?
    ensures k < m && LaterLocks(p, owners)[m].row.token in owners && owners[LaterLocks(p, owners)[m].row.token] == UserOf(p)
  {
  }

  /** A transaction that has a token and goes on takes another token of its owner, or rotates it and takes the owner's row. */
  lemma TokenHolder(p: Program, owners: map<TokenId, UserId>, groups: map<OneTimeId, Group>, k: nat, m: nat)
    requires ValidProgram(p, owners, groups) && k < m < |Locks(p, owners)| && Locks(p, owners)[k].row.TokenRow?
    ensures var locks, token := Locks(p, owners), Locks(p, owners)[k].row.token;
            && token in owners
            && (p.Rotate? ==> k == 0 && m == 1 && p.token == token && locks[1] == Lock(UserRow(owners[token]), KeyShare))
            && (!p.Rotate? ==> locks[m].row.TokenRow? && locks[m].row.token in owners && owners[locks[m].row.token] == owners[token])
            && (!p.Rotate? ==> UpdatesAndRevokes(p) || p == RevokeTokens(owners[token], p.tokens))
  {
  }

  lemma OneTimeHolder(p: Program, owners: map<TokenId, UserId>, groups: map<OneTimeId, Group>, k: nat)
    requires ValidProgram(p, owners, groups) && k < |Locks(p, owners)| && Locks(p, owners)[k].row.OneTimeRow?
    ensures k < |Order(p)| && Locks(p, owners)[k].row.id == Order(p)[k]
    ensures Order(p)[k] in groups && groups[Order(p)[k]] == GroupOf(p)
  {
    LaterLocksAreOthers(p, owners);
    forall i | |Order(p)| <= i < |Locks(p, owners)| ensures !Locks(p, owners)[i].row.OneTimeRow? {
      assert Locks(p, owners)[i] in LaterLocks(p, owners);
    }
  }
}
