/** Account statuses, roles and the rules on them (backend/auth/domain). */
module Domain {
  import opened Basics

  type UserId = nat
  type Email = string

  datatype Status = MailUnverified | Inactive | Disabled | Deleted

  datatype Role = PlainUser | SuperAdmin | Operator | SystemAdmin | Unknown(name: string)

  predicate IsAdminRole(role: Role) {
    role in {SuperAdmin, Operator, SystemAdmin}
  }

  datatype LoginRefusal = EmailNotVerified | AccountDisabled

  /** The status check of a login: only an inactive account, which is confirmed and usable, may log in. */
  function CheckLoginableStatus(status: Status): Option<LoginRefusal> {
    match status
    case Inactive => None
    case Disabled => Some(AccountDisabled)
    case _ => Some(EmailNotVerified)
  }
}
