// Password expiry (utils/auth.py): which date a password's age is counted from, when it
// has expired, and whether the user is asked to change it. Dates are integer seconds; an
// attribute the user object may lack is an `Option` (`None` when `hasattr` is false).
module AuthUtils {
  import opened Wrappers

  /** The fields of a user that the expiry rules read. */
  datatype PasswordUser = PasswordUser(
    passwordLastChanged: Option<int>, isTemporaryPassword: Option<bool>, lastLogin: Option<int>, dateJoined: int)

  const DefaultExpiryDays := 90
  const SecondsPerDay := 86400

  const ExpiredReason := "Your password has expired and must be changed."
  const TemporaryReason := "You are using a temporary password and must change it."

  /** The date the password's age is counted from. */
  function ReferenceDate(u: PasswordUser): (r: int)
    ensures u.passwordLastChanged.Some? ==> r == u.passwordLastChanged.value
    ensures u.passwordLastChanged.None? && u.lastLogin.Some? ==> r == u.lastLogin.value
    ensures u.passwordLastChanged.None? && u.lastLogin.None? ==> r == u.dateJoined
  {
    if u.passwordLastChanged.Some? then u.passwordLastChanged.value
    else if u.lastLogin.Some? then u.lastLogin.value
    else u.dateJoined
  }

  /** `is_password_expired` with `PASSWORD_EXPIRY_DAYS` as `expiryDays`. */
  function IsPasswordExpired(u: PasswordUser, now: int, expiryDays: int): (r: bool)
    ensures expiryDays <= 0 ==> !r
    ensures expiryDays > 0 ==> (r <==> now > ReferenceDate(u) + expiryDays * SecondsPerDay)
  {
    if expiryDays <= 0 then false
    else now > ReferenceDate(u) + expiryDays * SecondsPerDay
  }

  /** A password that has expired stays expired as time goes on; at the very expiry
      instant it has not yet expired. */
  lemma ExpiryMonotone(u: PasswordUser, now: int, later: int, expiryDays: int)
    requires IsPasswordExpired(u, now, expiryDays) && now <= later
    ensures IsPasswordExpired(u, later, expiryDays)
    ensures !IsPasswordExpired(u, ReferenceDate(u) + expiryDays * SecondsPerDay, expiryDays)
  {
  }

  /** `should_change_password`: expiry first, then the temporary flag. */
  function ShouldChangePassword(u: PasswordUser, now: int, expiryDays: int): (r: (bool, Option<string>))
    ensures IsPasswordExpired(u, now, expiryDays) ==> r == (true, Some(ExpiredReason))
    ensures !IsPasswordExpired(u, now, expiryDays) && u.isTemporaryPassword == Some(true)
            ==> r == (true, Some(TemporaryReason))
    ensures r.0 <==> IsPasswordExpired(u, now, expiryDays) || u.isTemporaryPassword == Some(true)
    ensures !r.0 ==> r.1.None?
  {
    if IsPasswordExpired(u, now, expiryDays) then (true, Some(ExpiredReason))
    else if u.isTemporaryPassword.Some? && u.isTemporaryPassword.value then (true, Some(TemporaryReason))
    else (false, None)
  }
}
