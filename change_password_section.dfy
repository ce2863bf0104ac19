/** components/profile/change-password-section.tsx: the collapsible password section of the
    security page.  `handleChangePassword` checks the three fields in a guard chain, posts the
    current and new passwords, and clears and closes the section on success.  The server's
    answer is the parameter `response`. */
module ChangePasswordSection {
  import opened JsText

  const AllRequired := "All fields are required"
  const NoMatch := "New passwords do not match"
  const SameAsCurrent := "New password cannot be the same as current password"
  const DefaultFailure := "Failed to change password"
  const Unexpected := "An unexpected error occurred"

  /** How the `fetch` ends: a 2xx answer, a non-2xx answer whose body carries `message`
      ("" when it has none), or an exception. */
  datatype Response = Ok | NotOk(message: string) | Threw

  /** The body posted to /api/profile/password. */
  datatype PasswordChange = PasswordChange(current_password: string, new_password: string)

  /** The error the guard chain stops at, `None` when every guard passes. */
  function GuardError(current: string, proposed: string, confirm: string): (e: Option<string>)
    ensures e == Some(AllRequired) <==> current == "" || proposed == "" || confirm == ""
    ensures e == Some(NoMatch) <==> current != "" && proposed != "" && confirm != "" && proposed != confirm
    ensures e == Some(SameAsCurrent) <==>
      current != "" && proposed != "" && confirm != "" && proposed == confirm && current == proposed
    ensures e.None? <==> current != "" && proposed != "" && proposed == confirm && current != proposed
  {
    if current == "" || proposed == "" || confirm == "" then Some(AllRequired)
    else if proposed != confirm then Some(NoMatch)
    else if current == proposed then Some(SameAsCurrent)
    else None
  }

  class Section {
    var isOpen: bool
    var currentPassword: string
    var newPassword: string
    var confirmPassword: string
    var error: string

    constructor ()
      ensures !isOpen && currentPassword == "" && newPassword == "" && confirmPassword == "" && error == ""
    {
      isOpen, currentPassword, newPassword, confirmPassword, error := false, "", "", "", "";
    }

    /** `handleChangePassword`: returns the request body posted, `None` when a guard stops it. */
    method HandleChangePassword(response: Response) returns (sent: Option<PasswordChange>)
      modifies this
      ensures var g := GuardError(old(currentPassword), old(newPassword), old(confirmPassword));
        && (g.Some? ==>
              && sent == None && error == g.value
              && isOpen == old(isOpen) && currentPassword == old(currentPassword)
              && newPassword == old(newPassword) && confirmPassword == old(confirmPassword))
        && (g.None? ==> sent == Some(PasswordChange(old(currentPassword), old(newPassword))))
      ensures sent.Some? && response == Ok ==>
        currentPassword == "" && newPassword == "" && confirmPassword == "" && !isOpen && error == ""
      ensures sent.Some? && response != Ok ==>
        && isOpen == old(isOpen) && currentPassword == old(currentPassword)
        && newPassword == old(newPassword) && confirmPassword == old(confirmPassword)
        && error == (if response == Threw then Unexpected
                     else if response.message != "" then response.message else DefaultFailure)
    {
      if currentPassword == "" || newPassword == "" || confirmPassword == "" {
        error := AllRequired;
        return None;
      }
      if newPassword != confirmPassword {
        error := NoMatch;
        return None;
      }
      if currentPassword == newPassword {
        error := SameAsCurrent;
        return None;
      }
      error := "";
      sent := Some(PasswordChange(currentPassword, newPassword));
      match response {
        case Threw =>
          error := Unexpected;
        case NotOk(message) =>
          error := if message != "" then message else DefaultFailure;
        case Ok =>
          currentPassword, newPassword, confirmPassword := "", "", "";
          isOpen := false;
      }
    }
  }

  /** A request is only ever sent with a non-empty new password that is confirmed and differs
      from the current one; it never carries the confirmation. */
  lemma SentRequestsAreChecked(current: string, proposed: string, confirm: string)
    requires GuardError(current, proposed, confirm).None?
    ensures proposed != "" && current != "" && proposed == confirm && proposed != current
  {
  }
}
