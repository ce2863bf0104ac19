/** components/profile/password-confirmation-modal.tsx: the dialog that asks for the password
    again before a sensitive action, with a counter of failed attempts.  Whether `onConfirm`
    succeeds is the parameter `accepted`; `onOpenChange(false)` is modelled as the dialog
    closing. */
module PasswordConfirmation {
  import opened JsText

  /** `MAX_ATTEMPTS` */
  const MaxAttempts: nat := 3

  const RequiredMessage := "Password is required"
  const LockoutMessage := "Too many failed attempts. Please try again later."

  /** The message after a failure that leaves `left` attempts. */
  function RemainingMessage(left: int): string {
    "Incorrect password. " + IntToString(left) + " attempts remaining."
  }

  datatype ModalState = ModalState(password: string, error: string, attemptCount: nat, open: bool)

  /** The state after `handleConfirm` completes. */
  function Confirm(s: ModalState, accepted: bool): (r: ModalState)
    ensures s.password == "" ==> r == s.(error := RequiredMessage)
    ensures s.password != "" && accepted ==> r.attemptCount == 0 && r.password == "" && !r.open && r.error == ""
    ensures s.password != "" && !accepted ==> r.attemptCount == s.attemptCount + 1 && r.password == s.password
    ensures r.error == LockoutMessage ==> !r.open && r.attemptCount >= MaxAttempts
  {
    if s.password == "" then
      s.(error := RequiredMessage)
    else if accepted then
      s.(password := "", error := "", attemptCount := 0, open := false)
    else
      var n := s.attemptCount + 1;
      if n >= MaxAttempts then s.(error := LockoutMessage, attemptCount := n, open := false)
      else s.(error := RemainingMessage(MaxAttempts - n), attemptCount := n)
  }

  /** A failure below the limit reports 2 or 1 attempts left and keeps the dialog open; the
      one that reaches the limit closes it with the lockout message. */
  lemma FailureOutcome(s: ModalState)
    requires s.password != ""
    ensures var r := Confirm(s, false);
      && (s.attemptCount + 1 < MaxAttempts ==>
            r.open == s.open && r.error == RemainingMessage(MaxAttempts - r.attemptCount)
            && 1 <= MaxAttempts - r.attemptCount <= 2)
      && (s.attemptCount + 1 >= MaxAttempts ==> r.error == LockoutMessage && !r.open)
  {
  }

  /** Only success resets the counter: once locked out, the next failure locks out again at
      once. */
  lemma LockoutIsSticky(s: ModalState, password: string)
    requires s.attemptCount >= MaxAttempts && password != ""
    ensures Confirm(s.(password := password, open := true), false).error == LockoutMessage
  {
  }

  /** From a fresh dialog, three wrong passwords report 2 attempts remaining, then 1, then
      the lockout message, which closes the dialog. */
  lemma ThreeFailuresLockOut(password: string)
    requires password != ""
    ensures var s0 := ModalState(password, "", 0, true);
      var s1 := Confirm(s0, false);
      var s2 := Confirm(s1, false);
      var s3 := Confirm(s2, false);
      && s1.error == RemainingMessage(2) && s1.open
      && s2.error == RemainingMessage(1) && s2.open
      && s3.error == LockoutMessage && !s3.open && s3.attemptCount == 3
  {
    var s0 := ModalState(password, "", 0, true);
    assert Confirm(s0, false) == ModalState(password, RemainingMessage(2), 1, true);
  }

  class ConfirmationModal {
    var password: string
    var error: string
    var attemptCount: nat
    var open: bool

    function State(): ModalState
      reads this
    {
      ModalState(password, error, attemptCount, open)
    }

    /** The dialog as first shown. */
    constructor ()
      ensures State() == ModalState("", "", 0, true)
    {
      password, error, attemptCount, open := "", "", 0, true;
    }

    /** The password field's `onChange`. */
    method SetPassword(p: string)
      modifies this
      ensures State() == old(State()).(password := p)
    {
      password := p;
    }

    /** The parent sets the `open` prop back to true; the values the dialog keeps in
        `useState` survive, since the component stays mounted. */
    method Reopen()
      modifies this
      ensures State() == old(State()).(open := true)
    {
      open := true;
    }

    /** `handleConfirm`: returns the password handed to `onConfirm`, `None` when it is not
        called. */
    method HandleConfirm(accepted: bool) returns (submitted: Option<string>)
      modifies this
      ensures State() == Confirm(old(State()), accepted)
      ensures submitted == if old(password) == "" then None else Some(old(password))
    {
      if password == "" {
        error := RequiredMessage;
        return None;
      }
      submitted := Some(password);
      error := "";
      if accepted {
        password := "";
        attemptCount := 0;
        open := false;
      } else {
        var newAttemptCount := attemptCount + 1;
        attemptCount := newAttemptCount;
        if newAttemptCount >= MaxAttempts {
          error := LockoutMessage;
          open := false;
        } else {
          error := RemainingMessage(MaxAttempts - newAttemptCount);
        }
      }
    }
  }
}
