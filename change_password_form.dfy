/** components/profile/change-password-form.tsx: the profile form that changes the password.
    `validateForm` writes one error per field into a fresh record, a later write to the same
    field replacing an earlier one; `handleSubmit` clears the form after the (simulated)
    request. */
module ChangePasswordForm {
  import opened JsText

  datatype PasswordFields = PasswordFields(current_password: string, new_password: string, confirm_password: string)

  /** The `name` of an input of the form. */
  datatype Field = CurrentPassword | NewPassword | ConfirmPassword

  function SetField(f: PasswordFields, name: Field, value: string): PasswordFields {
    match name
    case CurrentPassword => f.(current_password := value)
    case NewPassword => f.(new_password := value)
    case ConfirmPassword => f.(confirm_password := value)
  }

  const CurrentRequired := "Current password is required"
  const NewRequired := "New password is required"
  const NewTooShort := "Password must be at least 8 characters"
  const NewNotDifferent := "New password must be different from current password"
  const Mismatch := "Passwords do not match"

  /** The errors record: a field is present (`Some`) or absent (`None`); a present field may
      hold "", which `handleChange` writes to clear a shown error. */
  datatype PasswordErrors = PasswordErrors(
    current_password: Option<string>, new_password: Option<string>, confirm_password: Option<string>)

  const NoErrors := PasswordErrors(None, None, None)

  /** `Object.keys(errors).length` */
  function KeyCount(e: PasswordErrors): (n: nat)
    ensures n <= 3 && (n == 0 <==> e == NoErrors)
  {
    (if e.current_password.Some? then 1 else 0) + (if e.new_password.Some? then 1 else 0)
    + (if e.confirm_password.Some? then 1 else 0)
  }

  /** The error `new_password` ends with: the LAST of its three rules that applies. */
  function NewPasswordError(f: PasswordFields): Option<string> {
    if f.new_password == f.current_password then Some(NewNotDifferent)
    else if |f.new_password| < 8 then Some(NewTooShort)
    else if f.new_password == "" then Some(NewRequired)
    else None
  }

  /** The errors record `validateForm` builds. */
  function FormErrors(f: PasswordFields): PasswordErrors {
    PasswordErrors(
      if f.current_password == "" then Some(CurrentRequired) else None,
      NewPasswordError(f),
      if f.new_password != f.confirm_password then Some(Mismatch) else None)
  }

  /** The form is valid, i.e. the record is empty, exactly when the current password is
      given, the new one has eight characters or more, differs from the current one and is
      confirmed; and each field's error appears exactly when its own condition fails. */
  lemma FormErrorsCharacterized(f: PasswordFields)
    ensures FormErrors(f) == NoErrors <==>
      && f.current_password != "" && |f.new_password| >= 8
      && f.new_password != f.current_password && f.new_password == f.confirm_password
    ensures FormErrors(f).current_password.Some? <==> f.current_password == ""
    ensures FormErrors(f).confirm_password.Some? <==> f.new_password != f.confirm_password
    ensures FormErrors(f).new_password.Some? <==> |f.new_password| < 8 || f.new_password == f.current_password
  {
  }

  /** As written, "New password is required" is never the message shown: an empty new
      password is also shorter than eight characters, and that write comes later.  It reads
      "Password must be at least 8 characters", or, when the current password is empty too,
      "New password must be different from current password". */
  lemma NewRequiredNeverShown(f: PasswordFields)
    ensures NewPasswordError(f) != Some(NewRequired)
    ensures f.new_password == "" && f.current_password != "" ==> NewPasswordError(f) == Some(NewTooShort)
    ensures f.new_password == "" && f.current_password == "" ==> NewPasswordError(f) == Some(NewNotDifferent)
  {
  }

  /** `errors[name]` read as a JavaScript truthy value. */
  function ErrorOf(e: PasswordErrors, name: Field): Option<string> {
    match name
    case CurrentPassword => e.current_password
    case NewPassword => e.new_password
    case ConfirmPassword => e.confirm_password
  }

  /** A shown error of the edited field is blanked; every other field keeps its error. */
  function ClearError(e: PasswordErrors, name: Field): (r: PasswordErrors)
    ensures ErrorOf(e, name).Some? && ErrorOf(e, name).value != "" ==> ErrorOf(r, name) == Some("")
    ensures !(ErrorOf(e, name).Some? && ErrorOf(e, name).value != "") ==> r == e
    ensures forall other: Field | other != name :: ErrorOf(r, other) == ErrorOf(e, other)
  {
    if ErrorOf(e, name).Some? && ErrorOf(e, name).value != "" then
      match name
      case CurrentPassword => e.(current_password := Some(""))
      case NewPassword => e.(new_password := Some(""))
      case ConfirmPassword => e.(confirm_password := Some(""))
    else e
  }

  // ----- the order evidently intended --------------------------------------------

  /** The first applicable rule for `new_password`, as an `else if` chain would give it. */
  function IntendedNewPasswordError(f: PasswordFields): (e: Option<string>)
    ensures f.new_password == "" ==> e == Some(NewRequired)
    ensures e.None? <==> NewPasswordError(f).None?
  {
    if f.new_password == "" then Some(NewRequired)
    else if |f.new_password| < 8 then Some(NewTooShort)
    else if f.new_password == f.current_password then Some(NewNotDifferent)
    else None
  }

  function IntendedFormErrors(f: PasswordFields): PasswordErrors {
    FormErrors(f).(new_password := IntendedNewPasswordError(f))
  }

  /** With the intended order the form accepts exactly the same submissions, and an empty new
      password is reported as missing. */
  lemma IntendedOrderSameVerdict(f: PasswordFields)
    ensures IntendedFormErrors(f) == NoErrors <==> FormErrors(f) == NoErrors
    ensures f.new_password == "" ==> IntendedFormErrors(f).new_password == Some(NewRequired)
    ensures KeyCount(IntendedFormErrors(f)) == KeyCount(FormErrors(f))
  {
  }

  class Form {
    var formData: PasswordFields
    var errors: PasswordErrors
    var success: bool

    constructor ()
      ensures formData == PasswordFields("", "", "") && errors == NoErrors && !success
    {
      formData := PasswordFields("", "", "");
      errors := NoErrors;
      success := false;
    }

    /** `validateForm` */
    method ValidateForm() returns (valid: bool)
      modifies this
      ensures errors == FormErrors(formData) && formData == old(formData) && success == old(success)
      ensures valid <==> errors == NoErrors
    {
      var f := formData;
      var newErrors := NoErrors;
      if f.current_password == "" { newErrors := newErrors.(current_password := Some(CurrentRequired)); }
      if f.new_password == "" { newErrors := newErrors.(new_password := Some(NewRequired)); }
      if |f.new_password| < 8 { newErrors := newErrors.(new_password := Some(NewTooShort)); }
      if f.new_password == f.current_password { newErrors := newErrors.(new_password := Some(NewNotDifferent)); }
      if f.new_password != f.confirm_password { newErrors := newErrors.(confirm_password := Some(Mismatch)); }
      errors := newErrors;
      valid := KeyCount(newErrors) == 0;
    }

    /** `handleChange` for the input `name` */
    method HandleChange(name: Field, value: string)
      modifies this
      ensures formData == SetField(old(formData), name, value)
      ensures errors == ClearError(old(errors), name) && success == old(success)
    {
      formData := SetField(formData, name, value);
      if ErrorOf(errors, name).Some? && ErrorOf(errors, name).value != "" {
        errors := ClearError(errors, name);
      }
    }

    /** `handleSubmit`: an invalid form is left as it is; a valid one is cleared once the
        request completes.  Returns whether the request was made. */
    method HandleSubmit() returns (submitted: bool)
      modifies this
      ensures errors == FormErrors(old(formData))
      ensures submitted <==> FormErrors(old(formData)) == NoErrors
      ensures submitted ==> formData == PasswordFields("", "", "") && success
      ensures !submitted ==> formData == old(formData) && success == old(success)
    {
      submitted := ValidateForm();
      if !submitted {
        return;
      }
      success := true;
      formData := PasswordFields("", "", "");
    }
  }
}
