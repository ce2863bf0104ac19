/** components/auth/signup-form.tsx: the account creation form.  `validateForm` writes one
    error per field into a fresh record, a later write to a field replacing an earlier one;
    `handleSubmit` sends the trimmed name and email with the password as typed.  What the
    auth client answers, and the navigation after it, are not part of this model. */
module SignupForm {
  import opened JsText

  datatype SignupData = SignupData(full_name: string, email: string, password: string, confirm_password: string)

  /** `Partial<SignupFormData>` used as the errors record; `None` is an absent key. */
  datatype SignupErrors = SignupErrors(
    full_name: Option<string>, email: Option<string>, password: Option<string>, confirm_password: Option<string>)

  const NoErrors := SignupErrors(None, None, None, None)

  /** `Object.keys(errors).length` */
  function KeyCount(e: SignupErrors): (n: nat)
    ensures n <= 4 && (n == 0 <==> e == NoErrors)
  {
    (if e.full_name.Some? then 1 else 0) + (if e.email.Some? then 1 else 0)
    + (if e.password.Some? then 1 else 0) + (if e.confirm_password.Some? then 1 else 0)
  }

  const NameRequired := "Full name is required"
  const EmailRequired := "Email is required"
  const PasswordRequired := "Password is required"
  const PasswordTooShort := "Password must be at least 8 characters"
  const Mismatch := "Passwords do not match"

  /** The record `validateForm` builds: a name or email that is nothing but white space is
      missing; for `password` the later length rule wins. */
  function FormErrors(f: SignupData): SignupErrors {
    SignupErrors(
      if IsBlank(f.full_name) then Some(NameRequired) else None,
      if IsBlank(f.email) then Some(EmailRequired) else None,
      if |f.password| < 8 then Some(PasswordTooShort)
      else if f.password == "" then Some(PasswordRequired) else None,
      if f.password != f.confirm_password then Some(Mismatch) else None)
  }

  /** Name and email are refused exactly when they are blank, the password exactly when it is
      shorter than eight characters (always with the length message, "Password is required"
      never being the one left), the confirmation exactly when it differs; the form is valid
      when none of these happen. */
  lemma FormErrorsCharacterized(f: SignupData)
    ensures FormErrors(f).full_name.Some? <==> Trim(f.full_name) == ""
    ensures FormErrors(f).email.Some? <==> Trim(f.email) == ""
    ensures FormErrors(f).password.Some? <==> |f.password| < 8
    ensures FormErrors(f).password != Some(PasswordRequired)
    ensures FormErrors(f).confirm_password.Some? <==> f.password != f.confirm_password
    ensures FormErrors(f) == NoErrors <==>
      !IsBlank(f.full_name) && !IsBlank(f.email) && |f.password| >= 8 && f.password == f.confirm_password
  {
    TrimEmptyIffBlank(f.full_name);
    TrimEmptyIffBlank(f.email);
  }

  /** The body of `authClient.signUp.email`. */
  datatype SignupRequest = SignupRequest(name: string, email: string, password: string)

  function Request(f: SignupData): SignupRequest {
    SignupRequest(Trim(f.full_name), Trim(f.email), f.password)
  }

  /** What a valid form sends: a non-empty name and email with no white space around them,
      and the confirmed password of eight characters or more, unchanged. */
  lemma RequestOfValidForm(f: SignupData)
    requires FormErrors(f) == NoErrors
    ensures var r := Request(f);
      && r.name != "" && r.email != "" && Trim(r.name) == r.name && Trim(r.email) == r.email
      && r.password == f.password == f.confirm_password && |r.password| >= 8
  {
    FormErrorsCharacterized(f);
    TrimEmptyIffBlank(f.full_name);
    TrimEmptyIffBlank(f.email);
    TrimIdempotent(f.full_name);
    TrimIdempotent(f.email);
  }

  /** The live hint under the confirmation field. */
  predicate PasswordsMatch(f: SignupData) { |f.confirm_password| > 0 && f.password == f.confirm_password }
  predicate PasswordsMismatch(f: SignupData) { |f.confirm_password| > 0 && f.password != f.confirm_password }

  /** The two hints never show together, and neither shows exactly while the confirmation is
      empty; once it is not, the mismatch hint agrees with the submit-time check. */
  lemma MatchHints(f: SignupData)
    ensures !(PasswordsMatch(f) && PasswordsMismatch(f))
    ensures !PasswordsMatch(f) && !PasswordsMismatch(f) <==> f.confirm_password == ""
    ensures f.confirm_password != "" ==> (PasswordsMismatch(f) <==> FormErrors(f).confirm_password.Some?)
  {
  }

  /** The plain text inputs, dispatched by `handleChange`. */
  datatype TextField = FullName | Email

  class Form {
    var formData: SignupData
    var errors: SignupErrors
    var globalMessage: Option<string>

    constructor ()
      ensures formData == SignupData("", "", "", "") && errors == NoErrors && globalMessage == None
    {
      formData := SignupData("", "", "", "");
      errors := NoErrors;
      globalMessage := None;
    }

    /** `validateForm` */
    method ValidateForm() returns (valid: bool)
      modifies this
      ensures errors == FormErrors(formData) && formData == old(formData) && globalMessage == old(globalMessage)
      ensures valid <==> errors == NoErrors
    {
      var f := formData;
      var nameBlank := TrimsToEmpty(f.full_name);
      var emailBlank := TrimsToEmpty(f.email);
      var newErrors := NoErrors;
      if nameBlank { newErrors := newErrors.(full_name := Some(NameRequired)); }
      if emailBlank { newErrors := newErrors.(email := Some(EmailRequired)); }
      if f.password == "" { newErrors := newErrors.(password := Some(PasswordRequired)); }
      if |f.password| < 8 { newErrors := newErrors.(password := Some(PasswordTooShort)); }
      if f.password != f.confirm_password { newErrors := newErrors.(confirm_password := Some(Mismatch)); }
      assert newErrors == FormErrors(f);
      errors := newErrors;
      valid := KeyCount(newErrors) == 0;
    }

    /** `handleSubmit` up to the request: returns the body sent, `None` when the form is
        invalid and nothing is sent. */
    method HandleSubmit() returns (sent: Option<SignupRequest>)
      modifies this
      ensures formData == old(formData)
      ensures sent.Some? <==> FormErrors(old(formData)) == NoErrors
      ensures sent.Some? ==> sent.value == Request(formData) && errors == NoErrors && globalMessage == None
      ensures sent.None? ==> errors == FormErrors(formData) && globalMessage == old(globalMessage)
    {
      var f := formData;
      var valid := ValidateForm();
      assert formData == f && errors == FormErrors(f);
      if !valid {
        return None;
      }
      globalMessage := None;
      errors := NoErrors;
      sent := Some(Request(f));
    }

    /** `handleChange` for the name and email inputs. */
    method HandleChange(name: TextField, value: string)
      modifies this
      ensures formData == (if name == FullName then old(formData).(full_name := value) else old(formData).(email := value))
      ensures name == FullName ==> errors == (if IsShown(old(errors).full_name) then old(errors).(full_name := Some("")) else old(errors))
      ensures name == Email ==> errors == (if IsShown(old(errors).email) then old(errors).(email := Some("")) else old(errors))
      ensures globalMessage == (if IsShown(old(globalMessage)) then None else old(globalMessage))
    {
      if name == FullName {
        formData := formData.(full_name := value);
        if IsShown(errors.full_name) { errors := errors.(full_name := Some("")); }
      } else {
        formData := formData.(email := value);
        if IsShown(errors.email) { errors := errors.(email := Some("")); }
      }
      if IsShown(globalMessage) { globalMessage := None; }
    }

    /** `handlePasswordChange`: a shown password error is blanked, and a shown mismatch error
        too once the new password equals the confirmation. */
    method HandlePasswordChange(value: string)
      modifies this
      ensures formData == old(formData).(password := value)
      ensures errors.full_name == old(errors).full_name && errors.email == old(errors).email
      ensures errors.password == (if IsShown(old(errors).password) then Some("") else old(errors).password)
      ensures errors.confirm_password ==
        (if IsShown(old(errors).confirm_password) && value == old(formData).confirm_password then Some("")
         else old(errors).confirm_password)
      ensures globalMessage == (if IsShown(old(globalMessage)) then None else old(globalMessage))
    {
      var confirm := formData.confirm_password;
      formData := formData.(password := value);
      if IsShown(errors.password) { errors := errors.(password := Some("")); }
      if IsShown(errors.confirm_password) && value == confirm {
        errors := errors.(confirm_password := Some(""));
      }
      if IsShown(globalMessage) { globalMessage := None; }
    }

    /** `handleConfirmPasswordChange`: a shown mismatch error is blanked once the confirmation
        equals the password. */
    method HandleConfirmPasswordChange(value: string)
      modifies this
      ensures formData == old(formData).(confirm_password := value)
      ensures errors == (if IsShown(old(errors).confirm_password) && old(formData).password == value
                         then old(errors).(confirm_password := Some("")) else old(errors))
      ensures globalMessage == (if IsShown(old(globalMessage)) then None else old(globalMessage))
    {
      formData := formData.(confirm_password := value);
      if IsShown(errors.confirm_password) && formData.password == value {
        errors := errors.(confirm_password := Some(""));
      }
      if IsShown(globalMessage) { globalMessage := None; }
    }
  }
}
