/** components/auth/login-form.tsx: the sign-in form.  `validateForm` needs a non-blank
    identifier and a non-empty password; `handleSubmit` builds the sign-in payload field by
    field.  What the auth client answers, and the navigation after it, are not part of this
    model. */
module LoginForm {
  import opened JsText
  import Validation

  datatype LoginData = LoginData(email: string, password: string)

  /** `Partial<LoginFormData>` used as the errors record; `None` is an absent key. */
  datatype LoginErrors = LoginErrors(email: Option<string>, password: Option<string>)

  const NoErrors := LoginErrors(None, None)

  /** `Object.keys(errors).length` */
  function KeyCount(e: LoginErrors): (n: nat)
    ensures n <= 2 && (n == 0 <==> e == NoErrors)
  {
    (if e.email.Some? then 1 else 0) + (if e.password.Some? then 1 else 0)
  }

  const EmailRequired := "Email is required"
  const PasswordRequired := "Password is required"

  /** The record `validateForm` builds: an identifier of white space only is missing; the
      password is not trimmed. */
  function FormErrors(f: LoginData): LoginErrors {
    LoginErrors(
      if IsBlank(f.email) then Some(EmailRequired) else None,
      if f.password == "" then Some(PasswordRequired) else None)
  }

  /** The identifier is refused exactly when it is empty after trimming, the password exactly
      when it is empty, so "   " is refused as an identifier and accepted as a password. */
  lemma FormErrorsCharacterized(f: LoginData)
    ensures FormErrors(f).email.Some? <==> Trim(f.email) == ""
    ensures FormErrors(f).password.Some? <==> f.password == ""
    ensures FormErrors(f) == NoErrors <==> Trim(f.email) != "" && f.password != ""
    ensures FormErrors(LoginData("   ", "   ")) == LoginErrors(Some(EmailRequired), None)
  {
    TrimEmptyIffBlank(f.email);
    var blank := "   ";
    assert IsBlank(blank) by { assert IsJsSpace(blank[0]) && IsJsSpace(blank[1]) && IsJsSpace(blank[2]); }
  }

  /** The body of `authClient.signIn.email`. */
  datatype LoginPayload = LoginPayload(password: string, remember: bool, email: string)

  /** The form checks much less than `loginSchema` of lib/validation.ts: "ab" with password
      "x" passes the form and fails the schema. */
  lemma FormWeakerThanSchema()
    ensures FormErrors(LoginData("ab", "x")) == NoErrors
    ensures !Validation.LoginSchemaAccepts(Validation.LoginData("ab", "x"))
  {
    assert !IsBlank("ab") by { assert !IsJsSpace("ab"[0]); }
  }

  /** The plain text input dispatched by `handleChange`. */
  datatype Field = Email | Password

  class Form {
    var formData: LoginData
    var rememberMe: bool
    var errors: LoginErrors
    var globalMessage: Option<string>

    constructor ()
      ensures formData == LoginData("", "") && !rememberMe && errors == NoErrors && globalMessage == None
    {
      formData := LoginData("", "");
      rememberMe := false;
      errors := NoErrors;
      globalMessage := None;
    }

    /** `validateForm` */
    method ValidateForm() returns (valid: bool)
      modifies this
      ensures errors == FormErrors(formData) && formData == old(formData)
      ensures rememberMe == old(rememberMe) && globalMessage == old(globalMessage)
      ensures valid <==> errors == NoErrors
    {
      var f := formData;
      var emailBlank := TrimsToEmpty(f.email);
      var newErrors := NoErrors;
      if emailBlank { newErrors := newErrors.(email := Some(EmailRequired)); }
      if f.password == "" { newErrors := newErrors.(password := Some(PasswordRequired)); }
      errors := newErrors;
      valid := KeyCount(newErrors) == 0;
    }

    /** `handleSubmit` up to the request: returns the payload sent, `None` when the form is
        invalid.  The trimmed identifier goes in `email` whether or not it contains '@'. */
    method HandleSubmit() returns (sent: Option<LoginPayload>)
      modifies this
      ensures formData == old(formData) && rememberMe == old(rememberMe)
      ensures sent.Some? <==> FormErrors(old(formData)) == NoErrors
      ensures sent.Some? ==>
        && sent.value == LoginPayload(formData.password, rememberMe, Trim(formData.email))
        && errors == NoErrors && globalMessage == None
      ensures sent.None? ==> errors == FormErrors(formData) && globalMessage == old(globalMessage)
    {
      var f := formData;
      var valid := ValidateForm();
      assert formData == f && errors == FormErrors(f);
      if !valid {
        return None;
      }
      globalMessage := None;
      errors := NoErrors;
      var identifier := Trim(f.email);
      var looksLikeEmail := '@' in identifier;
      var payload := LoginPayload(f.password, rememberMe, "");
      if looksLikeEmail {
        payload := payload.(email := identifier);
      } else {
        payload := payload.(email := identifier);
      }
      sent := Some(payload);
    }

    /** The "remember me" checkbox. */
    method SetRememberMe(checked: bool)
      modifies this
      ensures rememberMe == checked
      ensures formData == old(formData) && errors == old(errors) && globalMessage == old(globalMessage)
    {
      rememberMe := checked;
    }

    /** `handleChange` and `handlePasswordChange`: the edited field's shown error is blanked,
        the other one kept. */
    method HandleChange(name: Field, value: string)
      modifies this
      ensures formData == (if name == Email then old(formData).(email := value) else old(formData).(password := value))
      ensures name == Email ==> errors == (if IsShown(old(errors).email) then old(errors).(email := Some("")) else old(errors))
      ensures name == Password ==> errors == (if IsShown(old(errors).password) then old(errors).(password := Some("")) else old(errors))
      ensures globalMessage == (if IsShown(old(globalMessage)) then None else old(globalMessage))
      ensures rememberMe == old(rememberMe)
    {
      if name == Email {
        formData := formData.(email := value);
        if IsShown(errors.email) { errors := errors.(email := Some("")); }
      } else {
        formData := formData.(password := value);
        if IsShown(errors.password) { errors := errors.(password := Some("")); }
      }
      if IsShown(globalMessage) { globalMessage := None; }
    }
  }
}
