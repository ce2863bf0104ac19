/** components/profile/edit-profile-form.tsx: the profile form.  It starts from the signed-in
    user's fields, needs all three non-blank, and on submit writes them into the user record
    with a new `updated_at`.  The clock read `new Date().toISOString()` is the parameter
    `timestamp`. */
module EditProfileForm {
  import opened JsText
  import opened Types

  datatype ProfileData = ProfileData(full_name: string, username: string, email: string)

  /** The errors record; `None` is an absent key. */
  datatype ProfileErrors = ProfileErrors(full_name: Option<string>, username: Option<string>, email: Option<string>)

  const NoErrors := ProfileErrors(None, None, None)

  /** `Object.keys(errors).length` */
  function KeyCount(e: ProfileErrors): (n: nat)
    ensures n <= 3 && (n == 0 <==> e == NoErrors)
  {
    (if e.full_name.Some? then 1 else 0) + (if e.username.Some? then 1 else 0) + (if e.email.Some? then 1 else 0)
  }

  const NameRequired := "Full name is required"
  const UsernameRequired := "Username is required"
  const EmailRequired := "Email is required"

  /** The record `validateForm` builds: a field of white space only is missing. */
  function FormErrors(f: ProfileData): ProfileErrors {
    ProfileErrors(
      if IsBlank(f.full_name) then Some(NameRequired) else None,
      if IsBlank(f.username) then Some(UsernameRequired) else None,
      if IsBlank(f.email) then Some(EmailRequired) else None)
  }

  /** Each field is refused exactly when it is empty after trimming; the form is valid
      exactly when none is. */
  lemma FormErrorsCharacterized(f: ProfileData)
    ensures FormErrors(f).full_name.Some? <==> Trim(f.full_name) == ""
    ensures FormErrors(f).username.Some? <==> Trim(f.username) == ""
    ensures FormErrors(f).email.Some? <==> Trim(f.email) == ""
    ensures FormErrors(f) == NoErrors <==> Trim(f.full_name) != "" && Trim(f.username) != "" && Trim(f.email) != ""
  {
    TrimEmptyIffBlank(f.full_name);
    TrimEmptyIffBlank(f.username);
    TrimEmptyIffBlank(f.email);
  }

  /** The user record after a successful submit: the three form values, untrimmed, and the
      new time stamp. */
  function UpdatedUser(u: User, f: ProfileData, timestamp: string): (r: User)
    ensures r.id == u.id && r.avatar_url == u.avatar_url && r.created_at == u.created_at
    ensures r.full_name == f.full_name && r.username == f.username && r.email == f.email
    ensures r.updated_at == timestamp
  {
    u.(full_name := f.full_name, username := f.username, email := f.email, updated_at := timestamp)
  }

  /** Saving the form as it was first filled in changes nothing but the time stamp. */
  lemma UnchangedFormOnlyTouchesTimestamp(u: User, timestamp: string)
    ensures UpdatedUser(u, ProfileData(u.full_name, u.username, u.email), timestamp) == u.(updated_at := timestamp)
  {
  }

  /** The inputs of the form. */
  datatype Field = FullName | Username | Email

  function SetField(f: ProfileData, name: Field, value: string): ProfileData {
    match name
    case FullName => f.(full_name := value)
    case Username => f.(username := value)
    case Email => f.(email := value)
  }

  function ErrorOf(e: ProfileErrors, name: Field): Option<string> {
    match name
    case FullName => e.full_name
    case Username => e.username
    case Email => e.email
  }

  /** `handleChange`'s update of the errors record. */
  function ClearError(e: ProfileErrors, name: Field): (r: ProfileErrors)
    ensures IsShown(ErrorOf(e, name)) ==> ErrorOf(r, name) == Some("")
    ensures !IsShown(ErrorOf(e, name)) ==> r == e
    ensures forall other: Field | other != name :: ErrorOf(r, other) == ErrorOf(e, other)
  {
    if !IsShown(ErrorOf(e, name)) then e
    else match name
      case FullName => e.(full_name := Some(""))
      case Username => e.(username := Some(""))
      case Email => e.(email := Some(""))
  }

  class Form {
    /** The signed-in user of the auth context. */
    var user: Option<User>
    var formData: ProfileData
    var errors: ProfileErrors
    var success: bool

    /** The form filled in from `user`, or empty without one. */
    constructor (user: Option<User>)
      ensures this.user == user && errors == NoErrors && !success
      ensures formData == if user.Some? then ProfileData(user.value.full_name, user.value.username, user.value.email)
                          else ProfileData("", "", "")
    {
      this.user := user;
      formData := if user.Some? then ProfileData(user.value.full_name, user.value.username, user.value.email)
                  else ProfileData("", "", "");
      errors := NoErrors;
      success := false;
    }

    /** `validateForm` */
    method ValidateForm() returns (valid: bool)
      modifies this
      ensures errors == FormErrors(formData) && formData == old(formData)
      ensures user == old(user) && success == old(success)
      ensures valid <==> errors == NoErrors
    {
      var f := formData;
      var nameBlank := TrimsToEmpty(f.full_name);
      var usernameBlank := TrimsToEmpty(f.username);
      var emailBlank := TrimsToEmpty(f.email);
      var newErrors := NoErrors;
      if nameBlank { newErrors := newErrors.(full_name := Some(NameRequired)); }
      if usernameBlank { newErrors := newErrors.(username := Some(UsernameRequired)); }
      if emailBlank { newErrors := newErrors.(email := Some(EmailRequired)); }
      errors := newErrors;
      valid := KeyCount(newErrors) == 0;
    }

    /** `handleSubmit`: returns whether the update went ahead. */
    method HandleSubmit(timestamp: string) returns (saved: bool)
      modifies this
      ensures formData == old(formData) && errors == FormErrors(formData)
      ensures saved <==> FormErrors(formData) == NoErrors
      ensures saved ==> success && user == (if old(user).Some? then Some(UpdatedUser(old(user).value, formData, timestamp)) else None)
      ensures !saved ==> user == old(user) && success == old(success)
    {
      saved := ValidateForm();
      if !saved {
        return;
      }
      success := false;
      if user.Some? {
        user := Some(user.value.(full_name := formData.full_name, username := formData.username,
                                 email := formData.email, updated_at := timestamp));
      }
      success := true;
    }

    /** `handleChange` for the input `name`. */
    method HandleChange(name: Field, value: string)
      modifies this
      ensures formData == SetField(old(formData), name, value)
      ensures errors == ClearError(old(errors), name)
      ensures user == old(user) && success == old(success)
    {
      formData := SetField(formData, name, value);
      if IsShown(ErrorOf(errors, name)) {
        errors := ClearError(errors, name);
      }
    }
  }
}
