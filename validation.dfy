/** The zod schemas of lib/validation.ts, as acceptance predicates.  zod's `.email()` format
    check is not part of this model: its verdict is the parameter `emailFormatOk`. */
module Validation {
  import opened JsText
  import opened RegexClasses
  import opened RuleChecks
  import AuthUtils
  import DbUtils

  /** `passwordSchema`: eight characters or more, an uppercase letter, a lowercase letter, a
      digit and a character that is not an ASCII letter or digit. */
  predicate PasswordSchemaAccepts(p: string) {
    |p| >= 8 && HasUpper(p) && HasLower(p) && HasDigit(p) && HasNonAlnum(p)
  }

  /** `[a-zA-Z0-9_]`: the signup username class, without the hyphen. */
  predicate IsSignupUsernameChar(c: char) { IsAsciiAlnum(c) || c == '_' }

  datatype SignupData = SignupData(
    username: string, full_name: string, email: string, password: string, confirm_password: string)

  /** `signupSchema` */
  predicate SignupSchemaAccepts(d: SignupData, emailFormatOk: bool) {
    && 3 <= |d.username| <= 20
    && (forall i | 0 <= i < |d.username| :: IsSignupUsernameChar(d.username[i]))
    && 2 <= |d.full_name| <= 100
    && emailFormatOk
    && PasswordSchemaAccepts(d.password)
    && d.password == d.confirm_password
  }

  datatype LoginData = LoginData(username: string, password: string)

  /** `loginSchema` */
  predicate LoginSchemaAccepts(d: LoginData) {
    |d.username| >= 3 && |d.password| >= 8
  }

  datatype ChangePasswordData = ChangePasswordData(
    current_password: string, new_password: string, confirm_password: string)

  /** `changePasswordSchema`, both refinements included. */
  predicate ChangePasswordSchemaAccepts(d: ChangePasswordData) {
    && |d.current_password| >= 8
    && PasswordSchemaAccepts(d.new_password)
    && d.new_password == d.confirm_password
    && d.current_password != d.new_password
  }

  /** `otpVerificationSchema`: `.length(6)` and `/^\d+$/`. */
  predicate OtpSchemaAccepts(otp_code: string) {
    |otp_code| == 6 && |otp_code| >= 1 && AllDigits(otp_code)
  }

  /** `passwordSchema` and `validatePassword` of lib/auth-utils.ts accept the same passwords. */
  lemma PasswordSchemaIsValidatePassword(p: string)
    ensures PasswordSchemaAccepts(p) <==> Unmet(AuthUtils.PolicyChecks(p), AuthUtils.PolicyMessages) == []
  {
    AuthUtils.PolicyAccepts(p);
  }

  /** Every signup username is a valid username for lib/db-utils.ts, but "ab-c" is valid
      there and refused at signup: the signup schema leaves out the hyphen. */
  lemma SignupUsernameNarrower(d: SignupData, emailFormatOk: bool)
    ensures SignupSchemaAccepts(d, emailFormatOk) ==> DbUtils.IsValidUsername(d.username)
    ensures DbUtils.IsValidUsername("ab-c")
    ensures !SignupSchemaAccepts(d.(username := "ab-c"), emailFormatOk)
  {
    var u := "ab-c";
    assert !IsSignupUsernameChar(u[2]);
    assert forall i | 0 <= i < |u| :: DbUtils.IsUsernameChar(u[i]);
  }

  /** A signup is refused whenever the password and its confirmation differ, whatever the
      other fields hold, and accepted ones have a password the auth policy accepts. */
  lemma SignupNeedsConfirmation(d: SignupData, emailFormatOk: bool)
    ensures d.password != d.confirm_password ==> !SignupSchemaAccepts(d, emailFormatOk)
    ensures SignupSchemaAccepts(d, emailFormatOk) ==>
      Unmet(AuthUtils.PolicyChecks(d.password), AuthUtils.PolicyMessages) == []
  {
    PasswordSchemaIsValidatePassword(d.password);
  }

  /** An accepted password change has a new password that differs from the current one, is
      confirmed, and passes the auth policy. */
  lemma ChangePasswordAccepted(d: ChangePasswordData)
    requires ChangePasswordSchemaAccepts(d)
    ensures d.new_password != d.current_password && d.confirm_password == d.new_password
    ensures Unmet(AuthUtils.PolicyChecks(d.new_password), AuthUtils.PolicyMessages) == []
  {
    PasswordSchemaIsValidatePassword(d.new_password);
  }

  /** Every code `generateOTP` produces from a draw below one million passes the OTP schema. */
  lemma OtpSchemaAcceptsGenerated(draw: nat)
    requires draw < 1000000
    ensures OtpSchemaAccepts(AuthUtils.GenerateOtp(draw))
  {
    AuthUtils.SixDigitOtp(draw);
  }

  /** The login schema accepts what a signup would have accepted for the same username and
      password. */
  lemma SignupCredentialsLogIn(d: SignupData, emailFormatOk: bool)
    requires SignupSchemaAccepts(d, emailFormatOk)
    ensures LoginSchemaAccepts(LoginData(d.username, d.password))
  {
  }
}
