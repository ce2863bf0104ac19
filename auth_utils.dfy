/** lib/auth-utils.ts: the password rule list of `validatePassword`, `validateEmail`, the
    formatting half of `generateOTP` (the random draw is a parameter), and the two expiry
    constants. */
module AuthUtils {
  import opened JsText
  import opened RegexClasses
  import opened RuleChecks
  import DbUtils

  datatype PasswordCheck = PasswordCheck(valid: bool, errors: seq<string>)

  /** The five rules of `validatePassword`, in test order; "special" is `[^a-zA-Z0-9]`. */
  function PolicyChecks(password: string): seq<bool> {
    [|password| >= 8, HasLower(password), HasUpper(password), HasDigit(password), HasNonAlnum(password)]
  }

  const PolicyMessages: seq<string> := [
    "Password must be at least 8 characters long",
    "Password must contain at least one lowercase letter",
    "Password must contain at least one uppercase letter",
    "Password must contain at least one digit",
    "Password must contain at least one special character"]

  /** `validatePassword`: one error per broken rule, in rule order; valid when there is none. */
  method ValidatePassword(password: string) returns (r: PasswordCheck)
    ensures r.errors == Unmet(PolicyChecks(password), PolicyMessages)
    ensures r.valid <==> r.errors == []
  {
    var errors: seq<string> := [];
    ghost var checks := PolicyChecks(password);
    if |password| < 8 {
      errors := errors + ["Password must be at least 8 characters long"];
    }
    assert errors == FailedAmong(checks, PolicyMessages, 1);
    if !HasLower(password) {
      errors := errors + ["Password must contain at least one lowercase letter"];
    }
    assert errors == FailedAmong(checks, PolicyMessages, 2);
    if !HasUpper(password) {
      errors := errors + ["Password must contain at least one uppercase letter"];
    }
    assert errors == FailedAmong(checks, PolicyMessages, 3);
    if !HasDigit(password) {
      errors := errors + ["Password must contain at least one digit"];
    }
    assert errors == FailedAmong(checks, PolicyMessages, 4);
    if !HasNonAlnum(password) {
      errors := errors + ["Password must contain at least one special character"];
    }
    assert errors == FailedAmong(checks, PolicyMessages, 5);
    r := PasswordCheck(|errors| == 0, errors);
  }

  /** A password passes exactly when it has eight characters or more, a lowercase letter, an
      uppercase letter, a digit and a character that is not an ASCII letter or digit; there
      are never more than five errors. */
  lemma PolicyAccepts(password: string)
    ensures Unmet(PolicyChecks(password), PolicyMessages) == [] <==>
      |password| >= 8 && HasLower(password) && HasUpper(password) && HasDigit(password)
      && HasNonAlnum(password)
    ensures |Unmet(PolicyChecks(password), PolicyMessages)| <= 5
  {
    var c := PolicyChecks(password);
    UnmetEmptyIffAllPass(c, PolicyMessages);
    ScorePlusFeedback(c, PolicyMessages);
    assert c[0] == (|password| >= 8) && c[1] == HasLower(password) && c[2] == HasUpper(password);
    assert c[3] == HasDigit(password) && c[4] == HasNonAlnum(password);
  }

  /** The first error reported names the first rule broken: a short password always hears
      about its length first. */
  lemma ShortPasswordLengthFirst(password: string)
    requires |password| < 8
    ensures Unmet(PolicyChecks(password), PolicyMessages) != []
    ensures Unmet(PolicyChecks(password), PolicyMessages)[0] == "Password must be at least 8 characters long"
  {
    UnmetFirst(PolicyChecks(password), PolicyMessages, 0);
  }

  /** `validateEmail`: the same pattern as `isValidEmail` of lib/db-utils.ts. */
  predicate ValidateEmail(email: string) { MatchesEmailPattern(email) }

  /** The two email checks agree on every input. */
  lemma EmailChecksAgree(email: string)
    ensures ValidateEmail(email) <==> DbUtils.IsValidEmail(email)
  {
  }

  // ----- generateOTP -----------------------------------------------------------------

  /** `generateOTP(length)` with `Math.floor(Math.random() * 10 ** length)` passed in as
      `draw`: the draw in decimal, left-padded with '0' to `length` characters. */
  function GenerateOtp(draw: nat, length: nat := 6): (otp: string)
    ensures AllDigits(otp) && DecimalValue(otp) == draw
    ensures |otp| >= length && |otp| >= 1
    ensures length >= 1 && draw < Pow10(length) ==> |otp| == length
    ensures draw >= Pow10(length) ==> |otp| > length
  {
    PaddedDecimal(draw, length);
    PadStart(NatToString(draw), length, '0')
  }

  lemma PaddedDecimal(n: nat, length: nat)
    ensures var s := PadStart(NatToString(n), length, '0');
      && AllDigits(s) && DecimalValue(s) == n
      && (length >= 1 && n < Pow10(length) ==> |s| == length)
      && (n >= Pow10(length) ==> |s| > length)
  {
    NatToStringValue(n);
    ZeroPadValue(NatToString(n), length);
    if length >= 1 && n < Pow10(length) {
      NatToStringLength(n, length);
    }
    if n >= Pow10(length) {
      NatToStringLongAbove(n, length);
    }
  }

  /** Every draw the random source can produce for the default length gives six digits. */
  lemma SixDigitOtp(draw: nat)
    requires draw < 1000000
    ensures |GenerateOtp(draw)| == 6 && AllDigits(GenerateOtp(draw))
  {
    assert Pow10(6) == 1000000;
  }

  /** `generateOTP(0)`: `Math.pow(10, 0)` is 1, so the draw is 0 and the code is "0", one
      character longer than asked for. */
  lemma ZeroLengthOtp()
    ensures GenerateOtp(0, 0) == "0"
  {
  }

  /** Different draws give different codes. */
  lemma OtpInjective(d1: nat, d2: nat, length: nat)
    requires GenerateOtp(d1, length) == GenerateOtp(d2, length)
    ensures d1 == d2
  {
  }

  // ----- expiry constants ------------------------------------------------------------

  /** `OTP_EXPIRATION_TIME`, in minutes */
  const OtpExpirationMinutes := 10
  /** `PASSWORD_RESET_EXPIRATION_TIME`, in minutes */
  const PasswordResetExpirationMinutes := 60

  /** With the millisecond expiry of lib/db-utils.ts, an OTP lives ten minutes and a reset
      token an hour. */
  lemma ExpiryWindows(now: int)
    ensures DbUtils.CalculateExpirationTime(OtpExpirationMinutes, now) == now + 600000
    ensures DbUtils.CalculateExpirationTime(PasswordResetExpirationMinutes, now) == now + 3600000
    ensures !DbUtils.IsTokenExpired(DbUtils.CalculateExpirationTime(OtpExpirationMinutes, now), now + 600000)
    ensures DbUtils.IsTokenExpired(DbUtils.CalculateExpirationTime(OtpExpirationMinutes, now), now + 600001)
  {
  }
}
