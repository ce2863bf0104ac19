/** components/auth/otp-form.tsx: the one-time password form.  The input keeps only the first
    six digits typed; `validateForm` reports a missing or short code; `handleResend` starts a
    sixty-second countdown that a one-second interval runs down to 0.  Each interval run is
    the method `Tick`; the simulated request delays are not part of this model. */
module OtpForm {
  import opened JsText
  import Validation

  const OtpLength: nat := 6
  const ResendSeconds: int := 60

  const OtpRequired := "OTP is required"
  const OtpWrongLength := "OTP must be 6 digits"

  /** `value.replace(/\D/g, "").slice(0, 6)`: what the input keeps of a typed value. */
  function FilterInput(value: string): (r: string)
    ensures AllDigits(r) && |r| == Min(OtpLength, |DigitsOf(value)|)
    ensures r == DigitsOf(value)[..|r|]
  {
    Take(DigitsOf(value), OtpLength)
  }

  /** The error `validateForm` sets, `None` when it passes. */
  function OtpError(otp: string): (e: Option<string>)
    ensures e == None <==> !IsBlank(otp) && |otp| == OtpLength
    ensures e == Some(OtpRequired) <==> IsBlank(otp)
  {
    TrimEmptyIffBlank(otp);
    if Trim(otp) == "" then Some(OtpRequired)
    else if |otp| != OtpLength then Some(OtpWrongLength)
    else None
  }

  /** Behind the input filter, a code passes `validateForm` exactly when it has six digits,
      which is exactly what `otpVerificationSchema` of lib/validation.ts accepts; an empty one
      is reported missing and any other is reported short. */
  lemma FilteredCodeChecks(value: string)
    ensures var otp := FilterInput(value);
      && (OtpError(otp).None? <==> |otp| == OtpLength)
      && (OtpError(otp).None? <==> Validation.OtpSchemaAccepts(otp))
      && (otp == "" ==> OtpError(otp) == Some(OtpRequired))
      && (otp != "" && |otp| < OtpLength ==> OtpError(otp) == Some(OtpWrongLength))
  {
    DigitsTrimToEmptyOnlyWhenEmpty(FilterInput(value));
  }

  /** A string of digits has no white space to trim. */
  lemma DigitsTrimToEmptyOnlyWhenEmpty(s: string)
    requires AllDigits(s)
    ensures Trim(s) == "" <==> s == ""
  {
    TrimEmptyIffBlank(s);
    if s != "" {
      assert !IsJsSpace(s[0]);
    }
  }

  class Form {
    var otp: string
    var errors: Option<string>
    var resendTimer: int
    /** Whether the countdown interval is running. */
    var counting: bool

    /** The countdown stays within 0..60 and runs exactly while time is left. */
    ghost predicate Valid()
      reads this
    {
      0 <= resendTimer <= ResendSeconds && (counting <==> resendTimer > 0)
    }

    /** `disabled={resendTimer > 0 || isLoading}` with no request in flight. */
    predicate ResendEnabled()
      reads this
    {
      resendTimer <= 0
    }

    constructor ()
      ensures Valid() && otp == "" && errors == None && resendTimer == 0 && ResendEnabled()
    {
      otp, errors, resendTimer, counting := "", None, 0, false;
    }

    /** The input's `onChange`. */
    method HandleInput(value: string)
      modifies this
      ensures otp == FilterInput(value) && errors == None
      ensures resendTimer == old(resendTimer) && counting == old(counting)
    {
      otp := Take(DigitsOf(value), OtpLength);
      errors := None;
    }

    /** `validateForm` */
    method ValidateForm() returns (valid: bool)
      modifies this
      ensures valid <==> OtpError(otp).None?
      ensures errors == (if valid then old(errors) else OtpError(otp))
      ensures otp == old(otp) && resendTimer == old(resendTimer) && counting == old(counting)
    {
      if Trim(otp) == "" {
        errors := Some(OtpRequired);
        return false;
      }
      if |otp| != OtpLength {
        errors := Some(OtpWrongLength);
        return false;
      }
      return true;
    }

    /** `handleResend`, pressed while the button is enabled. */
    method HandleResend()
      requires Valid() && ResendEnabled()
      modifies this
      ensures Valid() && resendTimer == ResendSeconds && !ResendEnabled()
      ensures otp == old(otp) && errors == old(errors)
    {
      resendTimer := ResendSeconds;
      counting := true;
    }

    /** One run of the interval: down by one, and at 1 or below straight to 0 and stop. */
    method Tick()
      requires Valid()
      modifies this
      ensures Valid()
      ensures old(counting) && old(resendTimer) > 1 ==> resendTimer == old(resendTimer) - 1 && counting
      ensures old(counting) && old(resendTimer) <= 1 ==> resendTimer == 0 && !counting && ResendEnabled()
      ensures !old(counting) ==> resendTimer == old(resendTimer) && !counting
      ensures otp == old(otp) && errors == old(errors)
    {
      if !counting {
        return;
      }
      if resendTimer <= 1 {
        counting := false;
        resendTimer := 0;
      } else {
        resendTimer := resendTimer - 1;
      }
    }
  }
}
