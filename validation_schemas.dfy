/** lib/validation-schemas.ts: the rule records of the signup, login, profile and password
    forms, and `validateField`, which tests a value against one rule and reports the first
    check that fails. */
module ValidationSchemas {
  import opened JsText
  import opened RegexClasses
  import opened RuleChecks
  import DbUtils

  /** The three regular expressions the rule records use. */
  datatype Pattern =
    | UsernameChars     // /^[a-zA-Z0-9_-]+$/
    | EmailShape        // /^[^\s@]+@[^\s@]+\.[^\s@]+$/
    | PasswordClasses   // /^(?=.*[a-z])(?=.*[A-Z])(?=.*\d)/

  /** `pattern.test(value)` */
  predicate Matches(p: Pattern, value: string) {
    match p
    case UsernameChars =>
      |value| >= 1 && forall i | 0 <= i < |value| :: DbUtils.IsUsernameChar(value[i])
    case EmailShape => MatchesEmailPattern(value)
    case PasswordClasses => ClassesOnFirstLine(value)
  }

  /** The three lookaheads `(?=.*[a-z])(?=.*[A-Z])(?=.*\d)` anchored at the start: each `.*`
      stops at the first line terminator. */
  predicate ClassesOnFirstLine(value: string) {
    HasLower(FirstLine(value)) && HasUpper(FirstLine(value)) && HasDigit(FirstLine(value))
  }

  /** `ValidationRule`.  An absent bound is `None`; a bound of 0 is falsy in the source and
      behaves exactly like an absent one. */
  datatype ValidationRule = ValidationRule(
    minLength: Option<nat>, maxLength: Option<nat>, pattern: Option<Pattern>,
    required: bool, message: string)

  datatype FieldResult = FieldResult(valid: bool, error: Option<string>)

  /** A bound that takes part in the check: present and not 0. */
  predicate Truthy(bound: Option<nat>) { bound.Some? && bound.value != 0 }

  function MinLengthMessage(n: nat): string { "Must be at least " + NatToString(n) + " characters" }
  function MaxLengthMessage(n: nat): string { "Must be no more than " + NatToString(n) + " characters" }

  /** The four checks of `validateField`, in order, each true when it passes. */
  function FieldChecks(value: string, rule: ValidationRule): seq<bool> {
    [ !(rule.required && value == ""),
      !(Truthy(rule.minLength) && |value| < rule.minLength.value),
      !(Truthy(rule.maxLength) && |value| > rule.maxLength.value),
      !(rule.pattern.Some? && !Matches(rule.pattern.value, value)) ]
  }

  /** The error each check reports when it fails. */
  function FieldMessages(rule: ValidationRule): seq<string> {
    [ rule.message,
      if rule.minLength.Some? then MinLengthMessage(rule.minLength.value) else "",
      if rule.maxLength.Some? then MaxLengthMessage(rule.maxLength.value) else "",
      rule.message ]
  }

  /** `validateField(value, rule)`: a chain of early returns. */
  function ValidateField(value: string, rule: ValidationRule): (r: FieldResult)
    ensures r.valid <==> r.error == None
    ensures r.error.Some? ==> r.error.value in FieldMessages(rule)
  {
    if rule.required && value == "" then
      FieldResult(false, Some(rule.message))
    else if Truthy(rule.minLength) && |value| < rule.minLength.value then
      FieldResult(false, Some(MinLengthMessage(rule.minLength.value)))
    else if Truthy(rule.maxLength) && |value| > rule.maxLength.value then
      FieldResult(false, Some(MaxLengthMessage(rule.maxLength.value)))
    else if rule.pattern.Some? && !Matches(rule.pattern.value, value) then
      FieldResult(false, Some(rule.message))
    else
      FieldResult(true, None)
  }

  /** The error reported is the message of the first failing check, out of the list of
      every failing check's message. */
  lemma FirstFailureReported(value: string, rule: ValidationRule)
    ensures var failures := Unmet(FieldChecks(value, rule), FieldMessages(rule));
      && (ValidateField(value, rule).valid <==> failures == [])
      && (failures != [] ==> ValidateField(value, rule).error == Some(failures[0]))
  {
    var c := FieldChecks(value, rule);
    var m := FieldMessages(rule);
    UnmetEmptyIffAllPass(c, m);
    if !c[0] {
      UnmetFirst(c, m, 0);
    } else if !c[1] {
      UnmetFirst(c, m, 1);
    } else if !c[2] {
      UnmetFirst(c, m, 2);
    } else if !c[3] {
      UnmetFirst(c, m, 3);
    }
  }

  /** `required` rejects only the empty string; a rule without it still turns the empty
      string away when it has a positive minimum length. */
  lemma RequiredRejectsOnlyEmpty(value: string, message: string, n: nat)
    requires n > 0
    ensures var rule := ValidationRule(None, None, None, true, message);
      ValidateField(value, rule) == if value == "" then FieldResult(false, Some(message)) else FieldResult(true, None)
    ensures ValidateField("", ValidationRule(Some(n), None, None, false, message))
            == FieldResult(false, Some(MinLengthMessage(n)))
  {
  }

  /** A rule that is not `required` and has no maximum accepts exactly the values long
      enough for its minimum that match its pattern. */
  lemma OptionalRule(value: string, rule: ValidationRule)
    requires !rule.required && rule.maxLength == None
    ensures ValidateField(value, rule).valid <==>
      (Truthy(rule.minLength) ==> |value| >= rule.minLength.value)
      && (rule.pattern.Some? ==> Matches(rule.pattern.value, value))
  {
  }

  // ----- the rule records ------------------------------------------------------------

  const UsernameMessage := "Username can only contain letters, numbers, underscores, and hyphens"
  const EmailMessage := "Please enter a valid email address"
  const PasswordMessage := "Password must contain uppercase, lowercase, and numbers"
  const FullNameMessage := "Please enter a valid full name"

  const SignupUsername := ValidationRule(Some(3), Some(20), Some(UsernameChars), false, UsernameMessage)
  const SignupEmail := ValidationRule(None, None, Some(EmailShape), false, EmailMessage)
  const SignupPassword := ValidationRule(Some(8), None, Some(PasswordClasses), false, PasswordMessage)
  const SignupFullName := ValidationRule(Some(2), Some(255), None, false, FullNameMessage)

  const LoginUsername := ValidationRule(None, None, None, true, "Username or email is required")
  const LoginPassword := ValidationRule(None, None, None, true, "Password is required")

  const ProfileUsername := ValidationRule(Some(3), Some(20), Some(UsernameChars), false, UsernameMessage)
  const ProfileEmail := ValidationRule(None, None, Some(EmailShape), false, EmailMessage)
  const ProfileFullName := ValidationRule(Some(2), Some(255), None, false, FullNameMessage)

  const CurrentPassword := ValidationRule(None, None, None, true, "Current password is required")
  const NewPassword := ValidationRule(Some(8), None, Some(PasswordClasses), false, PasswordMessage)

  /** The signup and profile username rule accepts exactly the usernames of lib/db-utils.ts. */
  lemma UsernameRuleIsValidUsername(value: string)
    ensures ValidateField(value, SignupUsername).valid <==> DbUtils.IsValidUsername(value)
    ensures ValidateField(value, ProfileUsername) == ValidateField(value, SignupUsername)
  {
  }

  /** The email rule accepts exactly the addresses `isValidEmail` accepts. */
  lemma EmailRuleIsValidEmail(value: string)
    ensures ValidateField(value, SignupEmail).valid <==> DbUtils.IsValidEmail(value)
    ensures ValidateField(value, ProfileEmail) == ValidateField(value, SignupEmail)
  {
  }

  /** The password rules ask for eight characters and a lowercase letter, an uppercase letter
      and a digit on the first line, and nothing else: no special character is needed. */
  lemma PasswordRuleClasses(value: string)
    ensures ValidateField(value, SignupPassword).valid <==> |value| >= 8 && ClassesOnFirstLine(value)
    ensures ValidateField(value, NewPassword) == ValidateField(value, SignupPassword)
  {
    assert NewPassword == SignupPassword;
    OptionalRule(value, SignupPassword);
  }

  /** On a single-line value the password rule reads as plain character classes, and
      "Abcdefg1", with no special character, passes it. */
  lemma PasswordRuleNoSpecialNeeded(value: string)
    requires forall i | 0 <= i < |value| :: !IsLineTerminator(value[i])
    ensures ValidateField(value, SignupPassword).valid <==>
      |value| >= 8 && HasLower(value) && HasUpper(value) && HasDigit(value)
    ensures ValidateField("Abcdefg1", SignupPassword).valid
  {
    FirstLineOfSingleLine(value);
    PasswordRuleClasses(value);
    SampleOneLinePassword();
  }

  /** "Abcdefg1" is one line with a lowercase letter, an uppercase letter and a digit. */
  lemma SampleOneLinePassword()
    ensures ValidateField("Abcdefg1", SignupPassword).valid
  {
    SampleClasses();
    PasswordRuleClasses("Abcdefg1");
  }

  lemma SampleClasses()
    ensures ClassesOnFirstLine("Abcdefg1")
  {
    SampleIsOneLine();
    SampleHasClasses();
  }

  lemma SampleIsOneLine()
    ensures FirstLine("Abcdefg1") == "Abcdefg1"
  {
    FirstLineOfSingleLine("Abcdefg1");
  }

  lemma SampleHasClasses()
    ensures HasLower("Abcdefg1") && HasUpper("Abcdefg1") && HasDigit("Abcdefg1")
  {
    var p := "Abcdefg1";
    assert IsUpper(p[0]) && IsLower(p[1]) && IsDigit(p[7]);
  }

  /** A full name passes exactly when it is 2 to 255 characters long; a short one is told
      the bound. */
  lemma FullNameRuleLength(value: string)
    ensures ValidateField(value, SignupFullName).valid <==> 2 <= |value| <= 255
    ensures |value| < 2 ==> ValidateField(value, SignupFullName).error == Some("Must be at least 2 characters")
    ensures |value| > 255 ==> ValidateField(value, SignupFullName).error == Some("Must be no more than 255 characters")
  {
    FullNameMessages();
  }

  /** The two length messages of the full-name rule, spelled out. */
  lemma FullNameMessages()
    ensures MinLengthMessage(2) == "Must be at least 2 characters"
    ensures MaxLengthMessage(255) == "Must be no more than 255 characters"
  {
    assert NatToString(2) == "2";
    assert NatToString(255) == "255";
  }

  /** The login and current-password rules reject the empty string only. */
  lemma RequiredRules(value: string)
    ensures ValidateField(value, LoginUsername).valid <==> value != ""
    ensures ValidateField(value, LoginPassword).valid <==> value != ""
    ensures ValidateField(value, CurrentPassword).valid <==> value != ""
  {
  }
}
