/** Where the password rules of lib/password-utils.ts, lib/db-utils.ts, lib/auth-utils.ts,
    lib/validation-schemas.ts and lib/validation.ts agree and where they part ways. */
module PolicyAgreement {
  import opened JsText
  import opened RegexClasses
  import opened RuleChecks
  import PasswordUtils
  import DbUtils
  import AuthUtils
  import ValidationSchemas
  import Validation

  /** Every `[@$!%*?&]` character is outside `[a-zA-Z0-9]`, so the narrow special class of
      lib/db-utils.ts implies the wide one of the other files; '#' is only in the wide one. */
  lemma SpecialClassesNested(p: string)
    ensures HasPasswordSymbol(p) ==> HasNonAlnum(p)
    ensures HasNonAlnum("#") && !HasPasswordSymbol("#")
  {
    if HasPasswordSymbol(p) {
      var i :| 0 <= i < |p| && IsPasswordSymbol(p[i]);
      assert !IsAsciiAlnum(p[i]);
    }
    assert !IsAsciiAlnum("#"[0]);
  }

  /** A password `isStrongPassword` accepts also passes `validatePassword`; "Abcdefg1#"
      passes `validatePassword` and is refused by `isStrongPassword`. */
  lemma StrongPasswordPassesPolicy(p: string)
    ensures DbUtils.IsStrongPassword(p) ==> Unmet(AuthUtils.PolicyChecks(p), AuthUtils.PolicyMessages) == []
    ensures Unmet(AuthUtils.PolicyChecks("Abcdefg1#"), AuthUtils.PolicyMessages) == []
    ensures !DbUtils.IsStrongPassword("Abcdefg1#")
  {
    SpecialClassesNested(p);
    AuthUtils.PolicyAccepts(p);
    var q := "Abcdefg1#";
    AuthUtils.PolicyAccepts(q);
    assert IsUpper(q[0]) && IsLower(q[1]) && IsDigit(q[7]) && !IsAsciiAlnum(q[8]);
    assert !DbUtils.IsStrongPasswordChar(q[8]);
  }

  /** The two meters score "Abcdefg1" alike, 4 of 6, yet the table of lib/password-utils.ts
      calls 4 "Strong" where lib/db-utils.ts calls it "good"; and "Abcdefg1#" scores 5 on the
      first meter and still 4 on the second, whose special class does not know '#'. */
  lemma MetersDisagree()
    ensures PasswordUtils.RawScore("Abcdefg1") == 4 && CountTrue(DbUtils.StrengthCriteria("Abcdefg1")) == 4
    ensures PasswordUtils.LabelAt(4) == PasswordUtils.Strong
    ensures PasswordUtils.RawScore("Abcdefg1#") == 5 && CountTrue(DbUtils.StrengthCriteria("Abcdefg1#")) == 4
  {
    var p := "Abcdefg1";
    assert IsUpper(p[0]) && IsLower(p[1]) && IsDigit(p[7]);
    assert forall i | 0 <= i < |p| :: IsAsciiAlnum(p[i]);
    CountTrueSix(|p| >= 8, |p| >= 12, HasLower(p), HasUpper(p), HasDigit(p), HasNonAlnum(p));
    CountTrueSix(|p| >= 8, |p| >= 12, HasLower(p), HasUpper(p), HasDigit(p), HasPasswordSymbol(p));
    var q := "Abcdefg1#";
    assert IsUpper(q[0]) && IsLower(q[1]) && IsDigit(q[7]) && !IsAsciiAlnum(q[8]);
    assert forall i | 0 <= i < |q| :: !IsPasswordSymbol(q[i]);
    CountTrueSix(|q| >= 8, |q| >= 12, HasLower(q), HasUpper(q), HasDigit(q), HasNonAlnum(q));
    CountTrueSix(|q| >= 8, |q| >= 12, HasLower(q), HasUpper(q), HasDigit(q), HasPasswordSymbol(q));
  }

  /** On one line, every password `passwordSchema` accepts passes the rule-record password
      rule; "Abcdefg1" passes the rule and not the schema, which wants a special character. */
  lemma SchemaStricterOnOneLine(p: string)
    requires forall i | 0 <= i < |p| :: !IsLineTerminator(p[i])
    ensures Validation.PasswordSchemaAccepts(p) ==> ValidationSchemas.ValidateField(p, ValidationSchemas.SignupPassword).valid
    ensures ValidationSchemas.ValidateField("Abcdefg1", ValidationSchemas.SignupPassword).valid
    ensures !Validation.PasswordSchemaAccepts("Abcdefg1")
  {
    ValidationSchemas.PasswordRuleNoSpecialNeeded(p);
    NoSpecialInAbcdefg1();
  }

  lemma NoSpecialInAbcdefg1()
    ensures !HasNonAlnum("Abcdefg1")
  {
    var a := "Abcdefg1";
    assert forall i | 0 <= i < |a| :: IsAsciiAlnum(a[i]);
  }

  /** Across lines the two part the other way: "a\nBcdefg1" passes the schema, the line break
      being its special character, but not the rule, whose lookaheads stop at the break. */
  lemma RuleStricterAcrossLines()
    ensures Validation.PasswordSchemaAccepts("a\nBcdefg1")
    ensures !ValidationSchemas.ValidateField("a\nBcdefg1", ValidationSchemas.SignupPassword).valid
  {
    var m := "a\nBcdefg1";
    assert IsLower(m[0]) && IsUpper(m[2]) && IsDigit(m[8]) && !IsAsciiAlnum(m[1]);
    ValidationSchemas.PasswordRuleClasses(m);
    assert FirstLine(m) == "a";
    assert !HasUpper(FirstLine(m));
  }
}
