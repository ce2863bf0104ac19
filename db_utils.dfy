/** The pure helpers of lib/db-utils.ts: a second password meter and a strong-password
    pattern (both with the narrow special-character class `[@$!%*?&]`), the username and email
    formats, input sanitising, the attempt limiter, token expiry in milliseconds, and the
    removal of the password hash from a user record.  Hashing, random tokens and UUIDs are
    not part of this model. */
module DbUtils {
  import opened JsText
  import opened RegexClasses
  import opened RuleChecks

  // ----- getPasswordStrength ---------------------------------------------------------

  datatype Level = Weak | Fair | Good | Strong

  datatype StrengthReport = StrengthReport(score: nat, level: Level, feedback: seq<string>)

  /** The six criteria of this meter, in test order; the last uses `[@$!%*?&]`. */
  function StrengthCriteria(password: string): seq<bool> {
    [|password| >= 8, |password| >= 12, HasLower(password), HasUpper(password),
     HasDigit(password), HasPasswordSymbol(password)]
  }

  const FeedbackMessages: seq<string> := [
    "At least 8 characters", "Longer passwords are more secure", "Add lowercase letters",
    "Add uppercase letters", "Add numbers", "Add special characters"]

  /** `getPasswordStrength`: one point per criterion met, one feedback line per criterion
      missed, and a level read off the score. */
  method GetPasswordStrength(password: string) returns (r: StrengthReport)
    ensures r.score == CountTrue(StrengthCriteria(password))
    ensures r.feedback == Unmet(StrengthCriteria(password), FeedbackMessages)
    ensures r.score <= 2 ==> r.level == Weak
    ensures r.score == 3 ==> r.level == Fair
    ensures r.score == 4 ==> r.level == Good
    ensures r.score >= 5 ==> r.level == Strong
  {
    var feedback: seq<string> := [];
    var score := 0;
    ghost var checks := StrengthCriteria(password);
    if |password| >= 8 { score := score + 1; } else { feedback := feedback + ["At least 8 characters"]; }
    assert score == PassedAmong(checks, 1) && feedback == FailedAmong(checks, FeedbackMessages, 1);
    if |password| >= 12 { score := score + 1; } else { feedback := feedback + ["Longer passwords are more secure"]; }
    assert score == PassedAmong(checks, 2) && feedback == FailedAmong(checks, FeedbackMessages, 2);
    if HasLower(password) { score := score + 1; } else { feedback := feedback + ["Add lowercase letters"]; }
    assert score == PassedAmong(checks, 3) && feedback == FailedAmong(checks, FeedbackMessages, 3);
    if HasUpper(password) { score := score + 1; } else { feedback := feedback + ["Add uppercase letters"]; }
    assert score == PassedAmong(checks, 4) && feedback == FailedAmong(checks, FeedbackMessages, 4);
    if HasDigit(password) { score := score + 1; } else { feedback := feedback + ["Add numbers"]; }
    assert score == PassedAmong(checks, 5) && feedback == FailedAmong(checks, FeedbackMessages, 5);
    if HasPasswordSymbol(password) { score := score + 1; } else { feedback := feedback + ["Add special characters"]; }
    assert score == PassedAmong(checks, 6) && feedback == FailedAmong(checks, FeedbackMessages, 6);
    var level := if score <= 2 then Weak else if score <= 3 then Fair else if score <= 4 then Good else Strong;
    r := StrengthReport(score, level, feedback);
  }

  /** Every criterion either scores a point or adds a feedback line, never both: the score
      and the number of feedback lines add up to six. */
  lemma StrengthTotals(password: string)
    ensures CountTrue(StrengthCriteria(password)) <= 6
    ensures CountTrue(StrengthCriteria(password)) + |Unmet(StrengthCriteria(password), FeedbackMessages)| == 6
  {
    ScorePlusFeedback(StrengthCriteria(password), FeedbackMessages);
  }

  /** The feedback is empty exactly when all six criteria are met. */
  lemma NoFeedbackIffAllMet(password: string)
    ensures Unmet(StrengthCriteria(password), FeedbackMessages) == [] <==>
      |password| >= 12 && HasLower(password) && HasUpper(password)
      && HasDigit(password) && HasPasswordSymbol(password)
  {
    var c := StrengthCriteria(password);
    UnmetEmptyIffAllPass(c, FeedbackMessages);
    assert c[1] == (|password| >= 12) && c[2] == HasLower(password) && c[3] == HasUpper(password);
    assert c[4] == HasDigit(password) && c[5] == HasPasswordSymbol(password);
  }

  // ----- isStrongPassword ------------------------------------------------------------

  /** `[A-Za-z\d@$!%*?&]` */
  predicate IsStrongPasswordChar(c: char) { IsAsciiAlnum(c) || IsPasswordSymbol(c) }

  /** `/^(?=.*[a-z])(?=.*[A-Z])(?=.*\d)(?=.*[@$!%*?&])[A-Za-z\d@$!%*?&]{8,}$/.test(p)`.
      The lookaheads' `.` cannot skip a line terminator, but the body already admits only
      letters, digits and `@$!%*?&`, so each lookahead just asks for one such character. */
  predicate IsStrongPassword(password: string) {
    && |password| >= 8
    && (forall i | 0 <= i < |password| :: IsStrongPasswordChar(password[i]))
    && HasLower(password) && HasUpper(password) && HasDigit(password) && HasPasswordSymbol(password)
  }

  /** A strong password scores at least 5 on this module's meter, and its only possible
      feedback line is about length. */
  lemma StrongPasswordScore(password: string)
    requires IsStrongPassword(password)
    ensures CountTrue(StrengthCriteria(password)) >= 5
    ensures Unmet(StrengthCriteria(password), FeedbackMessages)
            <= ["Longer passwords are more secure"]
  {
    var c := StrengthCriteria(password);
    CountTrueSix(c[0], c[1], c[2], c[3], c[4], c[5]);
    assert FailedAmong(c, FeedbackMessages, 1) == [];
    assert FailedAmong(c, FeedbackMessages, 2) == (if c[1] then [] else [FeedbackMessages[1]]);
    assert FailedAmong(c, FeedbackMessages, 4) == FailedAmong(c, FeedbackMessages, 2);
    assert FailedAmong(c, FeedbackMessages, 6) == FailedAmong(c, FeedbackMessages, 4);
  }

  // ----- username and email ----------------------------------------------------------

  /** `[a-zA-Z0-9_-]` */
  predicate IsUsernameChar(c: char) { IsAsciiAlnum(c) || c == '_' || c == '-' }

  /** `/^[a-zA-Z0-9_-]{3,20}$/.test(username)` */
  predicate IsValidUsername(username: string) {
    3 <= |username| <= 20 && forall i | 0 <= i < |username| :: IsUsernameChar(username[i])
  }

  /** `/^[^\s@]+@[^\s@]+\.[^\s@]+$/.test(email)` */
  predicate IsValidEmail(email: string) { MatchesEmailPattern(email) }

  // ----- sanitizeInput ---------------------------------------------------------------

  predicate NoAngleBrackets(s: string) { forall i | 0 <= i < |s| :: s[i] != '<' && s[i] != '>' }

  /** `s.replace(/[<>]/g, "")` */
  function StripAngleBrackets(s: string): (r: string)
    ensures NoAngleBrackets(r) && |r| <= |s|
  {
    if s == [] then []
    else if s[0] == '<' || s[0] == '>' then StripAngleBrackets(s[1..])
    else [s[0]] + StripAngleBrackets(s[1..])
  }

  /** Stripping works character by character: a '<' or '>' goes, any other character stays. */
  lemma StripOneChar(c: char)
    ensures StripAngleBrackets([c]) == if c == '<' || c == '>' then [] else [c]
  {
    assert [c][1..] == [];
  }

  /** Stripping a concatenation strips each part and keeps them in order; with
      `StripOneChar`, this says every other character is kept, in order. */
  lemma {:induction false} StripAppend(a: string, b: string)
    ensures StripAngleBrackets(a + b) == StripAngleBrackets(a) + StripAngleBrackets(b)
  {
    if a == [] {
      assert a + b == b;
    } else {
      assert (a + b)[0] == a[0] && (a + b)[1..] == a[1..] + b;
      StripAppend(a[1..], b);
    }
  }

  /** Stripping leaves a string without angle brackets as it is. */
  lemma {:induction false} StripKeepsCleanText(s: string)
    requires NoAngleBrackets(s)
    ensures StripAngleBrackets(s) == s
  {
    if s != [] {
      StripKeepsCleanText(s[1..]);
    }
  }

  /** Any slice of a string without angle brackets has none either. */
  lemma NoAnglesInSlice(s: string, a: nat, b: nat)
    requires NoAngleBrackets(s) && a <= b <= |s|
    ensures NoAngleBrackets(s[a..b])
  {
    forall i | 0 <= i < b - a ensures s[a..b][i] == s[a + i] { }
  }

  const MaxInputLength := 255

  /** `sanitizeInput`: strip `<` and `>`, trim, keep the first 255 characters.  The result
      is a prefix of the trimmed, stripped input, cut short only when that is longer than
      255 characters. */
  function SanitizeInput(input: string): (r: string)
    ensures NoAngleBrackets(r)
    ensures |r| == Min(|Trim(StripAngleBrackets(input))|, MaxInputLength)
    ensures r == Trim(StripAngleBrackets(input))[..|r|]
    ensures r == [] || !IsJsSpace(r[0])
  {
    var s := StripAngleBrackets(input);
    var t := Trim(s);
    TrimSlice(s);
    TrimEdges(s);
    var r := Take(t, MaxInputLength);
    CleanPrefixOfSlice(s, TrimOffset(s), t, r);
    r
  }

  /** A prefix of a slice of a string without angle brackets has none either, and it
      starts where the slice starts. */
  lemma CleanPrefixOfSlice(s: string, a: nat, t: string, r: string)
    requires NoAngleBrackets(s) && a + |t| <= |s| && t == s[a..a + |t|]
    requires t == [] || !IsJsSpace(t[0])
    requires |r| <= |t| && r == t[..|r|]
    ensures NoAngleBrackets(r) && (r == [] || !IsJsSpace(r[0]))
  {
    NoAnglesInSlice(s, a, a + |t|);
    NoAnglesInSlice(t, 0, |r|);
    assert r != [] ==> r[0] == t[0];
  }

  /** Text with no white space at either end is left alone by `trim()`. */
  lemma TrimKeepsCoreText(s: string)
    requires s == [] || (!IsJsSpace(s[0]) && !IsJsSpace(s[|s| - 1]))
    ensures Trim(s) == s
  {
    assert TrimStart(s) == s;
    assert TrimEnd(s) == s;
  }

  /** Text that is already clean, trimmed and short is returned unchanged. */
  lemma SanitizeKeepsCleanText(s: string)
    requires NoAngleBrackets(s) && |s| <= MaxInputLength
    requires s == [] || (!IsJsSpace(s[0]) && !IsJsSpace(s[|s| - 1]))
    ensures SanitizeInput(s) == s
  {
    StripKeepsCleanText(s);
    TrimKeepsCoreText(s);
  }

  /** When the trimmed, stripped input fits in 255 characters, sanitising a second time
      changes nothing. */
  lemma SanitizeIdempotentWhenShort(input: string)
    requires |Trim(StripAngleBrackets(input))| <= MaxInputLength
    ensures SanitizeInput(SanitizeInput(input)) == SanitizeInput(input)
  {
    TrimIsCore(StripAngleBrackets(input));
    SanitizeKeepsCleanText(SanitizeInput(input));
  }

  /** `trim()` of a string with one trailing space and no leading one drops just that space. */
  lemma TrimDropsTrailingSpace(s: string)
    requires |s| >= 2 && !IsJsSpace(s[0]) && IsJsSpace(s[|s| - 1]) && !IsJsSpace(s[|s| - 2])
    ensures Trim(s) == s[..|s| - 1]
  {
    assert TrimStart(s) == s;
    assert s[..|s| - 1][..|s| - 2] == s[..|s| - 2];
  }

  /** A clean string whose 255th character is a space after a non-space: the first pass
      cuts it there, leaving the space at the end, and the second pass trims it. */
  lemma SanitizeTwiceTrimsCut(s: string)
    requires NoAngleBrackets(s) && |s| > MaxInputLength
    requires !IsJsSpace(s[0]) && !IsJsSpace(s[|s| - 1])
    requires IsJsSpace(s[MaxInputLength - 1]) && !IsJsSpace(s[MaxInputLength - 2])
    ensures SanitizeInput(s) == s[..MaxInputLength]
    ensures SanitizeInput(SanitizeInput(s)) == s[..MaxInputLength - 1]
  {
    StripKeepsCleanText(s);
    TrimKeepsCoreText(s);
    var r := s[..MaxInputLength];
    assert SanitizeInput(s) == r;
    NoAnglesInSlice(s, 0, MaxInputLength);
    StripKeepsCleanText(r);
    TrimDropsTrailingSpace(r);
    assert r[..MaxInputLength - 1] == s[..MaxInputLength - 1];
  }

  /** Sanitising is not idempotent: 254 letters, a space and one more letter lose the last
      letter on the first pass and the space on the second. */
  lemma SanitizeNotIdempotent()
    ensures var s := Repeat('a', 254) + " b";
      |SanitizeInput(s)| == 255 && |SanitizeInput(SanitizeInput(s))| == 254
  {
    var s := Repeat('a', 254) + " b";
    forall i | 0 <= i < |s| ensures s[i] == (if i < 254 then 'a' else if i == 254 then ' ' else 'b') { }
    SanitizeTwiceTrimsCut(s);
  }

  // ----- shouldRateLimit -------------------------------------------------------------

  datatype RateLimit = RateLimit(limited: bool, remainingAttempts: int)

  /** `shouldRateLimit(attempts, maxAttempts = 5, lockoutMinutes = 15)`; the lockout length
      plays no part in the answer. */
  function ShouldRateLimit(attempts: int, maxAttempts: int := 5, lockoutMinutes: int := 15): (r: RateLimit)
    ensures r.limited <==> attempts >= maxAttempts
    ensures r.remainingAttempts >= 0
    ensures r.limited <==> r.remainingAttempts == 0
    ensures !r.limited ==> attempts + r.remainingAttempts == maxAttempts
  {
    RateLimit(attempts >= maxAttempts, Max(0, maxAttempts - attempts))
  }

  /** Each further attempt uses up one remaining attempt until none is left; with the
      defaults, the fifth attempt is the one that triggers the limit. */
  lemma RateLimitCountsDown(attempts: int, maxAttempts: int)
    ensures ShouldRateLimit(attempts + 1, maxAttempts).remainingAttempts
            == Max(0, ShouldRateLimit(attempts, maxAttempts).remainingAttempts - 1)
    ensures ShouldRateLimit(attempts, maxAttempts).limited ==> ShouldRateLimit(attempts + 1, maxAttempts).limited
    ensures !ShouldRateLimit(4).limited && ShouldRateLimit(4).remainingAttempts == 1
    ensures ShouldRateLimit(5).limited
  {
  }

  /** The answer does not depend on the lockout length. */
  lemma LockoutMinutesIgnored(attempts: int, maxAttempts: int, m1: int, m2: int)
    ensures ShouldRateLimit(attempts, maxAttempts, m1) == ShouldRateLimit(attempts, maxAttempts, m2)
  {
  }

  // ----- token expiry ----------------------------------------------------------------

  const MillisecondsPerMinute := 60000

  /** `calculateExpirationTime(minutes)`, with the clock reading `now` (milliseconds) passed in. */
  function CalculateExpirationTime(minutes: int, now: int): (expiresAt: int)
    ensures minutes >= 0 ==> expiresAt >= now
    ensures expiresAt - now == minutes * MillisecondsPerMinute
  {
    now + minutes * MillisecondsPerMinute
  }

  /** `isTokenExpired(expiresAt)` at clock reading `now`: strictly after the expiry instant. */
  predicate IsTokenExpired(expiresAt: int, now: int) { now > expiresAt }

  /** A token issued at `issuedAt` for `minutes >= 0` is live from issue through its expiry
      instant, inclusive, and expired at every later instant. */
  lemma TokenLifetime(minutes: int, issuedAt: int, now: int)
    requires minutes >= 0
    ensures !IsTokenExpired(CalculateExpirationTime(minutes, issuedAt), issuedAt)
    ensures !IsTokenExpired(CalculateExpirationTime(minutes, issuedAt), CalculateExpirationTime(minutes, issuedAt))
    ensures IsTokenExpired(CalculateExpirationTime(minutes, issuedAt), now)
            <==> now > issuedAt + minutes * MillisecondsPerMinute
  {
  }

  // ----- formatUserResponse ----------------------------------------------------------

  /** `formatUserResponse(user)`: the record without its `password_hash` field. */
  function FormatUserResponse<V>(user: map<string, V>): (safe: map<string, V>)
    ensures "password_hash" !in safe
    ensures forall k :: k in safe <==> k in user && k != "password_hash"
    ensures forall k | k in safe :: safe[k] == user[k]
  {
    user - {"password_hash"}
  }
}
