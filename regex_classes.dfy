/** The regular expressions the password, username, email and OTP rules are written with,
    stated as predicates over strings.  An unanchored test such as `/[a-z]/.test(s)` holds
    when some character of `s` is in the class. */
module RegexClasses {
  import opened JsText

  /** `/[a-z]/.test(s)` */
  predicate HasLower(s: string) { exists i | 0 <= i < |s| :: IsLower(s[i]) }
  /** `/[A-Z]/.test(s)` */
  predicate HasUpper(s: string) { exists i | 0 <= i < |s| :: IsUpper(s[i]) }
  /** `/[0-9]/.test(s)` and `/\d/.test(s)` */
  predicate HasDigit(s: string) { exists i | 0 <= i < |s| :: IsDigit(s[i]) }
  /** `/[^a-zA-Z0-9]/.test(s)`: any character that is not an ASCII letter or digit. */
  predicate HasNonAlnum(s: string) { exists i | 0 <= i < |s| :: !IsAsciiAlnum(s[i]) }

  /** `[@$!%*?&]`: the only "special characters" of lib/db-utils.ts. */
  predicate IsPasswordSymbol(c: char) {
    c == '@' || c == '$' || c == '!' || c == '%' || c == '*' || c == '?' || c == '&'
  }
  /** `/[@$!%*?&]/.test(s)` */
  predicate HasPasswordSymbol(s: string) { exists i | 0 <= i < |s| :: IsPasswordSymbol(s[i]) }

  /** Every character class above keeps holding when characters are appended. */
  lemma ClassesSurviveAppend(s: string, t: string)
    ensures HasLower(s) ==> HasLower(s + t)
    ensures HasUpper(s) ==> HasUpper(s + t)
    ensures HasDigit(s) ==> HasDigit(s + t)
    ensures HasNonAlnum(s) ==> HasNonAlnum(s + t)
    ensures HasPasswordSymbol(s) ==> HasPasswordSymbol(s + t)
  {
    forall i | 0 <= i < |s| ensures (s + t)[i] == s[i] { }
  }

  /** The part of `s` before its first line terminator.  A lookahead `(?=.*[a-z])` at the
      start of a pattern only sees this part, since `.` stops at a line terminator. */
  function FirstLine(s: string): (r: string)
    ensures |r| <= |s| && r == s[..|r|]
    ensures forall i | 0 <= i < |r| :: !IsLineTerminator(r[i])
    ensures |r| < |s| ==> IsLineTerminator(s[|r|])
  {
    if s == [] || IsLineTerminator(s[0]) then [] else [s[0]] + FirstLine(s[1..])
  }

  /** A string without line terminators is its own first line. */
  lemma {:induction false} FirstLineOfSingleLine(s: string)
    requires forall i | 0 <= i < |s| :: !IsLineTerminator(s[i])
    ensures FirstLine(s) == s
  {
    if s != [] {
      FirstLineOfSingleLine(s[1..]);
    }
  }

  // ----- the email pattern ------------------------------------------------------

  /** `[^\s@]` */
  predicate IsEmailPartChar(c: char) { !IsJsSpace(c) && c != '@' }
  /** `[^\s@]*` over the whole string */
  predicate AllEmailPartChars(s: string) { forall i | 0 <= i < |s| :: IsEmailPartChar(s[i]) }

  /** `^[^\s@]+@[^\s@]+\.[^\s@]+$` matched with its `@` at index `at` and its literal `.`
      at index `dot`: each of the three runs is non-empty and free of white space and `@`. */
  predicate EmailMatchAt(s: string, at: int, dot: int) {
    0 < at && at + 1 < dot && dot + 1 < |s|
    && s[at] == '@' && s[dot] == '.'
    && AllEmailPartChars(s[..at]) && AllEmailPartChars(s[at + 1..dot]) && AllEmailPartChars(s[dot + 1..])
  }

  /** `/^[^\s@]+@[^\s@]+\.[^\s@]+$/.test(s)` */
  predicate MatchesEmailPattern(s: string) {
    exists at, dot | 0 <= at < |s| && 0 <= dot < |s| :: EmailMatchAt(s, at, dot)
  }

  /** The email pattern, read as plain conditions: no white space anywhere, exactly one `@`,
      something before it, and after it a `.` that is neither the first nor the last
      character of the domain. */
  lemma EmailPatternCharacterized(s: string)
    ensures MatchesEmailPattern(s) <==>
      && (forall k | 0 <= k < |s| :: !IsJsSpace(s[k]))
      && exists at | 0 < at < |s| ::
           && s[at] == '@'
           && (forall k | 0 <= k < |s| && k != at :: s[k] != '@')
           && exists dot | at + 1 < dot < |s| - 1 :: s[dot] == '.'
  {
    if MatchesEmailPattern(s) {
      var at, dot :| 0 <= at < |s| && 0 <= dot < |s| && EmailMatchAt(s, at, dot);
      forall k | 0 <= k < |s| && k != at ensures !IsJsSpace(s[k]) && s[k] != '@' {
        if k < at {
          assert s[..at][k] == s[k];
        } else if k < dot {
          assert s[at + 1..dot][k - at - 1] == s[k];
        } else if k > dot {
          assert s[dot + 1..][k - dot - 1] == s[k];
        }
      }
    }
    if (forall k | 0 <= k < |s| :: !IsJsSpace(s[k]))
       && exists at | 0 < at < |s| ::
            && s[at] == '@'
            && (forall k | 0 <= k < |s| && k != at :: s[k] != '@')
            && exists dot | at + 1 < dot < |s| - 1 :: s[dot] == '.'
    {
      var at :| 0 < at < |s| && s[at] == '@'
            && (forall k | 0 <= k < |s| && k != at :: s[k] != '@')
            && exists dot | at + 1 < dot < |s| - 1 :: s[dot] == '.';
      var dot :| at + 1 < dot < |s| - 1 && s[dot] == '.';
      assert EmailMatchAt(s, at, dot);
    }
  }
}
