/** The password strength meter of lib/password-utils.ts: a score out of six criteria, capped
    at 5 for display, with a label and a colour looked up in two six-entry tables. */
module PasswordUtils {
  import opened JsText
  import opened RegexClasses
  import opened RuleChecks

  datatype Label = Weak | Fair | Good | Strong

  /** The record `calculatePasswordStrength` returns; its `label` field is `strengthLabel` here,
      `label` being a Dafny keyword. */
  datatype Strength = Strength(score: int, strengthLabel: Label, color: string)

  datatype Requirements = Requirements(length: bool, uppercase: bool, lowercase: bool, number: bool, special: bool)

  /** The six criteria the meter awards a point for, in the order it tests them. */
  function Criteria(password: string): seq<bool> {
    [|password| >= 8, |password| >= 12, HasLower(password), HasUpper(password),
     HasDigit(password), HasNonAlnum(password)]
  }

  /** The score before it is capped: the number of criteria met. */
  function RawScore(password: string): nat {
    CountTrue(Criteria(password))
  }

  const Labels: seq<Label> := [Weak, Weak, Fair, Good, Strong, Strong]
  const Colors: seq<string> :=
    ["bg-destructive", "bg-destructive", "bg-yellow-500", "bg-blue-500", "bg-green-500", "bg-green-500"]

  /** `labels[score] || "Weak"`: an index past the table reads `undefined` and falls back. */
  function LabelAt(score: int): Label {
    if 0 <= score < |Labels| then Labels[score] else Weak
  }

  /** `colors[score] || "bg-destructive"` */
  function ColorAt(score: int): string {
    if 0 <= score < |Colors| then Colors[score] else "bg-destructive"
  }

  /** `calculatePasswordStrength`, as written: the score is capped at 5, but the label and
      the colour are looked up with the uncapped score. */
  method CalculatePasswordStrength(password: string) returns (r: Strength)
    ensures r.score == Min(RawScore(password), 5) && 0 <= r.score <= 5
    ensures r.strengthLabel == LabelAt(RawScore(password)) && r.color == ColorAt(RawScore(password))
  {
    var score := 0;
    if |password| >= 8 { score := score + 1; }
    if |password| >= 12 { score := score + 1; }
    if HasLower(password) { score := score + 1; }
    if HasUpper(password) { score := score + 1; }
    if HasDigit(password) { score := score + 1; }
    if HasNonAlnum(password) { score := score + 1; }
    CountTrueSix(|password| >= 8, |password| >= 12, HasLower(password), HasUpper(password),
                 HasDigit(password), HasNonAlnum(password));
    r := Strength(Min(score, 5), LabelAt(score), ColorAt(score));
  }

  /** `getPasswordRequirements` */
  function GetPasswordRequirements(password: string): Requirements {
    Requirements(
      length := |password| >= 8,
      uppercase := HasUpper(password),
      lowercase := HasLower(password),
      number := HasDigit(password),
      special := HasNonAlnum(password))
  }

  function MetCount(r: Requirements): nat {
    (if r.length then 1 else 0) + (if r.uppercase then 1 else 0) + (if r.lowercase then 1 else 0)
    + (if r.number then 1 else 0) + (if r.special then 1 else 0)
  }

  /** The raw score lies in 0..6 and is the count of met requirements, plus one for a
      password of twelve characters or more. */
  lemma RawScoreFromRequirements(password: string)
    ensures RawScore(password) == MetCount(GetPasswordRequirements(password))
                                  + (if |password| >= 12 then 1 else 0)
    ensures RawScore(password) <= 6
  {
    CountTrueSix(|password| >= 8, |password| >= 12, HasLower(password), HasUpper(password),
                 HasDigit(password), HasNonAlnum(password));
  }

  /** "special" is met by any character that is not an ASCII letter or digit, a space
      included. */
  lemma SpecialIsAnyNonAlnum(password: string, k: nat)
    requires k < |password| && !IsAsciiAlnum(password[k])
    ensures GetPasswordRequirements(password).special
    ensures GetPasswordRequirements(" ").special
  {
    assert !IsAsciiAlnum(" "[0]);
  }

  /** The labels the table gives to each raw score. */
  lemma LabelTable(password: string)
    ensures RawScore(password) <= 1 ==> LabelAt(RawScore(password)) == Weak
    ensures RawScore(password) == 2 ==> LabelAt(RawScore(password)) == Fair
    ensures RawScore(password) == 3 ==> LabelAt(RawScore(password)) == Good
    ensures 4 <= RawScore(password) <= 5 ==> LabelAt(RawScore(password)) == Strong
    ensures RawScore(password) == 6 ==> LabelAt(RawScore(password)) == Weak
  {
  }

  /** Appending characters never lowers the raw score: every criterion, once met, stays met. */
  lemma RawScoreMonotone(password: string, suffix: string)
    ensures RawScore(password) <= RawScore(password + suffix)
  {
    var q := password + suffix;
    ClassesSurviveAppend(password, suffix);
    CountTrueSix(|password| >= 8, |password| >= 12, HasLower(password), HasUpper(password),
                 HasDigit(password), HasNonAlnum(password));
    CountTrueSix(|q| >= 8, |q| >= 12, HasLower(q), HasUpper(q), HasDigit(q), HasNonAlnum(q));
  }

  /** A password that meets all six criteria: displayed score 5, yet labelled "Weak" in the
      destructive colour, because `labels[6]` is past the end of the table. */
  lemma AllCriteriaLabelledWeak(password: string)
    requires |password| >= 12 && HasLower(password) && HasUpper(password)
    requires HasDigit(password) && HasNonAlnum(password)
    ensures RawScore(password) == 6 && Min(RawScore(password), 5) == 5
    ensures LabelAt(RawScore(password)) == Weak && ColorAt(RawScore(password)) == "bg-destructive"
  {
    CountTrueSix(|password| >= 8, |password| >= 12, HasLower(password), HasUpper(password),
                 HasDigit(password), HasNonAlnum(password));
  }

  /** The label is not monotone: "Abcdefg1" is "Strong", and appending "!xyz" makes it "Weak". */
  lemma LabelNotMonotone()
    ensures LabelAt(RawScore("Abcdefg1")) == Strong
    ensures LabelAt(RawScore("Abcdefg1" + "!xyz")) == Weak
  {
    var p := "Abcdefg1";
    assert IsUpper(p[0]) && IsLower(p[1]) && IsDigit(p[7]);
    assert forall i | 0 <= i < |p| :: IsAsciiAlnum(p[i]);
    CountTrueSix(|p| >= 8, |p| >= 12, HasLower(p), HasUpper(p), HasDigit(p), HasNonAlnum(p));
    var q := p + "!xyz";
    assert IsUpper(q[0]) && IsLower(q[1]) && IsDigit(q[7]) && !IsAsciiAlnum(q[8]);
    AllCriteriaLabelledWeak(q);
  }

  // ----- the lookup as evidently intended ----------------------------------------

  /** The meter with the label and colour looked up by the capped score. */
  function CorrectedPasswordStrength(password: string): (r: Strength)
    ensures 0 <= r.score <= 5 && r.score == Min(RawScore(password), 5)
    ensures RawScore(password) >= 4 ==> r.strengthLabel == Strong && r.color == "bg-green-500"
    ensures RawScore(password) <= 1 ==> r.strengthLabel == Weak
  {
    var score := Min(RawScore(password), 5);
    Strength(score, LabelAt(score), ColorAt(score))
  }

  function Rank(l: Label): nat {
    match l
    case Weak => 0
    case Fair => 1
    case Good => 2
    case Strong => 3
  }

  /** With the capped lookup the label never drops as characters are appended. */
  lemma CorrectedLabelMonotone(password: string, suffix: string)
    ensures Rank(CorrectedPasswordStrength(password).strengthLabel)
            <= Rank(CorrectedPasswordStrength(password + suffix).strengthLabel)
  {
    RawScoreMonotone(password, suffix);
  }
}
