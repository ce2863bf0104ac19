/** Models of the JavaScript string built-ins the authentication code relies on:
    `String.prototype.trim`, `Number.prototype.toString` on integers, `padStart`,
    `slice`/`substring` prefixes, `Array.prototype.join("")` and the `/\D/g` digit filter.
    A JavaScript string is modelled as a sequence of characters. */
module JsText {

  datatype Option<+T> = None | Some(value: T)

  /** A string that may be absent (`undefined` or `null`), used as a condition: it holds
      when present and not "". */
  predicate IsShown(o: Option<string>) { o.Some? && o.value != "" }

  function Min(a: int, b: int): int { if a < b then a else b }
  function Max(a: int, b: int): int { if a < b then b else a }

  // ----- character classes -------------------------------------------------

  /** `\d`, `[0-9]` */
  predicate IsDigit(c: char) { '0' <= c <= '9' }
  /** `[a-z]` */
  predicate IsLower(c: char) { 'a' <= c <= 'z' }
  /** `[A-Z]` */
  predicate IsUpper(c: char) { 'A' <= c <= 'Z' }
  /** `[a-zA-Z0-9]` */
  predicate IsAsciiAlnum(c: char) { IsDigit(c) || IsLower(c) || IsUpper(c) }

  /** The line terminators: the characters `.` in a regular expression does not match. */
  predicate IsLineTerminator(c: char) {
    c == '\n' || c == '\r' || c == '\U{2028}' || c == '\U{2029}'
  }

  /** `\s` in a regular expression, which is also the set `trim()` removes:
      the ECMAScript WhiteSpace and LineTerminator characters. */
  predicate IsJsSpace(c: char) {
    c == '\t' || c == '\n' || c == '\U{000B}' || c == '\U{000C}' || c == '\r' || c == ' '
    || c == '\U{00A0}' || c == '\U{1680}' || ('\U{2000}' <= c <= '\U{200A}')
    || c == '\U{2028}' || c == '\U{2029}' || c == '\U{202F}' || c == '\U{205F}'
    || c == '\U{3000}' || c == '\U{FEFF}'
  }

  predicate AllDigits(s: string) { forall i | 0 <= i < |s| :: IsDigit(s[i]) }

  /** A string that `trim()` empties: nothing but white space. */
  predicate IsBlank(s: string) { forall i | 0 <= i < |s| :: IsJsSpace(s[i]) }

  // ----- trim ---------------------------------------------------------------

  /** A blank run after a leading white-space character is a longer blank run. */
  lemma BlankAfterBlank(s: string, k: nat)
    requires 1 <= k <= |s| && IsJsSpace(s[0]) && IsBlank(s[1..][..k - 1])
    ensures IsBlank(s[..k])
  {
    forall i | 1 <= i < k ensures IsJsSpace(s[i]) {
      assert s[1..][..k - 1][i - 1] == s[i];
    }
  }

  /** A blank run before a trailing white-space character is a longer blank run. */
  lemma BlankBeforeBlank(s: string, k: nat)
    requires k < |s| && IsJsSpace(s[|s| - 1]) && IsBlank(s[..|s| - 1][k..])
    ensures IsBlank(s[k..])
  {
    forall i | k <= i < |s| - 1 ensures IsJsSpace(s[i]) {
      assert s[..|s| - 1][k..][i - k] == s[i];
    }
  }

  /** The number of white-space characters `s` starts with. */
  function LeadingBlanks(s: string): (k: nat)
    ensures k <= |s| && IsBlank(s[..k])
    ensures k == |s| || !IsJsSpace(s[k])
  {
    if s != [] && IsJsSpace(s[0]) then
      var k := 1 + LeadingBlanks(s[1..]);
      BlankAfterBlank(s, k);
      k
    else 0
  }

  /** The length of `s` without the white space it ends with. */
  function TrailingStart(s: string): (k: nat)
    ensures k <= |s| && IsBlank(s[k..])
    ensures k == 0 || !IsJsSpace(s[k - 1])
  {
    if s != [] && IsJsSpace(s[|s| - 1]) then
      var k := TrailingStart(s[..|s| - 1]);
      BlankBeforeBlank(s, k);
      k
    else |s|
  }

  /** `s.trimStart()` */
  function TrimStart(s: string): (r: string)
    ensures |r| <= |s| && r == s[|s| - |r|..]
    ensures r == [] || !IsJsSpace(r[0])
    ensures IsBlank(s[..|s| - |r|])
  {
    s[LeadingBlanks(s)..]
  }

  /** `s.trimEnd()` */
  function TrimEnd(s: string): (r: string)
    ensures |r| <= |s| && r == s[..|r|]
    ensures r == [] || !IsJsSpace(r[|r| - 1])
    ensures IsBlank(s[|r|..])
  {
    s[..TrailingStart(s)]
  }

  /** `s.trim()` */
  function Trim(s: string): string { TrimEnd(TrimStart(s)) }

  /** Where the result of `trim()` starts inside its argument. */
  function TrimOffset(s: string): (a: nat)
    ensures a <= |s|
  {
    |s| - |TrimStart(s)|
  }

  /** A prefix of a suffix is a slice. */
  lemma PrefixOfSuffix(s: string, a: nat, t: string, r: string)
    requires a <= |s| && t == s[a..] && |r| <= |t| && r == t[..|r|]
    ensures a + |r| <= |s| && r == s[a..a + |r|]
  {
    assert s[a..][..|r|] == s[a..a + |r|];
  }

  /** A blank tail of a suffix is a blank tail of the whole. */
  lemma BlankTailOfSuffix(s: string, a: nat, t: string, k: nat)
    requires a <= |s| && t == s[a..] && k <= |t| && IsBlank(t[k..])
    ensures IsBlank(s[a + k..])
  {
    assert s[a + k..] == t[k..];
  }

  /** `trim()` returns a contiguous slice of its argument. */
  lemma TrimSlice(s: string)
    ensures TrimOffset(s) + |Trim(s)| <= |s|
    ensures Trim(s) == s[TrimOffset(s)..TrimOffset(s) + |Trim(s)|]
  {
    PrefixOfSuffix(s, TrimOffset(s), TrimStart(s), Trim(s));
  }

  /** What `trim()` drops on either side is white space. */
  lemma TrimDropsBlanks(s: string)
    ensures TrimOffset(s) + |Trim(s)| <= |s|
    ensures IsBlank(s[..TrimOffset(s)]) && IsBlank(s[TrimOffset(s) + |Trim(s)|..])
  {
    BlankTailOfSuffix(s, TrimOffset(s), TrimStart(s), |Trim(s)|);
  }

  /** The result of `trim()` neither starts nor ends with white space. */
  lemma TrimEdges(s: string)
    ensures Trim(s) == [] || (!IsJsSpace(Trim(s)[0]) && !IsJsSpace(Trim(s)[|Trim(s)| - 1]))
  {
    var t := TrimStart(s);
    assert Trim(s) != [] ==> Trim(s)[0] == t[0];
  }

  /** What `trim()` returns: the middle part of `s` that neither starts nor ends with white
      space, having dropped only white space on either side. */
  lemma TrimIsCore(s: string)
    ensures var r, a := Trim(s), TrimOffset(s);
      && a + |r| <= |s| && r == s[a..a + |r|] && IsBlank(s[..a]) && IsBlank(s[a + |r|..])
    ensures var r := Trim(s); r == [] || (!IsJsSpace(r[0]) && !IsJsSpace(r[|r| - 1]))
  {
    TrimSlice(s);
    TrimDropsBlanks(s);
    TrimEdges(s);
  }

  /** A string is emptied by `trim()` exactly when it is blank. */
  lemma TrimEmptyIffBlank(s: string)
    ensures Trim(s) == [] <==> IsBlank(s)
  {
    var t := TrimStart(s);
    if Trim(s) == [] {
      assert t[0..] == t;
      assert IsBlank(t);
      assert s[..|s| - |t|] == s;
    } else {
      var r := Trim(s);
      assert r[0] == t[0] == s[|s| - |t|];
    }
  }

  /** `!s.trim()`, the test the forms use for a missing field: true for white space only. */
  method TrimsToEmpty(s: string) returns (empty: bool)
    ensures empty <==> IsBlank(s)
  {
    empty := Trim(s) == "";
    TrimEmptyIffBlank(s);
  }

  /** `trim()` is idempotent. */
  lemma TrimIdempotent(s: string)
    ensures Trim(Trim(s)) == Trim(s)
  {
    var r := Trim(s);
    TrimIsCore(s);
    assert TrimStart(r) == r;
    assert TrimEnd(r) == r;
  }

  // ----- prefixes, filters, joins ----------------------------------------------

  /** `s.slice(0, n)` and `s.substring(0, n)` for a non-negative `n`. */
  function Take<T>(s: seq<T>, n: nat): (r: seq<T>)
    ensures |r| == Min(n, |s|) && r == s[..|r|]
  {
    if |s| <= n then s else s[..n]
  }

  /** `s.replace(/\D/g, "")`: the digits of `s`, in order. */
  function DigitsOf(s: string): (r: string)
    ensures AllDigits(r) && |r| <= |s|
    ensures AllDigits(s) ==> r == s
  {
    if s == [] then []
    else if IsDigit(s[0]) then [s[0]] + DigitsOf(s[1..])
    else DigitsOf(s[1..])
  }

  /** The filter works character by character: a digit stays, anything else goes. */
  lemma DigitsOfOneChar(c: char)
    ensures DigitsOf([c]) == if IsDigit(c) then [c] else []
  {
    assert [c][1..] == [];
  }

  /** Filtering a concatenation filters each part and keeps them in order; with
      `DigitsOfOneChar`, this says every digit of the input survives, in order. */
  lemma {:induction false} DigitsOfAppend(a: string, b: string)
    ensures DigitsOf(a + b) == DigitsOf(a) + DigitsOf(b)
  {
    if a == [] {
      assert a + b == b;
    } else {
      assert (a + b)[0] == a[0] && (a + b)[1..] == a[1..] + b;
      DigitsOfAppend(a[1..], b);
    }
  }

  /** The filtered text is empty exactly when the input has no digit. */
  lemma {:induction false} DigitsOfKeepsDigits(s: string)
    ensures (exists i | 0 <= i < |s| :: IsDigit(s[i])) <==> DigitsOf(s) != []
  {
    if s != [] {
      DigitsOfKeepsDigits(s[1..]);
      if !IsDigit(s[0]) && (exists i | 0 <= i < |s| :: IsDigit(s[i])) {
        var i :| 0 <= i < |s| && IsDigit(s[i]);
        assert s[1..][i - 1] == s[i];
      }
      if exists i | 0 <= i < |s[1..]| :: IsDigit(s[1..][i]) {
        var i :| 0 <= i < |s[1..]| && IsDigit(s[1..][i]);
        assert s[i + 1] == s[1..][i];
      }
    }
  }

  /** `s.split("")`: one single-character string per character. */
  function Chars(s: string): (r: seq<string>)
    ensures |r| == |s| && forall i | 0 <= i < |s| :: r[i] == [s[i]]
  {
    seq(|s|, i requires 0 <= i < |s| => [s[i]])
  }

  /** `Array(n).fill("")` */
  function Blanks(n: nat): (r: seq<string>)
    ensures |r| == n && forall i | 0 <= i < n :: r[i] == ""
  {
    seq(n, _ => "")
  }

  /** `parts.join("")` */
  function Join(parts: seq<string>): string
  {
    if parts == [] then "" else parts[0] + Join(parts[1..])
  }

  lemma {:induction false} JoinAppend(a: seq<string>, b: seq<string>)
    ensures Join(a + b) == Join(a) + Join(b)
  {
    if a != [] {
      assert (a + b)[1..] == a[1..] + b;
      JoinAppend(a[1..], b);
    } else {
      assert a + b == b;
    }
  }

  /** Joining the characters of a string gives the string back. */
  lemma {:induction false} JoinChars(s: string)
    ensures Join(Chars(s)) == s
  {
    if s != [] {
      assert Chars(s)[1..] == Chars(s[1..]);
      JoinChars(s[1..]);
    }
  }

  lemma {:induction false} JoinBlanks(n: nat)
    ensures Join(Blanks(n)) == ""
  {
    if n > 0 {
      assert Blanks(n)[1..] == Blanks(n - 1);
      JoinBlanks(n - 1);
    }
  }

  // ----- decimal numerals --------------------------------------------------------

  function Pow10(k: nat): (p: nat)
    ensures p >= 1
  {
    if k == 0 then 1 else 10 * Pow10(k - 1)
  }

  function DigitChar(d: nat): (c: char)
    requires d < 10
    ensures IsDigit(c)
  {
    ('0' as int + d) as char
  }

  function DigitValue(c: char): (d: nat)
    requires IsDigit(c)
    ensures d < 10 && DigitChar(d) == c
  {
    c as int - '0' as int
  }

  /** The number a string of decimal digits denotes (leading zeros allowed). */
  function DecimalValue(s: string): nat
    requires AllDigits(s)
  {
    if s == [] then 0 else DecimalValue(s[..|s| - 1]) * 10 + DigitValue(s[|s| - 1])
  }

  /** `n.toString()` for a natural number `n`. */
  function NatToString(n: nat): (r: string)
    ensures |r| >= 1 && AllDigits(r)
  {
    if n < 10 then [DigitChar(n)] else NatToString(n / 10) + [DigitChar(n % 10)]
  }

  /** `i.toString()` for any integer `i`. */
  function IntToString(i: int): string
  {
    if i < 0 then "-" + NatToString(-i) else NatToString(i)
  }

  /** `toString()` is read back as the same number. */
  lemma {:induction false} NatToStringValue(n: nat)
    ensures DecimalValue(NatToString(n)) == n
  {
    var r := NatToString(n);
    if n >= 10 {
      NatToStringValue(n / 10);
      assert r[..|r| - 1] == NatToString(n / 10);
    }
  }

  /** A number below 10^k has at most k digits (k >= 1). */
  lemma {:induction false} NatToStringLength(n: nat, k: nat)
    requires k >= 1 && n < Pow10(k)
    ensures |NatToString(n)| <= k
  {
    if n >= 10 {
      NatToStringLength(n / 10, k - 1);
    }
  }

  /** A number of at least 10^k has more than k digits. */
  lemma {:induction false} NatToStringLongAbove(n: nat, k: nat)
    requires n >= Pow10(k)
    ensures |NatToString(n)| > k
  {
    if k > 0 {
      NatToStringLongAbove(n / 10, k - 1);
    }
  }

  lemma AllDigitsConcat(a: string, b: string)
    requires AllDigits(a) && AllDigits(b)
    ensures AllDigits(a + b)
  {
    forall i | 0 <= i < |a + b| ensures IsDigit((a + b)[i]) {
      if i >= |a| { assert (a + b)[i] == b[i - |a|]; }
    }
  }

  lemma ShiftStep(x: int, p: int, y: int, d: int)
    ensures (x * p + y) * 10 + d == x * (10 * p) + (y * 10 + d)
  {
    assert (x * p) * 10 == x * (10 * p);
  }

  lemma {:induction false} DecimalValueAppend(a: string, b: string)
    requires AllDigits(a) && AllDigits(b)
    ensures AllDigits(a + b)
    ensures DecimalValue(a + b) == DecimalValue(a) * Pow10(|b|) + DecimalValue(b)
  {
    AllDigitsConcat(a, b);
    if b != [] {
      var b' := b[..|b| - 1];
      assert (a + b)[..|a + b| - 1] == a + b';
      DecimalValueAppend(a, b');
      ShiftStep(DecimalValue(a), Pow10(|b'|), DecimalValue(b'), DigitValue(b[|b| - 1]));
    } else {
      assert a + b == a;
    }
  }

  /** `c` repeated `n` times. */
  function Repeat(c: char, n: nat): (r: string)
    ensures |r| == n && forall i | 0 <= i < n :: r[i] == c
  {
    if n == 0 then "" else Repeat(c, n - 1) + [c]
  }

  lemma {:induction false} ZerosValue(n: nat)
    ensures AllDigits(Repeat('0', n)) && DecimalValue(Repeat('0', n)) == 0
  {
    if n > 0 {
      var z := Repeat('0', n);
      assert z[..n - 1] == Repeat('0', n - 1);
      ZerosValue(n - 1);
    }
  }

  /** `s.padStart(len, c)`: `c` prepended until the string is `len` long; never truncates. */
  function PadStart(s: string, len: nat, c: char): (r: string)
    ensures |r| == Max(len, |s|)
    ensures r[|r| - |s|..] == s
    ensures forall i | 0 <= i < |r| - |s| :: r[i] == c
  {
    if |s| >= len then s else Repeat(c, len - |s|) + s
  }

  /** Zero-padding a digit string keeps its value. */
  lemma ZeroPadValue(s: string, len: nat)
    requires AllDigits(s)
    ensures AllDigits(PadStart(s, len, '0'))
    ensures DecimalValue(PadStart(s, len, '0')) == DecimalValue(s)
  {
    if |s| < len {
      ZerosValue(len - |s|);
      DecimalValueAppend(Repeat('0', len - |s|), s);
    }
  }
}
