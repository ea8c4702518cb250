/** The pieces of JavaScript string and number semantics that the scorer
    and the form rely on: the white-space set that `String.prototype.trim`
    and `parseInt` skip, `trim` itself, and `parseInt(s, 10) || 0`. */
module JsString {

  /** ECMAScript's StrWhiteSpaceChar: WhiteSpace (tab, vertical tab, form
      feed, the byte-order mark and every Unicode space separator) and
      LineTerminator (line feed, carriage return, U+2028, U+2029). */
  predicate IsWhiteSpace(c: char) {
    || c == '\U{0009}' || c == '\U{000B}' || c == '\U{000C}' || c == '\U{FEFF}'
    || c == '\U{0020}' || c == '\U{00A0}' || c == '\U{1680}'
    || ('\U{2000}' <= c <= '\U{200A}') || c == '\U{202F}' || c == '\U{205F}' || c == '\U{3000}'
    || c == '\U{000A}' || c == '\U{000D}' || c == '\U{2028}' || c == '\U{2029}'
  }

  predicate IsDigit(c: char) {
    '0' <= c <= '9'
  }

  function DigitChar(d: nat): (c: char)
    requires d < 10
    ensures IsDigit(c) && c as int - '0' as int == d
  {
    (d as char) + '0'
  }

  /** `s` with its leading white space removed. */
  function TrimStart(s: string): string {
    if s != [] && IsWhiteSpace(s[0]) then TrimStart(s[1..]) else s
  }

  /** `s` with its trailing white space removed. */
  function TrimEnd(s: string): string {
    if s != [] && IsWhiteSpace(s[|s| - 1]) then TrimEnd(s[..|s| - 1]) else s
  }

  /** `s.trim()`. */
  function Trim(s: string): string {
    TrimEnd(TrimStart(s))
  }

  /** `TrimStart` drops a run of white space from the front and stops at
      the first other character. */
  lemma {:induction false} TrimStartSpec(s: string)
    ensures |TrimStart(s)| <= |s| && TrimStart(s) == s[|s| - |TrimStart(s)|..]
    ensures TrimStart(s) == [] || !IsWhiteSpace(TrimStart(s)[0])
    ensures forall i :: 0 <= i < |s| - |TrimStart(s)| ==> IsWhiteSpace(s[i])
  {
    if s != [] && IsWhiteSpace(s[0]) {
      var t := s[1..];
      TrimStartSpec(t);
      assert TrimStart(s) == TrimStart(t);
      forall i | 0 <= i < |s| - |TrimStart(s)| ensures IsWhiteSpace(s[i]) {
        if i > 0 {
          assert s[i] == t[i - 1];
        }
      }
    }
  }

  /** `TrimEnd` drops a run of white space from the back and stops at the
      last other character. */
  lemma {:induction false} TrimEndSpec(s: string)
    ensures |TrimEnd(s)| <= |s| && TrimEnd(s) == s[..|TrimEnd(s)|]
    ensures TrimEnd(s) == [] || !IsWhiteSpace(TrimEnd(s)[|TrimEnd(s)| - 1])
    ensures forall i :: |TrimEnd(s)| <= i < |s| ==> IsWhiteSpace(s[i])
  {
    if s != [] && IsWhiteSpace(s[|s| - 1]) {
      var t := s[..|s| - 1];
      TrimEndSpec(t);
      assert TrimEnd(s) == TrimEnd(t);
      forall i | |TrimEnd(s)| <= i < |s| ensures IsWhiteSpace(s[i]) {
        if i < |s| - 1 {
          assert s[i] == t[i];
        }
      }
    }
  }

  /** `!s.trim()` holds exactly when every character of `s` is white space. */
  lemma TrimEmptyIffBlank(s: string)
    ensures Trim(s) == [] <==> forall i :: 0 <= i < |s| ==> IsWhiteSpace(s[i])
  {
    var t := TrimStart(s);
    TrimStartSpec(s);
    TrimEndSpec(t);
    if t != [] {
      assert t[0] == s[|s| - |t|];
    }
  }

  /** The number of decimal digits at the front of `s`. */
  function LeadingDigitCount(s: string): (n: nat)
    ensures n <= |s|
  {
    if s != [] && IsDigit(s[0]) then 1 + LeadingDigitCount(s[1..]) else 0
  }

  /** `LeadingDigitCount` counts the longest all-digit prefix. */
  lemma {:induction false} LeadingDigitCountSpec(s: string)
    ensures forall i :: 0 <= i < LeadingDigitCount(s) ==> IsDigit(s[i])
    ensures LeadingDigitCount(s) < |s| ==> !IsDigit(s[LeadingDigitCount(s)])
  {
    if s != [] && IsDigit(s[0]) {
      LeadingDigitCountSpec(s[1..]);
    }
  }

  /** The value of a string of decimal digits, read most significant first. */
  function DigitsValue(ds: string): int {
    if ds == [] then 0 else DigitsValue(ds[..|ds| - 1]) * 10 + (ds[|ds| - 1] as int - '0' as int)
  }

  /** The value of the longest run of decimal digits at the front of `s`
      (0 when there is none). */
  function LeadingValue(s: string): int {
    DigitsValue(s[..LeadingDigitCount(s)])
  }

  /** `parseInt(s, 10) || 0`: leading white space is skipped, one optional
      sign is read, then the longest run of decimal digits. When there is
      no digit `parseInt` yields NaN and `|| 0` turns it into 0, as it does
      -0; both are the value 0 of an empty run of digits. */
  function ParseIntOrZero(s: string): int {
    if s != [] && IsWhiteSpace(s[0]) then ParseIntOrZero(s[1..])
    else if s != [] && s[0] == '-' then -LeadingValue(s[1..])
    else if s != [] && s[0] == '+' then LeadingValue(s[1..])
    else LeadingValue(s)
  }

  /** The decimal rendering of a natural number, without leading zeros. */
  function Show(n: nat): (r: string)
    ensures r != [] && forall i :: 0 <= i < |r| ==> IsDigit(r[i])
  {
    if n < 10 then [DigitChar(n)] else Show(n / 10) + [DigitChar(n % 10)]
  }

  lemma {:induction false} DigitsValueShow(n: nat)
    ensures DigitsValue(Show(n)) == n
  {
    if n >= 10 {
      var s := Show(n);
      assert s[..|s| - 1] == Show(n / 10);
      DigitsValueShow(n / 10);
    }
  }

  lemma {:induction false} LeadingDigitCountOfDigits(s: string)
    requires forall i :: 0 <= i < |s| ==> IsDigit(s[i])
    ensures LeadingDigitCount(s) == |s|
  {
    if s != [] {
      LeadingDigitCountOfDigits(s[1..]);
    }
  }

  /** Reading back a rendered natural number yields that number: every
      option code that is written as `Show(n)` parses to `n`. */
  lemma ParseShow(n: nat)
    ensures ParseIntOrZero(Show(n)) == n
  {
    var s := Show(n);
    assert !IsWhiteSpace(s[0]) && s[0] != '-' && s[0] != '+';
    LeadingDigitCountOfDigits(s);
    assert s[..|s|] == s;
    DigitsValueShow(n);
  }

  /** Only zero renders as "0". */
  lemma ShowPositiveIsNotZero(n: nat)
    requires n > 0
    ensures Show(n) != "0"
  {
    if n < 10 {
      assert Show(n)[0] == DigitChar(n);
    } else {
      assert |Show(n)| == |Show(n / 10)| + 1;
    }
  }

  /** A code with no decimal digit where `parseInt` starts reading them
      (after the leading white space and one optional sign), such as "",
      "N/A", "x9" or "- 1", reads as 0: `parseInt` yields NaN and `|| 0`
      replaces it. */
  lemma {:induction false} ParseNoLeadingDigitIsZero(s: string)
    requires var t := TrimStart(s);
             t == [] || (!IsDigit(t[0]) && (t[0] == '-' || t[0] == '+' ==> |t| == 1 || !IsDigit(t[1])))
    ensures ParseIntOrZero(s) == 0
  {
    if s != [] && IsWhiteSpace(s[0]) {
      assert TrimStart(s) == TrimStart(s[1..]);
      ParseNoLeadingDigitIsZero(s[1..]);
    } else if s != [] && (s[0] == '-' || s[0] == '+') {
      assert s[1..] == [] || !IsDigit(s[1..][0]);
      assert s[1..][..0] == [];
    } else {
      assert s[..0] == [];
    }
  }

  /** The top code "10" reads as ten. */
  lemma ParseTen()
    ensures ParseIntOrZero("10") == 10
  {
    assert "10" == Show(10);
    ParseShow(10);
  }

  /** The unselected sentinel "0" contributes nothing. */
  lemma ParseSentinelIsZero()
    ensures ParseIntOrZero("0") == 0
  {
    assert "0" == Show(0);
    ParseShow(0);
  }
}
