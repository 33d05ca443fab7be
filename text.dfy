/**
 * Character and string helpers shared by the model: the C library's
 * ASCII case mapping, the truncation at the first NUL that `strncpy`
 * and `strlen` cause, searching, and the decimal formatting and parsing
 * done by the C++ stream operators.
 */
module Text {
  import opened Wrappers

  /** `toupper` in the "C" locale. */
  function UpperChar(c: char): char {
    if 'a' <= c <= 'z' then c - 'a' + 'A' else c
  }

  /** `tolower` in the "C" locale. */
  function LowerChar(c: char): char {
    if 'A' <= c <= 'Z' then c - 'A' + 'a' else c
  }

  /** `transform(..., ::toupper)`. */
  function ToUpper(s: string): (r: string)
    ensures |r| == |s|
  {
    if s == [] then [] else [UpperChar(s[0])] + ToUpper(s[1..])
  }

  /** `transform(..., tolower)`. */
  function ToLower(s: string): (r: string)
    ensures |r| == |s|
  {
    if s == [] then [] else [LowerChar(s[0])] + ToLower(s[1..])
  }

  lemma {:induction false} ToLowerAt(s: string, i: nat)
    requires i < |s|
    ensures ToLower(s)[i] == LowerChar(s[i])
  {
    if i > 0 {
      ToLowerAt(s[1..], i - 1);
    }
  }

  lemma {:induction false} ToUpperAt(s: string, i: nat)
    requires i < |s|
    ensures ToUpper(s)[i] == UpperChar(s[i])
  {
    if i > 0 {
      ToUpperAt(s[1..], i - 1);
    }
  }

  /** Lower-casing one more character appends its lower-case form. */
  lemma {:induction false} ToLowerSnoc(s: string, c: char)
    ensures ToLower(s + [c]) == ToLower(s) + [LowerChar(c)]
  {
    if s != [] {
      assert (s + [c])[1..] == s[1..] + [c];
      ToLowerSnoc(s[1..], c);
    }
  }

  predicate NoUpper(s: string) {
    forall i :: 0 <= i < |s| ==> !('A' <= s[i] <= 'Z')
  }

  /** Lower-casing leaves no upper-case letter, and keeps every other character. */
  lemma ToLowerNoUpper(s: string)
    ensures NoUpper(ToLower(s))
    ensures forall i :: 0 <= i < |s| && !('A' <= s[i] <= 'Z') ==> ToLower(s)[i] == s[i]
  {
    forall i | 0 <= i < |s| ensures ToLower(s)[i] == LowerChar(s[i]) {
      ToLowerAt(s, i);
    }
  }

  /** Lower-casing a string with no upper-case letter gives it back. */
  lemma ToLowerOfLower(s: string)
    requires NoUpper(s)
    ensures ToLower(s) == s
  {
    ToLowerNoUpper(s);
  }

  /**
   * The part of `s` a C string routine sees: everything before the
   * first NUL character.
   */
  function TakeUntilNul(s: string): (r: string)
    ensures |r| <= |s|
    ensures '\0' !in r
  {
    if s == [] || s[0] == '\0' then [] else [s[0]] + TakeUntilNul(s[1..])
  }

  /** What is kept is a prefix, and it stops only at a NUL or at the end. */
  lemma {:induction false} TakeUntilNulPrefix(s: string)
    ensures var r := TakeUntilNul(s); r == s[..|r|] && (|r| < |s| ==> s[|r|] == '\0')
  {
    if s != [] && s[0] != '\0' {
      TakeUntilNulPrefix(s[1..]);
    }
  }

  /** The first index at or after `from` holding `c`, or `|s|` (`std::find`). */
  function Find(s: string, c: char, from: nat): (r: nat)
    requires from <= |s|
    ensures from <= r <= |s|
    ensures forall j :: from <= j < r ==> s[j] != c
    ensures r < |s| ==> s[r] == c
    decreases |s| - from
  {
    if from == |s| || s[from] == c then from else Find(s, c, from + 1)
  }

  predicate OccursAt(s: string, pat: string, j: nat) {
    j + |pat| <= |s| && s[j..j + |pat|] == pat
  }

  /**
   * The first index at or after `from` where `pat` occurs in full, or `|s|`
   * when there is none (`std::search`).
   */
  function Search(s: string, pat: string, from: nat): (r: nat)
    requires from <= |s|
    ensures from <= r <= |s|
    ensures forall j :: from <= j < r ==> !OccursAt(s, pat, j)
    ensures r < |s| ==> OccursAt(s, pat, r)
    decreases |s| - from
  {
    if from == |s| || OccursAt(s, pat, from) then from else Search(s, pat, from + 1)
  }

  predicate IsDigit(c: char) { '0' <= c <= '9' }

  predicate AllDigits(s: string) {
    forall i :: 0 <= i < |s| ==> IsDigit(s[i])
  }

  function DigitChar(d: nat): (c: char)
    requires d < 10
    ensures IsDigit(c) && c as int - '0' as int == d
  {
    '0' + d as char
  }

  /** The decimal text of `n`, as written by `ostream << n`. */
  function NatToDecimal(n: nat): (r: string)
    ensures |r| >= 1 && AllDigits(r)
    ensures n > 0 ==> r[0] != '0'
  {
    if n < 10 then [DigitChar(n)] else NatToDecimal(n / 10) + [DigitChar(n % 10)]
  }

  /** The decimal text of a signed integer, with a leading '-' when negative. */
  function IntToDecimal(i: int): (r: string)
    ensures |r| >= 1
    ensures (i < 0) == (r[0] == '-')
  {
    if i < 0 then "-" + NatToDecimal(-i) else NatToDecimal(i)
  }

  /** The value of a string of decimal digits. */
  function DigitsValue(s: string): nat
    requires AllDigits(s)
  {
    if s == [] then 0 else DigitsValue(s[..|s| - 1]) * 10 + (s[|s| - 1] as int - '0' as int)
  }

  /** Reading back the decimal text of a number gives the number. */
  lemma {:induction false} DecimalRoundTrip(n: nat)
    ensures DigitsValue(NatToDecimal(n)) == n
  {
    if n >= 10 {
      DecimalRoundTrip(n / 10);
      var r := NatToDecimal(n);
      assert r[..|r| - 1] == NatToDecimal(n / 10);
    }
  }

  /** The longest prefix of `s` made of decimal digits. */
  function LeadingDigits(s: string): (r: string)
    ensures |r| <= |s| && AllDigits(r)
  {
    if s == [] || !IsDigit(s[0]) then [] else [s[0]] + LeadingDigits(s[1..])
  }

  lemma {:induction false} LeadingDigitsOfDigits(s: string)
    requires AllDigits(s)
    ensures LeadingDigits(s) == s
  {
    if s != [] {
      LeadingDigitsOfDigits(s[1..]);
    }
  }

  /** The digits read are exactly the maximal run of digits at the front. */
  lemma {:induction false} LeadingDigitsMaximal(s: string)
    ensures var r := LeadingDigits(s); r == s[..|r|] && (|r| < |s| ==> !IsDigit(s[|r|]))
  {
    if s != [] && IsDigit(s[0]) {
      LeadingDigitsMaximal(s[1..]);
    }
  }

  /** White space as `isspace` sees it in the "C" locale. */
  predicate IsSpace(c: char) {
    c == ' ' || c == '\t' || c == '\n' || c == '\r' || c == '\U{0B}' || c == '\U{0C}'
  }

  function SkipSpace(s: string): (r: string)
    ensures |r| <= |s|
  {
    if s != [] && IsSpace(s[0]) then SkipSpace(s[1..]) else s
  }

  /** What is skipped is white space, and what is left does not start with any. */
  lemma {:induction false} SkipSpaceSuffix(s: string)
    ensures var r := SkipSpace(s); r == s[|s| - |r|..] && (r != [] ==> !IsSpace(r[0]))
    ensures forall i :: 0 <= i < |s| - |SkipSpace(s)| ==> IsSpace(s[i])
  {
    if s != [] && IsSpace(s[0]) {
      SkipSpaceSuffix(s[1..]);
    }
  }

  const ShortMin := -32768
  const ShortMax := 32767

  function ClampShort(v: int): (r: int)
    ensures ShortMin <= r <= ShortMax
    ensures ShortMin <= v <= ShortMax ==> r == v
  {
    if v < ShortMin then ShortMin else if v > ShortMax then ShortMax else v
  }

  /**
   * Extraction of a `short` from a string stream holding `t` (`stream >> n`):
   * leading white space is skipped; when nothing is left the target is not
   * written at all (None); otherwise an optional sign and the longest run of
   * digits are read, no digit at all stores 0, and a value outside the range
   * of `short` stores the nearest bound.
   */
  function ExtractShort(t: string): (r: Option<int>)
    ensures r.Some? ==> ShortMin <= r.value <= ShortMax
  {
    var u := SkipSpace(t);
    if u == [] then None
    else
      var negative := u[0] == '-';
      var rest := if u[0] == '-' || u[0] == '+' then u[1..] else u;
      var digits := LeadingDigits(rest);
      if digits == [] then Some(0)
      else
        var magnitude: int := DigitsValue(digits);
        Some(ClampShort(if negative then -magnitude else magnitude))
  }

  /** The decimal text of any `short`-sized natural reads back as itself. */
  lemma ExtractShortOfDecimal(n: nat)
    requires n <= ShortMax
    ensures ExtractShort(NatToDecimal(n)) == Some(n)
  {
    var t := NatToDecimal(n);
    assert IsDigit(t[0]) && !IsSpace(t[0]);
    assert SkipSpace(t) == t;
    assert t[0] != '-' && t[0] != '+';
    LeadingDigitsOfDigits(t);
    DecimalRoundTrip(n);
    assert DigitsValue(LeadingDigits(t)) == n;
  }
  /** Nothing is extracted exactly when the text is all white space. */
  lemma ExtractShortBlank(t: string)
    ensures ExtractShort(t).None? <==> forall i :: 0 <= i < |t| ==> IsSpace(t[i])
  {
    SkipSpaceSuffix(t);
    var r := SkipSpace(t);
    if r != [] {
      assert r[0] == t[|t| - |r|];
    }
  }

  /**
   * Text of white space, a run of digits and then anything that is not a
   * digit is read as the value of that run, clamped to `short`: whatever
   * follows the digits is ignored.
   */
  lemma ExtractShortReadsLeadingDigits(t: string, k: nat, n: nat)
    requires 0 < n && k + n <= |t|
    requires forall i :: 0 <= i < k ==> IsSpace(t[i])
    requires forall i :: k <= i < k + n ==> IsDigit(t[i])
    requires k + n < |t| ==> !IsDigit(t[k + n])
    ensures AllDigits(t[k..k + n])
    ensures ExtractShort(t) == Some(ClampShort(DigitsValue(t[k..k + n])))
  {
    SkipSpaceSuffix(t);
    var u := SkipSpace(t);
    var m := |t| - |u|;
    assert !IsSpace(t[k]);
    assert u[0] == t[m];
    assert u == t[k..];
    assert u[0] != '-' && u[0] != '+';
    LeadingDigitsMaximal(u);
    var d := LeadingDigits(u);
    assert d == t[k..k + n];
  }
}
