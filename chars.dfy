/** Character classes of the C library, in the "C" locale, used by the text helpers. */
module Chars {
  /** std::isspace: space, tab, newline, vertical tab, form feed, carriage return. */
  predicate IsSpace(c: char) {
    c == ' ' || c == '\t' || c == '\n' || c == '\r' || c as int == 11 || c as int == 12
  }

  /** std::isdigit. */
  predicate IsDigit(c: char) {
    '0' <= c <= '9'
  }

  /** std::isalnum. */
  predicate IsAlnum(c: char) {
    IsDigit(c) || 'a' <= c <= 'z' || 'A' <= c <= 'Z'
  }

  /** Index of the first non-space character at or after `i`. */
  function SkipLeading(s: string, i: nat): (j: nat)
    requires i <= |s|
    ensures i <= j <= |s|
    ensures forall k :: i <= k < j ==> IsSpace(s[k])
    ensures j < |s| ==> !IsSpace(s[j])
    decreases |s| - i
  {
    if i == |s| || !IsSpace(s[i]) then i else SkipLeading(s, i + 1)
  }

  /** Index of the first non-digit at or after `i`. */
  function SkipDigits(s: string, i: nat): (j: nat)
    requires i <= |s|
    ensures i <= j <= |s|
    ensures forall k :: i <= k < j ==> IsDigit(s[k])
    ensures j < |s| ==> !IsDigit(s[j])
    decreases |s| - i
  {
    if i == |s| || !IsDigit(s[i]) then i else SkipDigits(s, i + 1)
  }

  /** The decimal value of a run of digits. */
  function DigitsValue(ds: string): (v: nat)
    requires forall k :: 0 <= k < |ds| ==> IsDigit(ds[k])
  {
    if |ds| == 0 then 0
    else
      var d := ds[|ds| - 1];
      assert IsDigit(d);
      DigitsValue(ds[..|ds| - 1]) * 10 + ((d as int) - ('0' as int))
  }
}
