/** JavaScript's `String.prototype.trim` and the blank-line test `!text.trim()` built on it. */
module Text {

  /** The code points `trim` removes: ECMAScript WhiteSpace and LineTerminator characters. */
  predicate IsWhitespace(c: char) {
    var n := c as int;
    || n == 0x09 || n == 0x0A || n == 0x0B || n == 0x0C || n == 0x0D
    || n == 0x20 || n == 0xA0 || n == 0x1680
    || (0x2000 <= n <= 0x200A)
    || n == 0x2028 || n == 0x2029 || n == 0x202F || n == 0x205F
    || n == 0x3000 || n == 0xFEFF
  }

  /** Index of the first non-whitespace character at or after `i` (or `|s|`). */
  function SkipLeading(s: string, i: nat): (n: nat)
    requires i <= |s|
    ensures i <= n <= |s|
    ensures forall k :: i <= k < n ==> IsWhitespace(s[k])
    ensures n < |s| ==> !IsWhitespace(s[n])
    decreases |s| - i
  {
    if i < |s| && IsWhitespace(s[i]) then SkipLeading(s, i + 1) else i
  }

  /** End of `s[lo..j]` once its trailing whitespace is dropped. */
  function SkipTrailing(s: string, lo: nat, j: nat): (n: nat)
    requires lo <= j <= |s|
    ensures lo <= n <= j
    ensures forall k :: n <= k < j ==> IsWhitespace(s[k])
    ensures lo < n ==> !IsWhitespace(s[n - 1])
    decreases j
  {
    if lo < j && IsWhitespace(s[j - 1]) then SkipTrailing(s, lo, j - 1) else j
  }

  /** `s.trim()`: leading whitespace is removed first, then trailing whitespace of the rest. */
  function Trim(s: string): string {
    var a := SkipLeading(s, 0);
    s[a..SkipTrailing(s, a, |s|)]
  }

  /** `!text.trim()`: the trimmed string is the empty (falsy) string. */
  predicate IsBlank(text: string) {
    Trim(text) == []
  }

  /** A line is blank exactly when every one of its characters is whitespace. */
  lemma BlankIffAllWhitespace(text: string)
    ensures IsBlank(text) <==> forall i :: 0 <= i < |text| ==> IsWhitespace(text[i])
  {
    var a := SkipLeading(text, 0);
    var b := SkipTrailing(text, a, |text|);
    assert |Trim(text)| == b - a;
    if !forall i :: 0 <= i < |text| ==> IsWhitespace(text[i]) {
      var j :| 0 <= j < |text| && !IsWhitespace(text[j]);
      assert a <= j < b;
    }
  }
}
