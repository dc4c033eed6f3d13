/** `String.prototype.trim`. */
module JsString {

  /** The WhiteSpace and LineTerminator code points that `trim` strips (ECMAScript). */
  predicate IsWhitespace(c: char) {
    c == '\t' || c == '\n' || c == '\U{000B}' || c == '\U{000C}' || c == '\r' || c == ' '
    || c == '\U{00A0}' || c == '\U{1680}' || ('\U{2000}' <= c <= '\U{200A}')
    || c == '\U{2028}' || c == '\U{2029}' || c == '\U{202F}' || c == '\U{205F}'
    || c == '\U{3000}' || c == '\U{FEFF}'
  }

  ghost predicate AllWhitespace(s: string) {
    forall i :: 0 <= i < |s| ==> IsWhitespace(s[i])
  }

  /** The length of the whitespace run that starts `s`. */
  function LeadingWhitespace(s: string): (n: nat)
    ensures n <= |s|
    ensures AllWhitespace(s[..n])
    ensures n < |s| ==> !IsWhitespace(s[n])
  {
    if s != [] && IsWhitespace(s[0]) then
      var n := 1 + LeadingWhitespace(s[1..]);
      assert forall i :: 1 <= i < n ==> s[..n][i] == s[1..][..n - 1][i - 1];
      n
    else 0
  }

  /** The length of the whitespace run that ends `s`. */
  function TrailingWhitespace(s: string): (n: nat)
    ensures n <= |s|
    ensures AllWhitespace(s[|s| - n..])
    ensures n < |s| ==> !IsWhitespace(s[|s| - 1 - n])
  {
    if s != [] && IsWhitespace(s[|s| - 1]) then
      var prefix := s[..|s| - 1];
      var m := TrailingWhitespace(prefix);
      assert s[|s| - (m + 1)..] == prefix[|prefix| - m..] + [s[|s| - 1]];
      assert m + 1 < |s| ==> s[|s| - 1 - (m + 1)] == prefix[|prefix| - 1 - m];
      m + 1
    else 0
  }

  /**
   * `s.trim()`: `s` without its leading and trailing whitespace. The result is the slice of `s`
   * between the two whitespace runs; it is empty exactly when `s` is all whitespace, and otherwise
   * starts and ends with a non-whitespace character.
   */
  function Trim(s: string): (r: string)
    ensures |r| <= |s|
    ensures r == [] <==> AllWhitespace(s)
    ensures r != [] ==> !IsWhitespace(r[0]) && !IsWhitespace(r[|r| - 1])
    ensures r != [] ==> r == s[LeadingWhitespace(s)..|s| - TrailingWhitespace(s)]
  {
    var lead := LeadingWhitespace(s);
    if lead == |s| then
      []
    else
      var trail := TrailingWhitespace(s);
      assert !IsWhitespace(s[lead]);
      var r := s[lead..|s| - trail];
      assert r[0] == s[lead] && r[|r| - 1] == s[|s| - 1 - trail];
      assert !AllWhitespace(s) by { assert !IsWhitespace(s[lead]); }
      r
  }

  /** Trimming twice trims nothing more. */
  lemma TrimIdempotent(s: string)
    ensures Trim(Trim(s)) == Trim(s)
  {
    var r := Trim(s);
    if r != [] {
      assert LeadingWhitespace(r) == 0;
      assert TrailingWhitespace(r) == 0;
      assert !AllWhitespace(r) by { assert !IsWhitespace(r[0]); }
    }
  }
}
