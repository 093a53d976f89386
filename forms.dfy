/** The text tests the sign-up and sign-in forms apply: JavaScript's notion of white space
    (`\s` in a regular expression, and what `trim` strips) and the e-mail pattern
    `/\S+@\S+\.\S+/` matched anywhere in the input. */
module Forms {
  /** A character of JavaScript's white-space or line-terminator classes. */
  predicate IsSpace(c: char) {
    c == '\t' || c == '\n' || c == '\U{B}' || c == '\U{C}' || c == '\r' || c == ' ' ||
    c == '\U{A0}' || c == '\U{1680}' || ('\U{2000}' <= c <= '\U{200A}') ||
    c == '\U{2028}' || c == '\U{2029}' || c == '\U{202F}' || c == '\U{205F}' ||
    c == '\U{3000}' || c == '\U{FEFF}'
  }

  /** `!s.trim()`: nothing but white space is left out of the trimmed text. */
  predicate Blank(s: string) {
    forall i :: 0 <= i < |s| ==> IsSpace(s[i])
  }

  /** `/\S+@\S+\.\S+/.test(s)`: the pattern matches somewhere in the text. */
  predicate EmailLike(s: string) {
    exists i, j :: 0 <= i < |s| && 0 <= j < |s| && EmailAt(s, i, j)
  }

  /** The pattern matches with its '@' at `i` and its '.' at `j`: a non-space character just
      before the '@', only non-space characters (at least one) between the two, and a
      non-space character just after the '.'. */
  predicate EmailAt(s: string, i: int, j: int) {
    0 < i && i + 1 < j && j + 1 < |s| && s[i] == '@' && s[j] == '.' &&
    !IsSpace(s[i - 1]) && !IsSpace(s[j + 1]) && NoSpaceBetween(s, i, j)
  }

  /** Every character strictly between positions `i` and `j` is a non-space. */
  predicate NoSpaceBetween(s: string, i: int, j: int)
    requires 0 <= i <= j <= |s|
  {
    forall k :: i < k < j ==> !IsSpace(s[k])
  }

  /** A text the pattern accepts is never blank, so the "required" and "invalid" messages
      exclude each other. */
  lemma EmailLikeNotBlank(s: string)
    ensures EmailLike(s) ==> !Blank(s)
  {
    if EmailLike(s) {
      var i, j :| 0 <= i < |s| && 0 <= j < |s| && EmailAt(s, i, j);
      assert !IsSpace(s[i]);
    }
  }

  /** The pattern is found anywhere: surrounding text, even white space, does not matter. */
  lemma EmailLikeInContext(before: string, s: string, after: string)
    requires EmailLike(s)
    ensures EmailLike(before + s + after)
  {
    var i, j :| 0 <= i < |s| && 0 <= j < |s| && EmailAt(s, i, j);
    var t := before + s + after;
    var n := |before|;
    assert forall k :: 0 <= k < |s| ==> t[n + k] == s[k];
    assert t[n + i] == '@' && t[n + j] == '.' && !IsSpace(t[n + i - 1]) && !IsSpace(t[n + j + 1]);
    forall k | n + i < k < n + j ensures !IsSpace(t[k]) {
      assert t[k] == s[k - n];
    }
    assert EmailAt(t, n + i, n + j);
  }

  /** Witnesses: the demo address passes; a text without '@' does not. */
  lemma EmailExamples()
    ensures EmailLike("test@example.com")
    ensures !EmailLike("test.example.com")
  {
    var s := "test@example.com";
    assert s[4] == '@' && s[12] == '.';
    assert NoSpaceBetween(s, 4, 12);
    assert EmailAt(s, 4, 12);
    var t := "test.example.com";
    assert forall i :: 0 <= i < |t| ==> t[i] != '@';
  }
}
