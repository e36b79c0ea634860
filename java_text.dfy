/**
 * The few java.lang.String and java.lang.Character operations the metrics use:
 * case-insensitive comparison, lower-casing before a match, and blank tests.
 */
module JavaText {

  import opened Wrappers

  /**
   * Lower case as far as a comparison with the ASCII words used here can
   * tell: 'A'..'Z' become 'a'..'z' and the Kelvin sign becomes 'k'; every
   * other character is left as it is. Java differs on three characters that
   * meet 'i' or 's': Character.toLowerCase maps U+0130 to 'i' (String.toLowerCase
   * to 'i' followed by U+0307), and equalsIgnoreCase also matches U+0131 with
   * 'i' and U+017F with 's'. None of this changes a comparison with a word
   * that has neither 'i' nor 's', such as "null", "default", "and" or "or".
   */
  function Lower(c: char): (r: char)
    ensures 'A' <= c <= 'Z' ==> r as int == c as int + 32
    ensures 'a' <= r <= 'z' ==> 'a' <= c <= 'z' || 'A' <= c <= 'Z' || c == '\U{212A}'
  {
    if 'A' <= c <= 'Z' then (c as int + 32) as char
    else if c == '\U{212A}' then 'k'
    else c
  }

  /** String.toLowerCase, character by character (see Lower). */
  function ToLower(s: string): (r: string)
    ensures |r| == |s|
    ensures forall i :: 0 <= i < |s| ==> r[i] == Lower(s[i])
  {
    seq(|s|, i requires 0 <= i < |s| => Lower(s[i]))
  }

  /**
   * String.equalsIgnoreCase: same length and the characters agree after
   * case folding. For words without 'i' or 's', such as the ones compared
   * here ("null", "default", "and", "or"), this agrees with Java's
   * per-character rule; for other words it is stricter (see Lower).
   */
  predicate EqualsIgnoreCase(a: string, b: string) {
    ToLower(a) == ToLower(b)
  }

  /** Character.isWhitespace: Unicode space, line and paragraph separators except the
      non-breaking ones, plus the ASCII controls TAB, LF, VT, FF, CR and FS..US. */
  predicate IsWhitespace(c: char) {
    || c == '\t' || c == '\n' || c == '\U{000B}' || c == '\U{000C}' || c == '\r'
    || ('\U{001C}' <= c <= '\U{001F}')
    || c == ' ' || c == '\U{1680}'
    || ('\U{2000}' <= c <= '\U{2006}') || ('\U{2008}' <= c <= '\U{200A}')
    || c == '\U{2028}' || c == '\U{2029}' || c == '\U{205F}' || c == '\U{3000}'
  }

  /** String.isBlank: empty, or white space only. */
  predicate IsBlank(s: string) {
    forall i :: 0 <= i < |s| ==> IsWhitespace(s[i])
  }

  /** A snippet that is null or blank: the guard several metrics start with. */
  predicate NullOrBlank(s: Option<string>)
  {
    s.None? || IsBlank(s.value)
  }
}
