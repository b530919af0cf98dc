/** The character class `[؀-ۿ\s]` that both client-side oath checks keep
    (`replace(/[^؀-ۿ\s]/g, '')`). */
module ArabicText {
  import opened JsString

  /** A code point of the Unicode Arabic block U+0600 to U+06FF. */
  predicate IsArabicBlock(c: char) {
    '\U{0600}' <= c <= '\U{06FF}'
  }

  /** No Arabic-block code point is white space. */
  lemma ArabicIsNotWhiteSpace(c: char)
    requires IsArabicBlock(c)
    ensures !IsWhiteSpace(c)
  {
  }

  /** A character that survives `replace(/[^؀-ۿ\s]/g, '')`. */
  predicate IsArabicOrWhiteSpace(c: char) {
    IsArabicBlock(c) || IsWhiteSpace(c)
  }

  /** `replace(/[^؀-ۿ\s]/g, '')`. */
  function KeepArabicAndWhiteSpace(s: string): (r: string)
    ensures |r| <= |s|
    ensures forall i :: 0 <= i < |r| ==> IsArabicOrWhiteSpace(r[i])
  {
    Filter(s, IsArabicOrWhiteSpace)
  }

  /** ASCII lower-casing never touches a character the filter keeps, and never turns a
      removed character into a kept one, so it has no effect on what the filter keeps. */
  lemma {:induction false} LowerCaseInvisibleToFilter(s: string)
    ensures KeepArabicAndWhiteSpace(ToLowerCase(s)) == KeepArabicAndWhiteSpace(s)
    decreases |s|
  {
    if s != [] {
      var l := ToLowerCase(s);
      assert l[1..] == ToLowerCase(s[1..]);
      assert IsArabicOrWhiteSpace(l[0]) == IsArabicOrWhiteSpace(s[0]);
      assert IsArabicOrWhiteSpace(l[0]) ==> l[0] == s[0];
      LowerCaseInvisibleToFilter(s[1..]);
    }
  }
}
