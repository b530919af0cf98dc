/** The oath comparison of the client library (client/src/lib/discord.ts):
    `normalizeArabicText` trims, lower-cases and drops every character outside the
    Arabic block and white space; `validateOathText` compares two normalised texts. */
module OathText {
  import opened JsString
  import opened ArabicText

  /** `normalizeArabicText`. */
  function NormalizeArabicText(text: string): (r: string)
    ensures |r| <= |text|
    ensures forall i :: 0 <= i < |r| ==> IsArabicBlock(r[i]) || IsWhiteSpace(r[i])
  {
    KeepArabicAndWhiteSpace(ToLowerCase(Trim(text)))
  }

  /** `validateOathText`. */
  predicate ValidateOathText(userInput: string, requiredText: string) {
    NormalizeArabicText(userInput) == NormalizeArabicText(requiredText)
  }

  /** The normalised text is exactly the Arabic-block and white-space characters of the
      trimmed input, in their order: lower-casing contributes nothing. */
  lemma NormalizeKeepsArabicOfTrimmed(text: string)
    ensures NormalizeArabicText(text) == KeepArabicAndWhiteSpace(Trim(text))
  {
    LowerCaseInvisibleToFilter(Trim(text));
  }

  /** The normalised text is a subsequence of the trimmed input. */
  lemma NormalizeIsSubsequenceOfTrimmed(text: string)
    ensures IsSubsequence(NormalizeArabicText(text), Trim(text))
  {
    NormalizeKeepsArabicOfTrimmed(text);
    FilterIsSubsequence(Trim(text), IsArabicOrWhiteSpace);
  }

  /** Every Arabic-block or white-space character of the trimmed input is kept, as
      often as it occurs; every other character is dropped. */
  lemma NormalizeCounts(text: string, c: char)
    ensures multiset(NormalizeArabicText(text))[c]
         == if IsArabicOrWhiteSpace(c) then multiset(Trim(text))[c] else 0
  {
    NormalizeKeepsArabicOfTrimmed(text);
    FilterCounts(Trim(text), IsArabicOrWhiteSpace, c);
  }

  /** A text is always accepted against itself. */
  lemma ValidateOathTextReflexive(s: string)
    ensures ValidateOathText(s, s)
  {
  }

  /** The order of the two arguments does not matter. */
  lemma ValidateOathTextSymmetric(a: string, b: string)
    ensures ValidateOathText(a, b) == ValidateOathText(b, a)
  {
  }

  /** Normalising twice differs from normalising once: trimming runs before the
      non-Arabic characters are removed, so a removed character can expose white
      space that only a second pass trims. */
  lemma NormalizeNotIdempotent()
    ensures NormalizeArabicText("x ب") == " ب"
    ensures NormalizeArabicText(NormalizeArabicText("x ب")) == "ب"
  {
    NormalizeFirstPass();
    NormalizeSecondPass();
  }

  /** Normalisation, step by step. */
  lemma NormalizeBySteps(text: string, trimmed: string, r: string)
    requires Trim(text) == trimmed
    requires ToLowerCase(trimmed) == trimmed
    requires KeepArabicAndWhiteSpace(trimmed) == r
    ensures NormalizeArabicText(text) == r
  {
  }

  lemma NormalizeFirstPass()
    ensures NormalizeArabicText("x ب") == " ب"
  {
    XSpaceBaTrimmed();
    XSpaceBaLower();
    XSpaceBaArabic();
    NormalizeBySteps("x ب", "x ب", " ب");
  }

  lemma XSpaceBaTrimmed()
    ensures Trim("x ب") == "x ب"
  {
    ArabicIsNotWhiteSpace('ب');
    TrimLeavesUnpadded("x ب");
  }
  lemma XSpaceBaLower() ensures ToLowerCase("x ب") == "x ب" { }

  lemma XSpaceBaArabic()
    ensures KeepArabicAndWhiteSpace("x ب") == " ب"
  {
    var once: string := " ب";
    assert "x ب" == ['x'] + once;
    FilterAppend(['x'], once, IsArabicOrWhiteSpace);
    assert Filter(['x'], IsArabicOrWhiteSpace) == [];
    FilterKeepsAll(once, IsArabicOrWhiteSpace);
  }

  lemma NormalizeSecondPass()
    ensures NormalizeArabicText(" ب") == "ب"
  {
    SpaceBaTrimmed();
    BaLower();
    BaArabic();
    NormalizeBySteps(" ب", "ب", "ب");
  }

  lemma SpaceBaTrimmed()
    ensures Trim(" ب") == "ب"
  {
    SpaceBaTrimStart();
    BaTrimEnd();
  }

  lemma SpaceBaTrimStart()
    ensures TrimStart(" ب") == "ب"
  {
    assert " ب"[1..] == "ب";
  }

  lemma BaTrimEnd() ensures TrimEnd("ب") == "ب" { }

  lemma BaLower() ensures ToLowerCase("ب") == "ب" { }

  lemma BaArabic()
    ensures KeepArabicAndWhiteSpace("ب") == "ب"
  {
    FilterKeepsAll("ب", IsArabicOrWhiteSpace);
  }
}
