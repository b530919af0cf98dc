/** The oath check of the application dialogs
    (client/src/components/application-modals.tsx): `validateOath` with its inner
    `normalizeText`, and the three submit handlers, of which only the admin one
    checks the oath. */
module ApplicationModals {
  import opened JsString
  import opened ArabicText
  import opened Schema

  /** The phrase `validateOath` compares against, "اقسم بان لا اضر السيرفر وان لا اغدر بالسيرفر",
      written as four parts so that facts about it can be checked one part at a time. */
  const RequiredOath: string := RequiredPart1 + RequiredPart2 + RequiredPart3 + RequiredPart4
  const RequiredPart1: string := "اقسم بان لا"
  const RequiredPart2: string := " اضر السيرفر"
  const RequiredPart3: string := " وان لا اغدر"
  const RequiredPart4: string := " بالسيرفر"

  /** The phrase the dialog shows the user, "أقسم بأن لا أضر السيرفر وأن لا أغدر بالسيرفر",
      spelt with hamza forms of alif. */
  const DisplayedOath: string := DisplayedPart1 + DisplayedPart2 + DisplayedPart3 + DisplayedPart4
  const DisplayedPart1: string := "أقسم بأن لا"
  const DisplayedPart2: string := " أضر السيرفر"
  const DisplayedPart3: string := " وأن لا أغدر"
  const DisplayedPart4: string := " بالسيرفر"

  /** The words whose presence alone makes an oath acceptable. */
  const KeyWords: seq<string> := ["اقسم", "اضر", "السيرفر", "اغدر"]

  /** The marks removed by `replace(/[ً-ٰٟٱ]/g, '')`. */
  predicate IsDiacritic(c: char) {
    ('\U{064B}' <= c <= '\U{065F}') || c == '\U{0670}' || c == '\U{0671}'
  }

  predicate IsNotDiacritic(c: char) {
    !IsDiacritic(c)
  }

  /** The letters the three unifying replacements rewrite to another letter:
      أ إ آ (to ا), ى (to ي) and ة (to ه). */
  predicate IsLetterVariant(c: char) {
    c == 'أ' || c == 'إ' || c == 'آ' || c == 'ى' || c == 'ة'
  }

  /** `replace(/[أإآ]/g, 'ا')`, one character. */
  function UnifyAlif(c: char): char {
    if c == 'أ' || c == 'إ' || c == 'آ' then 'ا' else c
  }

  /** `replace(/[ىي]/g, 'ي')`, one character. */
  function UnifyYa(c: char): char {
    if c == 'ى' || c == 'ي' then 'ي' else c
  }

  /** `replace(/ة/g, 'ه')`, one character. */
  function UnifyTaMarbuta(c: char): char {
    if c == 'ة' then 'ه' else c
  }

  /** The diacritic-removal step. */
  function StripDiacritics(s: string): (r: string)
    ensures |r| <= |s|
    ensures forall i :: 0 <= i < |r| ==> !IsDiacritic(r[i]) && r[i] in s
  {
    Filter(s, IsNotDiacritic)
  }

  /** `v` is a variant form of the base letter `c`: أ, إ or آ of ا, ى of ي, ة of ه. */
  predicate IsVariantOf(v: char, c: char) {
    || (c == 'ا' && (v == 'أ' || v == 'إ' || v == 'آ'))
    || (c == 'ي' && v == 'ى')
    || (c == 'ه' && v == 'ة')
  }

  /** The three unifying replacements, as they act on one character: a variant becomes
      its base letter, and every other character is kept. */
  function UnifyChar(c: char): (d: char)
    ensures !IsLetterVariant(d)
    ensures d == c || (IsLetterVariant(c) && IsArabicBlock(d) && !IsDiacritic(d))
    ensures IsLetterVariant(c) ==> IsVariantOf(c, d)
    ensures !IsLetterVariant(c) ==> d == c
  {
    UnifyTaMarbuta(UnifyYa(UnifyAlif(c)))
  }

  /** The three letter-unifying steps, in the order the source applies them. */
  function UnifyLetters(s: string): (r: string)
    ensures |r| == |s|
    ensures forall i :: 0 <= i < |s| ==> r[i] == UnifyChar(s[i])
  {
    MapChars(MapChars(MapChars(s, UnifyAlif), UnifyYa), UnifyTaMarbuta)
  }

  /** `normalizeText`: trim, lower-case, strip diacritics, unify letters, keep only the
      Arabic block and white space, collapse white space. */
  function NormalizeText(text: string): string {
    CollapseWhiteSpace(KeepArabicAndWhiteSpace(UnifyLetters(StripDiacritics(ToLowerCase(Trim(text))))))
  }

  /** A character that can appear in normalised text. */
  predicate IsNormalChar(c: char) {
    (IsArabicBlock(c) || c == ' ') && !IsDiacritic(c) && !IsLetterVariant(c)
  }

  /** Normalised text holds only characters of the U+0600–U+06FF block without
      diacritics or letter variants, and single spaces. */
  lemma NormalizedTextShape(text: string)
    ensures forall i :: 0 <= i < |NormalizeText(text)| ==> IsNormalChar(NormalizeText(text)[i])
    ensures NoAdjacentSpaces(NormalizeText(text))
  {
    var unified := UnifyLetters(StripDiacritics(ToLowerCase(Trim(text))));
    var arabic := KeepArabicAndWhiteSpace(unified);
    KeptCharsShape(unified);
    CollapsedCharsShape(arabic);
  }

  lemma KeptCharsShape(s: string)
    requires forall i :: 0 <= i < |s| ==> !IsDiacritic(s[i]) && !IsLetterVariant(s[i])
    ensures forall i :: 0 <= i < |KeepArabicAndWhiteSpace(s)| ==>
      IsNormalChar(KeepArabicAndWhiteSpace(s)[i]) || IsWhiteSpace(KeepArabicAndWhiteSpace(s)[i])
  {
    var r := KeepArabicAndWhiteSpace(s);
    forall i | 0 <= i < |r| ensures IsNormalChar(r[i]) || IsWhiteSpace(r[i]) {
      assert r[i] in s && IsArabicOrWhiteSpace(r[i]);
    }
  }

  lemma CollapsedCharsShape(s: string)
    requires forall i :: 0 <= i < |s| ==> IsNormalChar(s[i]) || IsWhiteSpace(s[i])
    ensures forall i :: 0 <= i < |CollapseWhiteSpace(s)| ==> IsNormalChar(CollapseWhiteSpace(s)[i])
  {
    var r := CollapseWhiteSpace(s);
    CollapseKeepsInputChars(s);
    forall i | 0 <= i < |r| ensures IsNormalChar(r[i]) {
      if r[i] != ' ' {
        assert r[i] in s && !IsWhiteSpace(r[i]);
      }
    }
  }

  /** Text that normalisation would leave exactly as it is. */
  predicate IsNormalForm(s: string) {
    && (s == [] || (s[0] != ' ' && s[|s| - 1] != ' '))
    && (forall i :: 0 <= i < |s| ==> IsNormalChar(s[i]))
    && NoAdjacentSpaces(s)
  }

  /** Each step of `normalizeText` leaves text in normal form unchanged. */
  lemma NormalFormIsFixed(s: string)
    requires IsNormalForm(s)
    ensures NormalizeText(s) == s
  {
    NormalFormTrimmed(s);
    NormalFormLowerCase(s);
    NormalFormNoDiacritics(s);
    NormalFormUnified(s);
    NormalFormArabic(s);
    NormalFormCollapsed(s);
  }

  lemma NormalFormTrimmed(s: string)
    requires IsNormalForm(s)
    ensures Trim(s) == s
  {
    if s != [] {
      var first, last := s[0], s[|s| - 1];
      assert IsNormalChar(first) && IsNormalChar(last);
      ArabicIsNotWhiteSpace(first);
      ArabicIsNotWhiteSpace(last);
    }
  }

  lemma NormalFormLowerCase(s: string)
    requires IsNormalForm(s)
    ensures ToLowerCase(s) == s
  {
    forall i | 0 <= i < |s| ensures LowerChar(s[i]) == s[i] {
      assert IsNormalChar(s[i]);
    }
  }

  lemma NormalFormNoDiacritics(s: string)
    requires IsNormalForm(s)
    ensures StripDiacritics(s) == s
  {
    FilterKeepsAll(s, IsNotDiacritic);
  }

  lemma NormalFormUnified(s: string)
    requires IsNormalForm(s)
    ensures UnifyLetters(s) == s
  {
    forall i | 0 <= i < |s| ensures UnifyLetters(s)[i] == s[i] {
      assert IsNormalChar(s[i]);
    }
  }

  lemma NormalFormArabic(s: string)
    requires IsNormalForm(s)
    ensures KeepArabicAndWhiteSpace(s) == s
  {
    FilterKeepsAll(s, IsArabicOrWhiteSpace);
  }

  lemma NormalFormCollapsed(s: string)
    requires IsNormalForm(s)
    ensures CollapseWhiteSpace(s) == s
  {
    forall i | 0 <= i < |s| ensures !IsWhiteSpace(s[i]) || s[i] == ' ' {
      assert IsNormalChar(s[i]);
    }
    CollapseKeepsSingleSpaces(s);
  }

  /** The required phrase is already in normal form. */
  lemma RequiredOathIsNormal()
    ensures IsNormalForm(RequiredOath)
  {
    RequiredPart1IsNormal();
    RequiredPart2IsNormal();
    RequiredPart3IsNormal();
    RequiredPart4IsNormal();
    NormalPartsAppend(RequiredPart1, RequiredPart2);
    NormalPartsAppend(RequiredPart1 + RequiredPart2, RequiredPart3);
    NormalPartsAppend(RequiredPart1 + RequiredPart2 + RequiredPart3, RequiredPart4);
  }

  /** A piece of text in normal form, except that it may start with a space. */
  predicate IsNormalPart(s: string) {
    && (forall i :: 0 <= i < |s| ==> IsNormalChar(s[i]))
    && NoAdjacentSpaces(s)
    && s != [] && s[|s| - 1] != ' '
  }

  lemma NormalPartsAppend(a: string, b: string)
    requires IsNormalPart(a) && IsNormalPart(b)
    ensures IsNormalPart(a + b)
  {
    NoAdjacentSpacesAppend(a, b);
  }

  lemma RequiredPart1IsNormal() ensures IsNormalPart(RequiredPart1) && RequiredPart1[0] != ' ' { }
  lemma RequiredPart2IsNormal() ensures IsNormalPart(RequiredPart2) { }
  lemma RequiredPart3IsNormal() ensures IsNormalPart(RequiredPart3) { }
  lemma RequiredPart4IsNormal() ensures IsNormalPart(RequiredPart4) { }

  /** `keyWords.every(word => normalizedOath.includes(word))`. */
  predicate HasAllKeyWords(s: string) {
    forall k :: 0 <= k < |KeyWords| ==> Contains(s, KeyWords[k])
  }

  /** The required phrase contains every key word. */
  lemma RequiredOathHasKeyWords()
    ensures HasAllKeyWords(RequiredOath)
  {
    KeyWordsInRequiredParts();
    FirstKeyWordsInRequiredOath();
    LastKeyWordsInRequiredOath();
    EachKeyWordPresent(RequiredOath);
  }

  lemma EachKeyWordPresent(s: string)
    requires Contains(s, KeyWords[0]) && Contains(s, KeyWords[1])
    requires Contains(s, KeyWords[2]) && Contains(s, KeyWords[3])
    ensures HasAllKeyWords(s)
  {
    forall k | 0 <= k < |KeyWords| ensures Contains(s, KeyWords[k]) {
      assert k == 0 || k == 1 || k == 2 || k == 3;
    }
  }

  lemma FirstKeyWordsInRequiredOath()
    requires Contains(RequiredPart1, KeyWords[0]) && Contains(RequiredPart2, KeyWords[1])
    ensures Contains(RequiredOath, KeyWords[0]) && Contains(RequiredOath, KeyWords[1])
  {
    ContainsInParts(RequiredPart1, RequiredPart2, RequiredPart3, RequiredPart4, KeyWords[0]);
    ContainsInParts(RequiredPart1, RequiredPart2, RequiredPart3, RequiredPart4, KeyWords[1]);
  }

  lemma LastKeyWordsInRequiredOath()
    requires Contains(RequiredPart2, KeyWords[2]) && Contains(RequiredPart3, KeyWords[3])
    ensures Contains(RequiredOath, KeyWords[2]) && Contains(RequiredOath, KeyWords[3])
  {
    ContainsInParts(RequiredPart1, RequiredPart2, RequiredPart3, RequiredPart4, KeyWords[2]);
    ContainsInParts(RequiredPart1, RequiredPart2, RequiredPart3, RequiredPart4, KeyWords[3]);
  }

  lemma ContainsInParts(p1: string, p2: string, p3: string, p4: string, w: string)
    requires Contains(p1, w) || Contains(p2, w) || Contains(p3, w) || Contains(p4, w)
    ensures Contains(p1 + p2 + p3 + p4, w)
  {
    ContainsInAppend(p1, p2, w);
    ContainsInAppend(p1 + p2, p3, w);
    ContainsInAppend(p1 + p2 + p3, p4, w);
  }

  lemma KeyWordsInRequiredParts()
    ensures Contains(RequiredPart1, KeyWords[0])
    ensures Contains(RequiredPart2, KeyWords[1]) && Contains(RequiredPart2, KeyWords[2])
    ensures Contains(RequiredPart3, KeyWords[3])
  {
    assert KeyWords[0] <= RequiredPart1[0..];
    assert KeyWords[1] <= RequiredPart2[1..];
    assert KeyWords[2] <= RequiredPart2[5..];
    assert KeyWords[3] <= RequiredPart3[8..];
  }

  /** `validateOath`: all key words present, or an exact match with the required phrase. */
  predicate ValidateOath(oath: string) {
    var normalizedOath := NormalizeText(oath);
    HasAllKeyWords(normalizedOath) || normalizedOath == NormalizeText(RequiredOath)
  }

  /** The exact-match branch never decides anything: the normalised required phrase
      already contains every key word, so the oath passes exactly when its normal form
      contains all four key words. */
  lemma ValidateOathIsKeyWordTest(oath: string)
    ensures ValidateOath(oath) <==> HasAllKeyWords(NormalizeText(oath))
  {
    if ValidateOath(oath) {
      RequiredOathIsNormal();
      NormalFormIsFixed(RequiredOath);
      RequiredOathHasKeyWords();
    }
  }

  /** Writing a letter of a text in normal form in a variant form (أ, إ or آ for ا,
      ى for ي, ة for ه) does not change its normal form. */
  lemma VariantSpellingNormalizes(d: string, r: string)
    requires IsNormalForm(r)
    requires IsVariantSpelling(d, r)
    ensures NormalizeText(d) == r
  {
    VariantSpellingTrimmed(d, r);
    VariantSpellingLowerCase(d, r);
    VariantSpellingNoDiacritics(d, r);
    VariantSpellingUnified(d, r);
    NormalFormArabic(r);
    NormalFormCollapsed(r);
  }

  lemma VariantSpellingTrimmed(d: string, r: string)
    requires IsNormalForm(r) && IsVariantSpelling(d, r)
    ensures Trim(d) == d
  {
    if d != [] {
      var first, last := d[0], d[|d| - 1];
      assert IsNormalChar(r[0]) && IsNormalChar(r[|r| - 1]);
      ArabicIsNotWhiteSpace(first);
      ArabicIsNotWhiteSpace(last);
    }
  }

  lemma VariantSpellingLowerCase(d: string, r: string)
    requires IsNormalForm(r) && IsVariantSpelling(d, r)
    ensures ToLowerCase(d) == d
  {
    forall i | 0 <= i < |d| ensures LowerChar(d[i]) == d[i] {
      assert IsNormalChar(r[i]);
    }
  }

  lemma VariantSpellingNoDiacritics(d: string, r: string)
    requires IsNormalForm(r) && IsVariantSpelling(d, r)
    ensures StripDiacritics(d) == d
  {
    forall i | 0 <= i < |d| ensures IsNotDiacritic(d[i]) {
      assert IsNormalChar(r[i]);
    }
    FilterKeepsAll(d, IsNotDiacritic);
  }

  lemma VariantSpellingUnified(d: string, r: string)
    requires IsNormalForm(r) && IsVariantSpelling(d, r)
    ensures UnifyLetters(d) == r
  {
    forall i | 0 <= i < |d| ensures UnifyLetters(d)[i] == r[i] {
      assert IsNormalChar(r[i]);
    }
  }

  /** `d` is `r` with some of its letters written in a variant form: ا as أ, إ or آ,
      ي as ى, ه as ة. */
  predicate IsVariantSpelling(d: string, r: string) {
    |d| == |r| && forall i :: 0 <= i < |d| ==> d[i] == r[i] || IsVariantOf(d[i], r[i])
  }

  lemma VariantSpellingAppend(d1: string, r1: string, d2: string, r2: string)
    requires IsVariantSpelling(d1, r1) && IsVariantSpelling(d2, r2)
    ensures IsVariantSpelling(d1 + d2, r1 + r2)
  {
  }

  lemma DisplayedPart1Spelling() ensures IsVariantSpelling(DisplayedPart1, RequiredPart1) { }
  lemma DisplayedPart2Spelling() ensures IsVariantSpelling(DisplayedPart2, RequiredPart2) { }
  lemma DisplayedPart3Spelling() ensures IsVariantSpelling(DisplayedPart3, RequiredPart3) { }
  lemma DisplayedPart4Spelling() ensures IsVariantSpelling(DisplayedPart4, RequiredPart4) { }

  /** The phrase shown to the user, with its hamza forms of alif, normalises to exactly the
      required phrase, and is accepted. */
  lemma DisplayedOathAccepted()
    ensures NormalizeText(DisplayedOath) == RequiredOath
    ensures ValidateOath(DisplayedOath)
  {
    DisplayedPart1Spelling();
    DisplayedPart2Spelling();
    DisplayedPart3Spelling();
    DisplayedPart4Spelling();
    VariantSpellingAppend(DisplayedPart1, RequiredPart1, DisplayedPart2, RequiredPart2);
    VariantSpellingAppend(DisplayedPart1 + DisplayedPart2, RequiredPart1 + RequiredPart2,
                        DisplayedPart3, RequiredPart3);
    VariantSpellingAppend(DisplayedPart1 + DisplayedPart2 + DisplayedPart3,
                        RequiredPart1 + RequiredPart2 + RequiredPart3, DisplayedPart4, RequiredPart4);
    RequiredOathIsNormal();
    VariantSpellingNormalizes(DisplayedOath, RequiredOath);
    RequiredOathHasKeyWords();
  }

  /** However the required phrase's letters are written in variant forms (السىرفر for
      السيرفر, إقسم for اقسم), the oath passes. */
  lemma VariantSpellingOfOathAccepted(d: string)
    requires IsVariantSpelling(d, RequiredOath)
    ensures NormalizeText(d) == RequiredOath
    ensures ValidateOath(d)
  {
    RequiredOathIsNormal();
    VariantSpellingNormalizes(d, RequiredOath);
    RequiredOathHasKeyWords();
  }

  /** What a submit handler does. */
  datatype SubmitAction =
    | Mutate(body: SubmissionBody)   // `submitMutation.mutate(...)`: POST /api/applications
    | OathRejected                   // the "خطأ في القسم" toast, nothing sent

  /** The body the dialogs post: `{ type, formData }`. */
  datatype SubmissionBody = SubmissionBody(applicationType: string, formData: JsValue)

  datatype AdminForm = AdminForm(
    name: string, age: string, country: string, benefit: string,
    experience: string, responsibility: bool, oath: string)

  datatype ScriptForm = ScriptForm(
    name: string, age: string, languages: string, experience: string, maps: string, frequency: string)

  datatype HacksForm = HacksForm(
    name: string, age: string, serverLogo: string, previousServers: string, hackTypes: string, activeHours: string)

  /** The admin form as the JSON object it is sent as, keys in declaration order. */
  function AdminFormData(f: AdminForm): JsValue {
    Object([("name", Str(f.name)), ("age", Str(f.age)), ("country", Str(f.country)),
            ("benefit", Str(f.benefit)), ("experience", Str(f.experience)),
            ("responsibility", Bool(f.responsibility)), ("oath", Str(f.oath))])
  }

  function ScriptFormData(f: ScriptForm): JsValue {
    Object([("name", Str(f.name)), ("age", Str(f.age)), ("languages", Str(f.languages)),
            ("experience", Str(f.experience)), ("maps", Str(f.maps)), ("frequency", Str(f.frequency))])
  }

  function HacksFormData(f: HacksForm): JsValue {
    Object([("name", Str(f.name)), ("age", Str(f.age)), ("serverLogo", Str(f.serverLogo)),
            ("previousServers", Str(f.previousServers)), ("hackTypes", Str(f.hackTypes)),
            ("activeHours", Str(f.activeHours))])
  }

  /** `handleAdminSubmit`: the admin form is sent only when its oath passes. */
  function HandleAdminSubmit(f: AdminForm): (a: SubmitAction)
    ensures a.Mutate? <==> HasAllKeyWords(NormalizeText(f.oath))
    ensures a.Mutate? ==> a.body == SubmissionBody("admin", AdminFormData(f))
  {
    ValidateOathIsKeyWordTest(f.oath);
    if !ValidateOath(f.oath) then OathRejected else Mutate(SubmissionBody("admin", AdminFormData(f)))
  }

  /** `handleScriptSubmit`: always sent, no oath. */
  function HandleScriptSubmit(f: ScriptForm): (a: SubmitAction)
    ensures a.Mutate? && a.body.applicationType == "script"
    ensures a.Mutate? ==> a.body == SubmissionBody("script", ScriptFormData(f))
  {
    Mutate(SubmissionBody("script", ScriptFormData(f)))
  }

  /** `handleHacksSubmit`: always sent, no oath. */
  function HandleHacksSubmit(f: HacksForm): (a: SubmitAction)
    ensures a.Mutate? && a.body.applicationType == "hacks"
    ensures a.Mutate? ==> a.body == SubmissionBody("hacks", HacksFormData(f))
  {
    Mutate(SubmissionBody("hacks", HacksFormData(f)))
  }
}
