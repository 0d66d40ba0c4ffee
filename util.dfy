/** Letter classes, the enum-to-string helpers and the tashkil-stripping text
    functions shared by the engine. */
module Util {
  import opened Definitions

  /** Letters that assimilate the Lam of the definite article. */
  predicate IsSunLetter(letter: Letter)
    ensures IsSunLetter(letter) <==> letter in SunLetters
  {
    letter == Ta || letter == Tha || letter == Dal || letter == Thal || letter == Ra
    || letter == Zay || letter == Siin || letter == Shiin || letter == Saad || letter == Daad
    || letter == Tta || letter == Ththa || letter == Lam || letter == Nun
  }

  predicate IsValidRootRadical(c: char)
    ensures IsValidRootRadical(c) <==> c in RootRadicals
  {
    c == Hamza || c == Ba || c == Ta || c == Tha || c == Jiim || c == Hha || c == Kha
    || c == Dal || c == Thal || c == Ra || c == Zay || c == Siin || c == Shiin || c == Saad
    || c == Daad || c == Tta || c == Ththa || c == A3ein || c == Ghain || c == Fa || c == Qaf
    || c == Kaf || c == Lam || c == Mim || c == Nun || c == Ha || c == Waw || c == Ya
  }

  /** The letters in code-point order. */
  const SunLetterList: seq<Letter> := [Ta, Tha, Dal, Thal, Ra, Zay, Siin, Shiin, Saad, Daad, Tta, Ththa, Lam, Nun]
  const RootRadicalList: seq<Letter> := [
    Hamza, Ba, Ta, Tha, Jiim, Hha, Kha, Dal, Thal, Ra, Zay, Siin, Shiin, Saad, Daad, Tta,
    Ththa, A3ein, Ghain, Fa, Qaf, Kaf, Lam, Mim, Nun, Ha, Waw, Ya]
  const SunLetters: set<Letter> := set c | c in SunLetterList
  const RootRadicals: set<Letter> := set c | c in RootRadicalList

  /** A strictly increasing list has as many distinct elements as entries. */
  lemma {:induction false} IncreasingCard(s: seq<char>)
    requires forall i :: 0 < i < |s| ==> s[i - 1] < s[i]
    ensures |set c | c in s| == |s|
  {
    if s != [] {
      IncreasingCard(s[1..]);
      IncreasingHeadSmallest(s);
      assert (set c | c in s) == {s[0]} + (set c | c in s[1..]);
    }
  }

  lemma {:induction false} IncreasingHeadSmallest(s: seq<char>)
    requires s != []
    requires forall i :: 0 < i < |s| ==> s[i - 1] < s[i]
    ensures forall c :: c in s[1..] ==> s[0] < c
  {
    if |s| > 1 {
      IncreasingHeadSmallest(s[1..]);
      forall c | c in s[1..] ensures s[0] < c {
        if c != s[1] {
          assert c in s[1..][1..];
        }
      }
    }
  }

  lemma SunLettersAreFourteen()
    ensures forall l :: IsSunLetter(l) <==> l in SunLetters
    ensures |SunLetters| == 14
  {
    IncreasingCard(SunLetterList);
  }

  lemma RootRadicalsAreTwentyEight()
    ensures forall c :: IsValidRootRadical(c) <==> c in RootRadicals
    ensures |RootRadicals| == 28
  {
    RootRadicalListIncreasing();
    IncreasingCard(RootRadicalList);
    RootRadicalListMembers();
  }

  lemma RootRadicalListIncreasing()
    ensures forall i :: 0 < i < |RootRadicalList| ==> RootRadicalList[i - 1] < RootRadicalList[i]
  {
  }

  lemma RootRadicalListMembers()
    ensures forall c :: IsValidRootRadical(c) <==> c in RootRadicalList
  {
  }

  lemma SunLettersAreRadicals()
    ensures forall l :: IsSunLetter(l) ==> IsValidRootRadical(l)
  {
  }

  /** A letter, diacritic, shadda or dagger alef of Arabic script. */
  predicate IsArabicChar(c: char)
  {
    c == Alef || c == AlefHamza || c == AlefHamzaBelow || c == AlefMadda || c == AlefMaksura
    || c == TaMarbuta || c == WawHamza || c == YaHamza
    || c == DhammaChar || c == DhammatanChar || c == FathaChar || c == FathatanChar
    || c == KasraChar || c == KasratanChar || c == SukunChar || c == ShaddaChar || c == DaggerAlefChar
    || IsValidRootRadical(c)
  }

  /** Scans the text and stops at the first character that is not Arabic. */
  method IsArabicWord(text: string) returns (r: bool)
    ensures r <==> forall i :: 0 <= i < |text| ==> IsArabicChar(text[i])
    ensures !r ==> exists i :: 0 <= i < |text| && !IsArabicChar(text[i])
  {
    var i := 0;
    while i < |text|
      invariant 0 <= i <= |text|
      invariant forall j :: 0 <= j < i ==> IsArabicChar(text[j])
    {
      if !IsArabicChar(text[i]) {
        return false;
      }
      i := i + 1;
    }
    return true;
  }

  /** A name: a non-empty word of lower-case ASCII letters. */
  predicate IsName(s: string) { |s| > 0 && forall i :: 0 <= i < |s| ==> 'a' <= s[i] <= 'z' }

  function GenderToString(g: Gender): (s: string)
    ensures IsName(s)
  {
    if g == Female then "female" else "male"
  }

  function MoodToString(m: Mood): (s: string)
    ensures IsName(s)
  {
    match m
    case Imperative => "imperative"
    case Indicative => "indicative"
    case Jussive => "jussive"
    case Subjunctive => "subjunctive"
  }

  function NumerusToString(n: Numerus): (s: string)
    ensures IsName(s)
  {
    match n
    case Dual => "dual"
    case Plural => "plural"
    case Singular => "singular"
  }

  function PersonToString(p: Person): (s: string)
    ensures IsName(s)
  {
    match p
    case First => "first"
    case Second => "second"
    case Third => "third"
  }

  function TenseToString(t: Tense): (s: string)
    ensures IsName(s)
  {
    if t == Perfect then "perfect" else "present"
  }

  function VoiceToString(v: Voice): (s: string)
    ensures IsName(s)
  {
    if v == Active then "active" else "passive"
  }

  /** The string names tell the enum values apart, so they can serve as keys. */
  lemma ToStringInjective()
    ensures forall a: Gender, b: Gender :: GenderToString(a) == GenderToString(b) ==> a == b
    ensures forall a: Mood, b: Mood :: MoodToString(a) == MoodToString(b) ==> a == b
    ensures forall a: Numerus, b: Numerus :: NumerusToString(a) == NumerusToString(b) ==> a == b
    ensures forall a: Person, b: Person :: PersonToString(a) == PersonToString(b) ==> a == b
    ensures forall a: Tense, b: Tense :: TenseToString(a) == TenseToString(b) ==> a == b
    ensures forall a: Voice, b: Voice :: VoiceToString(a) == VoiceToString(b) ==> a == b
  {
  }

  /** The short vowel that precedes a long-vowel letter. */
  function VowelLetterToPreTashkil(vowel: Letter): (t: Tashkil)
    requires vowel == Alef || vowel == Waw || vowel == Ya
    ensures t in {Fatha, Dhamma, Kasra}
    ensures (t == Fatha <==> vowel == Alef) && (t == Dhamma <==> vowel == Waw) && (t == Kasra <==> vowel == Ya)
  {
    if vowel == Alef then Fatha else if vowel == Waw then Dhamma else Kasra
  }

  /** `text` with every character in `bad` deleted, the others kept in order. */
  function Without(text: string, bad: set<char>): (r: string)
    ensures |r| <= |text|
    ensures forall c :: c in r <==> c in text && c !in bad
  {
    if text == [] then [] else (if text[0] in bad then [] else [text[0]]) + Without(text[1..], bad)
  }

  /** `ReplaceAll(c, "")`. */
  function Strip(text: string, c: char): string { Without(text, {c}) }

  /** Stripping twice is stripping the union. */
  lemma {:induction false} WithoutWithout(text: string, a: set<char>, b: set<char>)
    ensures Without(Without(text, a), b) == Without(text, a + b)
  {
    if text != [] {
      WithoutWithout(text[1..], a, b);
      var head := if text[0] in a then [] else [text[0]];
      WithoutAppend(head, Without(text[1..], a), b);
    }
  }

  /** Deletion works character by character and keeps the order: it
      distributes over concatenation, and one character is kept exactly when
      it is not deleted. */
  lemma {:induction false} WithoutAppend(x: string, y: string, bad: set<char>)
    ensures Without(x + y, bad) == Without(x, bad) + Without(y, bad)
  {
    if x == [] {
      assert x + y == y;
    } else {
      assert (x + y)[1..] == x[1..] + y;
      WithoutAppend(x[1..], y, bad);
    }
  }

  lemma WithoutChar(c: char, bad: set<char>)
    ensures Without([c], bad) == if c in bad then [] else [c]
  {
  }

  /** The characters the engine's tashkil stripping deletes, as written: Dhammatan
      is not among them. */
  const StrippedAsWritten: set<char> :=
    {DhammaChar, FathaChar, FathatanChar, KasraChar, KasratanChar, SukunChar, DaggerAlefChar}

  /** Deletes the six vowel diacritics and the dagger alef, keeping the shadda
      (a chain of `ReplaceAll(c, "")`, one per character). */
  function RemoveTashkilButKeepShadda(text: string): (r: string)
    ensures forall c :: c in r <==> c in text && c !in StrippedAsWritten
  {
    Without(text, StrippedAsWritten)
  }

  /** Tashkil stripping as written: it also deletes the shadda. */
  function RemoveTashkil(text: string): (r: string)
    ensures r == Without(text, StrippedAsWritten + {ShaddaChar})
    ensures ShaddaChar !in r && FathaChar !in r && KasraChar !in r && DhammaChar !in r && SukunChar !in r
  {
    WithoutWithout(text, StrippedAsWritten, {ShaddaChar});
    Strip(RemoveTashkilButKeepShadda(text), ShaddaChar)
  }

  /** Every diacritic a vowelled text can carry. */
  const AllDiacritics: set<char> :=
    {DhammaChar, DhammatanChar, FathaChar, FathatanChar, KasraChar, KasratanChar, SukunChar,
     ShaddaChar, DaggerAlefChar}

  /** A Dhammatan survives tashkil stripping as written. */
  lemma RemoveTashkilKeepsDhammatan()
    ensures RemoveTashkil([Ba, DhammatanChar]) == [Ba, DhammatanChar]
  {
    var bad := StrippedAsWritten + {ShaddaChar};
    assert Ba !in bad && DhammatanChar !in bad;
    assert [DhammatanChar][1..] == [];
    assert Without([DhammatanChar], bad) == [DhammatanChar];
    assert [Ba, DhammatanChar][1..] == [DhammatanChar];
  }

  /** Tashkil stripping with Dhammatan included, as the function's name promises. */
  function RemoveAllTashkil(text: string): (r: string)
    ensures forall c :: c in r <==> c in text && c !in AllDiacritics
    ensures forall t: DisplayTashkil :: TashkilChar(t) !in r
  {
    WithoutWithout(text, StrippedAsWritten + {ShaddaChar}, {DhammatanChar});
    assert StrippedAsWritten + {ShaddaChar} + {DhammatanChar} == AllDiacritics;
    Strip(RemoveTashkil(text), DhammatanChar)
  }

  /** The corrected stripping differs from the one as written only on Dhammatan. */
  lemma RemoveAllTashkilAgrees(text: string)
    requires DhammatanChar !in text
    ensures RemoveAllTashkil(text) == RemoveTashkil(text)
  {
    NoBadNoChange(RemoveTashkil(text), {DhammatanChar});
  }

  lemma {:induction false} NoBadNoChange(text: string, bad: set<char>)
    requires forall c :: c in text ==> c !in bad
    ensures Without(text, bad) == text
  {
    if text != [] {
      NoBadNoChange(text[1..], bad);
    }
  }
}
