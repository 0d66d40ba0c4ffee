/** The personal suffixes of Lebanese Arabic verbs: the vowel before the
    suffix, an optional final letter or item and an optional item before it. */
module LebaneseSuffix {
  import opened Wrappers
  import opened Definitions
  import opened Conjugation
  import opened Conjugator

  function Item(consonant: Letter, v: Vowel): ConjugationElement { ConjugationElement(consonant, v, false) }

  /** A prefinal item only comes before a final letter, in the second
      person plural. */
  function DeriveSuffixPerfect(params: ConjugationParams): (r: SuffixResult)
    ensures r.prefinal.Some? ==> r.final.Some? && params.numerus == Plural && params.person == Second
  {
    if params.numerus == Plural && params.person == First then
      SuffixResult(Some(FinalElement(Item(Nun, LongA))), None, Vowel.Sukun)
    else if params.numerus == Plural && params.person == Second then
      SuffixResult(Some(FinalLetter(Alef)), Some(Item(Ta, LongU)), Vowel.Sukun)
    else if params.numerus == Plural then
      SuffixResult(Some(FinalLetter(Alef)), None, LongU)
    else if params.person == Second && params.gender == Female then
      SuffixResult(Some(FinalElement(Item(Ta, LongI))), None, Vowel.Sukun)
    else if params.person == Third && params.gender == Male then
      SuffixResult(None, None, Vowel.Sukun)
    else
      SuffixResult(Some(FinalElement(Item(Ta, Vowel.Sukun))), None, ShortI)
  }

  /** Defective quadriliterals: BrokenA before the empty third masculine
      singular suffix, the diphthong aj before the first and second person
      suffixes. */
  function DeriveSuffixPerfectDefective(params: ConjugationParams): (r: SuffixResult)
    ensures r.final == DeriveSuffixPerfect(params).final && r.prefinal == DeriveSuffixPerfect(params).prefinal
    ensures r.previousVowel == DiphtongAj <==> params.person != Third
    ensures r.previousVowel == BrokenA <==>
      params.person == Third && params.numerus == Singular && params.gender == Male
  {
    if params.person == Third && params.numerus == Singular && params.gender == Male then
      SuffixResult(None, None, BrokenA)
    else if params.person != Third then
      DeriveSuffixPerfect(params).(previousVowel := DiphtongAj)
    else DeriveSuffixPerfect(params)
  }

  /** The present suffix: a final Alef after a long u in the second and
      third person plural, a long i alone for the second feminine singular,
      and nothing after a silent stem otherwise. */
  function DeriveSuffixPresent(params: ConjugationParams): (r: SuffixResult)
    ensures r.prefinal.None?
    ensures r.final.Some? <==> params.numerus == Plural && params.person != First
    ensures r.previousVowel == LongI <==>
      params.numerus != Plural && params.person == Second && params.gender == Female
  {
    if params.numerus == Plural && (params.person == Second || params.person == Third) then
      SuffixResult(Some(FinalLetter(Alef)), None, LongU)
    else if params.numerus != Plural && params.person == Second && params.gender == Female then
      SuffixResult(None, None, LongI)
    else
      assert params.numerus == Plural ==> params.person == First;
      SuffixResult(None, None, Vowel.Sukun)
  }

  /** Defective quadriliterals keep the present suffix and put a long i
      before it wherever it has no final Alef. */
  function DeriveSuffixPresentDefective(params: ConjugationParams): (r: SuffixResult)
    ensures r.final == DeriveSuffixPresent(params).final && r.prefinal == DeriveSuffixPresent(params).prefinal
    ensures r.previousVowel == LongI <==> r.final.None?
  {
    var regular := DeriveSuffixPresent(params);
    if params.numerus == Plural && params.person != First then regular
    else regular.(previousVowel := LongI)
  }

  /** The suffix of a form; only defective quadriliterals have their own. */
  function DeriveSuffix(verbType: VerbType, params: ConjugationParams): (r: SuffixResult)
    ensures r.prefinal.Some? ==> r.final.Some? && params.tense == Perfect && params.numerus == Plural && params.person == Second
  {
    if verbType == QuadriliteralAndDefective then
      if params.tense == Present then DeriveSuffixPresentDefective(params)
      else
        assert params.tense == Perfect;
        DeriveSuffixPerfectDefective(params)
    else if params.tense == Present then DeriveSuffixPresent(params)
    else
      assert params.tense == Perfect;
      DeriveSuffixPerfect(params)
  }

  /** Perfect plurals: first person Nun with a long a after a silent stem,
      second person Ta with a long u and a final Alef, third person a long u
      and a final Alef. */
  lemma PerfectPlural(verbType: VerbType, params: ConjugationParams)
    requires verbType != QuadriliteralAndDefective && params.tense == Perfect && params.numerus == Plural
    ensures var r := DeriveSuffix(verbType, params);
      (params.person == First ==> r == SuffixResult(Some(FinalElement(Item(Nun, LongA))), None, Vowel.Sukun))
      && (params.person == Second ==> r == SuffixResult(Some(FinalLetter(Alef)), Some(Item(Ta, LongU)), Vowel.Sukun))
      && (params.person == Third ==> r == SuffixResult(Some(FinalLetter(Alef)), None, LongU))
  {
  }

  /** The perfect third masculine singular has no suffix, with a silent
      stem end; every other singular or dual perfect but the second feminine
      ends in Ta with sukun after a short i. */
  lemma PerfectSingular(verbType: VerbType, params: ConjugationParams)
    requires verbType != QuadriliteralAndDefective && params.tense == Perfect && params.numerus != Plural
    ensures var r := DeriveSuffix(verbType, params);
      (r.final.None? <==> params.person == Third && params.gender == Male)
      && (r.final.None? ==> r.previousVowel == Vowel.Sukun)
      && (!(params.person == Second && params.gender == Female) && r.final.Some? ==>
            r == SuffixResult(Some(FinalElement(Item(Ta, Vowel.Sukun))), None, ShortI))
  {
  }

  /** The present: a final Alef after a long u exactly in the second and
      third person plural, a long i for the second feminine singular, a
      silent stem end otherwise; never a prefinal item. */
  lemma PresentSuffix(verbType: VerbType, params: ConjugationParams)
    requires verbType != QuadriliteralAndDefective && params.tense == Present
    ensures var r := DeriveSuffix(verbType, params);
      r.prefinal.None?
      && (r.final.Some? <==> params.numerus == Plural && params.person != First)
      && (r.final.Some? ==> r.final.value == FinalLetter(Alef) && r.previousVowel == LongU)
      && (r.final.None? ==> r.previousVowel == (if params.numerus != Plural && params.person == Second && params.gender == Female then LongI else Vowel.Sukun))
  {
  }

  /** A defective quadriliteral takes the same suffix as any other verb; only
      the vowel before it differs: in the present a long i except in the
      second and third person plural, in the perfect BrokenA for the third
      masculine singular and the diphthong aj outside the third person. */
  lemma DefectiveDiffersInPreviousVowel(params: ConjugationParams)
    ensures var d := DeriveSuffix(QuadriliteralAndDefective, params);
      var s := DeriveSuffix(Sound, params);
      d == s.(previousVowel := d.previousVowel)
      && d.previousVowel ==
        (if params.tense == Present then (if params.numerus == Plural && params.person != First then s.previousVowel else LongI)
         else if params.person == Third && params.numerus == Singular && params.gender == Male then BrokenA
         else if params.person != Third then DiphtongAj
         else s.previousVowel)
  {
  }

  /** All verb types other than the defective quadriliteral share one table. */
  lemma OneTable(verbType: VerbType, params: ConjugationParams)
    requires verbType != QuadriliteralAndDefective
    ensures DeriveSuffix(verbType, params) == DeriveSuffix(Sound, params)
  {
  }
}
