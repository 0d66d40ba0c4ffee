/** The prefix of a Modern Standard Arabic verb form: the hamzat al-wasl
    (a supporting Alef) of the perfect and the imperative, and the person
    prefix of the present tense with its vowel. */
module MsaPrefix {
  import opened Wrappers
  import opened Definitions
  import opened VerbRoot
  import opened MsaStem1
  import opened Conjugation

  /** The vowel of the present prefix; none for a stem outside 1 to 10. */
  function DerivePrefixTashkil(rootType: RootType, stem: nat, voice: Voice): (t: Option<Tashkil>)
    ensures t.Some? <==> 1 <= stem <= 10
    ensures t.Some? ==> t.value in {Fatha, Dhamma}
    ensures t == Some(Fatha) <==>
      voice == Active && stem in {1, 5, 6, 7, 8, 9, 10} && !(rootType == Quadriliteral && stem == 1)
  {
    if rootType == Quadriliteral && stem == 1 then Some(Dhamma)
    else if stem in {1, 5, 6, 7, 8, 9, 10} then Some(if voice == Active then Fatha else Dhamma)
    else if stem in {2, 3, 4} then Some(Dhamma)
    else None
  }

  /** The vowel the hamzat al-wasl of a stem-1 imperative borrows from the
      present vowel. The parameterizations without a code, other than hayiya,
      give none. */
  function GetImperativeTashkil(p: Stem1Parameterization): (t: Option<Tashkil>)
    ensures p == IrregularHayiya ==> t == Some(Kasra)
    ensures p.Listed? ==> t == Some(ExtractPresentMiddleRadicalTashkil(p.p))
  {
    if p == IrregularHayiya then Some(Kasra) else PresentTashkil(p)
  }

  /** The letter of the present prefix. First-person dual, which the source's
      switch has no case for, falls through to the second person's Ta. */
  function PresentPrefixLetter(person: Person, numerus: Numerus, gender: Gender): (l: Letter)
    ensures l in {AlefHamza, Nun, Ta, Ya}
    ensures l == AlefHamza <==> person == First && numerus == Singular
    ensures l == Nun <==> person == First && numerus == Plural
    ensures l == Ya <==> person == Third && !(gender == Female && numerus != Plural)
  {
    if person == First && numerus == Singular then AlefHamza
    else if person == First && numerus == Plural then Nun
    else if person != Third then Ta
    else if numerus == Plural && gender == Female then Ya
    else if gender == Male then Ya
    else assert gender == Female && numerus != Plural; Ta
  }

  /** `DerivePrefix`: at most one vowelled letter in front of the stem. */
  function DerivePrefix(prevTashkil: Tashkil, rootType: RootType, stemData: MsaStemData, params: ConjugationParams)
    : (r: Result<seq<ConjugationVocalized>>)
    ensures r.Ok? ==> |r.value| <= 1
    ensures r.Error? <==> params.tense == Present && params.mood != Imperative && !(1 <= stemData.stem <= 10)
  {
    if params.tense == Perfect then
      if prevTashkil == Tashkil.Sukun then
        Ok([ConjugationVocalized(Alef, if params.voice == Active then Kasra else Dhamma, false)])
      else Ok([])
    else if params.mood == Imperative then
      if stemData.stem == 4 then Ok([ConjugationVocalized(AlefHamza, Fatha, false)])
      else if prevTashkil == Tashkil.Sukun then
        var stem1ctx := if stemData.stem == 1 then GetImperativeTashkil(stemData.parameters) else None;
        Ok([ConjugationVocalized(Alef, if stem1ctx == Some(Dhamma) then Dhamma else Kasra, false)])
      else Ok([])
    else
      var tashkil := DerivePrefixTashkil(rootType, stemData.stem, params.voice);
      assert params.tense == Present;
      if tashkil.None? then Error("no prefix vowel for this stem")
      else Ok([ConjugationVocalized(PresentPrefixLetter(params.person, params.numerus, params.gender), tashkil.value, false)])
  }

  /** In the perfect, there is a prefix iff the stem starts with sukun, and it
      is an Alef with Kasra (active) or Dhamma (passive). */
  lemma PerfectPrefix(prevTashkil: Tashkil, rootType: RootType, stemData: MsaStemData, params: ConjugationParams)
    requires params.tense == Perfect
    ensures DerivePrefix(prevTashkil, rootType, stemData, params).Ok?
    ensures |DerivePrefix(prevTashkil, rootType, stemData, params).value| == 1 <==> prevTashkil == Tashkil.Sukun
    ensures prevTashkil == Tashkil.Sukun ==>
      DerivePrefix(prevTashkil, rootType, stemData, params).value[0]
        == ConjugationVocalized(Alef, if params.voice == Active then Kasra else Dhamma, false)
  {
  }

  /** A stem-4 imperative always starts with AlefHamza and Fatha. */
  lemma Stem4Imperative(prevTashkil: Tashkil, rootType: RootType, stemData: MsaStemData, params: ConjugationParams)
    requires params.tense == Present && params.mood == Imperative && stemData.stem == 4
    ensures DerivePrefix(prevTashkil, rootType, stemData, params) == Ok([ConjugationVocalized(AlefHamza, Fatha, false)])
  {
  }

  /** An imperative starting with sukun takes an Alef whose vowel is Dhamma iff
      the verb is stem 1 with a present vowel u, and Kasra otherwise. */
  lemma ImperativeWasl(rootType: RootType, stemData: MsaStemData, params: ConjugationParams)
    requires params.tense == Present && params.mood == Imperative && stemData.stem != 4
    ensures var r := DerivePrefix(Tashkil.Sukun, rootType, stemData, params);
      && r.Ok? && |r.value| == 1 && r.value[0].letter == Alef
      && (r.value[0].tashkil == Dhamma <==>
            stemData.stem == 1 && stemData.parameters.Listed?
            && ExtractPresentMiddleRadicalTashkil(stemData.parameters.p) == Dhamma)
      && (r.value[0].tashkil != Dhamma ==> r.value[0].tashkil == Kasra)
  {
  }

  /** A present non-imperative prefix is the person letter with the stem's
      prefix vowel. */
  lemma PresentPrefix(prevTashkil: Tashkil, rootType: RootType, stemData: MsaStemData, params: ConjugationParams)
    requires params.tense == Present && params.mood != Imperative && 1 <= stemData.stem <= 10
    ensures DerivePrefix(prevTashkil, rootType, stemData, params)
      == Ok([ConjugationVocalized(PresentPrefixLetter(params.person, params.numerus, params.gender),
                                  DerivePrefixTashkil(rootType, stemData.stem, params.voice).value, false)])
  {
  }
}
