/** The declension of Modern Standard Arabic nouns and adjectives: the case
    endings, the triptote declension (with the dual and the sound masculine
    plural), the -in and -an suffixes, and the definite article. */
module MsaDeclension {
  import opened Wrappers
  import opened Definitions
  import opened Vocalization
  import Util

  type Word = seq<DisplayVocalized>

  datatype AdjectiveOrNounInput = AdjectiveOrNounInput(vocalized: Word, gender: Gender, numerus: Numerus)
  datatype DeclensionParams = DeclensionParams(casus: Case, state: AdjectiveOrNounState)

  /** A bare letter: no tashkil, no shadda, no emphasis. */
  function Plain(l: Letter): DisplayVocalized { DisplayVocalized(l, None, false, false) }

  /** A written tashkil. */
  function Mark(t: DisplayTashkil): Option<DisplayTashkil> { Some(t) }

  /** What spreading a missing item yields: an item with no letter and no marks. */
  const Blank: DisplayVocalized := Plain(NoLetter)

  /** The last item, or `Blank` when there is none (reading past the end). */
  function LastOrBlank(v: Word): DisplayVocalized
  {
    if v == [] then Blank else v[|v| - 1]
  }

  // ---------------------------------------------------------------- shared

  predicate IsTanween(t: DisplayTashkil) { t == Fathatan || t == Tashkil.Kasratan || t == Dhammatan }

  /** The tanween that doubles a short vowel. */
  function Tanween(t: DisplayTashkil): DisplayTashkil
  {
    match t
    case Fatha => Fathatan
    case Kasra => Tashkil.Kasratan
    case Dhamma => Dhammatan
    case _ => t
  }

  /** The case ending: a short vowel on a definite word, tanween on an
      indefinite one, and none in the informal case. */
  function AdjectiveEndingTashkil(casus: Case, isDefinite: bool): (t: Option<DisplayTashkil>)
    ensures t.None? <==> casus == Informal
    ensures t.Some? ==> (IsTanween(t.value) <==> !isDefinite)
  {
    match casus
    case Accusative => Mark(if isDefinite then Fatha else Fathatan)
    case Genitive => Mark(if isDefinite then Kasra else Tashkil.Kasratan)
    case Informal => None
    case Nominative => Mark(if isDefinite then Dhamma else Dhammatan)
  }

  /** Each case has its own vowel (u, a, i), and the indefinite ending is
      the tanween of the definite one. */
  lemma EndingsByCase(casus: Case)
    requires casus != Informal
    ensures AdjectiveEndingTashkil(casus, true)
         == Mark(if casus == Nominative then Dhamma else if casus == Accusative then Fatha else Kasra)
    ensures AdjectiveEndingTashkil(casus, false) == Mark(Tanween(AdjectiveEndingTashkil(casus, true).value))
  {
  }

  /** `v` with the tashkil of its last item replaced (an item with no letter
      when `v` is empty). */
  function WithTashkilOnLast(v: Word, t: Option<DisplayTashkil>): (r: Word)
    ensures |r| == if v == [] then 1 else |v|
    ensures r[..|r| - 1] == v[..|r| - 1]
    ensures r[|r| - 1] == LastOrBlank(v).(tashkil := t)
  {
    (if v == [] then [] else v[..|v| - 1]) + [LastOrBlank(v).(tashkil := t)]
  }

  /** The last tashkil written wins. */
  lemma WithTashkilOnLastTwice(v: Word, t: Option<DisplayTashkil>, u: Option<DisplayTashkil>)
    ensures WithTashkilOnLast(WithTashkilOnLast(v, t), u) == WithTashkilOnLast(v, u)
  {
    var once := WithTashkilOnLast(v, t);
    assert once[..|once| - 1] == if v == [] then [] else v[..|v| - 1];
  }

  // ---------------------------------------------------------------- triptote

  /** The case whose ending a triptote takes: a feminine plural's
      accusative is written like its genitive. */
  function EndingCase(input: AdjectiveOrNounInput, casus: Case): Case
  {
    if input.gender == Female && input.numerus == Plural && casus == Accusative then Genitive else casus
  }

  /** The ending of a triptote: a construct word takes the definite
      endings, and a feminine plural takes the genitive one for the
      accusative. */
  function EndingTashkil(input: AdjectiveOrNounInput, params: DeclensionParams): (t: Option<DisplayTashkil>)
    decreases if params.casus == Accusative then 1 else 0
    ensures t == AdjectiveEndingTashkil(EndingCase(input, params.casus), params.state != Indefinite)
  {
    if input.gender == Female && input.numerus == Plural && params.casus == Accusative then
      EndingTashkil(input, params.(casus := Genitive))
    else if params.state == Construct then AdjectiveEndingTashkil(params.casus, true)
    else AdjectiveEndingTashkil(params.casus, params.state == Definite)
  }

  /** The indefinite accusative of a masculine word is written with
      fathatan and an extra Alef. */
  predicate TakesAlefOfTanween(input: AdjectiveOrNounInput, params: DeclensionParams)
  {
    params.casus == Accusative && params.state == Indefinite && input.gender == Male
  }

  /** The triptote ending on the last item, and the Alef of tanween where
      it is written. */
  function DeclineDefault(input: AdjectiveOrNounInput, params: DeclensionParams): (r: Word)
    ensures |r| == (if input.vocalized == [] then 1 else |input.vocalized|) + (if TakesAlefOfTanween(input, params) then 1 else 0)
    ensures TakesAlefOfTanween(input, params) ==>
      r == WithTashkilOnLast(input.vocalized, Mark(Fathatan)) + [Plain(Alef)]
    ensures !TakesAlefOfTanween(input, params) ==>
      r == WithTashkilOnLast(input.vocalized, AdjectiveEndingTashkil(EndingCase(input, params.casus), params.state != Indefinite))
  {
    if TakesAlefOfTanween(input, params) then WithTashkilOnLast(input.vocalized, Mark(Fathatan)) + [Plain(Alef)]
    else WithTashkilOnLast(input.vocalized, EndingTashkil(input, params))
  }

  /** A plural ending in Waw and Nun is a sound masculine plural. The
      engine reads the two last items, so it fails on an empty word and on a
      lone Nun. */
  function IsSoundMasculinePlural(v: Word): (r: Result<bool>)
    ensures r.Error? <==> v == [] || (|v| == 1 && v[0].letter == Nun)
    ensures r == Ok(true) <==> |v| >= 2 && v[|v| - 1].letter == Nun && v[|v| - 2].letter == Waw
  {
    if v == [] then Error("the word is empty")
    else if v[|v| - 1].letter != Nun then Ok(false)
    else if |v| == 1 then Error("the word has no item before its Nun")
    else Ok(v[|v| - 2].letter == Waw)
  }

  /** The dual: kasra on the Nun (none in the informal case), Alef for the
      Ya in the nominative, and the Nun dropped in the construct state. */
  function DualForm(v: Word, params: DeclensionParams): (r: Word)
  {
    var fixed := WithTashkilOnLast(v, if params.casus == Informal then None else Mark(Kasra));
    var n := |fixed|;
    var nominative := if params.casus == Nominative && n >= 2 then fixed[n - 2 := Plain(Alef)] else fixed;
    if params.state == Construct then nominative[..n - 1] else nominative
  }

  /** The sound masculine plural: fatha on the Nun (none in the informal
      case); outside the nominative Ya for Waw with kasra before it; the
      Nun dropped in the construct state. */
  function SoundMasculinePluralForm(v: Word, params: DeclensionParams): (r: Word)
    requires |v| >= 2
  {
    var fixed := WithTashkilOnLast(v, if params.casus == Informal then None else Mark(Fatha));
    var n := |fixed|;
    var oblique :=
      if params.casus == Nominative then fixed
      else if n >= 3 then fixed[n - 2 := Plain(Ya)][n - 3 := fixed[n - 3].(tashkil := Mark(Kasra))]
      else fixed[n - 2 := Plain(Ya)];
    if params.state == Construct then oblique[..n - 1] else oblique
  }

  /** The triptote declension of a word. */
  function TriptoteForm(input: AdjectiveOrNounInput, params: DeclensionParams): (r: Result<Word>)
    ensures r.Error? <==> input.numerus == Plural && IsSoundMasculinePlural(input.vocalized).Error?
    ensures input.numerus != Plural ==> r.Ok?
  {
    match input.numerus
    case Singular => Ok(DeclineDefault(input, params))
    case Dual => Ok(DualForm(input.vocalized, params))
    case Plural =>
      match IsSoundMasculinePlural(input.vocalized)
      case Error(e) => Error(e)
      case Ok(soundMale) =>
        if soundMale then Ok(SoundMasculinePluralForm(input.vocalized, params))
        else Ok(DeclineDefault(input, params))
  }

  /** `DeclineTriptoteSuffix`, which writes the dual and plural endings
      into a fresh copy of the word item by item. */
  method DeclineTriptoteSuffix(input: AdjectiveOrNounInput, params: DeclensionParams) returns (r: Result<Word>)
    ensures r == TriptoteForm(input, params)
  {
    var v := input.vocalized;
    match input.numerus {
      case Singular =>
        return Ok(DeclineDefault(input, params));
      case Dual =>
        var fixedEnding := WithTashkilOnLast(v, if params.casus == Informal then None else Mark(Kasra));
        if params.casus == Nominative && |fixedEnding| >= 2 {
          fixedEnding := fixedEnding[|fixedEnding| - 2 := Plain(Alef)];
        }
        if params.state == Construct {
          fixedEnding := fixedEnding[..|fixedEnding| - 1];
        }
        return Ok(fixedEnding);
      case Plural =>
        if v == [] {
          return Error("the word is empty");
        }
        if v[|v| - 1].letter == Nun && |v| == 1 {
          return Error("the word has no item before its Nun");
        }
        if v[|v| - 1].letter == Nun && v[|v| - 2].letter == Waw {
          var fixedEnding := WithTashkilOnLast(v, if params.casus == Informal then None else Mark(Fatha));
          var n := |fixedEnding|;
          if params.casus != Nominative {
            fixedEnding := fixedEnding[n - 2 := Plain(Ya)];
            if n >= 3 {
              fixedEnding := fixedEnding[n - 3 := fixedEnding[n - 3].(tashkil := Mark(Kasra))];
            }
          }
          if params.state == Construct {
            fixedEnding := fixedEnding[..n - 1];
          }
          return Ok(fixedEnding);
        }
        return Ok(DeclineDefault(input, params));
    }
  }

  /** The triptote fails only on a plural that is empty or a lone Nun. */
  lemma TriptoteErrors(input: AdjectiveOrNounInput, params: DeclensionParams)
    ensures TriptoteForm(input, params).Error? <==>
      input.numerus == Plural && (input.vocalized == [] || (|input.vocalized| == 1 && input.vocalized[0].letter == Nun))
  {
  }

  /** The indefinite accusative of a masculine singular: fathatan on the
      last item and an Alef after it. */
  lemma IndefiniteAccusativeMasculine(input: AdjectiveOrNounInput, params: DeclensionParams)
    requires input.numerus == Singular && input.gender == Male && input.vocalized != []
    requires params.casus == Accusative && params.state == Indefinite
    ensures var v, n := input.vocalized, |input.vocalized|;
      TriptoteForm(input, params) == Ok(v[..n - 1] + [v[n - 1].(tashkil := Mark(Fathatan)), Plain(Alef)])
  {
    var v, n := input.vocalized, |input.vocalized|;
    assert WithTashkilOnLast(v, Mark(Fathatan)) == v[..n - 1] + [v[n - 1].(tashkil := Mark(Fathatan))];
    assert (v[..n - 1] + [v[n - 1].(tashkil := Mark(Fathatan))]) + [Plain(Alef)]
        == v[..n - 1] + [v[n - 1].(tashkil := Mark(Fathatan)), Plain(Alef)];
  }

  /** A feminine plural is declined in the accusative exactly as in the
      genitive. */
  lemma FemininePluralAccusativeIsGenitive(input: AdjectiveOrNounInput, params: DeclensionParams)
    requires input.gender == Female && input.numerus == Plural && params.casus == Accusative
    ensures TriptoteForm(input, params) == TriptoteForm(input, params.(casus := Genitive))
  {
  }

  /** A singular in the construct state takes the endings of the definite
      state. */
  lemma ConstructSingularIsDefinite(input: AdjectiveOrNounInput, params: DeclensionParams)
    requires input.numerus == Singular && params.state == Construct
    ensures TriptoteForm(input, params) == TriptoteForm(input, params.(state := Definite))
  {
  }

  /** The nominative dual writes Alef for the item before the Nun; the
      other cases keep it. */
  lemma DualNominativeAlef(input: AdjectiveOrNounInput, params: DeclensionParams)
    requires input.numerus == Dual && |input.vocalized| >= 2
    ensures var r, n := TriptoteForm(input, params).value, |input.vocalized|;
      |r| >= n - 1 && r[n - 2] == (if params.casus == Nominative then Plain(Alef) else input.vocalized[n - 2])
      && r[..n - 2] == input.vocalized[..n - 2]
  {
  }

  /** The construct state of a dual or of a sound masculine plural is its
      definite form without the final Nun. */
  lemma ConstructDropsNun(input: AdjectiveOrNounInput, casus: Case)
    requires input.numerus == Dual || (input.numerus == Plural && IsSoundMasculinePlural(input.vocalized) == Ok(true))
    ensures var c, d := TriptoteForm(input, DeclensionParams(casus, Construct)), TriptoteForm(input, DeclensionParams(casus, Definite));
      c.Ok? && d.Ok? && |d.value| >= 1 && c.value == d.value[..|d.value| - 1]
  {
    if input.numerus == Dual {
      DualConstructDropsNun(input.vocalized, casus);
    } else {
      PluralConstructDropsNun(input.vocalized, casus);
    }
  }

  lemma DualConstructDropsNun(v: Word, casus: Case)
    ensures var d := DualForm(v, DeclensionParams(casus, Definite));
      |d| >= 1 && DualForm(v, DeclensionParams(casus, Construct)) == d[..|d| - 1]
  {
  }

  lemma PluralConstructDropsNun(v: Word, casus: Case)
    requires |v| >= 2
    ensures var d := SoundMasculinePluralForm(v, DeclensionParams(casus, Definite));
      |d| >= 1 && SoundMasculinePluralForm(v, DeclensionParams(casus, Construct)) == d[..|d| - 1]
  {
  }

  /** Outside the nominative a sound masculine plural ends in -īna: Ya for
      Waw, kasra on the item before it; the nominative keeps -ūna. */
  lemma SoundMasculinePluralOblique(input: AdjectiveOrNounInput, params: DeclensionParams)
    requires input.numerus == Plural && IsSoundMasculinePlural(input.vocalized) == Ok(true)
    requires params.state != Construct
    ensures var r, v, n := TriptoteForm(input, params).value, input.vocalized, |input.vocalized|;
      |r| == n && r[..n - 3 + (if n == 2 then 1 else 0)] == v[..n - 3 + (if n == 2 then 1 else 0)]
      && r[n - 1] == v[n - 1].(tashkil := if params.casus == Informal then None else Mark(Fatha))
      && (params.casus == Nominative ==> r[n - 2] == v[n - 2] && (n >= 3 ==> r[n - 3] == v[n - 3]))
      && (params.casus != Nominative ==> r[n - 2] == Plain(Ya) && (n >= 3 ==> r[n - 3] == v[n - 3].(tashkil := Mark(Kasra))))
  {
  }

  // ---------------------------------------------------------------- -in suffix

  /** The informal form of an -in word: kasra on the last item, then Ya. */
  function InSuffixNominativeToInformal(v: Word): (r: Word)
    ensures |r| == (if v == [] then 1 else |v|) + 1
    ensures r == WithTashkilOnLast(v, Mark(Kasra)) + [Plain(Ya)]
  {
    (if v == [] then [] else v[..|v| - 1]) + [LastOrBlank(v).(tashkil := Mark(Kasra)), Plain(Ya)]
  }

  /** The declension of an adjective in -in (qāḍin): the indefinite
      nominative and genitive keep the word; every other form writes out the
      Ya, with fatha in the accusative, and fathatan with an Alef in the
      indefinite accusative of a masculine singular. */
  function DeclineAdjectiveInSuffix(input: AdjectiveOrNounInput, params: DeclensionParams): (r: Word)
    ensures r == input.vocalized <==> params.state == Indefinite && params.casus in {Nominative, Genitive}
  {
    var v := input.vocalized;
    if params.state == Indefinite && (params.casus == Nominative || params.casus == Genitive) then v
    else
      var withYa := InSuffixNominativeToInformal(v);
      if params.casus == Accusative then
        if params.state == Indefinite && input.gender == Male && input.numerus == Singular then
          WithTashkilOnLast(withYa, Mark(Fathatan)) + [Plain(Alef)]
        else WithTashkilOnLast(withYa, Mark(Fatha))
      else withYa
  }

  /** Outside the accusative, the long form is the informal form. */
  lemma InSuffixLongForm(input: AdjectiveOrNounInput, params: DeclensionParams)
    requires !(params.state == Indefinite && params.casus in {Nominative, Genitive})
    requires params.casus != Accusative
    ensures DeclineAdjectiveInSuffix(input, params) == InSuffixNominativeToInformal(input.vocalized)
  {
  }

  /** In the accusative the Ya is written with fatha, or with fathatan and
      an Alef after it in the indefinite masculine singular. */
  lemma InSuffixAccusative(input: AdjectiveOrNounInput, params: DeclensionParams)
    requires params.casus == Accusative && input.vocalized != []
    ensures var r, v, n := DeclineAdjectiveInSuffix(input, params), input.vocalized, |input.vocalized|;
      var alef := params.state == Indefinite && input.gender == Male && input.numerus == Singular;
      |r| == n + 1 + (if alef then 1 else 0)
      && r[..n - 1] == v[..n - 1] && r[n - 1] == v[n - 1].(tashkil := Mark(Kasra))
      && r[n] == Plain(Ya).(tashkil := Mark(if alef then Fathatan else Fatha))
      && (alef ==> r[n + 1] == Plain(Alef))
  {
    var v, n := input.vocalized, |input.vocalized|;
    var withYa := InSuffixNominativeToInformal(v);
    assert withYa == v[..n - 1] + [v[n - 1].(tashkil := Mark(Kasra)), Plain(Ya)];
  }

  // ---------------------------------------------------------------- -an suffix

  /** `v` with the tashkil of the item before the last (the one carrying
      the Alef maksura) replaced. The engine reads missing items as empty
      ones, so a word of fewer than two items grows to two. */
  function WithTashkilOnAlefMaksura(v: Word, t: Option<DisplayTashkil>): (r: Word)
    ensures |r| == if |v| >= 2 then |v| else 2
    ensures r[..|r| - 2] == v[..|r| - 2]
    ensures r[|r| - 2] == (if |v| >= 2 then v[|v| - 2] else Blank).(tashkil := t)
    ensures r[|r| - 1] == LastOrBlank(v)
  {
    var n := |v|;
    var preLast := if n >= 2 then v[n - 2] else Blank;
    (if n >= 2 then v[..n - 2] else []) + [preLast.(tashkil := t), LastOrBlank(v)]
  }

  /** The declension of an adjective in -an (a final Alef maksura): the
      indefinite keeps the word in every case but the informal; otherwise
      fatha goes on the letter before the Alef maksura. */
  function DeclineAdjectiveAnSuffix(input: AdjectiveOrNounInput, params: DeclensionParams): (r: Word)
    ensures params.state == Indefinite && params.casus != Informal ==> r == input.vocalized
    ensures !(params.state == Indefinite && params.casus != Informal) ==>
      r == WithTashkilOnAlefMaksura(input.vocalized, Mark(Fatha))
  {
    if params.state == Indefinite && params.casus != Informal then input.vocalized
    else WithTashkilOnAlefMaksura(input.vocalized, Mark(Fatha))
  }

  /** On a word of two items or more the -an declension keeps the length,
      every letter, the last item and every tashkil but the one before the
      last, which becomes fatha when it changes at all; and doing it again
      changes nothing. */
  lemma AnSuffixShape(input: AdjectiveOrNounInput, params: DeclensionParams)
    requires |input.vocalized| >= 2
    ensures var r, v, n := DeclineAdjectiveAnSuffix(input, params), input.vocalized, |input.vocalized|;
      |r| == n && r[n - 1] == v[n - 1]
      && (forall i :: 0 <= i < n ==> r[i].letter == v[i].letter)
      && (forall i :: 0 <= i < n && i != n - 2 ==> r[i] == v[i])
      && (r[n - 2] == v[n - 2] || r[n - 2] == v[n - 2].(tashkil := Mark(Fatha)))
    ensures var r := DeclineAdjectiveAnSuffix(input, params);
      DeclineAdjectiveAnSuffix(input.(vocalized := r), params) == r
  {
    var v, n := input.vocalized, |input.vocalized|;
    var r := DeclineAdjectiveAnSuffix(input, params);
    if !(params.state == Indefinite && params.casus != Informal) {
      assert r == v[..n - 2] + [v[n - 2].(tashkil := Mark(Fatha)), v[n - 1]];
      assert r[..n - 2] == v[..n - 2];
    }
  }

  /** The length grows exactly when the word is shorter than two items and
      the fatha is written. */
  lemma AnSuffixLength(input: AdjectiveOrNounInput, params: DeclensionParams)
    ensures |DeclineAdjectiveAnSuffix(input, params)| == |input.vocalized|
        <==> |input.vocalized| >= 2 || (params.state == Indefinite && params.casus != Informal)
  {
  }

  // ---------------------------------------------------------------- article

  /** The definite article in front of a definite word: Alef and Lam; before
      a sun letter the Lam is silent and the letter takes a shadda, before a
      moon letter the Lam takes sukun. The engine reads the first item, so it
      fails on an empty definite word. */
  function ConditionallyAddArticle(isDefinite: bool, v: Word): (r: Result<Word>)
    ensures r.Error? <==> isDefinite && v == []
    ensures !isDefinite ==> r == Ok(v)
    ensures isDefinite && r.Ok? ==>
      |r.value| == |v| + 2 && r.value[0] == Plain(Alef) && r.value[1].letter == Lam && r.value[3..] == v[1..]
      && r.value[2] == v[0].(shadda := r.value[2].shadda)
  {
    if !isDefinite then Ok(v)
    else if v == [] then Error("the word is empty")
    else if Util.IsSunLetter(v[0].letter) then Ok([Plain(Alef), Plain(Lam), v[0].(shadda := true)] + v[1..])
    else Ok([Plain(Alef), Plain(Lam).(tashkil := Mark(Tashkil.Sukun))] + v)
  }

  /** A sun letter takes a shadda and leaves the Lam unmarked; a moon letter
      keeps its own shadda and the Lam takes sukun. */
  lemma ArticleAssimilation(v: Word)
    requires v != []
    ensures var r := ConditionallyAddArticle(true, v).value;
      (Util.IsSunLetter(v[0].letter) ==> r[1] == Plain(Lam) && r[2].shadda)
      && (!Util.IsSunLetter(v[0].letter) ==> r[1] == Plain(Lam).(tashkil := Mark(Tashkil.Sukun)) && r[2..] == v)
  {
  }

  /** The declension of a noun or an adjective: a word ending in kasratan
      goes to the engine's -in decliner, which always fails; the others are
      declined as triptotes; a definite word then takes the article. The
      engine reads the last item's tashkil first, so it fails on an empty
      word. */
  function DeclineAdjectiveOrNounImpl(input: AdjectiveOrNounInput, params: DeclensionParams): (r: Result<Word>)
    ensures input.vocalized != [] && LastOrBlank(input.vocalized).tashkil != Mark(Tashkil.Kasratan) && params.state != Definite
      ==> r == TriptoteForm(input, params)
  {
    var v := input.vocalized;
    if v == [] then Error("the word is empty")
    else if v[|v| - 1].tashkil == Mark(Tashkil.Kasratan) then Error("HERE")
    else
      match TriptoteForm(input, params)
      case Error(e) => Error(e)
      case Ok(w) => ConditionallyAddArticle(params.state == Definite, w)
  }

  /** The kasratan route is the only new failure: the declension fails
      exactly when the word is empty, ends in kasratan, or is a plural the
      triptote cannot read. */
  lemma DeclineErrors(input: AdjectiveOrNounInput, params: DeclensionParams)
    ensures DeclineAdjectiveOrNounImpl(input, params).Error? <==>
      input.vocalized == [] || LastOrBlank(input.vocalized).tashkil == Mark(Tashkil.Kasratan)
      || TriptoteForm(input, params).Error?
  {
    if input.vocalized != [] && TriptoteForm(input, params).Ok? && params.state == Definite {
      DefiniteTriptoteNotEmpty(input, params);
    }
  }

  /** A definite triptote is never empty: only the construct state drops an
      item. */
  lemma DefiniteTriptoteNotEmpty(input: AdjectiveOrNounInput, params: DeclensionParams)
    requires params.state == Definite && TriptoteForm(input, params).Ok?
    ensures |TriptoteForm(input, params).value| >= 1
  {
  }

  /** A definite word grows by exactly the two items of the article, in
      front of its triptote form. */
  lemma DefiniteGrowsByTwo(input: AdjectiveOrNounInput, params: DeclensionParams)
    requires params.state == Definite && input.vocalized != []
    requires LastOrBlank(input.vocalized).tashkil != Mark(Tashkil.Kasratan)
    requires TriptoteForm(input, params).Ok?
    ensures var r, w := DeclineAdjectiveOrNounImpl(input, params), TriptoteForm(input, params).value;
      r.Ok? && |r.value| == |w| + 2 && r.value[0] == Plain(Alef) && r.value[1].letter == Lam && r.value[3..] == w[1..]
  {
    DefiniteTriptoteNotEmpty(input, params);
  }
}
