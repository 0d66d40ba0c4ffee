/** The participles of Modern Standard Arabic: literal tables for stems 1
    and 10, and the rewrites that turn a conjugated present form into a
    participle (the regular and the defective pattern) together with their
    legacy versions over an augmented root. */
module MsaParticiples {
  import opened Wrappers
  import opened Definitions
  import opened VerbRoot
  import opened Conjugation
  import opened MsaStem1
  import opened Hamza
  import opened AugmentedRoots

  type Form = seq<ConjugationVocalized>

  // ---------------------------------------------------------------- stem 1

  /** The present vowel as the participle tables read it: the listed
      parameterizations give their own, the irregular ones none. */
  predicate PresentIsDhamma(param: Stem1Parameterization)
  {
    PresentTashkil(param) == Some(Dhamma)
  }

  /** The past vowel as the participle tables read it. */
  predicate PastIsKasra(param: Stem1Parameterization)
  {
    param.Listed? && ExtractMiddleRadicalTashkil(param.p) == Kasra
  }

  const Stem1ParticiplePlaceholder: Form := [V(TodoLetter, Dhamma)]

  /** laysa has no participle; the engine answers a lone dash. */
  const LaysaParticiple: Form := [End('-')]

  /** The participle of a stem-1 verb. Apart from the two placeholders, a
      passive participle opens with Mim (the maf'ūl pattern) and an active
      one with R1 and fatha (the fā'il pattern), but for a quadriliteral,
      which opens with Mim and dhamma. */
  function GenerateParticipleStem1(root: VerbRoot, voice: Voice, verbType: VerbType, param: Stem1Parameterization): (r: Form)
    decreases if verbType == Irregular then 1 else 0
    ensures |r| >= 1
    ensures r != Stem1ParticiplePlaceholder && r != LaysaParticiple && voice == Passive ==> |r| >= 4 && r[0].letter == Mim
    ensures r != Stem1ParticiplePlaceholder && r != LaysaParticiple && voice == Active ==>
      |r| >= 3 && (r[0] == V(root.r1(), Fatha) || (root.Type() == Quadriliteral && r[0] == V(Mim, Dhamma)))
  {
    var r1, r2, r3, r4 := root.r1(), root.r2(), root.r3(), root.r4();
    if verbType == AssimilatedAndDefective || verbType == Defective then
      if voice == Active then [V(r1, Fatha), Long(Alef), V(r2, Tashkil.Kasratan)]
      else if PresentIsDhamma(param) then [V(Mim, Fatha), V(r1, Tashkil.Sukun), V(r2, Dhamma), V(Waw, Tashkil.Sukun), End(Waw)]
      else [V(Mim, Fatha), V(r1, Tashkil.Sukun), V(r2, Kasra), V(Ya, Tashkil.Sukun), End(Ya)]
    else if verbType == Irregular && param == IrregularHayiya && voice == Active then
      [V(r1, Fatha), V(Ya, Tashkil.Sukun), End(Ya)]
    else if verbType == Irregular && param == IrregularLaysa then
      LaysaParticiple
    else if verbType == Irregular && param == IrregularRa2a then
      GenerateParticipleStem1(root, voice, Defective, param)
    else
      match root.Type()
      case MiddleWeak =>
        if voice == Active then
          if r3 == Definitions.Hamza then [V(r1, Fatha), Long(Alef), V(r3, Tashkil.Kasratan)]
          else [V(r1, Fatha), Long(Alef), V(Definitions.Hamza, Kasra), End(r3)]
        else
          [V(Mim, Fatha), V(r1, if PastIsKasra(param) then Kasra else Dhamma),
           Long(if PastIsKasra(param) then Ya else Waw), End(r3)]
      case Quadriliteral =>
        [V(Mim, Dhamma), V(r1, Fatha), V(r2, Tashkil.Sukun), V(r3, if voice == Active then Kasra else Fatha), End(r4)]
      case SecondConsonantDoubled =>
        if voice == Active then [V(r1, Fatha), Long(Alef), V(r2, Tashkil.Sukun), End(r2)]
        else [V(Mim, Fatha), V(r1, Tashkil.Sukun), V(r2, Dhamma), Long(Waw), End(r2)]
      case InitialWeak => FaIlOrMafUl(root, voice)
      case HamzaOnR1 => FaIlOrMafUl(root, voice)
      case Regular => FaIlOrMafUl(root, voice)
      case FinalWeak => Stem1ParticiplePlaceholder
      case DoublyWeak_WawOnR1_WawOrYaOnR3 => Stem1ParticiplePlaceholder
  }

  /** fā'il (active) or maf'ūl (passive) on the three radicals. */
  function FaIlOrMafUl(root: VerbRoot, voice: Voice): Form
  {
    if voice == Active then [V(root.r1(), Fatha), Long(Alef), V(root.r2(), Kasra), End(root.r3())]
    else [V(Mim, Fatha), V(root.r1(), Tashkil.Sukun), V(root.r2(), Dhamma), Long(Waw), End(root.r3())]
  }

  /** A defective verb's active participle is fā'in: R1 with fatha, a long
      Alef and R2 with kasratan; R3 is not written. */
  lemma DefectiveActive(root: VerbRoot, verbType: VerbType, param: Stem1Parameterization)
    requires verbType in {Defective, AssimilatedAndDefective}
    ensures GenerateParticipleStem1(root, Active, verbType, param)
         == [V(root.r1(), Fatha), Long(Alef), V(root.r2(), Tashkil.Kasratan)]
  {
  }

  /** A defective verb's passive participle ends in a doubled Waw when the
      present vowel is u, and in a doubled Ya otherwise; R2 takes the
      matching short vowel. */
  lemma DefectivePassive(root: VerbRoot, verbType: VerbType, param: Stem1Parameterization)
    requires verbType in {Defective, AssimilatedAndDefective}
    ensures var r := GenerateParticipleStem1(root, Passive, verbType, param);
      |r| == 5 && r[0] == V(Mim, Fatha) && r[1] == V(root.r1(), Tashkil.Sukun)
      && (r[3].letter == Waw <==> PresentIsDhamma(param))
      && (r[3].letter == Ya <==> !PresentIsDhamma(param))
      && r[4] == End(r[3].letter) && r[3].tashkil == Tashkil.Sukun
      && r[2] == V(root.r2(), if r[3].letter == Waw then Dhamma else Kasra)
  {
  }

  /** Regular, hamza-initial and assimilated roots take fā'il and maf'ūl:
      the radicals in order, with a long Alef after R1 in the active and a
      Mim before and a long Waw after R2 in the passive. */
  lemma FaIlMafUl(root: VerbRoot, verbType: VerbType, param: Stem1Parameterization)
    requires root.Type() in {Regular, RootType.HamzaOnR1, InitialWeak}
    requires verbType !in {Defective, AssimilatedAndDefective, Irregular}
    ensures GenerateParticipleStem1(root, Active, verbType, param)
         == [V(root.r1(), Fatha), Long(Alef), V(root.r2(), Kasra), End(root.r3())]
    ensures GenerateParticipleStem1(root, Passive, verbType, param)
         == [V(Mim, Fatha), V(root.r1(), Tashkil.Sukun), V(root.r2(), Dhamma), Long(Waw), End(root.r3())]
  {
  }

  /** A quadriliteral's active and passive participles differ only in the
      vowel of R3: kasra in the active, fatha in the passive. */
  lemma QuadriliteralVoices(root: VerbRoot, verbType: VerbType, param: Stem1Parameterization)
    requires root.Type() == Quadriliteral
    requires verbType !in {Defective, AssimilatedAndDefective, Irregular}
    ensures var a, p := GenerateParticipleStem1(root, Active, verbType, param), GenerateParticipleStem1(root, Passive, verbType, param);
      |a| == |p| == 5
      && (forall i :: 0 <= i < 5 && i != 3 ==> a[i] == p[i])
      && a[3] == V(root.r3(), Kasra) && p[3] == V(root.r3(), Fatha)
  {
  }

  /** ra'ā is treated as a defective verb: rā'in and mar'iyy (its present
      vowel is not u). */
  lemma Ra2aAsDefective(root: VerbRoot, voice: Voice)
    ensures GenerateParticipleStem1(root, voice, Irregular, IrregularRa2a)
         == GenerateParticipleStem1(root, voice, Defective, IrregularRa2a)
    ensures GenerateParticipleStem1(root, Passive, Irregular, IrregularRa2a)
         == [V(Mim, Fatha), V(root.r1(), Tashkil.Sukun), V(root.r2(), Kasra), V(Ya, Tashkil.Sukun), End(Ya)]
  {
  }

  // ---------------------------------------------------------------- stem 10

  /** The musta- opening of every stem-10 participle. */
  const Stem10Opening: Form := [V(Mim, Dhamma), V(Siin, Tashkil.Sukun), V(Ta, Fatha)]

  const Stem10Placeholder: Form := [V(TodoLetter, Tashkil.Sukun)]

  /** The participle of a stem-10 verb: musta- followed by R1, for the root
      types the table knows, the placeholder for the others. */
  function GenerateParticipleStem10(root: VerbRoot, voice: Voice): (r: Form)
    ensures r == Stem10Placeholder <==> root.Type() !in {FinalWeak, MiddleWeak, SecondConsonantDoubled, Regular}
    ensures r != Stem10Placeholder ==> |r| >= 5 && r[..3] == Stem10Opening && r[3].letter == root.r1()
  {
    var r1, r2, r3 := root.r1(), root.r2(), root.r3();
    match root.Type()
    case FinalWeak =>
      if voice == Active then Stem10Opening + [V(r1, Tashkil.Sukun), V(r2, Tashkil.Kasratan)]
      else Stem10Opening + [V(r1, Tashkil.Sukun), V(r2, Fathatan), End(AlefMaksura)]
    case MiddleWeak =>
      Stem10Opening + [V(r1, if voice == Active then Kasra else Fatha), Long(if voice == Active then Ya else Alef), End(r3)]
    case SecondConsonantDoubled =>
      Stem10Opening + [V(r1, if voice == Active then Kasra else Fatha), V(r2, Tashkil.Sukun), End(r3)]
    case Regular =>
      Stem10Opening + [V(r1, Tashkil.Sukun), V(r2, if voice == Active then Kasra else Fatha), End(r3)]
    case _ => Stem10Placeholder
  }

  /** A hollow root: R2 becomes a long Ya after kasra (active) or a long
      Alef after fatha (passive). */
  lemma Stem10Hollow(root: VerbRoot, voice: Voice)
    requires root.Type() == MiddleWeak
    ensures var r := GenerateParticipleStem10(root, voice);
      |r| == 6 && r[4] == Long(if voice == Active then Ya else Alef)
      && r[3].tashkil == (if voice == Active then Kasra else Fatha) && r[5] == End(root.r3())
  {
  }

  /** A final-weak root: the active ends in R2 with kasratan, the passive
      in R2 with fathatan and an Alef maksura. */
  lemma Stem10FinalWeak(root: VerbRoot)
    requires root.Type() == FinalWeak
    ensures var a := GenerateParticipleStem10(root, Active);
      |a| == 5 && a[4] == V(root.r2(), Tashkil.Kasratan)
    ensures var p := GenerateParticipleStem10(root, Passive);
      |p| == 6 && p[4] == V(root.r2(), Fathatan) && p[5] == End(AlefMaksura)
  {
  }

  /** Regular and doubled roots: the two voices differ in one vowel only,
      kasra in the active and fatha in the passive, on R2 (regular) or R1
      (doubled). */
  lemma Stem10VoicesDifferInOneVowel(root: VerbRoot)
    requires root.Type() in {Regular, SecondConsonantDoubled}
    ensures var a, p := GenerateParticipleStem10(root, Active), GenerateParticipleStem10(root, Passive);
      var k := if root.Type() == Regular then 4 else 3;
      |a| == |p| == 6
      && (forall i :: 0 <= i < 6 && i != k ==> a[i] == p[i])
      && a[k].tashkil == Kasra && p[k].tashkil == Fatha && a[k].letter == p[k].letter
  {
  }

  // ------------------------------------------------ from a conjugated form

  const MimU: ConjugationElement := ConjugationElement(Mim, ShortU, false)

  /** The regular participle of a conjugated present form: Mim with u in
      front, the last consonant moved into the ending with no final vowel
      and, in the active, an i after the last consonant kept. The engine
      fails on an empty form, and in the active also on a one-consonant
      form, which has no consonant left to take the i. */
  function ParticipleRegular(base: ConjugatedWord, voice: Voice): (r: Result<ConjugatedWord>)
    ensures r.Ok? <==> |base.elements| >= (if voice == Active then 2 else 1)
  {
    var n := |base.elements|;
    if n == 0 || (voice == Active && n == 1) then Error("the form has no consonant to move into the ending")
    else
      var kept := base.elements[..n - 1];
      var kept' := if voice == Active then kept[n - 2 := kept[n - 2].(followingVowel := ShortI)] else kept;
      Ok(ConjugatedWord([MimU] + kept', Some(Ending(base.elements[n - 1].consonant, NoFinalVowel))))
  }

  /** The participle has as many elements as the form: Mim comes in, the
      last consonant goes to the ending; every other element is kept as it
      is, but for the i on the last one kept in the active. */
  lemma RegularParticipleShape(base: ConjugatedWord, voice: Voice)
    requires ParticipleRegular(base, voice).Ok?
    ensures var w, n := ParticipleRegular(base, voice).value, |base.elements|;
      |w.elements| == n && w.elements[0] == MimU
      && w.ending == Some(Ending(base.elements[n - 1].consonant, NoFinalVowel))
      && (forall i :: 1 <= i < n - 1 ==> w.elements[i] == base.elements[i - 1])
      && (n >= 2 ==>
            w.elements[n - 1] == if voice == Active then base.elements[n - 2].(followingVowel := ShortI) else base.elements[n - 2])
  {
  }

  /** The participle of a defective form: Mim with u in front, the first
      element dropped when it is a hamzat al-wasl, the last consonant moved
      into the ending with kasratan (active) or Alef maksura and fathatan
      (passive). It fails only on an empty form. */
  function GenerateParticipleDefective(base: ConjugatedWord, voice: Voice, hasHamzatAlWasl: bool): (r: Result<ConjugatedWord>)
    ensures r.Ok? <==> |base.elements| >= 1
    ensures r.Ok? ==>
      |r.value.elements| >= 1 && r.value.elements[0] == MimU
      && r.value.ending == Some(Ending(base.elements[|base.elements| - 1].consonant,
                                       if voice == Active then FinalVowel.Kasratan else AlefMaksuraWithFathatan))
  {
    var n := |base.elements|;
    if n == 0 then Error("the form has no consonant to move into the ending")
    else
      var from := if hasHamzatAlWasl then 1 else 0;
      var kept := if from <= n - 1 then base.elements[from..n - 1] else [];
      Ok(ConjugatedWord([MimU] + kept,
        Some(Ending(base.elements[n - 1].consonant, if voice == Active then FinalVowel.Kasratan else AlefMaksuraWithFathatan))))
  }

  /** The hamzat al-wasl flag drops exactly the first element of the form
      (when there is one besides the ending consonant). */
  lemma HamzatAlWaslDropsFirst(base: ConjugatedWord, voice: Voice)
    requires |base.elements| >= 2
    ensures var with, without := GenerateParticipleDefective(base, voice, true), GenerateParticipleDefective(base, voice, false);
      with.Ok? && without.Ok?
      && without.value.elements == [MimU, base.elements[0]] + with.value.elements[1..]
      && with.value.ending == without.value.ending
  {
  }

  /** Without a hamzat al-wasl, the defective and the passive regular
      participle keep the same elements; they differ only in the final
      vowel of the ending. */
  lemma DefectiveAgreesWithRegular(base: ConjugatedWord, voice: Voice)
    requires |base.elements| >= 1
    ensures var d, r := GenerateParticipleDefective(base, voice, false), ParticipleRegular(base, Passive);
      d.Ok? && r.Ok? && d.value.elements == r.value.elements
      && d.value.ending.Some? && r.value.ending.Some?
      && d.value.ending.value.consonant == r.value.ending.value.consonant
      && r.value.ending.value.finalVowel == NoFinalVowel
      && d.value.ending.value.finalVowel != NoFinalVowel
  {
  }

  /** A conjugated form whose elements the caller keeps using: the
      participle rewrite reaches into it. */
  class WordBuffer {
    var elements: seq<ConjugationElement>
    var ending: Option<Ending>

    constructor(w: ConjugatedWord)
      ensures elements == w.elements && ending == w.ending
    {
      elements := w.elements;
      ending := w.ending;
    }

    function Word(): ConjugatedWord
      reads this
    {
      ConjugatedWord(elements, ending)
    }
  }

  /** The regular participle as the engine computes it: the elements kept
      are the caller's own, so setting the i on the last one kept also
      changes the caller's form. */
  method GenerateParticipleRegular(base: WordBuffer, voice: Voice) returns (r: Result<ConjugatedWord>)
    modifies base
    ensures r == ParticipleRegular(old(base.Word()), voice)
    ensures base.ending == old(base.ending)
    ensures base.elements ==
      if r.Ok? && voice == Active then
        old(base.elements)[|old(base.elements)| - 2 := old(base.elements)[|old(base.elements)| - 2].(followingVowel := ShortI)]
      else old(base.elements)
  {
    var n := |base.elements|;
    if n == 0 || (voice == Active && n == 1) {
      return Error("the form has no consonant to move into the ending");
    }
    if voice == Active {
      base.elements := base.elements[n - 2 := base.elements[n - 2].(followingVowel := ShortI)];
    }
    var kept := base.elements[..n - 1];
    r := Ok(ConjugatedWord([MimU] + kept, Some(Ending(base.elements[n - 1].consonant, NoFinalVowel))));
  }

  // ------------------------------------------------ legacy, on an augmented root

  /** A letter whose tashkil may still be unset: a root symbol spread into
      a vocalized list. */
  datatype LooseVocalized = LooseVocalized(letter: Letter, tashkil: Option<Tashkil>)

  function Loosen(symbols: seq<RootSymbol>): (r: seq<LooseVocalized>)
    ensures |r| == |symbols|
    ensures forall i :: 0 <= i < |r| ==> r[i] == LooseVocalized(symbols[i].letter, symbols[i].tashkil)
  {
    seq(|symbols|, i requires 0 <= i < |symbols| => LooseVocalized(symbols[i].letter, symbols[i].tashkil))
  }

  /** The symbols the legacy defective participle leaves: in the active the
      last symbol is dropped and R2 takes kasratan, in the passive R2 takes
      fathatan. */
  function LegacyDefectiveSymbols(symbols: seq<RootSymbol>, voice: Voice): seq<RootSymbol>
  {
    if voice == Active then WithTashkil(if symbols == [] then [] else symbols[..|symbols| - 1], R2, Some(Tashkil.Kasratan))
    else WithTashkil(symbols, R2, Some(Fathatan))
  }

  /** The symbols the legacy defective participle keeps before setting R2. */
  function LegacyDefectiveKept(symbols: seq<RootSymbol>, voice: Voice): seq<RootSymbol>
  {
    if voice == Active && symbols != [] then symbols[..|symbols| - 1] else symbols
  }

  /** The active drops one symbol and the passive none; R2 ends up with
      tanween (kasratan or fathatan), every other symbol is kept as it was. */
  lemma LegacyDefectiveShape(symbols: seq<RootSymbol>, voice: Voice)
    requires symbols != []
    ensures var r := LegacyDefectiveSymbols(symbols, voice);
      |r| == |symbols| - (if voice == Active then 1 else 0)
      && forall i :: 0 <= i < |r| ==>
        (symbols[i].symbolName == R2 ==> r[i].tashkil == Some(if voice == Active then Tashkil.Kasratan else Fathatan))
        && (symbols[i].symbolName != R2 ==> r[i] == symbols[i])
  {
  }

  method LegacyGenerateParticipleDefective(baseForm: AugmentedRoot, voice: Voice) returns (r: seq<LooseVocalized>)
    requires Find(LegacyDefectiveKept(baseForm.symbols, voice), R2).Some?
    modifies baseForm
    ensures baseForm.symbols == LegacyDefectiveSymbols(old(baseForm.symbols), voice)
    ensures baseForm.edits == old(baseForm.edits) + [SetTashkil(R2, Some(if voice == Active then Tashkil.Kasratan else Fathatan))]
    ensures r == [LooseVocalized(Mim, Some(Dhamma))] + Loosen(baseForm.symbols)
  {
    if voice == Active {
      if baseForm.symbols != [] {
        baseForm.symbols := baseForm.symbols[..|baseForm.symbols| - 1];
      }
      baseForm.ApplyTashkil(R2, Some(Tashkil.Kasratan));
    } else {
      baseForm.ApplyTashkil(R2, Some(Fathatan));
    }
    r := [LooseVocalized(Mim, Some(Dhamma))] + Loosen(baseForm.symbols);
  }

  /** The symbols the legacy regular participle leaves: R2 with kasra in the
      active, R3 marked as the end of the word, and the first symbol (a
      hamzat al-wasl) removed when the flag says so. */
  function LegacyRegularSymbols(symbols: seq<RootSymbol>, voice: Voice, hasHamzatAlWasl: bool): seq<RootSymbol>
  {
    var s1 := if voice == Active then WithTashkil(symbols, R2, Some(Kasra)) else symbols;
    var s2 := WithTashkil(s1, R3, Some(EndOfWordMarker));
    if hasHamzatAlWasl && s2 != [] then s2[1..] else s2
  }

  /** After the legacy regular rewrite, R3 carries the end-of-word marker,
      R2 carries kasra in the active, every other symbol is kept, and the
      first one is gone when the form had a hamzat al-wasl. */
  lemma LegacyRegularShape(symbols: seq<RootSymbol>, voice: Voice, hasHamzatAlWasl: bool)
    requires symbols != []
    ensures var r, d := LegacyRegularSymbols(symbols, voice, hasHamzatAlWasl), if hasHamzatAlWasl then 1 else 0;
      |r| == |symbols| - d
      && forall i :: 0 <= i < |r| ==>
        r[i].symbolName == symbols[i + d].symbolName && r[i].letter == symbols[i + d].letter
        && (symbols[i + d].symbolName == R3 ==> r[i].tashkil == Some(EndOfWordMarker))
        && (symbols[i + d].symbolName == R2 && voice == Active ==> r[i].tashkil == Some(Kasra))
        && (symbols[i + d].symbolName !in {R2, R3} ==> r[i] == symbols[i + d])
  {
  }

  method LegacyGenerateParticipleRegular(baseForm: AugmentedRoot, voice: Voice, hasHamzatAlWasl: bool) returns (r: seq<LooseVocalized>)
    requires Find(baseForm.symbols, R3).Some? && (voice == Active ==> Find(baseForm.symbols, R2).Some?)
    modifies baseForm
    ensures baseForm.symbols == LegacyRegularSymbols(old(baseForm.symbols), voice, hasHamzatAlWasl)
    ensures baseForm.edits == old(baseForm.edits)
      + (if voice == Active then [SetTashkil(R2, Some(Kasra))] else []) + [SetTashkil(R3, Some(EndOfWordMarker))]
    ensures r == [LooseVocalized(Mim, Some(Dhamma))] + Loosen(baseForm.symbols)
  {
    if voice == Active {
      baseForm.ApplyTashkil(R2, Some(Kasra));
    }
    baseForm.ApplyTashkil(R3, Some(EndOfWordMarker));
    if hasHamzatAlWasl && baseForm.symbols != [] {
      baseForm.symbols := baseForm.symbols[1..];
    }
    r := [LooseVocalized(Mim, Some(Dhamma))] + Loosen(baseForm.symbols);
  }
}
