/** The verbal nouns (masdar) of Modern Standard Arabic stems 1, 2 and 4:
    literal tables of vowelled letters chosen by the verb type or root type
    and, for stem 1, by the stem's past and present vowels. */
module MsaVerbalNouns {
  import opened Wrappers
  import opened Definitions
  import opened VerbRoot
  import opened Conjugation
  import opened MsaStem1

  /** One vowelled word. */
  type Form = seq<ConjugationVocalized>

  predicate PairwiseDistinct(forms: seq<Form>)
  {
    forall i, j :: 0 <= i < j < |forms| ==> forms[i] != forms[j]
  }

  /** A table entry: at least one form, every form at least three letters
      long, no form offered twice. */
  predicate WellFormedTable(forms: seq<Form>)
  {
    |forms| >= 1 && PairwiseDistinct(forms) && forall i :: 0 <= i < |forms| ==> |forms[i]| >= 3
  }

  // ---------------------------------------------------------------- stem 1

  /** Assimilated verbs (R1 Waw or Ya), by past and present vowel; None
      where the engine has no entry. */
  function AssimilatedNouns(root: VerbRoot, p: Stem1Parameters): (r: Option<seq<Form>>)
    ensures r.Some? ==> WellFormedTable(r.value)
  {
    var r1, r2, r3 := root.r1(), root.r2(), root.r3();
    var past, present := ExtractMiddleRadicalTashkil(p), ExtractPresentMiddleRadicalTashkil(p);
    if past == Dhamma && present == Dhamma then
      Some([[V(r1, Dhamma), V(r2, Tashkil.Sukun), End(r3)],
            [V(r1, Fatha), V(r2, Tashkil.Sukun), End(r3)]])
    else if past == Fatha && present == Fatha then
      Some([[V(r1, Dhamma), V(r2, Dhamma), Long(Waw), End(r3)],
            [V(r1, Fatha), V(r2, Tashkil.Sukun), End(r3)]])
    else if past == Fatha && present == Kasra then
      Some([[V(r1, Fatha), V(r2, Tashkil.Sukun), End(r3)],
            [V(r1, Dhamma), V(r2, Dhamma), Long(Waw), End(r3)],
            [V(r2, Kasra), V(r3, Fatha), End(TaMarbuta)]])
    else if past == Kasra && present == Fatha then
      Some([[V(r1, Fatha), V(r2, Tashkil.Sukun), End(r3)]])
    else if past == Kasra && present == Kasra then
      Some([[V(r1, Fatha), V(r2, Tashkil.Sukun), End(r3)],
            [V(r2, Kasra), V(r3, Fatha), End(TaMarbuta)]])
    else None
  }

  /** Assimilated and defective verbs: only the "ai" parameterization. */
  function AssimilatedAndDefectiveNouns(root: VerbRoot, p: Stem1Parameters): (r: Option<seq<Form>>)
    ensures r.Some? ==> WellFormedTable(r.value)
  {
    var r1, r2, r3 := root.r1(), root.r2(), root.r3();
    if Code(p) == Code(DefectiveType1) then
      Some([[V(r1, Fatha), V(r2, Tashkil.Sukun), End(r3)],
            [V(r1, Kasra), V(r2, Fatha), Long(Alef), V(Ya, Fatha), End(TaMarbuta)]])
    else None
  }

  /** The fi'āya form (as in hikāya) of a defective verb. */
  function Hikaya(root: VerbRoot): Form
  {
    [V(root.r1(), Kasra), V(root.r2(), Fatha), Long(Alef), V(Ya, Fatha), End(TaMarbuta)]
  }

  /** Defective verbs (R3 Waw or Ya), by parameterization code. */
  function DefectiveNouns(root: VerbRoot, p: Stem1Parameters): (r: Option<seq<Form>>)
    ensures r.Some? ==> WellFormedTable(r.value)
  {
    var r1, r2, r3 := root.r1(), root.r2(), root.r3();
    if Code(p) == Code(DefectiveType1) then
      if r2 == Waw && r3 == Ya then
        Some([[V(r1, Fatha), V(Ya, Tashkil.Sukun), End(Ya)], Hikaya(root)])
      else
        Some([[V(r1, Fatha), V(r2, Fatha), Long(Alef), End(Hamza)],
              [V(r1, Fatha), V(r2, Tashkil.Sukun), End(Ya)],
              [V(r1, Kasra), V(r2, Fatha), Long(Alef), End(Hamza)],
              Hikaya(root),
              [V(r1, Kasra), V(r2, Tashkil.Sukun), V(Ya, Fatha), Long(Alef), End(Nun)]])
    else if Code(p) == Code(DefectiveType2) then
      Some([[V(r1, Fatha), V(r2, Tashkil.Sukun), Long(Waw)],
            [V(r1, Fatha), V(r2, Tashkil.Sukun), V(Waw, Fatha), End(AlefMaksura)]])
    else if Code(p) == Code(DefectiveType3) then
      if root.RadicalsAsSeparateLetters() == [Hha, Ya, Waw] then
        Some([[V(r1, Fatha), V(r2, Fatha), Long(Alef), End(Hamza)],
              [V(r1, Fatha), V(r2, Fatha), Long(Alef), End(TaMarbuta)]])
      else if r2 == Waw && r3 == Ya then
        Some([[V(r1, Dhamma), V(r2, Tashkil.Sukun), V(r2, Fatha), End(TaMarbuta)],
              [V(r1, Fatha), V(r2, Fathatan), End(AlefMaksura)]])
      else
        Some([[V(r1, Fatha), V(r2, Fatha), Long(Alef), End(Hamza)],
              [V(r1, Fatha), V(r2, Fathatan), End(AlefMaksura)],
              [V(r1, Fatha), V(r2, Tashkil.Sukun), V(Ya, Fatha), End(TaMarbuta)],
              [V(r1, Kasra), V(r2, Fatha), Long(Alef), End(Hamza)]])
    else None
  }

  /** Verbs with a hamza as R1. */
  function HamzaOnR1Nouns(root: VerbRoot, p: Stem1Parameters): (r: Option<seq<Form>>)
    ensures r.Some? ==> WellFormedTable(r.value)
  {
    var r1, r2, r3 := root.r1(), root.r2(), root.r3();
    var past, present := ExtractMiddleRadicalTashkil(p), ExtractPresentMiddleRadicalTashkil(p);
    if past == Dhamma then
      Some([[V(r1, Fatha), V(r2, Fatha), End(r3)],
            [V(Hamza, Fatha), V(r2, Fatha), Long(Alef), V(r3, Fatha), End(TaMarbuta)],
            [V(Hamza, Kasra), V(r2, Fatha), Long(Alef), V(r3, Fatha), End(TaMarbuta)]])
    else if past == Fatha && (present == Dhamma || present == Kasra) then
      Some([[V(r1, Fatha), V(r2, Tashkil.Sukun), End(r3)]])
    else if past == Kasra && present == Fatha then
      Some([[V(r1, Fatha), V(r2, Fatha), Long(Alef), End(r3)]])
    else None
  }

  /** Hollow verbs (R2 Waw or Ya); R2 is written as the Waw or Ya the form needs. */
  function HollowNouns(root: VerbRoot, p: Stem1Parameters): (r: Option<seq<Form>>)
    ensures r.Some? ==> WellFormedTable(r.value)
  {
    var r1, r3 := root.r1(), root.r3();
    var past, present := ExtractMiddleRadicalTashkil(p), ExtractPresentMiddleRadicalTashkil(p);
    if past == Dhamma && present == Dhamma then
      Some([[V(r1, Dhamma), Long(Waw), End(r3)],
            [V(r1, Fatha), V(Waw, Fatha), Long(Alef), End(r3)],
            [V(r1, Fatha), V(Waw, Tashkil.Sukun), End(r3)],
            [V(r1, Fatha), V(Waw, Tashkil.Sukun), V(r3, Fatha), End(TaMarbuta)],
            [V(r1, Kasra), V(Ya, Fatha), Long(Alef), End(r3)],
            [V(r1, Kasra), V(Ya, Fatha), Long(Alef), V(r3, Fatha), End(TaMarbuta)],
            [V(Mim, Fatha), V(r1, Fatha), Long(Alef), End(r3)]])
    else if past == Kasra && present == Fatha then
      Some([[V(r1, Fatha), V(Ya, Tashkil.Sukun), V(r3, Fatha), End(TaMarbuta)]])
    else if past == Kasra && present == Kasra then
      Some([[V(r1, Fatha), V(Ya, Fatha), V(r3, Fatha), Long(Alef), End(Nun)],
            [V(r1, Fatha), V(Ya, Fatha), Long(Alef), End(r3)],
            [V(r1, Fatha), V(Ya, Tashkil.Sukun), End(r3)],
            [V(r1, Fatha), V(Ya, Tashkil.Sukun), V(r3, Fatha), End(TaMarbuta)],
            [V(r1, Kasra), V(Ya, Fatha), Long(Alef), End(r3)],
            [V(r1, Kasra), Long(Ya), V(r3, Fatha), End(TaMarbuta)],
            [V(r1, Kasra), V(Ya, Fatha), Long(Alef), V(r3, Fatha), End(TaMarbuta)],
            [V(Mim, Fatha), V(r1, Kasra), Long(Ya), V(r3, Fatha), End(TaMarbuta)]])
    else None
  }

  /** Geminate verbs (R2 = R3). */
  function GeminateNouns(root: VerbRoot, p: Stem1Parameters): (r: Option<seq<Form>>)
    ensures r.Some? ==> WellFormedTable(r.value)
  {
    var r1, r2, r3 := root.r1(), root.r2(), root.r3();
    var past, present := ExtractMiddleRadicalTashkil(p), ExtractPresentMiddleRadicalTashkil(p);
    if past == Fatha && present == Dhamma then
      Some([[V(r1, Dhamma), V(r2, Dhamma), Long(Waw), End(r3)],
            [V(r1, Fatha), V(r2, Fatha), Long(Alef), V(r3, Fatha), End(TaMarbuta)],
            [V(r1, Fatha), V(r2, Tashkil.Sukun), End(r3)],
            [V(r1, Kasra), V(r2, Fatha), Long(Alef), End(r3)]])
    else if past == Fatha && present == Kasra then
      Some([[V(r1, Dhamma), V(r2, Dhamma), Long(Waw), End(r3)],
            [V(r1, Dhamma), V(r2, Tashkil.Sukun), End(r2)],
            [V(r1, Fatha), V(r2, Fatha), Long(Alef), End(r3)],
            [V(r1, Fatha), V(r2, Kasra), Long(Ya), End(r3)],
            [V(r1, Fatha), V(r2, Tashkil.Sukun), End(r3)],
            [V(r1, Kasra), V(r2, Fatha), Long(Alef), End(r3)],
            [V(r1, Kasra), V(r2, Tashkil.Sukun), End(r3)],
            [V(r1, Kasra), V(r2, Tashkil.Sukun), V(r3, Fatha), End(TaMarbuta)]])
    else if past == Kasra then
      Some([[V(r1, Kasra), V(r2, Tashkil.Sukun), End(r2)],
            [V(Mim, Fatha), V(r1, Fatha), V(r2, Tashkil.Sukun), V(r2, Fatha), End(TaMarbuta)]])
    else None
  }

  /** The sound table for past vowel u. */
  function SoundPastU(r1: Letter, r2: Letter, r3: Letter): (forms: seq<Form>)
    ensures WellFormedTable(forms)
  {
    [[V(r1, Dhamma), V(r2, Dhamma), Long(Waw), V(r3, Fatha), End(TaMarbuta)],
     [V(r1, Dhamma), V(r2, Tashkil.Sukun), End(r3)],
     [V(r1, Dhamma), V(r2, Tashkil.Sukun), V(r3, Fatha), End(TaMarbuta)],
     [V(r1, Fatha), V(r2, Fatha), End(r3)],
     [V(r1, Fatha), V(r2, Fatha), Long(Alef), End(r3)],
     [V(r1, Fatha), V(r2, Fatha), Long(Alef), V(r3, Fatha), End(TaMarbuta)],
     [V(r1, Fatha), V(r2, Tashkil.Sukun), End(r3)],
     [V(r1, Fatha), V(r2, Tashkil.Sukun), V(r3, Fatha), End(TaMarbuta)]]
  }

  /** The sound table for past a, present a. */
  function SoundPastAPresentA(r1: Letter, r2: Letter, r3: Letter): (forms: seq<Form>)
    ensures WellFormedTable(forms)
  {
    [[V(r1, Dhamma), V(r2, Dhamma), Long(Waw), End(r3)],
     [V(r1, Dhamma), V(r2, Fatha), Long(Alef), End(r3)],
     [V(r1, Fatha), V(r2, Tashkil.Sukun), End(r3)],
     [V(r1, Kasra), V(r2, Tashkil.Sukun), End(r3)],
     [V(r1, Kasra), V(r2, Fatha), Long(Alef), V(r3, Fatha), End(TaMarbuta)],
     [V(Mim, Fatha), V(r1, Tashkil.Sukun), V(r2, Fatha), V(r3, Fatha), End(TaMarbuta)]]
  }

  /** The sound table for past a, present i. */
  function SoundPastAPresentI(r1: Letter, r2: Letter, r3: Letter): (forms: seq<Form>)
    ensures WellFormedTable(forms)
  {
    [[V(r1, Dhamma), V(r2, Tashkil.Sukun), End(r3)],
     [V(r1, Dhamma), V(r2, Dhamma), Long(Waw), End(r3)],
     [V(r1, Dhamma), V(r2, Tashkil.Sukun), V(r3, Fatha), Long(Alef), End(Nun)],
     [V(r1, Dhamma), V(r2, Tashkil.Sukun), V(r3, Fatha), End(TaMarbuta)],
     [V(r1, Fatha), V(r2, Tashkil.Sukun), End(r3)],
     [V(r1, Fatha), V(r2, Kasra), V(r3, Fatha), End(TaMarbuta)],
     [V(r1, Kasra), V(r2, Tashkil.Sukun), V(r3, Fatha), End(TaMarbuta)],
     [V(r1, Kasra), V(r2, Tashkil.Sukun), End(r3)],
     [V(Mim, Fatha), V(r1, Tashkil.Sukun), V(r2, Kasra), V(r3, Fatha), End(TaMarbuta)]]
  }

  /** The sound table for past a, present u. */
  function SoundPastAPresentU(r1: Letter, r2: Letter, r3: Letter): (forms: seq<Form>)
    ensures WellFormedTable(forms)
  {
    [[V(r1, Dhamma), V(r2, Dhamma), Long(Waw), End(r3)],
     [V(r1, Dhamma), V(r2, Fatha), Long(Alef), End(r3)],
     [V(r1, Fatha), V(r2, Fatha), End(r3)],
     [V(r1, Fatha), V(r2, Fatha), Long(Alef), V(r3, Fatha), End(TaMarbuta)],
     [V(r1, Fatha), V(r2, Tashkil.Sukun), End(r3)],
     [V(r1, Kasra), V(r2, Fatha), Long(Alef), V(r3, Fatha), End(TaMarbuta)],
     [V(r1, Kasra), V(r2, Tashkil.Sukun), V(r3, Fatha), End(TaMarbuta)],
     [V(Mim, Fatha), V(r1, Tashkil.Sukun), V(r2, Fatha), End(r3)]]
  }

  /** The sound table for past i, present a. */
  function SoundPastIPresentA(r1: Letter, r2: Letter, r3: Letter): (forms: seq<Form>)
    ensures WellFormedTable(forms)
  {
    [[V(r1, Dhamma), V(r2, Dhamma), Long(Waw), End(r3)],
     [V(r1, Dhamma), V(r2, Tashkil.Sukun), End(r3)],
     [V(r1, Fatha), V(r2, Fatha), End(r3)],
     [V(r1, Fatha), V(r2, Kasra), V(r3, Fatha), End(TaMarbuta)],
     [V(r1, Fatha), V(r2, Tashkil.Sukun), End(r3)],
     [V(r1, Fatha), V(r2, Tashkil.Sukun), V(r3, Fatha), End(TaMarbuta)],
     [V(r1, Fatha), V(r2, Fatha), Long(Alef), End(r3)],
     [V(r1, Fatha), V(r2, Fatha), Long(Alef), V(r3, Fatha), End(TaMarbuta)],
     [V(r1, Kasra), V(r2, Tashkil.Sukun), End(r3)]]
  }

  /** Sound triliteral verbs. */
  function SoundNouns(root: VerbRoot, p: Stem1Parameters): (r: Option<seq<Form>>)
    ensures r.Some? ==> WellFormedTable(r.value)
  {
    var r1, r2, r3 := root.r1(), root.r2(), root.r3();
    var past, present := ExtractMiddleRadicalTashkil(p), ExtractPresentMiddleRadicalTashkil(p);
    if past == Dhamma then Some(SoundPastU(r1, r2, r3))
    else if past == Fatha && present == Fatha then Some(SoundPastAPresentA(r1, r2, r3))
    else if past == Fatha && present == Kasra then Some(SoundPastAPresentI(r1, r2, r3))
    else if past == Fatha && present == Dhamma then Some(SoundPastAPresentU(r1, r2, r3))
    else if past == Kasra && present == Fatha then Some(SoundPastIPresentA(r1, r2, r3))
    else None
  }

  /** The table entry for a verb type and parameterization, or None where
      the engine falls through to its placeholder. */
  function Stem1Table(root: VerbRoot, verbType: VerbType, p: Stem1Parameters): (r: Option<seq<Form>>)
    ensures r.Some? ==> WellFormedTable(r.value)
  {
    match verbType
    case Assimilated => AssimilatedNouns(root, p)
    case AssimilatedAndDefective => AssimilatedAndDefectiveNouns(root, p)
    case Defective => DefectiveNouns(root, p)
    case HamzaOnR1 => HamzaOnR1Nouns(root, p)
    case Hollow => HollowNouns(root, p)
    case Geminate => GeminateNouns(root, p)
    case Sound => SoundNouns(root, p)
    case SoundQuadriliteral =>
      Some([[V(root.r1(), Fatha), V(root.r2(), Tashkil.Sukun), V(root.r3(), Fatha), V(root.r4(), Fatha), End(TaMarbuta)]])
    case Irregular => None
    case QuadriliteralAndDefective => None
  }

  /** The placeholder answer of stem 1 for a combination without a table entry. */
  const Stem1Placeholder: seq<Form> := [[V(TodoLetter, Tashkil.Sukun)]]

  /** Every candidate verbal noun of a stem-1 verb. The answer is never
      empty, and it is the one-letter placeholder exactly when the tables
      have no entry: a table form has at least three letters. The forms
      offered are pairwise distinct. */
  function GenerateAllPossibleVerbalNounsStem1(root: VerbRoot, verbType: VerbType, p: Stem1Parameters): (forms: seq<Form>)
    ensures |forms| >= 1
    ensures forms == Stem1Placeholder <==> Stem1Table(root, verbType, p).None?
    ensures Stem1Table(root, verbType, p).Some? ==> forall i :: 0 <= i < |forms| ==> |forms[i]| >= 3
    ensures PairwiseDistinct(forms)
  {
    var table := Stem1Table(root, verbType, p);
    if table.Some? then table.value else Stem1Placeholder
  }

  /** Whether a stem-1 verb may have more than one verbal noun, decided by
      the root type and the parameterization. */
  predicate HasPotentiallyMultipleVerbalNounFormsStem1(root: VerbRoot, p: Stem1Parameters)
  {
    var past, present := ExtractMiddleRadicalTashkil(p), ExtractPresentMiddleRadicalTashkil(p);
    match root.Type()
    case DoublyWeak_WawOnR1_WawOrYaOnR3 => Code(p) == Code(DefectiveType1)
    case FinalWeak => true
    case HamzaOnR1 => past == Dhamma
    case InitialWeak =>
      past == Dhamma || (past == Fatha && (present == Fatha || present == Kasra)) || (past == Kasra && present == Kasra)
    case MiddleWeak => (past == Dhamma && present == Dhamma) || (past == Kasra && present == Kasra)
    case SecondConsonantDoubled => (past == Fatha && (present == Dhamma || present == Kasra)) || past == Kasra
    case Regular => past == Dhamma || past == Fatha || (past == Kasra && present == Fatha)
    case Quadriliteral => false
  }

  /** Sound verbs whose past vowel is u have eight candidate verbal nouns. */
  lemma SoundPastUEightForms(root: VerbRoot, p: Stem1Parameters)
    requires ExtractMiddleRadicalTashkil(p) == Dhamma
    ensures |GenerateAllPossibleVerbalNounsStem1(root, Sound, p)| == 8
  {
  }

  /** A defective "ai" verb with R2 Waw and R3 Ya has two verbal nouns: the
      merged form r1-a-yy and the fi'āya form. */
  lemma DefectiveWawYaTwoForms(root: VerbRoot, p: Stem1Parameters)
    requires Code(p) == "ai" && root.r2() == Waw && root.r3() == Ya
    ensures GenerateAllPossibleVerbalNounsStem1(root, Defective, p)
         == [[V(root.r1(), Fatha), V(Ya, Tashkil.Sukun), End(Ya)],
             [V(root.r1(), Kasra), V(Waw, Fatha), Long(Alef), V(Ya, Fatha), End(TaMarbuta)]]
  {
  }

  /** Every final-weak root may have several verbal nouns. */
  lemma FinalWeakIsMultiple(root: VerbRoot, p: Stem1Parameters)
    requires root.Type() == FinalWeak
    ensures HasPotentiallyMultipleVerbalNounFormsStem1(root, p)
  {
  }

  /** A regular root with past vowel i may have several verbal nouns exactly
      when its present vowel is a. */
  lemma RegularPastIMultiple(root: VerbRoot, p: Stem1Parameters)
    requires root.Type() == Regular && ExtractMiddleRadicalTashkil(p) == Kasra
    ensures HasPotentiallyMultipleVerbalNounFormsStem1(root, p) <==> ExtractPresentMiddleRadicalTashkil(p) == Fatha
  {
  }

  /** Quadriliteral roots never announce several verbal nouns. */
  lemma QuadriliteralNotMultiple(root: VerbRoot, p: Stem1Parameters)
    requires |root.radicals| == 4
    ensures !HasPotentiallyMultipleVerbalNounFormsStem1(root, p)
  {
  }

  /** The parameterizations whose code is that of a defective type: "ai", "au" or "ia". */
  predicate IsDefectiveCode(p: Stem1Parameters)
  {
    p in {DefectiveType1, PastA_PresentI, DefectiveType2, PastA_PresentU, DefectiveType3, PastI_PresentA}
  }

  /** Which stem-1 combinations offer a choice: the verb types one by one. */
  lemma MultipleAssimilated(root: VerbRoot, p: Stem1Parameters)
    ensures var past, present := ExtractMiddleRadicalTashkil(p), ExtractPresentMiddleRadicalTashkil(p);
      |GenerateAllPossibleVerbalNounsStem1(root, Assimilated, p)| >= 2 <==>
        (past == Dhamma && present == Dhamma) || (past == Fatha && (present == Fatha || present == Kasra))
        || (past == Kasra && present == Kasra)
  {
  }

  lemma MultipleAssimilatedAndDefective(root: VerbRoot, p: Stem1Parameters)
    ensures |GenerateAllPossibleVerbalNounsStem1(root, AssimilatedAndDefective, p)| >= 2 <==> Code(p) == Code(DefectiveType1)
  {
  }

  lemma MultipleDefective(root: VerbRoot, p: Stem1Parameters)
    ensures |GenerateAllPossibleVerbalNounsStem1(root, Defective, p)| >= 2 <==> IsDefectiveCode(p)
  {
  }

  lemma MultipleHamzaOnR1(root: VerbRoot, p: Stem1Parameters)
    ensures |GenerateAllPossibleVerbalNounsStem1(root, VerbType.HamzaOnR1, p)| >= 2 <==> ExtractMiddleRadicalTashkil(p) == Dhamma
  {
  }

  lemma MultipleHollow(root: VerbRoot, p: Stem1Parameters)
    ensures |GenerateAllPossibleVerbalNounsStem1(root, Hollow, p)| >= 2 <==> p in {RegularOrHollow_PastU_PresentU, RegularOrHollow_PastI_PresentI}
  {
  }

  lemma MultipleGeminate(root: VerbRoot, p: Stem1Parameters)
    ensures var past, present := ExtractMiddleRadicalTashkil(p), ExtractPresentMiddleRadicalTashkil(p);
      |GenerateAllPossibleVerbalNounsStem1(root, Geminate, p)| >= 2 <==>
        (past == Fatha && (present == Dhamma || present == Kasra)) || past == Kasra
  {
  }

  lemma MultipleSound(root: VerbRoot, p: Stem1Parameters)
    ensures |GenerateAllPossibleVerbalNounsStem1(root, Sound, p)| >= 2 <==>
      p != Quadrilateral && !(ExtractMiddleRadicalTashkil(p) == Kasra && ExtractPresentMiddleRadicalTashkil(p) != Fatha)
  {
  }

  /** The announcement agrees with the table for the verb type the root
      implies: several forms are produced exactly when several are
      announced, except for a final-weak root whose parameterization is not
      one of the defective codes and for an initial-weak root with "ua"
      (past u, present a), which are announced but fall through to the
      placeholder, and for a quadriliteral root, which is never announced
      but is conjugated as a sound verb and so gets the sound table for
      every parameterization but "ss" and "ii". */
  lemma {:induction false} MultipleIffAnnounced(root: VerbRoot, p: Stem1Parameters)
    ensures var forms := GenerateAllPossibleVerbalNounsStem1(root, root.DeriveDeducedVerbConjugationScheme(), p);
      |forms| >= 2 <==>
        (HasPotentiallyMultipleVerbalNounFormsStem1(root, p)
         && !(root.Type() == FinalWeak && !IsDefectiveCode(p))
         && !(root.Type() == InitialWeak && p == Hollow_PastU_PresentA))
        || (root.Type() == Quadriliteral && p !in {Quadrilateral, RegularOrHollow_PastI_PresentI})
  {
    var t := root.Type();
    if t in {DoublyWeak_WawOnR1_WawOrYaOnR3, FinalWeak, RootType.HamzaOnR1, InitialWeak} {
      MultipleIffAnnouncedWeakEnds(root, p);
    } else {
      MultipleIffAnnouncedOthers(root, p);
    }
  }

  /** `MultipleIffAnnounced` for roots with a weak first or last radical, or
      a hamza first. */
  lemma MultipleIffAnnouncedWeakEnds(root: VerbRoot, p: Stem1Parameters)
    requires root.Type() in {DoublyWeak_WawOnR1_WawOrYaOnR3, FinalWeak, RootType.HamzaOnR1, InitialWeak}
    ensures var forms := GenerateAllPossibleVerbalNounsStem1(root, root.DeriveDeducedVerbConjugationScheme(), p);
      |forms| >= 2 <==>
        HasPotentiallyMultipleVerbalNounFormsStem1(root, p)
        && !(root.Type() == FinalWeak && !IsDefectiveCode(p))
        && !(root.Type() == InitialWeak && p == Hollow_PastU_PresentA)
  {
    var v := root.DeriveDeducedVerbConjugationScheme();
    match root.Type()
    case DoublyWeak_WawOnR1_WawOrYaOnR3 =>
      assert v == AssimilatedAndDefective;
      MultipleAssimilatedAndDefective(root, p);
    case FinalWeak =>
      assert v == Defective;
      MultipleDefective(root, p);
    case HamzaOnR1 =>
      assert v == VerbType.HamzaOnR1;
      MultipleHamzaOnR1(root, p);
    case InitialWeak =>
      assert v == Assimilated;
      MultipleAssimilated(root, p);
  }

  /** `MultipleIffAnnounced` for hollow, geminate, regular and quadriliteral roots. */
  lemma MultipleIffAnnouncedOthers(root: VerbRoot, p: Stem1Parameters)
    requires root.Type() in {MiddleWeak, SecondConsonantDoubled, Regular, Quadriliteral}
    ensures var forms := GenerateAllPossibleVerbalNounsStem1(root, root.DeriveDeducedVerbConjugationScheme(), p);
      |forms| >= 2 <==>
        HasPotentiallyMultipleVerbalNounFormsStem1(root, p)
        || (root.Type() == Quadriliteral && p !in {Quadrilateral, RegularOrHollow_PastI_PresentI})
  {
    var v := root.DeriveDeducedVerbConjugationScheme();
    match root.Type()
    case MiddleWeak =>
      assert v == Hollow;
      MultipleHollow(root, p);
    case SecondConsonantDoubled =>
      assert v == Geminate;
      MultipleGeminate(root, p);
    case Regular =>
      assert v == Sound;
      MultipleSound(root, p);
    case Quadriliteral =>
      assert v == Sound;
      MultipleSound(root, p);
  }

  // ---------------------------------------------------------------- stem 2

  /** The taf'īl form, with R3 as written. */
  function Tafil(root: VerbRoot): Form
  {
    [V(Ta, Fatha), V(root.r1(), Tashkil.Sukun), V(root.r2(), Kasra), Long(Ya), End(root.r3())]
  }

  /** The verbal nouns of stem 2, by root type. Every form ends with a
      letter marked as the end of the word. */
  function GenerateAllPossibleVerbalNounsStem2(root: VerbRoot): (forms: seq<Form>)
    ensures forall i :: 0 <= i < |forms| ==> |forms[i]| >= 4 && forms[i][|forms[i]| - 1].tashkil == EndOfWordMarker
  {
    var r1, r2, r3, r4 := root.r1(), root.r2(), root.r3(), root.r4();
    match root.Type()
    case DoublyWeak_WawOnR1_WawOrYaOnR3 =>
      [[V(Ta, Fatha), V(r1, Tashkil.Sukun), V(r2, Kasra), V(Ya, Fatha), End(TaMarbuta)]]
    case Quadriliteral =>
      [[V(Ta, Fatha), V(r1, Fatha), V(r2, Tashkil.Sukun), V(r3, Dhamma), End(r4)]]
    case FinalWeak =>
      [[V(r1, Fatha), V(r2, Fatha), Long(Alef), End(Hamza)],
       [V(Ta, Fatha), V(r1, Tashkil.Sukun), V(r2, Kasra), V(Ya, Fatha), End(TaMarbuta)]]
    case HamzaOnR1 => [Tafil(root)]
    case InitialWeak => [Tafil(root)]
    case MiddleWeak => [Tafil(root)]
    case Regular =>
      [Tafil(root),
       [V(Ta, Fatha), V(r1, Tashkil.Sukun), V(r2, Kasra), V(r3, Fatha), End(TaMarbuta)]]
    case SecondConsonantDoubled =>
      [[V(Ta, Fatha), V(r1, Tashkil.Sukun), V(r2, Fatha), Long(Alef), End(r3)],
       Tafil(root)]
  }

  /** Final-weak, regular and doubled roots have two stem-2 verbal nouns,
      all other roots one. */
  lemma Stem2FormCount(root: VerbRoot)
    ensures |GenerateAllPossibleVerbalNounsStem2(root)|
         == if root.Type() in {FinalWeak, Regular, SecondConsonantDoubled} then 2 else 1
  {
  }

  /** The first stem-2 verbal noun of a regular root is taf'īl, the
      radicals in order with sukun on R1, kasra on R2 and a long Ya after R2. */
  lemma Stem2RegularTafil(root: VerbRoot)
    requires root.Type() == Regular
    ensures var f := GenerateAllPossibleVerbalNounsStem2(root)[0];
      |f| == 5 && f[0] == V(Ta, Fatha) && f[3] == Long(Ya)
      && f[1] == V(root.r1(), Tashkil.Sukun) && f[2] == V(root.r2(), Kasra) && f[4] == End(root.r3())
  {
  }

  /** Every stem-2 verbal noun begins with Ta and fatha, but for the first
      form of a final-weak root, which begins with R1. */
  lemma Stem2TaPrefix(root: VerbRoot, i: nat)
    requires i < |GenerateAllPossibleVerbalNounsStem2(root)|
    ensures var f := GenerateAllPossibleVerbalNounsStem2(root)[i];
      if root.Type() == FinalWeak && i == 0 then f[0] == V(root.r1(), Fatha) else f[0] == V(Ta, Fatha)
  {
  }

  // ---------------------------------------------------------------- stem 4

  /** The stem-4 placeholder for a root type without a table entry. */
  const Stem4Placeholder: Form := [V(TodoLetter, Tashkil.Sukun)]

  /** The verbal noun of stem 4 (the if'āl pattern). Every real form opens
      with an Alef or Hamza carrying kasra and closes with a letter marked as
      the end of the word; only a doubly weak root gets the placeholder. */
  function GenerateAllPossibleVerbalNounsStem4(root: VerbRoot): (form: Form)
    ensures form == Stem4Placeholder <==> root.Type() == DoublyWeak_WawOnR1_WawOrYaOnR3
    ensures root.Type() != DoublyWeak_WawOnR1_WawOrYaOnR3 ==>
      |form| >= 5 && form[0].tashkil == Kasra && form[0].letter in {Hamza, Alef}
      && form[|form| - 1].tashkil == EndOfWordMarker
  {
    var r1, r2, r3, r4 := root.r1(), root.r2(), root.r3(), root.r4();
    match root.Type()
    case HamzaOnR1 => [V(Hamza, Kasra), Long(Ya), V(r2, Fatha), Long(Alef), End(r3)]
    case InitialWeak => [V(Hamza, Kasra), Long(Ya), V(r2, Fatha), Long(Alef), End(r3)]
    case FinalWeak => [V(Hamza, Kasra), V(r1, Tashkil.Sukun), V(r2, Fatha), Long(Alef), End(Hamza)]
    case MiddleWeak => [V(Hamza, Kasra), V(r1, Fatha), Long(Alef), V(r3, Fatha), End(TaMarbuta)]
    case Quadriliteral =>
      [V(Alef, Kasra), V(r1, Tashkil.Sukun), V(r2, Kasra), V(r3, Tashkil.Sukun), V(r4, Fatha), Long(Alef), End(Nun)]
    case SecondConsonantDoubled => [V(Hamza, Kasra), V(r1, Tashkil.Sukun), V(r2, Fatha), Long(Alef), End(r3)]
    case Regular => [V(Hamza, Kasra), V(r1, Tashkil.Sukun), V(r2, Fatha), Long(Alef), End(r3)]
    case DoublyWeak_WawOnR1_WawOrYaOnR3 => Stem4Placeholder
  }

  /** Roots with a hamza or a weak letter as R1 lose R1 into a long Ya
      after the opening hamza, and both get the same form. */
  lemma Stem4WeakR1(root: VerbRoot)
    requires root.Type() in {RootType.HamzaOnR1, InitialWeak}
    ensures GenerateAllPossibleVerbalNounsStem4(root)
         == [V(Hamza, Kasra), Long(Ya), V(root.r2(), Fatha), Long(Alef), End(root.r3())]
  {
  }

  /** Regular and doubled roots give the five-letter if'āl form with all
      three radicals. */
  lemma Stem4Ifal(root: VerbRoot)
    requires root.Type() in {Regular, SecondConsonantDoubled}
    ensures var f := GenerateAllPossibleVerbalNounsStem4(root);
      |f| == 5 && f[1].letter == root.r1() && f[2].letter == root.r2() && f[4].letter == root.r3()
      && f[3] == Long(Alef)
  {
  }

  /** A hollow root drops R2 and ends in Ta marbuta. */
  lemma Stem4Hollow(root: VerbRoot)
    requires root.Type() == MiddleWeak
    ensures var f := GenerateAllPossibleVerbalNounsStem4(root);
      |f| == 5 && f[4] == End(TaMarbuta) && f[1].letter == root.r1() && f[3].letter == root.r3()
  {
  }

  /** A quadriliteral root gives a seven-letter form ending in Nun. */
  lemma Stem4Quadriliteral(root: VerbRoot)
    requires |root.radicals| == 4
    ensures var f := GenerateAllPossibleVerbalNounsStem4(root);
      |f| == 7 && f[6] == End(Nun) && [f[1].letter, f[2].letter, f[3].letter, f[4].letter] == root.radicals
  {
  }
}
