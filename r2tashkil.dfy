/** The stem-1 parameterization of a Modern Standard Arabic verb: which
    vowel its middle radical takes in the past and in the present. Each
    parameterization is named by a two-letter code, past vowel then present
    vowel, where `s` stands for sukun (the quadriliteral). */
module MsaStem1 {
  import opened Wrappers
  import opened Definitions

  datatype Stem1Parameters =
    | DefectiveType1
    | DefectiveType2
    | DefectiveType3
    | Hollow_PastU_PresentA
    | PastA_PresentA
    | PastA_PresentI
    | PastA_PresentU
    | PastI_PresentA
    | Quadrilateral
    | RegularOrHollow_PastI_PresentI
    | RegularOrHollow_PastU_PresentU

  /** The code string of each parameterization; several share one. */
  function Code(p: Stem1Parameters): (c: string)
    ensures |c| == 2
  {
    match p
    case DefectiveType1 => "ai"
    case DefectiveType2 => "au"
    case DefectiveType3 => "ia"
    case Hollow_PastU_PresentA => "ua"
    case PastA_PresentA => "aa"
    case PastA_PresentI => "ai"
    case PastA_PresentU => "au"
    case PastI_PresentA => "ia"
    case Quadrilateral => "ss"
    case RegularOrHollow_PastI_PresentI => "ii"
    case RegularOrHollow_PastU_PresentU => "uu"
  }

  /** The tashkil a code letter names. */
  function CodeTashkil(c: char): Tashkil
  {
    if c == 'a' then Fatha else if c == 'i' then Kasra else if c == 'u' then Dhamma else Tashkil.Sukun
  }

  /** The middle radical's vowel in the past: the first letter of the code. */
  function ExtractMiddleRadicalTashkil(p: Stem1Parameters): (t: Tashkil)
    ensures t == CodeTashkil(Code(p)[0])
  {
    match p
    case Hollow_PastU_PresentA | RegularOrHollow_PastU_PresentU => Dhamma
    case DefectiveType1 | DefectiveType2 | PastA_PresentA | PastA_PresentI | PastA_PresentU => Fatha
    case DefectiveType3 | PastI_PresentA | RegularOrHollow_PastI_PresentI => Kasra
    case Quadrilateral => Tashkil.Sukun
  }

  /** The middle radical's vowel in the present: the second letter of the code. */
  function ExtractPresentMiddleRadicalTashkil(p: Stem1Parameters): (t: Tashkil)
    ensures t == CodeTashkil(Code(p)[1])
  {
    match p
    case DefectiveType1 | PastA_PresentI | RegularOrHollow_PastI_PresentI => Kasra
    case DefectiveType2 | PastA_PresentU | RegularOrHollow_PastU_PresentU => Dhamma
    case DefectiveType3 | Hollow_PastU_PresentA | PastA_PresentA | PastI_PresentA => Fatha
    case Quadrilateral => Tashkil.Sukun
  }

  /** Parameterizations that share a code (say DefectiveType1 and PastA_PresentI,
      both "ai") are the same value to both extractors. */
  lemma SameCodeSameTashkil(p: Stem1Parameters, q: Stem1Parameters)
    requires Code(p) == Code(q)
    ensures ExtractMiddleRadicalTashkil(p) == ExtractMiddleRadicalTashkil(q)
    ensures ExtractPresentMiddleRadicalTashkil(p) == ExtractPresentMiddleRadicalTashkil(q)
  {
  }

  /** Both vowels are short vowels, except for the quadriliteral, whose are sukun. */
  lemma ExtractedVowels(p: Stem1Parameters)
    ensures ExtractMiddleRadicalTashkil(p) in {Fatha, Kasra, Dhamma, Tashkil.Sukun}
    ensures ExtractMiddleRadicalTashkil(p) == Tashkil.Sukun <==> p == Quadrilateral
    ensures ExtractPresentMiddleRadicalTashkil(p) == Tashkil.Sukun <==> p == Quadrilateral
  {
  }

  /** The stem-1 parameterizations as the participle and prefix stages see
      them: the listed ones and three irregular verbs (hayiya, laysa, ra'a)
      that have no code. */
  datatype Stem1Parameterization = Listed(p: Stem1Parameters) | IrregularHayiya | IrregularLaysa | IrregularRa2a

  /** The stem number and, for stem 1, its parameterization (ignored for other stems). */
  datatype MsaStemData = MsaStemData(stem: nat, parameters: Stem1Parameterization)

  /** The present vowel of a parameterization, where there is a code for it. */
  function PresentTashkil(p: Stem1Parameterization): (t: Option<Tashkil>)
    ensures t.Some? <==> p.Listed?
    ensures p.Listed? ==> t.value == ExtractPresentMiddleRadicalTashkil(p.p)
  {
    if p.Listed? then Some(ExtractPresentMiddleRadicalTashkil(p.p)) else None
  }
}
