/** The stem-1 parameterizations of Lebanese Arabic verbs: which vowels a
    first-stem verb takes, named by the past and present vowels. */
module LebaneseStem1 {
  datatype LebaneseStem1Context =
    | IrregularJy2
    | PastA_PresentA
    | PastA_PresentI
    | PastA_PresentU
    | PastA_PresentU_Form2
    | PastI_PresentA
    | PastI_PresentI
    | PastI_PresentU
    | Quadrilateral
    | RegularPastA_PresentIIU
    | RegularPastA_PresentIIUU
    | RegularPastA_PresentUSU
    | RegularPastI_PresentAA
    | DefectiveType1WithPrefixA

  /** The string a rule's `stemParameters` condition compares with. The
      parameterizations without a listed code are named by themselves. */
  function Code(c: LebaneseStem1Context): (s: string)
    ensures |s| >= 2
  {
    match c
    case IrregularJy2 => "irjy2"
    case PastA_PresentA => "PastA_PresentA"
    case PastA_PresentI => "ai"
    case PastA_PresentU => "au"
    case PastA_PresentU_Form2 => "au2"
    case PastI_PresentA => "ia"
    case PastI_PresentI => "ii"
    case PastI_PresentU => "PastI_PresentU"
    case Quadrilateral => "ss"
    case RegularPastA_PresentIIU => "RegularPastA_PresentIIU"
    case RegularPastA_PresentIIUU => "RegularPastA_PresentIIUU"
    case RegularPastA_PresentUSU => "RegularPastA_PresentUSU"
    case RegularPastI_PresentAA => "RegularPastI_PresentAA"
    case DefectiveType1WithPrefixA => "DefectiveType1WithPrefixA"
  }

  /** Distinct parameterizations have distinct codes, so a `stemParameters`
      condition singles out exactly one of them. */
  lemma CodesDistinct(a: LebaneseStem1Context, b: LebaneseStem1Context)
    ensures Code(a) == Code(b) <==> a == b
  {
  }
}
