/** Letters, diacritics (tashkil), vowels and the grammatical categories that
    every stage of the conjugation engine shares. Letters are Unicode code
    points of the Arabic block. */
module Definitions {
  type Letter = char

  // Hamza and its seats
  const Hamza: Letter := '\U{0621}'
  const AlefMadda: Letter := '\U{0622}'
  const AlefHamza: Letter := '\U{0623}'
  const WawHamza: Letter := '\U{0624}'
  const AlefHamzaBelow: Letter := '\U{0625}'
  const YaHamza: Letter := '\U{0626}'
  // the alphabet
  const Alef: Letter := '\U{0627}'
  const Ba: Letter := '\U{0628}'
  const TaMarbuta: Letter := '\U{0629}'
  const Ta: Letter := '\U{062A}'
  const Tha: Letter := '\U{062B}'
  const Jiim: Letter := '\U{062C}'
  const Hha: Letter := '\U{062D}'
  const Kha: Letter := '\U{062E}'
  const Dal: Letter := '\U{062F}'
  const Thal: Letter := '\U{0630}'
  const Ra: Letter := '\U{0631}'
  const Zay: Letter := '\U{0632}'
  const Siin: Letter := '\U{0633}'
  const Shiin: Letter := '\U{0634}'
  const Saad: Letter := '\U{0635}'
  const Daad: Letter := '\U{0636}'
  const Tta: Letter := '\U{0637}'
  const Ththa: Letter := '\U{0638}'
  const A3ein: Letter := '\U{0639}'
  const Ghain: Letter := '\U{063A}'
  const Fa: Letter := '\U{0641}'
  const Qaf: Letter := '\U{0642}'
  const Kaf: Letter := '\U{0643}'
  const Lam: Letter := '\U{0644}'
  const Mim: Letter := '\U{0645}'
  const Nun: Letter := '\U{0646}'
  const Ha: Letter := '\U{0647}'
  const Waw: Letter := '\U{0648}'
  const AlefMaksura: Letter := '\U{0649}'
  const Ya: Letter := '\U{064A}'

  /** The elongation stroke, which carries no sound. */
  const Tatwiil: char := '\U{0640}'
  /** Diacritic characters as they appear in vowelled text. */
  const FathatanChar: char := '\U{064B}'
  const DhammatanChar: char := '\U{064C}'
  const KasratanChar: char := '\U{064D}'
  const FathaChar: char := '\U{064E}'
  const DhammaChar: char := '\U{064F}'
  const KasraChar: char := '\U{0650}'
  const ShaddaChar: char := '\U{0651}'
  const SukunChar: char := '\U{0652}'
  const DaggerAlefChar: char := '\U{0670}'

  /** What reading past the end of a string yields (JavaScript's `undefined`,
      or the empty string of `charAt`). It is no letter of the alphabet. */
  const NoLetter: char := '\0'

  /** Stands for the engine's placeholder letter "TODO" of the lookup tables,
      which is not a single character. */
  const TodoLetter: Letter := '\U{FFFD}'

  /** The tashkil of a letter. The first seven are written diacritics; the
      three markers are internal and are never displayed. */
  datatype Tashkil =
    | Dhamma | Dhammatan | Fatha | Fathatan | Kasra | Kasratan | Sukun
    | LongVowelMarker | EndOfWordMarker | AlefMaksuraMarker
  {
    predicate IsDisplay() { !(LongVowelMarker? || EndOfWordMarker? || AlefMaksuraMarker?) }
  }

  /** Tashkil that can be written on a displayed letter. */
  type DisplayTashkil = t: Tashkil | t.IsDisplay() witness Fatha

  function TashkilChar(t: DisplayTashkil): (c: char)
    ensures c != ShaddaChar && c != DaggerAlefChar && c != Tatwiil
  {
    match t
    case Dhamma => DhammaChar
    case Dhammatan => DhammatanChar
    case Fatha => FathaChar
    case Fathatan => FathatanChar
    case Kasra => KasraChar
    case Kasratan => KasratanChar
    case Sukun => SukunChar
  }

  /** Vowels following a consonant in the engine's intermediate word form. */
  datatype Vowel =
    | BrokenA | DiphtongAj | DiphtongAw | LongA | LongI | LongU
    | ShortA | ShortI | ShortU | Sukun

  /** How a word's ending consonant is vowelled; `NoFinalVowel` is the engine's `FinalVowel.None`. */
  datatype FinalVowel = NoFinalVowel | Kasratan | AlefMaksuraWithFathatan | Plain(vowel: Vowel)

  /** The conjugation scheme of a verb (the engine's `VerbType`, also called
      `VerbConjugationScheme`). */
  datatype VerbType =
    | Assimilated | AssimilatedAndDefective | Defective | Geminate | HamzaOnR1 | Hollow
    | Irregular | QuadriliteralAndDefective | Sound | SoundQuadriliteral

  datatype Tense = Perfect | Present
  datatype Voice = Active | Passive
  datatype Mood = Indicative | Subjunctive | Jussive | Imperative
  datatype Person = First | Second | Third
  datatype Numerus = Singular | Dual | Plural
  datatype Gender = Male | Female
  datatype Case = Nominative | Accusative | Genitive | Informal
  datatype AdjectiveOrNounState = Definite | Indefinite | Construct

  /** The parameters of one conjugated form. `mood` only matters in the present. */
  datatype ConjugationParams = ConjugationParams(
    tense: Tense, voice: Voice, mood: Mood, person: Person, numerus: Numerus, gender: Gender)
}
