/** The engine's intermediate word form (consonants each followed by a vowel)
    and its expansion into letters carrying tashkil. */
module Conjugation {
  import opened Wrappers
  import opened Definitions
  import Util

  /** A consonant with the vowel that follows it. */
  datatype ConjugationElement = ConjugationElement(consonant: Letter, followingVowel: Vowel, emphasis: bool)

  /** A letter with its (possibly internal) tashkil. */
  datatype ConjugationVocalized = ConjugationVocalized(letter: Letter, tashkil: Tashkil, emphasis: bool)

  /** An unemphasized letter with its tashkil, followed by a long vowel, or ending the word. */
  function V(l: Letter, t: Tashkil): ConjugationVocalized { ConjugationVocalized(l, t, false) }
  function Long(l: Letter): ConjugationVocalized { V(l, LongVowelMarker) }
  function End(l: Letter): ConjugationVocalized { V(l, EndOfWordMarker) }

  predicate IsBasicVowel(v: Vowel) { v in {ShortA, ShortI, ShortU, Vowel.Sukun} }
  predicate IsBasicTashkil(t: Tashkil) { t in {Fatha, Kasra, Dhamma, Tashkil.Sukun} }

  /** Vowels written with two letters: a short vowel and a vowel letter. */
  predicate IsTwoLetterVowel(v: Vowel) { v in {BrokenA, DiphtongAj, LongA, LongI, LongU} }

  function VowelToTashkil(v: Vowel): (r: Result<Tashkil>)
    ensures r.Ok? <==> IsBasicVowel(v)
    ensures r.Ok? ==> IsBasicTashkil(r.value)
  {
    match v
    case ShortA => Ok(Fatha)
    case ShortI => Ok(Kasra)
    case ShortU => Ok(Dhamma)
    case Sukun => Ok(Tashkil.Sukun)
    case _ => Error("_TODO_VowelToTashkil")
  }

  function TashkilToVowel(t: Tashkil): (r: Result<Vowel>)
    ensures r.Ok? <==> IsBasicTashkil(t)
    ensures r.Ok? ==> IsBasicVowel(r.value)
  {
    match t
    case Dhamma => Ok(ShortU)
    case Fatha => Ok(ShortA)
    case Kasra => Ok(ShortI)
    case Sukun => Ok(Vowel.Sukun)
    case _ => Error("_TODO_TashkilToVowel")
  }

  /** The two conversions are inverse bijections between the four short vowels
      (with sukun) and the four basic tashkil. */
  lemma VowelTashkilInverse()
    ensures forall v :: IsBasicVowel(v) ==> TashkilToVowel(VowelToTashkil(v).value) == Ok(v)
    ensures forall t :: IsBasicTashkil(t) ==> VowelToTashkil(TashkilToVowel(t).value) == Ok(t)
  {
  }

  /** One element as letters: a two-letter vowel gives the consonant with its
      short vowel and then the vowel letter; any other vowel gives the
      consonant alone, keeping its emphasis. */
  function ExpandElement(e: ConjugationElement): (r: Result<seq<ConjugationVocalized>>)
    ensures r.Ok? <==> e.followingVowel != DiphtongAw
    ensures r.Ok? ==> |r.value| == (if IsTwoLetterVowel(e.followingVowel) then 2 else 1)
    ensures r.Ok? ==> r.value[0].letter == e.consonant
    ensures r.Ok? && !IsTwoLetterVowel(e.followingVowel) ==>
      r.value[0].emphasis == e.emphasis && TashkilToVowel(r.value[0].tashkil) == Ok(e.followingVowel)
  {
    var c := e.consonant;
    var v := e.followingVowel;
    if v == BrokenA then Ok([ConjugationVocalized(c, Fatha, false), ConjugationVocalized(AlefMaksura, AlefMaksuraMarker, false)])
    else if v == DiphtongAj then Ok([ConjugationVocalized(c, Fatha, false), ConjugationVocalized(Ya, Tashkil.Sukun, false)])
    else if v == LongA then Ok([ConjugationVocalized(c, Fatha, false), ConjugationVocalized(Alef, LongVowelMarker, false)])
    else if v == LongI then Ok([ConjugationVocalized(c, Kasra, false), ConjugationVocalized(Ya, LongVowelMarker, false)])
    else if v == LongU then Ok([ConjugationVocalized(c, Dhamma, false), ConjugationVocalized(Waw, LongVowelMarker, false)])
    else
      var t := VowelToTashkil(v);
      if t.Error? then Error(t.message) else Ok([ConjugationVocalized(c, t.value, e.emphasis)])
  }

  /** The long vowel letter that `v` is written with. */
  function LongVowelLetter(v: Vowel): Letter
    requires v in {LongA, LongI, LongU}
  {
    match v
    case LongA => Alef
    case LongI => Ya
    case LongU => Waw
  }

  /** A long vowel is written as its vowel letter marked long, after the short
      vowel that this letter calls for. */
  lemma LongVowelSpelling(e: ConjugationElement)
    requires e.followingVowel in {LongA, LongI, LongU}
    ensures var l := LongVowelLetter(e.followingVowel);
      ExpandElement(e) == Ok([ConjugationVocalized(e.consonant, Util.VowelLetterToPreTashkil(l), false),
                              ConjugationVocalized(l, LongVowelMarker, false)])
  {
  }

  /** The expansion of a list of elements, failing at the first element that
      cannot be expanded. */
  function ExpandElements(items: seq<ConjugationElement>): Result<seq<ConjugationVocalized>>
  {
    if items == [] then Ok([])
    else
      var front := ExpandElements(items[..|items| - 1]);
      if front.Error? then front
      else
        var last := ExpandElement(items[|items| - 1]);
        if last.Error? then last else Ok(front.value + last.value)
  }

  /** The expansion of a whole word; the final letter, if any, closes it. */
  function ExpandWord(items: seq<ConjugationElement>, final: Option<Letter>): Result<seq<ConjugationVocalized>>
  {
    var r := ExpandElements(items);
    if r.Error? || final.None? then r
    else Ok(r.value + [ConjugationVocalized(final.value, EndOfWordMarker, false)])
  }

  /** How many letters an expansion has. */
  function OutputLength(items: seq<ConjugationElement>): nat
  {
    if items == [] then 0
    else OutputLength(items[..|items| - 1]) + (if IsTwoLetterVowel(items[|items| - 1].followingVowel) then 2 else 1)
  }

  lemma {:induction false} ExpandElementsLength(items: seq<ConjugationElement>)
    ensures ExpandElements(items).Ok? <==> forall i :: 0 <= i < |items| ==> items[i].followingVowel != DiphtongAw
    ensures ExpandElements(items).Ok? ==> |ExpandElements(items).value| == OutputLength(items)
  {
    if items != [] {
      var front := items[..|items| - 1];
      ExpandElementsLength(front);
      assert forall i :: 0 <= i < |front| ==> front[i] == items[i];
    }
  }

  /** The expansion is made of the elements' expansions, in order: element `k`'s
      letters start at the output length of the elements before it. */
  lemma {:induction false} ExpandElementsAt(items: seq<ConjugationElement>, k: nat)
    requires k < |items|
    requires ExpandElements(items).Ok?
    ensures ExpandElement(items[k]).Ok?
    ensures var out := ExpandElements(items).value; var x := ExpandElement(items[k]).value;
      OutputLength(items[..k]) + |x| <= |out| && out[OutputLength(items[..k])..OutputLength(items[..k]) + |x|] == x
  {
    var front := items[..|items| - 1];
    ExpandElementsLength(front);
    var fv := ExpandElements(front).value;
    var last := ExpandElement(items[|items| - 1]).value;
    assert ExpandElements(items).value == fv + last;
    if k == |items| - 1 {
      assert items[..k] == front;
      SliceOfConcatRight(fv, last);
    } else {
      assert front[..k] == items[..k];
      ExpandElementsAt(front, k);
      var from := OutputLength(items[..k]);
      var x := ExpandElement(items[k]).value;
      SliceOfConcatLeft(fv, last, from, from + |x|);
    }
  }

  lemma SliceOfConcatLeft(a: seq<ConjugationVocalized>, b: seq<ConjugationVocalized>, i: nat, j: nat)
    requires i <= j <= |a|
    ensures (a + b)[i..j] == a[i..j]
  {
  }

  lemma SliceOfConcatRight(a: seq<ConjugationVocalized>, b: seq<ConjugationVocalized>)
    ensures (a + b)[|a|..|a| + |b|] == b
  {
  }

  /** Once a prefix fails, the whole list fails with the same message. */
  lemma {:induction false} ExpandErrorPropagates(items: seq<ConjugationElement>, k: nat)
    requires k <= |items|
    requires ExpandElements(items[..k]).Error?
    ensures ExpandElements(items) == ExpandElements(items[..k])
    decreases |items| - k
  {
    if k < |items| {
      assert items[..k + 1][..k] == items[..k];
      ExpandErrorPropagates(items, k + 1);
    } else {
      assert items[..k] == items;
    }
  }

  /** `_TODO_ToConjugationVocalized`: walks the elements, pushing each one's
      letters, then the final letter with the end-of-word marker. */
  method ToConjugationVocalized(items: seq<ConjugationElement>, final: Option<Letter>)
    returns (r: Result<seq<ConjugationVocalized>>)
    ensures r == ExpandWord(items, final)
  {
    var result: seq<ConjugationVocalized> := [];
    var i := 0;
    while i < |items|
      invariant 0 <= i <= |items|
      invariant ExpandElements(items[..i]) == Ok(result)
    {
      assert items[..i + 1][..i] == items[..i];
      var e := items[i];
      ghost var before := result;
      var v := e.followingVowel;
      if v == BrokenA {
        result := result + [ConjugationVocalized(e.consonant, Fatha, false)];
        result := result + [ConjugationVocalized(AlefMaksura, AlefMaksuraMarker, false)];
      } else if v == DiphtongAj {
        result := result + [ConjugationVocalized(e.consonant, Fatha, false)];
        result := result + [ConjugationVocalized(Ya, Tashkil.Sukun, false)];
      } else if v == LongA {
        result := result + [ConjugationVocalized(e.consonant, Fatha, false)];
        result := result + [ConjugationVocalized(Alef, LongVowelMarker, false)];
      } else if v == LongI {
        result := result + [ConjugationVocalized(e.consonant, Kasra, false)];
        result := result + [ConjugationVocalized(Ya, LongVowelMarker, false)];
      } else if v == LongU {
        result := result + [ConjugationVocalized(e.consonant, Dhamma, false)];
        result := result + [ConjugationVocalized(Waw, LongVowelMarker, false)];
      } else {
        var t := VowelToTashkil(v);
        if t.Error? {
          assert ExpandElements(items[..i + 1]).Error?;
          ExpandErrorPropagates(items, i + 1);
          return Error(t.message);
        }
        result := result + [ConjugationVocalized(e.consonant, t.value, e.emphasis)];
      }
      assert result == before + ExpandElement(e).value;
      i := i + 1;
    }
    assert items[..i] == items;
    if final.Some? {
      result := result + [ConjugationVocalized(final.value, EndOfWordMarker, false)];
    }
    return Ok(result);
  }

  /** Two-letter vowels add one letter each, every other element exactly one;
      the final letter comes last, with the end-of-word marker. */
  lemma ExpandWordShape(items: seq<ConjugationElement>, final: Option<Letter>)
    requires ExpandWord(items, final).Ok?
    ensures |ExpandWord(items, final).value| == OutputLength(items) + (if final.Some? then 1 else 0)
    ensures final.Some? ==>
      (ExpandWord(items, final).value[OutputLength(items)] == ConjugationVocalized(final.value, EndOfWordMarker, false))
  {
    ExpandElementsLength(items);
  }
}
