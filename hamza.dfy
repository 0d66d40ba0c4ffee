/** Hamza orthography: choosing the seat (carrier letter) of each hamza from
    the surrounding vowels, and merging hamza pairs into Alef Madda, as the
    word is expanded into vowelled letters. */
module Hamza {
  import opened Wrappers
  import opened Definitions
  import opened Conjugation

  datatype Ending = Ending(consonant: Letter, finalVowel: FinalVowel)

  /** The conversion of one element, its hamza already seated, to vowelled
      letters. The function Hamza.ts calls for it lives in a file that is not
      part of this model, so every operation below takes it as a parameter. */
  type Expansion = ConjugationElement -> Result<seq<ConjugationVocalized>>

  /** A word in the engine's intermediate form: vowelled consonants and an
      optional ending consonant. */
  datatype ConjugatedWord = ConjugatedWord(elements: seq<ConjugationElement>, ending: Option<Ending>)

  predicate IsShortVowel(v: Vowel) { v in {ShortA, ShortI, ShortU} }

  /** The strength of a short vowel in deciding a seat: i over u over a. */
  function Strength(v: Vowel): nat { if v == ShortI then 2 else if v == ShortU then 1 else 0 }

  function HamzaShortVowelPrecedence(t1: Vowel, t2: Vowel): (r: Vowel)
    ensures IsShortVowel(r)
    ensures Strength(r) == if Strength(t1) >= Strength(t2) then Strength(t1) else Strength(t2)
  {
    if t1 == ShortI || t2 == ShortI then ShortI
    else if t1 == ShortU || t2 == ShortU then ShortU
    else ShortA
  }

  /** The precedence does not depend on the order of its arguments. */
  lemma PrecedenceSymmetric(t1: Vowel, t2: Vowel)
    ensures HamzaShortVowelPrecedence(t1, t2) == HamzaShortVowelPrecedence(t2, t1)
  {
  }

  function ToShortVowel(v: Vowel): (r: Vowel)
    ensures r != LongI && r != LongU
    ensures v != LongI && v != LongU ==> r == v
    ensures Strength(r) == (if v == LongI then 2 else if v == LongU then 1 else Strength(v))
  {
    if v == LongI then ShortI else if v == LongU then ShortU else v
  }

  /** The vowel that decides the seat of a non-initial hamza, or `None` when the
      hamza stands alone on the line. */
  function DecidingVowel(followingVowel: Vowel, isFinal: bool, previousVowel: Vowel): (d: Option<Vowel>)
    ensures d.Some? ==> IsShortVowel(d.value)
  {
    if isFinal then
      (if IsShortVowel(previousVowel) then Some(previousVowel) else None)
    else
      var followingShort := ToShortVowel(followingVowel);
      if previousVowel in {DiphtongAj, DiphtongAw, LongA, LongI, LongU} then
        if followingShort == ShortI || followingShort == ShortU then Some(followingShort)
        else if previousVowel == DiphtongAj || previousVowel == LongI then Some(ShortI)
        else None
      else Some(HamzaShortVowelPrecedence(followingShort, previousVowel))
  }

  function SeatOf(d: Option<Vowel>): (seat: Letter)
    requires d.Some? ==> IsShortVowel(d.value)
  {
    if d.None? then Hamza
    else if d.value == ShortA then AlefHamza
    else if d.value == ShortI then YaHamza
    else WawHamza
  }

  /** The letter a hamza is written on. `previousVowel` is absent for a
      word-initial hamza. */
  function DetermineHamzaSeat(hamza: ConjugationElement, isFinal: bool, previousVowel: Option<Vowel>): (seat: Letter)
    ensures seat in {AlefHamza, AlefHamzaBelow, Hamza, YaHamza, WawHamza}
    ensures previousVowel.None? ==> seat in {AlefHamza, AlefHamzaBelow}
    ensures previousVowel.Some? ==> seat != AlefHamzaBelow
  {
    if previousVowel.None? then
      (if ToShortVowel(hamza.followingVowel) == ShortI then AlefHamzaBelow else AlefHamza)
    else SeatOf(DecidingVowel(hamza.followingVowel, isFinal, previousVowel.value))
  }

  /** An initial hamza sits below an Alef exactly when an i-vowel (short or
      long) follows it, and above it otherwise. */
  lemma InitialSeat(hamza: ConjugationElement, isFinal: bool)
    ensures DetermineHamzaSeat(hamza, isFinal, None) == AlefHamzaBelow <==> hamza.followingVowel in {ShortI, LongI}
    ensures DetermineHamzaSeat(hamza, isFinal, None) == AlefHamza <==> hamza.followingVowel !in {ShortI, LongI}
  {
  }

  /** A final hamza after anything but a short vowel stands alone; after a
      short vowel it sits on that vowel's letter. */
  lemma FinalSeat(hamza: ConjugationElement, previousVowel: Vowel)
    ensures !IsShortVowel(previousVowel) ==> DetermineHamzaSeat(hamza, true, Some(previousVowel)) == Hamza
    ensures previousVowel == ShortA ==> DetermineHamzaSeat(hamza, true, Some(previousVowel)) == AlefHamza
    ensures previousVowel == ShortI ==> DetermineHamzaSeat(hamza, true, Some(previousVowel)) == YaHamza
    ensures previousVowel == ShortU ==> DetermineHamzaSeat(hamza, true, Some(previousVowel)) == WawHamza
  {
  }

  /** A medial hamza between short vowels (or sukun) takes the seat of the
      stronger vowel: Ya for i, Waw for u, Alef for a. */
  lemma MedialSeatBetweenShortVowels(hamza: ConjugationElement, previousVowel: Vowel)
    requires previousVowel in {ShortA, ShortI, ShortU, Vowel.Sukun}
    requires hamza.followingVowel in {ShortA, ShortI, ShortU, Vowel.Sukun}
    ensures var seat := DetermineHamzaSeat(hamza, false, Some(previousVowel));
      (seat == YaHamza <==> ShortI in {previousVowel, hamza.followingVowel})
      && (seat == WawHamza <==> ShortI !in {previousVowel, hamza.followingVowel} && ShortU in {previousVowel, hamza.followingVowel})
      && (seat == AlefHamza <==> ShortI !in {previousVowel, hamza.followingVowel} && ShortU !in {previousVowel, hamza.followingVowel})
  {
  }

  /** A medial hamza after a long vowel or diphthong: a following i or u
      decides the seat; otherwise it sits on Ya after aj or a long i, and
      stands alone after a long a, a long u or aw. */
  lemma MedialSeatAfterLong(hamza: ConjugationElement, previousVowel: Vowel)
    requires previousVowel in {DiphtongAj, DiphtongAw, LongA, LongI, LongU}
    ensures var f := ToShortVowel(hamza.followingVowel);
      DetermineHamzaSeat(hamza, false, Some(previousVowel))
        == if f == ShortI then YaHamza
           else if f == ShortU then WawHamza
           else if previousVowel in {DiphtongAj, LongI} then YaHamza
           else Hamza
  {
  }

  function FinalVowelToTashkil(f: FinalVowel): (r: Result<Tashkil>)
    ensures r.Ok? <==> f in {Plain(Vowel.Sukun), FinalVowel.Kasratan, NoFinalVowel}
  {
    match f
    case Plain(v) => if v == Vowel.Sukun then Ok(Tashkil.Sukun) else Error("TODO: FinalVowelToTashkil")
    case Kasratan => Ok(Tashkil.Kasratan)
    case NoFinalVowel => Ok(EndOfWordMarker)
    case AlefMaksuraWithFathatan => Error("TODO: FinalVowelToTashkil")
  }

  /** `result.pop()`: drops the last item, if any. */
  function Pop<T>(s: seq<T>): seq<T> { if s == [] then s else s[..|s| - 1] }

  predicate MergesWithPrevious(w: ConjugatedWord, i: nat)
    requires i < |w.elements|
  {
    i > 0 && w.elements[i].consonant == Hamza && w.elements[i - 1].consonant == Hamza
    && w.elements[i].followingVowel == Vowel.Sukun && w.elements[i - 1].followingVowel == ShortA
  }

  function SeatAt(w: ConjugatedWord, i: nat): Letter
    requires i < |w.elements|
  {
    var isFinal := w.ending.None? && i == |w.elements| - 1;
    DetermineHamzaSeat(w.elements[i], isFinal, if i == 0 then None else Some(w.elements[i - 1].followingVowel))
  }

  /** The letters produced after handling element `i`, given those before it. */
  function Step(w: ConjugatedWord, i: nat, acc: seq<ConjugationVocalized>, expand: Expansion): Result<seq<ConjugationVocalized>>
    requires i < |w.elements|
  {
    var current := w.elements[i];
    var seat := SeatAt(w, i);
    if MergesWithPrevious(w, i) then
      Ok(Pop(acc) + [ConjugationVocalized(AlefMadda, LongVowelMarker, current.emphasis)])
    else if current.consonant == Hamza && seat == AlefHamza && current.followingVowel == LongA then
      Ok(acc + [ConjugationVocalized(AlefMadda, LongVowelMarker, current.emphasis)])
    else
      var next := if current.consonant == Hamza then current.(consonant := seat) else current;
      var x := expand(next);
      if x.Error? then Error(x.message) else Ok(acc + x.value)
  }

  /** The letters for the first `n` elements. */
  function HamzateElements(w: ConjugatedWord, n: nat, expand: Expansion): Result<seq<ConjugationVocalized>>
    requires n <= |w.elements|
  {
    if n == 0 then Ok([])
    else
      var acc := HamzateElements(w, n - 1, expand);
      if acc.Error? then acc else Step(w, n - 1, acc.value, expand)
  }

  /** The letters of the ending. */
  function EndingLetters(w: ConjugatedWord): Result<seq<ConjugationVocalized>>
  {
    if w.ending.None? then Ok([])
    else
      var e := w.ending.value;
      if e.finalVowel == AlefMaksuraWithFathatan then
        Ok([ConjugationVocalized(e.consonant, Fathatan, false), ConjugationVocalized(AlefMaksura, EndOfWordMarker, false)])
      else if e.consonant == Hamza then
        if w.elements == [] then Error("the final hamza has no preceding element")
        else
          var seat := DetermineHamzaSeat(ConjugationElement(e.consonant, BrokenA, false), true,
                                         Some(w.elements[|w.elements| - 1].followingVowel));
          var t := FinalVowelToTashkil(e.finalVowel);
          if t.Error? then Error(t.message) else Ok([ConjugationVocalized(seat, t.value, false)])
      else
        var t := FinalVowelToTashkil(e.finalVowel);
        if t.Error? then Error(t.message) else Ok([ConjugationVocalized(e.consonant, t.value, false)])
  }

  function HamzateSpec(w: ConjugatedWord, expand: Expansion): Result<seq<ConjugationVocalized>>
  {
    var body := HamzateElements(w, |w.elements|, expand);
    if body.Error? then body
    else
      var ending := EndingLetters(w);
      if ending.Error? then ending else Ok(body.value + ending.value)
  }

  /** `Hamzate`: expands the word element by element, seating every hamza,
      merging hamza pairs into Alef Madda, then writes the ending. */
  method Hamzate(w: ConjugatedWord, expand: Expansion) returns (r: Result<seq<ConjugationVocalized>>)
    ensures r == HamzateSpec(w, expand)
  {
    var result: seq<ConjugationVocalized> := [];
    var i := 0;
    while i < |w.elements|
      invariant 0 <= i <= |w.elements|
      invariant HamzateElements(w, i, expand) == Ok(result)
    {
      var current := w.elements[i];
      var prevIsHamza := i > 0 && w.elements[i - 1].consonant == Hamza;
      var currentIsHamza := current.consonant == Hamza;
      var isFinal := w.ending.None? && i == |w.elements| - 1;
      var seat := DetermineHamzaSeat(current, isFinal, if i == 0 then None else Some(w.elements[i - 1].followingVowel));
      if currentIsHamza && prevIsHamza && current.followingVowel == Vowel.Sukun && w.elements[i - 1].followingVowel == ShortA {
        if result != [] {
          result := result[..|result| - 1];
        }
        result := result + [ConjugationVocalized(AlefMadda, LongVowelMarker, current.emphasis)];
      } else if currentIsHamza && seat == AlefHamza && current.followingVowel == LongA {
        result := result + [ConjugationVocalized(AlefMadda, LongVowelMarker, current.emphasis)];
      } else {
        var next := if current.consonant == Hamza then current.(consonant := seat) else current;
        var x := expand(next);
        if x.Error? {
          HamzateErrorPropagates(w, i + 1, expand);
          return Error(x.message);
        }
        result := result + x.value;
      }
      i := i + 1;
    }
    var ending := EndingLetters(w);
    if ending.Error? {
      return Error(ending.message);
    }
    return Ok(result + ending.value);
  }

  lemma {:induction false} HamzateErrorPropagates(w: ConjugatedWord, k: nat, expand: Expansion)
    requires k <= |w.elements| && HamzateElements(w, k, expand).Error?
    ensures HamzateElements(w, |w.elements|, expand) == HamzateElements(w, k, expand)
    decreases |w.elements| - k
  {
    if k < |w.elements| {
      HamzateErrorPropagates(w, k + 1, expand);
    }
  }

  /** The expansion of a list of elements, failing at the first element that
      cannot be expanded. */
  function ExpandAll(items: seq<ConjugationElement>, expand: Expansion): Result<seq<ConjugationVocalized>>
  {
    if items == [] then Ok([])
    else
      var front := ExpandAll(items[..|items| - 1], expand);
      if front.Error? then front
      else
        var last := expand(items[|items| - 1]);
        if last.Error? then Error(last.message) else Ok(front.value + last.value)
  }

  /** With the engine's own per-element switch as the expansion, `ExpandAll`
      is the engine's expansion of a list of elements. */
  lemma {:induction false} EngineExpandAll(items: seq<ConjugationElement>)
    ensures ExpandAll(items, ExpandElement) == ExpandElements(items)
  {
    if items != [] {
      EngineExpandAll(items[..|items| - 1]);
    }
  }

  /** Without any hamza, every element is expanded unchanged and in order. */
  lemma {:induction false} NoHamzaIsPlainExpansion(w: ConjugatedWord, n: nat, expand: Expansion)
    requires n <= |w.elements|
    requires forall i :: 0 <= i < |w.elements| ==> w.elements[i].consonant != Hamza
    ensures HamzateElements(w, n, expand) == ExpandAll(w.elements[..n], expand)
  {
    if n > 0 {
      NoHamzaIsPlainExpansion(w, n - 1, expand);
      assert w.elements[..n][..n - 1] == w.elements[..n - 1];
    }
  }

  /** An expansion that writes a consonant followed by a short a as one
      letter, as the engine's own does. */
  ghost predicate OneLetterForShortA(expand: Expansion)
  {
    forall e: ConjugationElement :: e.followingVowel == ShortA ==> expand(e).Ok? && |expand(e).value| == 1
  }

  lemma EngineOneLetterForShortA()
    ensures OneLetterForShortA(ExpandElement)
  {
  }

  /** A hamza with sukun after a hamza with fatha: the pop removes the last
      letter written, and one Alef Madda carrying a long vowel takes its
      place. */
  lemma {:induction false} HamzaPairPops(w: ConjugatedWord, i: nat, expand: Expansion)
    requires 0 < i < |w.elements| && MergesWithPrevious(w, i)
    requires HamzateElements(w, i, expand).Ok?
    ensures HamzateElements(w, i + 1, expand)
      == Ok(Pop(HamzateElements(w, i, expand).value) + [ConjugationVocalized(AlefMadda, LongVowelMarker, w.elements[i].emphasis)])
  {
  }

  /** When the fatha hamza was written as one letter, the pair becomes one
      Alef Madda carrying a long vowel. */
  lemma {:induction false} HamzaPairBecomesMadda(w: ConjugatedWord, i: nat, expand: Expansion)
    requires OneLetterForShortA(expand)
    requires 0 < i < |w.elements| && MergesWithPrevious(w, i)
    requires HamzateElements(w, i - 1, expand).Ok?
    ensures HamzateElements(w, i + 1, expand)
      == Ok(HamzateElements(w, i - 1, expand).value + [ConjugationVocalized(AlefMadda, LongVowelMarker, w.elements[i].emphasis)])
  {
  }

  /** A hamza seated on Alef and followed by a long a is written Alef Madda. */
  lemma SeatedLongABecomesMadda(w: ConjugatedWord, i: nat, expand: Expansion)
    requires i < |w.elements| && !MergesWithPrevious(w, i)
    requires w.elements[i].consonant == Hamza && w.elements[i].followingVowel == LongA
    requires SeatAt(w, i) == AlefHamza
    requires HamzateElements(w, i, expand).Ok?
    ensures HamzateElements(w, i + 1, expand)
      == Ok(HamzateElements(w, i, expand).value + [ConjugationVocalized(AlefMadda, LongVowelMarker, w.elements[i].emphasis)])
  {
  }
}
