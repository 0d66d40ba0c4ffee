/** The dialect-independent driver: the guards on the requested form, the
    assembly of a word from a matched rule, a prefix and a suffix, and the
    final pass that turns vowelled letters into displayed letters, merging a
    consonant with sukun and its repetition into one letter with shadda. */
module Conjugator {
  import opened Wrappers
  import opened Definitions
  import opened Conjugation
  import opened Hamza
  import Vocalization
  import RuleMatcher

  /** `Conjugate` refuses the passive imperative and an imperative outside
      the second person. */
  function CheckConjugationParams(p: ConjugationParams): (r: Result<ConjugationParams>)
    ensures r.Ok? ==> r.value == p
    ensures r.Error? <==> p.tense == Present && p.mood == Imperative && (p.voice == Passive || p.person != Second)
    ensures p.tense == Present && p.mood == Imperative && p.voice == Passive ==> r == Error("imperative and passive does not exist")
  {
    if p.tense == Present && p.mood == Imperative then
      if p.voice == Passive then Error("imperative and passive does not exist")
      else if p.person != Second then Error("imperative does only exist for second person")
      else Ok(p)
    else Ok(p)
  }

  /** The suffix's last part: a bare letter, written as the word's ending, or
      a vowelled element. */
  datatype SuffixFinal = FinalLetter(letter: Letter) | FinalElement(element: ConjugationElement)

  datatype SuffixResult = SuffixResult(final: Option<SuffixFinal>, prefinal: Option<ConjugationElement>, previousVowel: Vowel)

  /** The element built from the `k`-th symbol of a matched rule. */
  function SymbolElement(rule: RuleMatcher.MatchResult, vowels: seq<Vowel>, k: nat): ConjugationElement
    requires k < |rule.symbols| && k < |vowels|
  {
    ConjugationElement(rule.symbols[k], vowels[k], rule.emphasize == Some(k))
  }

  /** `ConstructWord`: the prefix, then one element per rule symbol taking the
      rule's vowels in order followed by the suffix's previous vowel, then the
      suffix's prefinal and final parts. A rule with more symbols than vowels
      would leave a symbol without a vowel; that is an error here. */
  method ConstructWord(rule: RuleMatcher.MatchResult, prefix: seq<ConjugationElement>, suffix: SuffixResult)
    returns (r: Result<ConjugatedWord>)
    ensures r.Ok? <==> |rule.symbols| <= |rule.vowels| + 1
    ensures r.Ok? ==>
      var vowels := rule.vowels + [suffix.previousVowel];
      var tail := (if suffix.prefinal.Some? then [suffix.prefinal.value] else [])
                  + (if suffix.final.Some? && suffix.final.value.FinalElement? then [suffix.final.value.element] else []);
      var e := r.value.elements;
      && |e| == |prefix| + |rule.symbols| + |tail|
      && e[..|prefix|] == prefix
      && (forall k :: 0 <= k < |rule.symbols| ==> e[|prefix| + k] == SymbolElement(rule, vowels, k))
      && e[|prefix| + |rule.symbols|..] == tail
      && r.value.ending == (if suffix.final.Some? && suffix.final.value.FinalLetter?
                            then Some(Ending(suffix.final.value.letter, NoFinalVowel)) else None)
  {
    var vowels := rule.vowels + [suffix.previousVowel];
    if |rule.symbols| > |vowels| {
      return Error("a rule symbol has no vowel");
    }
    var items := prefix;
    var vowelIndex := 0;
    while vowelIndex < |rule.symbols|
      invariant 0 <= vowelIndex <= |rule.symbols|
      invariant |items| == |prefix| + vowelIndex
      invariant items[..|prefix|] == prefix
      invariant forall k :: 0 <= k < vowelIndex ==> items[|prefix| + k] == SymbolElement(rule, vowels, k)
    {
      items := items + [ConjugationElement(rule.symbols[vowelIndex], vowels[vowelIndex], rule.emphasize == Some(vowelIndex))];
      vowelIndex := vowelIndex + 1;
    }
    if suffix.prefinal.Some? {
      items := items + [suffix.prefinal.value];
    }
    if suffix.final.Some? {
      match suffix.final.value {
        case FinalLetter(letter) =>
          return Ok(ConjugatedWord(items, Some(Ending(letter, NoFinalVowel))));
        case FinalElement(element) =>
          items := items + [element];
      }
    }
    return Ok(ConjugatedWord(items, None));
  }

  /** Whether the letter at the head of `vs` merges with the next one: the same
      letter twice, the first with sukun, and not at the start of the word. */
  predicate MergesWithNext(vs: seq<ConjugationVocalized>, atStart: bool)
  {
    |vs| > 1 && vs[0].letter == vs[1].letter && vs[0].tashkil == Tashkil.Sukun && !atStart
  }

  function DisplayTashkilOf(t: Tashkil): (d: Option<DisplayTashkil>)
    ensures d.Some? <==> t.IsDisplay()
    ensures d.Some? ==> d.value == t
  {
    if t.IsDisplay() then var x: DisplayTashkil := t; Some(x) else None
  }

  /** The displayed letters of `vs`; `atStart` says whether `vs` starts the word. */
  function ToDisplay(vs: seq<ConjugationVocalized>, atStart: bool): seq<Vocalization.DisplayVocalized>
    decreases |vs|
  {
    if vs == [] then []
    else if MergesWithNext(vs, atStart) then
      [Vocalization.DisplayVocalized(vs[0].letter, DisplayTashkilOf(vs[1].tashkil), true, vs[0].emphasis || vs[1].emphasis)]
      + ToDisplay(vs[2..], false)
    else
      [Vocalization.DisplayVocalized(vs[0].letter, DisplayTashkilOf(vs[0].tashkil), false, vs[0].emphasis)]
      + ToDisplay(vs[1..], false)
  }

  /** `ToDisplayVocalized`: walks the letters, writing a shadda pair as one
      letter with the second letter's tashkil and skipping the second. */
  method ToDisplayVocalized(vocalized: seq<ConjugationVocalized>) returns (result: seq<Vocalization.DisplayVocalized>)
    ensures result == ToDisplay(vocalized, true)
  {
    result := [];
    var i := 0;
    while i < |vocalized|
      invariant 0 <= i <= |vocalized|
      invariant result + ToDisplay(vocalized[i..], i == 0) == ToDisplay(vocalized, true)
    {
      var v := vocalized[i];
      var shadda := i + 1 < |vocalized| && v.letter == vocalized[i + 1].letter && v.tashkil == Tashkil.Sukun && i > 0;
      var tashkil := if shadda then vocalized[i + 1].tashkil else v.tashkil;
      var emphasis := v.emphasis || (shadda && vocalized[i + 1].emphasis);
      var item := Vocalization.DisplayVocalized(v.letter, DisplayTashkilOf(tashkil), shadda, emphasis);
      ToDisplayAt(vocalized, i, result);
      result := result + [item];
      i := i + if shadda then 2 else 1;
    }
    assert result + [] == result;
  }

  lemma DisplayConcatAssoc(a: seq<Vocalization.DisplayVocalized>, d: Vocalization.DisplayVocalized, b: seq<Vocalization.DisplayVocalized>)
    ensures a + ([d] + b) == (a + [d]) + b
  {
  }

  /** One step of the display pass at position `i`, after `done` has been
      written. */
  lemma ToDisplayAt(vs: seq<ConjugationVocalized>, i: nat, done: seq<Vocalization.DisplayVocalized>)
    requires i < |vs|
    requires done + ToDisplay(vs[i..], i == 0) == ToDisplay(vs, true)
    ensures var m := i + 1 < |vs| && vs[i].letter == vs[i + 1].letter && vs[i].tashkil == Tashkil.Sukun && i > 0;
      var item := Vocalization.DisplayVocalized(vs[i].letter, DisplayTashkilOf(if m then vs[i + 1].tashkil else vs[i].tashkil),
                                                m, vs[i].emphasis || (m && vs[i + 1].emphasis));
      (done + [item]) + ToDisplay(vs[i + (if m then 2 else 1)..], false) == ToDisplay(vs, true)
  {
    var ws := vs[i..];
    assert ws[0] == vs[i];
    assert |ws| > 1 ==> ws[1] == vs[i + 1];
    var m := i + 1 < |vs| && vs[i].letter == vs[i + 1].letter && vs[i].tashkil == Tashkil.Sukun && i > 0;
    assert m == MergesWithNext(ws, i == 0);
    var step := if m then 2 else 1;
    assert ws[step..] == vs[i + step..];
    var rest := ToDisplay(ws[step..], false);
    var item := Vocalization.DisplayVocalized(vs[i].letter, DisplayTashkilOf(if m then vs[i + 1].tashkil else vs[i].tashkil),
                                              m, vs[i].emphasis || (m && vs[i + 1].emphasis));
    assert ToDisplay(ws, i == 0) == [item] + rest;
    DisplayConcatAssoc(done, item, rest);
  }

  /** The letters of the vowelled word. */
  function Letters(vs: seq<ConjugationVocalized>): (ls: seq<Letter>)
    ensures |ls| == |vs|
  {
    if vs == [] then [] else [vs[0].letter] + Letters(vs[1..])
  }

  /** The letters a display shows, a shadda letter counting twice. */
  function Undouble(ds: seq<Vocalization.DisplayVocalized>): seq<Letter>
  {
    if ds == [] then [] else [ds[0].letter] + (if ds[0].shadda then [ds[0].letter] else []) + Undouble(ds[1..])
  }

  /** Writing every shadda letter twice gives back the letters of the vowelled
      word: merging loses no letter and invents none. */
  lemma {:induction false} ToDisplayUndoubles(vs: seq<ConjugationVocalized>, atStart: bool)
    ensures Undouble(ToDisplay(vs, atStart)) == Letters(vs)
    decreases |vs|
  {
    if vs != [] {
      var ds := ToDisplay(vs, atStart);
      if MergesWithNext(vs, atStart) {
        ToDisplayUndoubles(vs[2..], false);
        assert ds[1..] == ToDisplay(vs[2..], false);
        assert Letters(vs) == [vs[0].letter, vs[1].letter] + Letters(vs[2..]) by {
          assert vs[1..][1..] == vs[2..];
        }
      } else {
        ToDisplayUndoubles(vs[1..], false);
        assert ds[1..] == ToDisplay(vs[1..], false);
      }
    }
  }

  function ShaddaCount(ds: seq<Vocalization.DisplayVocalized>): nat
  {
    if ds == [] then 0 else (if ds[0].shadda then 1 else 0) + ShaddaCount(ds[1..])
  }

  /** Each shadda stands for exactly one dropped letter, so the display is
      never longer than the vowelled word. */
  lemma {:induction false} ToDisplayLength(vs: seq<ConjugationVocalized>, atStart: bool)
    ensures |ToDisplay(vs, atStart)| + ShaddaCount(ToDisplay(vs, atStart)) == |vs|
    ensures |ToDisplay(vs, atStart)| <= |vs|
    decreases |vs|
  {
    if vs != [] {
      var ds := ToDisplay(vs, atStart);
      if MergesWithNext(vs, atStart) {
        ToDisplayLength(vs[2..], false);
        assert ds[1..] == ToDisplay(vs[2..], false);
      } else {
        ToDisplayLength(vs[1..], false);
        assert ds[1..] == ToDisplay(vs[1..], false);
      }
    }
  }

  /** The first letter of a word never takes a shadda, and the display of a
      word without a repeated letter under sukun keeps every letter. */
  lemma {:induction false} NoMergeKeepsEveryLetter(vs: seq<ConjugationVocalized>, atStart: bool)
    requires forall i :: 0 <= i < |vs| - 1 ==> !(vs[i].letter == vs[i + 1].letter && vs[i].tashkil == Tashkil.Sukun)
    ensures |ToDisplay(vs, atStart)| == |vs|
    ensures forall i :: 0 <= i < |vs| ==> !ToDisplay(vs, atStart)[i].shadda && ToDisplay(vs, atStart)[i].letter == vs[i].letter
    decreases |vs|
  {
    if vs != [] {
      NoMergeKeepsEveryLetter(vs[1..], false);
      var ds := ToDisplay(vs, atStart);
      assert ds == [ds[0]] + ToDisplay(vs[1..], false);
      forall i | 1 <= i < |vs|
        ensures !ds[i].shadda && ds[i].letter == vs[i].letter
      {
        assert ds[i] == ToDisplay(vs[1..], false)[i - 1];
      }
    }
  }

  lemma StartNeverMerges(vs: seq<ConjugationVocalized>)
    requires vs != []
    ensures !ToDisplay(vs, true)[0].shadda
    ensures ToDisplay(vs, true)[0].letter == vs[0].letter
  {
  }

  /** Emphasis is neither lost nor invented by the merge: some displayed letter
      is emphasized iff some vowelled letter is, and an emphasized displayed
      letter comes from an emphasized vowelled letter of the same consonant. */
  lemma {:induction false} EmphasisKept(vs: seq<ConjugationVocalized>, atStart: bool)
    ensures (exists d :: d in ToDisplay(vs, atStart) && d.emphasis) <==> (exists v :: v in vs && v.emphasis)
    ensures forall d :: d in ToDisplay(vs, atStart) && d.emphasis ==> exists v :: v in vs && v.emphasis && v.letter == d.letter
    decreases |vs|
  {
    if vs != [] {
      var next := if MergesWithNext(vs, atStart) then vs[2..] else vs[1..];
      EmphasisKept(next, false);
      DisplayHead(vs, atStart);
    }
  }

  /** `ToDisplay` writes one item for the head of the list (two letters when
      they merge), then the rest. */
  lemma DisplayHead(vs: seq<ConjugationVocalized>, atStart: bool)
    requires vs != []
    ensures var merges := MergesWithNext(vs, atStart);
      var next := if merges then vs[2..] else vs[1..];
      var ds := ToDisplay(vs, atStart);
      ds == [ds[0]] + ToDisplay(next, false)
      && ds[0].letter == vs[0].letter
      && ds[0].emphasis == (vs[0].emphasis || (merges && vs[1].emphasis))
      && forall v :: v in vs <==> v == vs[0] || (merges && v == vs[1]) || v in next
  {
    if MergesWithNext(vs, atStart) {
      assert vs == [vs[0], vs[1]] + vs[2..];
    } else {
      assert vs == [vs[0]] + vs[1..];
    }
  }

  /** `ExecuteWordTransformationPipeline`: hamza seating, then the display pass. */
  function TransformWord(w: ConjugatedWord, expand: Expansion): (r: Result<seq<Vocalization.DisplayVocalized>>)
    ensures r.Ok? <==> HamzateSpec(w, expand).Ok?
    ensures r.Ok? ==> Undouble(r.value) == Letters(HamzateSpec(w, expand).value)
  {
    var h := HamzateSpec(w, expand);
    if h.Error? then Error(h.message)
    else
      ToDisplayUndoubles(h.value, true);
      Ok(ToDisplay(h.value, true))
  }
}
