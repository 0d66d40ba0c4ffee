/** Geminate Modern Standard Arabic verbs (R2 and R3 the same letter): the
    second radical loses its vowel so that it merges with the third. */
module MsaDoubled {
  import opened Wrappers
  import opened Definitions
  import opened MsaStem1
  import opened AugmentedRoots

  /** The tashkil updates `GeminateDoubledConsonant` makes, in order, given
      the tashkil R3 carries at that point. */
  function GeminateEdits(r3Tashkil: Option<Tashkil>, stem: nat, p: Stem1Parameters, params: ConjugationParams): seq<RootEdit>
  {
    if stem == 1 then
      if params.tense == Perfect && r3Tashkil != Some(Tashkil.Sukun) then [SetTashkil(R2, Some(Tashkil.Sukun))]
      else if params.tense == Present then
        [SetTashkil(R1, Some(if params.voice == Active then ExtractPresentMiddleRadicalTashkil(p) else Fatha)),
         SetTashkil(R2, Some(Tashkil.Sukun))]
      else []
    else if stem == 7 then
      [SetTashkil(R1, Some(if params.tense == Perfect then (if params.voice == Active then Fatha else Kasra) else Fatha)),
       SetTashkil(R2, Some(Tashkil.Sukun))]
    else []
  }

  /** Silences R2 of a geminate root in stems 1 and 7 and sets the vowel of
      R1 where the merged form needs one. The stem-1 perfect reads R3,
      which must be there. */
  method GeminateDoubledConsonant(root: AugmentedRoot, stem: nat, p: Stem1Parameters, params: ConjugationParams)
    requires stem == 1 && params.tense == Perfect ==> Find(root.symbols, R3).Some?
    modifies root
    ensures var r3 := if stem == 1 && params.tense == Perfect then Find(old(root.symbols), R3).value.tashkil else None;
      root.symbols == ApplyEdits(old(root.symbols), GeminateEdits(r3, stem, p, params))
      && root.edits == old(root.edits) + GeminateEdits(r3, stem, p, params)
  {
    if stem == 1 {
      if params.tense == Perfect && Find(root.symbols, R3).value.tashkil != Some(Tashkil.Sukun) {
        ghost var before := root.symbols;
        root.ApplyRadicalTashkil(2, Some(Tashkil.Sukun));
        ApplyEditsSnoc(before, [], SetTashkil(R2, Some(Tashkil.Sukun)));
      } else if params.tense == Present {
        ApplyTwo(root, Some(if params.voice == Active then ExtractPresentMiddleRadicalTashkil(p) else Fatha), Some(Tashkil.Sukun));
      }
    } else if stem == 7 {
      ApplyTwo(root, Some(if params.tense == Perfect then (if params.voice == Active then Fatha else Kasra) else Fatha), Some(Tashkil.Sukun));
    }
  }

  /** In the stem-1 perfect, R2 is silenced exactly when R3 does not already
      carry a sukun, and nothing else changes. */
  lemma Stem1PerfectGeminates(r3Tashkil: Option<Tashkil>, p: Stem1Parameters, params: ConjugationParams)
    requires params.tense == Perfect
    ensures GeminateEdits(r3Tashkil, 1, p, params)
         == if r3Tashkil != Some(Tashkil.Sukun) then [SetTashkil(R2, Some(Tashkil.Sukun))] else []
  {
  }

  /** In stems 1 (present) and 7, R1 takes the vowel R2 gave up: the
      present vowel of the stem-1 parameterization in the active, else
      Fatha; in the stem-7 perfect, Fatha (active) or Kasra (passive). */
  lemma R1Vowel(r3Tashkil: Option<Tashkil>, stem: nat, p: Stem1Parameters, params: ConjugationParams)
    requires (stem == 1 && params.tense == Present) || stem == 7
    ensures var e := GeminateEdits(r3Tashkil, stem, p, params);
      |e| == 2 && e[0].SetTashkil? && e[0].name == R1 && e[1] == SetTashkil(R2, Some(Tashkil.Sukun))
      && (stem == 1 && params.voice == Active ==> e[0].tashkil == Some(CodeTashkil(Code(p)[1])))
      && (stem == 1 && params.voice == Passive ==> e[0].tashkil == Some(Fatha))
      && (stem == 7 && params.tense == Perfect ==> e[0].tashkil == Some(if params.voice == Active then Fatha else Kasra))
      && (stem == 7 && params.tense == Present ==> e[0].tashkil == Some(Fatha))
  {
  }

  /** Stems other than 1 and 7 are left as they are. */
  lemma OtherStemsUnchanged(r3Tashkil: Option<Tashkil>, stem: nat, p: Stem1Parameters, params: ConjugationParams, symbols: seq<RootSymbol>)
    requires stem != 1 && stem != 7
    ensures ApplyEdits(symbols, GeminateEdits(r3Tashkil, stem, p, params)) == symbols
  {
  }

  /** Whenever the stage changes anything, every R2 ends up silent, so that
      it merges with R3; symbols other than R1 and R2 are never touched. */
  lemma GeminatedR2Silent(r3Tashkil: Option<Tashkil>, stem: nat, p: Stem1Parameters, params: ConjugationParams, symbols: seq<RootSymbol>)
    ensures var r := ApplyEdits(symbols, GeminateEdits(r3Tashkil, stem, p, params));
      |r| == |symbols|
      && forall i :: 0 <= i < |r| ==>
        r[i].symbolName == symbols[i].symbolName && r[i].letter == symbols[i].letter
        && (GeminateEdits(r3Tashkil, stem, p, params) != [] && symbols[i].symbolName == R2 ==> r[i].tashkil == Some(Tashkil.Sukun))
        && (symbols[i].symbolName !in {R1, R2} ==> r[i] == symbols[i])
  {
    var e := GeminateEdits(r3Tashkil, stem, p, params);
    ApplyEditsFrame(symbols, e);
    if |e| == 1 {
      ApplyEditsSnoc(symbols, [], e[0]);
      assert e == [] + [e[0]];
      TouchedNamesOne(e[0]);
    } else if |e| == 2 {
      ApplyEditsSnoc(symbols, [], e[0]);
      ApplyEditsSnoc(symbols, [e[0]], e[1]);
      assert e == [e[0]] + [e[1]];
      TouchedNamesOne(e[0]);
      TouchedNamesOne(e[1]);
      TouchedNamesAppend([e[0]], [e[1]]);
    }
  }
}
