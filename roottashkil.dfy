/** The vowels of the first radicals of a Modern Standard Arabic verb form,
    by tense, voice and stem, and their application to the augmented root. */
module MsaRootTashkil {
  import opened Wrappers
  import opened Definitions
  import opened VerbRoot
  import opened MsaStem1
  import opened AugmentedRoots

  /** The vowels of R1 and R2 of a triliteral form; R2 has none for a stem
      outside 1 to 10 in the present active. */
  datatype RootTashkil = RootTashkil(r1: Tashkil, r2: Option<Tashkil>)

  /** The vowels of R1, R2 and R3 of a quadriliteral form. */
  datatype QuadRootTashkil = QuadRootTashkil(r1: Tashkil, r2: Tashkil, r3: Tashkil)

  /** The perfect: stems 4, 8, 9 and 10 start with a silent R1. `p` is the
      stem-1 parameterization, read only for stem 1. */
  function DerivePastRootTashkil(stem: nat, p: Stem1Parameters, params: ConjugationParams): (r: RootTashkil)
    ensures r.r2.Some?
    ensures r.r1 == Tashkil.Sukun <==> stem in {4, 8, 9, 10}
    ensures params.voice == Passive ==> r.r2 == Some(Kasra) && (r.r1 == Dhamma || r.r1 == Tashkil.Sukun)
  {
    var r1stem := if stem in {4, 8, 9, 10} then Tashkil.Sukun else if params.voice == Active then Fatha else Dhamma;
    var r2active := if stem == 1 then ExtractMiddleRadicalTashkil(p) else Fatha;
    RootTashkil(r1stem, Some(if params.voice == Active then r2active else Kasra))
  }

  function Derive3RadicalRootTashkil(stem: nat, p: Stem1Parameters, params: ConjugationParams): (r: RootTashkil)
    ensures r.r2.None? <==> params.tense == Present && params.voice == Active && !(1 <= stem <= 10)
    ensures r.r1 in {Tashkil.Sukun, Fatha, Dhamma}
  {
    if params.tense == Perfect then DerivePastRootTashkil(stem, p, params)
    else
      var r1 := if stem in {1, 4, 8, 9, 10} then Tashkil.Sukun else Fatha;
      var r2active :=
        if stem == 1 then Some(ExtractPresentMiddleRadicalTashkil(p))
        else if stem in {2, 3, 4, 7, 8, 9, 10} then Some(Kasra)
        else if stem in {5, 6} then Some(Fatha)
        else None;
      assert params.tense == Present;
      if params.voice == Active then
        assert r2active.None? <==> !(1 <= stem <= 10);
        RootTashkil(r1, r2active)
      else RootTashkil(r1, Some(Fatha))
  }

  function Derive4RadicalRootTashkil(params: ConjugationParams): QuadRootTashkil
  {
    var r3 :=
      if params.voice == Active then (if params.tense == Perfect then Fatha else Kasra)
      else (if params.tense == Perfect then Kasra else Fatha);
    QuadRootTashkil(if params.tense == Perfect && params.voice == Passive then Dhamma else Fatha, Tashkil.Sukun, r3)
  }

  /** In the perfect, R1 is silent exactly in stems 4, 8, 9 and 10, and
      otherwise takes Fatha in the active and Dhamma in the passive. */
  lemma PerfectR1(stem: nat, p: Stem1Parameters, params: ConjugationParams)
    requires params.tense == Perfect
    ensures var r1 := Derive3RadicalRootTashkil(stem, p, params).r1;
      (r1 == Tashkil.Sukun <==> stem in {4, 8, 9, 10})
      && (r1 != Tashkil.Sukun ==> (r1 == Fatha <==> params.voice == Active))
  {
  }

  /** In the perfect, R2 takes Kasra in the passive; in the active, the past
      vowel of the stem-1 parameterization, Fatha for the other stems. */
  lemma PerfectR2(stem: nat, p: Stem1Parameters, params: ConjugationParams)
    requires params.tense == Perfect
    ensures var r2 := Derive3RadicalRootTashkil(stem, p, params).r2;
      r2.Some?
      && (params.voice == Passive ==> r2.value == Kasra)
      && (params.voice == Active && stem == 1 ==> r2.value == CodeTashkil(Code(p)[0]))
      && (params.voice == Active && stem != 1 ==> r2.value == Fatha)
  {
  }

  /** In the present, R1 is silent exactly in stems 1, 4, 8, 9 and 10 and
      takes Fatha otherwise, in either voice. */
  lemma PresentR1(stem: nat, p: Stem1Parameters, params: ConjugationParams)
    requires params.tense == Present
    ensures var r1 := Derive3RadicalRootTashkil(stem, p, params).r1;
      (r1 == Tashkil.Sukun <==> stem in {1, 4, 8, 9, 10}) && (r1 != Tashkil.Sukun ==> r1 == Fatha)
  {
  }

  /** In the present, R2 takes Fatha in the passive; in the active, the
      present vowel of the stem-1 parameterization, Fatha for stems 5 and 6
      and Kasra for the other derived stems. */
  lemma PresentR2(stem: nat, p: Stem1Parameters, params: ConjugationParams)
    requires params.tense == Present && 1 <= stem <= 10
    ensures var r2 := Derive3RadicalRootTashkil(stem, p, params).r2;
      r2.Some?
      && (params.voice == Passive ==> r2.value == Fatha)
      && (params.voice == Active && stem == 1 ==> r2.value == CodeTashkil(Code(p)[1]))
      && (params.voice == Active && stem != 1 ==> (r2.value == Fatha <==> stem in {5, 6}) && (r2.value != Fatha ==> r2.value == Kasra))
  {
  }

  /** A quadriliteral's R2 is always silent, its R1 takes Dhamma only in the
      perfect passive, and its R3 takes Fatha or Kasra, the one the voice
      and the tense agree on being Fatha. */
  lemma QuadriliteralTashkil(params: ConjugationParams)
    ensures var q := Derive4RadicalRootTashkil(params);
      q.r2 == Tashkil.Sukun
      && (q.r1 == Dhamma <==> params.tense == Perfect && params.voice == Passive)
      && (q.r1 != Dhamma ==> q.r1 == Fatha)
      && (q.r3 == Fatha <==> (params.voice == Active <==> params.tense == Perfect))
      && (q.r3 != Fatha ==> q.r3 == Kasra)
  {
  }

  /** The tashkil updates `ApplyRootTashkil` makes, in order. */
  function RootTashkilEdits(t: RootType, stem: nat, p: Stem1Parameters, params: ConjugationParams): seq<RootEdit>
  {
    if t == Quadriliteral then
      var q := Derive4RadicalRootTashkil(params);
      [SetTashkil(R1, Some(q.r1)), SetTashkil(R2, Some(q.r2)), SetTashkil(R3, Some(q.r3))]
    else
      var r := Derive3RadicalRootTashkil(stem, p, params);
      [SetTashkil(R1, Some(r.r1)), SetTashkil(R2, r.r2)]
  }

  /** Sets the vowels of R1 and R2, and of R3 for a quadriliteral. */
  method ApplyRootTashkil(root: AugmentedRoot, stem: nat, p: Stem1Parameters, params: ConjugationParams)
    modifies root
    ensures root.symbols == ApplyEdits(old(root.symbols), RootTashkilEdits(root.rootType, stem, p, params))
    ensures root.edits == old(root.edits) + RootTashkilEdits(root.rootType, stem, p, params)
  {
    if root.rootType == Quadriliteral {
      var tashkil := Derive4RadicalRootTashkil(params);
      ApplyThree(root, Some(tashkil.r1), Some(tashkil.r2), Some(tashkil.r3));
    } else {
      var tashkil := Derive3RadicalRootTashkil(stem, p, params);
      ApplyTwo(root, Some(tashkil.r1), tashkil.r2);
    }
  }

  /** Only the tashkil of R1 and R2, and R3 for a quadriliteral, changes:
      every other symbol, and every name and letter, stays as it was. */
  lemma RootTashkilFrame(symbols: seq<RootSymbol>, t: RootType, stem: nat, p: Stem1Parameters, params: ConjugationParams)
    ensures var r := ApplyEdits(symbols, RootTashkilEdits(t, stem, p, params));
      |r| == |symbols|
      && forall i :: 0 <= i < |r| ==>
        r[i].symbolName == symbols[i].symbolName && r[i].letter == symbols[i].letter
        && (symbols[i].symbolName !in (if t == Quadriliteral then {R1, R2, R3} else {R1, R2}) ==> r[i] == symbols[i])
  {
    var edits := RootTashkilEdits(t, stem, p, params);
    ApplyEditsFrame(symbols, edits);
    assert TouchedNames([edits[0]]) == {edits[0].name} by { assert [edits[0]][1..] == []; }
    assert TouchedNames([edits[1]]) == {edits[1].name} by { assert [edits[1]][1..] == []; }
    if t == Quadriliteral {
      assert TouchedNames([edits[2]]) == {edits[2].name} by { assert [edits[2]][1..] == []; }
      assert edits == [edits[0]] + [edits[1]] + [edits[2]];
      TouchedNamesAppend([edits[0]], [edits[1]]);
      TouchedNamesAppend([edits[0]] + [edits[1]], [edits[2]]);
    } else {
      assert edits == [edits[0]] + [edits[1]];
      TouchedNamesAppend([edits[0]], [edits[1]]);
    }
  }

  /** After the update, every R1 and R2 symbol of a triliteral root carries
      the derived vowel. */
  lemma TriliteralRadicalsVowelled(symbols: seq<RootSymbol>, t: RootType, stem: nat, p: Stem1Parameters, params: ConjugationParams)
    requires t != Quadriliteral
    ensures var r := ApplyEdits(symbols, RootTashkilEdits(t, stem, p, params));
      var d := Derive3RadicalRootTashkil(stem, p, params);
      |r| == |symbols|
      && forall i :: 0 <= i < |r| ==>
        (symbols[i].symbolName == R1 ==> r[i].tashkil == Some(d.r1))
        && (symbols[i].symbolName == R2 ==> r[i].tashkil == d.r2)
  {
    var edits := RootTashkilEdits(t, stem, p, params);
    ApplyEditsSnoc(symbols, [], edits[0]);
    ApplyEditsSnoc(symbols, [edits[0]], edits[1]);
    assert edits == [edits[0]] + [edits[1]];
  }

  /** After the update, every R1, R2 and R3 symbol of a quadriliteral root
      carries the derived vowel. */
  lemma QuadriliteralRadicalsVowelled(symbols: seq<RootSymbol>, stem: nat, p: Stem1Parameters, params: ConjugationParams)
    ensures var r := ApplyEdits(symbols, RootTashkilEdits(Quadriliteral, stem, p, params));
      var q := Derive4RadicalRootTashkil(params);
      |r| == |symbols|
      && forall i :: 0 <= i < |r| ==>
        (symbols[i].symbolName == R1 ==> r[i].tashkil == Some(q.r1))
        && (symbols[i].symbolName == R2 ==> r[i].tashkil == Some(q.r2))
        && (symbols[i].symbolName == R3 ==> r[i].tashkil == Some(q.r3))
  {
    var edits := RootTashkilEdits(Quadriliteral, stem, p, params);
    ApplyEditsSnoc(symbols, [], edits[0]);
    ApplyEditsSnoc(symbols, [edits[0]], edits[1]);
    ApplyEditsSnoc(symbols, [edits[0], edits[1]], edits[2]);
    assert [edits[0]] + [edits[1]] == [edits[0], edits[1]];
    assert edits == [edits[0], edits[1]] + [edits[2]];
  }
}
