/** Hollow Modern Standard Arabic verbs (a weak middle radical): the middle
    radical is lengthened into a long vowel, or shortened and assimilated,
    depending on the form. */
module MsaHollow {
  import opened Wrappers
  import opened Definitions
  import opened MsaStem1
  import opened AugmentedRoots

  /** Whether the present suffix of the form starts with a vowel: second
      person feminine singular, every dual, and masculine plurals other than
      the first person. */
  predicate DoesPresentSuffixStartWithVowel(params: ConjugationParams)
    ensures params.person == First ==> (DoesPresentSuffixStartWithVowel(params) <==> params.numerus == Dual)
    ensures params.person == Second ==> (DoesPresentSuffixStartWithVowel(params)
      <==> !(params.numerus == Singular && params.gender == Male) && !(params.numerus == Plural && params.gender == Female))
    ensures params.person == Third ==> (DoesPresentSuffixStartWithVowel(params)
      <==> params.numerus == Dual || (params.numerus == Plural && params.gender == Male))
  {
    if params.numerus == Singular && params.person == Second && params.gender == Female then true
    else if params.numerus == Dual then true
    else if params.numerus == Plural && params.person != First && params.gender == Male then true
    else
      assert params.person == Second ==>
        (params.numerus == Singular && params.gender == Male) || (params.numerus == Plural && params.gender == Female);
      false
  }

  /** The third-person perfect forms that keep the long vowel: all but the
      feminine plural. */
  predicate LongPerfect(params: ConjugationParams)
  {
    params.person == Third && !(params.numerus == Plural && params.gender == Female)
  }

  /** Whether a present form shortens the middle radical: in the jussive and
      the imperative when the suffix does not start with a vowel, in the
      other moods for the feminine plural. */
  predicate ShortenVowel(params: ConjugationParams)
  {
    if params.mood == Jussive || params.mood == Imperative then !DoesPresentSuffixStartWithVowel(params)
    else params.numerus == Plural && params.gender == Female
  }

  /** The edits `ShortenOrAlefizeR2` makes, in order, for a root whose middle
      radical is `r2`. */
  function HollowEdits(r2: Letter, stem: nat, p: Stem1Parameters, params: ConjugationParams): seq<RootEdit>
  {
    if stem == 1 then Stem1HollowEdits(r2, p, params)
    else if stem in {4, 8, 10} then DerivedHollowEdits(stem, params)
    else []
  }

  /** Stem 1: the vowel of a shortened R2 is Dhamma for a Waw and Kasra
      otherwise. */
  function Stem1HollowEdits(r2: Letter, p: Stem1Parameters, params: ConjugationParams): seq<RootEdit>
  {
    var vowelTashkil := if r2 == Waw then Dhamma else Kasra;
    if params.tense == Perfect then Stem1PerfectEdits(vowelTashkil, p, params)
    else Stem1PresentEdits(vowelTashkil, p, params)
  }

  function Stem1PerfectEdits(vowelTashkil: Tashkil, p: Stem1Parameters, params: ConjugationParams): seq<RootEdit>
  {
    if LongPerfect(params) then [InsertLongVowel(2, if params.voice == Active then Alef else Ya)]
    else
      var tashkil := if ExtractPresentMiddleRadicalTashkil(p) == Fatha then ExtractMiddleRadicalTashkil(p) else vowelTashkil;
      [SetTashkil(R2, Some(if params.voice == Active then tashkil else Kasra)), AssimilateRadical(2)]
  }

  function Stem1PresentEdits(vowelTashkil: Tashkil, p: Stem1Parameters, params: ConjugationParams): seq<RootEdit>
  {
    [SetTashkil(R2, Some(LongVowelMarker))] + Stem1PresentMiddle(p, params)
    + [SetTashkil(R1, Some(if params.voice == Active then vowelTashkil else Fatha))]
  }

  /** Stem 1 present, between the two tashkil updates: R2 is assimilated,
      replaced by a long Alef, or left. */
  function Stem1PresentMiddle(p: Stem1Parameters, params: ConjugationParams): seq<RootEdit>
  {
    if ShortenVowel(params) then [AssimilateRadical(2)]
    else if params.voice == Passive || ExtractPresentMiddleRadicalTashkil(p) == Fatha then [ReplaceRadical(2, Alef, LongVowelMarker)]
    else []
  }

  /** Stems 4, 8 and 10. */
  function DerivedHollowEdits(stem: nat, params: ConjugationParams): seq<RootEdit>
  {
    if params.tense == Perfect then
      if LongPerfect(params) then [InsertLongVowel(2, if params.voice == Active then Alef else Ya)]
      else [InsertShortVowel(2, if params.voice == Active then Fatha else Kasra)]
    else if ShortenVowel(params) then
      [AssimilateRadical(2)] + (if stem == 8 then [SetTashkil(Infix, Some(Fatha))] else [])
    else
      [InsertLongVowel(2, if stem == 8 || params.voice == Passive then Alef else Ya)]
  }

  /** Performs `e` on `root` and extends the record of what was done. */
  method Step(root: AugmentedRoot, e: RootEdit, ghost before: seq<RootSymbol>, ghost edits0: seq<RootEdit>, ghost done: seq<RootEdit>)
    returns (ghost done': seq<RootEdit>)
    requires root.symbols == ApplyEdits(before, done) && root.edits == edits0 + done
    modifies root
    ensures done' == done + [e]
    ensures root.symbols == ApplyEdits(before, done') && root.edits == edits0 + done'
  {
    root.Perform(e);
    ApplyEditsSnoc(before, done, e);
    done' := done + [e];
  }

  /** Lengthens or shortens the middle radical of a hollow root in stems 1,
      4, 8 and 10; stem 1 reads the letter of R2, which must be there. */
  method ShortenOrAlefizeR2(root: AugmentedRoot, stem: nat, p: Stem1Parameters, params: ConjugationParams)
    requires stem == 1 ==> Find(root.symbols, R2).Some?
    modifies root
    ensures var r2 := if stem == 1 then Find(old(root.symbols), R2).value.letter else Alef;
      root.symbols == ApplyEdits(old(root.symbols), HollowEdits(r2, stem, p, params))
      && root.edits == old(root.edits) + HollowEdits(r2, stem, p, params)
  {
    if stem == 1 {
      ShortenOrAlefizeStem1(root, p, params);
    } else if stem == 4 || stem == 8 || stem == 10 {
      ShortenOrAlefizeDerived(root, stem, params);
    }
  }

  method ShortenOrAlefizeStem1(root: AugmentedRoot, p: Stem1Parameters, params: ConjugationParams)
    requires Find(root.symbols, R2).Some?
    modifies root
    ensures var r2 := Find(old(root.symbols), R2).value.letter;
      root.symbols == ApplyEdits(old(root.symbols), Stem1HollowEdits(r2, p, params))
      && root.edits == old(root.edits) + Stem1HollowEdits(r2, p, params)
  {
    var vowelTashkil := if Find(root.symbols, R2).value.letter == Waw then Dhamma else Kasra;
    if params.tense == Perfect {
      ShortenOrAlefizeStem1Perfect(root, vowelTashkil, p, params);
    } else {
      ShortenOrAlefizeStem1Present(root, vowelTashkil, p, params);
    }
  }

  method ShortenOrAlefizeStem1Perfect(root: AugmentedRoot, vowelTashkil: Tashkil, p: Stem1Parameters, params: ConjugationParams)
    modifies root
    ensures root.symbols == ApplyEdits(old(root.symbols), Stem1PerfectEdits(vowelTashkil, p, params))
    ensures root.edits == old(root.edits) + Stem1PerfectEdits(vowelTashkil, p, params)
  {
    ghost var before := root.symbols;
    ghost var edits0 := root.edits;
    ghost var done: seq<RootEdit> := [];
    if params.person == Third && !(params.numerus == Plural && params.gender == Female) {
      if params.voice == Active {
        done := Step(root, InsertLongVowel(2, Alef), before, edits0, done);
      } else {
        done := Step(root, InsertLongVowel(2, Ya), before, edits0, done);
      }
    } else {
      var tashkil := if ExtractPresentMiddleRadicalTashkil(p) == Fatha then ExtractMiddleRadicalTashkil(p) else vowelTashkil;
      done := Step(root, SetTashkil(R2, Some(if params.voice == Active then tashkil else Kasra)), before, edits0, done);
      done := Step(root, AssimilateRadical(2), before, edits0, done);
    }
    assert done == Stem1PerfectEdits(vowelTashkil, p, params);
  }

  method ShortenOrAlefizeStem1Present(root: AugmentedRoot, vowelTashkil: Tashkil, p: Stem1Parameters, params: ConjugationParams)
    modifies root
    ensures root.symbols == ApplyEdits(old(root.symbols), Stem1PresentEdits(vowelTashkil, p, params))
    ensures root.edits == old(root.edits) + Stem1PresentEdits(vowelTashkil, p, params)
  {
    ghost var before := root.symbols;
    ghost var edits0 := root.edits;
    ghost var done: seq<RootEdit> := [];
    done := Step(root, SetTashkil(R2, Some(LongVowelMarker)), before, edits0, done);
    done := Stem1PresentMiddleStep(root, p, params, before, edits0, done);
    done := Step(root, SetTashkil(R1, Some(if params.voice == Active then vowelTashkil else Fatha)), before, edits0, done);
    assert done == Stem1PresentEdits(vowelTashkil, p, params);
  }

  /** The middle of the stem-1 present rewrite: assimilate R2, replace it by
      a long Alef, or leave it. */
  method Stem1PresentMiddleStep(root: AugmentedRoot, p: Stem1Parameters, params: ConjugationParams,
                                ghost before: seq<RootSymbol>, ghost edits0: seq<RootEdit>, ghost done: seq<RootEdit>)
    returns (ghost done': seq<RootEdit>)
    requires root.symbols == ApplyEdits(before, done) && root.edits == edits0 + done
    modifies root
    ensures done' == done + Stem1PresentMiddle(p, params)
    ensures root.symbols == ApplyEdits(before, done') && root.edits == edits0 + done'
  {
    var shortenVowel := params.numerus == Plural && params.gender == Female;
    if params.mood == Jussive || params.mood == Imperative {
      shortenVowel := !DoesPresentSuffixStartWithVowel(params);
    }
    done' := done;
    if shortenVowel {
      done' := Step(root, AssimilateRadical(2), before, edits0, done');
    } else if params.voice == Passive || ExtractPresentMiddleRadicalTashkil(p) == Fatha {
      done' := Step(root, ReplaceRadical(2, Alef, LongVowelMarker), before, edits0, done');
    }
  }

  method ShortenOrAlefizeDerived(root: AugmentedRoot, stem: nat, params: ConjugationParams)
    requires stem in {4, 8, 10}
    modifies root
    ensures root.symbols == ApplyEdits(old(root.symbols), DerivedHollowEdits(stem, params))
    ensures root.edits == old(root.edits) + DerivedHollowEdits(stem, params)
  {
    ghost var before := root.symbols;
    ghost var edits0 := root.edits;
    ghost var done: seq<RootEdit> := [];
    if params.tense == Perfect {
      if params.person == Third && !(params.numerus == Plural && params.gender == Female) {
        done := Step(root, InsertLongVowel(2, if params.voice == Active then Alef else Ya), before, edits0, done);
      } else {
        done := Step(root, InsertShortVowel(2, if params.voice == Active then Fatha else Kasra), before, edits0, done);
      }
    } else {
      var shortenVowel := params.numerus == Plural && params.gender == Female;
      if params.mood == Jussive || params.mood == Imperative {
        shortenVowel := !DoesPresentSuffixStartWithVowel(params);
      }
      if shortenVowel {
        done := Step(root, AssimilateRadical(2), before, edits0, done);
        if stem == 8 {
          done := Step(root, SetTashkil(Infix, Some(Fatha)), before, edits0, done);
        }
      } else {
        var alefCondition := stem == 8 || params.voice == Passive;
        done := Step(root, InsertLongVowel(2, if alefCondition then Alef else Ya), before, edits0, done);
      }
    }
    assert done == DerivedHollowEdits(stem, params);
  }

  /** In the imperative the middle radical is shortened exactly for the
      masculine singular and the feminine plural, whose suffixes do not start
      with a vowel. */
  lemma ImperativeShortens(r2: Letter, stem: nat, p: Stem1Parameters, params: ConjugationParams)
    requires stem in {1, 4, 8, 10} && params.tense == Present && params.mood == Imperative && params.person == Second
    ensures AssimilateRadical(2) in HollowEdits(r2, stem, p, params)
        <==> (params.numerus == Singular && params.gender == Male) || (params.numerus == Plural && params.gender == Female)
  {
    var e := HollowEdits(r2, stem, p, params);
    if stem == 1 {
      if !ShortenVowel(params) {
        assert forall i :: 0 <= i < |e| ==> e[i] != AssimilateRadical(2);
      }
    }
  }

  /** Stem-1 perfect forms of the third person other than the feminine
      plural only insert a long Alef (active) or Ya (passive) after R2. */
  lemma Stem1PerfectLong(r2: Letter, p: Stem1Parameters, params: ConjugationParams)
    requires params.tense == Perfect && params.person == Third && !(params.numerus == Plural && params.gender == Female)
    ensures HollowEdits(r2, 1, p, params) == [InsertLongVowel(2, if params.voice == Active then Alef else Ya)]
  {
  }

  /** The other stem-1 perfect forms give R2 a short vowel and assimilate it:
      Kasra in the passive; in the active the past vowel of a verb whose
      present vowel is Fatha, else Dhamma for a Waw and Kasra for a Ya. */
  lemma Stem1PerfectShort(r2: Letter, p: Stem1Parameters, params: ConjugationParams)
    requires params.tense == Perfect && !LongPerfect(params)
    ensures var e := HollowEdits(r2, 1, p, params);
      |e| == 2 && e[1] == AssimilateRadical(2) && e[0].SetTashkil? && e[0].name == R2
      && (params.voice == Passive ==> e[0].tashkil == Some(Kasra))
      && (params.voice == Active && ExtractPresentMiddleRadicalTashkil(p) == Fatha ==> e[0].tashkil == Some(ExtractMiddleRadicalTashkil(p)))
      && (params.voice == Active && ExtractPresentMiddleRadicalTashkil(p) != Fatha ==> e[0].tashkil == Some(if r2 == Waw then Dhamma else Kasra))
  {
  }

  /** In the present, the middle radical of stems 1, 4, 8 and 10 is
      assimilated exactly when the form shortens it: in the jussive and
      imperative when the suffix starts with no vowel, in the indicative
      and subjunctive for the feminine plural. */
  lemma PresentShortensIff(r2: Letter, stem: nat, p: Stem1Parameters, params: ConjugationParams)
    requires stem in {1, 4, 8, 10} && params.tense == Present
    ensures AssimilateRadical(2) in HollowEdits(r2, stem, p, params)
        <==> (if params.mood == Jussive || params.mood == Imperative then !DoesPresentSuffixStartWithVowel(params)
              else params.numerus == Plural && params.gender == Female)
  {
    var e := HollowEdits(r2, stem, p, params);
    if stem == 1 && !ShortenVowel(params) {
      assert forall i :: 0 <= i < |e| ==> e[i] != AssimilateRadical(2);
    }
  }

  /** A present form of stems 4, 8 and 10 that keeps the long vowel inserts
      Alef in stem 8 and in the passive, Ya otherwise. */
  lemma DerivedPresentLong(r2: Letter, stem: nat, p: Stem1Parameters, params: ConjugationParams)
    requires stem in {4, 8, 10} && params.tense == Present && !ShortenVowel(params)
    ensures HollowEdits(r2, stem, p, params) == [InsertLongVowel(2, if stem == 8 || params.voice == Passive then Alef else Ya)]
  {
  }

  /** Stems other than 1, 4, 8 and 10 are left as they are. */
  lemma OtherStemsUnchanged(r2: Letter, stem: nat, p: Stem1Parameters, params: ConjugationParams, symbols: seq<RootSymbol>)
    requires stem !in {1, 4, 8, 10}
    ensures ApplyEdits(symbols, HollowEdits(r2, stem, p, params)) == symbols
  {
  }

  /** Only R1, R2 and, in stem 8, the infix Ta get a new tashkil. */
  lemma {:induction false} HollowTouches(r2: Letter, stem: nat, p: Stem1Parameters, params: ConjugationParams)
    ensures TouchedNames(HollowEdits(r2, stem, p, params)) <= {R1, R2, Infix}
    ensures Infix in TouchedNames(HollowEdits(r2, stem, p, params)) ==> stem == 8
  {
    var e := HollowEdits(r2, stem, p, params);
    if stem == 1 && params.tense == Present {
      var first := [SetTashkil(R2, Some(LongVowelMarker))];
      var mid := Stem1PresentMiddle(p, params);
      var last := [SetTashkil(R1, Some(if params.voice == Active then (if r2 == Waw then Dhamma else Kasra) else Fatha))];
      TouchedNamesAppend(first + mid, last);
      TouchedNamesAppend(first, mid);
      TouchedNamesOne(first[0]);
      TouchedNamesOne(last[0]);
      if mid != [] { TouchedNamesOne(mid[0]); assert mid == [mid[0]]; }
    } else if stem == 1 || stem in {4, 8, 10} {
      TouchedNamesOne(e[0]);
      if |e| == 2 {
        TouchedNamesAppend([e[0]], [e[1]]);
        TouchedNamesOne(e[1]);
        assert e == [e[0]] + [e[1]];
      } else {
        assert e == [e[0]];
      }
    }
  }
}
