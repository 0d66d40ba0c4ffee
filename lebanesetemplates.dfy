/** Lebanese Arabic first-stem rule tables chosen by the stem
    parameterization: the regular (sound) verb and the defective verb. */
module LebaneseTemplates {
  import opened Wrappers
  import opened Definitions
  import opened VerbRoot
  import opened RuleMatcher
  import opened LebaneseStem1

  /** The parameterizations whose past vowel is i; they share a table. */
  predicate IsPastI(c: LebaneseStem1Context)
  {
    c in {PastI_PresentA, PastI_PresentI, PastI_PresentU, RegularPastI_PresentAA}
  }

  function ImperativeLongVowel(c: LebaneseStem1Context): Vowel
  {
    if c == RegularPastI_PresentAA || c == PastI_PresentU then LongU else LongA
  }

  function ImperativeVowel(c: LebaneseStem1Context): Vowel
  {
    if c == RegularPastI_PresentAA || c == PastI_PresentU then ShortI else ShortA
  }

  function PastIPrefixVowel(c: LebaneseStem1Context): Vowel
  {
    if c == PastI_PresentA || c == PastI_PresentU then ShortI else ShortA
  }

  function R2PresentVowel(c: LebaneseStem1Context): Vowel
  {
    if c == PastI_PresentA then ShortA
    else if c == PastI_PresentU then ShortU
    else ShortI
  }

  /** The present of the past-i verbs before a suffix that starts with a long
      vowel: present u, present i and present a-a lose the vowel of R2. */
  function PastISuffixedPresent(): seq<Rule>
  {
    [Rule(conditions := Conditions(stemParameters := Some(Code(PastI_PresentU))), vowels := Some([Vowel.Sukun, Vowel.Sukun])),
     Rule(conditions := Conditions(stemParameters := Some(Code(PastI_PresentI))), vowels := Some([Vowel.Sukun, Vowel.Sukun])),
     Rule(conditions := Conditions(stemParameters := Some(Code(RegularPastI_PresentAA))), vowels := Some([Vowel.Sukun, Vowel.Sukun]))]
  }

  /** The present of the past-a verbs before a suffix that starts with a long
      vowel, by parameterization. */
  function PastASuffixedPresent(): seq<Rule>
  {
    [Rule(conditions := Conditions(stemParameters := Some(Code(PastA_PresentA))), vowels := Some([Vowel.Sukun, ShortA])),
     Rule(conditions := Conditions(stemParameters := Some(Code(RegularPastA_PresentIIU))), vowels := Some([ShortI, Vowel.Sukun])),
     Rule(conditions := Conditions(stemParameters := Some(Code(RegularPastA_PresentIIUU))), vowels := Some([ShortI, Vowel.Sukun])),
     Rule(vowels := Some([Vowel.Sukun, Vowel.Sukun]))]
  }

  /** The table of the verbs with past vowel i. */
  function RegularStem1PastI(root: VerbRoot, context: LebaneseStem1Context, params: ConjugationParams): seq<Rule>
  {
    [Rule(symbols := Some([root.r1(), root.r2(), root.r3()]), children := [
       Rule(conditions := Conditions(tense := Some(Perfect)), emphasize := Some(if params.person == Third then 0 else 1), children := [
         Rule(conditions := Conditions(gender := Some(Male), numerus := Some(Singular), person := Some(Third)), vowels := Some([ShortI, ShortI])),
         Rule(conditions := Conditions(person := Some(Third)), vowels := Some([ShortI, Vowel.Sukun])),
         Rule(vowels := Some([Vowel.Sukun, ShortI]))]),
       Rule(conditions := Conditions(mood := Some(Imperative), hasPresentVowelSuffix := true), vowels := Some([Vowel.Sukun, ImperativeVowel(context)])),
       Rule(conditions := Conditions(mood := Some(Imperative)), vowels := Some([Vowel.Sukun, ImperativeLongVowel(context)])),
       Rule(conditions := Conditions(tense := Some(Present)), prefixVowel := Some(PastIPrefixVowel(context)),
            vowels := Some([Vowel.Sukun, R2PresentVowel(context)]), children := [
         Rule(conditions := Conditions(hasPresentVowelSuffix := true), children := PastISuffixedPresent())])])]
  }

  function R2ImperativeWithPresentSuffixVowel(c: LebaneseStem1Context): Vowel
  {
    if c == PastA_PresentA then ShortA
    else if c == RegularPastA_PresentUSU || c == RegularPastA_PresentIIUU then ShortU
    else ShortI
  }

  /** The table of the sound first-stem verb. */
  function RegularStem1(root: VerbRoot, context: LebaneseStem1Context, params: ConjugationParams): (r: seq<Rule>)
    ensures |r| == 1 && r[0].conditions == NoConditions && r[0].symbols == Some([root.r1(), root.r2(), root.r3()])
    ensures |r[0].children| == (if IsPastI(context) then 4 else 5)
  {
    if IsPastI(context) then RegularStem1PastI(root, context, params)
    else
      var presentPrefixVowel := if context == RegularPastA_PresentUSU then ShortU else ShortI;
      var presentA := context == PastA_PresentA;
      [Rule(symbols := Some([root.r1(), root.r2(), root.r3()]), children := [
         Rule(conditions := Conditions(tense := Some(Perfect)), emphasize := Some(if params.person == Third then 0 else 1),
              vowels := Some([ShortA, ShortA])),
         Rule(conditions := Conditions(mood := Some(Imperative), hasPresentVowelSuffix := true),
              vowels := Some([Vowel.Sukun, R2ImperativeWithPresentSuffixVowel(context)])),
         Rule(conditions := Conditions(mood := Some(Imperative)), vowels := Some([Vowel.Sukun, if presentA then LongA else LongU])),
         Rule(conditions := Conditions(tense := Some(Present), hasPresentVowelSuffix := true), prefixVowel := Some(presentPrefixVowel),
              children := PastASuffixedPresent()),
         Rule(conditions := Conditions(tense := Some(Present)), prefixVowel := Some(presentPrefixVowel),
              vowels := Some([Vowel.Sukun, if presentA then ShortA else ShortU]))])]
  }

  /** The defective verbs of type 1 conjugate their perfect on R1 and R2. */
  predicate IsDefectiveType1(c: LebaneseStem1Context)
  {
    c == PastA_PresentA || c == PastA_PresentI || c == DefectiveType1WithPrefixA
  }

  /** The table of the defective first-stem verb. */
  function DefectiveStem1(root: VerbRoot, context: LebaneseStem1Context, params: ConjugationParams): (r: seq<Rule>)
    ensures forall i :: 0 <= i < |r| ==>
      r[i].children == [] && r[i].symbols.Some? && r[i].vowels.Some?
      && 2 <= |r[i].symbols.value| <= 3 && r[i].symbols.value[..2] == [root.r1(), root.r2()]
    ensures forall i :: 0 <= i < |r| && |r[i].symbols.value| == 3 ==>
      r[i].conditions.tense == Some(Perfect) && r[i].conditions.person == Some(Third)
  {
    if IsDefectiveType1(context) && params.tense == Perfect then
      [Rule(conditions := Conditions(person := Some(Third)), symbols := Some([root.r1(), root.r2()]), vowels := Some([ShortA])),
       Rule(symbols := Some([root.r1(), root.r2()]), vowels := Some([ShortA, DiphtongAj]))]
    else
      var prefixVowel := if context == DefectiveType1WithPrefixA then ShortA else ShortI;
      var r2impVowel := if context == PastA_PresentA then BrokenA else LongI;
      [Rule(conditions := Conditions(tense := Some(Perfect), person := Some(Third), numerus := Some(Singular), gender := Some(Male)),
            symbols := Some([root.r1(), root.r2()]), vowels := Some([ShortI, LongI])),
       Rule(conditions := Conditions(tense := Some(Perfect), person := Some(Third), numerus := Some(Singular)),
            symbols := Some([root.r1(), root.r2(), root.r3()]), vowels := Some([ShortI, Vowel.Sukun, ShortI])),
       Rule(conditions := Conditions(tense := Some(Perfect), person := Some(Third)),
            symbols := Some([root.r1(), root.r2(), root.r3()]), vowels := Some([ShortI, Vowel.Sukun])),
       Rule(conditions := Conditions(tense := Some(Perfect)),
            symbols := Some([root.r1(), root.r2()]), vowels := Some([Vowel.Sukun, LongI])),
       Rule(conditions := Conditions(mood := Some(Imperative), hasPresentVowelSuffix := true),
            symbols := Some([root.r1(), root.r2()]), vowels := Some([Vowel.Sukun])),
       Rule(conditions := Conditions(mood := Some(Imperative)),
            symbols := Some([root.r1(), root.r2()]), vowels := Some([Vowel.Sukun, r2impVowel])),
       Rule(conditions := Conditions(tense := Some(Present)), prefixVowel := Some(prefixVowel),
            symbols := Some([root.r1(), root.r2()]), vowels := Some([Vowel.Sukun]))]
  }

  /** The past-i parameterizations are delegated to their own table. */
  lemma PastIDelegated(root: VerbRoot, context: LebaneseStem1Context, params: ConjugationParams)
    ensures IsPastI(context) <==> RegularStem1(root, context, params) == RegularStem1PastI(root, context, params)
  {
    if !IsPastI(context) {
      var rules := RegularStem1(root, context, params);
      assert |rules[0].children| != |RegularStem1PastI(root, context, params)[0].children|;
    }
  }

  /** Whatever the form, the letters of the sound first stem are R1 R2 R3. */
  lemma RegularTemplateSymbols(root: VerbRoot, context: LebaneseStem1Context, params: ConjugationParams, ctx: MatchContext, acc: Evaluated)
    ensures MatchRules(RegularStem1(root, context, params), ctx, acc).symbols == Some([root.r1(), root.r2(), root.r3()])
  {
    if IsPastI(context) {
      PastIChildrenKeepSymbols(root, context, params);
    } else {
      PastAChildrenKeepSymbols(root, context, params);
    }
    TopRuleSetsSymbols(RegularStem1(root, context, params), ctx, acc);
  }

  /** Below the top rule of the past-i table no rule sets the letters. */
  lemma PastIChildrenKeepSymbols(root: VerbRoot, context: LebaneseStem1Context, params: ConjugationParams)
    ensures NoRuleSets(RegularStem1PastI(root, context, params)[0].children, SymbolsField)
  {
    var kids := RegularStem1PastI(root, context, params)[0].children;
    assert NoRuleSets(kids[0].children, SymbolsField);
    assert NoRuleSets(kids[3].children[0].children, SymbolsField);
    assert NoRuleSets(kids[3].children, SymbolsField);
  }

  /** Below the top rule of the past-a table no rule sets the letters. */
  lemma PastAChildrenKeepSymbols(root: VerbRoot, context: LebaneseStem1Context, params: ConjugationParams)
    requires !IsPastI(context)
    ensures NoRuleSets(RegularStem1(root, context, params)[0].children, SymbolsField)
  {
    var kids := RegularStem1(root, context, params)[0].children;
    assert NoRuleSets(kids[3].children, SymbolsField);
    assert NoRuleSets(kids[4].children, SymbolsField);
  }

  /** The perfect: the emphasis is on the first item in the third person and
      on the second otherwise; past-a verbs vowel R1 and R2 with a, past-i
      verbs with i-i (third masculine singular), i-sukun (rest of the third
      person) or sukun-i. */
  lemma RegularTemplatePerfect(root: VerbRoot, context: LebaneseStem1Context, params: ConjugationParams, ctx: MatchContext)
    requires ctx.params == params && params.tense == Perfect
    ensures var e := MatchRules(RegularStem1(root, context, params), ctx, NothingEvaluated);
      e.emphasize == Some(if params.person == Third then 0 else 1)
      && e.prefixVowel == None
      && e.vowels == Some(
        if !IsPastI(context) then [ShortA, ShortA]
        else if params.person == Third && params.numerus == Singular && params.gender == Male then [ShortI, ShortI]
        else if params.person == Third then [ShortI, Vowel.Sukun]
        else [Vowel.Sukun, ShortI])
  {
    var rules := RegularStem1(root, context, params);
    var a1 := Override(NothingEvaluated, rules[0]);
    FirstMatchDescends(rules, 0, ctx, NothingEvaluated);
    FirstMatchDescends(rules[0].children, 0, ctx, a1);
    if IsPastI(context) {
      var persons := rules[0].children[0].children;
      var a2 := Override(a1, rules[0].children[0]);
      if params.person == Third && params.numerus == Singular && params.gender == Male {
        FirstMatchIsLeaf(persons, 0, ctx, a2);
      } else if params.person == Third {
        FirstMatchIsLeaf(persons, 1, ctx, a2);
      } else {
        FirstMatchIsLeaf(persons, 2, ctx, a2);
      }
    }
  }

  /** The imperative has no prefix vowel and no emphasis; R1 is silent and
      R2 takes a short vowel before a suffix and a long one otherwise. */
  lemma RegularTemplateImperative(root: VerbRoot, context: LebaneseStem1Context, params: ConjugationParams, ctx: MatchContext)
    requires ctx.params == params && params.tense == Present && params.mood == Imperative
    ensures var e := MatchRules(RegularStem1(root, context, params), ctx, NothingEvaluated);
      e.emphasize == None && e.prefixVowel == None
      && e.vowels == Some([Vowel.Sukun,
        if ctx.presentSuffixStartsWithLongVowel then
          (if IsPastI(context) then ImperativeVowel(context) else R2ImperativeWithPresentSuffixVowel(context))
        else if IsPastI(context) then ImperativeLongVowel(context)
        else if context == PastA_PresentA then LongA else LongU])
  {
    var rules := RegularStem1(root, context, params);
    var a1 := Override(NothingEvaluated, rules[0]);
    FirstMatchDescends(rules, 0, ctx, NothingEvaluated);
    if ctx.presentSuffixStartsWithLongVowel {
      FirstMatchIsLeaf(rules[0].children, 1, ctx, a1);
    } else {
      FirstMatchIsLeaf(rules[0].children, 2, ctx, a1);
    }
  }

  /** The present outside the imperative: the prefix vowel is that of the
      parameterization (u only for the past-a verbs with present u-sukun-u);
      R1 is silent before the present vowel of R2, and a suffix starting
      with a long vowel takes the vowel of R2 away or, for the patterns
      with present i-i-u, moves it to R1. */
  lemma RegularTemplatePresent(root: VerbRoot, context: LebaneseStem1Context, params: ConjugationParams, ctx: MatchContext)
    requires ctx.params == params && params.tense == Present && params.mood != Imperative
    requires ctx.stemData == StemData(1, Code(context))
    ensures var e := MatchRules(RegularStem1(root, context, params), ctx, NothingEvaluated);
      e.emphasize == None
      && e.prefixVowel == Some(
        if IsPastI(context) then PastIPrefixVowel(context)
        else if context == RegularPastA_PresentUSU then ShortU else ShortI)
      && e.vowels == Some(
        if !ctx.presentSuffixStartsWithLongVowel then
          [Vowel.Sukun, if IsPastI(context) then R2PresentVowel(context) else if context == PastA_PresentA then ShortA else ShortU]
        else if context == PastI_PresentA || context == PastA_PresentA then [Vowel.Sukun, ShortA]
        else if context == RegularPastA_PresentIIU || context == RegularPastA_PresentIIUU then [ShortI, Vowel.Sukun]
        else [Vowel.Sukun, Vowel.Sukun])
  {
    if IsPastI(context) {
      PastIPresent(root, context, params, ctx);
    } else {
      PastAPresent(root, context, params, ctx);
    }
  }

  lemma PastIPresent(root: VerbRoot, context: LebaneseStem1Context, params: ConjugationParams, ctx: MatchContext)
    requires ctx.params == params && params.tense == Present && params.mood != Imperative
    requires ctx.stemData == StemData(1, Code(context)) && IsPastI(context)
    ensures var e := MatchRules(RegularStem1(root, context, params), ctx, NothingEvaluated);
      e.emphasize == None
      && e.prefixVowel == Some(PastIPrefixVowel(context))
      && e.vowels == Some(
        if !ctx.presentSuffixStartsWithLongVowel then [Vowel.Sukun, R2PresentVowel(context)]
        else if context == PastI_PresentA then [Vowel.Sukun, ShortA]
        else [Vowel.Sukun, Vowel.Sukun])
  {
    var rules := RegularStem1(root, context, params);
    var kids := rules[0].children;
    var a1 := Override(NothingEvaluated, rules[0]);
    var a2 := Override(a1, kids[3]);
    FirstMatchDescends(rules, 0, ctx, NothingEvaluated);
    FirstMatchDescends(kids, 3, ctx, a1);
    if ctx.presentSuffixStartsWithLongVowel {
      FirstMatchDescends(kids[3].children, 0, ctx, a2);
      PastISuffixed(context, ctx, Override(a2, kids[3].children[0]));
    } else {
      NoMatchKeepsState(kids[3].children, ctx, a2);
    }
  }

  /** Before a long-vowel suffix, the past-i verbs other than present a lose
      the vowel of R2. */
  lemma PastISuffixed(context: LebaneseStem1Context, ctx: MatchContext, acc: Evaluated)
    requires ctx.stemData == StemData(1, Code(context))
    ensures MatchRules(PastISuffixedPresent(), ctx, acc)
      == if context in {PastI_PresentU, PastI_PresentI, RegularPastI_PresentAA} then acc.(vowels := Some([Vowel.Sukun, Vowel.Sukun]))
         else acc
  {
    var byParameter := PastISuffixedPresent();
    CodesDistinct(context, PastI_PresentU);
    CodesDistinct(context, PastI_PresentI);
    CodesDistinct(context, RegularPastI_PresentAA);
    if context == PastI_PresentU {
      FirstMatchIsLeaf(byParameter, 0, ctx, acc);
    } else if context == PastI_PresentI {
      FirstMatchIsLeaf(byParameter, 1, ctx, acc);
    } else if context == RegularPastI_PresentAA {
      FirstMatchIsLeaf(byParameter, 2, ctx, acc);
    } else {
      NoMatchKeepsState(byParameter, ctx, acc);
    }
  }

  lemma PastAPresent(root: VerbRoot, context: LebaneseStem1Context, params: ConjugationParams, ctx: MatchContext)
    requires ctx.params == params && params.tense == Present && params.mood != Imperative
    requires ctx.stemData == StemData(1, Code(context)) && !IsPastI(context)
    ensures var e := MatchRules(RegularStem1(root, context, params), ctx, NothingEvaluated);
      e.emphasize == None
      && e.prefixVowel == Some(if context == RegularPastA_PresentUSU then ShortU else ShortI)
      && e.vowels == Some(
        if !ctx.presentSuffixStartsWithLongVowel then [Vowel.Sukun, if context == PastA_PresentA then ShortA else ShortU]
        else if context == PastA_PresentA then [Vowel.Sukun, ShortA]
        else if context == RegularPastA_PresentIIU || context == RegularPastA_PresentIIUU then [ShortI, Vowel.Sukun]
        else [Vowel.Sukun, Vowel.Sukun])
  {
    var rules := RegularStem1(root, context, params);
    var kids := rules[0].children;
    var a1 := Override(NothingEvaluated, rules[0]);
    FirstMatchDescends(rules, 0, ctx, NothingEvaluated);
    if ctx.presentSuffixStartsWithLongVowel {
      FirstMatchDescends(kids, 3, ctx, a1);
      PastASuffixed(context, ctx, Override(a1, kids[3]));
    } else {
      FirstMatchIsLeaf(kids, 4, ctx, a1);
    }
  }

  /** Before a long-vowel suffix, the past-a verbs keep a on R2 for present a,
      move the vowel to R1 for present i-i-u, and lose it otherwise. */
  lemma PastASuffixed(context: LebaneseStem1Context, ctx: MatchContext, acc: Evaluated)
    requires ctx.stemData == StemData(1, Code(context))
    ensures MatchRules(PastASuffixedPresent(), ctx, acc)
      == acc.(vowels := Some(
        if context == PastA_PresentA then [Vowel.Sukun, ShortA]
        else if context == RegularPastA_PresentIIU || context == RegularPastA_PresentIIUU then [ShortI, Vowel.Sukun]
        else [Vowel.Sukun, Vowel.Sukun]))
  {
    var byParameter := PastASuffixedPresent();
    CodesDistinct(context, PastA_PresentA);
    CodesDistinct(context, RegularPastA_PresentIIU);
    CodesDistinct(context, RegularPastA_PresentIIUU);
    if context == PastA_PresentA {
      FirstMatchIsLeaf(byParameter, 0, ctx, acc);
    } else if context == RegularPastA_PresentIIU {
      FirstMatchIsLeaf(byParameter, 1, ctx, acc);
    } else if context == RegularPastA_PresentIIUU {
      FirstMatchIsLeaf(byParameter, 2, ctx, acc);
    } else {
      FirstMatchIsLeaf(byParameter, 3, ctx, acc);
    }
  }

  /** The perfect of a type-1 defective verb is built on R1 and R2 with a,
      followed by the diphthong aj outside the third person. */
  lemma DefectiveType1Perfect(root: VerbRoot, context: LebaneseStem1Context, params: ConjugationParams, ctx: MatchContext)
    requires ctx.params == params && params.tense == Perfect && IsDefectiveType1(context)
    ensures var rules := DefectiveStem1(root, context, params);
      var e := MatchRules(rules, ctx, NothingEvaluated);
      |rules| == 2
      && e == Evaluated(None, None, Some([root.r1(), root.r2()]),
                        Some(if params.person == Third then [ShortA] else [ShortA, DiphtongAj]))
  {
    var rules := DefectiveStem1(root, context, params);
    if params.person == Third {
      FirstMatchIsLeaf(rules, 0, ctx, NothingEvaluated);
    } else {
      FirstMatchIsLeaf(rules, 1, ctx, NothingEvaluated);
    }
  }

  /** The perfect of the other defective verbs: R1 R2 with i and a long i in
      the third masculine singular, R1 R2 R3 with i and a silent R2 in the
      rest of the third person (R3 with i in the feminine singular), R1 R2
      with a silent R1 and a long i elsewhere. */
  lemma DefectivePerfect(root: VerbRoot, context: LebaneseStem1Context, params: ConjugationParams, ctx: MatchContext)
    requires ctx.params == params && params.tense == Perfect && !IsDefectiveType1(context)
    ensures var e := MatchRules(DefectiveStem1(root, context, params), ctx, NothingEvaluated);
      var third := params.person == Third;
      var singular := third && params.numerus == Singular;
      e.emphasize == None && e.prefixVowel == None
      && e.symbols == Some(if third && !(singular && params.gender == Male) then [root.r1(), root.r2(), root.r3()] else [root.r1(), root.r2()])
      && e.vowels == Some(
        if singular && params.gender == Male then [ShortI, LongI]
        else if singular then [ShortI, Vowel.Sukun, ShortI]
        else if third then [ShortI, Vowel.Sukun]
        else [Vowel.Sukun, LongI])
  {
    var rules := DefectiveStem1(root, context, params);
    if params.person == Third && params.numerus == Singular && params.gender == Male {
      FirstMatchIsLeaf(rules, 0, ctx, NothingEvaluated);
    } else if params.person == Third && params.numerus == Singular {
      FirstMatchIsLeaf(rules, 1, ctx, NothingEvaluated);
    } else if params.person == Third {
      FirstMatchIsLeaf(rules, 2, ctx, NothingEvaluated);
    } else {
      FirstMatchIsLeaf(rules, 3, ctx, NothingEvaluated);
    }
  }

  /** The present of a defective verb is built on R1 and R2 with a silent R1.
      Outside the imperative the prefix vowel is a only for the type-1
      verbs that take it, i otherwise; the imperative has no prefix vowel
      and, without a suffix, ends in the broken a for the pattern with
      present a and in a long i otherwise. */
  lemma DefectivePresent(root: VerbRoot, context: LebaneseStem1Context, params: ConjugationParams, ctx: MatchContext)
    requires ctx.params == params && params.tense == Present
    ensures var e := MatchRules(DefectiveStem1(root, context, params), ctx, NothingEvaluated);
      e.emphasize == None
      && e.symbols == Some([root.r1(), root.r2()])
      && (params.mood != Imperative ==>
            e.prefixVowel == Some(if context == DefectiveType1WithPrefixA then ShortA else ShortI)
            && e.vowels == Some([Vowel.Sukun]))
      && (params.mood == Imperative ==>
            e.prefixVowel == None
            && e.vowels == Some(if ctx.presentSuffixStartsWithLongVowel then [Vowel.Sukun]
                                else [Vowel.Sukun, if context == PastA_PresentA then BrokenA else LongI]))
  {
    var rules := DefectiveStem1(root, context, params);
    if params.mood != Imperative {
      FirstMatchIsLeaf(rules, 6, ctx, NothingEvaluated);
    } else if ctx.presentSuffixStartsWithLongVowel {
      FirstMatchIsLeaf(rules, 4, ctx, NothingEvaluated);
    } else {
      FirstMatchIsLeaf(rules, 5, ctx, NothingEvaluated);
    }
  }
}
