/** The Lebanese Arabic rule tables: for a stem, a root type and the
    parameters of a form, the rule tree the matcher walks to find the
    letters of the stem, their vowels, the emphasized item and the vowel of
    the present prefix. */
module LebaneseRootAugmentation {
  import opened Wrappers
  import opened Definitions
  import opened VerbRoot
  import opened RuleMatcher
  import opened LebaneseStem1

  /** Answers from parts of the engine this model does not contain: the rule
      table of the irregular verb ija (root Jiim-Ya-Hamza), whether a root
      with a hamza on R1 is one of the special present forms, and whether the
      present suffix of the form starts with Waw or Ya. */
  datatype Hooks = Hooks(
    irregularIja: seq<Rule>,
    isHamzaOnR1SpecialCase: bool,
    presentSuffixStartsWithWawOrYa: bool)

  /** The stem and root-type combinations that have a table. */
  predicate Supported(stem: nat, t: RootType)
  {
    match stem
    case 1 => t in {FinalWeak, MiddleWeak, RootType.HamzaOnR1, Quadriliteral, SecondConsonantDoubled, Regular}
    case 2 => t in {FinalWeak, Quadriliteral, Regular}
    case 3 => t == MiddleWeak
    case 4 => t == Regular
    case 5 => t in {FinalWeak, Regular}
    case 6 => t in {FinalWeak, Regular}
    case 8 => t in {MiddleWeak, Regular}
    case 9 => t == Regular
    case _ => false
  }

  /** The rule tree of a form, `None` where the engine has none. */
  function AugmentRoot(root: VerbRoot, stem: nat, context: LebaneseStem1Context, params: ConjugationParams, hooks: Hooks): (r: Option<seq<Rule>>)
    ensures r.Some? <==> Supported(stem, root.Type())
  {
    var t := root.Type();
    if stem == 1 then
      if t == FinalWeak then Some(Stem1FinalWeak(root, context, params, hooks))
      else if t == MiddleWeak then
        if root.RadicalsAsSeparateLetters() == [Jiim, Ya, Hamza] then Some(hooks.irregularIja)
        else Some(Stem1MiddleWeak(root, params))
      else if t == RootType.HamzaOnR1 then Some(Stem1HamzaOnR1(root, params, hooks))
      else if t == Quadriliteral then Some(Stem1Quadriliteral(root, params))
      else if t == SecondConsonantDoubled then Some(Stem1Doubled(root, context))
      else if t == Regular then Some(Stem1Regular(root, context, params))
      else None
    else if stem == 2 then
      if t == FinalWeak then Some(Stem2FinalWeak(root))
      else if t == Quadriliteral then Some(Stem2Quadriliteral(root, params))
      else if t == Regular then Some(Stem2Regular(root, params))
      else None
    else if stem == 3 then
      if t == MiddleWeak then Some(Stem3MiddleWeak(root, params)) else None
    else if stem == 4 then
      if t == Regular then Some(Stem4Regular(root)) else None
    else if stem == 5 then
      if t == FinalWeak then Some(Stem5FinalWeak(root))
      else if t == Regular then Some(Stem5Regular(root, params))
      else None
    else if stem == 6 then
      if t == FinalWeak then Some(Stem6FinalWeak(root))
      else if t == Regular then Some(Stem6Regular(root, params))
      else None
    else if stem == 8 then
      if t == MiddleWeak then Some(Stem8MiddleWeak(root, params))
      else if t == Regular then Some(Stem8Regular(root, params))
      else None
    else if stem == 9 then
      if t == Regular then Some(Stem9Regular(root)) else None
    else None
  }

  /** The first-stem defective verb. The pattern with past a and present i
      has a table of its own in the present outside the imperative, unless
      the suffix starts with Waw or Ya. */
  function Stem1FinalWeak(root: VerbRoot, context: LebaneseStem1Context, params: ConjugationParams, hooks: Hooks): seq<Rule>
  {
    if params.tense == Present && params.mood != Imperative && context == PastA_PresentI && !hooks.presentSuffixStartsWithWawOrYa then
      [Rule(conditions := Conditions(tense := Some(Present)), prefixVowel := Some(ShortI),
            symbols := Some([root.r1(), root.r2()]), vowels := Some([Vowel.Sukun, BrokenA]))]
    else
      [Rule(conditions := Conditions(tense := Some(Perfect), person := Some(Third), numerus := Some(Singular), gender := Some(Male)),
            symbols := Some([root.r1(), root.r2()]), vowels := Some([ShortI, LongI])),
       Rule(conditions := Conditions(tense := Some(Perfect), person := Some(Third), numerus := Some(Singular)),
            symbols := Some([root.r1(), root.r2(), root.r3()]), vowels := Some([ShortI, Vowel.Sukun, ShortI])),
       Rule(conditions := Conditions(tense := Some(Perfect), person := Some(Third)),
            symbols := Some([root.r1(), root.r2(), root.r3()]), vowels := Some([ShortI, Vowel.Sukun])),
       Rule(conditions := Conditions(tense := Some(Perfect)),
            symbols := Some([root.r1(), root.r2()]), vowels := Some([Vowel.Sukun, LongI])),
       Rule(conditions := Conditions(mood := Some(Imperative), hasPresentVowelSuffix := true),
            symbols := Some([root.r1(), root.r2()]), vowels := Some([Vowel.Sukun])),
       Rule(conditions := Conditions(mood := Some(Imperative)),
            symbols := Some([root.r1(), root.r2()]), vowels := Some([Vowel.Sukun, LongI])),
       Rule(conditions := Conditions(tense := Some(Present), hasPresentVowelSuffix := true), prefixVowel := Some(ShortI),
            symbols := Some([root.r1(), root.r2()]), vowels := Some([Vowel.Sukun])),
       Rule(conditions := Conditions(tense := Some(Present)), prefixVowel := Some(ShortI),
            symbols := Some([root.r1(), root.r2()]), vowels := Some([Vowel.Sukun, LongI]))]
  }

  /** The first-stem hollow verb: R2 is dropped. */
  function Stem1MiddleWeak(root: VerbRoot, params: ConjugationParams): seq<Rule>
  {
    [Rule(symbols := Some([root.r1(), root.r3()]), children := [
       Rule(conditions := Conditions(tense := Some(Perfect)), vowels := Some([if params.person == Third then LongA else ShortI])),
       Rule(conditions := Conditions(tense := Some(Present)), prefixVowel := Some(Vowel.Sukun), vowels := Some([LongI]))])]
  }

  function Stem1HamzaOnR1(root: VerbRoot, params: ConjugationParams, hooks: Hooks): seq<Rule>
  {
    if hooks.isHamzaOnR1SpecialCase && params.tense == Present then
      [Rule(conditions := Conditions(mood := Some(Imperative), hasPresentVowelSuffix := true),
            symbols := Some([root.r2(), root.r3()]), vowels := Some([ShortI])),
       Rule(conditions := Conditions(mood := Some(Imperative)),
            symbols := Some([root.r2(), root.r3()]), vowels := Some([ShortU])),
       Rule(conditions := Conditions(hasPresentVowelSuffix := true), prefixVowel := Some(LongA),
            symbols := Some([root.r2(), root.r3()]), vowels := Some([Vowel.Sukun])),
       Rule(conditions := Conditions(mood := Some(Subjunctive), numerus := Some(Singular), person := Some(First)), prefixVowel := Some(ShortA),
            symbols := Some([root.r1(), root.r2(), root.r3()]), vowels := Some([Vowel.Sukun, ShortU])),
       Rule(prefixVowel := Some(LongA), symbols := Some([root.r2(), root.r3()]), vowels := Some([ShortU]))]
    else
      [Rule(symbols := Some([root.r1(), root.r2(), root.r3()]), children := [
         Rule(conditions := Conditions(tense := Some(Perfect)), emphasize := Some(if params.person == Third then 0 else 1),
              vowels := Some([ShortA, ShortA])),
         Rule(conditions := Conditions(mood := Some(Imperative), hasPresentVowelSuffix := true), vowels := Some([Vowel.Sukun, ShortU])),
         Rule(conditions := Conditions(mood := Some(Imperative)), vowels := Some([Vowel.Sukun, LongU])),
         Rule(conditions := Conditions(tense := Some(Present), hasPresentVowelSuffix := true), prefixVowel := Some(ShortU),
              vowels := Some([Vowel.Sukun, Vowel.Sukun])),
         Rule(conditions := Conditions(tense := Some(Present)), prefixVowel := Some(ShortU), vowels := Some([Vowel.Sukun, ShortU]))])]
  }

  function Stem1Quadriliteral(root: VerbRoot, params: ConjugationParams): seq<Rule>
  {
    [Rule(symbols := Some([root.r1(), root.r2(), root.r3(), root.r4()]), vowels := Some([ShortA, Vowel.Sukun, ShortA]), children := [
       Rule(conditions := Conditions(tense := Some(Perfect)), emphasize := Some(if params.person == Third then 0 else 2)),
       Rule(conditions := Conditions(tense := Some(Present)), prefixVowel := Some(Vowel.Sukun),
            vowels := Some([ShortA, Vowel.Sukun, ShortI]), children := [
         Rule(conditions := Conditions(hasPresentVowelSuffix := true), vowels := Some([ShortA, Vowel.Sukun, Vowel.Sukun]))])])]
  }

  /** The first-stem geminate verb; its present vowel is i for the pattern
      with past a and present i, u otherwise. */
  function Stem1Doubled(root: VerbRoot, context: LebaneseStem1Context): seq<Rule>
  {
    var presentVowel := if context == PastA_PresentI then ShortI else ShortU;
    [Rule(symbols := Some([root.r1(), root.r2(), root.r3()]), children := [
       Rule(conditions := Conditions(tense := Some(Perfect), person := Some(Third)), vowels := Some([ShortA, Vowel.Sukun])),
       Rule(conditions := Conditions(tense := Some(Perfect)), vowels := Some([ShortA, Vowel.Sukun, DiphtongAj])),
       Rule(conditions := Conditions(tense := Some(Present)), prefixVowel := Some(Vowel.Sukun), vowels := Some([presentVowel, Vowel.Sukun]))])]
  }

  function Stem1Regular(root: VerbRoot, context: LebaneseStem1Context, params: ConjugationParams): seq<Rule>
  {
    var emphasize := Some(if params.person == Third then 0 else 1);
    if context == PastA_PresentI then
      [Rule(symbols := Some([root.r1(), root.r2(), root.r3()]), children := [
         Rule(conditions := Conditions(tense := Some(Perfect)), emphasize := emphasize, children := [
           Rule(conditions := Conditions(gender := Some(Male), numerus := Some(Singular), person := Some(Third)), vowels := Some([ShortI, ShortI])),
           Rule(conditions := Conditions(person := Some(Third)), vowels := Some([ShortI, Vowel.Sukun])),
           Rule(vowels := Some([Vowel.Sukun, ShortI]))]),
         Rule(conditions := Conditions(mood := Some(Imperative), hasPresentVowelSuffix := true), vowels := Some([Vowel.Sukun, ShortA])),
         Rule(conditions := Conditions(mood := Some(Imperative)), vowels := Some([Vowel.Sukun, LongA])),
         Rule(conditions := Conditions(tense := Some(Present)), prefixVowel := Some(ShortI), vowels := Some([Vowel.Sukun, ShortA]))])]
    else
      var presentA := context == PastA_PresentA;
      [Rule(symbols := Some([root.r1(), root.r2(), root.r3()]), children := [
         Rule(conditions := Conditions(tense := Some(Perfect)), emphasize := emphasize, vowels := Some([ShortA, ShortA])),
         Rule(conditions := Conditions(mood := Some(Imperative), hasPresentVowelSuffix := true),
              vowels := Some([Vowel.Sukun, if presentA then ShortA else ShortI])),
         Rule(conditions := Conditions(mood := Some(Imperative)), vowels := Some([Vowel.Sukun, if presentA then LongA else LongU])),
         Rule(conditions := Conditions(tense := Some(Present), hasPresentVowelSuffix := true), prefixVowel := Some(ShortI), children := [
           Rule(conditions := Conditions(stemParameters := Some(Code(PastA_PresentA))), vowels := Some([Vowel.Sukun, ShortA])),
           Rule(conditions := Conditions(stemParameters := Some(Code(PastA_PresentU_Form2))), vowels := Some([ShortI, Vowel.Sukun])),
           Rule(prefixVowel := Some(ShortI), vowels := Some([Vowel.Sukun, Vowel.Sukun]))]),
         Rule(conditions := Conditions(tense := Some(Present)), prefixVowel := Some(ShortI),
              vowels := Some([Vowel.Sukun, if presentA then ShortA else ShortU]))])]
  }

  function Stem2FinalWeak(root: VerbRoot): seq<Rule>
  {
    [Rule(conditions := Conditions(tense := Some(Perfect)), symbols := Some([root.r1(), root.r2(), root.r2()]), children := [
       Rule(conditions := Conditions(person := Some(Third), numerus := Some(Singular), gender := Some(Male)), vowels := Some([ShortA, Vowel.Sukun, BrokenA])),
       Rule(conditions := Conditions(person := Some(Third), numerus := Some(Singular)), vowels := Some([ShortA, Vowel.Sukun, ShortI])),
       Rule(conditions := Conditions(person := Some(Third)), vowels := Some([ShortA, Vowel.Sukun])),
       Rule(conditions := Conditions(tense := Some(Perfect)), vowels := Some([ShortA, Vowel.Sukun, DiphtongAj]))]),
     Rule(conditions := Conditions(tense := Some(Present), hasPresentVowelSuffix := true), prefixVowel := Some(Vowel.Sukun),
          symbols := Some([root.r1(), root.r2(), root.r2()]), vowels := Some([ShortA, Vowel.Sukun])),
     Rule(conditions := Conditions(tense := Some(Present)), prefixVowel := Some(Vowel.Sukun),
          symbols := Some([root.r1(), root.r2(), root.r2()]), vowels := Some([ShortA, Vowel.Sukun, LongI]))]
  }

  /** The second-stem quadriliteral takes a Ta before R1, except in the
      imperative. */
  function Stem2Quadriliteral(root: VerbRoot, params: ConjugationParams): seq<Rule>
  {
    [Rule(symbols := Some([Ta, root.r1(), root.r2(), root.r3(), root.r4()]),
          vowels := Some([Vowel.Sukun, ShortA, Vowel.Sukun, ShortA]), children := [
       Rule(conditions := Conditions(tense := Some(Perfect)), emphasize := Some(if params.person == Third then 1 else 3)),
       Rule(conditions := Conditions(mood := Some(Imperative)), symbols := Some([root.r1(), root.r2(), root.r3(), root.r4()]),
            vowels := Some([ShortA, Vowel.Sukun, Vowel.Sukun]), children := [
         Rule(conditions := Conditions(numerus := Some(Singular), gender := Some(Male)), vowels := Some([ShortA, Vowel.Sukun, ShortI]))]),
       Rule(conditions := Conditions(tense := Some(Present)), prefixVowel := Some(ShortI))])]
  }

  /** The second stem doubles R2. */
  function Stem2Regular(root: VerbRoot, params: ConjugationParams): seq<Rule>
  {
    [Rule(symbols := Some([root.r1(), root.r2(), root.r2(), root.r3()]), children := [
       Rule(conditions := Conditions(tense := Some(Perfect)), emphasize := Some(if params.person == Third then 0 else 1),
            vowels := Some([ShortA, Vowel.Sukun, ShortA])),
       Rule(conditions := Conditions(tense := Some(Present)), prefixVowel := Some(Vowel.Sukun),
            vowels := Some([ShortA, Vowel.Sukun, ShortI]), children := [
         Rule(conditions := Conditions(hasPresentVowelSuffix := true), vowels := Some([ShortA, Vowel.Sukun, Vowel.Sukun]))])])]
  }

  function Stem3MiddleWeak(root: VerbRoot, params: ConjugationParams): seq<Rule>
  {
    [Rule(symbols := Some([root.r1(), root.r2(), root.r3()]), children := [
       Rule(conditions := Conditions(tense := Some(Perfect)), emphasize := if params.person == Third then None else Some(1),
            vowels := Some([LongA, ShortA])),
       Rule(conditions := Conditions(tense := Some(Present)), prefixVowel := Some(Vowel.Sukun), vowels := Some([LongA, ShortI]), children := [
         Rule(conditions := Conditions(hasPresentVowelSuffix := true), vowels := Some([LongA, Vowel.Sukun]))])])]
  }

  /** The fourth stem takes a Hamza before R1 in the perfect. */
  function Stem4Regular(root: VerbRoot): seq<Rule>
  {
    [Rule(conditions := Conditions(tense := Some(Perfect)), symbols := Some([Hamza, root.r1(), root.r2(), root.r3()]),
          vowels := Some([ShortA, Vowel.Sukun, ShortA])),
     Rule(conditions := Conditions(tense := Some(Present)), prefixVowel := Some(ShortI), symbols := Some([root.r1(), root.r2(), root.r3()]), children := [
       Rule(conditions := Conditions(mood := Some(Imperative), hasPresentVowelSuffix := true), vowels := Some([Vowel.Sukun, ShortI])),
       Rule(conditions := Conditions(mood := Some(Imperative)), vowels := Some([Vowel.Sukun, LongU])),
       Rule(conditions := Conditions(hasPresentVowelSuffix := true), vowels := Some([ShortI, Vowel.Sukun])),
       Rule(vowels := Some([Vowel.Sukun, ShortU]))])]
  }

  function Stem5FinalWeak(root: VerbRoot): seq<Rule>
  {
    [Rule(symbols := Some([Ta, root.r1(), root.r2(), root.r2()]), children := [
       Rule(conditions := Conditions(tense := Some(Perfect)), children := [
         Rule(conditions := Conditions(person := Some(Third), numerus := Some(Singular), gender := Some(Male)),
              vowels := Some([Vowel.Sukun, ShortA, Vowel.Sukun, BrokenA])),
         Rule(conditions := Conditions(person := Some(Third), numerus := Some(Singular)), vowels := Some([Vowel.Sukun, ShortA, Vowel.Sukun, ShortI])),
         Rule(conditions := Conditions(person := Some(Third)), vowels := Some([Vowel.Sukun, ShortA, Vowel.Sukun, LongU])),
         Rule(vowels := Some([Vowel.Sukun, ShortA, Vowel.Sukun, DiphtongAj]))]),
       Rule(conditions := Conditions(tense := Some(Present)), prefixVowel := Some(ShortI),
            vowels := Some([Vowel.Sukun, ShortA, Vowel.Sukun, BrokenA]), children := [
         Rule(conditions := Conditions(hasPresentVowelSuffix := true, numerus := Some(Singular)), vowels := Some([Vowel.Sukun, ShortA, Vowel.Sukun, LongI])),
         Rule(conditions := Conditions(hasPresentVowelSuffix := true), vowels := Some([Vowel.Sukun, ShortA, Vowel.Sukun, LongU]))])])]
  }

  /** The fifth stem: a Ta before R1 and a doubled R2. */
  function Stem5Regular(root: VerbRoot, params: ConjugationParams): seq<Rule>
  {
    [Rule(symbols := Some([Ta, root.r1(), root.r2(), root.r2(), root.r3()]), vowels := Some([Vowel.Sukun, ShortA, Vowel.Sukun, ShortA]), children := [
       Rule(conditions := Conditions(tense := Some(Perfect)), emphasize := Some(if params.person == Third then 1 else 2)),
       Rule(conditions := Conditions(tense := Some(Present)), prefixVowel := Some(ShortI))])]
  }

  function Stem6FinalWeak(root: VerbRoot): seq<Rule>
  {
    [Rule(symbols := Some([Ta, root.r1(), root.r2()]), children := [
       Rule(conditions := Conditions(tense := Some(Perfect)), children := [
         Rule(conditions := Conditions(person := Some(Third), numerus := Some(Singular), gender := Some(Male)), vowels := Some([Vowel.Sukun, LongA, BrokenA])),
         Rule(conditions := Conditions(person := Some(Third), numerus := Some(Singular)), vowels := Some([Vowel.Sukun, LongA, ShortI])),
         Rule(conditions := Conditions(person := Some(Third)), vowels := Some([Vowel.Sukun, LongA, LongU])),
         Rule(vowels := Some([Vowel.Sukun, LongA, DiphtongAj]))]),
       Rule(conditions := Conditions(tense := Some(Present)), prefixVowel := Some(ShortI), vowels := Some([Vowel.Sukun, LongA, BrokenA]), children := [
         Rule(conditions := Conditions(hasPresentVowelSuffix := true, numerus := Some(Singular)), vowels := Some([Vowel.Sukun, LongA, LongI])),
         Rule(conditions := Conditions(hasPresentVowelSuffix := true), vowels := Some([Vowel.Sukun, LongA, LongU]))])])]
  }

  /** The sixth stem: a Ta before R1 and a long a after it. */
  function Stem6Regular(root: VerbRoot, params: ConjugationParams): seq<Rule>
  {
    [Rule(symbols := Some([Ta, root.r1(), root.r2(), root.r3()]), vowels := Some([Vowel.Sukun, LongA, ShortA]), children := [
       Rule(conditions := Conditions(tense := Some(Perfect)), emphasize := if params.person == Third then None else Some(2)),
       Rule(conditions := Conditions(tense := Some(Present)), prefixVowel := Some(ShortI))])]
  }

  function Stem8MiddleWeak(root: VerbRoot, params: ConjugationParams): seq<Rule>
  {
    [Rule(symbols := Some([root.r1(), Ta, root.r3()]), children := [
       Rule(conditions := Conditions(tense := Some(Perfect)), vowels := Some([Vowel.Sukun, if params.person == Third then LongA else ShortA])),
       Rule(conditions := Conditions(tense := Some(Present)), prefixVowel := Some(ShortI), vowels := Some([Vowel.Sukun, LongA]))])]
  }

  /** The eighth stem puts a Ta between R1 and R2. */
  function Stem8Regular(root: VerbRoot, params: ConjugationParams): seq<Rule>
  {
    [Rule(symbols := Some([root.r1(), Ta, root.r2(), root.r3()]), children := [
       Rule(conditions := Conditions(tense := Some(Perfect)), emphasize := Some(if params.person == Third then 1 else 2),
            vowels := Some([Vowel.Sukun, ShortA, ShortA])),
       Rule(conditions := Conditions(tense := Some(Present), hasPresentVowelSuffix := true), prefixVowel := Some(ShortI),
            vowels := Some([Vowel.Sukun, ShortI, Vowel.Sukun])),
       Rule(conditions := Conditions(tense := Some(Present)), prefixVowel := Some(ShortI), vowels := Some([Vowel.Sukun, ShortI, ShortI]))])]
  }

  /** The ninth stem doubles R3. */
  function Stem9Regular(root: VerbRoot): seq<Rule>
  {
    [Rule(symbols := Some([root.r1(), root.r2(), root.r3(), root.r3()]), children := [
       Rule(conditions := Conditions(tense := Some(Perfect)), vowels := Some([Vowel.Sukun, ShortA, Vowel.Sukun, DiphtongAj]), children := [
         Rule(conditions := Conditions(person := Some(Third)), vowels := Some([Vowel.Sukun, ShortA, Vowel.Sukun]))]),
       Rule(conditions := Conditions(tense := Some(Present)), prefixVowel := Some(ShortI), vowels := Some([Vowel.Sukun, ShortA, Vowel.Sukun]))])]
  }

  /** In the perfect of a regular first-stem verb the stem is R1 R2 R3, the
      emphasis falls on the first item in the third person and on the second
      otherwise, and the vowels are a-a, except for the pattern with past a
      and present i, which has i-i in the third masculine singular, i-sukun
      in the rest of the third person and sukun-i elsewhere. */
  lemma Stem1RegularPerfect(root: VerbRoot, context: LebaneseStem1Context, params: ConjugationParams, hooks: Hooks, ctx: MatchContext)
    requires root.Type() == Regular && params.tense == Perfect && ctx.params == params
    ensures var e := MatchRules(AugmentRoot(root, 1, context, params, hooks).value, ctx, NothingEvaluated);
      e.emphasize == Some(if params.person == Third then 0 else 1)
      && e.symbols == Some([root.r1(), root.r2(), root.r3()])
      && e.prefixVowel == None
      && e.vowels == Some(
        if context != PastA_PresentI then [ShortA, ShortA]
        else if params.person == Third && params.numerus == Singular && params.gender == Male then [ShortI, ShortI]
        else if params.person == Third then [ShortI, Vowel.Sukun]
        else [Vowel.Sukun, ShortI])
  {
    var rules := Stem1Regular(root, context, params);
    assert AugmentRoot(root, 1, context, params, hooks) == Some(rules);
    var a1 := Override(NothingEvaluated, rules[0]);
    FirstMatchDescends(rules, 0, ctx, NothingEvaluated);
    var a2 := Override(a1, rules[0].children[0]);
    FirstMatchDescends(rules[0].children, 0, ctx, a1);
    if context == PastA_PresentI {
      var persons := rules[0].children[0].children;
      if params.person == Third && params.numerus == Singular && params.gender == Male {
        FirstMatchIsLeaf(persons, 0, ctx, a2);
      } else if params.person == Third {
        FirstMatchIsLeaf(persons, 1, ctx, a2);
      } else {
        FirstMatchIsLeaf(persons, 2, ctx, a2);
      }
    }
  }

  /** The letters of a regular stem, as its pattern prescribes: R2 doubled
      in stems 2 and 5, R3 in stem 9, a Ta before R1 in stems 5 and 6 and
      after it in stem 8, a Hamza before R1 in the perfect of stem 4. */
  function RegularStemLetters(root: VerbRoot, stem: nat, tense: Tense): seq<Letter>
    requires stem in {1, 2, 4, 5, 6, 8, 9}
  {
    var r1, r2, r3 := root.r1(), root.r2(), root.r3();
    match stem
    case 1 => [r1, r2, r3]
    case 2 => [r1, r2, r2, r3]
    case 4 => if tense == Perfect then [Hamza, r1, r2, r3] else [r1, r2, r3]
    case 5 => [Ta, r1, r2, r2, r3]
    case 6 => [Ta, r1, r2, r3]
    case 8 => [r1, Ta, r2, r3]
    case 9 => [r1, r2, r3, r3]
  }

  /** Whatever the form, the matcher finds the letters of the regular stem's
      pattern: no rule below the top one changes them. */
  lemma RegularStemSymbols(root: VerbRoot, stem: nat, context: LebaneseStem1Context, params: ConjugationParams, hooks: Hooks, ctx: MatchContext, acc: Evaluated)
    requires root.Type() == Regular && stem in {1, 2, 4, 5, 6, 8, 9}
    ensures MatchRules(AugmentRoot(root, stem, context, params, hooks).value, ctx, acc).symbols
         == Some(RegularStemLetters(root, stem, ctx.params.tense))
  {
    if stem in {1, 2, 4} {
      RegularLowStemSymbols(root, stem, context, params, hooks, ctx, acc);
    } else {
      RegularHighStemSymbols(root, stem, context, params, hooks, ctx, acc);
    }
  }

  /** `RegularStemSymbols` for stems 1, 2 and 4. */
  lemma RegularLowStemSymbols(root: VerbRoot, stem: nat, context: LebaneseStem1Context, params: ConjugationParams, hooks: Hooks, ctx: MatchContext, acc: Evaluated)
    requires root.Type() == Regular && stem in {1, 2, 4}
    ensures MatchRules(AugmentRoot(root, stem, context, params, hooks).value, ctx, acc).symbols
         == Some(RegularStemLetters(root, stem, ctx.params.tense))
  {
    if stem == 1 {
      TopRuleSetsSymbols(Stem1Regular(root, context, params), ctx, acc);
    } else if stem == 2 {
      TopRuleSetsSymbols(Stem2Regular(root, params), ctx, acc);
    } else {
      Stem4RegularSymbols(root, ctx, acc);
    }
  }

  /** `RegularStemSymbols` for stems 5, 6, 8 and 9. */
  lemma RegularHighStemSymbols(root: VerbRoot, stem: nat, context: LebaneseStem1Context, params: ConjugationParams, hooks: Hooks, ctx: MatchContext, acc: Evaluated)
    requires root.Type() == Regular && stem in {5, 6, 8, 9}
    ensures MatchRules(AugmentRoot(root, stem, context, params, hooks).value, ctx, acc).symbols
         == Some(RegularStemLetters(root, stem, ctx.params.tense))
  {
    if stem == 5 {
      TopRuleSetsSymbols(Stem5Regular(root, params), ctx, acc);
    } else if stem == 6 {
      TopRuleSetsSymbols(Stem6Regular(root, params), ctx, acc);
    } else if stem == 8 {
      TopRuleSetsSymbols(Stem8Regular(root, params), ctx, acc);
    } else {
      TopRuleSetsSymbols(Stem9Regular(root), ctx, acc);
    }
  }

  /** The fourth stem has its Hamza in the perfect rule only. */
  lemma Stem4RegularSymbols(root: VerbRoot, ctx: MatchContext, acc: Evaluated)
    ensures MatchRules(Stem4Regular(root), ctx, acc).symbols
         == Some(if ctx.params.tense == Perfect then [Hamza, root.r1(), root.r2(), root.r3()] else [root.r1(), root.r2(), root.r3()])
  {
    var rules := Stem4Regular(root);
    if ctx.params.tense == Perfect {
      FirstMatchIsLeaf(rules, 0, ctx, acc);
    } else {
      FirstMatchDescends(rules, 1, ctx, acc);
      AbsentFieldsKept(rules[1].children, SymbolsField, ctx, Override(acc, rules[1]));
    }
  }

  /** The root Jiim-Ya-Hamza is hollow, and its first stem is the irregular
      verb ija, whose table comes from elsewhere. */
  lemma IjaDelegated(context: LebaneseStem1Context, params: ConjugationParams, hooks: Hooks)
    ensures VerbRoot([Jiim, Ya, Hamza]).Type() == MiddleWeak
    ensures AugmentRoot(VerbRoot([Jiim, Ya, Hamza]), 1, context, params, hooks) == Some(hooks.irregularIja)
  {
    var root := VerbRoot([Jiim, Ya, Hamza]);
    assert root.r1() == Jiim && root.r2() == Ya && root.r3() == Hamza;
  }

  /** Every other hollow root has a first-stem table of its own, which does
      not consult the hooks, and whose letters are R1 and R3 whatever the form. */
  lemma HollowStem1DropsR2(root: VerbRoot, context: LebaneseStem1Context, params: ConjugationParams, h1: Hooks, h2: Hooks, ctx: MatchContext, acc: Evaluated)
    requires root.Type() == MiddleWeak && root.RadicalsAsSeparateLetters() != [Jiim, Ya, Hamza]
    ensures AugmentRoot(root, 1, context, params, h1) == AugmentRoot(root, 1, context, params, h2)
    ensures MatchRules(AugmentRoot(root, 1, context, params, h1).value, ctx, acc).symbols == Some([root.r1(), root.r3()])
  {
    var rules := AugmentRoot(root, 1, context, params, h1).value;
    FirstMatchDescends(rules, 0, ctx, acc);
    AbsentFieldsKept(rules[0].children, SymbolsField, ctx, Override(acc, rules[0]));
  }

  /** The present of a first-stem defective verb with past a and present i,
      outside the imperative and before a suffix that does not start with
      Waw or Ya, is one rule: prefix vowel i, letters R1 R2, vowels sukun
      and the broken a. Every other form of these verbs uses the eight-rule
      table. */
  lemma DefectivePresentAi(root: VerbRoot, context: LebaneseStem1Context, params: ConjugationParams, hooks: Hooks, ctx: MatchContext, acc: Evaluated)
    requires root.Type() == FinalWeak && ctx.params == params
    ensures var rules := AugmentRoot(root, 1, context, params, hooks).value;
      var special := params.tense == Present && params.mood != Imperative && context == PastA_PresentI && !hooks.presentSuffixStartsWithWawOrYa;
      (|rules| == 1 <==> special) && (!special ==> |rules| == 8)
      && (special ==> MatchRules(rules, ctx, acc)
                      == Evaluated(acc.emphasize, Some(ShortI), Some([root.r1(), root.r2()]), Some([Vowel.Sukun, BrokenA])))
  {
    var rules := AugmentRoot(root, 1, context, params, hooks).value;
    if params.tense == Present && params.mood != Imperative && context == PastA_PresentI && !hooks.presentSuffixStartsWithWawOrYa {
      FirstMatchIsLeaf(rules, 0, ctx, acc);
    }
  }
}
