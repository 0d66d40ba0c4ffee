/** Conjugation rule trees and the matcher that walks them: at each level the
    first rule whose conditions hold is applied, its fields override what was
    found so far, and the walk descends into its children. */
module RuleMatcher {
  import opened Wrappers
  import opened Definitions

  /** The conditions a rule places on the conjugation parameters; an absent
      (`None` or `false`) condition places no constraint. */
  datatype Conditions = Conditions(
    doesSuffixBeginWithSukun: bool := false,
    gender: Option<Gender> := None,
    hasPresentVowelSuffix: bool := false,
    mood: Option<Mood> := None,
    numerus: Option<Numerus> := None,
    person: Option<Person> := None,
    stemParameters: Option<string> := None,
    tense: Option<Tense> := None)

  const NoConditions := Conditions()

  /** A rule of the tree. The engine's `children` is optional; an absent list
      and an empty one are walked alike, so `[]` stands for both here. A
      field left out of a rule is `None`, as an absent key is in the engine. */
  datatype Rule = Rule(
    children: seq<Rule> := [],
    conditions: Conditions := NoConditions,
    emphasize: Option<nat> := None,
    prefixVowel: Option<Vowel> := None,
    symbols: Option<seq<Letter>> := None,
    vowels: Option<seq<Vowel>> := None)

  /** What the matcher has found so far (its `evaluated` field). */
  datatype Evaluated = Evaluated(
    emphasize: Option<nat>,
    prefixVowel: Option<Vowel>,
    symbols: Option<seq<Letter>>,
    vowels: Option<seq<Vowel>>)

  const NothingEvaluated := Evaluated(None, None, None, None)

  datatype MatchResult = MatchResult(
    emphasize: Option<nat>,
    prefixVowel: Option<Vowel>,
    symbols: seq<Letter>,
    vowels: seq<Vowel>)

  /** The stem number and, for stem 1, the stem parameterization. */
  datatype StemData = StemData(stem: nat, stemParameterization: string)

  /** What a rule's conditions are tested against. `presentSuffixStartsWithLongVowel`
      is the value of the MSA suffix table's `DoesPresentSuffixStartWithLongVowel`
      for the person, numerus and gender of `params`. */
  datatype MatchContext = MatchContext(
    stemData: StemData,
    params: ConjugationParams,
    presentSuffixStartsWithLongVowel: bool,
    doesSuffixBeginWithSukun: bool)

  predicate DoConditionsMatch(c: Conditions, ctx: MatchContext)
  {
    var p := ctx.params;
    && (c.tense.Some? ==> c.tense.value == p.tense)
    && (c.mood.Some? ==> p.tense == Present && c.mood.value == p.mood)
    && (c.numerus.Some? ==> c.numerus.value == p.numerus)
    && (c.person.Some? ==> c.person.value == p.person)
    && (c.gender.Some? ==> c.gender.value == p.gender)
    && !(c.hasPresentVowelSuffix && p.tense == Present && !ctx.presentSuffixStartsWithLongVowel)
    && !(c.doesSuffixBeginWithSukun && !ctx.doesSuffixBeginWithSukun)
    && (c.stemParameters.Some? ==>
          ctx.stemData.stem == 1 && ctx.stemData.stemParameterization == c.stemParameters.value)
  }

  function Or<T>(a: Option<T>, b: Option<T>): (r: Option<T>)
    ensures r == (if a.Some? then a else b)
  {
    if a.Some? then a else b
  }

  /** `x = rule.x ?? evaluated.x` for each of the four fields. */
  function Override(acc: Evaluated, rule: Rule): (r: Evaluated)
    ensures r.symbols.Some? <==> rule.symbols.Some? || acc.symbols.Some?
    ensures r.vowels.Some? <==> rule.vowels.Some? || acc.vowels.Some?
  {
    Evaluated(Or(rule.emphasize, acc.emphasize), Or(rule.prefixVowel, acc.prefixVowel),
              Or(rule.symbols, acc.symbols), Or(rule.vowels, acc.vowels))
  }

  /** The state after matching `rules` from state `acc`. */
  function MatchRules(rules: seq<Rule>, ctx: MatchContext, acc: Evaluated): Evaluated
    decreases rules
  {
    if rules == [] then acc
    else if DoConditionsMatch(rules[0].conditions, ctx) then
      MatchRules(rules[0].children, ctx, Override(acc, rules[0]))
    else MatchRules(rules[1..], ctx, acc)
  }

  /** The result of `Match`: an error when no symbols or no vowels were found. */
  function MatchOutcome(e: Evaluated): (r: Result<MatchResult>)
    ensures r.Error? <==> e.symbols.None? || e.vowels.None?
    ensures r.Ok? ==> r.value.symbols == e.symbols.value && r.value.vowels == e.vowels.value
  {
    if e.symbols.None? then Error("No symbols could be matched")
    else if e.vowels.None? then Error("No vowels could be matched")
    else Ok(MatchResult(e.emphasize, e.prefixVowel, e.symbols.value, e.vowels.value))
  }

  class ConjugationRuleMatcher {
    const doesSuffixBeginWithSukun: bool
    var evaluated: Evaluated

    constructor(doesSuffixBeginWithSukun: bool)
      ensures this.doesSuffixBeginWithSukun == doesSuffixBeginWithSukun
      ensures evaluated == NothingEvaluated
    {
      this.doesSuffixBeginWithSukun := doesSuffixBeginWithSukun;
      evaluated := NothingEvaluated;
    }

    function Context(stemData: StemData, params: ConjugationParams, longVowelSuffix: bool): MatchContext
    {
      MatchContext(stemData, params, longVowelSuffix, doesSuffixBeginWithSukun)
    }

    method Match(rules: seq<Rule>, stemData: StemData, params: ConjugationParams, longVowelSuffix: bool)
      returns (r: Result<MatchResult>)
      modifies this
      ensures evaluated == MatchRules(rules, Context(stemData, params, longVowelSuffix), old(evaluated))
      ensures r == MatchOutcome(evaluated)
    {
      MatchAgainstRules(rules, stemData, params, longVowelSuffix);
      if evaluated.symbols.None? {
        return Error("No symbols could be matched");
      }
      if evaluated.vowels.None? {
        return Error("No vowels could be matched");
      }
      return Ok(MatchResult(evaluated.emphasize, evaluated.prefixVowel, evaluated.symbols.value, evaluated.vowels.value));
    }

    method MatchAgainstRules(rules: seq<Rule>, stemData: StemData, params: ConjugationParams, longVowelSuffix: bool)
      modifies this
      ensures evaluated == MatchRules(rules, Context(stemData, params, longVowelSuffix), old(evaluated))
      decreases rules
    {
      var ctx := Context(stemData, params, longVowelSuffix);
      var i := 0;
      while i < |rules|
        invariant 0 <= i <= |rules|
        invariant evaluated == old(evaluated)
        invariant MatchRules(rules, ctx, evaluated) == MatchRules(rules[i..], ctx, evaluated)
      {
        var rule := rules[i];
        if DoConditionsMatch(rule.conditions, ctx) {
          evaluated := Override(evaluated, rule);
          if rule.children != [] {
            MatchAgainstRules(rule.children, stemData, params, longVowelSuffix);
          }
          return;
        }
        assert rules[i..][1..] == rules[i + 1..];
        i := i + 1;
      }
    }
  }

  /** A rule with no conditions matches every parameter set. */
  lemma EmptyConditionsMatch(ctx: MatchContext)
    ensures DoConditionsMatch(NoConditions, ctx)
  {
  }

  /** A mood condition never matches in the perfect tense. */
  lemma MoodNeverMatchesPerfect(c: Conditions, ctx: MatchContext)
    requires c.mood.Some? && ctx.params.tense == Perfect
    ensures !DoConditionsMatch(c, ctx)
  {
  }

  /** A stem-parameter condition only matches stem 1 with that parameterization. */
  lemma StemParametersOnlyStem1(c: Conditions, ctx: MatchContext)
    requires c.stemParameters.Some? && DoConditionsMatch(c, ctx)
    ensures ctx.stemData.stem == 1 && ctx.stemData.stemParameterization == c.stemParameters.value
  {
  }

  /** Only the first matching rule of a level is applied: the rules after it
      are never consulted, those before it change nothing. */
  lemma {:induction false} FirstMatchWins(rules: seq<Rule>, k: nat, ctx: MatchContext, acc: Evaluated)
    requires k < |rules| && DoConditionsMatch(rules[k].conditions, ctx)
    requires forall j :: 0 <= j < k ==> !DoConditionsMatch(rules[j].conditions, ctx)
    ensures MatchRules(rules, ctx, acc) == MatchRules([rules[k]], ctx, acc)
  {
    if k > 0 {
      FirstMatchWins(rules[1..], k - 1, ctx, acc);
    }
  }

  /** The first matching rule of a level decides the walk: it overrides the
      state, and the walk continues in its children. */
  lemma FirstMatchDescends(rules: seq<Rule>, k: nat, ctx: MatchContext, acc: Evaluated)
    requires k < |rules| && DoConditionsMatch(rules[k].conditions, ctx)
    requires forall j :: 0 <= j < k ==> !DoConditionsMatch(rules[j].conditions, ctx)
    ensures MatchRules(rules, ctx, acc) == MatchRules(rules[k].children, ctx, Override(acc, rules[k]))
  {
    FirstMatchWins(rules, k, ctx, acc);
  }

  /** When the first matching rule has no children, the walk ends with its
      fields over the prior state. */
  lemma FirstMatchIsLeaf(rules: seq<Rule>, k: nat, ctx: MatchContext, acc: Evaluated)
    requires k < |rules| && DoConditionsMatch(rules[k].conditions, ctx) && rules[k].children == []
    requires forall j :: 0 <= j < k ==> !DoConditionsMatch(rules[j].conditions, ctx)
    ensures MatchRules(rules, ctx, acc) == Override(acc, rules[k])
  {
    FirstMatchDescends(rules, k, ctx, acc);
  }

  /** When no rule matches, the state is left as it was. */
  lemma {:induction false} NoMatchKeepsState(rules: seq<Rule>, ctx: MatchContext, acc: Evaluated)
    requires forall j :: 0 <= j < |rules| ==> !DoConditionsMatch(rules[j].conditions, ctx)
    ensures MatchRules(rules, ctx, acc) == acc
  {
    if rules != [] {
      NoMatchKeepsState(rules[1..], ctx, acc);
    }
  }

  /** The four fields a rule may set. */
  datatype Field = EmphasizeField | PrefixVowelField | SymbolsField | VowelsField

  predicate Sets(rule: Rule, f: Field)
  {
    match f
    case EmphasizeField => rule.emphasize.Some?
    case PrefixVowelField => rule.prefixVowel.Some?
    case SymbolsField => rule.symbols.Some?
    case VowelsField => rule.vowels.Some?
  }

  /** A field that no rule of the tree sets. */
  predicate NoRuleSets(rules: seq<Rule>, f: Field)
    decreases rules
  {
    forall j :: 0 <= j < |rules| ==>
      !Sets(rules[j], f) && NoRuleSets(rules[j].children, f)
  }

  /** A field that no rule of the tree sets keeps its prior value, however
      deep the walk goes. */
  lemma {:induction false} AbsentFieldsKept(rules: seq<Rule>, f: Field, ctx: MatchContext, acc: Evaluated)
    requires NoRuleSets(rules, f)
    ensures var r := MatchRules(rules, ctx, acc);
      && (f == EmphasizeField ==> r.emphasize == acc.emphasize)
      && (f == PrefixVowelField ==> r.prefixVowel == acc.prefixVowel)
      && (f == SymbolsField ==> r.symbols == acc.symbols)
      && (f == VowelsField ==> r.vowels == acc.vowels)
    decreases rules
  {
    if rules != [] {
      if DoConditionsMatch(rules[0].conditions, ctx) {
        AbsentFieldsKept(rules[0].children, f, ctx, Override(acc, rules[0]));
      } else {
        assert forall j :: 0 <= j < |rules[1..]| ==> rules[1..][j] == rules[j + 1];
        AbsentFieldsKept(rules[1..], f, ctx, acc);
      }
    }
  }

  /** A table whose first rule matches and whose children set no symbols
      yields that rule's symbols. */
  lemma TopRuleSetsSymbols(rules: seq<Rule>, ctx: MatchContext, acc: Evaluated)
    requires |rules| >= 1 && DoConditionsMatch(rules[0].conditions, ctx) && rules[0].symbols.Some?
    requires NoRuleSets(rules[0].children, SymbolsField)
    ensures MatchRules(rules, ctx, acc).symbols == rules[0].symbols
  {
    FirstMatchDescends(rules, 0, ctx, acc);
    AbsentFieldsKept(rules[0].children, SymbolsField, ctx, Override(acc, rules[0]));
  }

  /** A field set by a matched child overrides the one its parent set. */
  lemma DeeperOverrides(parent: Rule, child: Rule, ctx: MatchContext, acc: Evaluated)
    requires parent.children == [child]
    requires DoConditionsMatch(parent.conditions, ctx) && DoConditionsMatch(child.conditions, ctx)
    requires child.children == []
    ensures var r := MatchRules([parent], ctx, acc);
      r.symbols == Or(child.symbols, Or(parent.symbols, acc.symbols))
      && r.vowels == Or(child.vowels, Or(parent.vowels, acc.vowels))
      && r.emphasize == Or(child.emphasize, Or(parent.emphasize, acc.emphasize))
      && r.prefixVowel == Or(child.prefixVowel, Or(parent.prefixVowel, acc.prefixVowel))
  {
    var afterParent := Override(acc, parent);
    assert MatchRules([parent], ctx, acc) == MatchRules([child], ctx, afterParent);
    assert MatchRules([child], ctx, afterParent) == MatchRules([], ctx, Override(afterParent, child));
  }
}
