/** Root augmentation for Modern Standard Arabic stems 1 to 10: the symbols a
    stem places around the radicals. */
module MsaRootAugmentation {
  import opened Wrappers
  import opened Definitions
  import opened VerbRoot
  import opened AugmentedRoots

  function Radical(name: SymbolName): SymbolInput { SymbolInput(name, None, None) }
  function Added(name: SymbolName, letter: Letter, t: Tashkil): SymbolInput { SymbolInput(name, Some(letter), Some(t)) }

  /** Perfect passive forms take Waw or Dhamma where the others take Alef or Fatha. */
  predicate PerfectPassive(params: ConjugationParams) { params.tense == Perfect && params.voice == Passive }

  /** `AugmentRoot`: the symbols of stem `stem` for `root`, or none for a stem
      and root type the tables do not cover. */
  function AugmentRoot(stem: int, root: VerbRoot, params: ConjugationParams): (r: Option<seq<SymbolInput>>)
    ensures r.Some? <==> Supported(stem, root.Type())
  {
    var t := root.Type();
    match stem
    case 1 => Some(if t == Quadriliteral then [Radical(R1), Radical(R2), Radical(R3), Radical(R4)]
                   else [Radical(R1), Radical(R2), Radical(R3)])
    case 2 => Some(Stem2(root))
    case 3 => if t != Quadriliteral then Some(Stem3(params)) else None
    case 4 => if t == Quadriliteral || t != SecondConsonantDoubled then Some(Stem4(root, params)) else None
    case 5 => if t != Quadriliteral then Some(Stem5(root, params)) else None
    case 6 => if t in {InitialWeak, FinalWeak, MiddleWeak, Regular} then Some(Stem6(params)) else None
    case 7 => if t in {FinalWeak, SecondConsonantDoubled, Regular} then Some(Stem7(params)) else None
    case 8 => if t in {InitialWeak, FinalWeak, RootType.HamzaOnR1, MiddleWeak, Regular} then Some(Stem8(params)) else None
    case 9 => if t == Regular then Some([Radical(R1), Radical(R2), Added(Infix, root.r3(), Tashkil.Sukun), Radical(R3)]) else None
    case 10 => if t !in {Quadriliteral, SecondConsonantDoubled} then Some(Stem10(params)) else None
    case _ => None
  }

  function Stem2(root: VerbRoot): seq<SymbolInput>
  {
    if root.Type() == Quadriliteral then [Added(Prefix1, Ta, Fatha), Radical(R1), Radical(R2), Radical(R3), Radical(R4)]
    else [Radical(R1), Added(Infix, root.r2(), Tashkil.Sukun), Radical(R2), Radical(R3)]
  }

  /** Stem 3 covers every triliteral root type. */
  function Stem3(params: ConjugationParams): seq<SymbolInput>
  {
    [Radical(R1), Added(Infix, if PerfectPassive(params) then Waw else Alef, LongVowelMarker), Radical(R2), Radical(R3)]
  }

  /** Stem 4 covers the quadriliteral and every triliteral type but the
      geminate; the triliterals get the hamza Postfix in the perfect. */
  function Stem4(root: VerbRoot, params: ConjugationParams): seq<SymbolInput>
  {
    if root.Type() == Quadriliteral then [Radical(R1), Radical(R2), Radical(R3), Added(Infix, root.r4(), Tashkil.Sukun), Radical(R4)]
    else
      var x := [Radical(R1), Radical(R2), Radical(R3)];
      if params.tense == Perfect then [Added(Postfix, Hamza, if params.voice == Active then Fatha else Dhamma)] + x
      else x
  }

  function Stem5(root: VerbRoot, params: ConjugationParams): seq<SymbolInput>
  {
    [Added(Prefix1, Ta, if PerfectPassive(params) then Dhamma else Fatha), Radical(R1),
     Added(Infix, root.r2(), Tashkil.Sukun), Radical(R2), Radical(R3)]
  }

  function Stem6(params: ConjugationParams): seq<SymbolInput>
  {
    [Added(Prefix1, Ta, if PerfectPassive(params) then Dhamma else Fatha), Radical(R1),
     Added(Infix, if PerfectPassive(params) then Waw else Alef, LongVowelMarker), Radical(R2), Radical(R3)]
  }

  function Stem7(params: ConjugationParams): seq<SymbolInput>
  {
    var x := [Added(Prefix1, Nun, Tashkil.Sukun), Radical(R1), Radical(R2), Radical(R3)];
    if params.tense == Perfect then [Added(Postfix, Alef, if params.voice == Active then Kasra else Dhamma)] + x
    else x
  }

  function Stem8(params: ConjugationParams): seq<SymbolInput>
  {
    var x := [Radical(R1), Added(Infix, Ta, if PerfectPassive(params) then Dhamma else Fatha), Radical(R2), Radical(R3)];
    if params.tense == Perfect then [Added(Postfix, Alef, if params.voice == Active then Kasra else Dhamma)] + x
    else x
  }

  function Stem10(params: ConjugationParams): seq<SymbolInput>
  {
    [Added(Prefix1, Siin, Tashkil.Sukun), Added(Prefix2, Ta, if PerfectPassive(params) then Dhamma else Fatha),
     Radical(R1), Radical(R2), Radical(R3)]
  }

  /** The stem and root-type pairs the tables cover, as a table of its own. */
  predicate Supported(stem: int, t: RootType)
  {
    match stem
    case 1 => true
    case 2 => true
    case 3 => t != Quadriliteral
    case 4 => t != SecondConsonantDoubled
    case 5 => t != Quadriliteral
    case 6 => t in {InitialWeak, FinalWeak, MiddleWeak, Regular}
    case 7 => t in {FinalWeak, SecondConsonantDoubled, Regular}
    case 8 => t in {InitialWeak, FinalWeak, RootType.HamzaOnR1, MiddleWeak, Regular}
    case 9 => t == Regular
    case 10 => t !in {Quadriliteral, SecondConsonantDoubled}
    case _ => false
  }

  /** The radical symbols of a list, in order. */
  function Radicals(s: seq<SymbolInput>): seq<SymbolName>
  {
    if s == [] then []
    else (if s[0].symbolName.IsRadical() then [s[0].symbolName] else []) + Radicals(s[1..])
  }

  lemma {:induction false} RadicalsAppend(a: seq<SymbolInput>, b: seq<SymbolInput>)
    ensures Radicals(a + b) == Radicals(a) + Radicals(b)
    decreases |a|
  {
    if a == [] {
      assert a + b == b;
    } else {
      assert (a + b)[0] == a[0];
      assert (a + b)[1..] == a[1..] + b;
      RadicalsAppend(a[1..], b);
      assert Radicals(a + b) == RadicalOf(a[0]) + (Radicals(a[1..]) + Radicals(b));
      assert Radicals(a) == RadicalOf(a[0]) + Radicals(a[1..]);
    }
  }

  /** The radical a single symbol contributes, if any. */
  function RadicalOf(x: SymbolInput): seq<SymbolName>
  {
    if x.symbolName.IsRadical() then [x.symbolName] else []
  }

  /** One step of `Radicals` on the suffix from `k`. */
  lemma RadicalsStep(s: seq<SymbolInput>, k: nat)
    requires k < |s|
    ensures Radicals(s[k..]) == RadicalOf(s[k]) + Radicals(s[k + 1..])
  {
    assert s[k..][1..] == s[k + 1..];
  }

  /** `Radicals` of a list of three symbols, symbol by symbol. */
  lemma RadicalsOfThree(s: seq<SymbolInput>)
    requires |s| == 3
    ensures Radicals(s) == RadicalOf(s[0]) + RadicalOf(s[1]) + RadicalOf(s[2])
  {
    assert Radicals(s[3..]) == [];
    RadicalsStep(s, 2);
    RadicalsStep(s, 1);
    RadicalsStep(s, 0);
    assert s[0..] == s;
  }

  /** `Radicals` of a list of four symbols, symbol by symbol. */
  lemma RadicalsOfFour(s: seq<SymbolInput>)
    requires |s| == 4
    ensures Radicals(s) == RadicalOf(s[0]) + RadicalOf(s[1]) + RadicalOf(s[2]) + RadicalOf(s[3])
  {
    RadicalsOfThree(s[1..]);
    RadicalsStep(s, 0);
    assert s[0..] == s;
  }

  /** `Radicals` of a list of five symbols, symbol by symbol. */
  lemma RadicalsOfFive(s: seq<SymbolInput>)
    requires |s| == 5
    ensures Radicals(s) == RadicalOf(s[0]) + RadicalOf(s[1]) + RadicalOf(s[2]) + RadicalOf(s[3]) + RadicalOf(s[4])
  {
    var x0, x1, x2, x3, x4 := RadicalOf(s[0]), RadicalOf(s[1]), RadicalOf(s[2]), RadicalOf(s[3]), RadicalOf(s[4]);
    assert Radicals(s[5..]) == [];
    RadicalsStep(s, 4);
    assert Radicals(s[4..]) == x4;
    RadicalsStep(s, 3);
    RadicalsStep(s, 2);
    RadicalsStep(s, 1);
    RadicalsStep(s, 0);
    assert s[0..] == s;
    assert Radicals(s) == x0 + (x1 + (x2 + (x3 + x4)));
    ConcatFive(x0, x1, x2, x3, x4);
  }

  lemma ConcatFive(x0: seq<SymbolName>, x1: seq<SymbolName>, x2: seq<SymbolName>, x3: seq<SymbolName>, x4: seq<SymbolName>)
    ensures x0 + (x1 + (x2 + (x3 + x4))) == x0 + x1 + x2 + x3 + x4
  {
  }

  /** R1 to R3, and R4 for a quadriliteral. */
  function RootRadicals(root: VerbRoot): (r: seq<SymbolName>)
    ensures |r| == |root.RadicalsAsSeparateLetters()|
  {
    if root.Type() == Quadriliteral then [R1, R2, R3, R4] else [R1, R2, R3]
  }

  lemma Stem2Radicals(root: VerbRoot)
    ensures Radicals(Stem2(root)) == RootRadicals(root)
  {
    var s := Stem2(root);
    if |s| == 4 { RadicalsOfFour(s); } else { RadicalsOfFive(s); }
  }

  lemma Stem3Radicals(params: ConjugationParams)
    ensures Radicals(Stem3(params)) == [R1, R2, R3]
  {
    RadicalsOfFour(Stem3(params));
  }

  lemma Stem4Radicals(root: VerbRoot, params: ConjugationParams)
    ensures Radicals(Stem4(root, params)) == RootRadicals(root)
  {
    var s := Stem4(root, params);
    if |s| == 3 { RadicalsOfThree(s); } else if |s| == 4 { RadicalsOfFour(s); } else { RadicalsOfFive(s); }
  }

  lemma Stem5Radicals(root: VerbRoot, params: ConjugationParams)
    ensures Radicals(Stem5(root, params)) == [R1, R2, R3]
  {
    RadicalsOfFive(Stem5(root, params));
  }

  lemma Stem6Radicals(params: ConjugationParams)
    ensures Radicals(Stem6(params)) == [R1, R2, R3]
  {
    RadicalsOfFive(Stem6(params));
  }

  lemma Stem7Radicals(params: ConjugationParams)
    ensures Radicals(Stem7(params)) == [R1, R2, R3]
  {
    var s := Stem7(params);
    if |s| == 4 { RadicalsOfFour(s); } else { RadicalsOfFive(s); }
  }

  lemma Stem8Radicals(params: ConjugationParams)
    ensures Radicals(Stem8(params)) == [R1, R2, R3]
  {
    var s := Stem8(params);
    if |s| == 4 { RadicalsOfFour(s); } else { RadicalsOfFive(s); }
  }

  lemma Stem10Radicals(params: ConjugationParams)
    ensures Radicals(Stem10(params)) == [R1, R2, R3]
  {
    RadicalsOfFive(Stem10(params));
  }

  /** Every stem keeps the radicals in order and adds none: R1 to R3, and R4
      for a quadriliteral, one per letter of `RadicalsAsSeparateLetters`. */
  lemma RadicalsInOrder(stem: int, root: VerbRoot, params: ConjugationParams)
    requires AugmentRoot(stem, root, params).Some?
    ensures Radicals(AugmentRoot(stem, root, params).value) == RootRadicals(root)
    ensures |Radicals(AugmentRoot(stem, root, params).value)| == |root.RadicalsAsSeparateLetters()|
  {
    var s := AugmentRoot(stem, root, params).value;
    if stem == 1 {
      if |s| == 3 { RadicalsOfThree(s); } else { RadicalsOfFour(s); }
    } else if stem == 2 {
      Stem2Radicals(root);
    } else if stem == 3 {
      Stem3Radicals(params);
    } else if stem == 4 {
      Stem4Radicals(root, params);
    } else if stem == 5 {
      Stem5Radicals(root, params);
    } else if stem == 6 {
      Stem6Radicals(params);
    } else if stem == 7 {
      Stem7Radicals(params);
    } else if stem == 8 {
      Stem8Radicals(params);
    } else if stem == 9 {
      RadicalsOfFour(s);
    } else {
      Stem10Radicals(params);
    }
  }

  /** A triliteral stem 2 doubles r2: an Infix copy of it with sukun sits
      between R1 and R2. */
  lemma Stem2Infix(root: VerbRoot, params: ConjugationParams)
    requires root.Type() != Quadriliteral
    ensures AugmentRoot(2, root, params) == Some([Radical(R1), Added(Infix, root.r2(), Tashkil.Sukun), Radical(R2), Radical(R3)])
  {
  }

  /** Stems 3 and 6 lengthen with a Waw infix in the perfect passive and with
      an Alef infix otherwise. */
  lemma LongInfix(stem: int, root: VerbRoot, params: ConjugationParams)
    requires stem in {3, 6} && AugmentRoot(stem, root, params).Some?
    ensures var s := AugmentRoot(stem, root, params).value;
      var k := if stem == 3 then 1 else 2;
      |s| > k && s[k] == Added(Infix, if params.tense == Perfect && params.voice == Passive then Waw else Alef, LongVowelMarker)
  {
  }

  /** Stems 4, 7 and 8 start with a Postfix symbol exactly in the perfect tense. */
  lemma PostfixOnlyInPerfect(stem: int, root: VerbRoot, params: ConjugationParams)
    requires stem in {4, 7, 8} && root.Type() != Quadriliteral && AugmentRoot(stem, root, params).Some?
    ensures var s := AugmentRoot(stem, root, params).value;
      |s| > 0 && (s[0].symbolName == Postfix <==> params.tense == Perfect)
      && forall i :: 1 <= i < |s| ==> s[i].symbolName != Postfix
  {
  }

  /** Stem 10 puts Siin with sukun and then Ta in front of R1. */
  lemma Stem10Prefix(root: VerbRoot, params: ConjugationParams)
    requires AugmentRoot(10, root, params).Some?
    ensures var s := AugmentRoot(10, root, params).value;
      |s| == 5 && s[0] == Added(Prefix1, Siin, Tashkil.Sukun) && s[1].symbolName == Prefix2 && s[1].letter == Some(Ta)
      && s[2] == Radical(R1)
  {
  }
}
