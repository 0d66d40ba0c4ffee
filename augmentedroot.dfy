/** The augmented root of a Modern Standard Arabic verb form: the radicals
    and the letters a stem adds around them (infixes, prefixes, a hamzat
    al-wasl), each symbol with its letter and tashkil. The later stages set
    tashkil on named symbols and ask for vowel insertions and assimilations;
    only the tashkil updates change `symbols` here, every edit is logged in
    order in `edits`. */
module AugmentedRoots {
  import opened Wrappers
  import opened Definitions
  import opened VerbRoot

  datatype SymbolName = R1 | R2 | R3 | R4 | Infix | Prefix1 | Prefix2 | Postfix
  {
    predicate IsRadical() { R1? || R2? || R3? || R4? }
  }

  /** A symbol as a root-augmentation table lists it: a radical (letter and
      tashkil filled in later) or an added letter with its tashkil. */
  datatype SymbolInput = SymbolInput(symbolName: SymbolName, letter: Option<Letter>, tashkil: Option<Tashkil>)

  datatype RootSymbol = RootSymbol(symbolName: SymbolName, letter: Letter, tashkil: Option<Tashkil>)

  /** The edits the conjugation stages make on an augmented root. `radical`
      counts from 1. */
  datatype RootEdit =
    | SetTashkil(name: SymbolName, tashkil: Option<Tashkil>)
    | InsertLongVowel(radical: nat, letter: Letter)
    | InsertShortVowel(radical: nat, vowel: Tashkil)
    | AssimilateRadical(radical: nat)
    | ReplaceRadical(radical: nat, letter: Letter, vowel: Tashkil)

  /** The symbol name of radical `i`. */
  function RadicalName(i: nat): (n: SymbolName)
    requires 1 <= i <= 4
    ensures n in {R1, R2, R3, R4}
  {
    if i == 1 then R1 else if i == 2 then R2 else if i == 3 then R3 else R4
  }

  lemma RadicalNamesDistinct(i: nat, j: nat)
    requires 1 <= i <= 4 && 1 <= j <= 4
    ensures RadicalName(i) == RadicalName(j) <==> i == j
  {
  }

  /** `symbols` with the tashkil of every symbol called `name` replaced. */
  function WithTashkil(symbols: seq<RootSymbol>, name: SymbolName, t: Option<Tashkil>): (r: seq<RootSymbol>)
    ensures |r| == |symbols|
    ensures forall i :: 0 <= i < |r| ==>
      r[i].symbolName == symbols[i].symbolName && r[i].letter == symbols[i].letter
      && r[i].tashkil == (if symbols[i].symbolName == name then t else symbols[i].tashkil)
  {
    if symbols == [] then []
    else
      [if symbols[0].symbolName == name then symbols[0].(tashkil := t) else symbols[0]]
      + WithTashkil(symbols[1..], name, t)
  }

  /** The effect of an edit on the symbols: a tashkil update changes the named
      symbols; the other edits are not modelled on the symbols. */
  function ApplyEdit(symbols: seq<RootSymbol>, e: RootEdit): seq<RootSymbol>
  {
    if e.SetTashkil? then WithTashkil(symbols, e.name, e.tashkil) else symbols
  }

  function ApplyEdits(symbols: seq<RootSymbol>, edits: seq<RootEdit>): seq<RootSymbol>
    decreases |edits|
  {
    if edits == [] then symbols else ApplyEdits(ApplyEdit(symbols, edits[0]), edits[1..])
  }

  lemma {:induction false} ApplyEditsAppend(symbols: seq<RootSymbol>, a: seq<RootEdit>, b: seq<RootEdit>)
    ensures ApplyEdits(symbols, a + b) == ApplyEdits(ApplyEdits(symbols, a), b)
    decreases |a|
  {
    if a != [] {
      assert (a + b)[1..] == a[1..] + b;
      ApplyEditsAppend(ApplyEdit(symbols, a[0]), a[1..], b);
    } else {
      assert a + b == b;
    }
  }

  lemma ApplyEditsSnoc(symbols: seq<RootSymbol>, a: seq<RootEdit>, e: RootEdit)
    ensures ApplyEdits(symbols, a + [e]) == ApplyEdit(ApplyEdits(symbols, a), e)
  {
    ApplyEditsAppend(symbols, a, [e]);
    assert [e][1..] == [];
  }

  /** The names the tashkil updates of `edits` touch. */
  function TouchedNames(edits: seq<RootEdit>): set<SymbolName>
    decreases |edits|
  {
    if edits == [] then {}
    else (if edits[0].SetTashkil? then {edits[0].name} else {}) + TouchedNames(edits[1..])
  }

  lemma {:induction false} TouchedNamesAppend(a: seq<RootEdit>, b: seq<RootEdit>)
    ensures TouchedNames(a + b) == TouchedNames(a) + TouchedNames(b)
    decreases |a|
  {
    if a == [] {
      assert a + b == b;
    } else {
      assert (a + b)[1..] == a[1..] + b;
      TouchedNamesAppend(a[1..], b);
    }
  }

  lemma TouchedNamesOne(e: RootEdit)
    ensures TouchedNames([e]) == if e.SetTashkil? then {e.name} else {}
  {
    assert [e][1..] == [];
  }

  /** Edits keep the length, every name and letter, and the tashkil of every
      symbol whose name they do not touch. */
  lemma {:induction false} ApplyEditsFrame(symbols: seq<RootSymbol>, edits: seq<RootEdit>)
    ensures |ApplyEdits(symbols, edits)| == |symbols|
    ensures forall i :: 0 <= i < |symbols| ==>
      ApplyEdits(symbols, edits)[i].symbolName == symbols[i].symbolName
      && ApplyEdits(symbols, edits)[i].letter == symbols[i].letter
      && (symbols[i].symbolName !in TouchedNames(edits) ==> ApplyEdits(symbols, edits)[i].tashkil == symbols[i].tashkil)
    decreases |edits|
  {
    if edits != [] {
      ApplyEditsFrame(ApplyEdit(symbols, edits[0]), edits[1..]);
    }
  }

  /** The first symbol called `name`. */
  function Find(symbols: seq<RootSymbol>, name: SymbolName): (r: Option<RootSymbol>)
    ensures r.Some? <==> exists i :: 0 <= i < |symbols| && symbols[i].symbolName == name
    ensures r.Some? ==> r.value in symbols && r.value.symbolName == name
  {
    if symbols == [] then None
    else if symbols[0].symbolName == name then Some(symbols[0])
    else
      var r := Find(symbols[1..], name);
      assert forall i :: 1 <= i < |symbols| ==> symbols[i] == symbols[1..][i - 1];
      r
  }

  class AugmentedRoot {
    const rootType: RootType
    var symbols: seq<RootSymbol>
    var edits: seq<RootEdit>

    constructor(rootType: RootType, symbols: seq<RootSymbol>)
      ensures this.rootType == rootType && this.symbols == symbols && this.edits == []
    {
      this.rootType := rootType;
      this.symbols := symbols;
      this.edits := [];
    }

    function Radical(i: nat): Option<RootSymbol>
      requires 1 <= i <= 4
      reads this
    {
      Find(symbols, RadicalName(i))
    }

    /** Performs one edit. */
    method Perform(e: RootEdit)
      modifies this
      ensures symbols == ApplyEdit(old(symbols), e)
      ensures edits == old(edits) + [e]
    {
      symbols := ApplyEdit(symbols, e);
      edits := edits + [e];
    }

    method ApplyTashkil(name: SymbolName, t: Option<Tashkil>)
      modifies this
      ensures symbols == WithTashkil(old(symbols), name, t)
      ensures edits == old(edits) + [SetTashkil(name, t)]
    {
      Perform(SetTashkil(name, t));
    }

    method ApplyRadicalTashkil(i: nat, t: Option<Tashkil>)
      requires 1 <= i <= 4
      modifies this
      ensures symbols == WithTashkil(old(symbols), RadicalName(i), t)
      ensures edits == old(edits) + [SetTashkil(RadicalName(i), t)]
    {
      Perform(SetTashkil(RadicalName(i), t));
    }
  }

  /** Sets the tashkil of R1 and R2. */
  method ApplyTwo(root: AugmentedRoot, t1: Option<Tashkil>, t2: Option<Tashkil>)
    modifies root
    ensures root.symbols == ApplyEdits(old(root.symbols), [SetTashkil(R1, t1), SetTashkil(R2, t2)])
    ensures root.edits == old(root.edits) + [SetTashkil(R1, t1), SetTashkil(R2, t2)]
  {
    ghost var before := root.symbols;
    root.ApplyRadicalTashkil(1, t1);
    ApplyEditsSnoc(before, [], SetTashkil(R1, t1));
    root.ApplyRadicalTashkil(2, t2);
    ApplyEditsSnoc(before, [SetTashkil(R1, t1)], SetTashkil(R2, t2));
  }

  /** Sets the tashkil of R1, R2 and R3. */
  method ApplyThree(root: AugmentedRoot, t1: Option<Tashkil>, t2: Option<Tashkil>, t3: Option<Tashkil>)
    modifies root
    ensures root.symbols == ApplyEdits(old(root.symbols), [SetTashkil(R1, t1), SetTashkil(R2, t2), SetTashkil(R3, t3)])
    ensures root.edits == old(root.edits) + [SetTashkil(R1, t1), SetTashkil(R2, t2), SetTashkil(R3, t3)]
  {
    ghost var before := root.symbols;
    ApplyTwo(root, t1, t2);
    root.ApplyRadicalTashkil(3, t3);
    ApplyEditsSnoc(before, [SetTashkil(R1, t1), SetTashkil(R2, t2)], SetTashkil(R3, t3));
  }
}
