/** A verb root (its radicals as one string) and its classification into root
    types, which selects every later conjugation table. */
module VerbRoot {
  import opened Definitions

  datatype RootType =
    | Regular
    | InitialWeak      // first radical is Waw or Ya
    | MiddleWeak       // second radical is Waw or Ya
    | FinalWeak        // third radical is Waw or Ya
    | SecondConsonantDoubled
    | HamzaOnR1        // first radical is Hamza
    | Quadriliteral
    | DoublyWeak_WawOnR1_WawOrYaOnR3

  predicate IsWeakLetter(c: Letter) { c == Waw || c == Ya }

  datatype VerbRoot = VerbRoot(radicals: string)
  {
    /** The radical at position `i`, or `NoLetter` past the end (`charAt`). */
    function R(i: nat): Letter { if i < |radicals| then radicals[i] else NoLetter }
    function r1(): Letter { R(0) }
    function r2(): Letter { R(1) }
    function r3(): Letter { R(2) }
    function r4(): Letter { R(3) }

    /** The root type, decided by the first of these tests that fires:
        four radicals, r2 = r3, Waw then Waw/Ya, weak r1, weak r2, weak r3, Hamza r1. */
    function Type(): (t: RootType)
      ensures t == Quadriliteral <==> |radicals| == 4
      ensures t == SecondConsonantDoubled <==> |radicals| != 4 && r2() == r3()
      ensures t == DoublyWeak_WawOnR1_WawOrYaOnR3 <==>
        |radicals| != 4 && r2() != r3() && r1() == Waw && IsWeakLetter(r3())
      ensures t == InitialWeak <==>
        |radicals| != 4 && r2() != r3() && IsWeakLetter(r1()) && !(r1() == Waw && IsWeakLetter(r3()))
      ensures t == MiddleWeak <==>
        |radicals| != 4 && r2() != r3() && !IsWeakLetter(r1()) && IsWeakLetter(r2()) && !IsWeakLetter(r3())
      ensures t == FinalWeak <==>
        |radicals| != 4 && r2() != r3() && !IsWeakLetter(r1()) && IsWeakLetter(r3())
      ensures t == RootType.HamzaOnR1 <==>
        |radicals| != 4 && r2() != r3() && r1() == Hamza && !IsWeakLetter(r2()) && !IsWeakLetter(r3())
      ensures t == Regular <==>
        |radicals| != 4 && r2() != r3() && r1() != Hamza
        && !IsWeakLetter(r1()) && !IsWeakLetter(r2()) && !IsWeakLetter(r3())
    {
      if |radicals| == 4 then Quadriliteral
      else if r2() == r3() then SecondConsonantDoubled
      else if r1() == Waw && (r3() == Waw || r3() == Ya) then DoublyWeak_WawOnR1_WawOrYaOnR3
      else if r1() == Waw || r1() == Ya then InitialWeak
      else if r2() == Waw || r2() == Ya then
        (if r3() == Waw || r3() == Ya then FinalWeak else MiddleWeak)
      else if r3() == Waw || r3() == Ya then FinalWeak
      else if r1() == Hamza then RootType.HamzaOnR1
      else Regular
    }

    /** The radicals one by one: four for a quadriliteral, otherwise three,
        the doubled one repeated for a geminate root. */
    function RadicalsAsSeparateLetters(): (ls: seq<Letter>)
      ensures |ls| == (if Type() == Quadriliteral then 4 else 3)
      ensures ls[0] == r1() && ls[1] == r2()
      ensures ls[2] == (if Type() == SecondConsonantDoubled then r2() else r3())
      ensures Type() == Quadriliteral ==> ls[3] == r4()
    {
      match Type()
      case Quadriliteral => [r1(), r2(), r3(), r4()]
      case SecondConsonantDoubled => [r1(), r2(), r2()]
      case _ => [r1(), r2(), r3()]
    }

    /** The textual form of radical `i`: one character, or none past the end. */
    function RadicalText(i: nat): string
    {
      if i < |radicals| then [radicals[i]] else []
    }

    /** The radicals joined by '-': for a root of at least three radicals,
        its separate letters with a dash between each two. */
    function ToString(): (s: string)
      ensures 3 <= |radicals| ==>
        var ls := RadicalsAsSeparateLetters();
        s == if |ls| == 4 then [ls[0], '-', ls[1], '-', ls[2], '-', ls[3]]
             else [ls[0], '-', ls[1], '-', ls[2]]
    {
      var pieces := if Type() == Quadriliteral then [RadicalText(0), RadicalText(1), RadicalText(2), RadicalText(3)]
        else if Type() == SecondConsonantDoubled then [RadicalText(0), RadicalText(1), RadicalText(1)]
        else [RadicalText(0), RadicalText(1), RadicalText(2)];
      if 3 <= |radicals| then
        var ls := RadicalsAsSeparateLetters();
        if |ls| == 4 then JoinOfFour(ls[0], ls[1], ls[2], ls[3]); Join(pieces, "-")
        else JoinOfThree(ls[0], ls[1], ls[2]); Join(pieces, "-")
      else Join(pieces, "-")
    }

    function DeriveDeducedVerbConjugationScheme(): (v: VerbType)
      ensures v == Sound <==> Type() in {Quadriliteral, Regular}
      ensures v == Defective <==> Type() == FinalWeak
      ensures v == Hollow <==> Type() == MiddleWeak
      ensures v == Geminate <==> Type() == SecondConsonantDoubled
      ensures v == Assimilated <==> Type() == InitialWeak
      ensures v == AssimilatedAndDefective <==> Type() == DoublyWeak_WawOnR1_WawOrYaOnR3
      ensures v == VerbType.HamzaOnR1 <==> Type() == RootType.HamzaOnR1
    {
      match Type()
      case DoublyWeak_WawOnR1_WawOrYaOnR3 => AssimilatedAndDefective
      case InitialWeak => Assimilated
      case FinalWeak => Defective
      case HamzaOnR1 => VerbType.HamzaOnR1
      case MiddleWeak => Hollow
      case Quadriliteral => Sound
      case Regular => Sound
      case SecondConsonantDoubled => Geminate
    }
  }

  function Join(pieces: seq<string>, sep: string): string
  {
    if |pieces| == 0 then "" else if |pieces| == 1 then pieces[0] else pieces[0] + sep + Join(pieces[1..], sep)
  }

  /** Three single letters joined by '-'. */
  lemma JoinOfThree(a: char, b: char, c: char)
    ensures Join([[a], [b], [c]], "-") == [a, '-', b, '-', c]
  {
    assert [[a], [b], [c]][1..] == [[b], [c]];
    assert [[b], [c]][1..] == [[c]];
    assert Join([[b], [c]], "-") == [b] + "-" + [c];
  }

  /** Four single letters joined by '-'. */
  lemma JoinOfFour(a: char, b: char, c: char, d: char)
    ensures Join([[a], [b], [c], [d]], "-") == [a, '-', b, '-', c, '-', d]
  {
    assert [[a], [b], [c], [d]][1..] == [[b], [c], [d]];
    JoinOfThree(b, c, d);
  }

  /** Removes every '-' from a string. */
  function WithoutDashes(s: string): (r: string)
    ensures '-' !in r
    ensures |r| <= |s|
  {
    if s == [] then [] else (if s[0] == '-' then [] else [s[0]]) + WithoutDashes(s[1..])
  }

  lemma {:induction false} WithoutDashesAppend(a: string, b: string)
    ensures WithoutDashes(a + b) == WithoutDashes(a) + WithoutDashes(b)
  {
    if a == [] {
      assert a + b == b;
    } else {
      var h := if a[0] == '-' then [] else [a[0]];
      assert (a + b)[0] == a[0];
      assert (a + b)[1..] == a[1..] + b;
      WithoutDashesAppend(a[1..], b);
      assert WithoutDashes(a + b) == h + (WithoutDashes(a[1..]) + WithoutDashes(b));
      assert WithoutDashes(a) == h + WithoutDashes(a[1..]);
    }
  }

  lemma WithoutDashesKeeps(s: string)
    requires '-' !in s
    ensures WithoutDashes(s) == s
  {
  }

  function Flatten(pieces: seq<string>): string
  {
    if pieces == [] then "" else pieces[0] + Flatten(pieces[1..])
  }

  /** Removing the separators from a '-'-joined list gives its pieces back to
      back, provided no piece holds a '-'. */
  lemma {:induction false} WithoutDashesJoin(pieces: seq<string>)
    requires forall i :: 0 <= i < |pieces| ==> '-' !in pieces[i]
    ensures WithoutDashes(Join(pieces, "-")) == Flatten(pieces)
  {
    if |pieces| == 1 {
      WithoutDashesKeeps(pieces[0]);
      assert Flatten(pieces[1..]) == "";
    } else if |pieces| > 1 {
      WithoutDashesJoin(pieces[1..]);
      WithoutDashesKeeps(pieces[0]);
      WithoutDashesAppend(pieces[0] + "-", Join(pieces[1..], "-"));
      WithoutDashesAppend(pieces[0], "-");
    }
  }

  /** For a root of three or four radicals without '-', the separate letters are
      exactly the radicals (a geminate root repeats r2, which is r3), and
      `ToString` is the radicals with '-' between them. */
  lemma {:induction false} ToStringRoundTrip(root: VerbRoot)
    requires 3 <= |root.radicals| <= 4 && '-' !in root.radicals
    ensures root.RadicalsAsSeparateLetters() == root.radicals
    ensures WithoutDashes(root.ToString()) == root.radicals
  {
    var s := root.radicals;
    var pieces := if |s| == 4 then [[s[0]], [s[1]], [s[2]], [s[3]]] else [[s[0]], [s[1]], [s[2]]];
    assert root.ToString() == Join(pieces, "-");
    WithoutDashesJoin(pieces);
    if |s| == 4 {
      assert Flatten(pieces[1..][1..][1..]) == [s[3]];
    } else {
      assert Flatten(pieces[1..][1..]) == [s[2]];
    }
    assert Flatten(pieces) == s;
  }

  /** The order of the tests matters: every root whose second and third
      radicals agree is SecondConsonantDoubled, weak letters or not (so
      و-ي-ي is doubled); Waw with a weak third radical wins over a weak
      second radical; a weak third radical wins over a weak second one; and
      Hamza on R1 counts only when no radical is weak. */
  lemma DoubledBeforeWeakness(r1: Letter, r2: Letter, r3: Letter)
    ensures VerbRoot([r1, r2, r2]).Type() == SecondConsonantDoubled
    ensures r2 != r3 && r1 == Waw && IsWeakLetter(r3) ==>
      VerbRoot([r1, r2, r3]).Type() == DoublyWeak_WawOnR1_WawOrYaOnR3
    ensures r2 != r3 && !IsWeakLetter(r1) && IsWeakLetter(r2) && IsWeakLetter(r3) ==>
      VerbRoot([r1, r2, r3]).Type() == FinalWeak
    ensures VerbRoot([r1, r2, r3]).Type() == RootType.HamzaOnR1 <==>
      r1 == Hamza && r2 != r3 && !IsWeakLetter(r2) && !IsWeakLetter(r3)
  {
  }

}
