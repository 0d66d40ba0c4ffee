/** Vowelled text as displayed: parsing it into letters with tashkil and
    shadda, writing it back, and scoring how similar two vowelled words are. */
module Vocalization {
  import opened Wrappers
  import opened Definitions

  datatype DisplayVocalized = DisplayVocalized(letter: Letter, tashkil: Option<DisplayTashkil>, shadda: bool, emphasis: bool)

  /** Letters compared as equal up to their hamza seat. */
  function MapLetterToComparisonEquivalenceClass(letter: Letter): (c: Letter)
    ensures letter in {AlefHamza, AlefHamzaBelow, AlefMadda} ==> c == Alef
    ensures letter == WawHamza ==> c == Waw
    ensures letter == YaHamza ==> c == Ya
    ensures letter !in {AlefHamza, AlefHamzaBelow, AlefMadda, WawHamza, YaHamza} ==> c == letter
  {
    if letter == AlefHamza || letter == AlefHamzaBelow || letter == AlefMadda then Alef
    else if letter == WawHamza then Waw
    else if letter == YaHamza then Ya
    else letter
  }

  /** Mapping to the class is idempotent: a class representative is its own class. */
  lemma EquivalenceClassIdempotent(letter: Letter)
    ensures MapLetterToComparisonEquivalenceClass(MapLetterToComparisonEquivalenceClass(letter))
         == MapLetterToComparisonEquivalenceClass(letter)
  {
  }

  /** Two tashkil agree when they are equal or when one of them is missing. */
  predicate TashkilMatches(a: Option<DisplayTashkil>, b: Option<DisplayTashkil>)
  {
    a == b || a.None? || b.None?
  }

  /** The similarity of two letters: 0 for different letters (up to the hamza
      seat) or a conflicting tashkil, otherwise 1 less 0.1 for a different seat
      and 0.25 for a different shadda. */
  function Cmp(a: DisplayVocalized, b: DisplayVocalized): (m: real)
    ensures m == 0.0 <==> MapLetterToComparisonEquivalenceClass(a.letter) != MapLetterToComparisonEquivalenceClass(b.letter)
                          || (a.letter == b.letter && !TashkilMatches(a.tashkil, b.tashkil))
    ensures m == 1.0 <==> a.letter == b.letter && TashkilMatches(a.tashkil, b.tashkil) && a.shadda == b.shadda
    ensures 0.0 <= m <= 1.0
    ensures m != 0.0 ==> m >= 0.75
  {
    if MapLetterToComparisonEquivalenceClass(a.letter) != MapLetterToComparisonEquivalenceClass(b.letter) then 0.0
    else
      var m := if a.letter != b.letter then 1.0 - 0.1 else 1.0;
      if a.letter == b.letter then
        if TashkilMatches(a.tashkil, b.tashkil) then
          (if a.shadda != b.shadda then m - 0.25 else m)
        else 0.0
      else m
  }

  /** The sum of the letter scores. */
  function SumCmp(a: seq<DisplayVocalized>, b: seq<DisplayVocalized>): real
    requires |a| == |b|
  {
    if a == [] then 0.0 else SumCmp(a[..|a| - 1], b[..|b| - 1]) + Cmp(a[|a| - 1], b[|b| - 1])
  }

  predicate AllPositive(a: seq<DisplayVocalized>, b: seq<DisplayVocalized>)
    requires |a| == |b|
  {
    forall i :: 0 <= i < |a| ==> Cmp(a[i], b[i]) != 0.0
  }

  lemma {:induction false} SumCmpBounds(a: seq<DisplayVocalized>, b: seq<DisplayVocalized>)
    requires |a| == |b| && AllPositive(a, b)
    ensures 0.75 * (|a| as real) <= SumCmp(a, b) <= |a| as real
  {
    if a != [] {
      SumCmpBounds(a[..|a| - 1], b[..|b| - 1]);
    }
  }

  /** `CompareVocalized`: -1 for words of different length, 1 for two empty
      words, 0 as soon as one letter pair scores 0, else the mean letter score. */
  method CompareVocalized(a: seq<DisplayVocalized>, b: seq<DisplayVocalized>) returns (r: real)
    ensures |a| != |b| ==> r == -1.0
    ensures |a| == |b| == 0 ==> r == 1.0
    ensures |a| == |b| > 0 && !AllPositive(a, b) ==> r == 0.0
    ensures |a| == |b| > 0 && AllPositive(a, b) ==> r == SumCmp(a, b) / (|a| as real)
  {
    if |a| != |b| {
      return -1.0;
    }
    if |a| == 0 {
      return 1.0;
    }
    var sum := 0.0;
    var i := 0;
    while i < |a|
      invariant 0 <= i <= |a|
      invariant AllPositive(a[..i], b[..i])
      invariant sum == SumCmp(a[..i], b[..i])
    {
      var res := Cmp(a[i], b[i]);
      if res == 0.0 {
        return 0.0;
      }
      assert a[..i + 1][..i] == a[..i] && b[..i + 1][..i] == b[..i];
      sum := sum + res;
      i := i + 1;
    }
    assert a[..i] == a && b[..i] == b;
    return sum / (|a| as real);
  }

  /** A positive comparison of two non-empty words lies between 0.75 and 1,
      and is 1 only when every letter pair scores 1. */
  lemma CompareBounds(a: seq<DisplayVocalized>, b: seq<DisplayVocalized>)
    requires |a| == |b| > 0 && AllPositive(a, b)
    ensures 0.75 <= SumCmp(a, b) / (|a| as real) <= 1.0
  {
    SumCmpBounds(a, b);
    MeanBounds(SumCmp(a, b), |a| as real);
  }

  lemma MeanBounds(s: real, n: real)
    requires n > 0.0 && 0.75 * n <= s <= n
    ensures 0.75 <= s / n <= 1.0
  {
  }

  /** The diacritic a character stands for, if it is one of the seven. */
  function CharTashkil(c: char): (t: Option<DisplayTashkil>)
    ensures t.Some? ==> TashkilChar(t.value) == c
  {
    var t: Tashkil :=
      if c == DhammaChar then Dhamma
      else if c == DhammatanChar then Dhammatan
      else if c == FathaChar then Fatha
      else if c == FathatanChar then Fathatan
      else if c == KasraChar then Kasra
      else if c == KasratanChar then Tashkil.Kasratan
      else if c == SukunChar then Tashkil.Sukun
      else EndOfWordMarker;
    if t.IsDisplay() then var d: DisplayTashkil := t; Some(d)
    else None
  }

  lemma CharTashkilInverse(t: DisplayTashkil)
    ensures CharTashkil(TashkilChar(t)) == Some(t)
  {
  }

  /** A character that parsing takes as a letter. */
  predicate IsPlainLetter(c: char)
  {
    c != Tatwiil && c != ShaddaChar && c != DaggerAlefChar && CharTashkil(c).None?
  }

  /** `text` without its leading Tatwiil characters. */
  function SkipTatwiil(text: string): (r: string)
    ensures |r| <= |text|
  {
    if text != [] && text[0] == Tatwiil then SkipTatwiil(text[1..]) else text
  }

  datatype Marks = Marks(tashkil: Option<DisplayTashkil>, shadda: bool, rest: string)

  /** Reads the diacritics, shadda and dagger alefs that follow a letter. */
  function ParseMarks(text: string, tashkil: Option<DisplayTashkil>, shadda: bool): (r: Result<Marks>)
    ensures r.Ok? ==> |r.value.rest| <= |text|
  {
    if text == [] then Ok(Marks(tashkil, shadda, text))
    else
      var c := text[0];
      if CharTashkil(c).Some? then
        if tashkil.Some? then Error("Doubled tashkil") else ParseMarks(text[1..], CharTashkil(c), shadda)
      else if c == ShaddaChar then
        if shadda then Error("Multiple shaddas are not allowed") else ParseMarks(text[1..], tashkil, true)
      else if c == DaggerAlefChar then ParseMarks(text[1..], tashkil, shadda)
      else Ok(Marks(tashkil, shadda, text))
  }

  /** The items of a vowelled text. A run of Tatwiil at the very end yields an
      item whose letter is `NoLetter`. */
  function Parse(text: string): Result<seq<DisplayVocalized>>
    decreases |text|
  {
    if text == [] then Ok([])
    else
      var t := SkipTatwiil(text);
      var letter := if t == [] then NoLetter else t[0];
      var m := ParseMarks(if t == [] then [] else t[1..], None, false);
      if m.Error? then Error(m.message)
      else
        var tail := Parse(m.value.rest);
        if tail.Error? then tail
        else Ok([DisplayVocalized(letter, m.value.tashkil, m.value.shadda, false)] + tail.value)
  }

  function Prepend(acc: seq<DisplayVocalized>, r: Result<seq<DisplayVocalized>>): Result<seq<DisplayVocalized>>
  {
    if r.Error? then r else Ok(acc + r.value)
  }

  lemma PrependSnoc(acc: seq<DisplayVocalized>, item: DisplayVocalized, tail: Result<seq<DisplayVocalized>>)
    ensures Prepend(acc, Prepend([item], tail)) == Prepend(acc + [item], tail)
  {
    if tail.Ok? {
      assert acc + ([item] + tail.value) == (acc + [item]) + tail.value;
    }
  }

  lemma PrependEmpty(acc: seq<DisplayVocalized>)
    ensures Prepend(acc, Ok([])) == Ok(acc)
  {
    assert acc + [] == acc;
  }

  /** The text from index `i` on; empty once the index has run past the end. */
  function Rest(text: string, i: nat): string { if i <= |text| then text[i..] else [] }

  /** Advances `i` over a run of Tatwiil. */
  method SkipTatwiilAt(text: string, i0: nat) returns (i: nat)
    requires i0 <= |text|
    ensures i0 <= i <= |text| && text[i..] == SkipTatwiil(text[i0..])
  {
    i := i0;
    while i < |text| && text[i] == Tatwiil
      invariant i0 <= i <= |text|
      invariant SkipTatwiil(text[i0..]) == SkipTatwiil(text[i..])
    {
      assert text[i..][1..] == text[i + 1..];
      i := i + 1;
    }
  }

  /** What one character does to the marks collected so far. */
  datatype MarkStep = Fail(msg: string) | Take(tashkil: Option<DisplayTashkil>, shadda: bool) | Stop

  function NextMark(c: char, tashkil: Option<DisplayTashkil>, shadda: bool): MarkStep
  {
    if CharTashkil(c).Some? then
      if tashkil.Some? then Fail("Doubled tashkil") else Take(CharTashkil(c), shadda)
    else if c == ShaddaChar then
      if shadda then Fail("Multiple shaddas are not allowed") else Take(tashkil, true)
    else if c == DaggerAlefChar then Take(tashkil, shadda)
    else Stop
  }

  /** One step of `ParseMarks` on the text from index `i`. */
  lemma ParseMarksStep(text: string, i: nat, tashkil: Option<DisplayTashkil>, shadda: bool)
    requires i < |text|
    ensures ParseMarks(Rest(text, i), tashkil, shadda)
      == match NextMark(text[i], tashkil, shadda)
         case Fail(msg) => Error(msg)
         case Take(t, s) => ParseMarks(Rest(text, i + 1), t, s)
         case Stop => Ok(Marks(tashkil, shadda, Rest(text, i)))
  {
    assert Rest(text, i)[0] == text[i];
    assert Rest(text, i)[1..] == Rest(text, i + 1);
  }

  /** Collects the marks that start at index `i0`, which may lie one past the end. */
  method ParseMarksAt(text: string, i0: nat) returns (r: Result<Marks>, i: nat)
    requires i0 <= |text| + 1
    ensures r.Ok? ==> i <= |text| + 1 && r.value.rest == Rest(text, i)
    ensures r == ParseMarks(Rest(text, i0), None, false)
  {
    i := i0;
    var tashkil: Option<DisplayTashkil> := None;
    var shadda := false;
    while i < |text|
      invariant i0 <= i <= |text| + 1
      invariant ParseMarks(Rest(text, i0), None, false) == ParseMarks(Rest(text, i), tashkil, shadda)
    {
      ParseMarksStep(text, i, tashkil, shadda);
      var step := NextMark(text[i], tashkil, shadda);
      if step.Fail? {
        return Error(step.msg), i;
      } else if step.Stop? {
        break;
      }
      tashkil, shadda := step.tashkil, step.shadda;
      i := i + 1;
    }
    if i >= |text| {
      assert Rest(text, i) == [];
    }
    r := Ok(Marks(tashkil, shadda, Rest(text, i)));
  }

  /** A non-empty text parses as its first item, then the rest. */
  lemma ParseFirstItem(text: string)
    requires text != []
    ensures var t := SkipTatwiil(text);
      var m := ParseMarks(if t == [] then [] else t[1..], None, false);
      Parse(text) == if m.Error? then Error(m.message)
        else Prepend([DisplayVocalized(if t == [] then NoLetter else t[0], m.value.tashkil, m.value.shadda, false)], Parse(m.value.rest))
  {
  }

  /** Reads the item that starts at index `i`: skips Tatwiil, takes one letter and
      collects its marks. */
  method ParseItemAt(text: string, i0: nat) returns (r: Result<DisplayVocalized>, i: nat)
    requires i0 < |text|
    ensures r.Ok? ==> i0 < i <= |text| + 1
    ensures Parse(Rest(text, i0))
      == if r.Error? then Error(r.message) else Prepend([r.value], Parse(Rest(text, i)))
  {
    i := SkipTatwiilAt(text, i0);
    var letter := if i < |text| then text[i] else NoLetter;
    ghost var t := SkipTatwiil(text[i0..]);
    assert Rest(text, i0) == text[i0..] && t == text[i..];
    assert (if t == [] then [] else t[1..]) == Rest(text, i + 1);
    ParseFirstItem(Rest(text, i0));
    var marks;
    marks, i := ParseMarksAt(text, i + 1);
    if marks.Error? {
      return Error(marks.message), i;
    }
    r := Ok(DisplayVocalized(letter, marks.value.tashkil, marks.value.shadda, false));
  }

  /** `ParseVocalizedText`: an index walk over the text that skips Tatwiil, takes
      one letter, then collects its diacritics, rejecting a second tashkil or a
      second shadda. */
  method ParseVocalizedText(text: string) returns (r: Result<seq<DisplayVocalized>>)
    ensures r == Parse(text)
  {
    var result: seq<DisplayVocalized> := [];
    var i: nat := 0;
    assert Rest(text, 0) == text;
    assert Parse(text).Ok? ==> [] + Parse(text).value == Parse(text).value;
    while i < |text|
      invariant i <= |text| + 1
      invariant Prepend(result, Parse(Rest(text, i))) == Parse(text)
      decreases |text| + 1 - i
    {
      var item;
      item, i := ParseItemAt(text, i);
      if item.Error? {
        return Error(item.message);
      }
      PrependSnoc(result, item.value, Parse(Rest(text, i)));
      result := result + [item.value];
    }
    assert Parse(Rest(text, i)) == Ok([]);
    PrependEmpty(result);
    return Ok(result);
  }

  /** A letter with its shadda and diacritic, in that order. */
  function VocalizedToString(v: DisplayVocalized): (s: string)
    ensures |s| == 1 + (if v.shadda then 1 else 0) + (if v.tashkil.Some? then 1 else 0)
    ensures s[0] == v.letter
  {
    [v.letter] + (if v.shadda then [ShaddaChar] else []) + (if v.tashkil.Some? then [TashkilChar(v.tashkil.value)] else [])
  }

  function VocalizedWordToString(vs: seq<DisplayVocalized>): (s: string)
    ensures |vs| <= |s| <= 3 * |vs|
    ensures vs != [] ==> s[0] == vs[0].letter
  {
    if vs == [] then [] else VocalizedToString(vs[0]) + VocalizedWordToString(vs[1..])
  }

  /** An item that survives writing and parsing back: a plain letter, not
      emphasized (the text has no mark for emphasis). */
  predicate Writable(v: DisplayVocalized) { IsPlainLetter(v.letter) && !v.emphasis }

  lemma {:induction false} MarksRoundTrip(v: DisplayVocalized, rest: string)
    requires rest == [] || IsPlainLetter(rest[0])
    ensures ParseMarks(VocalizedToString(v)[1..] + rest, None, false) == Ok(Marks(v.tashkil, v.shadda, rest))
  {
    var marks := VocalizedToString(v)[1..];
    if v.shadda && v.tashkil.Some? {
      var tc := TashkilChar(v.tashkil.value);
      assert marks + rest == [ShaddaChar, tc] + rest;
      assert (marks + rest)[1..] == [tc] + rest;
      assert ([tc] + rest)[1..] == rest;
      CharTashkilInverse(v.tashkil.value);
      assert ParseMarks(rest, v.tashkil, true) == Ok(Marks(v.tashkil, true, rest));
      assert ParseMarks([tc] + rest, None, true) == Ok(Marks(v.tashkil, true, rest));
    } else if v.shadda {
      assert marks + rest == [ShaddaChar] + rest;
      assert (marks + rest)[1..] == rest;
    } else if v.tashkil.Some? {
      var tc := TashkilChar(v.tashkil.value);
      assert marks + rest == [tc] + rest;
      assert (marks + rest)[1..] == rest;
      CharTashkilInverse(v.tashkil.value);
    } else {
      assert marks + rest == rest;
    }
  }

  /** Parsing what `VocalizedToString` wrote gives the items back, letter,
      shadda and tashkil. */
  lemma {:induction false} ParseWordRoundTrip(vs: seq<DisplayVocalized>)
    requires forall i :: 0 <= i < |vs| ==> Writable(vs[i])
    ensures Parse(VocalizedWordToString(vs)) == Ok(vs)
  {
    if vs != [] {
      WrittenWordStart(vs[1..]);
      ParseItemFirst(vs[0], VocalizedWordToString(vs[1..]));
      ParseWordRoundTrip(vs[1..]);
      assert vs == [vs[0]] + vs[1..];
    }
  }

  /** A written word starts with the letter of its first item. */
  lemma WrittenWordStart(vs: seq<DisplayVocalized>)
    ensures vs != [] ==> VocalizedWordToString(vs) != [] && VocalizedWordToString(vs)[0] == vs[0].letter
  {
  }

  /** A written item followed by a text that starts with a letter parses as
      that item, then the rest. */
  lemma ParseItemFirst(v: DisplayVocalized, rest: string)
    requires Writable(v)
    requires rest == [] || IsPlainLetter(rest[0])
    ensures Parse(VocalizedToString(v) + rest) == Prepend([v], Parse(rest))
  {
    var w := VocalizedToString(v);
    MarksRoundTrip(v, rest);
    assert (w + rest)[0] == v.letter && (w + rest)[1..] == w[1..] + rest;
    ParseLetterFirst(w + rest, v.tashkil, v.shadda, rest);
  }

  /** A text that starts with a letter other than Tatwiil parses as that letter
      with the marks after it, then the rest. */
  lemma ParseLetterFirst(text: string, tashkil: Option<DisplayTashkil>, shadda: bool, rest: string)
    requires text != [] && text[0] != Tatwiil
    requires ParseMarks(text[1..], None, false) == Ok(Marks(tashkil, shadda, rest))
    ensures Parse(text) == Prepend([DisplayVocalized(text[0], tashkil, shadda, false)], Parse(rest))
  {
    assert SkipTatwiil(text) == text;
  }

  /** The mean letter score, the value `CompareVocalized` returns for two
      words of equal, non-zero length whose letters all agree. */
  function Similarity(a: seq<DisplayVocalized>, b: seq<DisplayVocalized>): real
    requires |a| == |b| > 0
  {
    SumCmp(a, b) / (|a| as real)
  }

  // The three words of the comparison between a root and two conjugated forms.
  const WithShaddaText: string := [Ta, Hha, Dal, ShaddaChar, Tha]
  const Stem1PresentText: string := [Ta, FathaChar, Hha, SukunChar, Dal, DhammaChar, Tha, DhammaChar]
  const Stem5PerfectText: string := [Ta, FathaChar, Hha, FathaChar, Dal, ShaddaChar, FathaChar, Tha, FathaChar]

  function Plain(letter: Letter, tashkil: Option<DisplayTashkil>, shadda: bool): DisplayVocalized
  {
    DisplayVocalized(letter, tashkil, shadda, false)
  }

  lemma {:induction false} FourLetterWord(v: seq<DisplayVocalized>)
    requires |v| == 4
    ensures VocalizedWordToString(v) == VocalizedToString(v[0]) + VocalizedToString(v[1]) + VocalizedToString(v[2]) + VocalizedToString(v[3])
  {
    assert VocalizedWordToString(v[3..][1..]) == [];
    assert VocalizedWordToString(v[2..][1..]) == VocalizedToString(v[3]);
    assert v[1..][1..] == v[2..];
    assert VocalizedWordToString(v[1..]) == VocalizedToString(v[1]) + VocalizedToString(v[2]) + VocalizedToString(v[3]);
  }

  lemma ParseWithShadda()
    ensures Parse(WithShaddaText) == Ok([Plain(Ta, None, false), Plain(Hha, None, false), Plain(Dal, None, true), Plain(Tha, None, false)])
  {
    var v := [Plain(Ta, None, false), Plain(Hha, None, false), Plain(Dal, None, true), Plain(Tha, None, false)];
    FourLetterWord(v);
    assert VocalizedToString(v[2]) == [Dal, ShaddaChar];
    assert VocalizedWordToString(v) == WithShaddaText;
    ParseWordRoundTrip(v);
  }

  lemma ParseStem1Present()
    ensures Parse(Stem1PresentText) == Ok([Plain(Ta, Some(Fatha), false), Plain(Hha, Some(Tashkil.Sukun), false),
                                           Plain(Dal, Some(Dhamma), false), Plain(Tha, Some(Dhamma), false)])
  {
    var v := [Plain(Ta, Some(Fatha), false), Plain(Hha, Some(Tashkil.Sukun), false),
              Plain(Dal, Some(Dhamma), false), Plain(Tha, Some(Dhamma), false)];
    FourLetterWord(v);
    assert VocalizedToString(v[0]) == [Ta, FathaChar];
    assert VocalizedToString(v[1]) == [Hha, SukunChar];
    assert VocalizedToString(v[2]) == [Dal, DhammaChar];
    assert VocalizedToString(v[3]) == [Tha, DhammaChar];
    assert VocalizedWordToString(v) == Stem1PresentText;
    ParseWordRoundTrip(v);
  }

  lemma ParseStem5Perfect()
    ensures Parse(Stem5PerfectText) == Ok([Plain(Ta, Some(Fatha), false), Plain(Hha, Some(Fatha), false),
                                           Plain(Dal, Some(Fatha), true), Plain(Tha, Some(Fatha), false)])
  {
    var v := [Plain(Ta, Some(Fatha), false), Plain(Hha, Some(Fatha), false),
              Plain(Dal, Some(Fatha), true), Plain(Tha, Some(Fatha), false)];
    FourLetterWord(v);
    assert VocalizedToString(v[0]) == [Ta, FathaChar];
    assert VocalizedToString(v[1]) == [Hha, FathaChar];
    assert VocalizedToString(v[2]) == [Dal, ShaddaChar, FathaChar];
    assert VocalizedToString(v[3]) == [Tha, FathaChar];
    assert VocalizedWordToString(v) == Stem5PerfectText;
    ParseWordRoundTrip(v);
  }

  /** The root t-h-d-th written with a shadda on its second radical is closer
      to the stem 5 form tahaddatha than to the stem 1 present form tahdathu:
      against stem 1 only the missing shadda costs, against stem 5 nothing does. */
  lemma ShaddaPrefersStem5()
    ensures var w := Parse(WithShaddaText);
            var s1 := Parse(Stem1PresentText);
            var s5 := Parse(Stem5PerfectText);
            w.Ok? && s1.Ok? && s5.Ok? && |w.value| == |s1.value| == |s5.value| == 4
            && AllPositive(w.value, s1.value) && AllPositive(w.value, s5.value)
            && Similarity(w.value, s1.value) == 0.9375 && Similarity(w.value, s5.value) == 1.0
  {
    ParseWithShadda();
    ParseStem1Present();
    ParseStem5Perfect();
    LetterScores();
  }

  /** The letter scores of the three parsed words. */
  lemma LetterScores()
    ensures var w := [Plain(Ta, None, false), Plain(Hha, None, false), Plain(Dal, None, true), Plain(Tha, None, false)];
            var s1 := [Plain(Ta, Some(Fatha), false), Plain(Hha, Some(Tashkil.Sukun), false),
                       Plain(Dal, Some(Dhamma), false), Plain(Tha, Some(Dhamma), false)];
            var s5 := [Plain(Ta, Some(Fatha), false), Plain(Hha, Some(Fatha), false),
                       Plain(Dal, Some(Fatha), true), Plain(Tha, Some(Fatha), false)];
            AllPositive(w, s1) && AllPositive(w, s5) && SumCmp(w, s1) == 3.75 && SumCmp(w, s5) == 4.0
  {
    var w := [Plain(Ta, None, false), Plain(Hha, None, false), Plain(Dal, None, true), Plain(Tha, None, false)];
    var s1 := [Plain(Ta, Some(Fatha), false), Plain(Hha, Some(Tashkil.Sukun), false),
               Plain(Dal, Some(Dhamma), false), Plain(Tha, Some(Dhamma), false)];
    var s5 := [Plain(Ta, Some(Fatha), false), Plain(Hha, Some(Fatha), false),
               Plain(Dal, Some(Fatha), true), Plain(Tha, Some(Fatha), false)];
    SumCmpFour(w, s1);
    SumCmpFour(w, s5);
    assert Cmp(w[2], s1[2]) == 0.75;
  }

  /** The sum of the letter scores of two four-letter words. */
  lemma SumCmpFour(a: seq<DisplayVocalized>, b: seq<DisplayVocalized>)
    requires |a| == |b| == 4
    ensures SumCmp(a, b) == Cmp(a[0], b[0]) + Cmp(a[1], b[1]) + Cmp(a[2], b[2]) + Cmp(a[3], b[3])
  {
    assert a[..3][..2] == a[..2] && b[..3][..2] == b[..2];
    assert a[..2][..1] == a[..1] && b[..2][..1] == b[..1];
    assert a[..1][..0] == [] && b[..1][..0] == [];
    assert SumCmp(a[..1], b[..1]) == Cmp(a[0], b[0]);
    assert SumCmp(a[..2], b[..2]) == Cmp(a[0], b[0]) + Cmp(a[1], b[1]);
    assert SumCmp(a[..3], b[..3]) == Cmp(a[0], b[0]) + Cmp(a[1], b[1]) + Cmp(a[2], b[2]);
  }
}
