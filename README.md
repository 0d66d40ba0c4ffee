# OpenArabicConjugation: a verified model of the conjugation engine core

OpenArabicConjugation conjugates and declines Arabic words from a root of three or four radical letters. It is driven by rules. This project models the deterministic core of that engine in Dafny and proves properties of the model:

- **Root classification** (`verbroot.dfy`). This covers the root types, the radicals as separate letters, and the root's written form with and without dashes.
- **The conjugation rule matcher** (`rulematcher.dfy`). It descends through a rule tree, takes the first matching rule at each level, and overrides the symbols, vowels, emphasis and child rules as it goes.
- **Word assembly**:
  - vowel expansion of conjugation elements into vowelled letters (`conjugation.dfy`);
  - hamza-seat orthography (`hamza.dfy`);
  - the conjugator's guards, the assembly of a word from a matched rule, a prefix and a suffix, and the final display pass that merges a repeated consonant into one letter with shadda (`conjugator.dfy`).
- **Vowelled text** (`vocalization.dfy`). It parses vowelled text, prints it back, and scores the similarity of two vowelled words.
- **The MSA conjugation stages**:
  - the stem-1 parameterization codes and their middle-radical vowels (`r2tashkil.dfy`);
  - the present-tense prefix (`prefix.dfy`);
  - the augmented root and its edit log (`augmentedroot.dfy`);
  - root augmentation for stems 1 to 10 (`rootaugmentation.dfy`);
  - the vowelling of the radicals (`roottashkil.dfy`);
  - the hollow-verb rewrite that shortens R2 or turns it into Alef (`hollow.dfy`);
  - the geminate rewrite for doubled roots (`doubled.dfy`).
- **The Lebanese dialect**:
  - stem-1 parameterization codes (`lebanesecontext.dfy`);
  - the suffix tables (`lebanesesuffix.dfy`);
  - the root-augmentation rule tables (`lebaneserootaugmentation.dfy`);
  - the regular and defective stem-1 templates (`lebanesetemplates.dfy`).
- **Lookup tables**:
  - the MSA verbal nouns of stems 1, 2 and 4 (`verbalnouns.dfy`);
  - the participles of stems 1 and 10, and the participles built from a conjugated form (`participles.dfy`).
- **Noun and adjective declension** (`declension.dfy`). It covers the triptote, -in and -an endings and the definite article with sun-letter assimilation.
- **Shared helpers** (`util.dfy`), such as sun letters and the removal of tashkil.

`definitions.dfy` holds the shared enumerations: letters, tashkil, vowels, persons, numbers, genders, tenses, moods, voices and cases. `wrappers.dfy` holds `Option` and `Result`. An engine function that throws is modelled as one that returns `Error`. Functions that live outside the core and that the core calls are parameters of the model. These include whether a present suffix starts with a long vowel, the Lebanese irregular-verb hooks, and the conversion of one seated element to vowelled letters that src/Hamza.ts calls (`Hamza.Expansion`; every hamza lemma holds for any such conversion).

Where an engine operation rewrites an object or array in place and the caller sees the change, the model keeps the mutation:

- `AugmentedRoots.AugmentedRoot` is a class whose methods rewrite its symbols and log each edit.
- `MsaParticiples.WordBuffer` models the caller's conjugated form, which the regular participle rewrite changes through a shared array.
- The source's loops are methods with loop invariants, proved against specification functions. They cover word construction, the display pass, hamza seating, rule matching, parsing vowelled text and the similarity score.
- The triptote's in-place patching of a fresh array is a method proved equal to a function.

## Model

| member | source | states |
|---|---|---|
| VerbRoot.VerbRoot.Type | conjugation_engine/src/VerbRoot.ts:93-118 | each root type holds exactly when its test is the first to fire, in the order four radicals, r2 = r3, Waw with weak r3, weak r1, weak r2, weak r3, Hamza r1, else Regular |
| VerbRoot.VerbRoot.RadicalsAsSeparateLetters | conjugation_engine/src/VerbRoot.ts:75-91 | four letters for a quadriliteral, three otherwise, r1 and r2 first and r2 again in third place for a doubled root |
| VerbRoot.VerbRoot.DeriveDeducedVerbConjugationScheme | conjugation_engine/src/VerbRoot.ts:121-141 | each conjugation scheme is deduced from exactly the root types listed for it (Sound from Quadriliteral and Regular) |
| VerbRoot.VerbRoot.ToString | conjugation_engine/src/VerbRoot.ts:143-146 | for a root of at least three radicals, its separate letters joined by '-': five characters, or seven for a quadriliteral |
| VerbRoot.ToStringRoundTrip | conjugation_engine/src/VerbRoot.ts:75-146 | for three or four radicals without '-', the separate letters are the radicals and `ToString` with its dashes removed gives them back |
| VerbRoot.DoubledBeforeWeakness | conjugation_engine/src/VerbRoot.ts:97-116 | for all radicals: r2 = r3 is doubled whatever their weakness (و-ي-ي is doubled); Waw with a weak r3 beats a weak r2; a weak r3 beats a weak r2; Hamza on R1 only with no weak r2 or r3 |
| VerbRoot.WithoutDashesJoin | conjugation_engine/src/VerbRoot.ts:143-146 | removing the separators from a '-'-joined list of dash-free pieces gives the pieces back to back |
| RuleMatcher.Override | conjugation_engine/src/ConjugationRuleMatcher.ts:95-98 | after a match, symbols (and vowels) are known iff the rule or the earlier state had them |
| RuleMatcher.MatchOutcome | conjugation_engine/src/ConjugationRuleMatcher.ts:38-48 | the match fails exactly when no symbols or no vowels were found, and otherwise returns those found |
| RuleMatcher.DoConditionsMatch | conjugation_engine/src/ConjugationRuleMatcher.ts:52-87 | no contract of its own: the condition test is specified by RuleMatcher.EmptyConditionsMatch, RuleMatcher.MoodNeverMatchesPerfect and RuleMatcher.StemParametersOnlyStem1 |
| RuleMatcher.ConjugationRuleMatcher.constructor | conjugation_engine/src/ConjugationRuleMatcher.ts:26-32 | a new matcher keeps the suffix flag and has evaluated nothing |
| RuleMatcher.ConjugationRuleMatcher.Match | conjugation_engine/src/ConjugationRuleMatcher.ts:34-49 | the matcher's state becomes the walk of the rule tree from its old state, and the result is that state's outcome |
| RuleMatcher.ConjugationRuleMatcher.MatchAgainstRules | conjugation_engine/src/ConjugationRuleMatcher.ts:89-105 | the loop over one level, with its recursive descent and `break`, leaves the state the first-match walk `MatchRules` describes |
| RuleMatcher.EmptyConditionsMatch | conjugation_engine/src/ConjugationRuleMatcher.ts:52-87 | a rule with no conditions matches every parameter set |
| RuleMatcher.MoodNeverMatchesPerfect | conjugation_engine/src/ConjugationRuleMatcher.ts:58-67 | a mood condition never matches in the perfect tense |
| RuleMatcher.StemParametersOnlyStem1 | conjugation_engine/src/ConjugationRuleMatcher.ts:78-84 | a matching stem-parameter condition implies stem 1 with exactly that parameterization |
| RuleMatcher.FirstMatchWins | conjugation_engine/src/ConjugationRuleMatcher.ts:91-103 | only the first matching rule of a level counts: the walk equals the walk of that rule alone |
| RuleMatcher.FirstMatchDescends | conjugation_engine/src/ConjugationRuleMatcher.ts:93-101 | the walk continues in the first matching rule's children from the state it overrode |
| RuleMatcher.FirstMatchIsLeaf | conjugation_engine/src/ConjugationRuleMatcher.ts:93-102 | a first matching rule without children ends the walk with its fields over the prior state |
| RuleMatcher.NoMatchKeepsState | conjugation_engine/src/ConjugationRuleMatcher.ts:91-104 | when no rule of a level matches, the state is unchanged |
| RuleMatcher.AbsentFieldsKept | conjugation_engine/src/ConjugationRuleMatcher.ts:95-101 | each of the four fields (emphasis, prefix vowel, symbols, vowels) that no rule of the tree sets keeps its prior value however deep the walk goes |
| RuleMatcher.DeeperOverrides | conjugation_engine/src/ConjugationRuleMatcher.ts:95-101 | each field set by a matched child overrides the parent's, which overrides the prior state |
| Hamza.HamzaShortVowelPrecedence | src/Hamza.ts:25-32 | the result is a short vowel, the stronger of the two in the order i over u over a |
| Hamza.PrecedenceSymmetric | src/Hamza.ts:25-32 | the precedence does not depend on the order of its arguments |
| Hamza.ToShortVowel | src/Hamza.ts:34-45 | LongI becomes ShortI, LongU becomes ShortU, every other vowel is returned unchanged |
| Hamza.DecidingVowel | src/Hamza.ts:57-93 | the vowel deciding a non-initial seat, when there is one, is a short vowel |
| Hamza.DetermineHamzaSeat | src/Hamza.ts:47-106 | the seat is one of the five hamza letters; an initial hamza sits on an Alef, and only an initial one can sit below it |
| Hamza.InitialSeat | src/Hamza.ts:49-55 | an initial hamza sits below the Alef iff an i-vowel (short or long) follows, above it otherwise |
| Hamza.FinalSeat | src/Hamza.ts:59-105 | a final hamza after a non-short vowel stands alone; after a, i or u it sits on Alef, Ya or Waw |
| Hamza.MedialSeatBetweenShortVowels | src/Hamza.ts:74-105 | a medial hamza between short vowels or sukun sits on Ya iff an i is around, else on Waw iff a u is, else on Alef |
| Hamza.MedialSeatAfterLong | src/Hamza.ts:78-89 | after a long vowel or a diphthong a medial hamza sits on Ya before i and on Waw before u; otherwise on Ya after aj or a long i, and a bare Hamza after a long a or u or after aw |
| Hamza.FinalVowelToTashkil | src/Hamza.ts:108-121 | only sukun, kasratan and no final vowel have a tashkil; the others are errors |
| Hamza.Hamzate | src/Hamza.ts:123-170 | for any conversion of a seated element, the loop that pushes and pops the result computes `HamzateSpec`: seated elements, merged pairs, then the ending |
| Hamza.HamzateErrorPropagates | src/Hamza.ts:147 | once an element fails to convert, the whole word fails with that error |
| Hamza.NoHamzaIsPlainExpansion | src/Hamza.ts:143-147 | without hamza every element is converted unchanged and in order, by whatever conversion is given |
| Hamza.EngineExpandAll | conjugation_engine/src/Conjugation.ts:86-153 | with the engine's per-element switch as the conversion, converting a list is the engine's expansion |
| Hamza.EngineOneLetterForShortA | conjugation_engine/src/Conjugation.ts:88-152 | the engine's switch writes a consonant with a short a as one letter |
| Hamza.HamzaPairPops | src/Hamza.ts:136-140 | for any conversion, a hamza with sukun after a hamza with fatha pops the last letter written and pushes one Alef Madda carrying a long vowel |
| Hamza.HamzaPairBecomesMadda | src/Hamza.ts:136-140 | when the fatha hamza was written as one letter, the pair is replaced with one Alef Madda carrying a long vowel |
| Hamza.SeatedLongABecomesMadda | src/Hamza.ts:141-142 | a hamza seated on Alef and followed by a long a is written Alef Madda |
| Conjugation.VowelToTashkil | conjugation_engine/src/Conjugation.ts:182-196 | defined (no throw) exactly on the short vowels and sukun, and then gives a basic tashkil |
| Conjugation.TashkilToVowel | conjugation_engine/src/Conjugation.ts:166-180 | defined exactly on dhamma, fatha, kasra and sukun, and then gives a short vowel or sukun |
| Conjugation.VowelTashkilInverse | conjugation_engine/src/Conjugation.ts:166-196 | the two conversions are inverse to each other on the four vowels and the four tashkil |
| Conjugation.ExpandElement | conjugation_engine/src/Conjugation.ts:88-152 | BrokenA, DiphtongAj and the long vowels give two letters, every other vowel one letter keeping its emphasis and vowel; only a vowel with no tashkil fails |
| Conjugation.LongVowelSpelling | conjugation_engine/src/Conjugation.ts:112-143 | a long vowel is written as the consonant with the short vowel its letter calls for, then that letter marked long |
| Conjugation.ExpandElementsLength | conjugation_engine/src/Conjugation.ts:86-153 | the expansion succeeds iff no element has an unwritable vowel, and then has one letter per element plus one per two-letter vowel |
| Conjugation.ExpandElementsAt | conjugation_engine/src/Conjugation.ts:86-153 | the letters of each element appear in order, at the output length of the elements before it |
| Conjugation.ExpandErrorPropagates | conjugation_engine/src/Conjugation.ts:149-179 | a failing prefix makes the whole expansion fail with the same error |
| Conjugation.ToConjugationVocalized | conjugation_engine/src/Conjugation.ts:83-164 | the loop that pushes each element's letters and the final letter computes the expansion `ExpandWord` |
| Conjugation.ExpandWordShape | conjugation_engine/src/Conjugation.ts:155-161 | the final letter is the last item, with the end-of-word marker, after all the elements' letters |
| Conjugator.CheckConjugationParams | conjugation_engine/src/Conjugator.ts:35-41 | the request is refused exactly for a passive imperative or an imperative outside the second person, and otherwise passed on unchanged |
| Conjugator.ConstructWord | conjugation_engine/src/Conjugator.ts:117-149 | the word is the prefix, one element per rule symbol taking the rule's vowels in order and then the suffix's previous vowel (emphasis only at index `emphasize`), then the prefinal and a vowelled final; a bare final letter becomes the ending with no final vowel |
| Conjugator.DisplayTashkilOf | conjugation_engine/src/Conjugator.ts:185 | internal markers are dropped, displayable tashkil kept as is |
| Conjugator.ToDisplayVocalized | conjugation_engine/src/Conjugator.ts:171-193 | the loop with its manual skip computes `ToDisplay`: a consonant with sukun followed by the same consonant, not at index 0, becomes one letter with shadda carrying the second one's tashkil |
| Conjugator.ToDisplayUndoubles | conjugation_engine/src/Conjugator.ts:179-189 | writing every shadda letter twice gives back exactly the vowelled word's letters |
| Conjugator.ToDisplayLength | conjugation_engine/src/Conjugator.ts:179-189 | each shadda stands for one dropped letter, so the display is at most as long as the input |
| Conjugator.NoMergeKeepsEveryLetter | conjugation_engine/src/Conjugator.ts:179 | without a repeated consonant under sukun, every letter is kept, none with shadda |
| Conjugator.StartNeverMerges | conjugation_engine/src/Conjugator.ts:179 | the first letter never takes a shadda |
| Conjugator.EmphasisKept | conjugation_engine/src/Conjugator.ts:182 | some displayed letter is emphasized iff some input letter is, and an emphasized letter comes from an emphasized input of the same consonant |
| Conjugator.TransformWord | conjugation_engine/src/Conjugator.ts:164-169 | the pipeline fails iff hamza seating fails, and then displays exactly the seated letters |
| Vocalization.MapLetterToComparisonEquivalenceClass | src/Vocalization.ts:37-51 | the three hamza-carrying alefs compare as Alef, WawHamza as Waw, YaHamza as Ya, every other letter as itself |
| Vocalization.EquivalenceClassIdempotent | src/Vocalization.ts:37-51 | a class representative is its own class |
| Vocalization.Cmp | src/Vocalization.ts:63-85 | a letter pair scores 0 exactly when the letters differ beyond their hamza seat or the same letter carries two different tashkil, 1 exactly when letter, tashkil (up to a missing one) and shadda agree, and otherwise at least 0.75 |
| Vocalization.SumCmpBounds | src/Vocalization.ts:94-101 | when no pair scores 0, the summed score of n pairs lies between 0.75n and n |
| Vocalization.CompareVocalized | src/Vocalization.ts:87-103 | -1 for different lengths, 1 for two empty words, 0 when some letter pair scores 0, otherwise the mean letter score |
| Vocalization.CompareBounds | src/Vocalization.ts:87-103 | a positive comparison of two non-empty words lies between 0.75 and 1 |
| Vocalization.CharTashkil | src/Vocalization.ts:126-175 | a character is read as the one tashkil whose character it is |
| Vocalization.CharTashkilInverse | src/Vocalization.ts:126-175 | each of the seven tashkil characters is read back as its tashkil |
| Vocalization.SkipTatwiilAt | src/Vocalization.ts:116-117 | the loop skips exactly the leading tatwiil characters |
| Vocalization.ParseMarksStep | src/Vocalization.ts:124-181 | one mark: a tashkil is taken unless one is already there (then "Doubled tashkil"), a second shadda fails, a dagger alef is skipped, anything else ends the marks |
| Vocalization.ParseMarksAt | src/Vocalization.ts:123-182 | the index loop reading the marks after a letter computes the recursive mark parser, errors included |
| Vocalization.ParseVocalizedText | src/Vocalization.ts:110-193 | the parsing loop computes the recursive parse of the text, failing exactly where it does |
| Vocalization.VocalizedToString | src/Vocalization.ts:276-279 | the letter, then the shadda if present, then the tashkil if present |
| Vocalization.VocalizedWordToString | src/Vocalization.ts:281-285 | the items written one after another: between one and three characters per item, the first item's letter first; Vocalization.ParseWordRoundTrip parses it back |
| Vocalization.MarksRoundTrip | src/Vocalization.ts:123-182 | the marks written for an item parse back to its tashkil and shadda and stop at the next letter |
| Vocalization.ParseWordRoundTrip | src/Vocalization.ts:110-285 | parsing a written word of plain, non-emphasized letters gives back the same items |
| Vocalization.ShaddaPrefersStem5 | src/Vocalization.ts:63-103 | a root written with a shadda on its second radical scores 1 against the stem-5 perfect and 0.9375 against the stem-1 present |
| Util.SunLettersAreFourteen | conjugation_engine/src/Util.ts:72-93 | exactly fourteen letters are sun letters |
| Util.IsSunLetter | conjugation_engine/src/Util.ts:72-93 | true exactly for the letters of the sun-letter list |
| Util.IsValidRootRadical | conjugation_engine/src/Util.ts:95-130 | true exactly for the characters of the root-radical list |
| Util.GenderToString | conjugation_engine/src/Util.ts:21-26 | a non-empty lower-case name; Util.ToStringInjective shows the names tell the values apart |
| Util.MoodToString | conjugation_engine/src/Util.ts:132-145 | a non-empty lower-case name; Util.ToStringInjective shows the names tell the values apart |
| Util.NumerusToString | conjugation_engine/src/Util.ts:147-158 | a non-empty lower-case name; Util.ToStringInjective shows the names tell the values apart |
| Util.PersonToString | conjugation_engine/src/Util.ts:160-171 | a non-empty lower-case name; Util.ToStringInjective shows the names tell the values apart |
| Util.TenseToString | conjugation_engine/src/Util.ts:189-194 | a non-empty lower-case name; Util.ToStringInjective shows the names tell the values apart |
| Util.VoiceToString | conjugation_engine/src/Util.ts:196-201 | a non-empty lower-case name; Util.ToStringInjective shows the names tell the values apart |
| Util.RootRadicalsAreTwentyEight | conjugation_engine/src/Util.ts:95-130 | exactly twenty-eight characters are valid root radicals |
| Util.SunLettersAreRadicals | conjugation_engine/src/Util.ts:72-130 | every sun letter is a valid root radical |
| Util.IsArabicWord | conjugation_engine/src/Util.ts:62-70 | true exactly when every character is an Arabic letter, diacritic, shadda or dagger alef |
| Util.ToStringInjective | conjugation_engine/src/Util.ts:21-201 | the gender, mood, numerus, person, tense and voice names tell the values apart |
| Util.VowelLetterToPreTashkil | conjugation_engine/src/Util.ts:203-214 | Alef is preceded by Fatha, Waw by Dhamma, Ya by Kasra |
| Util.WithoutAppend | conjugation_engine/src/Util.ts:178-187 | deleting characters distributes over concatenation, so the kept characters stay in their order |
| Util.WithoutChar | conjugation_engine/src/Util.ts:178-187 | a single character is kept exactly when it is not one of the deleted ones |
| Util.WithoutWithout | conjugation_engine/src/Util.ts:173-187 | deleting one set of characters and then another deletes their union |
| Util.RemoveTashkilButKeepShadda | conjugation_engine/src/Util.ts:178-187 | the result keeps exactly the characters that are not one of the six stripped diacritics or the dagger alef |
| Util.RemoveTashkil | conjugation_engine/src/Util.ts:173-176 | stripping also removes the shadda: no Fatha, Kasra, Dhamma, Sukun or shadda remains |
| Util.RemoveTashkilKeepsDhammatan | conjugation_engine/src/Util.ts:178-187 | a Dhammatan passes through the stripping as written |
| Util.RemoveAllTashkil | conjugation_engine/src/Util.ts:173-187 | the corrected stripping leaves no diacritic at all |
| Util.RemoveAllTashkilAgrees | conjugation_engine/src/Util.ts:173-187 | on text without Dhammatan the corrected stripping equals the one as written |
| MsaStem1.Code | conjugation_engine/src/dialects/msa/conjugation/r2tashkil.ts:21-37 | every parameterization has a two-letter code, the enum's string |
| MsaStem1.ExtractMiddleRadicalTashkil | conjugation_engine/src/dialects/msa/conjugation/r2tashkil.ts:39-59 | the past vowel of R2 is the one the first code letter names |
| MsaStem1.ExtractPresentMiddleRadicalTashkil | conjugation_engine/src/dialects/msa/conjugation/r2tashkil.ts:61-81 | the present vowel of R2 is the one the second code letter names |
| MsaStem1.SameCodeSameTashkil | conjugation_engine/src/dialects/msa/conjugation/r2tashkil.ts:21-81 | parameterizations sharing a code string get the same past and present vowels |
| MsaStem1.ExtractedVowels | conjugation_engine/src/dialects/msa/conjugation/r2tashkil.ts:39-81 | both vowels are Fatha, Kasra, Dhamma or Sukun, and Sukun exactly for the quadriliteral |
| MsaStem1.PresentTashkil | conjugation_engine/src/dialects/msa/conjugation/prefix.ts:57 | a present vowel exists exactly for the parameterizations with a code, and is the extracted one |
| MsaPrefix.DerivePrefixTashkil | conjugation_engine/src/dialects/msa/conjugation/prefix.ts:25-48 | the present prefix takes Fatha exactly in active stems 1 and 5 to 10 (not for a stem-1 quadriliteral), Dhamma in the rest of stems 1 to 10, none outside |
| MsaPrefix.GetImperativeTashkil | conjugation_engine/src/dialects/msa/conjugation/prefix.ts:50-58 | hayiya borrows Kasra, a listed parameterization its present vowel |
| MsaPrefix.PresentPrefixLetter | conjugation_engine/src/dialects/msa/conjugation/prefix.ts:87-114 | AlefHamza exactly for the first-person singular, Nun exactly for the first-person plural, Ya exactly for the third person except its feminine singular and dual, Ta otherwise |
| MsaPrefix.DerivePrefix | conjugation_engine/src/dialects/msa/conjugation/prefix.ts:60-115 | at most one letter in front of the stem; it fails exactly for a present non-imperative outside stems 1 to 10 |
| MsaPrefix.PerfectPrefix | conjugation_engine/src/dialects/msa/conjugation/prefix.ts:62-70 | a perfect has a prefix iff the stem starts with sukun, an Alef with Kasra (active) or Dhamma (passive) |
| MsaPrefix.Stem4Imperative | conjugation_engine/src/dialects/msa/conjugation/prefix.ts:74-75 | a stem-4 imperative starts with AlefHamza and Fatha |
| MsaPrefix.ImperativeWasl | conjugation_engine/src/dialects/msa/conjugation/prefix.ts:77-82 | an imperative starting with sukun takes an Alef with Dhamma iff it is stem 1 with present vowel u, else with Kasra |
| MsaPrefix.PresentPrefix | conjugation_engine/src/dialects/msa/conjugation/prefix.ts:86-114 | a present non-imperative prefix is the person letter with the stem's prefix vowel |
| AugmentedRoots.RadicalName | src/dialects/msa/conjugation/rootTashkil.ts:106-108 | radical numbers 1 to 4 name the symbols R1 to R4 |
| AugmentedRoots.RadicalNamesDistinct | src/dialects/msa/conjugation/rootTashkil.ts:106-108 | different radical numbers name different symbols |
| AugmentedRoots.WithTashkil | conjugation_engine/src/dialects/msa/conjugation/hollow.ts:104 | setting the tashkil of a named symbol changes the tashkil of exactly the symbols with that name and keeps every name, letter and length |
| AugmentedRoots.ApplyEditsFrame | src/dialects/msa/conjugation/rootTashkil.ts:101-116 | a run of edits keeps the length, every name and letter, and the tashkil of every symbol it does not name |
| AugmentedRoots.Find | conjugation_engine/src/dialects/msa/conjugation/defective_special_cases.ts:37 | a symbol is found iff one with that name exists, and the one found has that name |
| AugmentedRoots.AugmentedRoot.constructor | conjugation_engine/src/dialects/msa/MSAConjugator.ts:264 | a new augmented root holds the root type and the table's symbols, with no edit made yet |
| AugmentedRoots.AugmentedRoot.Perform | conjugation_engine/src/dialects/msa/conjugation/hollow.ts:48-109 | one edit is applied to the symbols and logged after the earlier ones |
| AugmentedRoots.AugmentedRoot.ApplyTashkil | conjugation_engine/src/dialects/msa/conjugation/hollow.ts:104 | the named symbols take the new tashkil and the update is logged |
| AugmentedRoots.AugmentedRoot.ApplyRadicalTashkil | conjugation_engine/src/dialects/msa/MSAConjugator.ts:269 | radical `i` takes the new tashkil and the update is logged |
| MsaRootAugmentation.AugmentRoot | conjugation_engine/src/dialects/msa/conjugation/rootAugmentation.ts:23-231 | a table exists exactly for the stem and root-type pairs the switch covers |
| MsaRootAugmentation.RootRadicals | conjugation_engine/src/dialects/msa/conjugation/rootAugmentation.ts:29-43 | one radical name per letter of the root |
| MsaRootAugmentation.RadicalsInOrder | conjugation_engine/src/dialects/msa/conjugation/rootAugmentation.ts:23-231 | every table lists the root's radicals in order, R1 to R3 and R4 for a quadriliteral, adding none and dropping none |
| MsaRootAugmentation.Stem2Infix | conjugation_engine/src/dialects/msa/conjugation/rootAugmentation.ts:57-63 | triliteral stem 2 doubles R2 with a silent copy of it before R2 |
| MsaRootAugmentation.LongInfix | conjugation_engine/src/dialects/msa/conjugation/rootAugmentation.ts:65-155 | stems 3 and 6 lengthen with a Waw infix in the perfect passive and an Alef infix otherwise |
| MsaRootAugmentation.PostfixOnlyInPerfect | conjugation_engine/src/dialects/msa/conjugation/rootAugmentation.ts:85-195 | triliteral stems 4, 7 and 8 start with the prefixed hamza or Alef exactly in the perfect, and nowhere else |
| MsaRootAugmentation.Stem10Prefix | conjugation_engine/src/dialects/msa/conjugation/rootAugmentation.ts:210-229 | stem 10 puts Siin with sukun and then Ta in front of R1, R2 and R3 |
| MsaRootTashkil.DerivePastRootTashkil | src/dialects/msa/conjugation/rootTashkil.ts:31-39 | in the perfect R2 always has a vowel; R1 is silent exactly in stems 4, 8, 9 and 10; in the passive R2 takes Kasra and R1 Dhamma or sukun |
| MsaRootTashkil.Derive3RadicalRootTashkil | src/dialects/msa/conjugation/rootTashkil.ts:41-84 | R2 lacks a vowel exactly in the active present outside stems 1 to 10; R1 takes sukun, Fatha or Dhamma |
| MsaRootTashkil.Derive4RadicalRootTashkil | src/dialects/msa/conjugation/rootTashkil.ts:86-99 | no contract of its own: the quadriliteral vowels are specified by MsaRootTashkil.QuadriliteralTashkil |
| MsaRootTashkil.PerfectR1 | src/dialects/msa/conjugation/rootTashkil.ts:31-39 | in the perfect, R1 is silent exactly in stems 4, 8, 9 and 10, and otherwise takes Fatha iff the voice is active |
| MsaRootTashkil.PerfectR2 | src/dialects/msa/conjugation/rootTashkil.ts:31-39 | in the perfect, R2 takes Kasra in the passive, the past vowel of the parameterization in stem 1, and Fatha in other active stems |
| MsaRootTashkil.PresentR1 | src/dialects/msa/conjugation/rootTashkil.ts:41-58 | in the present, R1 is silent exactly in stems 1, 4, 8, 9 and 10 and takes Fatha otherwise |
| MsaRootTashkil.PresentR2 | src/dialects/msa/conjugation/rootTashkil.ts:60-83 | in the present, R2 takes Fatha in the passive, the present vowel in stem 1, Fatha in stems 5 and 6 and Kasra in the other active stems |
| MsaRootTashkil.QuadriliteralTashkil | src/dialects/msa/conjugation/rootTashkil.ts:86-99 | a quadriliteral's R2 is silent, R1 takes Dhamma exactly in the perfect passive, R3 takes Fatha exactly when active and perfect coincide, Kasra otherwise |
| MsaRootTashkil.ApplyRootTashkil | src/dialects/msa/conjugation/rootTashkil.ts:101-116 | the root receives exactly the tashkil updates of R1 and R2, and of R3 for a quadriliteral, in that order |
| MsaRootTashkil.RootTashkilFrame | src/dialects/msa/conjugation/rootTashkil.ts:101-116 | only the tashkil of R1, R2 (and R3 for a quadriliteral) changes; every other symbol, name and letter stays |
| MsaRootTashkil.TriliteralRadicalsVowelled | src/dialects/msa/conjugation/rootTashkil.ts:110-115 | afterwards every R1 and R2 of a triliteral root carries the derived vowel |
| MsaRootTashkil.QuadriliteralRadicalsVowelled | src/dialects/msa/conjugation/rootTashkil.ts:103-109 | afterwards every R1, R2 and R3 of a quadriliteral root carries the derived vowel |
| MsaHollow.ShortenOrAlefizeR2 | conjugation_engine/src/dialects/msa/conjugation/hollow.ts:35-115 | the root receives exactly the edits of the hollow stage for its stem, tense, person and mood, in order |
| MsaHollow.ShortenOrAlefizeStem1 | conjugation_engine/src/dialects/msa/conjugation/hollow.ts:39-79 | stem 1: the edits use Dhamma as the short vowel of a Waw and Kasra otherwise |
| MsaHollow.ShortenOrAlefizeStem1Perfect | conjugation_engine/src/dialects/msa/conjugation/hollow.ts:43-59 | the stem-1 perfect edits, in order |
| MsaHollow.ShortenOrAlefizeStem1Present | conjugation_engine/src/dialects/msa/conjugation/hollow.ts:60-77 | the stem-1 present edits, in order |
| MsaHollow.ShortenOrAlefizeDerived | conjugation_engine/src/dialects/msa/conjugation/hollow.ts:80-113 | the stem 4, 8 and 10 edits, in order |
| MsaHollow.ImperativeShortens | conjugation_engine/src/dialects/msa/conjugation/hollow.ts:24-33 | a second-person imperative assimilates R2 exactly for the masculine singular and the feminine plural, whose suffixes start with no vowel |
| MsaHollow.DoesPresentSuffixStartWithVowel | conjugation_engine/src/dialects/msa/conjugation/hollow.ts:24-33 | per person: first person exactly in the dual; second person except the masculine singular and the feminine plural; third person in the dual and the masculine plural |
| MsaHollow.Stem1PerfectLong | conjugation_engine/src/dialects/msa/conjugation/hollow.ts:45-51 | third-person stem-1 perfects other than the feminine plural only insert a long Alef (active) or Ya (passive) |
| MsaHollow.Stem1PerfectShort | conjugation_engine/src/dialects/msa/conjugation/hollow.ts:52-58 | the other stem-1 perfects give R2 a short vowel, Kasra in the passive, then assimilate it |
| MsaHollow.PresentShortensIff | conjugation_engine/src/dialects/msa/conjugation/hollow.ts:62-72 | in the present R2 is assimilated exactly when the vowel is shortened: feminine plural, or in jussive and imperative a suffix without a vowel |
| MsaHollow.DerivedPresentLong | conjugation_engine/src/dialects/msa/conjugation/hollow.ts:106-110 | a long present of stems 4, 8 and 10 inserts Alef in stem 8 or the passive and Ya otherwise |
| MsaHollow.OtherStemsUnchanged | conjugation_engine/src/dialects/msa/conjugation/hollow.ts:37-114 | stems other than 1, 4, 8 and 10 leave the root as it is |
| MsaHollow.HollowTouches | conjugation_engine/src/dialects/msa/conjugation/hollow.ts:35-115 | only R1, R2 and, in stem 8 only, the infix get a new tashkil |
| MsaDoubled.GeminateDoubledConsonant | conjugation_engine/src/dialects/msa/conjugation/doubled.ts:24-48 | the root receives exactly the tashkil updates of the geminate stage, read against R3's tashkil before the call |
| MsaDoubled.Stem1PerfectGeminates | conjugation_engine/src/dialects/msa/conjugation/doubled.ts:29-30 | in the stem-1 perfect R2 is silenced exactly when R3 is not already silent |
| MsaDoubled.R1Vowel | conjugation_engine/src/dialects/msa/conjugation/doubled.ts:31-45 | in the stem-1 present and in stem 7, R1 takes the present vowel (active stem 1), Fatha or Kasra by voice (stem 7 perfect), Fatha otherwise, and R2 is silenced |
| MsaDoubled.OtherStemsUnchanged | conjugation_engine/src/dialects/msa/conjugation/doubled.ts:26-47 | stems other than 1 and 7 leave the root as it is |
| MsaDoubled.GeminatedR2Silent | conjugation_engine/src/dialects/msa/conjugation/doubled.ts:24-48 | whenever the stage changes anything, every R2 ends up silent |
| LebaneseStem1.Code | conjugation_engine/src/dialects/lebanese/LebaneseDialectMetadata.ts:22-31 | every parameterization has a code of at least two characters, the enum's string where it lists one |
| LebaneseStem1.CodesDistinct | conjugation_engine/src/dialects/lebanese/LebaneseDialectMetadata.ts:22-31 | two parameterizations have the same code iff they are the same |
| LebaneseSuffix.DeriveSuffixPerfect | conjugation_engine/src/dialects/lebanese/suffix.ts:29-94 | a prefinal item only comes with a final one, in the second-person plural |
| LebaneseSuffix.DeriveSuffix | conjugation_engine/src/dialects/lebanese/suffix.ts:153-166 | a prefinal item only comes with a final one, in the second-person plural of the perfect |
| LebaneseSuffix.DeriveSuffixPerfectDefective | conjugation_engine/src/dialects/lebanese/suffix.ts:96-111 | the ordinary perfect suffix items; the vowel before them is aj exactly in the first and second person and the broken a exactly in the third masculine singular |
| LebaneseSuffix.DeriveSuffixPresent | conjugation_engine/src/dialects/lebanese/suffix.ts:113-140 | never a prefinal item; a final item exactly in the second and third person plural; a long i before the suffix exactly in the second feminine singular |
| LebaneseSuffix.DeriveSuffixPresentDefective | conjugation_engine/src/dialects/lebanese/suffix.ts:142-151 | the ordinary present suffix items, with a long i before them exactly where there is no final item |
| LebaneseSuffix.PerfectPlural | conjugation_engine/src/dialects/lebanese/suffix.ts:31-60 | perfect plurals end in Nun with a long a (first person), Ta with a long u and a final Alef (second), a long u and a final Alef (third) |
| LebaneseSuffix.PerfectSingular | conjugation_engine/src/dialects/lebanese/suffix.ts:62-93 | among other perfects only the third masculine has no suffix, after a silent stem end; all but the second feminine end in Ta with sukun after a short i |
| LebaneseSuffix.PresentSuffix | conjugation_engine/src/dialects/lebanese/suffix.ts:113-140 | a present ends in Alef after a long u exactly in the second and third person plural, else in a long i (second feminine singular) or a silent stem end; never a prefinal item |
| LebaneseSuffix.DefectiveDiffersInPreviousVowel | conjugation_engine/src/dialects/lebanese/suffix.ts:96-160 | a defective quadriliteral takes the ordinary suffix and differs only in the vowel before it |
| LebaneseSuffix.OneTable | conjugation_engine/src/dialects/lebanese/suffix.ts:153-166 | every verb type other than the defective quadriliteral takes the same suffix |
| LebaneseRootAugmentation.AugmentRoot | conjugation_engine/src/dialects/lebanese/rootAugmentation.ts:27-725 | a rule tree exists exactly for the stem and root-type pairs the switch covers |
| LebaneseRootAugmentation.Stem1RegularPerfect | conjugation_engine/src/dialects/lebanese/rootAugmentation.ts:231-325 | a regular first-stem perfect is R1 R2 R3, emphasized on the first item in the third person and the second otherwise, vowelled a-a, or for past a and present i with i-i, i-sukun or sukun-i by person |
| LebaneseRootAugmentation.RegularStemSymbols | conjugation_engine/src/dialects/lebanese/rootAugmentation.ts:231-725 | whatever the form, a regular root's letters are those of its stem's pattern: R2 doubled in stems 2 and 5, R3 in stem 9, Ta before R1 in stems 5 and 6 and after it in stem 8, Hamza before R1 in the stem-4 perfect |
| LebaneseRootAugmentation.IjaDelegated | conjugation_engine/src/dialects/lebanese/rootAugmentation.ts:92-94 | the root Jiim-Ya-Hamza is hollow and its first stem is the irregular ija table |
| LebaneseRootAugmentation.HollowStem1DropsR2 | conjugation_engine/src/dialects/lebanese/rootAugmentation.ts:96-112 | every other hollow first stem has its own table, independent of the hooks, whose letters are R1 and R3 |
| LebaneseRootAugmentation.DefectivePresentAi | conjugation_engine/src/dialects/lebanese/rootAugmentation.ts:34-90 | the defective first stem has the one-rule table exactly for a present non-imperative with past a and present i before a suffix not starting with Waw or Ya, giving prefix i, letters R1 R2 and vowels sukun and broken a; otherwise the eight-rule table |
| LebaneseTemplates.RegularStem1 | conjugation_engine/src/dialects/lebanese/conjugation_templates/regular_stem1.ts:137-212 | one unconditional rule with the letters R1 R2 R3, with four child rules for the past-i parameterizations and five otherwise |
| LebaneseTemplates.DefectiveStem1 | conjugation_engine/src/dialects/lebanese/conjugation_templates/defective_stem1.ts:25-83 | every rule is a leaf with letters and vowels; the letters start R1 R2 and a third comes only in a rule for the third-person perfect |
| LebaneseTemplates.PastIDelegated | conjugation_engine/src/dialects/lebanese/conjugation_templates/regular_stem1.ts:137-146 | the four past-i parameterizations, and only they, take the past-i table |
| LebaneseTemplates.RegularTemplateSymbols | conjugation_engine/src/dialects/lebanese/conjugation_templates/regular_stem1.ts:25-213 | whatever the form, the sound first stem's letters are R1 R2 R3 |
| LebaneseTemplates.RegularTemplatePerfect | conjugation_engine/src/dialects/lebanese/conjugation_templates/regular_stem1.ts:77-100 | the perfect is emphasized on the first item in the third person and the second otherwise; past a gives a-a, past i gives i-i, i-sukun or sukun-i by person |
| LebaneseTemplates.RegularTemplateImperative | conjugation_engine/src/dialects/lebanese/conjugation_templates/regular_stem1.ts:101-183 | the imperative has no prefix vowel and no emphasis; R1 is silent and R2 takes a short vowel before a long-vowel suffix and a long one otherwise |
| LebaneseTemplates.RegularTemplatePresent | conjugation_engine/src/dialects/lebanese/conjugation_templates/regular_stem1.ts:109-212 | the present's prefix vowel is the parameterization's; R1 is silent before R2's present vowel, and a long-vowel suffix removes that vowel or, for present i-i-u, moves it to R1 |
| LebaneseTemplates.PastIPresent | conjugation_engine/src/dialects/lebanese/conjugation_templates/regular_stem1.ts:51-134 | the past-i present: prefix i or a by parameterization, R2's present vowel, removed before a long-vowel suffix except for present a |
| LebaneseTemplates.PastAPresent | conjugation_engine/src/dialects/lebanese/conjugation_templates/regular_stem1.ts:184-212 | the past-a present: prefix u only for u-sukun-u, R2 a or u, and the suffix cases by parameterization |
| LebaneseTemplates.DefectiveType1Perfect | conjugation_engine/src/dialects/lebanese/conjugation_templates/defective_stem1.ts:27-42 | a type-1 defective perfect is R1 R2 with a, followed by the diphthong aj outside the third person |
| LebaneseTemplates.DefectivePerfect | conjugation_engine/src/dialects/lebanese/conjugation_templates/defective_stem1.ts:46-66 | the other defective perfects: R1 R2 with i and long i, R1 R2 R3 with i-sukun-i or i-sukun, or R1 R2 with sukun and long i, by person, numerus and gender |
| LebaneseTemplates.DefectivePresent | conjugation_engine/src/dialects/lebanese/conjugation_templates/defective_stem1.ts:44-83 | the defective present is R1 R2 with a silent R1; prefix a only for the type taking it; the bare imperative ends in broken a for present a and long i otherwise |
| MsaVerbalNouns.AssimilatedNouns | conjugation_engine/src/dialects/msa/verbal_nouns/stem1.ts:29-123 | an assimilated verb's entry, where there is one, offers at least one form, each of at least three letters, none twice |
| MsaVerbalNouns.AssimilatedAndDefectiveNouns | conjugation_engine/src/dialects/msa/verbal_nouns/stem1.ts:125-146 | the assimilated-and-defective entry is well formed in the same sense |
| MsaVerbalNouns.DefectiveNouns | conjugation_engine/src/dialects/msa/verbal_nouns/stem1.ts:148-281 | the defective entries are well formed |
| MsaVerbalNouns.HamzaOnR1Nouns | conjugation_engine/src/dialects/msa/verbal_nouns/stem1.ts:283-352 | the hamza-on-R1 entries are well formed |
| MsaVerbalNouns.HollowNouns | conjugation_engine/src/dialects/msa/verbal_nouns/stem1.ts:354-480 | the hollow entries are well formed |
| MsaVerbalNouns.GeminateNouns | conjugation_engine/src/dialects/msa/verbal_nouns/stem1.ts:482-591 | the geminate entries are well formed |
| MsaVerbalNouns.SoundNouns | conjugation_engine/src/dialects/msa/verbal_nouns/stem1.ts:593-872 | the sound entries are well formed |
| MsaVerbalNouns.Stem1Table | conjugation_engine/src/dialects/msa/verbal_nouns/stem1.ts:25-889 | whatever entry the verb type selects is well formed |
| MsaVerbalNouns.GenerateAllPossibleVerbalNounsStem1 | conjugation_engine/src/dialects/msa/verbal_nouns/stem1.ts:25-889 | never empty; the one-letter placeholder exactly when no entry exists; otherwise forms of at least three letters; no form twice |
| MsaVerbalNouns.SoundPastUEightForms | conjugation_engine/src/dialects/msa/verbal_nouns/stem1.ts:597-646 | a sound verb with past vowel u has eight candidate verbal nouns |
| MsaVerbalNouns.DefectiveWawYaTwoForms | conjugation_engine/src/dialects/msa/verbal_nouns/stem1.ts:162-172 | a defective "ai" verb with R2 Waw and R3 Ya has exactly the merged form and the fi'aya form |
| MsaVerbalNouns.FinalWeakIsMultiple | conjugation_engine/src/dialects/msa/verbal_nouns/stem1.ts:904-905 | every final-weak root is announced as having several verbal nouns |
| MsaVerbalNouns.RegularPastIMultiple | conjugation_engine/src/dialects/msa/verbal_nouns/stem1.ts:994-1000 | a regular root with past vowel i is announced iff its present vowel is a |
| MsaVerbalNouns.QuadriliteralNotMultiple | conjugation_engine/src/dialects/msa/verbal_nouns/stem1.ts:891-1004 | a quadriliteral root is never announced |
| MsaVerbalNouns.MultipleAssimilated | conjugation_engine/src/dialects/msa/verbal_nouns/stem1.ts:29-123 | the assimilated table offers a choice exactly for u-u, a-a, a-i and i-i |
| MsaVerbalNouns.MultipleAssimilatedAndDefective | conjugation_engine/src/dialects/msa/verbal_nouns/stem1.ts:125-146 | the assimilated-and-defective table offers a choice exactly for the code "ai" |
| MsaVerbalNouns.MultipleDefective | conjugation_engine/src/dialects/msa/verbal_nouns/stem1.ts:148-281 | the defective table offers a choice exactly for the codes "ai", "au" and "ia" |
| MsaVerbalNouns.MultipleHamzaOnR1 | conjugation_engine/src/dialects/msa/verbal_nouns/stem1.ts:283-352 | the hamza-on-R1 table offers a choice exactly for past vowel u |
| MsaVerbalNouns.MultipleHollow | conjugation_engine/src/dialects/msa/verbal_nouns/stem1.ts:354-480 | the hollow table offers a choice exactly for u-u and i-i |
| MsaVerbalNouns.MultipleGeminate | conjugation_engine/src/dialects/msa/verbal_nouns/stem1.ts:482-591 | the geminate table offers a choice exactly for a-u, a-i and past vowel i |
| MsaVerbalNouns.MultipleSound | conjugation_engine/src/dialects/msa/verbal_nouns/stem1.ts:593-872 | the sound table offers a choice for every parameterization but the quadriliteral and past i with a present vowel other than a |
| MsaVerbalNouns.MultipleIffAnnounced | conjugation_engine/src/dialects/msa/verbal_nouns/stem1.ts:891-1004 | several forms are produced exactly when several are announced, except for three named disagreements between the announcement and the table |
| MsaVerbalNouns.HasPotentiallyMultipleVerbalNounFormsStem1 | conjugation_engine/src/dialects/msa/verbal_nouns/stem1.ts:891-1004 | no contract of its own: the announcement is specified by MsaVerbalNouns.FinalWeakIsMultiple, MsaVerbalNouns.RegularPastIMultiple, MsaVerbalNouns.QuadriliteralNotMultiple and MsaVerbalNouns.MultipleIffAnnounced |
| MsaVerbalNouns.GenerateAllPossibleVerbalNounsStem2 | conjugation_engine/src/dialects/msa/verbal_nouns/stem2.ts:22-117 | every stem-2 form has at least four letters and ends with the end-of-word marker |
| MsaVerbalNouns.Stem2FormCount | conjugation_engine/src/dialects/msa/verbal_nouns/stem2.ts:22-117 | final-weak, regular and doubled roots have two stem-2 verbal nouns, the rest one |
| MsaVerbalNouns.Stem2RegularTafil | conjugation_engine/src/dialects/msa/verbal_nouns/stem2.ts:79-95 | the first stem-2 verbal noun of a regular root is taf'il: Ta-a, R1 silent, R2 with i, a long Ya, R3 |
| MsaVerbalNouns.Stem2TaPrefix | conjugation_engine/src/dialects/msa/verbal_nouns/stem2.ts:22-117 | every stem-2 verbal noun begins with Ta and Fatha except the first form of a final-weak root, which begins with R1 |
| MsaVerbalNouns.GenerateAllPossibleVerbalNounsStem4 | conjugation_engine/src/dialects/msa/verbal_nouns/stem4.ts:22-86 | the placeholder exactly for a doubly weak root; every other form has at least five letters, opens with Hamza or Alef with Kasra and ends with the end-of-word marker |
| MsaVerbalNouns.Stem4WeakR1 | conjugation_engine/src/dialects/msa/verbal_nouns/stem4.ts:26-42 | hamza-on-R1 and initial-weak roots both give Hamza-i, a long Ya, R2 with a, a long Alef and R3 |
| MsaVerbalNouns.Stem4Ifal | conjugation_engine/src/dialects/msa/verbal_nouns/stem4.ts:73-81 | regular and doubled roots give the five-letter if'al form with all three radicals |
| MsaVerbalNouns.Stem4Hollow | conjugation_engine/src/dialects/msa/verbal_nouns/stem4.ts:53-60 | a hollow root drops R2 and ends in Ta marbuta |
| MsaVerbalNouns.Stem4Quadriliteral | conjugation_engine/src/dialects/msa/verbal_nouns/stem4.ts:62-71 | a quadriliteral gives a seven-letter form carrying the four radicals in order and ending in Nun |
| MsaParticiples.GenerateParticipleStem1 | conjugation_engine/src/dialects/msa/participle/stem1.ts:24-151 | apart from the two placeholders, a passive participle opens with Mim and has at least four letters, an active one opens with R1 and Fatha (Mim and Dhamma for a quadriliteral) |
| MsaParticiples.DefectiveActive | conjugation_engine/src/dialects/msa/participle/stem1.ts:28-35 | a defective active participle is fa'in: R1 with a, a long Alef and R2 with kasratan |
| MsaParticiples.DefectivePassive | conjugation_engine/src/dialects/msa/participle/stem1.ts:36-45 | a defective passive participle ends in a doubled Waw when the present vowel is u and a doubled Ya otherwise, R2 carrying the matching vowel |
| MsaParticiples.FaIlMafUl | conjugation_engine/src/dialects/msa/participle/stem1.ts:130-148 | regular, hamza-initial and assimilated roots take exactly fa'il (R1-a, long Alef, R2-i, R3 with the end marker) and maf'ul (Mim-a, R1-sukun, R2-u, long Waw, R3 with the end marker) |
| MsaParticiples.QuadriliteralVoices | conjugation_engine/src/dialects/msa/participle/stem1.ts:102-110 | a quadriliteral's two participles differ only in R3's vowel, Kasra active and Fatha passive |
| MsaParticiples.Ra2aAsDefective | conjugation_engine/src/dialects/msa/participle/stem1.ts:64-70 | ra'a is handled as a defective verb, giving mar'iyy in the passive |
| MsaParticiples.GenerateParticipleStem10 | conjugation_engine/src/dialects/msa/participle/stem10.ts:22-78 | the placeholder exactly for the root types without an entry; otherwise musta- followed by R1 |
| MsaParticiples.Stem10Hollow | conjugation_engine/src/dialects/msa/participle/stem10.ts:47-55 | a hollow root puts a long Ya after Kasra (active) or a long Alef after Fatha (passive) in place of R2 |
| MsaParticiples.Stem10FinalWeak | conjugation_engine/src/dialects/msa/participle/stem10.ts:26-45 | a final-weak root ends in R2 with kasratan (active) or R2 with fathatan and Alef maksura (passive) |
| MsaParticiples.Stem10VoicesDifferInOneVowel | conjugation_engine/src/dialects/msa/participle/stem10.ts:57-75 | for regular and doubled roots the two voices differ only in one Kasra/Fatha vowel |
| MsaParticiples.ParticipleRegular | conjugation_engine/src/dialects/msa/participle/regular.ts:71-88 | succeeds exactly when the form has a consonant for the ending and, in the active, one more to take the i; the engine fails on the others |
| MsaParticiples.RegularParticipleShape | conjugation_engine/src/dialects/msa/participle/regular.ts:71-88 | the participle is Mim with u, then the form's elements shifted by one, and the last consonant as a vowelless ending; in the active the second-to-last element takes i |
| MsaParticiples.GenerateParticipleDefective | conjugation_engine/src/dialects/msa/participle/regular.ts:55-69 | succeeds exactly on a non-empty form; opens with Mim with u and ends in the last consonant with tanween by voice |
| MsaParticiples.HamzatAlWaslDropsFirst | conjugation_engine/src/dialects/msa/participle/regular.ts:57 | the hamzat al-wasl flag drops exactly the form's first element and changes nothing else |
| MsaParticiples.DefectiveAgreesWithRegular | conjugation_engine/src/dialects/msa/participle/regular.ts:55-88 | without a hamzat al-wasl, the defective and the passive regular participle share their consonants and differ in the ending's vowel |
| MsaParticiples.WordBuffer.constructor | conjugation_engine/src/dialects/msa/participle/regular.ts:71 | the buffer holds the caller's form |
| MsaParticiples.GenerateParticipleRegular | conjugation_engine/src/dialects/msa/participle/regular.ts:71-88 | returns the value of the pure rewrite of the form as it was, and leaves the caller's form with the i written on its second-to-last element in the active, as the shared array does |
| MsaParticiples.LegacyDefectiveShape | conjugation_engine/src/dialects/msa/participle/regular.ts:24-38 | the active drops the last symbol and the passive none; R2 takes kasratan or fathatan, every other symbol is kept |
| MsaParticiples.LegacyGenerateParticipleDefective | conjugation_engine/src/dialects/msa/participle/regular.ts:24-38 | the augmented root is rewritten as the legacy defective participle requires and the result is Mim with u followed by its symbols |
| MsaParticiples.LegacyRegularShape | conjugation_engine/src/dialects/msa/participle/regular.ts:40-53 | R3 ends the word, R2 takes Kasra in the active, every other symbol is kept, and the first is gone when the form had a hamzat al-wasl |
| MsaParticiples.LegacyGenerateParticipleRegular | conjugation_engine/src/dialects/msa/participle/regular.ts:40-53 | the augmented root is rewritten as the legacy regular participle requires and the result is Mim with u followed by its symbols |
| MsaDeclension.AdjectiveEndingTashkil | src/dialects/msa/adjectives_nouns/shared.ts:22-44 | no ending exactly in the informal case; otherwise the ending is a tanween exactly when the word is indefinite |
| MsaDeclension.EndingsByCase | src/dialects/msa/adjectives_nouns/shared.ts:22-44 | the definite endings are u, a and i for nominative, accusative and genitive, and each indefinite ending is the tanween of the definite one |
| MsaDeclension.WithTashkilOnLast | src/dialects/msa/adjectives_nouns/shared.ts:46-53 | only the last item's tashkil changes, every other item is kept; an empty word reads its last item as an empty one |
| MsaDeclension.WithTashkilOnLastTwice | src/dialects/msa/adjectives_nouns/shared.ts:46-53 | writing the last tashkil twice is the same as writing the second one |
| MsaDeclension.EndingTashkil | src/dialects/msa/adjectives_nouns/triptote.ts:24-36 | the triptote ending is the definite ending outside the indefinite state, with the genitive standing for a feminine plural's accusative |
| MsaDeclension.DeclineDefault | src/dialects/msa/adjectives_nouns/triptote.ts:38-43 | the ending goes on the last item, plus an extra Alef after fathatan exactly in the masculine indefinite accusative |
| MsaDeclension.IsSoundMasculinePlural | src/dialects/msa/adjectives_nouns/triptote.ts:67-69 | a plural ending in Waw and Nun is sound masculine; the word's last two items are read, so an empty word or a lone Nun is an error |
| MsaDeclension.DeclineTriptoteSuffix | src/dialects/msa/adjectives_nouns/triptote.ts:45-92 | the item-by-item rewrite of the dual and plural endings computes the triptote form, errors included |
| MsaDeclension.TriptoteForm | src/dialects/msa/adjectives_nouns/triptote.ts:45-92 | fails exactly on a plural whose sound-masculine test fails; singulars and duals always succeed; MsaDeclension.DeclineTriptoteSuffix computes it |
| MsaDeclension.TriptoteErrors | src/dialects/msa/adjectives_nouns/triptote.ts:65-69 | the triptote fails exactly on a plural that is empty or a lone Nun |
| MsaDeclension.IndefiniteAccusativeMasculine | src/dialects/msa/adjectives_nouns/triptote.ts:38-43 | a masculine singular indefinite accusative is the word with fathatan on its last item followed by an Alef |
| MsaDeclension.FemininePluralAccusativeIsGenitive | src/dialects/msa/adjectives_nouns/triptote.ts:24-30 | a feminine plural is declined in the accusative exactly as in the genitive |
| MsaDeclension.ConstructSingularIsDefinite | src/dialects/msa/adjectives_nouns/triptote.ts:32-33 | a singular in the construct state is declined as in the definite state |
| MsaDeclension.DualNominativeAlef | src/dialects/msa/adjectives_nouns/triptote.ts:52-57 | the nominative dual writes an Alef for the item before the Nun; the other cases keep it, and the items before are untouched |
| MsaDeclension.ConstructDropsNun | src/dialects/msa/adjectives_nouns/triptote.ts:59-60 | the construct state of a dual or a sound masculine plural is its definite form without the final item |
| MsaDeclension.SoundMasculinePluralOblique | src/dialects/msa/adjectives_nouns/triptote.ts:71-81 | outside the nominative a sound masculine plural has Ya for Waw and kasra before it; the nominative keeps both; the Nun takes fatha except in the informal case |
| MsaDeclension.DeclineAdjectiveInSuffix | src/dialects/msa/adjectives_nouns/decline_in.ts:24-42 | the word is returned unchanged exactly in the indefinite nominative and genitive |
| MsaDeclension.InSuffixNominativeToInformal | src/dialects/msa/adjectives_nouns/decline_in.ts:44-57 | the informal -in form is the word with kasra on its last item and a Ya after it |
| MsaDeclension.InSuffixLongForm | src/dialects/msa/adjectives_nouns/decline_in.ts:32-41 | outside the accusative and the indefinite nominative and genitive, the -in declension is the informal form |
| MsaDeclension.InSuffixAccusative | src/dialects/msa/adjectives_nouns/decline_in.ts:34-39 | in the accusative the Ya takes fatha, or fathatan followed by an Alef in the indefinite masculine singular; the word before it is kept with kasra on its last item |
| MsaDeclension.WithTashkilOnAlefMaksura | src/dialects/msa/adjectives_nouns/decline_an.ts:24-34 | only the item before the last takes the tashkil, the last item and those before are kept; a shorter word grows to two items, missing ones read as empty |
| MsaDeclension.DeclineAdjectiveAnSuffix | src/dialects/msa/adjectives_nouns/decline_an.ts:36-41 | the indefinite outside the informal case keeps the word; every other form puts fatha before the Alef maksura |
| MsaDeclension.AnSuffixShape | src/dialects/msa/adjectives_nouns/decline_an.ts:36-41 | on a word of two items or more the length, every letter and every item but the one before the last are kept, that one at most takes fatha, and declining again changes nothing |
| MsaDeclension.AnSuffixLength | src/dialects/msa/adjectives_nouns/decline_an.ts:24-41 | the length is kept exactly when the word has two items or the word is returned unchanged |
| MsaDeclension.ConditionallyAddArticle | conjugation_engine/src/dialects/msa/adjectives_nouns/decline.ts:26-47 | an indefinite word is returned unchanged; a definite one gains Alef and Lam in front and keeps its items, its first item at most gaining a shadda; an empty definite word is an error |
| MsaDeclension.ArticleAssimilation | conjugation_engine/src/dialects/msa/adjectives_nouns/decline.ts:31-44 | before a sun letter the Lam is silent and the letter takes a shadda; before a moon letter the Lam takes sukun and the word is kept |
| MsaDeclension.DeclineAdjectiveOrNounImpl | conjugation_engine/src/dialects/msa/adjectives_nouns/decline.ts:49-61 | a non-empty word that does not end in kasratan and is not definite is declined as the triptote |
| MsaDeclension.DeclineErrors | conjugation_engine/src/dialects/msa/adjectives_nouns/decline.ts:49-61 | the declension fails exactly when the word is empty, ends in kasratan, or is a plural the triptote cannot read |
| MsaDeclension.DefiniteTriptoteNotEmpty | src/dialects/msa/adjectives_nouns/triptote.ts:45-92 | a definite triptote form is never empty |
| MsaDeclension.DefiniteGrowsByTwo | conjugation_engine/src/dialects/msa/adjectives_nouns/decline.ts:60 | a definite word is its triptote form with the two items of the article in front |

## Left out

- Letters and diacritics are Unicode characters at their standard code points. conjugation_engine/src/Definitions.ts is not part of this model, so the enum values are written out by their Arabic names.
- The engine's "TODO" placeholder letter in the lookup tables is the replacement character U+FFFD (`Definitions.TodoLetter`).
- An absent `emphasis` flag is read as false.
- Missing array items that the engine reads past the end of a word are an item with no letter and no marks (`MsaDeclension.Blank`).
- `Array.Last()` is read as the last element.
- conjugation_engine/src/dialects/msa/AugmentedRoot.ts is not part of this model. The augmented root is modelled from its call sites, so several of its rows cite the calling lines.
- AugmentedRoots.AugmentedRoot.Perform: the insert-long-vowel, insert-short-vowel, assimilate-radical and replace-radical edits are logged but do not change the symbols, because their effect is defined in AugmentedRoot.ts. Only setting a tashkil is applied.
- MsaParticiples.LegacyGenerateParticipleDefective: requires R2 to be present, because how the engine treats a missing symbol is defined in AugmentedRoot.ts.
- MsaParticiples.LegacyGenerateParticipleRegular: requires R3, and R2 in the active voice, for the same reason.
- MsaParticiples.GenerateParticipleRegular: returns `Error` where the engine reads the last element of an empty array and fails at run time.
- MsaPrefix.DerivePrefix: returns `Error` for a present-tense stem outside 1 to 10. The engine returns a prefix whose tashkil is undefined there.
- Conjugator.ConstructWord: returns `Error` when a rule has more symbols than vowels, where the engine would read an undefined vowel.
- MsaDeclension.DeclineAdjectiveOrNounImpl: a word ending in kasratan goes to conjugation_engine/src/dialects/msa/adjectives_nouns/decline_in.ts. That file throws "HERE" unconditionally, so the model returns `Error("HERE")`. The working -in declension of src/dialects/msa/adjectives_nouns/decline_in.ts is modelled on its own as `MsaDeclension.DeclineAdjectiveInSuffix`.
- The legacy stem-1 extractors are modelled as `MsaStem1.PresentTashkil` and `MsaParticiples.PastIsKasra`. The irregular verbs hayiya, laysa and ra'a have no code and give no vowel.
- The irregular parameterizations are not members of the stem-1 parameter enum as listed. They are a separate case of `MsaStem1.Stem1Parameterization`.
- `Quadriliteral_FinalWeak` is not a member of the `RootType` in conjugation_engine/src/VerbRoot.ts. The arms for it in root augmentation, root tashkil, the stem-2 verbal nouns and the participles cannot be reached and are not modelled.
- The fallback at the end of the stem-2 verbal-noun table cannot be reached and is not modelled.
- MsaVerbalNouns.MultipleIffAnnounced: states the equivalence with three named exceptions. Whether a verb may have several verbal nouns disagrees with the stem-1 table in three cases:
  - an initial-weak root with "ua";
  - a final-weak root whose parameterization is not a defective code;
  - a quadriliteral root.
- Hamza.Hamzate: src/Conjugation.ts, whose `ToConjugationVocalized` converts each seated element, is not part of this model. The conversion is the parameter `expand`, so nothing is assumed about how many letters it writes, except where `Hamza.OneLetterForShortA` is required.
- Hamza.FinalVowelToTashkil: the thrown message appends the final vowel's numeric value, which is defined in src/Conjugation.ts; the model's `Error` message omits it. The source switches on a value typed `Vowel | FinalVowel`. The numeric values of both enums are defined in src/Conjugation.ts, so whether a `Vowel` member aliases `FinalVowel.Kasratan` or `FinalVowel.None` is not modelled; the final vowels are distinct cases here.
- MsaDoubled.GeminateDoubledConsonant: requires R3 to be present in the stem-1 perfect, where the edits read it, because how the engine treats a missing symbol is defined in AugmentedRoot.ts.
- MsaHollow.ShortenOrAlefizeR2: requires R2 to be present in stem 1, where the edits read it, for the same reason.
- MsaHollow.ShortenOrAlefizeStem1: requires R2 to be present, for the same reason.
- Conjugation.ExpandElement: the engine's `Vowel` enum (conjugation_engine/src/Conjugation.ts:21-32) has no `DiphtongAw` member; only src/Hamza.ts uses one. `Definitions.Vowel` merges the two trees' enums into one type. The engine's vowel-to-tashkil switch throws for every vowel it does not list, so the model returns `Error` for `DiphtongAw`.
- The Lebanese rule tables use the condition key `hasPresentSuffix` (for example conjugation_engine/src/dialects/lebanese/rootAugmentation.ts:69 and conjugation_engine/src/dialects/lebanese/conjugation_templates/regular_stem1.ts:101). The `conditions` type at conjugation_engine/src/Conjugation.ts:48 has no such key, and the matcher (conjugation_engine/src/ConjugationRuleMatcher.ts:74) tests only `hasPresentVowelSuffix`. As written, the matcher ignores the key and those conditions always pass. The model reads the key as `hasPresentVowelSuffix`, which tests whether the present suffix starts with a long vowel.
- conjugation_engine/src/dialects/lebanese/LebaneseConjugator.ts:50 constructs the rule matcher without the `doesSuffixBeginWithSukun` argument that conjugation_engine/src/ConjugationRuleMatcher.ts:26 declares. Together with the key above, this suggests the Lebanese files were written against a different version of the engine than the one modelled here. The model follows the engine's matcher as shown.
- Some members of the Lebanese stem-1 context enum are absent from its listed string values. Their code is the member's own name.
- These functions are parameters of the model: whether a present suffix starts with a long vowel, or with Waw or Ya; the Lebanese hamza-on-R1 special case; and the irregular verb ija. Their bodies are outside the modelled files.
- Similarity scores are exact rationals (Dafny `real`), not floating-point numbers. The 0.1 and 0.25 penalties are exact.
- The dialect metadata, the dialect conjugators' orchestration (MSAConjugator.ts, LebaneseConjugator.ts), the other stems' verbal-noun and hamza tables, the assimilated and defective special cases, and the src/ conjugation templates are not part of this model.
- Fetching, scraping and printing test fixtures is I/O and is not modelled.

## Findings

| source | as written | input that shows it | evidently intended | confidence | as-written member | corrected member |
|---|---|---|---|---|---|---|
| conjugation_engine/src/Util.ts:178-187 | RemoveTashkilButKeepShadda strips Dhamma, Fatha, Fathatan, Kasra, Kasratan, Sukun and the dagger alef, but not Dhammatan, so RemoveTashkil leaves Dhammatan in place | Ba followed by Dhammatan comes back unchanged | every tashkil mark, Dhammatan included, is removed | not executed | Util.RemoveTashkilKeepsDhammatan | Util.RemoveAllTashkil |
