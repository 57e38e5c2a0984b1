# Old Irish CoNLL-U conversion and repair scripts: a verified model

This project models the processing scripts of the UD Old Irish CritMinorGlosses
treebank in Dafny. There are five scripts:

- `current_conllu_maker.py` turns rows of a morphological analysis table into
  sentences of word records. It preprocesses the cells and groups the rows into
  sentences by text-unit id. It marks verbs with the lenition, nasalisation and
  object markers that neighbouring particles and infixed pronouns contribute, then
  deletes the absorbed and extraneous morphs. It assigns heads to determiners and
  prepositions, derives UD features from the analysis code, and assigns UPOS and
  dependency relations. It also has a morph-to-word span finder.
- `edit_conllu.py` repairs an existing CoNLL-U file. It has key-based feature
  rules, deletion of null-valued features, filling of DEPS, its own copy of the
  UPOS and DEPREL rules, a case table for prepositions, pronoun features and a
  mutation classifier.
- `unfinished_sentences.py` and its older copy `find_unfinished_sentences.py`
  check which sentences are fully tagged (head and relation) and bucket the
  unfinished ones by length.
- `FindingRelativeVerbs.py` sorts the sentences with a `RelType=Other` verb
  into those whose verb has a supporting left neighbour and those to check by hand.

Modules, one per concern:

- `Wrappers`: `Option`, `Result` and the Python exceptions the model raises.
- `Strings`: `startswith`, `in` on strings, and decimal rendering.
- `Feats`: a feature dict as an association list in insertion order.
- `Tokens`: a CoNLL-U token and a parsed sentence.
- `Words`: a row dict of the converter, and `list.remove`.
- `Preprocess`: section 1 of the converter, on an `array` of rows.
- `SentenceDict`: section 2.
- `Relations`, `RelationPasses`, `Extraneous` and `Heads`: sections 3 and 4.
- `Concatenations`: `check_concatenations`.
- `Features`: section 5.
- `Tagging`: the UPOS and DEPREL rules of both scripts.
- `EditConllu`: the rest of the repair script.
- `Unfinished`, `FindUnfinished` and `RelativeVerbs`: the three checking scripts.

Python objects are modelled as follows:

- A word of the converter is a `map<string, string>`, as the row dict is. Python's
  `==`, `in`, `.index` and `.remove` on words compare values, so the model does too.
- Lists of verbs, particles and nouns that alias the sentence's dicts are lists of
  positions in the sentence.
- Passes that change a sentence in place return its new value, or work on an
  `array<Token>` when they rewrite tokens one by one.
- Each method is proved against a function that states its effect. Lemmas then
  state what that function means.

## Model

| member | source | states |
|---|---|---|
| Preprocess.Preprocess1 | not_to_release/current_conllu_maker.py:85-88 | every row's analysis cell that was empty becomes `No_Features`; all other cells keep their value |
| Preprocess.Preprocess2 | not_to_release/current_conllu_maker.py:93-97 | every cell of every row is passed through the empty-or-`No`-to-`_` rewrite |
| Preprocess.Pre2Effect | not_to_release/current_conllu_maker.py:93-97 | afterwards no cell is empty or `No`, and a second run changes nothing |
| Preprocess.Preprocess3 | not_to_release/current_conllu_maker.py:103-107 | each row is rewritten by the Rel fold, in place |
| Preprocess.Pre3Effect | not_to_release/current_conllu_maker.py:103-107 | Rel becomes `_`; `rel.` is appended to the analysis exactly when Rel was `Yes` and `.rel.` was absent; no other cell changes |
| Preprocess.Pre3Idempotent | not_to_release/current_conllu_maker.py:103-107 | running preprocess_3 twice equals running it once |
| Preprocess.Preprocess4 | not_to_release/current_conllu_maker.py:113-117 | each row is rewritten by the transitivity fold, in place |
| Preprocess.Pre4Effect | not_to_release/current_conllu_maker.py:113-117 | Trans becomes `_`; its value is appended to the analysis exactly when it is `trans.` or `intrans.`; no other cell changes |
| Preprocess.Pre4Idempotent | not_to_release/current_conllu_maker.py:113-117 | running preprocess_4 twice equals running it once |
| Preprocess.Preprocess5 | not_to_release/current_conllu_maker.py:122-132 | every cell is passed through the gloss clean-up |
| Preprocess.Pre5Effect | not_to_release/current_conllu_maker.py:122-132 | a cell with none of the four tested phrases is unchanged; `, definite article` loses 18 characters; `definite article` without the comma passes the test but stays; `that ; substantivizing particle` loses `that ; `; no cell grows |
| Preprocess.Preprocess6 | not_to_release/current_conllu_maker.py:138-143 | the header row is untouched; every data row gets the `Analysis=` and `Gloss=` prefixes |
| Preprocess.Preprocessing | not_to_release/current_conllu_maker.py:148-155 | every row ends as the six passes in order make it |
| Preprocess.FlagsFolded | not_to_release/current_conllu_maker.py:85-117 | after the first four passes the analysis is the sentinel or cleaned code, then `rel.` and the transitivity value as the flags say; both flag columns are `_` |
| Preprocess.PreprocessedShape | not_to_release/current_conllu_maker.py:138-155 | after preprocessing every data row's analysis starts with `Analysis=` and its gloss with `Gloss=`, and Rel and Trans are `_` |
| SentenceDict.Zip | not_to_release/current_conllu_maker.py:174 | `dict(zip(names, values))` has exactly the names that have a value |
| SentenceDict.ZipLastWins | not_to_release/current_conllu_maker.py:174 | each name maps to the cell at its last position among the paired names: a name that occurs once maps to its own cell, and a repeated name keeps the later cell |
| SentenceDict.MakeDictionaryOfSentences | not_to_release/current_conllu_maker.py:167-179 | IndexError exactly for an empty table or a row without an id column; otherwise the keys are the ids in first-appearance order, and each key holds its rows zipped with the header row, in input order |
| SentenceDict.FirstAppearancesOrder | not_to_release/current_conllu_maker.py:172-178 | the keys are exactly the distinct ids, each once, ordered by where each id first appears |
| SentenceDict.TotalRowCount | not_to_release/current_conllu_maker.py:167-179 | the group sizes add up to `len(data) - 1`: every data row is in exactly one group |
| Relations.IndicesOf | not_to_release/current_conllu_maker.py:191-205 | a kind's list is increasing and in range |
| Relations.IndicesOfFacts | not_to_release/current_conllu_maker.py:191-205 | a position is in a kind's list exactly when its word has that kind, so the four lists are disjoint |
| Relations.BuildLists | not_to_release/current_conllu_maker.py:191-205 | the verbs, relative particles, infixed pronouns and dummy preverbs of the sentence, in sentence order |
| Relations.InfixedSpec | not_to_release/current_conllu_maker.py:252-288 | the object-marker pass keeps the sentence's length and every word's columns other than the analysis |
| Relations.RelSpec | not_to_release/current_conllu_maker.py:237-249 | the relative-marker pass keeps the sentence's length and every word's columns other than the analysis |
| Relations.TripleSpec | not_to_release/current_conllu_maker.py:212-234 | the triple pass keeps the sentence's length and every word's columns other than the analysis |
| Relations.CompareVerbsAndInfixedPronouns | not_to_release/current_conllu_maker.py:252-288 | each verb's analysis gains, pronoun by pronoun, the object marker, the pronoun's analysis and `]` for every pronoun in its stressed unit whose form lies inside the verb's; no other column or word changes |
| Relations.InfixForVerb | not_to_release/current_conllu_maker.py:253-288 | one verb against every pronoun: only that verb's analysis grows, by the marks of all pronouns |
| Relations.InfixMarksFrame | not_to_release/current_conllu_maker.py:253-288 | the marks a verb gets depend only on the listed pronouns |
| Relations.CompareVerbsAndRelativeParticles | not_to_release/current_conllu_maker.py:237-249 | each verb's analysis gains `len` or `nas` from every relative particle in its stressed unit, in list order; nothing else changes |
| Relations.RelForVerb | not_to_release/current_conllu_maker.py:238-249 | one verb against every particle: only that verb's analysis grows |
| Relations.CompareVerbsRelativeParticlesAndInfixedPronouns | not_to_release/current_conllu_maker.py:212-234 | the verb-major product of the three lists: a triple in one stressed unit marks the verb when the pronoun lies inside it, and marks the pronoun as a lenited or nasalised class C pronoun otherwise; only analyses change |
| Relations.TripleStep | not_to_release/current_conllu_maker.py:214-233 | one triple writes the verb's mark and the pronoun's mark and nothing else |
| Relations.TripleForPair | not_to_release/current_conllu_maker.py:212-234 | one verb and one particle against every pronoun: the verb gains its row of marks, each pronoun its own mark, all other words are unchanged |
| Relations.TripleForVerb | not_to_release/current_conllu_maker.py:212-234 | one verb against every particle and pronoun, stated word by word |
| Relations.TripleSpecIs | not_to_release/current_conllu_maker.py:212-234 | the state after all verbs is the closed form of the whole product |
| RelationPasses.RemoveForVerb | not_to_release/current_conllu_maker.py:293-297 | the inner loop removes, by value, exactly the candidates this verb absorbs |
| RelationPasses.RemoveTrueInfixedPronouns | not_to_release/current_conllu_maker.py:293-297 | `sentence.remove` of every pronoun in a verb's stressed unit whose form lies inside the verb's, pair by pair in product order |
| RelationPasses.RemoveDummyPreverb | not_to_release/current_conllu_maker.py:304-308 | `sentence.remove` of every dummy preverb in a verb's stressed unit that begins the verb's form |
| RelationPasses.RemovalMeaning | not_to_release/current_conllu_maker.py:293-308 | the deletions succeed exactly when each absorbed word is present as often as it is absorbed, and fail only with ValueError; on success exactly those words go and the rest keep their order |
| RelationPasses.AbsorbedAreAbsorbed | not_to_release/current_conllu_maker.py:293-308 | only candidates that some verb absorbs are removed |
| RelationPasses.LookForRelativeOrInfixedVerbsIn | not_to_release/current_conllu_maker.py:316-327 | one sentence: lists built; object markers; then relative markers, through the triple product when there are infixed pronouns; then the two deletions on the current values |
| RelationPasses.Marked | not_to_release/current_conllu_maker.py:316-325 | the three comparisons keep the sentence's length and every column but the analysis |
| RelationPasses.LookForRelativeOrInfixedVerbsInAll | not_to_release/current_conllu_maker.py:315-328 | succeeds exactly when every sentence's pass succeeds, failing only with ValueError; keeps the keys and their order and replaces every sentence by its pass |
| RelationPasses.RemovalErrors | not_to_release/current_conllu_maker.py:315-328 | the relation pass of a sentence can only fail with ValueError |
| RelationPasses.ListsDisjoint | not_to_release/current_conllu_maker.py:191-205 | no position is in two of the kind lists `build_list` makes |
| RelationPasses.InfixedPronounExample | not_to_release/current_conllu_maker.py:252-297 | a verb with a third-singular masculine infixed pronoun gains `obj3sg.masc.`, the pronoun's analysis and `]`, and the pronoun is deleted |
| RelationPasses.CompoundDetectorIn | not_to_release/current_conllu_maker.py:334-340 | the enumerate loop over the shrinking list, popping at each compound element or prefix particle |
| RelationPasses.CompoundStepDeletes | not_to_release/current_conllu_maker.py:336-340 | one compound step only deletes, and leaves the words before it alone |
| RelationPasses.CompoundDetector | not_to_release/current_conllu_maker.py:333-340 | keeps the keys and their order; each sentence is replaced by the detector's result |
| RelationPasses.CompoundFromDeletes | not_to_release/current_conllu_maker.py:333-340 | the detector only deletes: the result is a subsequence, and nothing before the start position changes |
| RelationPasses.NoCompoundUnchanged | not_to_release/current_conllu_maker.py:333-340 | a sentence with no compound element and no prefix particle is unchanged |
| Extraneous.Keep | not_to_release/current_conllu_maker.py:351-378 | the filter is never longer than the sentence |
| Extraneous.RemoveIn | not_to_release/current_conllu_maker.py:352-356 | the reversed `del sent[i]` loop equals the order-preserving filter of the pass |
| Extraneous.RemoveRelativeParticlesIn | not_to_release/current_conllu_maker.py:351-356 | every sentence loses its relative particles; keys and order kept |
| Extraneous.RemovePreverbsIn | not_to_release/current_conllu_maker.py:361-368 | every sentence loses its augments and its preverbs other than `no·` |
| Extraneous.RemoveNullIn | not_to_release/current_conllu_maker.py:373-378 | every sentence loses its `∅` morphs |
| Extraneous.RemoveInAll | not_to_release/current_conllu_maker.py:351-378 | a filter pass over the sentence dict keeps the keys and their order and filters every sentence |
| Extraneous.RemoveAllExtraneousInfoIn | not_to_release/current_conllu_maker.py:383-386 | the three passes in order equal one filter on their combined test |
| Extraneous.ThreePasses | not_to_release/current_conllu_maker.py:383-386 | the three filters in a row are the single filter on their combined test |
| Extraneous.KeepMeaning | not_to_release/current_conllu_maker.py:351-378 | nothing a pass drops is left, every other word is kept, and the survivors keep their order |
| Extraneous.RelevantMeaning | not_to_release/current_conllu_maker.py:351-386 | afterwards no relative particle, augment, preverb other than `no·` or `∅` morph remains; every other word is still there, in order |
| Heads.ListOfDetsAndNounsIn | not_to_release/current_conllu_maker.py:392-405 | the determiners, nominals and prepositions of the sentence, by their tested order |
| Heads.PositionsFacts | not_to_release/current_conllu_maker.py:392-405 | a position is in a role's list exactly when its word has that role |
| Heads.RolesDisjoint | not_to_release/current_conllu_maker.py:392-405 | the three lists share no position |
| Heads.CaseCheck | not_to_release/current_conllu_maker.py:443-449 | only the preposition's analysis can change |
| Heads.CaseCheckMeaning | not_to_release/current_conllu_maker.py:443-449 | the preposition changes exactly when it has `No_Features` and the noun has one of the three cases; the first of `acc.`, `dat.`, `gen.` is appended; a second check appends again |
| Heads.HeadPass | not_to_release/current_conllu_maker.py:415-471 | the nested loops of either head function over the two lists give the fold of its step over their product |
| Heads.WithCaseHead | not_to_release/current_conllu_maker.py:432 | writing a head changes only the head word's HEAD, to the 1-based position of the noun |
| Heads.HeadOfArticle2 | not_to_release/current_conllu_maker.py:415-437 | the loop over the product of determiners and nouns gives the fold of the article step |
| Heads.HeadOfPreposition | not_to_release/current_conllu_maker.py:452-471 | the loop over the product of prepositions and nouns gives the fold of the preposition step |
| Heads.HeadRow | not_to_release/current_conllu_maker.py:416-437 | the inner loop: one head candidate against every noun |
| Heads.FindHeadIn | not_to_release/current_conllu_maker.py:474-476 | the article pass, then the preposition pass on its result |
| Heads.HeadsOf | not_to_release/current_conllu_maker.py:474-482 | only heads and preposition analyses change; ids, order and length are kept |
| Heads.AssignHeadIn | not_to_release/current_conllu_maker.py:479-482 | keys and order kept; each sentence gets both passes on its own lists |
| Heads.ArticleHeads | not_to_release/current_conllu_maker.py:415-437 | a greedy matching: each pair is a determiner and noun sharing the stressed unit; no determiner or noun is used twice; the head written is the noun's 1-based position; each noun is the earliest free linked one; every linked determiner or noun is matched |
| Heads.PrepositionHeads | not_to_release/current_conllu_maker.py:452-471 | at most one pair is recorded: the first preposition that meets a noun, with its first linked noun. Every later preposition ends with the last linked noun other than the recorded one as head, or unchanged if there is none. The `case_check` append to a preposition's analysis at each matching step is not stated here; it is stated per step by Heads.CaseCheckMeaning, and Heads.HeadsOf bounds it to preposition analyses |
| Heads.HeadIndexIsPosition | not_to_release/current_conllu_maker.py:432 | with distinct ids, `index(noun) + 1` is the noun's own 1-based position |
| Heads.FirstLinkedMeaning | not_to_release/current_conllu_maker.py:458-464 | the first linked noun is found exactly when one exists, and no earlier noun is linked |
| Heads.LastFreeMeaning | not_to_release/current_conllu_maker.py:465-471 | the last fresh linked noun is found exactly when one exists, and no later noun qualifies |
| Heads.FirstPrepositionRow | not_to_release/current_conllu_maker.py:455-464 | while no pair is recorded, the row of a preposition records it with its first linked noun, or changes nothing if none |
| Heads.LaterPrepositionRow | not_to_release/current_conllu_maker.py:465-471 | once a pair is recorded, the row of another preposition sets its head to its last linked noun other than the recorded one |
| Heads.HeadsOfFacts | not_to_release/current_conllu_maker.py:474-482 | for a sentence with distinct ids, both properties above hold for the two passes `find_head_in` runs |
| Concatenations.Normalize | not_to_release/current_conllu_maker.py:1142-1143 | normalising never lengthens a string |
| Concatenations.NormalizeChars | not_to_release/current_conllu_maker.py:1142-1143 | exactly the ASCII letters and digits survive; accented letters and `·` are deleted, and case is kept |
| Concatenations.NormalizeIdempotent | not_to_release/current_conllu_maker.py:1142-1143 | normalising twice is normalising once |
| Concatenations.NormalizeAlnum | not_to_release/current_conllu_maker.py:1142-1143 | a string of ASCII letters and digits is left as it is |
| Concatenations.NormalizeAll | not_to_release/current_conllu_maker.py:1142-1143 | the lists are normalised element by element, keeping their length |
| Concatenations.CheckConcatenations | not_to_release/current_conllu_maker.py:1141-1156 | the accumulator loop returns the spans of the scan over the normalised lists, or IndexError |
| Concatenations.SpansSound | not_to_release/current_conllu_maker.py:1141-1156 | each triple `(t, i, j)` has `i < j`, and normalised morphs `i..j` concatenate to normalised word `t`; the triples grow strictly in `t`, and their morph ranges are disjoint and increasing |
| Concatenations.ScanSound | not_to_release/current_conllu_maker.py:1146-1155 | every span the scan records, after any number of morphs read, concatenates to its word |
| Concatenations.FailureSticks | not_to_release/current_conllu_maker.py:1148-1150 | once the scan has failed, reading further morphs gives the same IndexError |
| Concatenations.FailureMeaning | not_to_release/current_conllu_maker.py:1148-1150 | the scan fails exactly when a morph remains after every word has been matched |
| Concatenations.FailureIsIndex | not_to_release/current_conllu_maker.py:1148-1150 | the only error is IndexError |
| Concatenations.AllWordsSpelled | not_to_release/current_conllu_maker.py:1146-1155 | once every word is matched, the morphs read so far spell the whole sentence |
| Concatenations.DocExample | not_to_release/current_conllu_maker.py:1134-1155 | the commented example returns `[(0,1,2), (1,3,4), (2,5,7)]`: word numbers start at 0, and `lmn`, spelled by one morph, gives no triple |
| Concatenations.DocExampleNormalized | not_to_release/current_conllu_maker.py:1142-1143 | the example's lists are already normalised |
| Features.ApplyEffect | not_to_release/current_conllu_maker.py:500-853 | each rule writes its own key on word lines only and keeps every other key and field |
| Features.ApplyRulesKeep | not_to_release/current_conllu_maker.py:860-902 | a battery of rules changes only features and keeps the analysis code |
| Features.ApplyRulesOther | not_to_release/current_conllu_maker.py:860-902 | a key that no rule of a battery writes keeps its value |
| Features.VoiceMeaning | not_to_release/current_conllu_maker.py:716-723 | every verb gets Voice `Pass` exactly when its code says `pass`, and `Act` otherwise |
| Features.MoodMeaning | not_to_release/current_conllu_maker.py:730-739 | every verb gets a mood: Impv > Subj > Ind |
| Features.RelativeTypeMeaning | not_to_release/current_conllu_maker.py:787-796 | RelType is set exactly when `rel` occurs: Len before Nas before Other |
| Features.TenseMakesFinite | not_to_release/current_conllu_maker.py:692-748 | after the verb stage a word whose code names a tense has that tense and `VerbForm=Fin` |
| Features.TenseThenFinite | not_to_release/current_conllu_maker.py:692-748 | the tense rule, the voice and mood rules, then finiteness, leave the tense read from the code and `VerbForm=Fin` |
| Features.StageKeeps | not_to_release/current_conllu_maker.py:860-902 | every stage but the last changes only FEATS and keeps the analysis code |
| Features.FirstEligibleMeaning | not_to_release/current_conllu_maker.py:607-614 | no word before the first eligible one is eligible, and None means no word is |
| Features.FirstEligible | not_to_release/current_conllu_maker.py:607-614 | an index found is in range and eligible |
| Features.AnalyzeCaseWith | not_to_release/current_conllu_maker.py:617-628 | every token of the sentence, for any table with non-empty cases, ends as the per-word case rule makes it |
| Features.AssignCase | not_to_release/current_conllu_maker.py:607-614 | the product scan with its stop at the first assignment gives the first eligible preposition the case of the first table entry for its lemma; nothing else changes |
| Features.CaseFinder | not_to_release/current_conllu_maker.py:602-605 | `assign_case` with the converter's preposition table |
| Features.AnalyzeCaseInPrepositionsIn | not_to_release/current_conllu_maker.py:617-628 | the loop that calls `case_finder` on the whole sentence has the effect, word by word, of: code case first, else an existing case kept, else the table case |
| Features.PrepositionsGetCase | not_to_release/current_conllu_maker.py:617-635 | after the preposition stage every preposition with a word id has a Case (falling back to `Unk`) |
| Features.DeleteNullMeaning | not_to_release/current_conllu_maker.py:907-913 | FEATS becomes `_` exactly when the code contains `No_Features` and `Analysis` is the only key; otherwise only the `Analysis` key is removed |
| Features.ChangeSubstantiveAnalysis | not_to_release/current_conllu_maker.py:860-865 | every token gets the substantive stage |
| Features.ChangeVerbAnalysis | not_to_release/current_conllu_maker.py:870-883 | every token gets the twelve verb rules in order |
| Features.ChangePrepositionAnalysis | not_to_release/current_conllu_maker.py:888-894 | every token gets the preposition stage, including the case loop and `latin_check` |
| Features.ChangeOtherAnalyses | not_to_release/current_conllu_maker.py:898-902 | every token gets the possessive, deixis, pronoun-type and person rules |
| Features.DeleteNullValuesIn | not_to_release/current_conllu_maker.py:907-913 | every token gets the null-feature deletion |
| Features.ChangeAllAnalyses | not_to_release/current_conllu_maker.py:917-924 | every token of every sentence ends as the five stages in turn make it |
| Features.VerbStageSplit | not_to_release/current_conllu_maker.py:870-883 | the verb stage is its five groups of rules in order |
| Features.PrepositionStageOnVerb | not_to_release/current_conllu_maker.py:888-894 | the preposition stage leaves every verb alone |
| Features.OtherStageOnVerb | not_to_release/current_conllu_maker.py:898-902 | the last feature stage leaves a verb alone unless its lemma is `cach`, `cách`, `nech` or `nach 1` |
| Features.VerbLemmaPronType | not_to_release/current_conllu_maker.py:825-839 | the PronType rule tests those four lemmas before the XPOS, so a verb gets a PronType exactly when its lemma is one of them: `Tot` for `cach`/`cách`, `Ind` for `nech`/`nach 1` |
| Features.RelativeVerbConverted | not_to_release/current_conllu_maker.py:917-924 | a word-line verb with code `3sg.pres.len.rel` ends with `Person[Subj]=3, Number[Subj]=Sing, Tense=Pres, Voice=Act, Mood=Ind, VerbForm=Fin, RelType=Len` and no Analysis key |
| Features.LikeRelativeConverted | not_to_release/current_conllu_maker.py:917-924 | the same final features for every code that holds the same rule patterns |
| Tagging.AssignUpos | not_to_release/current_conllu_maker.py:933-938 | every token of the sentence takes its UPOS from the product with the table |
| Tagging.UposRow | not_to_release/current_conllu_maker.py:934-938 | the inner loop over the pairs leaves the value of the last matching pair |
| Tagging.UposFinder | not_to_release/current_conllu_maker.py:940-955 | every sentence of the list is tagged with `upos_list` |
| Tagging.UposRuleMeaning | not_to_release/edit_conllu.py:103-107 | only UPOS changes; a token whose XPOS is a key gets the value of a pair with that key that no later pair overrides; a token whose XPOS is no key keeps its UPOS |
| Tagging.LastValueSound | not_to_release/edit_conllu.py:103-107 | a value found belongs to a pair with that key that no later pair overrides |
| Tagging.LastValueFound | not_to_release/edit_conllu.py:103-107 | the pair with the key that no later pair overrides gives the value |
| Tagging.LastValueMissing | not_to_release/edit_conllu.py:103-107 | a key no pair has gives no value, so the token is untouched |
| Tagging.InterrogativeIsPron | not_to_release/edit_conllu.py:110-123 | `particle_interrogative` ends as PRON, the later of its two entries |
| Tagging.ConjunctionPass | not_to_release/current_conllu_maker.py:1027-1032 | every `conjunction` whose lemma contains an item of the list gets the relation and UPOS |
| Tagging.ConjunctionRow | not_to_release/current_conllu_maker.py:1028-1032 | the inner loop over the items for one token |
| Tagging.ConjunctionFinder | not_to_release/current_conllu_maker.py:1034-1038 | every sentence gets the conjunction pass with its list |
| Tagging.DoAllDeprel | not_to_release/current_conllu_maker.py:1059-1068 | each rule runs over all sentences before the next; every token ends as the rules in that order make it |
| Tagging.EarlyForm | not_to_release/current_conllu_maker.py:960-983 | on a word line the copula, article and preposition rules give: a preposition without a Person feature `case`, else `in 1` (and, in the converter only, a quantifier adjective) `det`, else `is 1` `cop`; `is 1` also becomes AUX; other tokens are unchanged |
| Tagging.MiddleForm | not_to_release/current_conllu_maker.py:988-1012 | `.i.` becomes the abbreviation, CCONJ, `cc`; otherwise numerals are `nummod` and negative particles `advmod:neg` |
| Tagging.LateForm | not_to_release/edit_conllu.py:175-179 | complementisers and `no·` become `mark:prt`, SCONJ; otherwise, in the repair script only, the second copula pass makes `is 1` AUX with relation `cop` again |
| Tagging.ConjunctionsForm | not_to_release/edit_conllu.py:181-203 | a conjunction with a coordinating item is `cc`, CCONJ, else one with a subordinating item is `mark`, SCONJ |
| Tagging.DeprelsPriority | not_to_release/edit_conllu.py:205-215 | the whole DEPREL run equals a priority list for the relation and UPOS; XPOS changes only for `.i.`; nothing else changes |
| Tagging.AbbreviationWins | not_to_release/edit_conllu.py:163-168 | `.i.` ends with XPOS `abbreviation`, UPOS CCONJ and relation `cc` |
| Tagging.CoordinationAfterSubordination | not_to_release/edit_conllu.py:205-215 | the coordinating list runs last: a lemma with items of both lists ends `cc`/CCONJ, one with only a subordinating item `mark`/SCONJ |
| Tagging.NumeralCopula | not_to_release/edit_conllu.py:205-215 | a numeral `is 1` stays `nummod` in the converter but becomes `cop` in the repair script |
| EditConllu.KeyRuleRow | not_to_release/edit_conllu.py:55-64 | the loop over the keys of a copy taken before any assignment |
| EditConllu.AnalyzeKeysIn | not_to_release/edit_conllu.py:33-64 | every token of the sentence gets the person, number or gender key rule |
| EditConllu.AssignLookup | not_to_release/edit_conllu.py:33-64 | afterwards a feature holds what the last key that writes it assigned; a feature no key writes keeps its value |
| EditConllu.AssignUnique | not_to_release/edit_conllu.py:33-64 | the dict's keys stay unique |
| EditConllu.KeyRuleFrame | not_to_release/edit_conllu.py:33-64 | only preposition, possessive and pronominal-particle tokens change, and only their Person, Number or Gender |
| EditConllu.GenderTargets | not_to_release/edit_conllu.py:55-64 | only a key containing `masc.` writes Gender; `fem.` and `neut.` write Number |
| EditConllu.GenderOnlyFromMasc | not_to_release/edit_conllu.py:55-64 | without a key containing `masc.`, Gender keeps its old value |
| EditConllu.DeleteNullRow | not_to_release/edit_conllu.py:70-74 | the loop over a copy of the items equals keeping `No_Features` and every key with a value, in order |
| EditConllu.DeleteStep | not_to_release/edit_conllu.py:72-74 | each visited key still holds its value, and deleting it drops exactly that entry |
| EditConllu.DeleteNullValuesIn | not_to_release/edit_conllu.py:68-74 | every token gets the deletion; tokens without features are skipped |
| EditConllu.DeleteNullsMeaning | not_to_release/edit_conllu.py:68-74 | afterwards no key other than `No_Features` maps to None; keys with values are untouched; tokens without features are unchanged; no other field changes |
| EditConllu.KeepNonNullIn | not_to_release/edit_conllu.py:68-74 | the entries kept are exactly the entries of the dict that are `No_Features` or have a value |
| EditConllu.FillDepsIn | not_to_release/edit_conllu.py:78-80 | every token's DEPS is set from its head and relation |
| EditConllu.FillDepsMeaning | not_to_release/edit_conllu.py:78-80 | only DEPS changes, filling twice is filling once, and the head (the digits before the first colon) and the relation can be read back |
| EditConllu.MutationFinder | not_to_release/edit_conllu.py:222-229 | one class per token, in order, as the branches test |
| EditConllu.MutationClasses | not_to_release/edit_conllu.py:222-229 | each class holds exactly when one of its own prefixes starts the form (the three groups exclude each other), and only the first two characters matter |
| EditConllu.AssignValueToDefinite | not_to_release/edit_conllu.py:236-239 | every definite article gets `Definite=Def` |
| EditConllu.AssignValueToPoss | not_to_release/edit_conllu.py:241-244 | every possessive pronoun gets `Poss=Yes` |
| EditConllu.AssignValueToDeixis | not_to_release/edit_conllu.py:246-251 | every token gets the deixis rule |
| EditConllu.DeixisEffect | not_to_release/edit_conllu.py:246-251 | distal forms get `Remt`, proximate forms `Prox`, and nothing else changes |
| EditConllu.AssignValueToPronType | not_to_release/edit_conllu.py:253-268 | every token gets the PronType rule |
| EditConllu.PronTypeEffect | not_to_release/edit_conllu.py:253-268 | a classified token gets exactly its class as PronType; no other feature or field changes |
| EditConllu.PronTypeOrder | not_to_release/edit_conllu.py:253-268 | `Prs` exactly for the personal XPOS values; `Dem` exactly for demonstrative pronouns whose lemma is not one of the `Tot`/`Ind` lemmas |
| EditConllu.BuildListOfNounsAndDetIn | not_to_release/edit_conllu.py:272-280 | the NOUN tokens and the DET tokens, in sentence order |
| EditConllu.WithUposMeaning | not_to_release/edit_conllu.py:272-280 | a token is listed exactly when it is in the sentence with that UPOS |
| EditConllu.NounsAndDetsFit | not_to_release/edit_conllu.py:272-280 | the two lists together are no longer than the sentence |
| EditConllu.CaseRow | not_to_release/edit_conllu.py:297-301 | the inner loop over the table for one token |
| EditConllu.AssignCase | not_to_release/edit_conllu.py:291-301 | every token of the sentence gets the case table rule; only an ADP whose lemma is a table key needs a feature dict |
| EditConllu.CaseRuleMeaning | not_to_release/edit_conllu.py:291-301 | an ADP whose lemma is a key gets a Case its key carries, one that no later pair overrides; other tokens are untouched; no other feature or field changes |
| EditConllu.AssignPersonToPronouns | not_to_release/edit_conllu.py:303-311 | every token gets the pronoun person rule; only a candidate whose lemma holds 1, 2 or 3 needs a feature dict |
| EditConllu.PronounPersonEffect | not_to_release/edit_conllu.py:303-311 | Person is written only for candidates (every possessive, and independent pronouns with `pron` in the lemma) whose lemma contains 1, 2 or 3, the lowest digit winning; nothing else changes |
| Unfinished.CheckHeadDeprel | not_to_release/unfinished_sentences.py:32-53 | the done flags of the real words and their number |
| Unfinished.RealWordsMeaning | not_to_release/unfinished_sentences.py:39-42 | the real words are exactly the integer-id tokens whose UPOS lacks `PUNCT`, each as often as in the sentence; range ids are excluded |
| Unfinished.FlagsMeaning | not_to_release/unfinished_sentences.py:44-51 | every flag is 0 or 1; a 1 exactly for some word with a head and relation not `_`; a 0 exactly for some word without a head; flags plus head-only words equal the real-word count |
| Unfinished.FinishedMeaning | not_to_release/unfinished_sentences.py:65-72 | `all(done)` holds exactly when every real word has a head, vacuously for no words |
| Unfinished.CheckFinishedSentences | not_to_release/unfinished_sentences.py:58-74 | the entries `(sent_id, length)` of the finished and of the unfinished sentences, each in input order |
| Unfinished.PartitionMeaning | not_to_release/unfinished_sentences.py:58-74 | each sentence's entry lands in exactly one of the two lists |
| Unfinished.WhereSound | not_to_release/unfinished_sentences.py:65-72 | an entry is in the finished list exactly when it belongs to a finished sentence, and in the other list otherwise |
| Unfinished.OrganizeUnfinishedSentences | not_to_release/unfinished_sentences.py:76-93 | IndexError exactly for an empty list; otherwise `n` buckets, bucket `k` holding the entries of length `k + 1` in input order |
| Unfinished.Distribute | not_to_release/unfinished_sentences.py:87-90 | the inner loop appends the entry to the bucket of its length and to no other |
| Unfinished.OfLengthMeaning | not_to_release/unfinished_sentences.py:84-90 | a bucket holds exactly the entries of its length, so lengths of 0 or above the bucket count are dropped |
| FindUnfinished.CheckHeadDeprel | not_to_release/find_unfinished_sentences.py:14-33 | the same flags and count as the newer copy, for every sentence |
| FindUnfinished.CheckFinishedSentences | not_to_release/find_unfinished_sentences.py:35-49 | the same two lists as the newer copy |
| FindUnfinished.OrganizeUnfinishedSentences | not_to_release/find_unfinished_sentences.py:51-66 | the same error and buckets as the newer copy |
| RelativeVerbs.ClassifySentence | not_to_release/FindingRelativeVerbs.py:37-44 | the inner loop appends exactly the sentence's ids for the good and for the doubtful verbs |
| RelativeVerbs.FindRelativeVerbs | not_to_release/FindingRelativeVerbs.py:36-44 | `other_good` and `check_other` hold one id per qualifying verb of every sentence, split by context, in sentence order |
| RelativeVerbs.OnePerVerb | not_to_release/FindingRelativeVerbs.py:36-44 | each qualifying verb appends its sentence's id to exactly one list, and the lists hold nothing else |
| RelativeVerbs.VerbSorted | not_to_release/FindingRelativeVerbs.py:39-44 | a qualifying verb goes to `other_good` exactly when its left neighbour is an ADP or a relative pronoun with `PronType=Rel`, and to `check_other` otherwise |
| RelativeVerbs.Unclassified | not_to_release/FindingRelativeVerbs.py:38 | a token that is not a VERB, has `ō` in its lemma or lacks `RelType=Other` appends nothing |
| RelativeVerbs.FirstTokenReadsLast | not_to_release/FindingRelativeVerbs.py:39-41 | at position 0 the pronoun test reads the last token of the sentence |
| RelativeVerbs.FirstTokenExample | not_to_release/FindingRelativeVerbs.py:39-42 | a sentence that starts with a qualifying verb and ends with a relative pronoun files its id under `other_good` |
| Feats.LookupSet | not_to_release/edit_conllu.py:38 | assigning a key changes that key and no other |
| Feats.Set | not_to_release/edit_conllu.py:38 | after `feats[k] = v` the key holds `v` |
| Feats.SetSet | not_to_release/edit_conllu.py:33-64 | a second assignment to a key overrides the first |
| Feats.LookupRemove | not_to_release/edit_conllu.py:74 | deleting a key removes that key and no other |
| Words.RemoveFirst | not_to_release/current_conllu_maker.py:297 | `list.remove` succeeds exactly when the value is present, and fails with ValueError |
| Words.RemoveAllSucceeds | not_to_release/current_conllu_maker.py:293-308 | repeated `remove` succeeds exactly when every value is present as often as it is removed |
| Words.RemoveAllContents | not_to_release/current_conllu_maker.py:293-308 | what remains is the multiset difference, in the original order |

## Left out

- Reading the CSV file and `proper_sort` (`current_conllu_maker.py:1078-1097`): file I/O, plus Python's ordering of lists with mixed `str`/`int` cells. The model starts from the row matrix.
- `automation` (`current_conllu_maker.py:1102-1109`): it reads the file. Each of the passes it chains after grouping is modelled on its own.
- `write_out`, `conlluit` and the `__main__` driver, and the `serialize()` calls at the end of `change_all_analyses`: file writing and the `conllu` library. A parsed sentence is a plain `TokenList` record, and a token line with a tuple id is a `Range` id.
- The `ans` message strings built by the `compare_*` functions: they feed only diagnostics.
- The interactive code and file output of `unfinished_sentences.py`, `find_unfinished_sentences.py` and `FindingRelativeVerbs.py`, including `write_out`, the module-level loops and `new_sentences_list`/`open_conllu`. `check_finished_sentences` takes the already parsed list.
- `upos_is_x`, `assign_def_to_noun_in` and the printing in `mutation_finder`: print-only diagnostics. `mutation_finder` returns the class it would print.
- `do_all` (`edit_conllu.py:84`): the two passes it runs are modelled, and the rest is file output.
- The older `head_of_article` (`current_conllu_maker.py:408-413`): `find_head_in` does not call it.
- `Unfinished.OrganizeUnfinishedSentences`, `FindUnfinished.OrganizeUnfinishedSentences`: the bucket count is the last element of a Python `set` turned into a list, and depends on CPython's hash layout. It is the parameter `n`.
- Python crashes on input the scripts never expect are preconditions rather than error results:
  - KeyError on a missing column or `sent_id`;
  - TypeError or AttributeError on a FEATS field that is `None` or `'_'`, required only of the tokens a rule reads or writes a feature of;
  - IndexError on short rows in preprocessing.

  They appear as `AllHaveColumns`, `WellFormedSentences`, `HasAnalysis`, `Readable`, `AllHaveIds`, `FeatsWhere`, `PrepositionsHaveFeats` and the row-width requirements. Errors that ordinary input can trigger are modelled as `Result` values: IndexError in `check_concatenations`, `make_dictionary_of_sentences_out_of` and `organize_unfinished_sentences`, and ValueError in `list.remove`.
- Heads.ArticleHeads: proved only for sentences whose words carry distinct morph ids. With repeated ids, Python's value comparisons (`in`, `.index`) no longer identify positions. The methods themselves are exact for every input.
- Heads.PrepositionHeads: proved under the same distinct-id assumption.
- Preprocess.Pre5Effect: states the exact length change for the first two tested phrases only. The augment and copula branches are covered only by the facts that no cell grows and that a cell without any tested phrase is unchanged.
- `Feats` keeps a dict as an association list in insertion order. Dict ordering matters only where a rule iterates the keys, as in the repair script's key rules.
