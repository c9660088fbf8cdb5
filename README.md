# CEFR tagging core, modelled in Dafny

This project models three parts of the CEFR-level tagging pipeline:

- **The CEFR dictionary builder and level resolver** (`scripts/preprocess/tag_cefr.py`).
  - Two part-of-speech conversion tables and the one-entry exception table.
  - `create_cefr_dict`: folds a dictionary word list into a table from
    (lemma, tag) or (lemma, tag, c5) keys to lists of candidate levels, then
    overwrites four keys.
  - `create_cefr_dict_from_extended`: builds a supplementary table from the
    extended word list, without the primary keys.
  - `compare_cefr_levels`: UNK wins; otherwise the lowest of A1 < … < C2.
  - `handle_rows`: the four-tier lookup. The per-row lambda used when no
    extended list is given is also modelled.
- **The UNK sentence filter** (`context_based/src/filter_unk.py`).
  - A row is bad when it is UNK and its (POS, c5) pair is not a keep pair.
  - Every row sharing a SentenceID with a bad row is removed.
- **The corpus flattener** (`parse_bnc_xml` in `context_based/src/parse_bnc_xml.py`).
  - One record per `w` or `c` child of each sentence.
  - Records are numbered by one counter that runs across the whole file.

The two builders and the flattener work by changing state in nested loops. They
are therefore `method`s with `while` loops:

- `CreateCefrDict` and `CreateCefrDictFromExtended` create a key's list when it
  is missing and then append, as the source does.
- `ParseBncXml` appends records and bumps the counter.

Each method is proved equal to a specification function:

- `PrimaryDict` is a fold over word list, senses and target keys.
- `ExtendedDict` is the row fold, stopping at the first row that raises, then
  minus the primary keys.
- `Records(xmlId, Tokens(sentences))` numbers the k-th record-producing
  element k + 1.

Lemmas then say what those functions mean. For example, `PrimaryDictMeaning`
says which keys the primary table holds and which levels each list contains.
The resolver and the filter are pure in the source and are functions here.

Quirks of the code that the model keeps:

- An unknown label is skipped in the primary build and raises in the extended
  build.
- Primary words are lowercased; extended headwords keep their case.
- The extended table maps "vern" and "pronoun" to themselves. Tags are
  therefore plain strings.
- The extended loop's second test (line 123) checks the table itself, not the
  entry, so every non-string entry goes to the mapping branch. A list-valued
  entry would fail there (`NotAMapping`), but the extended table has none
  (`ExtendedTableShapes`).
- The pandas pre-filter at lines 109-110 compares raw (headword, label) pairs
  with the primary keys. It is modelled (`PreFiltered`) because it is not a
  no-op: a row ("shall", "VM0") is dropped when ("shall", "VM0") is a primary
  key. That is the case after the overrides (`PreFilterAvoidsKeyError`).
  Without the pre-filter the row would raise (`UnfilteredTagLabelRaises`).

Modules: `Wrappers` (Option, Result), `CefrTables`, `CefrDict`, `CefrExtended`,
`CefrResolve`, `CefrPipeline` (the two tables and the resolver together),
`UnkFilter` and `BncParse`.

## Model

| member | source | states |
|---|---|---|
| CefrTables.Lower | scripts/preprocess/tag_cefr.py:60 | the lowered word is lowercase and as long as the input; non-capitals are kept, each capital becomes its lowercase letter, and an already lowercase word is unchanged |
| CefrTables.ConversionTableShapes | scripts/preprocess/tag_cefr.py:7-25 | in the primary table, "adverb; preposition" is the only list label and "determiner" and "conjunction" the only mapping labels; every other label gives one tag |
| CefrTables.PrimaryTargets | scripts/preprocess/tag_cefr.py:64-91 | the keys one sense appends to: the exception key, else by label shape, else none; its contract is stated by PrimaryTargetsLemma, ThanTargetsException and UnknownLabelSkipped |
| CefrTables.PrimaryTargetsLemma | scripts/preprocess/tag_cefr.py:48-91 | every key a sense targets, the exception key included, carries the sense's own word as lemma |
| CefrDict.AppendAllMeaning | scripts/preprocess/tag_cefr.py:75-77 | appending one level to a run of keys adds exactly those keys, adds only that level to their lists, keeps earlier levels as a prefix, leaves other keys alone and leaves every touched list nonempty |
| CefrDict.ReachesSnoc | scripts/preprocess/tag_cefr.py:61-91 | one more sense adds exactly its own target keys, each with its level |
| CefrDict.AddEntriesMeaning | scripts/preprocess/tag_cefr.py:61-91 | the senses of one word add exactly the keys they target, with exactly their levels, and make those lists nonempty |
| CefrDict.ListReachesSnoc | scripts/preprocess/tag_cefr.py:59-61 | one more word adds exactly what its senses reach |
| CefrDict.AddWordsMeaning | scripts/preprocess/tag_cefr.py:58-91 | the whole loop adds exactly the keys some sense of some lowercased word targets, with exactly those senses' levels |
| CefrDict.WithOverridesOther | scripts/preprocess/tag_cefr.py:94-97 | the overrides leave every other key and its list unchanged |
| CefrDict.PrimaryOverrides | scripts/preprocess/tag_cefr.py:94-97 | after the build the four override keys map to exactly ["A1"], whatever the loop put there |
| CefrDict.PrimaryDictMeaning | scripts/preprocess/tag_cefr.py:58-97 | outside the overrides, a key is in the primary table iff some sense targets it, and a level is in its list iff some sense targeting it has that level |
| CefrDict.PrimaryNonEmpty | scripts/preprocess/tag_cefr.py:67-69 | every list in the primary table is nonempty |
| CefrDict.EntryReachesKey | scripts/preprocess/tag_cefr.py:71-91 | each key a sense targets is in the table, and unless overridden its list holds that sense's level |
| CefrDict.SingleSenseLevels | scripts/preprocess/tag_cefr.py:58-91 | with one word of one sense, each key it targets (not overridden) holds a nonempty list of that sense's level only |
| CefrDict.ThanTargetsException | scripts/preprocess/tag_cefr.py:48 | every sense of "than", whatever its label, targets exactly the key (than, CONJ, CJS) |
| CefrDict.UnknownLabelSkipped | scripts/preprocess/tag_cefr.py:71 | a sense whose label is not in the conversion table (of a non-exception word) targets no key |
| CefrDict.TargetsLowercase | scripts/preprocess/tag_cefr.py:60-91 | a lowercase word targets only keys with a lowercase lemma |
| CefrDict.UnlistedWordUnreached | scripts/preprocess/tag_cefr.py:60-91 | a lemma no lowercased word of the list spells is reached by no sense |
| CefrDict.PrimaryLemmasLowercase | scripts/preprocess/tag_cefr.py:60 | every lemma in the primary table is lowercase |
| CefrDict.AppendLevel | scripts/preprocess/tag_cefr.py:75-77 | the create-if-missing-then-append step is the specification's Append |
| CefrDict.AppendPairs | scripts/preprocess/tag_cefr.py:80-84 | the loop over a list label appends the level to (word, t) for each tag t, in order |
| CefrDict.AppendTriples | scripts/preprocess/tag_cefr.py:87-91 | the loop over a mapping label appends the level to (word, tag, c5) for each item, in order |
| CefrDict.AddEntry | scripts/preprocess/tag_cefr.py:62-91 | one sense: exception key first, else by label shape, else nothing; equals the specification's step |
| CefrDict.AddWord | scripts/preprocess/tag_cefr.py:61-91 | the loop over one word's senses equals the specification's fold |
| CefrDict.CreateCefrDict | scripts/preprocess/tag_cefr.py:52-99 | the built table equals PrimaryDict of the word list |
| CefrExtended.ExtTargets | scripts/preprocess/tag_cefr.py:114-128 | one row's keys fail exactly when its label is missing from the extended table, with that label; otherwise there is at least one key and every key carries the headword unchanged |
| CefrExtended.ExtAddRow | scripts/preprocess/tag_cefr.py:113-128 | one row of the extended loop; its contract is stated by ExtReachesSnoc, ExtFoldError and ExtFoldMeaning |
| CefrExtended.PreFiltered | scripts/preprocess/tag_cefr.py:109-110 | the kept rows are exactly those whose raw (headword, label) pair is not a primary key, and there are no more of them than rows |
| CefrExtended.ExtendedDict | scripts/preprocess/tag_cefr.py:130 | no key of a successful result is a primary key |
| CefrExtended.ExtFoldErrSticks | scripts/preprocess/tag_cefr.py:113-128 | once a row raises, the whole loop raises that error |
| CefrExtended.ExtendedTableShapes | scripts/preprocess/tag_cefr.py:27-45 | the extended table has no list-valued label |
| CefrExtended.ExtFoldError | scripts/preprocess/tag_cefr.py:118 | the extended loop raises iff some row's label is missing from the extended table |
| CefrExtended.ExtFoldFirstError | scripts/preprocess/tag_cefr.py:113-118 | the raised error names the first row with a missing label |
| CefrExtended.ExtReachesSnoc | scripts/preprocess/tag_cefr.py:113-128 | one more row adds exactly the keys its label gives, with its level |
| CefrExtended.ExtFoldMeaning | scripts/preprocess/tag_cefr.py:112-128 | a successful loop adds exactly the keys some row's label gives, with exactly those rows' levels, in nonempty lists |
| CefrExtended.ExtendedDictMeaning | scripts/preprocess/tag_cefr.py:109-130 | a key is in the extended table iff it is no primary key and some kept row gives it; its list is nonempty and holds exactly those rows' levels |
| CefrExtended.ExtendedKeepsCase | scripts/preprocess/tag_cefr.py:114 | the headword "Run" gives the key (Run, VERB): extended headwords are not lowercased |
| CefrExtended.UnfilteredTagLabelRaises | scripts/preprocess/tag_cefr.py:113-118 | without the pre-filter, a row ("shall", "VM0") raises a missing-label error for "VM0" |
| CefrExtended.PreFilterAvoidsKeyError | scripts/preprocess/tag_cefr.py:109-110 | when ("shall", "VM0") is a primary key, the pre-filter drops that row and the build yields an empty table |
| CefrExtended.AddExtRow | scripts/preprocess/tag_cefr.py:114-128 | one row: missing label raises, a string label appends to (word, tag), a mapping label appends to each (word, tag, c5) |
| CefrExtended.CreateCefrDictFromExtended | scripts/preprocess/tag_cefr.py:102-132 | the loop and the final filter are proved equal to ExtendedDict: the same error, or the same table, whose keys avoid the primary keys |
| CefrResolve.Rank | scripts/preprocess/tag_cefr.py:140-142 | the rank of a known level is its index in A1..C2 |
| CefrResolve.MinLevel | scripts/preprocess/tag_cefr.py:139-142 | succeeds iff the list is nonempty and all levels are known; then the result is in the list and lowest; otherwise the empty-list error or the first unknown level |
| CefrResolve.CompareLevels | scripts/preprocess/tag_cefr.py:136-142 | UNK anywhere gives UNK; otherwise succeeds iff nonempty and all known, with a lowest member of the list |
| CefrResolve.LevelList | scripts/preprocess/tag_cefr.py:146-159 | the candidate list is ["UNK"] or the list of some key for the row's lemma, in the primary table or in a nonempty extended table |
| CefrResolve.HandleRows | scripts/preprocess/tag_cefr.py:145-161 | a successful result is UNK or a known level from the candidate list, and UNK in the candidate list gives UNK |
| CefrResolve.TagWithoutExtended | scripts/preprocess/tag_cefr.py:180-184 | the per-row lambda equals handle_rows with no extended table |
| CefrResolve.TagRows | scripts/preprocess/tag_cefr.py:176 | the column succeeds iff every row resolves, and then holds each row's level in order |
| CefrResolve.LookupPrecedence | scripts/preprocess/tag_cefr.py:150-157 | the candidate list comes from the first present key of the four tiers |
| CefrResolve.PrimaryShadowsExtended | scripts/preprocess/tag_cefr.py:150-153 | when the primary table has either key, the extended table does not affect the result |
| CefrResolve.UnmatchedIsUnk | scripts/preprocess/tag_cefr.py:158-159 | when no tier matches, the row is tagged UNK |
| CefrResolve.NoExtendedAgrees | scripts/preprocess/tag_cefr.py:154-159 | a None or empty extended table gives the same result as none, and the no-extended lambda agrees with handle_rows |
| CefrResolve.ResolvedIsLowestCandidate | scripts/preprocess/tag_cefr.py:145-161 | a known level returned is in the chosen candidate list and is its lowest |
| CefrResolve.UniformListResolves | scripts/preprocess/tag_cefr.py:136-142 | a nonempty list holding only one known level resolves to that level |
| CefrPipeline.RunScenario | scripts/preprocess/tag_cefr.py:52-99 | "run" as a verb at A1 tags the row (run, VERB, VVB) as A1 |
| CefrPipeline.UnlistedScenario | scripts/preprocess/tag_cefr.py:145-161 | with the same list, a lemma no entry names is tagged UNK |
| CefrPipeline.OnlyRunKey | scripts/preprocess/tag_cefr.py:17 | the sense ("verb", A1) of "run" targets exactly (run, VERB) |
| CefrPipeline.AsScenario | scripts/preprocess/tag_cefr.py:24 | "as" with label "adverb; preposition" at B1 fills (as, PREP), (as, ADV), (as, CONJ), each resolving to B1 |
| UnkFilter.KeepPairsListed | context_based/src/filter_unk.py:8-9 | a pair is a keep pair iff it is one of the four base pairs or STOP with one of the five punctuation c5 tags |
| UnkFilter.IsBad | context_based/src/filter_unk.py:20 | the mask; KeepPairsListed states which pairs it tolerates |
| UnkFilter.SentencesToRemove | context_based/src/filter_unk.py:22 | the SentenceIDs of the bad rows; FilterExcludesBadSentences and FilterBySentenceIdOnly state their effect |
| UnkFilter.FilterUnk | context_based/src/filter_unk.py:20-23 | the output keeps input order and holds exactly the rows whose SentenceID no bad row carries |
| UnkFilter.KeepRows | context_based/src/filter_unk.py:23 | the selection is a subsequence, keeps exactly the rows whose SentenceID is not removed, and keeps each such row as often as it occurs |
| UnkFilter.FilterExcludesBadSentences | context_based/src/filter_unk.py:20-23 | no output row shares a SentenceID with a bad input row, so no output row is bad |
| UnkFilter.FilterKeepsCleanSentences | context_based/src/filter_unk.py:22-23 | a row whose SentenceID has no bad row survives, as many times as it occurs |
| UnkFilter.FilterBySentenceIdOnly | context_based/src/filter_unk.py:22-23 | a bad row removes every row with its SentenceID, whatever the document |
| UnkFilter.KeepPairRowsTolerated | context_based/src/filter_unk.py:20 | an UNK row with a keep pair, in an otherwise clean sentence, survives |
| BncParse.RecordsSnoc | context_based/src/parse_bnc_xml.py:22-31 | one more element adds one record numbered one past the last |
| BncParse.ParseSentence | context_based/src/parse_bnc_xml.py:19-42 | the loop over one sentence's children appends exactly their records, numbered on from the running counter |
| BncParse.ParseBncXml | context_based/src/parse_bnc_xml.py:12-43 | the records equal Records of the file's tokens; record k has TokenID k + 1 and the file's XML_ID |
| BncParse.TokensAreWordsAndPunctuation | context_based/src/parse_bnc_xml.py:18-21 | an element gives a record iff it is a `w` or `c` child of a sentence, tagged with that sentence's `n` |
| BncParse.ChildTokensMember | context_based/src/parse_bnc_xml.py:20-21 | a child gives a record of its sentence iff it is `w` or `c` |
| BncParse.TokensAppend | context_based/src/parse_bnc_xml.py:18 | records come in sentence order: a file's tokens are those of its first part followed by those of the rest |
| BncParse.ChildTokensAppend | context_based/src/parse_bnc_xml.py:20 | records come in child order within a sentence |
| BncParse.CounterRunsAcrossSentences | context_based/src/parse_bnc_xml.py:17 | the counter is not reset: the second part's records are numbered on from the first's |
| BncParse.MakeRecord | context_based/src/parse_bnc_xml.py:22-41 | the record of one `w` or `c` element; its fields are stated by RecordFields |
| BncParse.RecordFields | context_based/src/parse_bnc_xml.py:22-41 | both kinds carry XML_ID, SentenceID, TokenID and text; `c` gives POS STOP with Lemma equal to Token; `w` takes POS, Lemma and c5 from pos, hw and c5 |

## Left out

- Loading the JSON word list, the CSV extended list and the TSV corpus tables,
  writing the tagged and filtered tables, `print`, the per-file loops in
  `tag_cefr_level`, `filter_unk` and `__main__`. Word lists, rows and parsed
  sentences are parameters.
- XML parsing (`ET.parse`, `root.iter`). A file is given as its sequence of
  `s` elements, each with its attributes and its direct children.
  `os.path.splitext(os.path.basename(...))` is the `xmlId` parameter.
  `loop_bnc_xml` and the metadata functions are not part of this model.
- CefrTables.Lower: lowercases ASCII letters only. Python's `str.lower`
  folds all of Unicode.
- pandas missing values (NaN in a CSV cell, None from `attrib.get` flowing
  into a table). Table cells are strings here, and the parser's optional
  fields are `Option`s.
- The dictionary iteration order of a JSON object or a mapping label is taken
  to be the given sequence order.
- feature_based/src (feature extraction, training, evaluation) is not part of
  this model: it is numeric code over external libraries.
- When the extended path is given but the extended build raises, the tagger
  stops. The model returns the error from `CreateCefrDictFromExtended`, and
  tagging with that table is not modelled.
