/**
 * The fixed configuration of the CEFR tagger (scripts/preprocess/tag_cefr.py):
 * the two part-of-speech conversion tables, the exception table, the four
 * override keys, and the keys a single word-list entry appends its level to.
 */
module CefrTables {

  /** A CEFR level as the word lists spell it ("A1" .. "C2", or anything else). */
  type Level = string

  /** A lookup key: (lemma, tag) or (lemma, tag, c5). Tags are plain strings,
      because the tables map to non-canonical tags such as "vern". */
  datatype Key = Pair(word: string, tag: string) | Triple(word: string, tag: string, c5: string)

  /** What a dictionary part-of-speech label converts to: one tag, a list of
      tags, or a mapping from c5 tag to coarse tag (kept as (c5, tag) pairs in
      the mapping's own order). */
  datatype Conversion =
    | Single(tag: string)
    | Several(tags: seq<string>)
    | ByC5(pairs: seq<(string, string)>)

  /** One sense of a word in the primary word list. */
  datatype Entry = Entry(pos: string, level: Level)

  /** One row of the extended (tabular) word list. */
  datatype ExtRow = ExtRow(headword: string, pos: string, cefr: Level)

  /** The table of lookup keys to candidate levels. */
  type LevelTable = map<Key, seq<Level>>

  const DeterminerC5: seq<(string, string)> :=
    [("DPS", "PRON"), ("DTQ", "PRON"), ("DT0", "ADJ"), ("AT0", "ART"), ("AJ0", "ADJ")]

  const ConjunctionC5: seq<(string, string)> :=
    [("CJT", "CONJ"), ("CJC", "CONJ"), ("CJS", "CONJ"), ("DT0-CJT", "ADJ")]

  /** Labels of the primary word list. */
  const ConversionTable: map<string, Conversion> := map[
    "adverb" := Single("ADV"),
    "number" := Single("ADJ"),
    "adjective" := Single("ADJ"),
    "adv" := Single("ADV"),
    "determiner" := ByC5(DeterminerC5),
    "preposition" := Single("PREP"),
    "noun" := Single("SUBST"),
    "modal verb" := Single("VERB"),
    "verb" := Single("VERB"),
    "exclamation" := Single("INTERJ"),
    "ordinal number" := Single("ADJ"),
    "auxiliary verb" := Single("VERB"),
    "conjunction" := ByC5(ConjunctionC5),
    "infinitive marker" := Single("PREP"),
    "pronoun" := Single("PRON"),
    "adverb; preposition" := Several(["PREP", "ADV", "CONJ"])
  ]

  /** Labels of the extended word list. */
  const ExtendedTable: map<string, Conversion> := map[
    "interjection" := Single("INTERJ"),
    "preposition" := Single("PREP"),
    "noun" := Single("SUBST"),
    "adverb" := Single("ADV"),
    "modal auxiliary" := Single("VERB"),
    "do-verb" := Single("VERB"),
    "have-verb" := Single("VERB"),
    "verb" := Single("VERB"),
    "number" := Single("ADJ"),
    "adjective" := Single("ADJ"),
    "be-verb" := Single("VERB"),
    "infinitive-to" := Single("PREP"),
    "conjunction" := ByC5(ConjunctionC5),
    "determiner" := ByC5(DeterminerC5),
    "vern" := Single("vern"),
    "pronoun" := Single("pronoun")
  ]

  /** Words the corpus tags differently from the dictionary. */
  const BncExceptions: map<string, Key> := map["than" := Triple("than", "CONJ", "CJS")]

  /** The keys set to exactly ["A1"] after the primary table is built. */
  const OverrideKeys: seq<Key> :=
    [Pair("there", "PRON"), Pair("'s", "UNC"), Pair("ought", "VERB"), Pair("shall", "VM0")]

  /** ASCII lowercasing of one character. */
  function LowerChar(c: char): char
  {
    if 'A' <= c <= 'Z' then (c as int - 'A' as int + 'a' as int) as char else c
  }

  /** No ASCII capital letter occurs in s. */
  predicate IsLower(s: string)
  {
    forall i :: 0 <= i < |s| ==> !('A' <= s[i] <= 'Z')
  }

  /** str.lower, restricted to ASCII letters: the result is lowercase, has the
      input's length, keeps every character that is not a capital, turns each
      capital into the letter 32 code points later, and leaves an already
      lowercase word as it is. */
  function Lower(s: string): (r: string)
    ensures |r| == |s| && IsLower(r)
    ensures forall i :: 0 <= i < |s| && !('A' <= s[i] <= 'Z') ==> r[i] == s[i]
    ensures forall i :: 0 <= i < |s| && 'A' <= s[i] <= 'Z' ==> r[i] as int == s[i] as int + 32
    ensures IsLower(s) ==> r == s
  {
    seq(|s|, i requires 0 <= i < |s| => LowerChar(s[i]))
  }

  /** The keys (word, t) for each tag t of a list label. */
  function PairsOf(word: string, tags: seq<string>): (ks: seq<Key>)
  {
    seq(|tags|, i requires 0 <= i < |tags| => Pair(word, tags[i]))
  }

  /** The keys (word, tag, c5) for each (c5, tag) of a mapping label. */
  function TriplesOf(word: string, pairs: seq<(string, string)>): (ks: seq<Key>)
  {
    seq(|pairs|, i requires 0 <= i < |pairs| => Triple(word, pairs[i].1, pairs[i].0))
  }

  /** The keys one primary entry appends its level to, for an already
      lowercased word: the exception key, else by the shape of the label's
      conversion, else nothing (an unknown label is skipped). */
  function PrimaryTargets(word: string, pos: string): seq<Key>
  {
    if word in BncExceptions then [BncExceptions[word]]
    else if pos in ConversionTable then
      match ConversionTable[pos]
      case Single(t) => [Pair(word, t)]
      case Several(ts) => PairsOf(word, ts)
      case ByC5(ps) => TriplesOf(word, ps)
    else []
  }

  /** The primary table's label shapes: "adverb; preposition" is the only list
      label, "determiner" and "conjunction" the only mapping labels, and every
      other label converts to one tag. */
  lemma {:induction false} ConversionTableShapes(pos: string)
    requires pos in ConversionTable
    ensures ConversionTable[pos].Several? <==> pos == "adverb; preposition"
    ensures ConversionTable[pos].ByC5? <==> pos == "determiner" || pos == "conjunction"
  {
  }

  /** Every key of the exception table and every key a label produces carries
      the entry's own word as its lemma. */
  lemma {:induction false} PrimaryTargetsLemma(word: string, pos: string, k: Key)
    requires k in PrimaryTargets(word, pos)
    ensures k.word == word
  {
  }
}
