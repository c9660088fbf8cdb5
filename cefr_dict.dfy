/**
 * create_cefr_dict (scripts/preprocess/tag_cefr.py): fold the primary word
 * list into a table from keys to candidate levels, then apply the overrides.
 *
 * The specification is the same fold written as functions: Append is one
 * "create the list if missing, then append" step, AppendAll does it for each
 * key of a sequence, and AddEntries / AddWords fold over senses and words.
 * The lemmas then say declaratively which keys and levels the result holds.
 */
module CefrDict {
  import opened CefrTables

  /** A word list: each word with its senses, in the order of the file. */
  type WordList = seq<(string, seq<Entry>)>

  /** One append: the key's list, created empty if missing, gets the level at its end. */
  function Append(d: LevelTable, k: Key, l: Level): LevelTable
  {
    d[k := (if k in d then d[k] else []) + [l]]
  }

  /** Append the same level to each key in turn. */
  function AppendAll(d: LevelTable, ks: seq<Key>, l: Level): LevelTable
  {
    if ks == [] then d
    else Append(AppendAll(d, ks[..|ks| - 1], l), ks[|ks| - 1], l)
  }

  /** Appending to a single key is one Append. */
  lemma {:induction false} AppendAllSingle(d: LevelTable, k: Key, l: Level)
    ensures AppendAll(d, [k], l) == Append(d, k, l)
  {
    assert [k][..0] == [];
  }

  /** One sense: its level goes to each key it targets. */
  function AddEntryTo(d: LevelTable, word: string, e: Entry): LevelTable
  {
    AppendAll(d, PrimaryTargets(word, e.pos), e.level)
  }

  /** All senses of one (lowercased) word, in order. */
  function AddEntries(d: LevelTable, word: string, es: seq<Entry>): LevelTable
  {
    if es == [] then d
    else AddEntryTo(AddEntries(d, word, es[..|es| - 1]), word, es[|es| - 1])
  }

  /** All words of the list, in order, each lowercased. */
  function AddWords(d: LevelTable, wl: WordList): LevelTable
  {
    if wl == [] then d
    else
      var last := wl[|wl| - 1];
      AddEntries(AddWords(d, wl[..|wl| - 1]), Lower(last.0), last.1)
  }

  /** The four hard-coded keys, each set to ["A1"] in this order. */
  function WithOverrides(d: LevelTable): LevelTable
  {
    d[OverrideKeys[0] := ["A1"]][OverrideKeys[1] := ["A1"]]
     [OverrideKeys[2] := ["A1"]][OverrideKeys[3] := ["A1"]]
  }

  /** The table create_cefr_dict returns. */
  function PrimaryDict(wl: WordList): LevelTable
  {
    WithOverrides(AddWords(map[], wl))
  }

  /** Appending l to each key of ks adds exactly the keys of ks, adds l and
      nothing else to their lists, keeps every earlier level in place, and
      leaves other keys alone. */
  lemma {:induction false} AppendAllMeaning(d: LevelTable, ks: seq<Key>, l: Level, k: Key, m: Level)
    ensures k in AppendAll(d, ks, l) <==> k in d || k in ks
    ensures k in AppendAll(d, ks, l) ==>
              (m in AppendAll(d, ks, l)[k] <==> (k in d && m in d[k]) || (k in ks && m == l))
    ensures k in d ==> d[k] <= AppendAll(d, ks, l)[k]
    ensures k !in ks ==> (k in d ==> AppendAll(d, ks, l)[k] == d[k])
    ensures k in ks ==> AppendAll(d, ks, l)[k] != []
  {
    if ks != [] {
      var init := ks[..|ks| - 1];
      AppendAllMeaning(d, init, l, k, m);
      assert ks == init + [ks[|ks| - 1]];
    }
  }

  /** Some sense among es targets k. */
  ghost predicate Reaches(word: string, es: seq<Entry>, k: Key)
  {
    exists e :: e in es && k in PrimaryTargets(word, e.pos)
  }

  /** Some sense among es with level m targets k. */
  ghost predicate ReachesWith(word: string, es: seq<Entry>, k: Key, m: Level)
  {
    exists e :: e in es && k in PrimaryTargets(word, e.pos) && e.level == m
  }

  /** Adding one more sense adds its targets, with its level, to what is reached. */
  lemma {:induction false} ReachesSnoc(word: string, es: seq<Entry>, k: Key, m: Level)
    requires es != []
    ensures Reaches(word, es, k) <==>
              Reaches(word, es[..|es| - 1], k) || k in PrimaryTargets(word, es[|es| - 1].pos)
    ensures ReachesWith(word, es, k, m) <==>
              ReachesWith(word, es[..|es| - 1], k, m)
              || (k in PrimaryTargets(word, es[|es| - 1].pos) && es[|es| - 1].level == m)
  {
    assert es == es[..|es| - 1] + [es[|es| - 1]];
  }

  /** The senses of one word add exactly the keys they target, with their levels. */
  lemma {:induction false} AddEntriesMeaning(d: LevelTable, word: string, es: seq<Entry>, k: Key, m: Level)
    ensures k in AddEntries(d, word, es) <==> k in d || Reaches(word, es, k)
    ensures k in AddEntries(d, word, es) ==>
              (m in AddEntries(d, word, es)[k] <==> (k in d && m in d[k]) || ReachesWith(word, es, k, m))
    ensures ((k in d && d[k] != []) || Reaches(word, es, k)) ==> AddEntries(d, word, es)[k] != []
  {
    if es != [] {
      var n := |es| - 1;
      AddEntriesMeaning(d, word, es[..n], k, m);
      AppendAllMeaning(AddEntries(d, word, es[..n]), PrimaryTargets(word, es[n].pos), es[n].level, k, m);
      ReachesSnoc(word, es, k, m);
    }
  }

  /** Some sense of some word in wl targets k; each word is lowercased first. */
  ghost predicate ListReaches(wl: WordList, k: Key)
  {
    exists w :: w in wl && Reaches(Lower(w.0), w.1, k)
  }

  /** Some sense with level m of some word in wl targets k. */
  ghost predicate ListReachesWith(wl: WordList, k: Key, m: Level)
  {
    exists w :: w in wl && ReachesWith(Lower(w.0), w.1, k, m)
  }

  /** Adding one more word adds what its senses reach. */
  lemma {:induction false} ListReachesSnoc(wl: WordList, k: Key, m: Level)
    requires wl != []
    ensures ListReaches(wl, k) <==>
              ListReaches(wl[..|wl| - 1], k) || Reaches(Lower(wl[|wl| - 1].0), wl[|wl| - 1].1, k)
    ensures ListReachesWith(wl, k, m) <==>
              ListReachesWith(wl[..|wl| - 1], k, m) || ReachesWith(Lower(wl[|wl| - 1].0), wl[|wl| - 1].1, k, m)
  {
    assert wl == wl[..|wl| - 1] + [wl[|wl| - 1]];
  }

  /** The words of the list add exactly the keys their senses target, with
      the levels of those senses. */
  lemma {:induction false} AddWordsMeaning(d: LevelTable, wl: WordList, k: Key, m: Level)
    ensures k in AddWords(d, wl) <==> k in d || ListReaches(wl, k)
    ensures k in AddWords(d, wl) ==>
              (m in AddWords(d, wl)[k] <==> (k in d && m in d[k]) || ListReachesWith(wl, k, m))
    ensures ((k in d && d[k] != []) || ListReaches(wl, k)) ==> AddWords(d, wl)[k] != []
  {
    if wl != [] {
      var n := |wl| - 1;
      AddWordsMeaning(d, wl[..n], k, m);
      AddEntriesMeaning(AddWords(d, wl[..n]), Lower(wl[n].0), wl[n].1, k, m);
      ListReachesSnoc(wl, k, m);
    }
  }

  /** The overrides leave every other key as it was. */
  lemma {:induction false} WithOverridesOther(d: LevelTable, k: Key)
    requires k !in OverrideKeys
    ensures k in WithOverrides(d) <==> k in d
    ensures k in d ==> WithOverrides(d)[k] == d[k]
  {
  }

  /** After create_cefr_dict the four override keys hold exactly ["A1"]. */
  lemma {:induction false} PrimaryOverrides(wl: WordList)
    ensures forall k :: k in OverrideKeys ==> k in PrimaryDict(wl) && PrimaryDict(wl)[k] == ["A1"]
  {
  }

  /** Outside the overrides, a key is in the primary table exactly when some
      sense of some (lowercased) word targets it, and its list holds the
      levels of the senses that target it and nothing else. */
  lemma {:induction false} PrimaryDictMeaning(wl: WordList, k: Key, l: Level)
    requires k !in OverrideKeys
    ensures k in PrimaryDict(wl) <==> ListReaches(wl, k)
    ensures k in PrimaryDict(wl) ==> (l in PrimaryDict(wl)[k] <==> ListReachesWith(wl, k, l))
  {
    WithOverridesOther(AddWords(map[], wl), k);
    AddWordsMeaning(map[], wl, k, l);
  }

  /** Every list in the primary table is nonempty. */
  lemma {:induction false} PrimaryNonEmpty(wl: WordList, k: Key)
    requires k in PrimaryDict(wl)
    ensures PrimaryDict(wl)[k] != []
  {
    if k !in OverrideKeys {
      WithOverridesOther(AddWords(map[], wl), k);
      AddWordsMeaning(map[], wl, k, "");
    }
  }

  /** Each sense reaches every key its word and label produce; unless the
      key is overridden, its level is among that key's candidates. */
  lemma {:induction false} EntryReachesKey(wl: WordList, w: (string, seq<Entry>), e: Entry, k: Key)
    requires w in wl && e in w.1 && k in PrimaryTargets(Lower(w.0), e.pos)
    ensures k in PrimaryDict(wl)
    ensures k !in OverrideKeys ==> e.level in PrimaryDict(wl)[k]
  {
    if k !in OverrideKeys {
      PrimaryDictMeaning(wl, k, e.level);
      assert ReachesWith(Lower(w.0), w.1, k, e.level);
    }
  }

  /** A word list of one word with one sense gives each key that sense
      targets (unless overridden) nothing but the sense's level. */
  lemma {:induction false} SingleSenseLevels(w: (string, seq<Entry>), e: Entry, k: Key)
    requires w.1 == [e] && k in PrimaryTargets(Lower(w.0), e.pos) && k !in OverrideKeys
    ensures k in PrimaryDict([w]) && PrimaryDict([w])[k] != []
    ensures forall l :: l in PrimaryDict([w])[k] ==> l == e.level
  {
    assert ReachesWith(Lower(w.0), w.1, k, e.level);
    PrimaryDictMeaning([w], k, e.level);
    PrimaryNonEmpty([w], k);
    forall l | l in PrimaryDict([w])[k] ensures l == e.level {
      PrimaryDictMeaning([w], k, l);
    }
  }

  /** Every sense of "than" (in any case), whatever its label, targets only
      the key (than, CONJ, CJS). */
  lemma {:induction false} ThanTargetsException(word: string, pos: string)
    requires Lower(word) == "than"
    ensures PrimaryTargets(Lower(word), pos) == [Triple("than", "CONJ", "CJS")]
  {
  }

  /** A sense whose label is not in the conversion table, of a word that is
      not an exception, targets no key at all. */
  lemma {:induction false} UnknownLabelSkipped(word: string, pos: string)
    requires Lower(word) !in BncExceptions && pos !in ConversionTable
    ensures PrimaryTargets(Lower(word), pos) == []
  {
  }

  /** The keys a lowercase word targets carry a lowercase lemma. */
  lemma {:induction false} TargetsLowercase(word: string, pos: string, k: Key)
    requires IsLower(word) && k in PrimaryTargets(word, pos)
    ensures IsLower(k.word)
  {
    PrimaryTargetsLemma(word, pos, k);
  }

  /** A lemma that no (lowercased) word of the list spells is in no key of
      the primary loop. */
  lemma {:induction false} UnlistedWordUnreached(wl: WordList, k: Key)
    requires forall w :: w in wl ==> Lower(w.0) != k.word
    ensures !ListReaches(wl, k)
  {
    if ListReaches(wl, k) {
      var w :| w in wl && Reaches(Lower(w.0), w.1, k);
      var e :| e in w.1 && k in PrimaryTargets(Lower(w.0), e.pos);
      PrimaryTargetsLemma(Lower(w.0), e.pos, k);
    }
  }

  /** Every lemma in the primary table is lowercase. */
  lemma {:induction false} PrimaryLemmasLowercase(wl: WordList, k: Key)
    requires k in PrimaryDict(wl)
    ensures IsLower(k.word)
  {
    if k !in OverrideKeys {
      PrimaryDictMeaning(wl, k, "");
      var w :| w in wl && Reaches(Lower(w.0), w.1, k);
      var e :| e in w.1 && k in PrimaryTargets(Lower(w.0), e.pos);
      TargetsLowercase(Lower(w.0), e.pos, k);
    }
  }

  /** One append step: give the key an empty list when it has none, then
      add the level at the end of its list. */
  method AppendLevel(d: LevelTable, key: Key, level: Level) returns (d': LevelTable)
    ensures d' == Append(d, key, level)
  {
    d' := d;
    if key !in d' {
      d' := d'[key := []];
    }
    d' := d'[key := d'[key] + [level]];
  }

  /** The loop over a list label's tags: the level goes to (word, t) for each tag t. */
  method AppendPairs(d: LevelTable, word: string, tags: seq<string>, level: Level)
    returns (d': LevelTable)
    ensures d' == AppendAll(d, PairsOf(word, tags), level)
  {
    d' := d;
    ghost var ks := PairsOf(word, tags);
    var k := 0;
    while k < |tags|
      invariant 0 <= k <= |tags|
      invariant d' == AppendAll(d, ks[..k], level)
    {
      var key := Pair(word, tags[k]);
      d' := AppendLevel(d', key, level);
      assert ks[..k + 1][..k] == ks[..k];
      k := k + 1;
    }
    assert ks[..|tags|] == ks;
  }

  /** The loop over a mapping label's items: the level goes to (word, tag, c5)
      for each (c5, tag). */
  method AppendTriples(d: LevelTable, word: string, pairs: seq<(string, string)>, level: Level)
    returns (d': LevelTable)
    ensures d' == AppendAll(d, TriplesOf(word, pairs), level)
  {
    d' := d;
    ghost var ks := TriplesOf(word, pairs);
    var k := 0;
    while k < |pairs|
      invariant 0 <= k <= |pairs|
      invariant d' == AppendAll(d, ks[..k], level)
    {
      var key := Triple(word, pairs[k].1, pairs[k].0);
      d' := AppendLevel(d', key, level);
      assert ks[..k + 1][..k] == ks[..k];
      k := k + 1;
    }
    assert ks[..|pairs|] == ks;
  }

  /** The body of the loop over one word's senses: append the entry's level
      to the exception key, or to the keys its label converts to; an unknown
      label appends nothing. */
  method AddEntry(d: LevelTable, word: string, entry: Entry) returns (d': LevelTable)
    ensures d' == AddEntryTo(d, word, entry)
  {
    var cefrPos := entry.pos;
    if word in BncExceptions {
      var key := BncExceptions[word];
      assert PrimaryTargets(word, cefrPos) == [key];
      d' := AppendLevel(d, key, entry.level);
      AppendAllSingle(d, key, entry.level);
    } else if cefrPos in ConversionTable {
      match ConversionTable[cefrPos]
      case Single(t) =>
        var key := Pair(word, t);
        assert PrimaryTargets(word, cefrPos) == [key];
        d' := AppendLevel(d, key, entry.level);
        AppendAllSingle(d, key, entry.level);
      case Several(ts) =>
        assert PrimaryTargets(word, cefrPos) == PairsOf(word, ts);
        d' := AppendPairs(d, word, ts, entry.level);
      case ByC5(ps) =>
        assert PrimaryTargets(word, cefrPos) == TriplesOf(word, ps);
        d' := AppendTriples(d, word, ps, entry.level);
    } else {
      assert PrimaryTargets(word, cefrPos) == [];
      d' := d;
    }
  }

  /** The loop over the senses of one lowercased word. */
  method AddWord(d: LevelTable, word: string, entries: seq<Entry>) returns (d': LevelTable)
    ensures d' == AddEntries(d, word, entries)
  {
    d' := d;
    var j := 0;
    while j < |entries|
      invariant 0 <= j <= |entries|
      invariant d' == AddEntries(d, word, entries[..j])
    {
      d' := AddEntry(d', word, entries[j]);
      assert entries[..j + 1][..j] == entries[..j];
      j := j + 1;
    }
    assert entries[..j] == entries;
  }

  /** create_cefr_dict, on a word list already loaded from its JSON file. */
  method CreateCefrDict(wordlist: WordList) returns (d: LevelTable)
    ensures d == PrimaryDict(wordlist)
  {
    d := map[];
    var i := 0;
    while i < |wordlist|
      invariant 0 <= i <= |wordlist|
      invariant d == AddWords(map[], wordlist[..i])
    {
      var word := Lower(wordlist[i].0);
      d := AddWord(d, word, wordlist[i].1);
      assert wordlist[..i + 1][..i] == wordlist[..i];
      i := i + 1;
    }
    assert wordlist[..i] == wordlist;
    // Four keys are set outright to ["A1"], replacing whatever the loop gave them.
    d := d[Pair("there", "PRON") := ["A1"]];
    d := d[Pair("'s", "UNC") := ["A1"]];
    d := d[Pair("ought", "VERB") := ["A1"]];
    d := d[Pair("shall", "VM0") := ["A1"]];
  }
}
