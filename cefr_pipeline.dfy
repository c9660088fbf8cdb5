/**
 * The two tables and the resolver together, as tag_cefr_level uses them
 * (scripts/preprocess/tag_cefr.py).
 */
module CefrPipeline {
  import opened Wrappers
  import opened CefrTables
  import opened CefrDict
  import opened CefrExtended
  import opened CefrResolve

  /** A one-word primary list: "run" as a verb at A1 tags (run, VERB, VVB) as A1. */
  lemma {:induction false} RunScenario()
    ensures HandleRows(TokenRow("run", "VERB", "VVB"), PrimaryDict([("run", [Entry("verb", "A1")])]), None) == Ok("A1")
  {
    var w := ("run", [Entry("verb", "A1")]);
    var key := Pair("run", "VERB");
    OnlyRunKey(w.1[0], key);
    SingleSenseLevels(w, w.1[0], key);
    UniformListResolves(PrimaryDict([w])[key], "A1");
  }

  /** With the same list, a lemma that no entry names is tagged UNK. */
  lemma {:induction false} UnlistedScenario()
    ensures HandleRows(TokenRow("xyzzy", "SUBST", "NN1"), PrimaryDict([("run", [Entry("verb", "A1")])]), None) == Ok("UNK")
  {
    var wl := [("run", [Entry("verb", "A1")])];
    var pair := Pair("xyzzy", "SUBST");
    var triple := Triple("xyzzy", "SUBST", "NN1");
    assert Lower("run") == "run";
    UnlistedWordUnreached(wl, pair);
    UnlistedWordUnreached(wl, triple);
    PrimaryDictMeaning(wl, pair, "");
    PrimaryDictMeaning(wl, triple, "");
    UnmatchedIsUnk(TokenRow("xyzzy", "SUBST", "NN1"), PrimaryDict(wl), None);
  }

  /** The only key the sense ("verb", A1) of "run" targets is (run, VERB). */
  lemma {:induction false} OnlyRunKey(e: Entry, k: Key)
    requires e == Entry("verb", "A1")
    ensures k in PrimaryTargets(Lower("run"), e.pos) <==> k == Pair("run", "VERB")
  {
    assert Lower("run") == "run";
    assert ConversionTable["verb"] == Single("VERB");
  }

  /** "as" with the label "adverb; preposition" at B1 fills (as, PREP),
      (as, ADV) and (as, CONJ), and each resolves to B1. */
  lemma {:induction false} AsScenario(tag: string, c5: string)
    requires tag in ["PREP", "ADV", "CONJ"]
    ensures var d := PrimaryDict([("as", [Entry("adverb; preposition", "B1")])]);
            Pair("as", tag) in d && HandleRows(TokenRow("as", tag, c5), d, None) == Ok("B1")
  {
    var w := ("as", [Entry("adverb; preposition", "B1")]);
    var key := Pair("as", tag);
    assert Lower("as") == "as";
    assert ConversionTable["adverb; preposition"] == Several(["PREP", "ADV", "CONJ"]);
    assert PrimaryTargets("as", "adverb; preposition") == [Pair("as", "PREP"), Pair("as", "ADV"), Pair("as", "CONJ")];
    SingleSenseLevels(w, w.1[0], key);
    UniformListResolves(PrimaryDict([w])[key], "B1");
  }
}
