/**
 * The per-table filter of filter_unk (context_based/src/filter_unk.py):
 * drop every sentence that holds an unknown-level token outside the keep list.
 */
module UnkFilter {

  /** One row of a tagged table; `headword` is the Lemma column. */
  datatype TaggedRow = TaggedRow(
    xmlId: string, sentenceId: string, tokenId: int, token: string,
    pos: string, headword: string, c5: string, cefr: string)

  /** (POS, c5) pairs whose UNK tokens are tolerated. */
  const BaseKeepPairs: seq<(string, string)> :=
    [("UNC", "UNC"), ("SUBST", "NP0"), ("INTERJ", "ITJ"), ("SUBST", "ZZ0")]

  /** Punctuation c5 tags, kept with POS "STOP". */
  const StopC5: seq<string> := ["POS", "PUL", "PUN", "PUQ", "PUR"]

  function StopPairs(c5s: seq<string>): seq<(string, string)>
  {
    seq(|c5s|, i requires 0 <= i < |c5s| => ("STOP", c5s[i]))
  }

  const KeepPairs: seq<(string, string)> := BaseKeepPairs + StopPairs(StopC5)

  /** The nine keep pairs. */
  lemma {:induction false} KeepPairsListed(pos: string, c5: string)
    ensures (pos, c5) in KeepPairs <==>
              (pos, c5) in BaseKeepPairs || (pos == "STOP" && c5 in StopC5)
  {
    if pos == "STOP" && c5 in StopC5 {
      var i :| 0 <= i < |StopC5| && StopC5[i] == c5;
      assert KeepPairs[|BaseKeepPairs| + i] == (pos, c5);
    }
  }

  /** The mask: an UNK row whose (POS, c5) is not a keep pair. */
  predicate IsBad(r: TaggedRow)
  {
    r.cefr == "UNK" && (r.pos, r.c5) !in KeepPairs
  }

  /** The SentenceIDs of the bad rows. */
  function SentencesToRemove(rows: seq<TaggedRow>): set<string>
  {
    set r | r in rows && IsBad(r) :: r.sentenceId
  }

  /** a is b with some elements deleted, order kept. */
  ghost predicate IsSubsequence<T>(a: seq<T>, b: seq<T>)
    decreases |b|
  {
    if a == [] then true
    else if b == [] then false
    else if a[0] == b[0] then IsSubsequence(a[1..], b[1..])
    else IsSubsequence(a, b[1..])
  }

  /** The selection of rows whose SentenceID is not in `remove`. */
  function KeepRows(rows: seq<TaggedRow>, remove: set<string>): (kept: seq<TaggedRow>)
    ensures IsSubsequence(kept, rows)
    ensures forall r :: r in kept <==> r in rows && r.sentenceId !in remove
    ensures forall r: TaggedRow :: r.sentenceId !in remove ==> multiset(kept)[r] == multiset(rows)[r]
  {
    if rows == [] then []
    else
      assert rows == [rows[0]] + rows[1..];
      if rows[0].sentenceId in remove then KeepRows(rows[1..], remove)
      else [rows[0]] + KeepRows(rows[1..], remove)
  }

  /** The filtered table: in input order, exactly the rows whose SentenceID
      no bad row carries. */
  function FilterUnk(rows: seq<TaggedRow>): (kept: seq<TaggedRow>)
    ensures IsSubsequence(kept, rows)
    ensures forall r :: r in kept <==>
              r in rows && forall b :: b in rows && IsBad(b) ==> b.sentenceId != r.sentenceId
  {
    KeepRows(rows, SentencesToRemove(rows))
  }

  /** No output row shares a SentenceID with a bad input row; in particular
      no output row is bad. */
  lemma {:induction false} FilterExcludesBadSentences(rows: seq<TaggedRow>, r: TaggedRow, b: TaggedRow)
    requires r in FilterUnk(rows)
    requires b in rows && IsBad(b)
    ensures r.sentenceId != b.sentenceId
    ensures !IsBad(r)
  {
    assert r in rows;
  }

  /** A row whose sentence has no bad row survives, as often as it occurs. */
  lemma {:induction false} FilterKeepsCleanSentences(rows: seq<TaggedRow>, r: TaggedRow)
    requires forall b :: b in rows && IsBad(b) ==> b.sentenceId != r.sentenceId
    ensures r in rows ==> r in FilterUnk(rows)
    ensures multiset(FilterUnk(rows))[r] == multiset(rows)[r]
  {
  }

  /** Removal goes by SentenceID alone: a bad row removes every row with the
      same SentenceID, whatever its XML_ID. */
  lemma {:induction false} FilterBySentenceIdOnly(rows: seq<TaggedRow>, i: int, j: int)
    requires 0 <= i < |rows| && 0 <= j < |rows|
    requires IsBad(rows[i]) && rows[j].sentenceId == rows[i].sentenceId
    ensures rows[j] !in FilterUnk(rows)
  {
  }

  /** An UNK row with a keep pair does not remove its sentence: if the rest of
      the sentence is clean, the row itself survives. */
  lemma {:induction false} KeepPairRowsTolerated(rows: seq<TaggedRow>, r: TaggedRow)
    requires r in rows && r.cefr == "UNK" && (r.pos, r.c5) in KeepPairs
    requires forall b :: b in rows && b.sentenceId == r.sentenceId && b != r ==> !IsBad(b)
    ensures r in FilterUnk(rows)
  {
  }
}
