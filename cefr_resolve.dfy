/**
 * compare_cefr_levels, handle_rows and the per-row tagging of tag_cefr_level
 * (scripts/preprocess/tag_cefr.py).
 */
module CefrResolve {
  import opened Wrappers
  import opened CefrTables

  /** The levels, lowest first. */
  const Order: seq<Level> := ["A1", "A2", "B1", "B2", "C1", "C2"]

  /** The value error of taking the minimum: an empty list, or a level outside the order. */
  datatype LevelError = EmptyLevels | NotALevel(level: Level)

  /** The position of a level in the order. */
  function Rank(l: Level): (n: nat)
    requires l in Order
    ensures n < |Order| && Order[n] == l
  {
    if l == "A1" then 0
    else if l == "A2" then 1
    else if l == "B1" then 2
    else if l == "B2" then 3
    else if l == "C1" then 4
    else 5
  }

  /** The lowest level of the list by rank, the first such item when several
      tie; an empty list, or an item outside the order, is an error. */
  function MinLevel(levels: seq<Level>): (r: Result<Level, LevelError>)
    ensures r.Ok? <==> levels != [] && forall l :: l in levels ==> l in Order
    ensures r.Ok? ==> r.value in levels && forall l :: l in levels ==> Rank(r.value) <= Rank(l)
    ensures levels == [] ==> r == Err(EmptyLevels)
    ensures r.Err? && levels != [] ==>
              exists i :: 0 <= i < |levels| && r.error == NotALevel(levels[i]) && levels[i] !in Order
                && forall m :: 0 <= m < i ==> levels[m] in Order
  {
    if levels == [] then Err(EmptyLevels)
    else if levels[0] !in Order then Err(NotALevel(levels[0]))
    else if |levels| == 1 then Ok(levels[0])
    else
      match MinLevel(levels[1..])
      case Err(e) => Err(e)
      case Ok(m) => Ok(if Rank(m) < Rank(levels[0]) then m else levels[0])
  }

  /** compare_cefr_levels: UNK anywhere wins; otherwise the lowest level. */
  function CompareLevels(levels: seq<Level>): (r: Result<Level, LevelError>)
    ensures "UNK" in levels ==> r == Ok("UNK")
    ensures "UNK" !in levels ==> (r.Ok? <==> levels != [] && forall l :: l in levels ==> l in Order)
    ensures "UNK" !in levels && r.Ok? ==>
              r.value in levels && forall l :: l in levels ==> Rank(r.value) <= Rank(l)
  {
    if "UNK" in levels then Ok("UNK") else MinLevel(levels)
  }

  /** The columns of a corpus row the tagger reads. */
  datatype TokenRow = TokenRow(word: string, pos: string, c5: string)

  /** Python truthiness of the optional extended table: None and {} are false. */
  predicate Truthy(ext: Option<LevelTable>)
  {
    ext.Some? && ext.value != map[]
  }

  /** The candidate list handle_rows chooses, first match wins. */
  function LevelList(row: TokenRow, d: LevelTable, ext: Option<LevelTable>): (levels: seq<Level>)
    ensures levels == ["UNK"]
            || (exists k :: k in d && k.word == row.word && levels == d[k])
            || (Truthy(ext) && exists k :: k in ext.value && k.word == row.word && levels == ext.value[k])
  {
    var pair := Pair(row.word, row.pos);
    var triple := Triple(row.word, row.pos, row.c5);
    if pair in d then d[pair]
    else if triple in d then d[triple]
    else if Truthy(ext) && pair in ext.value then ext.value[pair]
    else if Truthy(ext) && triple in ext.value then ext.value[triple]
    else ["UNK"]
  }

  /** handle_rows: the level of one corpus row. */
  function HandleRows(row: TokenRow, d: LevelTable, ext: Option<LevelTable>): (r: Result<Level, LevelError>)
    ensures r.Ok? ==> r.value == "UNK" || (r.value in Order && r.value in LevelList(row, d, ext))
    ensures "UNK" in LevelList(row, d, ext) ==> r == Ok("UNK")
  {
    CompareLevels(LevelList(row, d, ext))
  }

  /** The per-row lambda used when no extended word list is given. */
  function TagWithoutExtended(row: TokenRow, d: LevelTable): (r: Result<Level, LevelError>)
    ensures r == HandleRows(row, d, None)
  {
    var pair := Pair(row.word, row.pos);
    var triple := Triple(row.word, row.pos, row.c5);
    CompareLevels(if pair in d then d[pair] else if triple in d then d[triple] else ["UNK"])
  }

  /** df.apply over a whole table: the CEFR column, or the first row's error. */
  function TagRows(rows: seq<TokenRow>, d: LevelTable, ext: Option<LevelTable>): (r: Result<seq<Level>, LevelError>)
    ensures r.Ok? <==> forall i :: 0 <= i < |rows| ==> HandleRows(rows[i], d, ext).Ok?
    ensures r.Ok? ==> |r.value| == |rows| && forall i :: 0 <= i < |rows| ==> r.value[i] == HandleRows(rows[i], d, ext).value
  {
    if rows == [] then Ok([])
    else
      match HandleRows(rows[0], d, ext)
      case Err(e) => Err(e)
      case Ok(l) =>
        match TagRows(rows[1..], d, ext)
        case Err(e) => Err(e)
        case Ok(ls) => Ok([l] + ls)
  }

  /** The four tiers in order, then the UNK fallback. */
  lemma {:induction false} LookupPrecedence(row: TokenRow, d: LevelTable, ext: Option<LevelTable>)
    ensures var pair := Pair(row.word, row.pos);
            var triple := Triple(row.word, row.pos, row.c5);
            && (pair in d ==> LevelList(row, d, ext) == d[pair])
            && (pair !in d && triple in d ==> LevelList(row, d, ext) == d[triple])
            && (pair !in d && triple !in d && Truthy(ext) && pair in ext.value ==>
                  LevelList(row, d, ext) == ext.value[pair])
            && (pair !in d && triple !in d && Truthy(ext) && pair !in ext.value && triple in ext.value ==>
                  LevelList(row, d, ext) == ext.value[triple])
  {
  }

  /** When the primary table has either key, the extended table plays no part. */
  lemma {:induction false} PrimaryShadowsExtended(row: TokenRow, d: LevelTable, ext1: Option<LevelTable>, ext2: Option<LevelTable>)
    requires Pair(row.word, row.pos) in d || Triple(row.word, row.pos, row.c5) in d
    ensures HandleRows(row, d, ext1) == HandleRows(row, d, ext2)
  {
  }

  /** A row none of the four keys matches is tagged UNK. */
  lemma {:induction false} UnmatchedIsUnk(row: TokenRow, d: LevelTable, ext: Option<LevelTable>)
    requires Pair(row.word, row.pos) !in d && Triple(row.word, row.pos, row.c5) !in d
    requires !ext.Some? || (Pair(row.word, row.pos) !in ext.value && Triple(row.word, row.pos, row.c5) !in ext.value)
    ensures HandleRows(row, d, ext) == Ok("UNK")
  {
  }

  /** None and an empty extended table both skip tiers 3 and 4, and the
      lambda agrees with handle_rows(row, d, None). */
  lemma {:induction false} NoExtendedAgrees(row: TokenRow, d: LevelTable, ext: Option<LevelTable>)
    requires !Truthy(ext)
    ensures HandleRows(row, d, ext) == HandleRows(row, d, None)
    ensures TagWithoutExtended(row, d) == HandleRows(row, d, None)
  {
  }

  /** A known level that handle_rows returns comes from the chosen candidate
      list and is its lowest. */
  lemma {:induction false} ResolvedIsLowestCandidate(row: TokenRow, d: LevelTable, ext: Option<LevelTable>)
    requires HandleRows(row, d, ext).Ok? && HandleRows(row, d, ext).value != "UNK"
    ensures var levels := LevelList(row, d, ext);
            var l := HandleRows(row, d, ext).value;
            l in levels && l in Order && forall m :: m in levels ==> m in Order && Rank(l) <= Rank(m)
  {
  }

  /** A candidate list holding one known level, any number of times, resolves to it. */
  lemma {:induction false} UniformListResolves(levels: seq<Level>, l: Level)
    requires levels != [] && l in Order
    requires forall m :: m in levels ==> m == l
    ensures CompareLevels(levels) == Ok(l)
  {
    assert levels[0] in levels;
  }
}
