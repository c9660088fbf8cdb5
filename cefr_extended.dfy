/**
 * create_cefr_dict_from_extended (scripts/preprocess/tag_cefr.py): build the
 * supplementary table from the extended word list and drop every key the
 * primary table already has.
 */
module CefrExtended {
  import opened Wrappers
  import opened CefrTables
  import opened CefrDict

  /** The key error for a label missing from the extended table, or the
      attribute error of treating a list-valued entry as a mapping. */
  datatype BuildError = MissingLabel(pos: string) | NotAMapping(pos: string)

  /** The pandas pre-filter: rows whose raw (headword, pos) pair is a primary
      key are dropped before the loop. */
  function PreFiltered(primaryKeys: set<Key>, rows: seq<ExtRow>): (kept: seq<ExtRow>)
    ensures |kept| <= |rows|
    ensures forall r :: r in kept <==> r in rows && Pair(r.headword, r.pos) !in primaryKeys
  {
    if rows == [] then []
    else
      var last := rows[|rows| - 1];
      assert rows == rows[..|rows| - 1] + [last];
      PreFiltered(primaryKeys, rows[..|rows| - 1])
        + (if Pair(last.headword, last.pos) in primaryKeys then [] else [last])
  }

  /** The keys one extended row appends its level to. The headword is used as
      it is, without lowercasing. */
  function ExtTargets(word: string, pos: string): (r: Result<seq<Key>, BuildError>)
    ensures r.Err? <==> pos !in ExtendedTable
    ensures r.Err? ==> r.error == MissingLabel(pos)
    ensures r.Ok? ==> r.value != [] && forall k :: k in r.value ==> k.word == word
  {
    if pos !in ExtendedTable then Err(MissingLabel(pos))
    else
      match ExtendedTable[pos]
      case Single(t) => Ok([Pair(word, t)])
      case ByC5(ps) => Ok(TriplesOf(word, ps))
      case Several(_) => Err(NotAMapping(pos))
  }

  /** One row of the extended loop: its level appended to each key its
      label gives, or the error the row raises. */
  function ExtAddRow(d: LevelTable, row: ExtRow): Result<LevelTable, BuildError>
  {
    match ExtTargets(row.headword, row.pos)
    case Err(e) => Err(e)
    case Ok(ks) => Ok(AppendAll(d, ks, row.cefr))
  }

  /** The extended loop over rows in order, stopping at the first row that raises. */
  function ExtFold(d: LevelTable, rows: seq<ExtRow>): Result<LevelTable, BuildError>
  {
    if rows == [] then Ok(d)
    else
      match ExtFold(d, rows[..|rows| - 1])
      case Err(e) => Err(e)
      case Ok(d') => ExtAddRow(d', rows[|rows| - 1])
  }

  /** The table create_cefr_dict_from_extended returns, or the error it raises. */
  function ExtendedDict(primaryKeys: set<Key>, rows: seq<ExtRow>): (r: Result<LevelTable, BuildError>)
    ensures r.Ok? ==> r.value.Keys !! primaryKeys
  {
    match ExtFold(map[], PreFiltered(primaryKeys, rows))
    case Err(e) => Err(e)
    case Ok(ext) => Ok(ext - primaryKeys)
  }

  lemma {:induction false} ExtFoldStep(d: LevelTable, rows: seq<ExtRow>, i: nat)
    requires i < |rows|
    ensures ExtFold(d, rows[..i + 1]) ==
              match ExtFold(d, rows[..i])
              case Err(e) => Err(e)
              case Ok(d') => ExtAddRow(d', rows[i])
  {
    assert rows[..i + 1][..i] == rows[..i];
  }

  /** Once a prefix raises, the whole list raises the same error. */
  lemma {:induction false} ExtFoldErrSticks(d: LevelTable, rows: seq<ExtRow>, n: nat)
    requires n <= |rows|
    requires ExtFold(d, rows[..n]).Err?
    ensures ExtFold(d, rows) == ExtFold(d, rows[..n])
  {
    if n < |rows| {
      var init := rows[..|rows| - 1];
      assert init[..n] == rows[..n];
      ExtFoldErrSticks(d, init, n);
    } else {
      assert rows[..n] == rows;
    }
  }

  /** The extended table has no list-valued labels. */
  lemma {:induction false} ExtendedTableShapes(pos: string)
    requires pos in ExtendedTable
    ensures !ExtendedTable[pos].Several?
  {
  }

  /** Row i's label is missing from the extended table. */
  predicate Missing(rows: seq<ExtRow>, i: int)
  {
    0 <= i < |rows| && rows[i].pos !in ExtendedTable
  }

  /** The extended loop raises exactly when some row's label is missing from
      the extended table. */
  lemma {:induction false} ExtFoldError(d: LevelTable, rows: seq<ExtRow>)
    ensures ExtFold(d, rows).Err? <==> exists i :: Missing(rows, i)
  {
    if rows != [] {
      var n := |rows| - 1;
      var init := rows[..n];
      ExtFoldError(d, init);
      if rows[n].pos in ExtendedTable {
        ExtendedTableShapes(rows[n].pos);
      } else {
        assert Missing(rows, n);
      }
      if exists i :: Missing(init, i) {
        var i :| Missing(init, i);
        assert Missing(rows, i);
      }
      if exists i :: Missing(rows, i) {
        var i :| Missing(rows, i);
        if i < n { assert Missing(init, i); }
      }
    }
  }

  /** The error the extended loop raises names the first missing label. */
  lemma {:induction false} ExtFoldFirstError(d: LevelTable, rows: seq<ExtRow>)
    requires ExtFold(d, rows).Err?
    ensures exists i :: Missing(rows, i) && ExtFold(d, rows).error == MissingLabel(rows[i].pos)
                && forall m :: 0 <= m < i ==> !Missing(rows, m)
  {
    var n := |rows| - 1;
    var init := rows[..n];
    if ExtFold(d, init).Err? {
      ExtFoldFirstError(d, init);
      var i :| Missing(init, i) && ExtFold(d, init).error == MissingLabel(init[i].pos)
                && forall m :: 0 <= m < i ==> !Missing(init, m);
      assert Missing(rows, i);
      forall m | 0 <= m < i ensures !Missing(rows, m) {
        assert !Missing(init, m);
      }
    } else {
      ExtFoldError(d, init);
      forall m | 0 <= m < n ensures !Missing(rows, m) {
        assert !Missing(init, m);
      }
    }
  }

  /** Some row among rows appends to k. */
  ghost predicate ExtReaches(rows: seq<ExtRow>, k: Key)
  {
    exists r :: r in rows && ExtTargets(r.headword, r.pos).Ok? && k in ExtTargets(r.headword, r.pos).value
  }

  /** Some row among rows with level m appends to k. */
  ghost predicate ExtReachesWith(rows: seq<ExtRow>, k: Key, m: Level)
  {
    exists r :: r in rows && ExtTargets(r.headword, r.pos).Ok? && k in ExtTargets(r.headword, r.pos).value
      && r.cefr == m
  }

  /** Adding one more row adds the keys its label gives, with its level. */
  lemma {:induction false} ExtReachesSnoc(rows: seq<ExtRow>, k: Key, m: Level)
    requires rows != []
    ensures var last := rows[|rows| - 1];
            ExtReaches(rows, k) <==>
              ExtReaches(rows[..|rows| - 1], k)
              || (ExtTargets(last.headword, last.pos).Ok? && k in ExtTargets(last.headword, last.pos).value)
    ensures var last := rows[|rows| - 1];
            ExtReachesWith(rows, k, m) <==>
              ExtReachesWith(rows[..|rows| - 1], k, m)
              || (ExtTargets(last.headword, last.pos).Ok? && k in ExtTargets(last.headword, last.pos).value
                  && last.cefr == m)
  {
    assert rows == rows[..|rows| - 1] + [rows[|rows| - 1]];
  }

  /** When the extended loop succeeds, it adds exactly the keys some row's
      label gives, with the levels of those rows. */
  lemma {:induction false} ExtFoldMeaning(d: LevelTable, rows: seq<ExtRow>, k: Key, m: Level)
    requires ExtFold(d, rows).Ok?
    ensures k in ExtFold(d, rows).value <==> k in d || ExtReaches(rows, k)
    ensures k in ExtFold(d, rows).value ==>
              (m in ExtFold(d, rows).value[k] <==> (k in d && m in d[k]) || ExtReachesWith(rows, k, m))
    ensures ((k in d && d[k] != []) || ExtReaches(rows, k)) ==> ExtFold(d, rows).value[k] != []
  {
    if rows != [] {
      var n := |rows| - 1;
      var init := rows[..n];
      ExtFoldMeaning(d, init, k, m);
      var ks := ExtTargets(rows[n].headword, rows[n].pos).value;
      AppendAllMeaning(ExtFold(d, init).value, ks, rows[n].cefr, k, m);
      ExtReachesSnoc(rows, k, m);
    }
  }

  /** Every list in the extended table is nonempty, and a key is in it
      exactly when it is not a primary key and some kept row appends to it,
      with the levels of those rows. */
  lemma {:induction false} ExtendedDictMeaning(primaryKeys: set<Key>, rows: seq<ExtRow>, k: Key, m: Level)
    requires ExtendedDict(primaryKeys, rows).Ok?
    ensures k in ExtendedDict(primaryKeys, rows).value <==>
              k !in primaryKeys && ExtReaches(PreFiltered(primaryKeys, rows), k)
    ensures k in ExtendedDict(primaryKeys, rows).value ==>
              ExtendedDict(primaryKeys, rows).value[k] != []
              && (m in ExtendedDict(primaryKeys, rows).value[k] <==> ExtReachesWith(PreFiltered(primaryKeys, rows), k, m))
  {
    ExtFoldMeaning(map[], PreFiltered(primaryKeys, rows), k, m);
  }

  /** Extended headwords keep their case: "Run" gives the key (Run, VERB),
      which a lowercased corpus lemma never matches. */
  lemma {:induction false} ExtendedKeepsCase()
    ensures ExtendedDict({}, [ExtRow("Run", "verb", "A1")]) == Ok(map[Pair("Run", "VERB") := ["A1"]])
  {
    var rows := [ExtRow("Run", "verb", "A1")];
    var key := Pair("Run", "VERB");
    assert PreFiltered({}, rows) == rows;
    assert rows[..0] == [];
    assert ExtendedTable["verb"] == Single("VERB");
    assert ExtTargets("Run", "verb") == Ok([key]);
    AppendAllSingle(map[], key, "A1");
    assert [] + ["A1"] == ["A1"];
    var expected := map[key := ["A1"]];
    assert ExtFold(map[], rows) == Ok(expected);
    assert expected - {} == expected;
  }

  /** Without the pre-filter, a row whose raw label is a key's tag, such as
      ("shall", "VM0"), has a label missing from the extended table and raises. */
  lemma {:induction false} UnfilteredTagLabelRaises()
    ensures ExtendedDict({}, [ExtRow("shall", "VM0", "A2")]) == Err(MissingLabel("VM0"))
  {
    var rows := [ExtRow("shall", "VM0", "A2")];
    assert PreFiltered({}, rows) == rows;
    assert rows[..0] == [];
    assert "VM0" !in ExtendedTable;
    assert ExtAddRow(map[], rows[0]) == Err(MissingLabel("VM0"));
  }

  /** The pre-filter drops that row when its raw pair is a primary key, as
      ("shall", "VM0") is after the overrides, so the build does not raise. */
  lemma {:induction false} PreFilterAvoidsKeyError()
    ensures ExtendedDict({Pair("shall", "VM0")}, [ExtRow("shall", "VM0", "A2")]) == Ok(map[])
  {
    var rows := [ExtRow("shall", "VM0", "A2")];
    assert PreFiltered({Pair("shall", "VM0")}, rows) == [];
  }

  /** The body of the extended loop for one row: a label missing from the
      table raises; a string label appends to (word, tag); any other label is
      iterated as a mapping of c5 tags. */
  method AddExtRow(ext: LevelTable, row: ExtRow) returns (r: Result<LevelTable, BuildError>)
    ensures r == ExtAddRow(ext, row)
  {
    var word := row.headword;
    var pos := row.pos;
    var level := row.cefr;
    if pos !in ExtendedTable {
      return Err(MissingLabel(pos));
    }
    var conv := ExtendedTable[pos];
    if conv.Single? {
      var key := Pair(word, conv.tag);
      var d := AppendLevel(ext, key, level);
      AppendAllSingle(ext, key, level);
      return Ok(d);
    }
    match conv
    case ByC5(ps) =>
      var d := AppendTriples(ext, word, ps, level);
      return Ok(d);
    case Several(_) =>
      return Err(NotAMapping(pos));
  }

  /** create_cefr_dict_from_extended, given the primary table's keys and the
      extended word list's rows. */
  method CreateCefrDictFromExtended(primaryKeys: set<Key>, rows: seq<ExtRow>)
    returns (r: Result<LevelTable, BuildError>)
    ensures r == ExtendedDict(primaryKeys, rows)
  {
    var kept := PreFiltered(primaryKeys, rows);
    var ext: LevelTable := map[];
    var i := 0;
    assert kept[..0] == [];
    while i < |kept|
      invariant 0 <= i <= |kept|
      invariant ExtFold(map[], kept[..i]) == Ok(ext)
    {
      var step := AddExtRow(ext, kept[i]);
      ExtFoldStep(map[], kept, i);
      if step.Err? {
        ExtFoldErrSticks(map[], kept, i + 1);
        return Err(step.error);
      }
      ext := step.value;
      i := i + 1;
    }
    assert kept[..i] == kept;
    return Ok(ext - primaryKeys);
  }
}
