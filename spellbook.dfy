/** Spell books (geomancer/spellbook/spellbook.py): a list of spells cast one
    after another onto a frame, each result left-joined on the row key; and
    their export to, and import from, a JSON-shaped record. */
module SpellBooks {
  import opened Wrappers
  import opened Frames
  import opened DBCore
  import opened SpellBase
  import Spells

  /** `SpellBook(spells, column="WKT", author=None, description=None)`. */
  datatype SpellBook = SpellBook(
    spells: seq<Spell>,
    column: ColName := "WKT",
    author: Option<string> := None,
    description: Option<string> := None)

  // ---------------------------------------------------------------------
  // cast

  /** One iteration of the loop in `cast`:
      `df.join(out.set_index("__index_level_0__"))`. */
  function Step(df: DataFrame, out: Result<DataFrame>): (r: Result<DataFrame>)
    ensures out.Err? ==> r == Err(out.error)
    ensures out.Ok? && INDEX_KEY !in out.value.columns ==> r == Err(KeyError(INDEX_KEY))
  {
    var o :- out;
    var right :- SetIndex(o, INDEX_KEY);
    LeftJoin(df, right)
  }

  /** The result of `cast` and the tables the storage holds afterwards. */
  datatype Outcome = Outcome(result: Result<DataFrame>, tables: map<string, Table>)

  /** `cast` from the spell at position `k` on: each spell casts the frame
      as joined so far, with the book's column and `features_only=True`. The
      upload ids and job progress of the `k`-th cast are `ids(k)` and
      `dones(k)`. */
  function Fold(spells: seq<Spell>, column: ColName, df: DataFrame, tables: map<string, Table>, k: nat,
                ids: nat -> string, dones: nat -> seq<bool>, installed: set<string>, ops: SpatialOps): Outcome
    decreases |spells|
  {
    if spells == [] then Outcome(Ok(df), tables)
    else
      var out := Spells.CastSpec(spells[0], df, tables, ids(k), dones(k), installed, ops, None, column, false, true);
      var after := Spells.TablesAfter(spells[0], df, tables, ids(k), dones(k), None);
      match Step(df, out)
      case Err(e) => Outcome(Err(e), after)
      case Ok(df1) => Fold(spells[1..], column, df1, after, k + 1, ids, dones, installed, ops)
  }

  /** The datasets after `cast`: each spell cast up to the first failing
      step may fetch (and so create) one. */
  function FoldDatasets(spells: seq<Spell>, column: ColName, df: DataFrame, tables: map<string, Table>,
                        datasets: set<string>, k: nat, ids: nat -> string, dones: nat -> seq<bool>,
                        installed: set<string>, ops: SpatialOps): (r: set<string>)
    ensures datasets <= r
    decreases |spells|
  {
    if spells == [] then datasets
    else
      var out := Spells.CastSpec(spells[0], df, tables, ids(k), dones(k), installed, ops, None, column, false, true);
      var after := Spells.TablesAfter(spells[0], df, tables, ids(k), dones(k), None);
      var datasets' := Spells.DatasetsAfter(spells[0], datasets, None);
      match Step(df, out)
      case Err(_) => datasets'
      case Ok(df1) => FoldDatasets(spells[1..], column, df1, after, datasets', k + 1, ids, dones, installed, ops)
  }

  /** The expiry times after `cast`: each BigQuery cast up to the first
      failing step may set one; every cast reads the same clock `now`. */
  function FoldExpires(spells: seq<Spell>, column: ColName, df: DataFrame, tables: map<string, Table>,
                       expires: map<string, int>, k: nat, ids: nat -> string, dones: nat -> seq<bool>, now: int,
                       installed: set<string>, ops: SpatialOps): map<string, int>
    decreases |spells|
  {
    if spells == [] then expires
    else
      var out := Spells.CastSpec(spells[0], df, tables, ids(k), dones(k), installed, ops, None, column, false, true);
      var after := Spells.TablesAfter(spells[0], df, tables, ids(k), dones(k), None);
      var expires' := Spells.ExpiresAfter(spells[0], df, tables, expires, ids(k), dones(k), now, None);
      match Step(df, out)
      case Err(_) => expires'
      case Ok(df1) => FoldExpires(spells[1..], column, df1, after, expires', k + 1, ids, dones, now, installed, ops)
  }

  /** `SpellBook.cast(df)`: the loop, reassigning `df` after each spell. */
  method Cast(book: SpellBook, w: Warehouse, df: DataFrame, ids: nat -> string, dones: nat -> seq<bool>,
              now: int, installed: set<string>, ops: SpatialOps)
    returns (r: Result<DataFrame>)
    requires forall k: nat :: IsTableId(ids(k))
    modifies w
    ensures Outcome(r, w.tables) == Fold(book.spells, book.column, df, old(w.tables), 0, ids, dones, installed, ops)
    ensures w.datasets == FoldDatasets(book.spells, book.column, df, old(w.tables), old(w.datasets), 0, ids, dones, installed, ops)
    ensures w.expires == FoldExpires(book.spells, book.column, df, old(w.tables), old(w.expires), 0, ids, dones, now, installed, ops)
  {
    var cur := df;
    var i := 0;
    while i < |book.spells|
      invariant 0 <= i <= |book.spells|
      invariant Fold(book.spells[i..], book.column, cur, w.tables, i, ids, dones, installed, ops) ==
                Fold(book.spells, book.column, df, old(w.tables), 0, ids, dones, installed, ops)
      invariant FoldDatasets(book.spells[i..], book.column, cur, w.tables, w.datasets, i, ids, dones, installed, ops) ==
                FoldDatasets(book.spells, book.column, df, old(w.tables), old(w.datasets), 0, ids, dones, installed, ops)
      invariant FoldExpires(book.spells[i..], book.column, cur, w.tables, w.expires, i, ids, dones, now, installed, ops) ==
                FoldExpires(book.spells, book.column, df, old(w.tables), old(w.expires), 0, ids, dones, now, installed, ops)
    {
      var out := Spells.Cast(book.spells[i], w, cur, ids(i), dones(i), now, installed, ops, None, book.column, false, true);
      assert book.spells[i..][1..] == book.spells[i + 1..];
      var step := Step(cur, out);
      if step.Err? {
        return Err(step.error);
      }
      cur := step.value;
      i := i + 1;
    }
    r := Ok(cur);
  }

  /** A spell's output joins on a unique key: the `__index_level_0__` values
      of its rows are distinct. */
  predicate Keyed(out: Result<DataFrame>) {
    out.Ok? && INDEX_KEY in out.value.columns ==> Distinct(IndexOf(SetIndex(out.value, INDEX_KEY).value))
  }

  /** Every cast of the book, as `Fold` performs them, is keyed. */
  predicate AllKeyed(spells: seq<Spell>, column: ColName, df: DataFrame, tables: map<string, Table>, k: nat,
                     ids: nat -> string, dones: nat -> seq<bool>, installed: set<string>, ops: SpatialOps)
    decreases |spells|
  {
    spells == [] ||
      var out := Spells.CastSpec(spells[0], df, tables, ids(k), dones(k), installed, ops, None, column, false, true);
      var after := Spells.TablesAfter(spells[0], df, tables, ids(k), dones(k), None);
      && Keyed(out)
      && (Step(df, out).Ok? ==> AllKeyed(spells[1..], column, Step(df, out).value, after, k + 1, ids, dones, installed, ops))
  }

  /** A step keeps every record of the frame, in order, with its index, and
      appends the output's columns other than the key. */
  lemma StepKeepsRecords(df: DataFrame, o: DataFrame)
    requires INDEX_KEY in o.columns
    requires Distinct(IndexOf(SetIndex(o, INDEX_KEY).value))
    requires Step(df, Ok(o)).Ok?
    ensures
      var d := Step(df, Ok(o)).value;
      && d.columns == df.columns + Without(o.columns, {INDEX_KEY})
      && |d.records| == |df.records|
      && forall i | 0 <= i < |df.records| :: d.records[i].index == df.records[i].index
  {
    var right := SetIndex(o, INDEX_KEY).value;
    JoinKeepsRecords(df.records, right);
  }

  /** The joined row of a record whose key is unique on the right: the
      right-hand value of its partner, or NaN without one. */
  lemma JoinedFeature(l: Record, right: DataFrame, f: ColName)
    requires Distinct(IndexOf(right)) && Valid(right)
    requires f in right.columns && f !in l.row
    ensures f in Joined(l, right)
    ensures (forall j | 0 <= j < |right.records| :: right.records[j].index != l.index) ==> Joined(l, right)[f] == Missing
    ensures forall j | 0 <= j < |right.records| && right.records[j].index == l.index ::
      Joined(l, right)[f] == right.records[j].row[f]
  {
    if forall j | 0 <= j < |right.records| :: right.records[j].index != l.index {
      JoinedUnmatched(l, right, f);
    } else {
      var j :| 0 <= j < |right.records| && right.records[j].index == l.index;
      MatchesOfDistinct(l.index, right);
      var ms := Matches(l.index, right.records);
      assert ms[0] in ms;
      var j2 :| 0 <= j2 < |right.records| && right.records[j2] == ms[0];
      assert right.records[j2] in right.records;
      forall j3 | 0 <= j3 < |right.records| && right.records[j3].index == l.index
        ensures j3 == j2
      {
        assert IndexOf(right)[j2] == IndexOf(right)[j3];
      }
    }
  }

  /** The key column leaves the rows of the keyed frame; the others stay. */
  lemma KeyedRows(o: DataFrame)
    requires Valid(o) && INDEX_KEY in o.columns
    ensures Valid(SetIndex(o, INDEX_KEY).value)
    ensures forall j, c | 0 <= j < |o.records| && c in o.columns && c != INDEX_KEY ::
      c in SetIndex(o, INDEX_KEY).value.records[j].row &&
      SetIndex(o, INDEX_KEY).value.records[j].row[c] == o.records[j].row[c]
  {
    var right := SetIndex(o, INDEX_KEY).value;
    WithoutDistinct(o.columns, {INDEX_KEY});
    forall j | 0 <= j < |o.records| ensures right.records[j].row.Keys == Elems(right.columns) {
      assert o.records[j] in o.records;
      assert right.records[j].row == o.records[j].row - {INDEX_KEY};
    }
    forall r | r in right.records ensures r.row.Keys == Elems(right.columns) {
      var j :| 0 <= j < |right.records| && right.records[j] == r;
    }
  }

  /** A step gives every record the spell's feature: the value of the output
      row with the record's key, or NaN when the output has no such row. */
  lemma StepFeature(df: DataFrame, o: DataFrame, r: DataFrame, f: ColName, i: int)
    requires Valid(df) && Valid(o)
    requires INDEX_KEY in o.columns && f in o.columns && f != INDEX_KEY
    requires Distinct(IndexOf(SetIndex(o, INDEX_KEY).value))
    requires Step(df, Ok(o)) == Ok(r)
    requires 0 <= i < |df.records|
    ensures |r.records| == |df.records|
    ensures f in r.records[i].row
    ensures (forall j | 0 <= j < |o.records| :: Get(o.records[j].row, INDEX_KEY) != df.records[i].index) ==>
      r.records[i].row[f] == Missing
    ensures forall j | 0 <= j < |o.records| && Get(o.records[j].row, INDEX_KEY) == df.records[i].index ::
      r.records[i].row[f] == o.records[j].row[f]
  {
    var right := SetIndex(o, INDEX_KEY).value;
    var l := df.records[i];
    JoinKeepsRecords(df.records, right);
    assert r.records[i].row == Joined(l, right);
    assert l in df.records;
    assert f in Elems(right.columns);
    KeyedRows(o);
    JoinedFeature(l, right, f);
  }

  /** Two spells with one feature name clash: the second join refuses the
      overlapping column. */
  lemma StepOverlap(df: DataFrame, o: DataFrame, f: ColName)
    requires INDEX_KEY in o.columns && f in o.columns && f != INDEX_KEY && f in df.columns
    ensures Step(df, Ok(o)) == Err(ValueError("columns overlap but no suffix specified"))
  {
    assert f in Elems(SetIndex(o, INDEX_KEY).value.columns) && f in Elems(df.columns);
  }

  /** `cast` keeps every input row: when every spell's output is keyed, the
      result has the input's records, in order, with their index, and the
      input's columns first. */
  lemma {:induction false} CastKeepsRows(spells: seq<Spell>, column: ColName, df: DataFrame, tables: map<string, Table>,
                                        k: nat, ids: nat -> string, dones: nat -> seq<bool>, installed: set<string>,
                                        ops: SpatialOps)
    requires AllKeyed(spells, column, df, tables, k, ids, dones, installed, ops)
    ensures
      var r := Fold(spells, column, df, tables, k, ids, dones, installed, ops).result;
      r.Ok? ==>
        && |r.value.records| == |df.records|
        && IndexOf(r.value) == IndexOf(df)
        && df.columns <= r.value.columns
    decreases |spells|
  {
    if spells != [] {
      var out := Spells.CastSpec(spells[0], df, tables, ids(k), dones(k), installed, ops, None, column, false, true);
      var after := Spells.TablesAfter(spells[0], df, tables, ids(k), dones(k), None);
      var step := Step(df, out);
      if step.Ok? {
        StepKeepsRecords(df, out.value);
        CastKeepsRows(spells[1..], column, step.value, after, k + 1, ids, dones, installed, ops);
      }
    }
  }

  /** A successful step keeps the frame's columns in front and adds the
      spell's output columns other than the key. */
  lemma StepColumns(df: DataFrame, o: DataFrame)
    requires Step(df, Ok(o)).Ok?
    ensures Step(df, Ok(o)).value.columns == df.columns + Without(o.columns, {INDEX_KEY})
  {
  }

  /** The feature names of the spells, in order. */
  function Features(spells: seq<Spell>): (fs: seq<ColName>)
    ensures |fs| == |spells|
  {
    if spells == [] then [] else [spells[0].featureName] + Features(spells[1..])
  }

  lemma FeatureAt(spells: seq<Spell>, i: int)
    requires 0 <= i < |spells|
    ensures Features(spells)[i] == spells[i].featureName
  {
    if i > 0 {
      FeatureAt(spells[1..], i - 1);
    }
  }

  /** Columns carried from one step to the result: a prefix of a prefix is
      a prefix, and a column of the middle frame is one of the result. */
  lemma CarriedColumns(a: seq<ColName>, b: seq<ColName>, c: seq<ColName>, f: ColName, fs: seq<ColName>)
    requires a <= b && b <= c && f in b && Elems(fs) <= Elems(c)
    ensures a <= c && Elems([f] + fs) <= Elems(c)
  {
    assert b == c[..|b|];
    assert f in c;
  }

  /** `cast` returns the features of all spells: on success, the input's
      columns come first and every spell's feature is a column of the
      result (a feature named like the key or one of the queries' helper
      columns would be dropped by the query itself). */
  lemma {:induction false} CastAddsFeatures(spells: seq<Spell>, column: ColName, df: DataFrame, tables: map<string, Table>,
                                           k: nat, ids: nat -> string, dones: nat -> seq<bool>, installed: set<string>,
                                           ops: SpatialOps)
    requires Elems(Features(spells)) !! Spells.QUERY_HELPERS + {INDEX_KEY}
    ensures
      var r := Fold(spells, column, df, tables, k, ids, dones, installed, ops).result;
      r.Ok? ==> df.columns <= r.value.columns && Elems(Features(spells)) <= Elems(r.value.columns)
    decreases |spells|
  {
    if spells != [] {
      var out := Spells.CastSpec(spells[0], df, tables, ids(k), dones(k), installed, ops, None, column, false, true);
      var after := Spells.TablesAfter(spells[0], df, tables, ids(k), dones(k), None);
      var step := Step(df, out);
      if step.Ok? {
        var f := spells[0].featureName;
        assert Features(spells) == [f] + Features(spells[1..]);
        Spells.CastHasFeature(spells[0], df, tables, ids(k), dones(k), installed, ops, None, column, false);
        StepColumns(df, out.value);
        CastAddsFeatures(spells[1..], column, step.value, after, k + 1, ids, dones, installed, ops);
        var r := Fold(spells[1..], column, step.value, after, k + 1, ids, dones, installed, ops).result;
        if r.Ok? {
          CarriedColumns(df.columns, step.value.columns, r.value.columns, f, Features(spells[1..]));
        }
      }
    }
  }

  /** Every successful cast of the book, as `Fold` performs them, returns
      exactly the key and the spell's feature, as `features_only` promises
      (the `Spells.Sqlite*Features` lemmas prove it for ready SQLite casts). */
  predicate AllFeatureShaped(spells: seq<Spell>, column: ColName, df: DataFrame, tables: map<string, Table>, k: nat,
                             ids: nat -> string, dones: nat -> seq<bool>, installed: set<string>, ops: SpatialOps)
    decreases |spells|
  {
    spells == [] ||
      var out := Spells.CastSpec(spells[0], df, tables, ids(k), dones(k), installed, ops, None, column, false, true);
      var after := Spells.TablesAfter(spells[0], df, tables, ids(k), dones(k), None);
      && (out.Ok? ==> out.value.columns == [INDEX_KEY, spells[0].featureName])
      && (Step(df, out).Ok? ==> AllFeatureShaped(spells[1..], column, Step(df, out).value, after, k + 1, ids, dones, installed, ops))
  }

  /** A step over an output of the key and one feature adds that feature. */
  lemma StepAddsFeature(df: DataFrame, o: DataFrame, f: ColName)
    requires o.columns == [INDEX_KEY, f] && f != INDEX_KEY
    requires Step(df, Ok(o)).Ok?
    ensures Step(df, Ok(o)).value.columns == df.columns + [f]
  {
    StepColumns(df, o);
    assert [INDEX_KEY, f][1..] == [f];
    assert [f][1..] == [];
  }

  lemma AppendAssoc(a: seq<ColName>, b: seq<ColName>, c: seq<ColName>, d: seq<ColName>)
    requires d == (a + b) + c
    ensures d == a + (b + c)
  {
  }

  /** When every spell returns the key and its feature, the book's result
      has the input's columns followed by one column per spell, in spell
      order. */
  lemma {:induction false} CastColumns(spells: seq<Spell>, column: ColName, df: DataFrame, tables: map<string, Table>,
                                      k: nat, ids: nat -> string, dones: nat -> seq<bool>, installed: set<string>,
                                      ops: SpatialOps)
    requires INDEX_KEY !in Features(spells)
    requires AllFeatureShaped(spells, column, df, tables, k, ids, dones, installed, ops)
    ensures
      var r := Fold(spells, column, df, tables, k, ids, dones, installed, ops).result;
      r.Ok? ==> r.value.columns == df.columns + Features(spells)
    decreases |spells|
  {
    if spells != [] {
      var out := Spells.CastSpec(spells[0], df, tables, ids(k), dones(k), installed, ops, None, column, false, true);
      var after := Spells.TablesAfter(spells[0], df, tables, ids(k), dones(k), None);
      var step := Step(df, out);
      if step.Ok? {
        var f := spells[0].featureName;
        assert Features(spells) == [f] + Features(spells[1..]);
        StepAddsFeature(df, out.value, f);
        CastColumns(spells[1..], column, step.value, after, k + 1, ids, dones, installed, ops);
        var r := Fold(spells[1..], column, step.value, after, k + 1, ids, dones, installed, ops).result;
        assert Fold(spells, column, df, tables, k, ids, dones, installed, ops).result == r;
        if r.Ok? {
          AppendAssoc(df.columns, [f], Features(spells[1..]), r.value.columns);
        }
      }
    }
  }

  // ---------------------------------------------------------------------
  // to_json, _instantiate_spells, read_json

  /** A JSON value as the export writes them. */
  datatype Field = Null | Str(s: string) | Num(n: int)

  /** A JSON object: the `__dict__` of a spell, plus "module" and "type". */
  type Json = map<string, Field>

  /** The exported book: its own fields, and its spells' records in order. */
  datatype BookJson = BookJson(column: string, spells: seq<Json>, author: Option<string>, description: Option<string>)

  /** `type(s).__module__` and `type(s).__name__`. */
  function ModuleOf(k: Kind): string {
    match k
    case DistanceToNearest => "geomancer.spells.distance_to_nearest"
    case NumberOf => "geomancer.spells.number_of"
    case LengthOf => "geomancer.spells.length_of"
  }

  function TypeOf(k: Kind): string {
    match k
    case DistanceToNearest => "DistanceToNearest"
    case NumberOf => "NumberOf"
    case LengthOf => "LengthOf"
  }

  function OptText(o: Option<string>): Field {
    if o.Some? then Str(o.value) else Null
  }

  /** The constructor arguments a spell keeps in its `__dict__`. */
  function Kwargs(s: Spell): (kw: Json)
    ensures kw.Keys == KEYWORDS
  {
    map[
      "source_table" := Str(s.sourceTable),
      "feature_name" := Str(s.featureName),
      "source_id" := Str(s.sourceId),
      "dburl" := OptText(s.dburl),
      "options" := Null,
      "within" := Num(s.within)]
  }

  /** The error `json.dump` raises on a configuration object: it names the
      object's class. */
  function Unserialisable(s: Spell): Error
    requires s.options.Some?
  {
    TypeError("Object of type " + (if s.options.value.BQConfig? then "BQConfig" else "SQLiteConfig") + " is not JSON serializable")
  }

  /** `{**s.__dict__, "module": ..., "type": ...}`. A spell holding a
      configuration object cannot be serialised. */
  function SpellJson(s: Spell): (r: Result<Json>)
    ensures r.Err? <==> s.options.Some?
    ensures r.Err? ==> r.error == Unserialisable(s)
    ensures r.Ok? ==> r.value.Keys == KEYWORDS + {"source_column", "source_filter", "module", "type"}
    ensures r.Ok? ==> r.value["module"] == Str(ModuleOf(s.kind)) && r.value["type"] == Str(TypeOf(s.kind))
    ensures r.Ok? ==> r.value["source_column"] == Str(s.sourceColumn) && r.value["source_filter"] == Str(s.sourceFilter)
  {
    if s.options.Some? then Err(Unserialisable(s)) else Ok(SpellRecord(s))
  }

  /** The record `SpellJson` gives a spell without options. */
  function SpellRecord(s: Spell): Json {
    Kwargs(s)["source_filter" := Str(s.sourceFilter)]["source_column" := Str(s.sourceColumn)]
             ["type" := Str(TypeOf(s.kind))]["module" := Str(ModuleOf(s.kind))]
  }

  /** The spells' records in order; `json.dump` stops at the first spell
      holding a configuration object. */
  function SpellsJson(spells: seq<Spell>): (r: Result<seq<Json>>)
    ensures r.Ok? <==> forall i | 0 <= i < |spells| :: spells[i].options.None?
    ensures r.Ok? ==> |r.value| == |spells|
    ensures r.Ok? ==> forall i | 0 <= i < |spells| :: r.value[i] == SpellRecord(spells[i])
    ensures r.Err? ==> FirstUnserialisable(spells, r.error)
  {
    if spells == [] then Ok([])
    else if spells[0].options.Some? then Err(Unserialisable(spells[0]))
    else
      var rest := SpellsJson(spells[1..]);
      if rest.Err? then
        FirstUnserialisableLater(spells, rest.error);
        Err(rest.error)
      else
        RecordCons(spells, rest.value);
        Ok([SpellRecord(spells[0])] + rest.value)
  }

  /** `e` is the error of the first spell holding a configuration object. */
  ghost predicate FirstUnserialisable(spells: seq<Spell>, e: Error) {
    exists i | 0 <= i < |spells| ::
      && spells[i].options.Some? && e == Unserialisable(spells[i])
      && forall j | 0 <= j < i :: spells[j].options.None?
  }

  /** Prepending a spell's record to the records of the spells after it. */
  lemma RecordCons(spells: seq<Spell>, rest: seq<Json>)
    requires |spells| > 0
    requires |rest| == |spells| - 1
    requires forall i | 0 <= i < |rest| :: rest[i] == SpellRecord(spells[1..][i])
    ensures forall i | 0 <= i < |spells| :: ([SpellRecord(spells[0])] + rest)[i] == SpellRecord(spells[i])
  {
    assert forall i | 1 <= i < |spells| :: spells[1..][i - 1] == spells[i];
  }

  /** A spell without options in front keeps the first failing spell first. */
  lemma FirstUnserialisableLater(spells: seq<Spell>, e: Error)
    requires |spells| > 0 && spells[0].options.None?
    requires FirstUnserialisable(spells[1..], e)
    ensures FirstUnserialisable(spells, e)
  {
    var k :| 0 <= k < |spells[1..]| && spells[1..][k].options.Some? && e == Unserialisable(spells[1..][k])
             && forall j | 0 <= j < k :: spells[1..][j].options.None?;
    assert spells[k + 1] == spells[1..][k];
    assert forall j | 1 <= j < k + 1 :: spells[j] == spells[1..][j - 1];
  }

  /** `to_json()`, as the record it serialises. */
  function ToJson(book: SpellBook): (r: Result<BookJson>)
    ensures r.Ok? <==> forall i | 0 <= i < |book.spells| :: book.spells[i].options.None?
    ensures r.Ok? ==> r.value.column == book.column && r.value.author == book.author
    ensures r.Ok? ==> r.value.description == book.description && |r.value.spells| == |book.spells|
    ensures r.Ok? ==> forall i | 0 <= i < |book.spells| :: r.value.spells[i] == SpellRecord(book.spells[i])
    ensures r.Err? ==> FirstUnserialisable(book.spells, r.error)
  {
    var spells :- SpellsJson(book.spells);
    Ok(BookJson(book.column, spells, book.author, book.description))
  }

  /** The modules that define, or re-export, the spell classes. */
  const SPELL_MODULES: set<string> :=
    {"geomancer.spells", "geomancer.spells.distance_to_nearest", "geomancer.spells.number_of", "geomancer.spells.length_of"}

  /** What the interpreter can see: the modules other than the spell modules
      that it can import, and for each module the names of its attributes
      other than the spell classes (functions, imported names, submodules,
      `__name__` and the like). */
  datatype Interp = Interp(importable: set<string>, attrs: map<string, set<string>>)

  /** The attributes of `mod` that are not spell classes. */
  function Attrs(env: Interp, mod: string): set<string> {
    if mod in env.attrs then env.attrs[mod] else {}
  }

  /** What `getattr` found: a spell class, or any other attribute. */
  datatype Attr = SpellClass(kind: Kind) | OtherAttr(name: string)

  /** `importlib.import_module(name)`. The spell modules are always
      importable; `env.importable` holds the other modules the interpreter
      can import. A name that is not a string fails on `name.startswith`, an
      empty name and a relative name are refused before any lookup. */
  function ImportModule(f: Field, env: Interp): (r: Result<string>)
    ensures r.Ok? <==> f.Str? && (f.s in SPELL_MODULES || f.s in env.importable) && f.s != "" && f.s[0] != '.'
    ensures r.Ok? ==> r.value == f.s
    ensures !f.Str? ==> r == Err(AttributeError("startswith"))
    ensures f.Str? && f.s != "" && f.s[0] != '.' && f.s !in SPELL_MODULES && f.s !in env.importable ==>
      r == Err(ImportError(f.s))
  {
    if !f.Str? then Err(AttributeError("startswith"))
    else if f.s == "" then Err(ValueError("Empty module name"))
    else if f.s[0] == '.' then Err(TypeError("the 'package' argument is required to perform a relative import for '" + f.s + "'"))
    else if f.s in SPELL_MODULES || f.s in env.importable then Ok(f.s)
    else Err(ImportError(f.s))
  }

  /** `getattr(mod, name)`: a spell class defined in, or re-exported by, the
      module, or any other attribute of it; a missing name is AttributeError. */
  function GetSpellClass(mod: string, f: Field, env: Interp): (r: Result<Attr>)
    ensures r.Ok? && r.value.SpellClass? ==>
      f == Str(TypeOf(r.value.kind)) && mod in {"geomancer.spells", ModuleOf(r.value.kind)}
    ensures r.Ok? && r.value.OtherAttr? ==> f == Str(r.value.name) && r.value.name in Attrs(env, mod)
    ensures f.Str? && r.Err? ==> r == Err(AttributeError(f.s)) && f.s !in Attrs(env, mod)
    ensures !f.Str? ==> r.Err?
  {
    if !f.Str? then Err(TypeError("attribute name must be a string"))
    else if f.s == "DistanceToNearest" && mod in {"geomancer.spells", "geomancer.spells.distance_to_nearest"} then Ok(SpellClass(DistanceToNearest))
    else if f.s == "NumberOf" && mod in {"geomancer.spells", "geomancer.spells.number_of"} then Ok(SpellClass(NumberOf))
    else if f.s == "LengthOf" && mod in {"geomancer.spells", "geomancer.spells.length_of"} then Ok(SpellClass(LengthOf))
    else if f.s in Attrs(env, mod) then Ok(OtherAttr(f.s))
    else Err(AttributeError(f.s))
  }

  /** The keyword arguments the spell constructors accept. */
  const KEYWORDS: set<string> := {"source_table", "feature_name", "source_id", "dburl", "options", "within"}

  /** `spell.pop(key)`: the value, and the object without it. */
  function Pop(d: Json, key: string): Result<(Field, Json)> {
    if key in d then Ok((d[key], d - {key})) else Err(KeyError(key))
  }

  /** `"{}".format(v)` for the values the export writes as text. */
  function FormatField(f: Field): Result<string> {
    match f
    case Str(s) => Ok(s)
    case Null => Ok("None")
    case Num(_) => Err(TypeError("numeric column names are not modelled"))
  }

  function AsText(f: Field, name: string): Result<string> {
    if f.Str? then Ok(f.s) else Err(TypeError(name + " must be a string"))
  }

  function AsOptText(f: Field, name: string): Result<Option<string>> {
    match f
    case Null => Ok(None)
    case Str(s) => Ok(Some(s))
    case Num(_) => Err(TypeError(name + " must be a string or None"))
  }

  /** `spell_cls(on, **spell)`: the subclass takes `within`, the base class
      the rest; an unknown keyword or a missing required one is a TypeError. */
  function Construct(kind: Kind, on: string, kw: Json): (r: Result<Spell>)
    ensures !(kw.Keys <= KEYWORDS) || "source_table" !in kw || "feature_name" !in kw ==> r.Err? && r.error.TypeError?
    ensures r.Ok? ==> && r.value.kind == kind && r.value.options.None?
                      && kw["source_table"] == Str(r.value.sourceTable) && kw["feature_name"] == Str(r.value.featureName)
                      && (r.value.sourceColumn, r.value.sourceFilter) == ExtractColumns(on)
                      && ("source_id" !in kw ==> r.value.sourceId == "osm_id")
                      && ("within" !in kw ==> r.value.within == DEFAULT_WITHIN)
  {
    if !(kw.Keys <= KEYWORDS) then Err(TypeError("__init__() got an unexpected keyword argument"))
    else if "source_table" !in kw || "feature_name" !in kw then Err(TypeError("__init__() missing a required argument"))
    else
      var table :- AsText(kw["source_table"], "source_table");
      var feature :- AsText(kw["feature_name"], "feature_name");
      var sourceId :- if "source_id" in kw then AsText(kw["source_id"], "source_id") else Ok("osm_id");
      var dburl :- if "dburl" in kw then AsOptText(kw["dburl"], "dburl") else Ok(None);
      var _ :- if "options" !in kw || kw["options"] == Null then Ok(()) else Err(TypeError("options must be a Config"));
      var within :- if "within" !in kw then Ok(DEFAULT_WITHIN)
                    else if kw["within"].Num? then Ok(kw["within"].n)
                    else Err(TypeError("within must be a number"));
      Ok(NewSpell(kind, on, table, feature, sourceId, dburl, None, within))
  }

  /** `spell_cls(on, **spell)` for what `getattr` found: a spell class is
      constructed, any other attribute is a TypeError. */
  function Call(a: Attr, on: string, kw: Json): Result<Spell> {
    match a
    case SpellClass(kind) => Construct(kind, on, kw)
    case OtherAttr(name) => Err(TypeError(name + " is not a spell class"))
  }

  /** One iteration of `_instantiate_spells`, in the order of its steps:
      pop "module" and import it, pop "type" and look it up, pop the column
      and the filter, join them with ':', and call the class. */
  function InstantiateSpell(d: Json, env: Interp): (r: Result<Spell>)
    ensures "module" !in d ==> r == Err(KeyError("module"))
    ensures r.Ok? ==> && "module" in d && "type" in d && d["type"] == Str(TypeOf(r.value.kind))
                      && d["module"] in {Str("geomancer.spells"), Str(ModuleOf(r.value.kind))}
  {
    var p1 :- Pop(d, "module");
    var mod :- ImportModule(p1.0, env);
    var p2 :- Pop(p1.1, "type");
    var cls :- GetSpellClass(mod, p2.0, env);
    var p3 :- Pop(p2.1, "source_column");
    var p4 :- Pop(p3.1, "source_filter");
    var column :- FormatField(p3.0);
    var filter :- FormatField(p4.0);
    Call(cls, column + ":" + filter, p4.1)
  }

  /** The spells of a list of outcomes, or the first error among them. */
  function Collect(rs: seq<Result<Spell>>): (r: Result<seq<Spell>>)
    ensures r.Ok? <==> forall i | 0 <= i < |rs| :: rs[i].Ok?
    ensures r.Ok? ==> |r.value| == |rs| && forall i | 0 <= i < |rs| :: rs[i] == Ok(r.value[i])
  {
    if rs == [] then Ok([])
    else
      var rest := Collect(rs[1..]);
      assert forall i | 1 <= i < |rs| :: rs[1..][i - 1] == rs[i];
      match rs[0]
      case Err(e) => Err(e)
      case Ok(s) => if rest.Err? then rest else Ok([s] + rest.value)
  }

  /** Each exported spell, instantiated on its own. */
  function Results(ds: seq<Json>, env: Interp): seq<Result<Spell>> {
    seq(|ds|, i requires 0 <= i < |ds| => InstantiateSpell(ds[i], env))
  }

  /** All the spells of an exported book, failing at the first bad one. */
  function InstantiateAll(ds: seq<Json>, env: Interp): Result<seq<Spell>> {
    Collect(Results(ds, env))
  }

  function Prepend(done: seq<Spell>, r: Result<seq<Spell>>): Result<seq<Spell>> {
    if r.Ok? then Ok(done + r.value) else r
  }

  /** One iteration of `_instantiate_spells`, popping fields off the record. */
  method InstantiateOne(spell: Json, env: Interp) returns (r: Result<Spell>)
    ensures r == InstantiateSpell(spell, env)
  {
    var d := spell;
    if "module" !in d {
      return Err(KeyError("module"));
    }
    var modField := d["module"];
    d := d - {"module"};
    var mod :- ImportModule(modField, env);
    if "type" !in d {
      return Err(KeyError("type"));
    }
    var typeField := d["type"];
    d := d - {"type"};
    var cls :- GetSpellClass(mod, typeField, env);
    if "source_column" !in d {
      return Err(KeyError("source_column"));
    }
    var columnField := d["source_column"];
    d := d - {"source_column"};
    if "source_filter" !in d {
      return Err(KeyError("source_filter"));
    }
    var filterField := d["source_filter"];
    d := d - {"source_filter"};
    var column :- FormatField(columnField);
    var filter :- FormatField(filterField);
    r := Call(cls, column + ":" + filter, d);
  }

  /** One step of collecting: the error of the next outcome, or its spell
      moved to the done part. */
  lemma CollectStep(rs: seq<Result<Spell>>, i: int, done: seq<Spell>)
    requires 0 <= i < |rs|
    ensures rs[i].Err? ==> Prepend(done, Collect(rs[i..])) == Err(rs[i].error)
    ensures rs[i].Ok? ==> Prepend(done, Collect(rs[i..])) == Prepend(done + [rs[i].value], Collect(rs[i + 1..]))
  {
    assert rs[i..][0] == rs[i] && rs[i..][1..] == rs[i + 1..];
    var rest := Collect(rs[i + 1..]);
    if rs[i].Ok? && rest.Ok? {
      assert done + ([rs[i].value] + rest.value) == done + [rs[i].value] + rest.value;
    }
  }

  /** `_instantiate_spells`: the loop over the exported spells. */
  method InstantiateSpells(ds: seq<Json>, env: Interp) returns (r: Result<seq<Spell>>)
    ensures r == InstantiateAll(ds, env)
  {
    var rs := Results(ds, env);
    var spells: seq<Spell> := [];
    var i := 0;
    assert rs[0..] == rs;
    assert InstantiateAll(ds, env).Ok? ==> [] + InstantiateAll(ds, env).value == InstantiateAll(ds, env).value;
    while i < |ds|
      invariant 0 <= i <= |ds|
      invariant InstantiateAll(ds, env) == Prepend(spells, Collect(rs[i..]))
    {
      var spell := InstantiateOne(ds[i], env);
      assert spell == rs[i];
      CollectStep(rs, i, spells);
      if spell.Err? {
        return Err(spell.error);
      }
      spells := spells + [spell.value];
      i := i + 1;
    }
    assert rs[i..] == [] && spells + [] == spells;
    r := Ok(spells);
  }

  /** `read_json`, from the parsed record: the book's fields as they were
      written, and the spells rebuilt. */
  function ReadJson(obj: BookJson, env: Interp): (r: Result<SpellBook>)
    ensures r.Ok? <==> forall i | 0 <= i < |obj.spells| :: InstantiateSpell(obj.spells[i], env).Ok?
    ensures r.Ok? ==> r.value.column == obj.column && r.value.author == obj.author && r.value.description == obj.description
    ensures r.Ok? ==> |r.value.spells| == |obj.spells|
    ensures r.Ok? ==> forall i | 0 <= i < |obj.spells| :: InstantiateSpell(obj.spells[i], env) == Ok(r.value.spells[i])
  {
    assert forall i | 0 <= i < |obj.spells| :: Results(obj.spells, env)[i] == InstantiateSpell(obj.spells[i], env);
    var spells :- InstantiateAll(obj.spells, env);
    Ok(SpellBook(spells, obj.column, obj.author, obj.description))
  }

  // ---------------------------------------------------------------------
  // The export/import round trip

  /** The record of a spell passes through `_instantiate_spells` to the
      spell with `on` rebuilt as `"source_column:source_filter"`. */
  lemma SpellJsonReads(s: Spell, env: Interp)
    requires s.options.None?
    ensures InstantiateSpell(SpellJson(s).value, env) ==
      Ok(NewSpell(s.kind, s.sourceColumn + ":" + s.sourceFilter, s.sourceTable, s.featureName, s.sourceId, s.dburl, None, s.within))
  {
    var kw := Kwargs(s);
    var d1 := kw["source_filter" := Str(s.sourceFilter)];
    var d2 := d1["source_column" := Str(s.sourceColumn)];
    var d3 := d2["type" := Str(TypeOf(s.kind))];
    var d4 := d3["module" := Str(ModuleOf(s.kind))];
    assert SpellJson(s).value == d4;
    PopUpdated(d3, "module", Str(ModuleOf(s.kind)));
    PopUpdated(d2, "type", Str(TypeOf(s.kind)));
    PopUpdated(d1, "source_column", Str(s.sourceColumn));
    PopUpdated(kw, "source_filter", Str(s.sourceFilter));
    assert Pop(d4, "module") == Ok((Str(ModuleOf(s.kind)), d3));
    ImportSpellModule(s.kind, env);
    assert Pop(d3, "type") == Ok((Str(TypeOf(s.kind)), d2));
    GetSpellClassOf(s.kind, env);
    assert Pop(d2, "source_column") == Ok((Str(s.sourceColumn), d1));
    assert Pop(d1, "source_filter") == Ok((Str(s.sourceFilter), kw));
    ConstructFromKwargs(s, s.sourceColumn + ":" + s.sourceFilter);
  }

  /** The class a spell records is found in the module it records. */
  lemma GetSpellClassOf(k: Kind, env: Interp)
    ensures GetSpellClass(ModuleOf(k), Str(TypeOf(k)), env) == Ok(SpellClass(k))
  {
  }

  /** The stored keywords rebuild the spell's fields. */
  lemma ConstructFromKwargs(s: Spell, on: string)
    requires s.options.None?
    ensures Construct(s.kind, on, Kwargs(s)) ==
      Ok(NewSpell(s.kind, on, s.sourceTable, s.featureName, s.sourceId, s.dburl, None, s.within))
  {
    var kw := Kwargs(s);
    assert kw.Keys <= KEYWORDS;
    assert AsText(kw["source_table"], "source_table") == Ok(s.sourceTable);
    assert AsText(kw["feature_name"], "feature_name") == Ok(s.featureName);
    assert AsText(kw["source_id"], "source_id") == Ok(s.sourceId);
    assert AsOptText(kw["dburl"], "dburl") == Ok(s.dburl);
  }

  /** The module a spell records is always importable. */
  lemma ImportSpellModule(k: Kind, env: Interp)
    ensures ImportModule(Str(ModuleOf(k)), env) == Ok(ModuleOf(k))
  {
    assert ModuleOf(k) in SPELL_MODULES;
    assert ModuleOf(k)[0] == 'g';
  }

  lemma PopUpdated(m: Json, k: string, v: Field)
    requires k !in m
    ensures m[k := v] - {k} == m
  {
  }

  /** One spell survives the round trip exactly when neither its column nor
      its filter contains ':'. */
  lemma SpellRoundTrip(s: Spell, env: Interp)
    requires s.options.None?
    ensures InstantiateSpell(SpellJson(s).value, env) == Ok(s) <==> ':' !in s.sourceColumn && ':' !in s.sourceFilter
  {
    SpellJsonReads(s, env);
    ExtractColumnsPair(s.sourceColumn, s.sourceFilter);
  }

  /** The spells all survive when every column and filter is free of ':'. */
  lemma SpellsRoundTrip(spells: seq<Spell>, env: Interp)
    requires forall i | 0 <= i < |spells| :: spells[i].options.None?
    requires forall i | 0 <= i < |spells| :: ':' !in spells[i].sourceColumn && ':' !in spells[i].sourceFilter
    ensures InstantiateAll(SpellsJson(spells).value, env) == Ok(spells)
  {
    var js := SpellsJson(spells).value;
    var rs := Results(js, env);
    assert |rs| == |spells|;
    forall i | 0 <= i < |spells| ensures rs[i] == Ok(spells[i]) {
      assert js[i] == SpellRecord(spells[i]) == SpellJson(spells[i]).value;
      assert rs[i] == InstantiateSpell(js[i], env);
      SpellRoundTrip(spells[i], env);
    }
    var back := Collect(rs);
    assert back.Ok?;
    assert back.value == spells;
  }

  /** A spell whose column or filter contains ':' comes back different. */
  lemma SpellsRoundTripBreaks(spells: seq<Spell>, k: int, env: Interp)
    requires forall i | 0 <= i < |spells| :: spells[i].options.None?
    requires 0 <= k < |spells| && (':' in spells[k].sourceColumn || ':' in spells[k].sourceFilter)
    ensures InstantiateAll(SpellsJson(spells).value, env).Err? ||
            InstantiateAll(SpellsJson(spells).value, env).value != spells
  {
    SpellRoundTrip(spells[k], env);
    var js := SpellsJson(spells).value;
    assert js[k] == SpellRecord(spells[k]) == SpellJson(spells[k]).value;
    assert Results(js, env)[k] != Ok(spells[k]);
  }

  /** Exporting a book and reading it back restores its column, author,
      description and every spell exactly when no spell's column or filter
      contains ':' (a spell holding options cannot be exported at all). */
  lemma RoundTrip(book: SpellBook, env: Interp)
    requires forall i | 0 <= i < |book.spells| :: book.spells[i].options.None?
    ensures ToJson(book).Ok?
    ensures ReadJson(ToJson(book).value, env) == Ok(book) <==>
      forall i | 0 <= i < |book.spells| :: ':' !in book.spells[i].sourceColumn && ':' !in book.spells[i].sourceFilter
  {
    if forall i | 0 <= i < |book.spells| :: ':' !in book.spells[i].sourceColumn && ':' !in book.spells[i].sourceFilter {
      SpellsRoundTrip(book.spells, env);
    } else {
      var k :| 0 <= k < |book.spells| && !(':' !in book.spells[k].sourceColumn && ':' !in book.spells[k].sourceFilter);
      SpellsRoundTripBreaks(book.spells, k, env);
    }
  }

  /** A module that cannot be imported is an ImportError, and a name the
      module does not have an AttributeError; the spell is not skipped. */
  lemma UnknownClassFails(d: Json, mod: string, name: string, env: Interp)
    requires "module" in d && "type" in d
    requires d["module"] == Str(mod) && d["type"] == Str(name)
    requires mod != "" && mod[0] != '.'
    ensures mod !in SPELL_MODULES && mod !in env.importable ==> InstantiateSpell(d, env) == Err(ImportError(mod))
    ensures mod !in SPELL_MODULES && mod in env.importable && name !in Attrs(env, mod) ==>
      InstantiateSpell(d, env) == Err(AttributeError(name))
    ensures mod == "geomancer.spells" && name !in {"DistanceToNearest", "NumberOf", "LengthOf"} && name !in Attrs(env, mod) ==>
      InstantiateSpell(d, env) == Err(AttributeError(name))
  {
  }

  /** An attribute of the module that is not a spell class (a submodule, a
      function, `__name__`) is found, the column and filter are popped and
      joined, and the call then fails with a TypeError. */
  lemma NonSpellAttributeFails(d: Json, mod: string, name: string, column: string, filter: string, env: Interp)
    requires d.Keys >= {"module", "type", "source_column", "source_filter"}
    requires d["module"] == Str(mod) && d["type"] == Str(name)
    requires d["source_column"] == Str(column) && d["source_filter"] == Str(filter)
    requires (mod in SPELL_MODULES || mod in env.importable) && mod != "" && mod[0] != '.'
    requires name in Attrs(env, mod)
    requires forall k: Kind :: !(name == TypeOf(k) && mod in {"geomancer.spells", ModuleOf(k)})
    ensures InstantiateSpell(d, env) == Err(TypeError(name + " is not a spell class"))
  {
    var d1 := d - {"module"};
    var d2 := d1 - {"type"};
    assert GetSpellClass(mod, Str(name), env) == Ok(OtherAttr(name)) by {
      assert TypeOf(DistanceToNearest) == "DistanceToNearest" && ModuleOf(DistanceToNearest) == "geomancer.spells.distance_to_nearest";
      assert TypeOf(NumberOf) == "NumberOf" && ModuleOf(NumberOf) == "geomancer.spells.number_of";
      assert TypeOf(LengthOf) == "LengthOf" && ModuleOf(LengthOf) == "geomancer.spells.length_of";
    }
    assert Pop(d2, "source_column") == Ok((Str(column), d2 - {"source_column"}));
  }

  /** `read_json` fails as a whole when one of the spells fails. */
  lemma InstantiateFailsOn(ds: seq<Json>, d: Json, env: Interp)
    requires d in ds && InstantiateSpell(d, env).Err?
    ensures InstantiateAll(ds, env).Err?
  {
    var i :| 0 <= i < |ds| && ds[i] == d;
    assert Results(ds, env)[i].Err?;
  }

  /** The export defaults: column "WKT", no author, no description. */
  lemma BookDefaults(spells: seq<Spell>)
    ensures SpellBook(spells).column == "WKT"
    ensures SpellBook(spells).author == None && SpellBook(spells).description == None
  {
  }
}
