/** The spell base class (geomancer/spells/base.py): a spell's fields, the
    `"column:filter"` parser, the output column filter, the core lookup, and
    what every spell query starts from: the candidate rows of the source
    table. */
module SpellBase {
  import opened Wrappers
  import opened Frames
  import opened DBCore
  import opened BackendSettings
  import Strings
  import Cores

  /** The three spells: DistanceToNearest, NumberOf and LengthOf. */
  datatype Kind = DistanceToNearest | NumberOf | LengthOf

  /** A spell's attributes. The base class stores the first five; every
      subclass adds `source_column`, `source_filter` (parsed from `on`) and
      `within`. */
  datatype Spell = Spell(
    kind: Kind,
    sourceTable: string,
    featureName: string,
    sourceId: string,
    dburl: Option<string>,
    options: Option<Config>,
    sourceColumn: string,
    sourceFilter: string,
    within: int)

  /** The default radius, 10 * 1000 meters. */
  const DEFAULT_WITHIN: int := 10 * 1000

  /** `extract_columns(x)`: the two parts of `x.split(":")` when there are
      exactly two, otherwise the column "fclass" and `x` as the filter. So
      exactly one colon splits the input around it, and any other number of
      colons yields ("fclass", x). */
  function ExtractColumns(x: string): (r: (string, string))
    ensures ':' in x && Strings.Count(x, ':') == 1 ==>
      var i := Strings.FirstIndex(x, ':');
      r == (x[..i], x[i + 1..])
    ensures Strings.Count(x, ':') != 1 ==> r == ("fclass", x)
  {
    var parts := Strings.Split(x, ':');
    Strings.SplitLength(x, ':');
    if |parts| == 2 then
      Strings.CountZero(x, ':');
      Strings.SplitOne(x, ':');
      (parts[0], parts[1])
    else ("fclass", x)
  }

  /** `"c:f"` parses back to `(c, f)` exactly when neither part has a colon. */
  lemma ExtractColumnsPair(c: string, f: string)
    ensures ExtractColumns(c + ":" + f) == (c, f) <==> ':' !in c && ':' !in f
  {
    var x := c + ":" + f;
    assert x == c + [':'] + f;
    if ':' !in c && ':' !in f {
      Strings.SplitAt(c, f, ':');
    } else {
      Strings.CountAppend(c, [':'] + f, ':');
      Strings.CountAppend([':'], f, ':');
      assert c + [':'] + f == c + ([':'] + f);
      Strings.CountZero(c, ':');
      Strings.CountZero(f, ':');
      Strings.SplitLength(x, ':');
      assert |x| > |f|;
    }
  }

  /** An input without a colon is the filter of the column "fclass". */
  lemma ExtractColumnsNoColon(x: string)
    requires ':' !in x
    ensures ExtractColumns(x) == ("fclass", x)
  {
  }

  /** Both spellings the tests use give ("fclass", "embassy"). */
  lemma ExtractColumnsExamples()
    ensures ExtractColumns("fclass:embassy") == ("fclass", "embassy")
    ensures ExtractColumns("embassy") == ("fclass", "embassy")
  {
    var c, f := "fclass", "embassy";
    assert ':' !in c && ':' !in f;
    ExtractColumnsPair(c, f);
    assert c + ":" + f == "fclass:embassy";
    ExtractColumnsNoColon(f);
  }

  /** Two colons are not split: "a:b:c" reads as the filter of column "fclass". */
  lemma ExtractColumnsTwoColons()
    ensures ExtractColumns("a:b:c") == ("fclass", "a:b:c")
  {
    Strings.SplitAt("a", "b:c", ':');
    Strings.SplitAt("b", "c", ':');
    assert "a:b:c" == "a" + [':'] + "b:c";
    assert "b:c" == "b" + [':'] + "c";
  }

  /** A subclass constructor: the base fields stored as given, then `on`
      parsed into the source column and filter. */
  function NewSpell(kind: Kind, on: string, sourceTable: string, featureName: string,
                    sourceId: string := "osm_id", dburl: Option<string> := None,
                    options: Option<Config> := None, within: int := DEFAULT_WITHIN): Spell {
    var (column, filter) := ExtractColumns(on);
    Spell(kind, sourceTable, featureName, sourceId, dburl, options, column, filter, within)
  }

  /** The constructor keeps its arguments, defaults `source_id` to "osm_id"
      and `within` to 10000, and takes the column and filter from `on`. */
  lemma NewSpellStores(kind: Kind, on: string, sourceTable: string, featureName: string)
    ensures
      var s := NewSpell(kind, on, sourceTable, featureName);
      && s.kind == kind && s.sourceTable == sourceTable && s.featureName == featureName
      && s.sourceId == "osm_id" && s.dburl == None && s.options == None
      && s.within == 10000
      && (s.sourceColumn, s.sourceFilter) == ExtractColumns(on)
  {
  }

  // ---------------------------------------------------------------------
  // The output column filter of `cast`

  /** `_include_column`. */
  predicate IncludeColumn(featureName: ColName, col: ColName, keepIndex: bool, featuresOnly: bool) {
    if featuresOnly then col == INDEX_KEY || col == featureName
    else if keepIndex then true
    else col != INDEX_KEY
  }

  /** `[col for col in query.columns if _include_column(col, ...)]`. */
  function OutputColumns(cols: seq<ColName>, featureName: ColName, keepIndex: bool, featuresOnly: bool): (r: seq<ColName>)
    ensures forall c :: c in r <==> c in cols && IncludeColumn(featureName, c, keepIndex, featuresOnly)
  {
    if cols == [] then []
    else
      var rest := OutputColumns(cols[1..], featureName, keepIndex, featuresOnly);
      (if IncludeColumn(featureName, cols[0], keepIndex, featuresOnly) then [cols[0]] else []) + rest
  }

  /** The filter keeps order: the output is a subsequence of the query's columns. */
  lemma {:induction false} OutputColumnsSubsequence(cols: seq<ColName>, featureName: ColName, keepIndex: bool, featuresOnly: bool)
    ensures IsSubsequence(OutputColumns(cols, featureName, keepIndex, featuresOnly), cols)
  {
    if cols != [] {
      var rest := OutputColumns(cols[1..], featureName, keepIndex, featuresOnly);
      OutputColumnsSubsequence(cols[1..], featureName, keepIndex, featuresOnly);
      if IncludeColumn(featureName, cols[0], keepIndex, featuresOnly) {
        assert ([cols[0]] + rest)[1..] == rest;
      } else {
        assert OutputColumns(cols, featureName, keepIndex, featuresOnly) == rest;
        assert rest != [] ==> rest[0] in rest && rest[0] != cols[0];
      }
    }
  }

  /** With `keep_index` and not `features_only`, every column survives. */
  lemma {:induction false} OutputColumnsKeepIndex(cols: seq<ColName>, featureName: ColName)
    ensures OutputColumns(cols, featureName, true, false) == cols
  {
    if cols != [] {
      OutputColumnsKeepIndex(cols[1..], featureName);
    }
  }

  /** Without either flag, exactly `__index_level_0__` is dropped. */
  lemma {:induction false} OutputColumnsDropIndex(cols: seq<ColName>, featureName: ColName)
    ensures OutputColumns(cols, featureName, false, false) == Without(cols, {INDEX_KEY})
  {
    if cols != [] {
      OutputColumnsDropIndex(cols[1..], featureName);
    }
  }

  /** With `features_only` only the key and the feature survive, whatever
      `keep_index` is; a query whose columns are some of its own columns
      then the key then the feature yields exactly those two. */
  lemma {:induction false} OutputColumnsFeaturesOnly(pre: seq<ColName>, featureName: ColName, keepIndex: bool)
    requires INDEX_KEY !in pre && featureName !in pre && featureName != INDEX_KEY
    ensures OutputColumns(pre + [INDEX_KEY, featureName], featureName, keepIndex, true) == [INDEX_KEY, featureName]
    ensures OutputColumns(pre, featureName, keepIndex, true) == []
  {
    if pre != [] {
      OutputColumnsFeaturesOnly(pre[1..], featureName, keepIndex);
      assert (pre + [INDEX_KEY, featureName])[1..] == pre[1..] + [INDEX_KEY, featureName];
      assert !IncludeColumn(featureName, pre[0], keepIndex, true);
    } else {
      var two := [INDEX_KEY, featureName];
      assert two[1..] == [featureName];
      assert [featureName][1..] == [];
      assert OutputColumns([featureName], featureName, keepIndex, true) == [featureName];
      assert OutputColumns(two, featureName, keepIndex, true) == [INDEX_KEY] + OutputColumns([featureName], featureName, keepIndex, true);
      assert pre + two == two;
    }
  }

  /** The filter only looks at a column's name, so whether `keep_index` is set
      makes no difference once `features_only` is. */
  lemma {:induction false} FeaturesOnlyIgnoresKeepIndex(cols: seq<ColName>, featureName: ColName)
    ensures OutputColumns(cols, featureName, true, true) == OutputColumns(cols, featureName, false, true)
  {
    if cols != [] {
      FeaturesOnlyIgnoresKeepIndex(cols[1..], featureName);
    }
  }

  /** The filter looks at each column on its own: it distributes over
      concatenation. */
  lemma {:induction false} OutputColumnsAppend(a: seq<ColName>, b: seq<ColName>, featureName: ColName,
                                               keepIndex: bool, featuresOnly: bool)
    ensures OutputColumns(a + b, featureName, keepIndex, featuresOnly) ==
            OutputColumns(a, featureName, keepIndex, featuresOnly) + OutputColumns(b, featureName, keepIndex, featuresOnly)
  {
    if a != [] {
      assert (a + b)[1..] == a[1..] + b;
      OutputColumnsAppend(a[1..], b, featureName, keepIndex, featuresOnly);
    } else {
      assert a + b == b;
    }
  }

  /** A query whose columns are the key, then columns other than the key
      and the feature, then the feature, yields exactly the key and the
      feature under `features_only`. */
  lemma OutputColumnsFeaturesShape(mid: seq<ColName>, featureName: ColName, keepIndex: bool)
    requires INDEX_KEY !in mid && featureName !in mid && featureName != INDEX_KEY
    ensures OutputColumns([INDEX_KEY] + mid + [featureName], featureName, keepIndex, true) == [INDEX_KEY, featureName]
  {
    OutputColumnsAppend([INDEX_KEY] + mid, [featureName], featureName, keepIndex, true);
    OutputColumnsAppend([INDEX_KEY], mid, featureName, keepIndex, true);
    OutputColumnsFeaturesOnly(mid, featureName, keepIndex);
    assert OutputColumns([INDEX_KEY], featureName, keepIndex, true) == [INDEX_KEY];
    assert OutputColumns([featureName], featureName, keepIndex, true) == [featureName];
  }

  // ---------------------------------------------------------------------
  // The core

  /** `get_core(dburl)`: parse the url, take its backend name, look it up in
      the core registry. */
  function GetCore(options: Option<Config>, dburl: string): (r: Result<Cores.Core>)
    ensures r.Ok? ==> ParseUrl(dburl).Ok? && BackendName(ParseUrl(dburl).value) in {"bigquery", "sqlite"}
    ensures ParseUrl(dburl).Err? ==> r == Err(ParseUrl(dburl).error)
    ensures ParseUrl(dburl).Ok? && BackendName(ParseUrl(dburl).value) !in {"bigquery", "sqlite"} ==>
      r == Err(KeyError(BackendName(ParseUrl(dburl).value)))
  {
    var url :- ParseUrl(dburl);
    Cores.MakeCore(BackendName(url), url, options)
  }

  /** A `sqlite:///path` url selects the SQLite core. */
  lemma GetCoreSqlite(options: Option<Config>, path: string)
    requires '?' !in path
    ensures GetCore(options, "sqlite:///" + path).Ok?
    ensures GetCore(options, "sqlite:///" + path).value == Cores.SQLite(Url("sqlite", "", path), if options.Some? then options.value else SQLiteConfig())
  {
    ParseSqliteUrl(path);
    var u := Url("sqlite", "", path);
    assert GetCore(options, "sqlite:///" + path) == Cores.MakeCore("sqlite", u, options);
  }

  /** A `bigquery://project` url selects the BigQuery core, on that project. */
  lemma GetCoreBigQuery(options: Option<Config>, project: string)
    requires '/' !in project && '?' !in project
    ensures GetCore(options, "bigquery://" + project).Ok?
    ensures GetCore(options, "bigquery://" + project).value == Cores.BigQuery(Url("bigquery", project, ""), if options.Some? then options.value else BQConfig())
  {
    ParseBigQueryUrl(project);
    var u := Url("bigquery", project, "");
    assert GetCore(options, "bigquery://" + project) == Cores.MakeCore("bigquery", u, options);
  }

  // ---------------------------------------------------------------------
  // What the queries share

  /** The geometry functions the queries call, as uninterpreted functions of
      the cells they read: `ST_Distance` between a target geometry and a
      source geometry, whether a source line meets a target's buffer of a
      given radius, and the length of the line clipped to that buffer. They
      stand for the functions of the core in use. */
  datatype SpatialOps = SpatialOps(
    distance: (Value, Value) -> int,
    intersects: (Value, Value, int) -> bool,
    clippedLength: (Value, Value, int) -> int)

  /** The geometry column every source table has; the source is read with
      `source.c.WKT`, whatever `column` says. */
  const SOURCE_GEOMETRY: ColName := "WKT"

  /** `ST_Distance(core.ST_GeoFromText(target.c[column]), core.ST_GeoFromText(pois.c.WKT))`. */
  function Distance(ops: SpatialOps, column: ColName, t: Row, p: Row): int {
    ops.distance(Get(t, column), Get(p, SOURCE_GEOMETRY))
  }

  /** A source row is a candidate when its `source_column` holds
      `source_filter` (a NULL cell matches nothing). */
  predicate IsCandidate(s: Spell, r: Row) {
    Get(r, s.sourceColumn) == Text(s.sourceFilter)
  }

  /** A candidate as the CTE selects it: its `source_id` and `WKT`. */
  function Projected(s: Spell, r: Row): Row {
    Restrict(r, {s.sourceId, SOURCE_GEOMETRY})
  }

  /** The `pois`/`lois` CTE: `source_id` and `WKT` of each candidate, in order. */
  function Candidates(s: Spell, rows: seq<Row>): (ps: seq<Row>)
    ensures |ps| <= |rows|
    ensures forall p | p in ps :: exists i | 0 <= i < |rows| :: IsCandidate(s, rows[i]) && p == Projected(s, rows[i])
    ensures forall i | 0 <= i < |rows| && IsCandidate(s, rows[i]) :: Projected(s, rows[i]) in ps
  {
    if rows == [] then []
    else
      var rest := Candidates(s, rows[1..]);
      assert forall p | p in rest :: exists i | 0 <= i < |rows| :: IsCandidate(s, rows[i]) && p == Projected(s, rows[i]) by {
        forall p | p in rest ensures exists i | 0 <= i < |rows| :: IsCandidate(s, rows[i]) && p == Projected(s, rows[i]) {
          var j :| 0 <= j < |rows[1..]| && IsCandidate(s, rows[1..][j]) && p == Projected(s, rows[1..][j]);
          assert rows[j + 1] == rows[1..][j];
        }
      }
      assert forall i | 1 <= i < |rows| && IsCandidate(s, rows[i]) :: Projected(s, rows[i]) in rest by {
        forall i | 1 <= i < |rows| && IsCandidate(s, rows[i]) ensures Projected(s, rows[i]) in rest {
          assert rows[1..][i - 1] == rows[i];
        }
      }
      (if IsCandidate(s, rows[0]) then [Projected(s, rows[0])] else []) + rest
  }

  /** The column references every query makes before anything else, in the
      order the source makes them: `source.c[source_id]` and
      `source.c[source_column]` raise KeyError, `source.c.WKT` raises
      AttributeError, `target.c[column]` raises KeyError. */
  function CheckColumns(s: Spell, source: Table, target: Table, column: ColName): (r: Result<()>)
    ensures r.Ok? <==> s.sourceId in source.columns && SOURCE_GEOMETRY in source.columns
                       && s.sourceColumn in source.columns && column in target.columns
  {
    if s.sourceId !in source.columns then Err(KeyError(s.sourceId))
    else if SOURCE_GEOMETRY !in source.columns then Err(AttributeError(SOURCE_GEOMETRY))
    else if s.sourceColumn !in source.columns then Err(KeyError(s.sourceColumn))
    else if column !in target.columns then Err(KeyError(column))
    else Ok(())
  }

  /** Every target row has the key, and no two rows share a key value. */
  predicate UniqueKeys(rows: seq<Row>) {
    && (forall i | 0 <= i < |rows| :: INDEX_KEY in rows[i])
    && (forall i, j | 0 <= i < j < |rows| :: rows[i][INDEX_KEY] != rows[j][INDEX_KEY])
  }
}
