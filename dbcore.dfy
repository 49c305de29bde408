/** What every backend adapter ("core") shares: the parsed database url, the
    storage an adapter writes into, the format of generated table ids, and the
    upload transformation the SQL cores apply before `to_sql`.

    The adapters' own base class (the current `DBCore` with `get_engine`,
    `get_tables` and `_inspect_options`) is not part of this model; the
    variants of `Cores.Core` play its part. */
module DBCore {
  import opened Wrappers
  import opened Frames
  import Strings

  /** `uuid.uuid4().hex`: 32 lower-case hexadecimal digits. The generator is not
      modelled; callers pass the id in and this predicate says what it looks like. */
  predicate IsTableId(s: string) {
    |s| == 32 && forall i | 0 <= i < |s| :: s[i] in "0123456789abcdef"
  }

  /** The storage behind a database url: the relations it holds, and for
      BigQuery the datasets and each table's expiry timestamp (in seconds). */
  class Warehouse {
    var tables: map<string, Table>
    var datasets: set<string>
    var expires: map<string, int>

    constructor (tables: map<string, Table>, datasets: set<string>)
      ensures this.tables == tables && this.datasets == datasets && expires == map[]
    {
      this.tables := tables;
      this.datasets := datasets;
      this.expires := map[];
    }
  }

  /** The SQL function calls a core builds to read a WKT column as a
      geometry: a column, an integer literal, or a named function applied to
      arguments. */
  datatype SqlExpr = Column(name: string) | IntLit(n: int) | Call(fn: string, args: seq<SqlExpr>)

  // ---------------------------------------------------------------------
  // Database urls (sqlalchemy's make_url, the parts the core reads)

  /** A parsed url: the driver name, the host (the BigQuery project) and the
      database (the SQLite file path). User, password, port and query
      parameters are not modelled. */
  datatype Url = Url(drivername: string, host: string, database: string)

  predicate IsNameChar(c: char) {
    ('a' <= c <= 'z') || ('A' <= c <= 'Z') || ('0' <= c <= '9') || c == '_' || c == '+'
  }

  /** The text before the first occurrence of any character of `stops`. */
  function UpTo(s: string, stops: set<char>): (r: string)
    ensures |r| <= |s| && r == s[..|r|]
    ensures forall i | 0 <= i < |r| :: r[i] !in stops
    ensures |r| < |s| ==> s[|r|] in stops
  {
    if s == [] || s[0] in stops then "" else [s[0]] + UpTo(s[1..], stops)
  }

  /** `make_url(s)`: `name://host/database`; the name is made of word
      characters and `+`. Anything else is an ArgumentError. */
  function ParseUrl(s: string): (r: Result<Url>)
    ensures r.Ok? ==> r.value.drivername != [] && ':' !in r.value.drivername
  {
    if ':' !in s then Err(ArgumentError(s))
    else
      var i := Strings.FirstIndex(s, ':');
      var name := s[..i];
      if name == [] || !(forall k | 0 <= k < |name| :: IsNameChar(name[k])) || s[i..] [..min(3, |s| - i)] != "://" then
        Err(ArgumentError(s))
      else
        var rest := s[i + 3..];
        var host := UpTo(rest, {'/', '?'});
        var after := rest[|host|..];
        var database := if after != [] && after[0] == '/' then UpTo(after[1..], {'?'}) else "";
        Ok(Url(name, host, database))
  }

  function min(a: int, b: int): int {
    if a < b then a else b
  }

  /** `url.get_backend_name()`: the driver name up to a `+`. */
  function BackendName(u: Url): string {
    UpTo(u.drivername, {'+'})
  }

  /** What `make_url` reads after `name://`: the host up to the first `/` or
      `?`, then the database after that `/` up to a `?`. */
  function Remainder(name: string, rest: string): Url {
    var host := UpTo(rest, {'/', '?'});
    var after := rest[|host|..];
    Url(name, host, if after != [] && after[0] == '/' then UpTo(after[1..], {'?'}) else "")
  }

  /** A url `name://rest` parses, with `name` as the driver name, whenever
      `name` is a non-empty run of word characters and `+`. */
  lemma ParseUrlName(s: string, name: string, rest: string)
    requires name != [] && forall k | 0 <= k < |name| :: IsNameChar(name[k])
    requires s == name + "://" + rest
    ensures ParseUrl(s) == Ok(Remainder(name, rest))
  {
    assert s[|name|] == ':';
    assert forall k | 0 <= k < |name| :: s[k] == name[k] && name[k] != ':';
    var i := Strings.FirstIndex(s, ':');
    assert i == |name|;
    assert s[..i] == name;
    assert s[i..][..3] == "://";
    assert s[i + 3..] == rest;
  }

  /** A url without a scheme separator is refused. */
  lemma ParseUrlNoScheme(s: string)
    requires ':' !in s
    ensures ParseUrl(s) == Err(ArgumentError(s))
  {
  }

  /** `sqlite:///path`: no host, and the path is the database. */
  lemma ParseFileUrl(name: string, path: string)
    requires name != [] && forall k | 0 <= k < |name| :: IsNameChar(name[k])
    requires '?' !in path
    ensures ParseUrl(name + ":///" + path) == Ok(Url(name, "", path))
  {
    FileRemainder(name, path);
    ParseUrlName(name + ":///" + path, name, "/" + path);
  }

  /** After `name://`, a `/` starts the database at once: the host is empty. */
  lemma FileRemainder(name: string, path: string)
    requires '?' !in path
    ensures name + ":///" + path == name + "://" + ("/" + path)
    ensures Remainder(name, "/" + path) == Url(name, "", path)
  {
    var rest := "/" + path;
    assert UpTo(rest, {'/', '?'}) == "";
    assert rest[1..] == path;
    UpToNone(path, {'?'});
  }

  /** `bigquery://project`: the project is the host, there is no database. */
  lemma ParseHostUrl(name: string, host: string)
    requires name != [] && forall k | 0 <= k < |name| :: IsNameChar(name[k])
    requires '/' !in host && '?' !in host
    ensures ParseUrl(name + "://" + host) == Ok(Url(name, host, ""))
  {
    ParseUrlName(name + "://" + host, name, host);
    UpToNone(host, {'/', '?'});
  }

  /** SQLite urls of the form `sqlite:///tests/data/source.sqlite`: the path is the database. */
  lemma ParseSqliteUrl(path: string)
    requires '?' !in path
    ensures ParseUrl("sqlite:///" + path) == Ok(Url("sqlite", "", path))
    ensures BackendName(Url("sqlite", "", path)) == "sqlite"
  {
    KnownNames("sqlite");
    assert "sqlite" + ":///" + path == "sqlite:///" + path by {
      assert "sqlite" + ":///" == "sqlite:///";
    }
    ParseFileUrl("sqlite", path);
    BackendNamePlain(Url("sqlite", "", path));
  }

  /** BigQuery urls of the form `bigquery://geospatial`: the project is the host. */
  lemma ParseBigQueryUrl(project: string)
    requires '/' !in project && '?' !in project
    ensures ParseUrl("bigquery://" + project) == Ok(Url("bigquery", project, ""))
    ensures BackendName(Url("bigquery", project, "")) == "bigquery"
  {
    KnownNames("bigquery");
    assert "bigquery" + "://" + project == "bigquery://" + project by {
      assert "bigquery" + "://" == "bigquery://";
    }
    ParseHostUrl("bigquery", project);
    BackendNamePlain(Url("bigquery", project, ""));
  }

  /** The driver names of the tests are plain word characters. */
  lemma KnownNames(name: string)
    requires name == "sqlite" || name == "bigquery"
    ensures name != [] && '+' !in name
    ensures forall k | 0 <= k < |name| :: IsNameChar(name[k])
  {
  }

  lemma {:induction false} UpToNone(s: string, stops: set<char>)
    requires forall k | 0 <= k < |s| :: s[k] !in stops
    ensures UpTo(s, stops) == s
  {
    if s != [] {
      UpToNone(s[1..], stops);
    }
  }

  /** The backend name of a driver name without `+` is the driver name. */
  lemma BackendNamePlain(u: Url)
    requires '+' !in u.drivername
    ensures BackendName(u) == u.drivername
  {
    UpToNone(u.drivername, {'+'});
  }

  /** `sqlite+pysqlite` and the like: the dialect before the `+`. */
  lemma BackendNameDialect(dialect: string, driver: string)
    requires '+' !in dialect
    ensures BackendName(Url(dialect + "+" + driver, "", "")) == dialect
  {
    var s := dialect + "+" + driver;
    assert s[|dialect|] == '+';
    assert s[..|dialect|] == dialect;
    var r := UpTo(s, {'+'});
    assert forall k | 0 <= k < |dialect| :: s[k] == dialect[k] && s[k] != '+';
    assert |r| >= |dialect|;
    assert r[..|dialect|] == dialect;
    assert |r| <= |dialect|;
  }

  // ---------------------------------------------------------------------
  // The SQL cores' upload transformation

  /** The label `to_sql(index=True)` writes the index under: the given label,
      else the index's name, else "index", or "level_0" when that column
      exists. */
  function IndexColumn(d: DataFrame, indexLabel: Option<string>): (r: ColName)
    ensures indexLabel.Some? ==> r == indexLabel.value
    ensures indexLabel.None? && d.indexName.Some? ==> r == d.indexName.value
    ensures indexLabel.None? && d.indexName.None? ==> r in {"index", "level_0"} && (r == "index" <==> "index" !in d.columns)
  {
    if indexLabel.Some? then indexLabel.value else ResetIndexLabel(d)
  }

  /** `d.to_sql(..., index=index, index_label=indexLabel)`: the relation that is
      written. The index, when written, leads the columns. A relation with two
      columns of one name is refused with a ValueError. */
  function ToSql(d: DataFrame, index: bool, indexLabel: Option<string>): (r: Result<Table>)
    ensures r.Ok? ==> r.value.columns == (if index then [IndexColumn(d, indexLabel)] else []) + d.columns
    ensures r.Ok? ==> |r.value.rows| == |d.records|
    ensures r.Err? <==> !Distinct((if index then [IndexColumn(d, indexLabel)] else []) + d.columns)
  {
    var lead := if index then [IndexColumn(d, indexLabel)] else [];
    var cols := lead + d.columns;
    if !Distinct(cols) then Err(ValueError("duplicate name in index/columns"))
    else
      Ok(Table(cols, seq(|d.records|, i requires 0 <= i < |d.records| =>
        if index then d.records[i].row[IndexColumn(d, indexLabel) := d.records[i].index]
        else d.records[i].row)))
  }

  /** What the SQLite and PostgreSQL `load` write: `reset_index()`, then the
      column "index" renamed to `__index_level_0__`, then `to_sql`. */
  function IndexedUpload(df: DataFrame, index: bool, indexLabel: Option<string>): (r: Result<Table>)
    ensures ResetIndex(df).Err? ==> r == Err(ResetIndex(df).error)
    ensures r.Ok? ==> |r.value.rows| == |df.records|
    ensures r.Ok? && !index ==> r.value.columns == RenameLabels([ResetIndexLabel(df)] + df.columns, "index", INDEX_KEY)
  {
    var d :- ResetIndex(df);
    ToSql(Rename(d, "index", INDEX_KEY), index, indexLabel)
  }

  lemma RenameLabelsNoMatch(cols: seq<ColName>, from: ColName, to: ColName)
    requires from !in cols
    ensures RenameLabels(cols, from, to) == cols
  {
  }

  /** Resetting a fresh key into a row and renaming it to the upload key is
      the same as writing the upload key directly. */
  lemma RenameFreshKey(r: Row, v: Value)
    requires "index" !in r
    ensures RenameRow(r["index" := v], "index", INDEX_KEY) == r[INDEX_KEY := v]
  {
    assert r["index" := v] - {"index"} == r;
  }

  /** reset_index followed by the rename, on a frame without an "index" column. */
  lemma ResetThenRename(df: DataFrame)
    requires Valid(df) && df.indexName.None? && "index" !in df.columns
    ensures ResetIndex(df).Ok?
    ensures
      var d := Rename(ResetIndex(df).value, "index", INDEX_KEY);
      && d.columns == [INDEX_KEY] + df.columns
      && |d.records| == |df.records|
      && forall i | 0 <= i < |d.records| :: d.records[i].row == df.records[i].row[INDEX_KEY := df.records[i].index]
  {
    var d := ResetIndex(df).value;
    RenameLabelsNoMatch(df.columns, "index", INDEX_KEY);
    assert RenameLabels(d.columns, "index", INDEX_KEY) == [INDEX_KEY] + RenameLabels(df.columns, "index", INDEX_KEY);
    forall i | 0 <= i < |df.records|
      ensures RenameRow(d.records[i].row, "index", INDEX_KEY) == df.records[i].row[INDEX_KEY := df.records[i].index]
    {
      assert df.records[i] in df.records;
      RenameFreshKey(df.records[i].row, df.records[i].index);
    }
  }

  /** The uploaded relation is the input with one new leading column,
      `__index_level_0__`, holding each record's index; the other columns keep
      their order and their values. The upload fails exactly when the input
      already has a `__index_level_0__` column. (Inputs with a column called
      "index" are covered by IndexColumnClash.) */
  lemma UploadShape(df: DataFrame)
    requires Valid(df) && df.indexName.None? && "index" !in df.columns
    ensures IndexedUpload(df, false, None).Err? <==> INDEX_KEY in df.columns
    ensures INDEX_KEY !in df.columns ==>
      var t := IndexedUpload(df, false, None).value;
      && t.columns == [INDEX_KEY] + df.columns
      && |t.rows| == |df.records|
      && WellFormed(t)
      && (forall i | 0 <= i < |t.rows| :: t.rows[i] == df.records[i].row[INDEX_KEY := df.records[i].index])
  {
    if INDEX_KEY in df.columns {
      UploadClash(df);
    } else {
      UploadFresh(df);
    }
  }

  lemma UploadClash(df: DataFrame)
    requires Valid(df) && df.indexName.None? && "index" !in df.columns && INDEX_KEY in df.columns
    ensures IndexedUpload(df, false, None).Err?
  {
    RenameLabelsNoMatch(df.columns, "index", INDEX_KEY);
    var cols := RenameLabels([ResetIndexLabel(df)] + df.columns, "index", INDEX_KEY);
    assert cols == [INDEX_KEY] + df.columns;
    var k :| 0 <= k < |df.columns| && df.columns[k] == INDEX_KEY;
    assert cols[0] == cols[k + 1];
  }

  lemma UploadFresh(df: DataFrame)
    requires Valid(df) && df.indexName.None? && "index" !in df.columns && INDEX_KEY !in df.columns
    ensures IndexedUpload(df, false, None).Ok?
    ensures
      var t := IndexedUpload(df, false, None).value;
      && t.columns == [INDEX_KEY] + df.columns
      && |t.rows| == |df.records|
      && WellFormed(t)
      && (forall i | 0 <= i < |t.rows| :: t.rows[i] == df.records[i].row[INDEX_KEY := df.records[i].index])
  {
    ResetThenRename(df);
    var d := Rename(ResetIndex(df).value, "index", INDEX_KEY);
    assert IndexedUpload(df, false, None) == ToSql(d, false, None);
    assert Distinct(d.columns);
    ToSqlPlain(d);
    var t := Table(d.columns, RowsOf(d));
    assert IndexedUpload(df, false, None) == Ok(t);
    forall i | 0 <= i < |t.rows| ensures t.rows[i].Keys == Elems(t.columns) {
      assert df.records[i] in df.records;
      KeyedKeys(df.records[i].row, df.columns, df.records[i].index);
    }
    assert WellFormed(t) by {
      forall r | r in t.rows ensures r.Keys == Elems(t.columns) {
        var i :| 0 <= i < |t.rows| && t.rows[i] == r;
      }
    }
  }

  lemma KeyedKeys(r: Row, cols: seq<ColName>, v: Value)
    requires r.Keys == Elems(cols)
    ensures r[INDEX_KEY := v].Keys == Elems([INDEX_KEY] + cols)
  {
  }

  /** Without the index, to_sql writes the rows as they are. */
  lemma ToSqlPlain(d: DataFrame)
    ensures ToSql(d, false, None).Err? <==> !Distinct(d.columns)
    ensures Distinct(d.columns) ==> ToSql(d, false, None) == Ok(Table(d.columns, RowsOf(d)))
  {
    assert [] + d.columns == d.columns;
    if Distinct(d.columns) {
      var t := ToSql(d, false, None).value;
      assert t.columns == d.columns;
      assert forall i | 0 <= i < |t.rows| :: t.rows[i] == RowsOf(d)[i];
      assert t.rows == RowsOf(d);
    }
  }

  /** Projecting the uploaded relation back onto the input's columns gives
      back the input's rows: the upload only adds the key. */
  lemma UploadRoundTrip(df: DataFrame)
    requires Valid(df) && df.indexName.None? && "index" !in df.columns && INDEX_KEY !in df.columns
    ensures
      var t := IndexedUpload(df, false, None).value;
      Select(t, df.columns).rows == RowsOf(df)
  {
    UploadShape(df);
    var t := IndexedUpload(df, false, None).value;
    forall i | 0 <= i < |t.rows| ensures Restrict(t.rows[i], Elems(df.columns)) == df.records[i].row {
      assert df.records[i] in df.records;
      RestrictDropsKey(df.records[i].row, df.records[i].index, Elems(df.columns));
    }
  }

  lemma RestrictDropsKey(r: Row, v: Value, cols: set<ColName>)
    requires r.Keys == cols && INDEX_KEY !in cols
    ensures Restrict(r[INDEX_KEY := v], cols) == r
  {
  }

  /** An input that already has a column called "index": reset_index names
      the index "level_0", and the rename turns the caller's own "index"
      column into `__index_level_0__`, so that column no longer appears in
      the upload and the key holds the caller's values, not the index. */
  lemma IndexColumnClash()
    ensures
      var df := DataFrame(["index"], [Record(Int(7), map["index" := Text("x")])]);
      var t := IndexedUpload(df, false, None);
      && t.Ok?
      && t.value.columns == ["level_0", INDEX_KEY]
      && "index" !in t.value.columns
      && t.value.rows[0][INDEX_KEY] == Text("x")
  {
    var df := DataFrame(["index"], [Record(Int(7), map["index" := Text("x")])]);
    var d := ResetIndex(df).value;
    assert d.columns == ["level_0", "index"];
    assert RenameLabels(d.columns, "index", INDEX_KEY) == ["level_0", INDEX_KEY];
  }

  /** A frame with a named index (as `set_index(n)` leaves it): reset_index
      puts the index under its name, the rename finds no "index" column, and
      the upload has no `__index_level_0__` column at all, so the spells'
      queries, which select that column, cannot find it. */
  lemma NamedIndexUpload(df: DataFrame, n: ColName)
    requires Valid(df) && df.indexName == Some(n)
    requires n != "index" && n != INDEX_KEY && n !in df.columns
    requires "index" !in df.columns && INDEX_KEY !in df.columns
    ensures IndexedUpload(df, false, None).Ok?
    ensures
      var t := IndexedUpload(df, false, None).value;
      && t.columns == [n] + df.columns
      && INDEX_KEY !in t.columns
      && |t.rows| == |df.records|
      && (forall i | 0 <= i < |t.rows| :: t.rows[i] == df.records[i].row[n := df.records[i].index])
  {
    var d := ResetIndex(df).value;
    forall i | 0 <= i < |d.records| ensures "index" !in d.records[i].row {
      assert df.records[i] in df.records;
    }
    RenameAbsent(d);
    assert Distinct(d.columns) by {
      forall i, j | 0 <= i < j < |d.columns| ensures d.columns[i] != d.columns[j] {
        if i == 0 {
          assert d.columns[j] in df.columns;
        } else {
          assert df.columns[i - 1] != df.columns[j - 1];
        }
      }
    }
    ToSqlPlain(d);
  }

  /** Renaming a label that appears nowhere changes nothing. */
  lemma RenameAbsent(d: DataFrame)
    requires "index" !in d.columns
    requires forall i | 0 <= i < |d.records| :: "index" !in d.records[i].row
    ensures Rename(d, "index", INDEX_KEY) == d
  {
    RenameLabelsNoMatch(d.columns, "index", INDEX_KEY);
    var e := Rename(d, "index", INDEX_KEY);
    assert e.records == d.records;
  }

  /** `if_exists` handling of `to_sql`: the value is checked first; an existing
      relation makes "fail" raise, "append" add rows, "replace" overwrite. */
  function WriteTable(tables: map<string, Table>, name: string, t: Table, ifExists: string): (r: Result<map<string, Table>>)
    ensures r.Ok? ==> r.value.Keys == tables.Keys + {name}
    ensures r.Ok? ==> forall n | n in tables && n != name :: r.value[n] == tables[n]
    ensures r.Ok? && (name !in tables || ifExists == "replace") ==> r.value[name] == t
    ensures r.Ok? && name in tables && ifExists == "append" ==>
      r.value[name] == Table(tables[name].columns, tables[name].rows + t.rows)
    ensures r.Err? <==> ifExists !in {"fail", "replace", "append"} || (name in tables && ifExists == "fail")
  {
    if ifExists !in {"fail", "replace", "append"} then Err(ValueError("'" + ifExists + "' is not valid for if_exists"))
    else if name in tables && ifExists == "fail" then Err(ValueError("Table '" + name + "' already exists."))
    else if name in tables && ifExists == "append" then Ok(tables[name := Table(tables[name].columns, tables[name].rows + t.rows)])
    else Ok(tables[name := t])
  }

  /** The effect of a SQL core's `load` on the tables it writes into; the
      label is dropped on the way to `to_sql`, as the cores are written. */
  function LoadSpec(tables: map<string, Table>, df: DataFrame, tableId: string,
                    index: bool, indexLabel: Option<string>, ifExists: string): Result<map<string, Table>> {
    var t :- IndexedUploadAsWritten(df, index, indexLabel);
    WriteTable(tables, tableId, t, ifExists)
  }

  /** With the write defaults (no index, replace), a load under a fresh id
      adds exactly one relation, the keyed copy of the input, and leaves the
      other relations alone. */
  lemma FreshLoad(tables: map<string, Table>, df: DataFrame, tableId: string)
    requires Valid(df) && df.indexName.None? && "index" !in df.columns && INDEX_KEY !in df.columns
    ensures LoadSpec(tables, df, tableId, false, None, "replace").Ok?
    ensures
      var ts := LoadSpec(tables, df, tableId, false, None, "replace").value;
      && ts.Keys == tables.Keys + {tableId}
      && (forall n | n in tables && n != tableId :: ts[n] == tables[n])
      && ts[tableId] == IndexedUpload(df, false, None).value
      && ts[tableId].columns == [INDEX_KEY] + df.columns
  {
    UploadShape(df);
  }

  /** The upload as the SQLite and PostgreSQL `load` write it: `index_label`
      is accepted but not handed on to `to_sql`. */
  function IndexedUploadAsWritten(df: DataFrame, index: bool, indexLabel: Option<string>): Result<Table> {
    IndexedUpload(df, index, None)
  }

  /** As written, asking for the index under the label "fid" writes it under
      "index" instead. */
  lemma IndexLabelIgnored()
    ensures
      var df := DataFrame(["WKT"], [Record(Int(0), map["WKT" := Text("POINT (0 0)")])]);
      var t := IndexedUploadAsWritten(df, true, Some("fid"));
      t.Ok? && t.value.columns == ["index", INDEX_KEY, "WKT"]
  {
    var df := DataFrame(["WKT"], [Record(Int(0), map["WKT" := Text("POINT (0 0)")])]);
    ResetThenRename(df);
    var d := Rename(ResetIndex(df).value, "index", INDEX_KEY);
    assert d.columns == [INDEX_KEY, "WKT"];
    assert ResetIndexLabel(d) == "index";
  }

  /** With the label handed on, the written index leads the relation under
      the requested label, followed by the key and the input's columns. */
  lemma IndexLabelHonoured(df: DataFrame, lbl: ColName)
    requires Valid(df) && df.indexName.None? && "index" !in df.columns && INDEX_KEY !in df.columns
    requires lbl != INDEX_KEY && lbl !in df.columns
    ensures IndexedUpload(df, true, Some(lbl)).Ok?
    ensures IndexedUpload(df, true, Some(lbl)).value.columns == [lbl, INDEX_KEY] + df.columns
  {
    ResetThenRename(df);
    var d := Rename(ResetIndex(df).value, "index", INDEX_KEY);
    var cols := [lbl] + d.columns;
    assert cols == [lbl, INDEX_KEY] + df.columns;
    forall i, j | 0 <= i < j < |cols| ensures cols[i] != cols[j] {
      if i == 0 {
        assert cols[j] in d.columns;
      } else {
        assert d.columns[i - 1] != d.columns[j - 1];
      }
    }
  }
}
