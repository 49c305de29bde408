/** `Spell.cast` (geomancer/spells/base.py): pick the database url, build
    the core it names, upload the target frame, reflect the source and the
    uploaded target, run the spell's query, keep the requested columns, and
    return the result as a new frame. */
module Spells {
  import opened Wrappers
  import opened Frames
  import opened DBCore
  import opened BackendSettings
  import opened SpellBase
  import Cores
  import SQLiteCore
  import DistanceToNearestSpell
  import NumberOfSpell
  import LengthOfSpell

  const NO_DBURL: string := "dburl was not supplied"

  /** `self.query(source, target, core, column)` of the spell's class. The
      column references fail alike in every spell, except that LengthOf first
      refuses a BigQuery core. */
  function Query(s: Spell, core: Cores.Core, source: Table, target: Table, column: ColName, ops: SpatialOps): (r: Result<Table>)
    ensures CheckColumns(s, source, target, column).Err? && !(s.kind == LengthOf && core.BigQuery?) ==>
      r == Err(CheckColumns(s, source, target, column).error)
    ensures s.kind == LengthOf && core.BigQuery? ==> r == Err(ValueError(LengthOfSpell.BUFFER_UNSUPPORTED))
  {
    match s.kind
    case DistanceToNearest => DistanceToNearestSpell.Query(s, source, target, column, ops)
    case NumberOf => NumberOfSpell.Query(s, source, target, column, ops)
    case LengthOf => LengthOfSpell.Query(s, core, source, target, column, ops)
  }

  /** On a target without the key column (the upload of a frame whose index
      has a name), DistanceToNearest and LengthOf fail, while NumberOf, which
      never reads the key, succeeds with no key column in its result. */
  lemma MissingKeyQuery(s: Spell, core: Cores.Core, source: Table, target: Table, column: ColName, ops: SpatialOps)
    requires INDEX_KEY !in target.columns && s.featureName != INDEX_KEY
    requires CheckColumns(s, source, target, column).Ok?
    ensures s.kind != NumberOf ==> Query(s, core, source, target, column, ops).Err?
    ensures s.kind == NumberOf ==>
      && Query(s, core, source, target, column, ops).Ok?
      && INDEX_KEY !in Query(s, core, source, target, column, ops).value.columns
  {
  }

  /** `dburl or self.dburl`: the call's url unless it is None or empty. */
  function DbUrl(s: Spell, dburl: Option<string>): Option<string> {
    if Truthy(dburl) then dburl else s.dburl
  }

  /** Table reflection: a table the database does not hold is NoSuchTableError. */
  function Reflect(tables: map<string, Table>, name: string): Result<Table> {
    if name in tables then Ok(tables[name]) else Err(NoSuchTable(name))
  }

  /** The first connection of a SQLite core's engine runs the spatialite
      listener; the other cores connect without one. */
  function EngineConnect(core: Cores.Core, installed: set<string>): Result<()> {
    if core.SQLite? then
      var _ :- SQLiteCore.Fire([SQLiteCore.SpatialiteListener], SQLiteCore.Connection(false, []), installed);
      Ok(())
    else Ok(())
  }

  /** The steps of `cast` up to the upload: the core the url names, and
      `load` (the first half of `get_tables`). */
  function Upload(s: Spell, url: string, df: DataFrame, tables: map<string, Table>, tableId: string,
                  done: seq<bool>): Result<(Cores.Core, string, map<string, Table>)>
  {
    var core :- GetCore(s.options, url);
    var loaded :- Cores.UploadSpec(core, tables, df, tableId, done);
    Ok((core, loaded.0, loaded.1))
  }

  /** What the storage holds after `cast`: the uploaded target, if it got
      that far (the frame is written before anything is read back). */
  function TablesAfter(s: Spell, df: DataFrame, tables: map<string, Table>, tableId: string, done: seq<bool>,
                       dburl: Option<string>): map<string, Table> {
    var url := DbUrl(s, dburl);
    if !Truthy(url) then tables
    else
      var u := Upload(s, url.value, df, tables, tableId, done);
      if u.Ok? then u.value.2 else tables
  }

  /** The datasets after `cast`: `load` runs once the url names a core. Only
      a url that selects BigQuery can add one. */
  function DatasetsAfter(s: Spell, datasets: set<string>, dburl: Option<string>): (r: set<string>)
    ensures datasets <= r
    ensures r != datasets ==>
      Truthy(DbUrl(s, dburl)) && GetCore(s.options, DbUrl(s, dburl).value).Ok? &&
      GetCore(s.options, DbUrl(s, dburl).value).value.BigQuery?
  {
    var url := DbUrl(s, dburl);
    if !Truthy(url) then datasets
    else
      match GetCore(s.options, url.value)
      case Ok(core) => Cores.DatasetsAfter(core, datasets)
      case Err(_) => datasets
  }

  /** The expiry times after `cast`; only a url that selects BigQuery can
      set one. */
  function ExpiresAfter(s: Spell, df: DataFrame, tables: map<string, Table>, expires: map<string, int>,
                        tableId: string, done: seq<bool>, now: int, dburl: Option<string>): (r: map<string, int>)
    ensures r != expires ==>
      Truthy(DbUrl(s, dburl)) && GetCore(s.options, DbUrl(s, dburl).value).Ok? &&
      GetCore(s.options, DbUrl(s, dburl).value).value.BigQuery?
  {
    var url := DbUrl(s, dburl);
    if !Truthy(url) then expires
    else
      match GetCore(s.options, url.value)
      case Ok(core) => Cores.ExpiresAfter(core, tables, expires, df, tableId, done, now)
      case Err(_) => expires
  }

  /** `cast` after the upload: connect, reflect the source and the uploaded
      target `name` from the tables `ts`, run the query, keep the requested
      columns. */
  function Finish(s: Spell, core: Cores.Core, ts: map<string, Table>, name: string, installed: set<string>,
                  ops: SpatialOps, column: ColName, keepIndex: bool, featuresOnly: bool): Result<DataFrame>
  {
    var _ :- EngineConnect(core, installed);
    var source :- Reflect(ts, s.sourceTable);
    var target :- Reflect(ts, name);
    var q :- Query(s, core, source, target, column, ops);
    Ok(FromResults(Select(q, OutputColumns(q.columns, s.featureName, keepIndex || featuresOnly, featuresOnly))))
  }

  /** `cast` once the url is known. */
  function CastAt(s: Spell, url: string, df: DataFrame, tables: map<string, Table>, tableId: string, done: seq<bool>,
                  installed: set<string>, ops: SpatialOps, column: ColName, keepIndex: bool, featuresOnly: bool): Result<DataFrame>
  {
    var up :- Upload(s, url, df, tables, tableId, done);
    Finish(s, up.0, up.2, up.1, installed, ops, column, keepIndex, featuresOnly)
  }

  /** The frame `cast` returns, or the error it raises. The url given to the
      call wins over the spell's own; an empty or missing one falls back to
      it; with neither, `cast` raises before touching the database. */
  function CastSpec(s: Spell, df: DataFrame, tables: map<string, Table>, tableId: string, done: seq<bool>,
                    installed: set<string>, ops: SpatialOps, dburl: Option<string> := None,
                    column: ColName := "WKT", keepIndex: bool := false, featuresOnly: bool := false): (r: Result<DataFrame>)
    ensures Truthy(dburl) ==>
      r == CastAt(s, dburl.value, df, tables, tableId, done, installed, ops, column, keepIndex, featuresOnly)
    ensures !Truthy(dburl) && Truthy(s.dburl) ==>
      r == CastAt(s, s.dburl.value, df, tables, tableId, done, installed, ops, column, keepIndex, featuresOnly)
    ensures !Truthy(dburl) && !Truthy(s.dburl) ==> r == Err(ValueError(NO_DBURL))
  {
    var url := DbUrl(s, dburl);
    if !Truthy(url) then Err(ValueError(NO_DBURL))
    else CastAt(s, url.value, df, tables, tableId, done, installed, ops, column, keepIndex, featuresOnly)
  }

  /** `cast(df, dburl, column, keep_index, features_only)` against a
      database, with the upload's `table_id` and job progress, the installed
      extensions and the geometry functions as parameters. */
  method Cast(s: Spell, w: Warehouse, df: DataFrame, tableId: string, done: seq<bool>, now: int,
              installed: set<string>, ops: SpatialOps, dburl: Option<string> := None,
              column: ColName := "WKT", keepIndex: bool := false, featuresOnly: bool := false)
    returns (r: Result<DataFrame>)
    requires IsTableId(tableId)
    modifies w
    ensures r == CastSpec(s, df, old(w.tables), tableId, done, installed, ops, dburl, column, keepIndex, featuresOnly)
    ensures w.tables == TablesAfter(s, df, old(w.tables), tableId, done, dburl)
    ensures w.datasets == DatasetsAfter(s, old(w.datasets), dburl)
    ensures w.expires == ExpiresAfter(s, df, old(w.tables), old(w.expires), tableId, done, now, dburl)
  {
    var url := DbUrl(s, dburl);
    if !Truthy(url) {
      return Err(ValueError(NO_DBURL));
    }
    r := CastWith(s, w, url.value, df, tableId, done, now, installed, ops, column, keepIndex, featuresOnly);
  }

  /** `cast` once the url is known: load the frame, then query. */
  method CastWith(s: Spell, w: Warehouse, url: string, df: DataFrame, tableId: string, done: seq<bool>, now: int,
                  installed: set<string>, ops: SpatialOps, column: ColName, keepIndex: bool, featuresOnly: bool)
    returns (r: Result<DataFrame>)
    requires IsTableId(tableId)
    modifies w
    ensures r == CastAt(s, url, df, old(w.tables), tableId, done, installed, ops, column, keepIndex, featuresOnly)
    ensures
      var u := Upload(s, url, df, old(w.tables), tableId, done);
      w.tables == if u.Ok? then u.value.2 else old(w.tables)
    ensures w.datasets == match GetCore(s.options, url)
      case Ok(core) => Cores.DatasetsAfter(core, old(w.datasets))
      case Err(_) => old(w.datasets)
    ensures w.expires == match GetCore(s.options, url)
      case Ok(core) => Cores.ExpiresAfter(core, old(w.tables), old(w.expires), df, tableId, done, now)
      case Err(_) => old(w.expires)
  {
    var keep := keepIndex;
    if featuresOnly {
      keep := true;
    }
    var up :- LoadTarget(s, w, url, df, tableId, done, now, installed);
    var (core, engine, name) := up;
    r := QueryTables(s, core, engine, w.tables, name, installed, ops, column, keep, featuresOnly);
    assert Finish(s, core, w.tables, name, installed, ops, column, keep, featuresOnly) ==
           Finish(s, core, w.tables, name, installed, ops, column, keepIndex, featuresOnly);
  }

  /** The writes of `cast` once the url is known: build the core, get its
      engine (a SQLite core's engine connects with spatialite; the others
      need none here), and load the frame. */
  method LoadTarget(s: Spell, w: Warehouse, url: string, df: DataFrame, tableId: string, done: seq<bool>, now: int,
                    installed: set<string>)
    returns (r: Result<(Cores.Core, SQLiteCore.Engine?, string)>)
    requires IsTableId(tableId)
    modifies w
    ensures
      var u := Upload(s, url, df, old(w.tables), tableId, done);
      && (u.Ok? ==> r.Ok? && r.value.0 == u.value.0 && r.value.2 == u.value.1 && w.tables == u.value.2)
      && (u.Err? ==> r == Err(u.error) && w.tables == old(w.tables))
    ensures r.Ok? ==>
      var engine := r.value.1;
      && (r.value.0.SQLite? <==> engine != null)
      && (engine != null ==> fresh(engine) && engine.listeners == [SQLiteCore.SpatialiteListener] && engine.installed == installed)
    ensures w.datasets == match GetCore(s.options, url)
      case Ok(core) => Cores.DatasetsAfter(core, old(w.datasets))
      case Err(_) => old(w.datasets)
    ensures w.expires == match GetCore(s.options, url)
      case Ok(core) => Cores.ExpiresAfter(core, old(w.tables), old(w.expires), df, tableId, done, now)
      case Err(_) => old(w.expires)
  {
    var core :- GetCore(s.options, url);
    var engine: SQLiteCore.Engine? := null;
    if core.SQLite? {
      engine := SQLiteCore.GetEngine(core.url, installed);
    }
    var name :- Cores.Load(core, w, df, tableId, done, now);
    r := Ok((core, engine, name));
  }

  /** The reads of `cast` over the loaded tables, through the core's engine
      (a SQLite core's engine, which connects with spatialite, or none). */
  method QueryTables(s: Spell, core: Cores.Core, engine: SQLiteCore.Engine?, ts: map<string, Table>, name: string,
                     installed: set<string>, ops: SpatialOps, column: ColName, keep: bool, featuresOnly: bool)
    returns (r: Result<DataFrame>)
    requires core.SQLite? <==> engine != null
    requires engine != null ==> engine.listeners == [SQLiteCore.SpatialiteListener] && engine.installed == installed
    requires featuresOnly ==> keep
    modifies engine
    ensures r == Finish(s, core, ts, name, installed, ops, column, keep, featuresOnly)
  {
    if engine != null {
      var conn :- engine.Connect();
    }
    var source :- Reflect(ts, s.sourceTable);
    var target :- Reflect(ts, name);
    var q :- Query(s, core, source, target, column, ops);
    r := Ok(FromResults(Select(q, OutputColumns(q.columns, s.featureName, keep, featuresOnly))));
  }

  // ---------------------------------------------------------------------
  // Properties of cast

  /** After the upload, `features_only` keeps at most the key and the
      feature, whatever `keep_index` is. */
  lemma FinishFeaturesOnly(s: Spell, core: Cores.Core, ts: map<string, Table>, name: string, installed: set<string>,
                           ops: SpatialOps, column: ColName, keepIndex: bool)
    ensures
      var r := Finish(s, core, ts, name, installed, ops, column, keepIndex, true);
      r.Ok? ==> forall c | c in r.value.columns :: c == INDEX_KEY || c == s.featureName
    ensures Finish(s, core, ts, name, installed, ops, column, keepIndex, true) ==
            Finish(s, core, ts, name, installed, ops, column, !keepIndex, true)
  {
    assert (keepIndex || true) == (!keepIndex || true);
  }

  /** `features_only` keeps at most the key and the feature, and makes
      `keep_index` irrelevant. */
  lemma FeaturesOnly(s: Spell, df: DataFrame, tables: map<string, Table>, tableId: string, done: seq<bool>,
                     installed: set<string>, ops: SpatialOps, dburl: Option<string>, column: ColName, keepIndex: bool)
    ensures
      var r := CastSpec(s, df, tables, tableId, done, installed, ops, dburl, column, keepIndex, true);
      r.Ok? ==> forall c | c in r.value.columns :: c == INDEX_KEY || c == s.featureName
    ensures CastSpec(s, df, tables, tableId, done, installed, ops, dburl, column, keepIndex, true) ==
            CastSpec(s, df, tables, tableId, done, installed, ops, dburl, column, !keepIndex, true)
  {
    var url := DbUrl(s, dburl);
    if Truthy(url) {
      var u := Upload(s, url.value, df, tables, tableId, done);
      if u.Ok? {
        FinishFeaturesOnly(s, u.value.0, u.value.2, u.value.1, installed, ops, column, keepIndex);
      }
    }
  }

  /** The helper columns the queries add and drop again: a feature under
      one of these names is dropped with it. */
  const QUERY_HELPERS: set<ColName> := {"row_number", "__len__", "__geom__", "__buffer__"}

  /** After the upload, a successful `features_only` query keeps the
      feature, on every core. */
  lemma FinishHasFeature(s: Spell, core: Cores.Core, ts: map<string, Table>, name: string, installed: set<string>,
                         ops: SpatialOps, column: ColName, keepIndex: bool)
    requires s.featureName !in QUERY_HELPERS
    ensures
      var r := Finish(s, core, ts, name, installed, ops, column, keepIndex, true);
      r.Ok? ==> s.featureName in r.value.columns
  {
    var r := Finish(s, core, ts, name, installed, ops, column, keepIndex, true);
    if r.Ok? {
      var q := Query(s, core, ts[s.sourceTable], ts[name], column, ops);
      assert q.Ok?;
      assert s.featureName in q.value.columns by {
        match s.kind
        case DistanceToNearest =>
        case NumberOf =>
        case LengthOf =>
      }
    }
  }

  /** A successful `features_only` cast keeps the feature. */
  lemma CastHasFeature(s: Spell, df: DataFrame, tables: map<string, Table>, tableId: string, done: seq<bool>,
                       installed: set<string>, ops: SpatialOps, dburl: Option<string>, column: ColName, keepIndex: bool)
    requires s.featureName !in QUERY_HELPERS
    ensures
      var r := CastSpec(s, df, tables, tableId, done, installed, ops, dburl, column, keepIndex, true);
      r.Ok? ==> s.featureName in r.value.columns
  {
    var url := DbUrl(s, dburl);
    if Truthy(url) {
      var u := Upload(s, url.value, df, tables, tableId, done);
      if u.Ok? {
        FinishHasFeature(s, u.value.0, u.value.2, u.value.1, installed, ops, column, keepIndex);
      }
    }
  }

  /** What a SQLite cast needs to reach the query: a `sqlite:///` url on the
      spell and no options, a frame whose columns leave room for the key, a
      spatialite library, a source table with the columns the query reads
      (not overwritten by the upload), and the geometry column in the frame. */
  predicate SqliteReady(s: Spell, df: DataFrame, tables: map<string, Table>, tableId: string,
                        installed: set<string>, path: string, column: ColName) {
    && s.dburl == Some("sqlite:///" + path) && '?' !in path && s.options == None
    && Valid(df) && df.indexName.None? && "index" !in df.columns && INDEX_KEY !in df.columns
    && ("mod_spatialite" in installed || "libspatialite" in installed)
    && s.sourceTable in tables && s.sourceTable != tableId
    && s.sourceId in tables[s.sourceTable].columns
    && SOURCE_GEOMETRY in tables[s.sourceTable].columns
    && s.sourceColumn in tables[s.sourceTable].columns
    && column in df.columns
  }

  /** The core a `sqlite:///` url builds, with its default configuration. */
  function SqliteCoreOf(path: string): Cores.Core {
    Cores.SQLite(Url("sqlite", "", path), SQLiteConfig())
  }

  /** A ready SQLite cast builds the SQLite core and uploads the frame under
      the generated id, with the key column in front. */
  lemma SqliteUpload(s: Spell, df: DataFrame, tables: map<string, Table>, tableId: string, done: seq<bool>,
                     installed: set<string>, path: string, column: ColName)
    requires SqliteReady(s, df, tables, tableId, installed, path, column)
    ensures LoadSpec(tables, df, tableId, false, None, "replace").Ok?
    ensures Upload(s, "sqlite:///" + path, df, tables, tableId, done) ==
      Ok((SqliteCoreOf(path), tableId, LoadSpec(tables, df, tableId, false, None, "replace").value))
    ensures EngineConnect(SqliteCoreOf(path), installed).Ok?
  {
    GetCoreSqlite(s.options, path);
    FreshLoad(tables, df, tableId);
    SQLiteCore.ConnectThroughCore(installed);
  }

  /** A ready SQLite cast runs the query on the source as it was and the
      uploaded target, and leaves the uploaded target in storage. */
  lemma SqliteReachesQuery(s: Spell, df: DataFrame, tables: map<string, Table>, tableId: string, done: seq<bool>,
                           installed: set<string>, ops: SpatialOps, path: string, column: ColName,
                           keepIndex: bool, featuresOnly: bool)
    requires SqliteReady(s, df, tables, tableId, installed, path, column)
    ensures LoadSpec(tables, df, tableId, false, None, "replace").Ok?
    ensures
      var ts := LoadSpec(tables, df, tableId, false, None, "replace").value;
      && ts[tableId].columns == [INDEX_KEY] + df.columns
      && TablesAfter(s, df, tables, tableId, done, None) == ts
      && CheckColumns(s, tables[s.sourceTable], ts[tableId], column).Ok?
      && var q := Query(s, SqliteCoreOf(path), tables[s.sourceTable], ts[tableId], column, ops);
         CastSpec(s, df, tables, tableId, done, installed, ops, None, column, keepIndex, featuresOnly) ==
           if q.Err? then Err(q.error)
           else Ok(FromResults(Select(q.value, OutputColumns(q.value.columns, s.featureName, keepIndex || featuresOnly, featuresOnly))))
  {
    SqliteCastAfterUpload(s, df, tables, tableId, done, installed, ops, path, column, keepIndex, featuresOnly);
    FreshLoad(tables, df, tableId);
    var ts := LoadSpec(tables, df, tableId, false, None, "replace").value;
    assert ts[s.sourceTable] == tables[s.sourceTable];
    SQLiteCore.ConnectThroughCore(installed);
    FinishReachesQuery(s, SqliteCoreOf(path), ts, tableId, installed, ops, column, keepIndex, featuresOnly);
  }

  /** A ready SQLite cast goes on from the uploaded tables. */
  lemma SqliteCastAfterUpload(s: Spell, df: DataFrame, tables: map<string, Table>, tableId: string, done: seq<bool>,
                              installed: set<string>, ops: SpatialOps, path: string, column: ColName,
                              keepIndex: bool, featuresOnly: bool)
    requires SqliteReady(s, df, tables, tableId, installed, path, column)
    ensures LoadSpec(tables, df, tableId, false, None, "replace").Ok?
    ensures
      var ts := LoadSpec(tables, df, tableId, false, None, "replace").value;
      && TablesAfter(s, df, tables, tableId, done, None) == ts
      && CastSpec(s, df, tables, tableId, done, installed, ops, None, column, keepIndex, featuresOnly) ==
           Finish(s, SqliteCoreOf(path), ts, tableId, installed, ops, column, keepIndex, featuresOnly)
  {
    SqliteUpload(s, df, tables, tableId, done, installed, path, column);
    CastAfterUpload(s, "sqlite:///" + path, df, tables, tableId, done, installed, ops, column, keepIndex, featuresOnly);
  }

  /** Once the spell's own url uploads the frame, `cast` without a url goes
      on from the uploaded tables, and leaves them in storage. */
  lemma CastAfterUpload(s: Spell, url: string, df: DataFrame, tables: map<string, Table>, tableId: string,
                        done: seq<bool>, installed: set<string>, ops: SpatialOps, column: ColName,
                        keepIndex: bool, featuresOnly: bool)
    requires s.dburl == Some(url) && url != ""
    requires Upload(s, url, df, tables, tableId, done).Ok?
    ensures
      var u := Upload(s, url, df, tables, tableId, done).value;
      && TablesAfter(s, df, tables, tableId, done, None) == u.2
      && CastSpec(s, df, tables, tableId, done, installed, ops, None, column, keepIndex, featuresOnly) ==
           Finish(s, u.0, u.2, u.1, installed, ops, column, keepIndex, featuresOnly)
  {
  }

  /** Once the engine connects and both tables are there, `cast` is the
      query with the requested columns. */
  lemma FinishReachesQuery(s: Spell, core: Cores.Core, ts: map<string, Table>, name: string, installed: set<string>,
                           ops: SpatialOps, column: ColName, keepIndex: bool, featuresOnly: bool)
    requires EngineConnect(core, installed).Ok? && s.sourceTable in ts && name in ts
    ensures
      var q := Query(s, core, ts[s.sourceTable], ts[name], column, ops);
      Finish(s, core, ts, name, installed, ops, column, keepIndex, featuresOnly) ==
        if q.Err? then Err(q.error)
        else Ok(FromResults(Select(q.value, OutputColumns(q.value.columns, s.featureName, keepIndex || featuresOnly, featuresOnly))))
  {
  }

  /** The columns DistanceToNearest leaves after `cast` drops the key. */
  lemma DistanceColumnsAfterCast(cols: seq<ColName>, f: ColName)
    requires INDEX_KEY !in cols && "row_number" !in cols && f != INDEX_KEY && f != "row_number"
    ensures OutputColumns(Without([INDEX_KEY] + cols + [f], {"row_number"}), f, false, false) == cols + [f]
  {
    WithoutNothing([INDEX_KEY] + cols + [f], {"row_number"});
    assert [INDEX_KEY] + cols + [f] == [INDEX_KEY] + (cols + [f]);
    OutputColumnsDropIndex([INDEX_KEY] + (cols + [f]), f);
    WithoutAppend([INDEX_KEY], cols + [f], {INDEX_KEY});
    WithoutNothing(cols + [f], {INDEX_KEY});
  }

  /** The columns NumberOf leaves after `cast` drops the key. */
  lemma NumberColumnsAfterCast(cols: seq<ColName>, f: ColName, sourceId: ColName)
    requires INDEX_KEY !in cols && f != INDEX_KEY && sourceId != INDEX_KEY && f != "distance" && f != sourceId
    ensures OutputColumns(Without([INDEX_KEY] + cols, {"distance", sourceId}) + [f], f, false, false) ==
      Without(cols, {"distance", sourceId}) + [f]
  {
    var drop := {"distance", sourceId};
    var w := Without(cols, drop);
    WithoutAppend([INDEX_KEY], cols, drop);
    WithoutNothing([INDEX_KEY], drop);
    OutputColumnsAppend([INDEX_KEY] + w, [f], f, false, false);
    OutputColumnsAppend([INDEX_KEY], w, f, false, false);
    OutputColumnsDropIndex(w, f);
    WithoutNothing(w, {INDEX_KEY});
    assert Without([INDEX_KEY] + cols, drop) == [INDEX_KEY] + w;
    assert OutputColumns(w, f, false, false) == w;
    assert OutputColumns([INDEX_KEY], f, false, false) == [];
    assert OutputColumns([f], f, false, false) == [f];
    assert OutputColumns([INDEX_KEY] + w, f, false, false) == w;
  }

  /** The columns LengthOf leaves after `cast` drops the key. */
  lemma LengthColumnsAfterCast(f: ColName)
    requires f != INDEX_KEY
    ensures OutputColumns([INDEX_KEY, f], f, false, false) == [f]
  {
    OutputColumnsDropIndex([INDEX_KEY, f], f);
    assert [INDEX_KEY, f] == [INDEX_KEY] + [f];
    WithoutAppend([INDEX_KEY], [f], {INDEX_KEY});
    WithoutNothing([f], {INDEX_KEY});
  }

  /** On SQLite, DistanceToNearest returns the frame's columns followed by
      the feature (the key is dropped unless asked for). */
  lemma SqliteDistanceColumns(s: Spell, df: DataFrame, tables: map<string, Table>, tableId: string, done: seq<bool>,
                              installed: set<string>, ops: SpatialOps, path: string, column: ColName)
    requires s.kind == DistanceToNearest
    requires SqliteReady(s, df, tables, tableId, installed, path, column)
    requires "row_number" !in df.columns
    requires s.featureName !in df.columns && s.featureName != INDEX_KEY && s.featureName != "row_number"
    ensures CastSpec(s, df, tables, tableId, done, installed, ops, None, column).Ok?
    ensures CastSpec(s, df, tables, tableId, done, installed, ops, None, column).value.columns == df.columns + [s.featureName]
  {
    SqliteReachesQuery(s, df, tables, tableId, done, installed, ops, path, column, false, false);
    DistanceColumnsAfterCast(df.columns, s.featureName);
  }

  /** On SQLite, NumberOf returns the frame's columns except "distance" and
      the source id column, followed by the feature. */
  lemma SqliteNumberColumns(s: Spell, df: DataFrame, tables: map<string, Table>, tableId: string, done: seq<bool>,
                            installed: set<string>, ops: SpatialOps, path: string, column: ColName)
    requires s.kind == NumberOf
    requires SqliteReady(s, df, tables, tableId, installed, path, column)
    requires s.featureName != INDEX_KEY && s.sourceId != INDEX_KEY
    requires s.featureName != "distance" && s.featureName != s.sourceId
    ensures CastSpec(s, df, tables, tableId, done, installed, ops, None, column).Ok?
    ensures CastSpec(s, df, tables, tableId, done, installed, ops, None, column).value.columns ==
      Without(df.columns, {"distance", s.sourceId}) + [s.featureName]
  {
    SqliteReachesQuery(s, df, tables, tableId, done, installed, ops, path, column, false, false);
    NumberColumnsAfterCast(df.columns, s.featureName, s.sourceId);
  }

  /** On SQLite, LengthOf returns the feature alone: its final select keeps
      only the columns of the summed table, and the key is then dropped. */
  lemma SqliteLengthColumns(s: Spell, df: DataFrame, tables: map<string, Table>, tableId: string, done: seq<bool>,
                            installed: set<string>, ops: SpatialOps, path: string, column: ColName)
    requires s.kind == LengthOf
    requires SqliteReady(s, df, tables, tableId, installed, path, column)
    requires s.featureName !in {INDEX_KEY, "__len__", "__geom__", "__buffer__"}
    ensures CastSpec(s, df, tables, tableId, done, installed, ops, None, column).Ok?
    ensures CastSpec(s, df, tables, tableId, done, installed, ops, None, column).value.columns == [s.featureName]
  {
    SqliteReachesQuery(s, df, tables, tableId, done, installed, ops, path, column, false, false);
    LengthOfSpell.SumRowShape(s, [], Missing);
    LengthColumnsAfterCast(s.featureName);
  }

  // ---------------------------------------------------------------------
  // `features_only` on SQLite

  /** The columns DistanceToNearest leaves under `features_only`. */
  lemma DistanceFeaturesAfterCast(cols: seq<ColName>, f: ColName)
    requires INDEX_KEY !in cols && f !in cols && f != INDEX_KEY && f != "row_number"
    ensures OutputColumns(Without([INDEX_KEY] + cols + [f], {"row_number"}), f, true, true) == [INDEX_KEY, f]
  {
    var w := Without(cols, {"row_number"});
    WithoutAppend([INDEX_KEY] + cols, [f], {"row_number"});
    WithoutAppend([INDEX_KEY], cols, {"row_number"});
    WithoutNothing([INDEX_KEY], {"row_number"});
    WithoutNothing([f], {"row_number"});
    OutputColumnsFeaturesShape(w, f, true);
  }

  /** The columns NumberOf leaves under `features_only`. */
  lemma NumberFeaturesAfterCast(cols: seq<ColName>, f: ColName, sourceId: ColName)
    requires INDEX_KEY !in cols && f !in cols && f != INDEX_KEY && sourceId != INDEX_KEY
    ensures OutputColumns(Without([INDEX_KEY] + cols, {"distance", sourceId}) + [f], f, true, true) == [INDEX_KEY, f]
  {
    var drop := {"distance", sourceId};
    WithoutAppend([INDEX_KEY], cols, drop);
    WithoutNothing([INDEX_KEY], drop);
    OutputColumnsFeaturesShape(Without(cols, drop), f, true);
  }

  /** The columns LengthOf leaves under `features_only`. */
  lemma LengthFeaturesAfterCast(f: ColName)
    requires f != INDEX_KEY
    ensures OutputColumns([INDEX_KEY, f], f, true, true) == [INDEX_KEY, f]
  {
    OutputColumnsFeaturesShape([], f, true);
    assert [INDEX_KEY] + [] + [f] == [INDEX_KEY, f];
  }

  /** On SQLite, DistanceToNearest with `features_only` returns exactly the
      key and the feature, whatever `keep_index` is. */
  lemma SqliteDistanceFeatures(s: Spell, df: DataFrame, tables: map<string, Table>, tableId: string, done: seq<bool>,
                               installed: set<string>, ops: SpatialOps, path: string, column: ColName, keepIndex: bool)
    requires s.kind == DistanceToNearest
    requires SqliteReady(s, df, tables, tableId, installed, path, column)
    requires s.featureName !in df.columns && s.featureName != INDEX_KEY && s.featureName != "row_number"
    ensures CastSpec(s, df, tables, tableId, done, installed, ops, None, column, keepIndex, true).Ok?
    ensures CastSpec(s, df, tables, tableId, done, installed, ops, None, column, keepIndex, true).value.columns ==
      [INDEX_KEY, s.featureName]
  {
    SqliteReachesQuery(s, df, tables, tableId, done, installed, ops, path, column, keepIndex, true);
    DistanceFeaturesAfterCast(df.columns, s.featureName);
  }

  /** On SQLite, NumberOf with `features_only` returns exactly the key and
      the feature. */
  lemma SqliteNumberFeatures(s: Spell, df: DataFrame, tables: map<string, Table>, tableId: string, done: seq<bool>,
                             installed: set<string>, ops: SpatialOps, path: string, column: ColName, keepIndex: bool)
    requires s.kind == NumberOf
    requires SqliteReady(s, df, tables, tableId, installed, path, column)
    requires s.featureName !in df.columns && s.featureName != INDEX_KEY && s.sourceId != INDEX_KEY
    ensures CastSpec(s, df, tables, tableId, done, installed, ops, None, column, keepIndex, true).Ok?
    ensures CastSpec(s, df, tables, tableId, done, installed, ops, None, column, keepIndex, true).value.columns ==
      [INDEX_KEY, s.featureName]
  {
    SqliteReachesQuery(s, df, tables, tableId, done, installed, ops, path, column, keepIndex, true);
    NumberFeaturesAfterCast(df.columns, s.featureName, s.sourceId);
  }

  /** On SQLite, LengthOf with `features_only` returns exactly the key and
      the feature. */
  lemma SqliteLengthFeatures(s: Spell, df: DataFrame, tables: map<string, Table>, tableId: string, done: seq<bool>,
                             installed: set<string>, ops: SpatialOps, path: string, column: ColName, keepIndex: bool)
    requires s.kind == LengthOf
    requires SqliteReady(s, df, tables, tableId, installed, path, column)
    requires s.featureName !in {INDEX_KEY, "__len__", "__geom__", "__buffer__"}
    ensures CastSpec(s, df, tables, tableId, done, installed, ops, None, column, keepIndex, true).Ok?
    ensures CastSpec(s, df, tables, tableId, done, installed, ops, None, column, keepIndex, true).value.columns ==
      [INDEX_KEY, s.featureName]
  {
    SqliteReachesQuery(s, df, tables, tableId, done, installed, ops, path, column, keepIndex, true);
    LengthOfSpell.SumRowShape(s, [], Missing);
    LengthFeaturesAfterCast(s.featureName);
  }
}
