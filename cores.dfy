/** The backend adapters as one closed datatype: which core a database url
    selects, how each core reads WKT, and what its `load` leaves in storage.

    How a core builds its write arguments from its options (the base class's
    `_inspect_options`) is not part of this model; the rule used here is that
    a configuration's fields become `load`'s keyword arguments, and a core
    built without options uses its own default configuration. */
module Cores {
  import opened Wrappers
  import opened Frames
  import opened DBCore
  import opened BackendSettings
  import BqUtils
  import BigQueryCore
  import SQLiteCore
  import PostgreSQLCore

  datatype Core =
    | BigQuery(url: Url, options: Config)
    | SQLite(url: Url, options: Config)
    | PostgreSQL(url: Url, options: Config)

  /** `CORES = {"bigquery": BigQueryCore, "sqlite": SQLiteCore}` followed by
      the constructor: any other backend name is a KeyError. */
  function MakeCore(name: string, url: Url, options: Option<Config>): (r: Result<Core>)
    ensures r.Ok? <==> name in {"bigquery", "sqlite"}
    ensures r.Err? ==> r.error == KeyError(name)
    ensures r.Ok? ==> r.value.url == url
    ensures r.Ok? ==> r.value.options.Name() == name || options.Some?
    ensures r.Ok? && options.Some? ==> r.value.options == options.value
  {
    if name == "bigquery" then Ok(BigQuery(url, if options.Some? then options.value else BQConfig()))
    else if name == "sqlite" then Ok(SQLite(url, if options.Some? then options.value else SQLiteConfig()))
    else Err(KeyError(name))
  }

  /** The configuration names are the keys of the core registry, and a core
      built without options carries the configuration of its own name. */
  lemma RegistryMatchesConfigNames(url: Url)
    ensures MakeCore(BQConfig().Name(), url, None) == Ok(BigQuery(url, BQConfig()))
    ensures MakeCore(SQLiteConfig().Name(), url, None) == Ok(SQLite(url, SQLiteConfig()))
    ensures MakeCore("postgresql", url, None).Err?
  {
  }

  /** `core.ST_GeoFromText(x)`. */
  function GeoFromText(core: Core, x: SqlExpr): SqlExpr {
    match core
    case BigQuery(_, _) => BigQueryCore.GeoFromText(x)
    case SQLite(_, _) => SQLiteCore.GeoFromText(x)
    case PostgreSQL(_, _) => PostgreSQLCore.GeoFromText(x)
  }

  /** Every core applies one function to the column; only SQLite reads a
      planar geometry and names its SRID, 4326. */
  lemma GeoFromTextShapes(core: Core, x: SqlExpr)
    ensures GeoFromText(core, x).Call? && GeoFromText(core, x).args[0] == x
    ensures core.SQLite? <==> GeoFromText(core, x).fn == "ST_GeomFromText"
    ensures !core.SQLite? <==> GeoFromText(core, x).fn == "ST_GeogFromText"
    ensures core.SQLite? <==> |GeoFromText(core, x).args| == 2
    ensures !core.SQLite? <==> |GeoFromText(core, x).args| == 1
    ensures core.SQLite? ==> GeoFromText(core, x).args[1] == IntLit(4326)
  {
  }

  /** The write arguments of the SQL cores: a SQLite configuration's fields,
      or the `load` defaults when the configuration is a BigQuery one (its
      keywords are absorbed by `**kwargs`). */
  function WriteIndex(o: Config): bool {
    if o.SQLiteConfig? then o.index else false
  }

  function WriteIndexLabel(o: Config): Option<string> {
    if o.SQLiteConfig? then o.indexLabel else None
  }

  function WriteIfExists(o: Config): string {
    if o.SQLiteConfig? then o.ifExists else "replace"
  }

  /** The name `load` returns and the tables afterwards. */
  function UploadSpec(core: Core, tables: map<string, Table>, df: DataFrame, tableId: string,
                      done: seq<bool>): (r: Result<(string, map<string, Table>)>)
    ensures r.Ok? && !core.BigQuery? ==> r.value.0 == tableId
    ensures r.Ok? && core.BigQuery? ==> core.options.BQConfig?
    ensures r.Ok? && core.BigQuery? && core.options.BQConfig? ==>
      r.value.0 == BqUtils.TablePath(BqUtils.Dataset(core.url.host, core.options.datasetId), tableId)
  {
    match core
    case BigQuery(url, o) =>
      if o.SQLiteConfig? then Err(TypeError("load() missing 1 required positional argument: 'dataset_id'"))
      else
        var ts :- BigQueryCore.LoadedTables(tables, df, url.host, o.datasetId, tableId, done, o.maxRetries);
        var path := BqUtils.TablePath(BqUtils.Dataset(url.host, o.datasetId), tableId);
        if TruthyInt(o.expiry) && path !in ts then Err(NotFound(path)) else Ok((path, ts))
    case SQLite(_, o) =>
      var ts :- LoadSpec(tables, df, tableId, WriteIndex(o), WriteIndexLabel(o), WriteIfExists(o));
      Ok((tableId, ts))
    case PostgreSQL(_, o) =>
      var ts :- LoadSpec(tables, df, tableId, WriteIndex(o), WriteIndexLabel(o), WriteIfExists(o));
      Ok((tableId, ts))
  }

  /** The datasets after `load`: only a BigQuery core with its own
      configuration fetches (and so creates) one, before anything can fail. */
  function DatasetsAfter(core: Core, datasets: set<string>): (r: set<string>)
    ensures datasets <= r
    ensures r == datasets <==> !(core.BigQuery? && core.options.BQConfig?) || core.options.datasetId in datasets
    ensures core.BigQuery? && core.options.BQConfig? ==> r == datasets + {core.options.datasetId}
  {
    if core.BigQuery? && core.options.BQConfig? then datasets + {core.options.datasetId} else datasets
  }

  /** The expiry times after `load`: only a BigQuery load whose table
      exists afterwards and whose `expiry` is truthy sets one, `expiry` hours
      after `now`, on the table's path. */
  function ExpiresAfter(core: Core, tables: map<string, Table>, expires: map<string, int>,
                        df: DataFrame, tableId: string, done: seq<bool>, now: int): (r: map<string, int>)
    ensures UploadSpec(core, tables, df, tableId, done).Err? ||
            r.Keys <= expires.Keys + {UploadSpec(core, tables, df, tableId, done).value.0}
    ensures !core.BigQuery? || UploadSpec(core, tables, df, tableId, done).Err? ==> r == expires
    ensures core.BigQuery? && UploadSpec(core, tables, df, tableId, done).Ok? && TruthyInt(core.options.expiry) ==>
      var path := UploadSpec(core, tables, df, tableId, done).value.0;
      r == expires[path := now + core.options.expiry.value * 3600]
    ensures core.BigQuery? && core.options.BQConfig? && !TruthyInt(core.options.expiry) ==> r == expires
  {
    match core
    case BigQuery(url, o) =>
      if o.SQLiteConfig? || !TruthyInt(o.expiry) then expires
      else
        var ts := BigQueryCore.LoadedTables(tables, df, url.host, o.datasetId, tableId, done, o.maxRetries);
        var path := BqUtils.TablePath(BqUtils.Dataset(url.host, o.datasetId), tableId);
        if ts.Ok? && path in ts.value then expires[path := now + o.expiry.value * 3600] else expires
    case _ => expires
  }

  /** `core.load(df, **options)`: the core's own `load` with the options'
      fields as arguments. */
  method Load(core: Core, w: Warehouse, df: DataFrame, tableId: string, done: seq<bool>, now: int)
    returns (r: Result<string>)
    requires IsTableId(tableId)
    modifies w
    ensures r.Ok? && !core.BigQuery? ==> IsTableId(r.value)
    ensures
      var spec := UploadSpec(core, old(w.tables), df, tableId, done);
      && (spec.Ok? ==> r == Ok(spec.value.0) && w.tables == spec.value.1)
      && (spec.Err? ==> r == Err(spec.error) && w.tables == old(w.tables))
    ensures w.datasets == DatasetsAfter(core, old(w.datasets))
    ensures w.expires == ExpiresAfter(core, old(w.tables), old(w.expires), df, tableId, done, now)
  {
    match core
    case BigQuery(url, o) =>
      if o.SQLiteConfig? {
        r := Err(TypeError("load() missing 1 required positional argument: 'dataset_id'"));
      } else {
        var reloads;
        r, reloads := BigQueryCore.Load(w, url.host, df, o.datasetId, tableId, done, now, o.expiry, o.maxRetries);
      }
    case SQLite(_, o) =>
      r := SQLiteCore.Load(w, df, tableId, WriteIndexLabel(o), WriteIndex(o), WriteIfExists(o));
    case PostgreSQL(_, o) =>
      r := PostgreSQLCore.Load(w, df, tableId, WriteIndexLabel(o), WriteIndex(o), WriteIfExists(o));
  }
}
