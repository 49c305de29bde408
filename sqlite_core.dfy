/** The SQLite core with the Spatialite extension
    (geomancer/backend/cores/sqlite.py). The database file is a
    `DBCore.Warehouse`; the extensions installed on the machine are a set of
    library names. */
module SQLiteCore {
  import opened Wrappers
  import opened Frames
  import opened DBCore

  /** `ST_GeoFromText(x)`: a geometry in EPSG:4326, `ST_GeomFromText(x, 4326)`. */
  function GeoFromText(x: SqlExpr): SqlExpr {
    Call("ST_GeomFromText", [x, IntLit(4326)])
  }

  /** `load`: reset the index into a column, rename "index" to
      `__index_level_0__`, write the frame under the generated id, return the
      id. The write defaults are no index and `if_exists="replace"`. */
  method Load(w: Warehouse, df: DataFrame, tableId: string,
              indexLabel: Option<string> := None, index: bool := false, ifExists: string := "replace")
    returns (r: Result<string>)
    requires IsTableId(tableId)
    modifies w`tables
    ensures r.Ok? ==> IsTableId(r.value)
    ensures
      var spec := LoadSpec(old(w.tables), df, tableId, index, indexLabel, ifExists);
      && (spec.Ok? ==> r == Ok(tableId) && w.tables == spec.value)
      && (spec.Err? ==> r == Err(spec.error) && w.tables == old(w.tables))
  {
    var frame :- ResetIndex(df);
    frame := Rename(frame, "index", INDEX_KEY);
    var t :- ToSql(frame, index, None);  // index_label is not passed on
    var tables :- WriteTable(w.tables, tableId, t, ifExists);
    w.tables := tables;
    r := Ok(tableId);
  }

  // ---------------------------------------------------------------------
  // Connections and the Spatialite listener

  /** A sqlite3 connection: whether extension loading is enabled, and the
      extensions loaded into it, in order. */
  datatype Connection = Connection(extensionsEnabled: bool, extensions: seq<string>)

  /** `conn.load_extension(name)`: refused with OperationalError unless
      extension loading is enabled and the library is installed. */
  function LoadExtension(c: Connection, name: string, installed: set<string>): (r: Result<Connection>)
    ensures r.Ok? <==> c.extensionsEnabled && name in installed
    ensures r.Ok? ==> r.value == c.(extensions := c.extensions + [name])
    ensures r.Err? ==> r.error.OperationalError?
  {
    if !c.extensionsEnabled then Err(OperationalError("not authorized"))
    else if name !in installed then Err(OperationalError(name + ": cannot open shared object file"))
    else Ok(c.(extensions := c.extensions + [name]))
  }

  /** `_load_spatialite`: try mod_spatialite; on OperationalError, and only
      then, fall back to libspatialite. Spatialite is available exactly when
      one of the two libraries is installed (and loading is enabled);
      mod_spatialite wins when both are. */
  function LoadSpatialite(c: Connection, installed: set<string>): (r: Result<Connection>)
    ensures r.Ok? <==> c.extensionsEnabled && ("mod_spatialite" in installed || "libspatialite" in installed)
    ensures r.Ok? ==>
      r.value.extensions == c.extensions + [if "mod_spatialite" in installed then "mod_spatialite" else "libspatialite"]
  {
    match LoadExtension(c, "mod_spatialite", installed)
    case Ok(c1) => Ok(c1)
    case Err(OperationalError(_)) => LoadExtension(c, "libspatialite", installed)
    case Err(e) => Err(e)
  }

  predicate SpatialiteLoaded(c: Connection) {
    c.extensionsEnabled && ("mod_spatialite" in c.extensions || "libspatialite" in c.extensions)
  }

  /** `_connection_listener`: enable extension loading, then load spatialite. */
  function ConnectionListener(c: Connection, installed: set<string>): (r: Result<Connection>)
    ensures r.Ok? ==> SpatialiteLoaded(r.value)
    ensures r.Ok? <==> "mod_spatialite" in installed || "libspatialite" in installed
  {
    LoadSpatialite(c.(extensionsEnabled := true), installed)
  }

  /** The listeners an engine runs on "connect"; the core registers one kind. */
  datatype Listener = SpatialiteListener

  function Fire(ls: seq<Listener>, c: Connection, installed: set<string>): Result<Connection> {
    if ls == [] then Ok(c)
    else
      var c1 :- ConnectionListener(c, installed);
      Fire(ls[1..], c1, installed)
  }

  /** Once a spatialite listener has run, the connection keeps spatialite. */
  lemma {:induction false} FireLoads(ls: seq<Listener>, c: Connection, installed: set<string>)
    requires SpatialiteListener in ls || SpatialiteLoaded(c)
    ensures Fire(ls, c, installed).Ok? ==> SpatialiteLoaded(Fire(ls, c, installed).value)
  {
    if ls != [] {
      var c1 := ConnectionListener(c, installed);
      if c1.Ok? {
        FireLoads(ls[1..], c1.value, installed);
      }
    }
  }

  /** A sqlalchemy engine for the database file: its "connect" listeners and
      the connections it has opened. */
  class Engine {
    const url: Url
    const installed: set<string>
    var listeners: seq<Listener>
    var connections: seq<Connection>

    /** `create_engine(url)`. */
    constructor (url: Url, installed: set<string>)
      ensures this.url == url && this.installed == installed
      ensures listeners == [] && connections == []
    {
      this.url := url;
      this.installed := installed;
      listeners := [];
      connections := [];
    }

    /** Every connection opened so far has spatialite loaded. */
    predicate Ready()
      reads this
    {
      forall i | 0 <= i < |connections| :: SpatialiteLoaded(connections[i])
    }

    /** `event.listen(engine, "connect", listener)`. */
    method Listen(l: Listener)
      modifies this`listeners
      ensures listeners == old(listeners) + [l]
    {
      listeners := listeners + [l];
    }

    /** A new connection: fresh, then passed through the listeners in order.
      A failing listener fails the connection. */
    method Connect() returns (r: Result<Connection>)
      modifies this`connections
      ensures r == Fire(listeners, Connection(false, []), installed)
      ensures r.Ok? ==> connections == old(connections) + [r.value]
      ensures r.Err? ==> connections == old(connections)
      ensures old(Ready()) && SpatialiteListener in listeners ==> Ready()
    {
      r := Fire(listeners, Connection(false, []), installed);
      if r.Ok? {
        if SpatialiteListener in listeners {
          FireLoads(listeners, Connection(false, []), installed);
        }
        connections := connections + [r.value];
      }
    }
  }

  /** `get_engine`: an engine whose every connection gets spatialite. */
  method GetEngine(url: Url, installed: set<string>) returns (e: Engine)
    ensures fresh(e) && e.url == url && e.installed == installed
    ensures e.listeners == [SpatialiteListener] && e.connections == []
    ensures e.Ready()
  {
    e := new Engine(url, installed);
    e.Listen(SpatialiteListener);
  }

  /** Connecting through an engine of `get_engine` succeeds exactly when a
      spatialite library is installed, and the connection has it loaded. */
  lemma ConnectThroughCore(installed: set<string>)
    ensures Fire([SpatialiteListener], Connection(false, []), installed).Ok? <==>
      "mod_spatialite" in installed || "libspatialite" in installed
    ensures Fire([SpatialiteListener], Connection(false, []), installed).Ok? ==>
      SpatialiteLoaded(Fire([SpatialiteListener], Connection(false, []), installed).value)
  {
    var c := ConnectionListener(Connection(false, []), installed);
    if c.Ok? {
      assert Fire([SpatialiteListener], Connection(false, []), installed) == Fire([], c.value, installed);
    }
  }
}
