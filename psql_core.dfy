/** The PostgreSQL core (geomancer/backend/cores/psql.py): the same upload
    as the SQLite core, written through the core's engine, and geographies
    without an SRID argument. */
module PostgreSQLCore {
  import opened Wrappers
  import opened Frames
  import opened DBCore

  /** `ST_GeoFromText(x)`: `ST_GeogFromText(x)`, no SRID argument. */
  function GeoFromText(x: SqlExpr): SqlExpr {
    Call("ST_GeogFromText", [x])
  }

  /** `load`: reset the index, rename "index" to `__index_level_0__`, write
      the frame under the generated id and return the id. */
  method Load(w: Warehouse, df: DataFrame, tableId: string,
              indexLabel: Option<string> := None, index: bool := false, ifExists: string := "replace")
    returns (r: Result<string>)
    requires IsTableId(tableId)
    modifies w`tables
    ensures r.Ok? ==> IsTableId(r.value)
    ensures
      var spec := LoadSpec(old(w.tables), df, tableId, index, indexLabel, ifExists);
      && (spec.Ok? ==> r == Ok(tableId) && w.tables == spec.value)
      && (spec.Err? ==> r == Err(spec.error) && w.tables == old(w.tables))
  {
    var frame :- ResetIndex(df);
    frame := Rename(frame, "index", INDEX_KEY);
    var t :- ToSql(frame, index, None);  // index_label is not passed on
    var tables :- WriteTable(w.tables, tableId, t, ifExists);
    w.tables := tables;
    r := Ok(tableId);
  }
}
