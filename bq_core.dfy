/** The BigQuery core (geomancer/backend/cores/bq.py). The client's project
    is the url host; its storage is a `DBCore.Warehouse`. */
module BigQueryCore {
  import opened Wrappers
  import opened Frames
  import opened DBCore
  import opened BqUtils

  /** `ST_GeoFromText(x)`: a geography, read with the one-argument `ST_GeogFromText`. */
  function GeoFromText(x: SqlExpr): SqlExpr {
    Call("ST_GeogFromText", [x])
  }

  /** `_fetch_dataset`: as `BqUtils.FetchBqDataset`, recovering from a
      creation conflict by fetching the existing dataset. */
  method FetchDataset(w: Warehouse, project: string, datasetId: string) returns (d: Dataset)
    modifies w`datasets
    ensures d == Dataset(project, datasetId)
    ensures w.datasets == old(w.datasets) + {datasetId}
  {
    d := FetchBqDataset(w, project, datasetId);
  }

  /** `_set_table_expiry`: as `BqUtils.SetTableExpiry`. */
  method SetExpiry(w: Warehouse, path: string, hours: int, now: int) returns (r: Result<()>)
    modifies w`expires
    ensures path in old(w.tables) ==> r == Ok(()) && w.expires == old(w.expires)[path := now + hours * 3600]
    ensures path !in old(w.tables) ==> r == Err(NotFound(path)) && w.expires == old(w.expires)
  {
    r := SetTableExpiry(w, path, hours, now);
  }

  /** The tables after `load`: the new table exists once the load job is done
      within the polled window; the other tables are kept. */
  function LoadedTables(tables: map<string, Table>, df: DataFrame, project: string, datasetId: string,
                        tableId: string, done: seq<bool>, maxRetries: int): (r: Result<map<string, Table>>)
    ensures r.Ok? <==> BqTable(df).Ok?
    ensures r.Ok? ==> r.value.Keys <= tables.Keys + {TablePath(Dataset(project, datasetId), tableId)}
    ensures r.Ok? ==> forall n | n in tables && n != TablePath(Dataset(project, datasetId), tableId) ::
      n in r.value && r.value[n] == tables[n]
    ensures r.Ok? && JobDone(done, Polls(done, maxRetries)) ==>
      && TablePath(Dataset(project, datasetId), tableId) in r.value
      && r.value[TablePath(Dataset(project, datasetId), tableId)] == BqTable(df).value
    ensures r.Ok? && !JobDone(done, Polls(done, maxRetries)) ==> r.value == tables
  {
    var t :- BqTable(df);
    var path := TablePath(Dataset(project, datasetId), tableId);
    Ok(if JobDone(done, Polls(done, maxRetries)) then tables[path := t] else tables)
  }

  /** `load`: fetch (or create) the dataset, submit the load job, wait for it
      within `maxRetries` reloads, set the expiry when `expiry` is truthy,
      and return `project.dataset_id.table_id`. Running out of retries is not
      an error of its own; with a truthy expiry the table must exist by then. */
  method Load(w: Warehouse, project: string, df: DataFrame, datasetId: string, tableId: string,
              done: seq<bool>, now: int, expiry: Option<int> := Some(3), maxRetries: int := 10)
    returns (r: Result<string>, reloads: nat)
    modifies w
    ensures w.datasets == old(w.datasets) + {datasetId}
    ensures
      var path := TablePath(Dataset(project, datasetId), tableId);
      var tables := LoadedTables(old(w.tables), df, project, datasetId, tableId, done, maxRetries);
      && (tables.Err? ==> r == Err(tables.error) && w.tables == old(w.tables) && w.expires == old(w.expires))
      && (tables.Ok? ==> reloads == Polls(done, maxRetries) && w.tables == tables.value)
      && (tables.Ok? && !TruthyInt(expiry) ==> r == Ok(path) && w.expires == old(w.expires))
      && (tables.Ok? && TruthyInt(expiry) && path in w.tables ==>
            r == Ok(path) && w.expires == old(w.expires)[path := now + expiry.value * 3600])
      && (tables.Ok? && TruthyInt(expiry) && path !in w.tables ==>
            r == Err(NotFound(path)) && w.expires == old(w.expires))
  {
    reloads := 0;
    var dataset := FetchDataset(w, project, datasetId);
    var t :- BqTable(df);                        // load_table_from_dataframe
    var path := TablePath(dataset, tableId);
    reloads := PollJob(done, maxRetries);
    if JobDone(done, reloads) {
      w.tables := w.tables[path := t];
    }
    if TruthyInt(expiry) {
      var e := SetExpiry(w, path, expiry.value, now);
      if e.Err? {
        return Err(e.error), reloads;
      }
    }
    r := Ok(path);
  }

  /** Running out of retries is not an error of the load step: on a frame
      without the key column it succeeds whatever the job answered, and keeps
      every existing table. */
  lemma LoadStepSucceeds(tables: map<string, Table>, df: DataFrame, project: string, datasetId: string,
                         tableId: string, done: seq<bool>, maxRetries: int)
    requires INDEX_KEY !in df.columns
    ensures LoadedTables(tables, df, project, datasetId, tableId, done, maxRetries).Ok?
    ensures forall n | n in tables :: n in LoadedTables(tables, df, project, datasetId, tableId, done, maxRetries).value
  {
  }

  /** The new table is there exactly when the job reported done before the
      retries ran out: no reloads are left that could have seen it finish. */
  lemma CreatedIffDone(tables: map<string, Table>, df: DataFrame, project: string, datasetId: string,
                       tableId: string, done: seq<bool>, maxRetries: int)
    requires INDEX_KEY !in df.columns
    requires TablePath(Dataset(project, datasetId), tableId) !in tables
    ensures
      var path := TablePath(Dataset(project, datasetId), tableId);
      (path in LoadedTables(tables, df, project, datasetId, tableId, done, maxRetries).value) <==>
        (exists k :: 0 <= k <= (if maxRetries > 0 then maxRetries else 0) && JobDone(done, k))
  {
    var n := Polls(done, maxRetries);
    PollsBounds(done, maxRetries);
    var bound := if maxRetries > 0 then maxRetries else 0;
    if exists k :: 0 <= k <= bound && JobDone(done, k) {
      var k :| 0 <= k <= bound && JobDone(done, k);
      assert n < k || n >= k;
      if n < maxRetries {
        assert JobDone(done, n);
      } else {
        assert n == bound;
        assert !(k < n);
        assert k == n;
      }
    }
  }
}
