/** The BigQuery upload helpers (geomancer/common/bqutils.py), which the
    BigQuery core repeats: table paths, the bounded wait for the load job,
    table expiry and dataset creation with recovery from a conflict.

    The BigQuery project is a `DBCore.Warehouse`. The load job's answers to
    `done()` are an oracle sequence, the clock is a parameter (`now`, in
    seconds) and the generated table id is a parameter. */
module BqUtils {
  import opened Wrappers
  import opened Frames
  import opened DBCore
  import Strings

  /** A dataset reference: the project it lives in and its id. */
  datatype Dataset = Dataset(project: string, datasetId: string)

  /** `"{}.{}.{}".format(project, dataset_id, table_id)`. */
  function TablePath(d: Dataset, tableId: string): string {
    d.project + "." + d.datasetId + "." + tableId
  }

  /** A path splits back into its three parts when the project and dataset
      ids have no dot; the last part is the generated id. */
  lemma TablePathParts(d: Dataset, tableId: string)
    requires '.' !in d.project && '.' !in d.datasetId && IsTableId(tableId)
    ensures Strings.Split(TablePath(d, tableId), '.') == [d.project, d.datasetId, tableId]
    ensures |TablePath(d, tableId)| == |d.project| + |d.datasetId| + 34
  {
    assert '.' !in tableId by {
      forall i | 0 <= i < |tableId| ensures tableId[i] != '.' {
        assert tableId[i] in "0123456789abcdef";
      }
    }
    assert TablePath(d, tableId) == d.project + ['.'] + (d.datasetId + ['.'] + tableId);
    Strings.SplitAt(d.project, d.datasetId + ['.'] + tableId, '.');
    Strings.SplitAt(d.datasetId, tableId, '.');
  }

  /** The relation `load_table_from_dataframe` creates: the frame's columns
      followed by its index, materialised as `__index_level_0__` (the
      column the SQL cores imitate). A frame that already has such a column
      has two fields of one name and is refused. */
  function BqTable(df: DataFrame): (r: Result<Table>)
    ensures r.Err? <==> INDEX_KEY in df.columns
    ensures r.Ok? ==> r.value.columns == df.columns + [INDEX_KEY]
    ensures r.Ok? ==> |r.value.rows| == |df.records|
    ensures r.Ok? ==> forall i | 0 <= i < |df.records| ::
      r.value.rows[i] == df.records[i].row[INDEX_KEY := df.records[i].index]
  {
    if INDEX_KEY in df.columns then Err(ValueError("Duplicate column names found: " + INDEX_KEY))
    else
      Ok(Table(df.columns + [INDEX_KEY], seq(|df.records|, i requires 0 <= i < |df.records| =>
        df.records[i].row[INDEX_KEY := df.records[i].index])))
  }

  /** The answer of `job.done()` after `k` reloads (false once the oracle is exhausted). */
  predicate JobDone(done: seq<bool>, k: nat) {
    k < |done| && done[k]
  }

  /** The number of reloads the wait performs when `k` reloads are behind it
      and `retries` retries are left. */
  function PollsFrom(done: seq<bool>, k: nat, retries: int): nat
    decreases retries
  {
    if retries <= 0 || JobDone(done, k) then k else PollsFrom(done, k + 1, retries - 1)
  }

  /** The number of reloads of a wait that starts with `maxRetries` retries. */
  function Polls(done: seq<bool>, maxRetries: int): nat {
    PollsFrom(done, 0, maxRetries)
  }

  /** The wait stops at the first done answer, and never after
      `maxRetries` reloads; so it stops early only because the job is done. */
  lemma {:induction false} PollsFromBounds(done: seq<bool>, k: nat, retries: int)
    requires forall j | 0 <= j < k :: !JobDone(done, j)
    ensures k <= PollsFrom(done, k, retries) <= k + (if retries > 0 then retries else 0)
    ensures forall j | 0 <= j < PollsFrom(done, k, retries) :: !JobDone(done, j)
    ensures PollsFrom(done, k, retries) < k + retries ==> JobDone(done, PollsFrom(done, k, retries))
    decreases retries
  {
    if retries > 0 && !JobDone(done, k) {
      PollsFromBounds(done, k + 1, retries - 1);
    }
  }

  lemma PollsBounds(done: seq<bool>, maxRetries: int)
    ensures Polls(done, maxRetries) <= (if maxRetries > 0 then maxRetries else 0)
    ensures forall k | 0 <= k < Polls(done, maxRetries) :: !JobDone(done, k)
    ensures Polls(done, maxRetries) < maxRetries ==> JobDone(done, Polls(done, maxRetries))
  {
    PollsFromBounds(done, 0, maxRetries);
  }

  /** A job already done at the start is never reloaded. */
  lemma PollsDoneAtOnce(done: seq<bool>, maxRetries: int)
    requires JobDone(done, 0)
    ensures Polls(done, maxRetries) == 0
  {
  }

  /** A job that never reports done uses up every retry. */
  lemma {:induction false} PollsNeverDone(done: seq<bool>, k: nat, retries: int)
    requires forall j | 0 <= j < |done| :: !done[j]
    ensures PollsFrom(done, k, retries) == k + (if retries > 0 then retries else 0)
    decreases retries
  {
    if retries > 0 {
      PollsNeverDone(done, k + 1, retries - 1);
    }
  }

  /** The wait for the load job: while retries remain and the job is not done,
      spend one retry and reload. Returns the number of reloads. */
  method PollJob(done: seq<bool>, maxRetries: int) returns (reloads: nat)
    ensures reloads == Polls(done, maxRetries)
  {
    var retries := maxRetries;
    reloads := 0;
    while retries > 0 && !JobDone(done, reloads)
      invariant PollsFrom(done, reloads, retries) == Polls(done, maxRetries)
      decreases retries
    {
      retries := retries - 1;
      reloads := reloads + 1;   // job.reload()
    }
  }

  /** `set_table_expiry`: the table must exist (get_table), then its expiry is
      set to now plus `hours` hours. */
  method SetTableExpiry(w: Warehouse, path: string, hours: int, now: int) returns (r: Result<()>)
    modifies w`expires
    ensures path in old(w.tables) ==> r == Ok(()) && w.expires == old(w.expires)[path := now + hours * 3600]
    ensures path !in old(w.tables) ==> r == Err(NotFound(path)) && w.expires == old(w.expires)
  {
    if path !in w.tables {
      return Err(NotFound(path));
    }
    var expiration := now + hours * 3600;
    w.expires := w.expires[path := expiration];
    r := Ok(());
  }

  /** `fetch_bq_dataset`: create the dataset; when it already exists the
      creation conflicts and the existing dataset is fetched instead. */
  method FetchBqDataset(w: Warehouse, project: string, datasetId: string) returns (d: Dataset)
    modifies w`datasets
    ensures d == Dataset(project, datasetId)
    ensures w.datasets == old(w.datasets) + {datasetId}
  {
    d := Dataset(project, datasetId);
    var conflict := datasetId in w.datasets;
    if !conflict {
      w.datasets := w.datasets + {datasetId};   // create_dataset
    } else {
      d := Dataset(project, datasetId);          // get_dataset
    }
  }

  /** `upload_df_to_bq`: reset the index into a column, submit the load job,
      wait for it, set the expiry when `expiry` is truthy, return the path.
      The table exists once the job is done and the dataset exists; running
      out of retries raises nothing by itself, but the expiry's `get_table`
      then finds no table. */
  method UploadDfToBq(w: Warehouse, df: DataFrame, d: Dataset, tableId: string, done: seq<bool>, now: int,
                      expiry: Option<int> := Some(3), maxRetries: int := 10)
    returns (r: Result<string>, reloads: nat)
    modifies w`tables, w`expires
    ensures ResetIndex(df).Err? ==> r == Err(ResetIndex(df).error) && unchanged(w)
    ensures ResetIndex(df).Ok? ==>
      var path := TablePath(d, tableId);
      var t := BqTable(ResetIndex(df).value);
      var created := t.Ok? && JobDone(done, reloads) && d.datasetId in old(w.datasets);
      && (t.Err? ==> r == Err(t.error) && unchanged(w))
      && (t.Ok? ==> reloads == Polls(done, maxRetries))
      && (t.Ok? ==> w.tables == (if created then old(w.tables)[path := t.value] else old(w.tables)))
      && (t.Ok? && !TruthyInt(expiry) ==> r == Ok(path) && w.expires == old(w.expires))
      && (t.Ok? && TruthyInt(expiry) && path in w.tables ==>
            r == Ok(path) && w.expires == old(w.expires)[path := now + expiry.value * 3600])
      && (t.Ok? && TruthyInt(expiry) && path !in w.tables ==>
            r == Err(NotFound(path)) && w.expires == old(w.expires))
  {
    reloads := 0;
    var frame :- ResetIndex(df);
    var t :- BqTable(frame);
    var path := TablePath(d, tableId);
    reloads := PollJob(done, maxRetries);
    if JobDone(done, reloads) && d.datasetId in w.datasets {
      w.tables := w.tables[path := t];
    }
    if TruthyInt(expiry) {
      var e := SetTableExpiry(w, path, expiry.value, now);
      if e.Err? {
        return Err(e.error), reloads;
      }
    }
    r := Ok(path);
  }
}
