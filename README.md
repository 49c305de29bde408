# Geomancer, modelled in Dafny

Geomancer computes geospatial features for a table of points. Examples are
the distance to the nearest embassy, or the number of supermarkets within a
radius. Each feature is a **spell**: `DistanceToNearest`, `NumberOf` or
`LengthOf`. A spell's `cast` does four things:

- uploads the point table to a SQL backend (a **core**: SQLite with Spatialite,
  BigQuery, or PostgreSQL);
- runs one spatial-join query against an OpenStreetMap source table;
- returns the target frame's columns plus the feature (`NumberOf` drops its
  helper columns, `LengthOf` keeps only the feature);
- filters those columns: the key `__index_level_0__` stays only with
  `keep_index`, and `features_only` leaves just the key and the feature.

A **spell book** casts a list of spells and left-joins their features onto
the frame. It exports to a JSON record and reads back from one.

The model covers the following:

- **Spell base class** (`spell_base.dfy`, `spells.dfy`):
  - the `"column:filter"` parser;
  - the output column filter;
  - the backend lookup from a database url;
  - the guard rules of `cast`, with `cast` itself as a method over a
    warehouse.
- **What each query means** (`distance_to_nearest.dfy`, `number_of.dfy`,
  `length_of.dfy`): pure functions over sequences of rows. `ST_Distance`,
  `ST_Intersects` and the clipped `ST_Length` are uninterpreted functions
  into `int`.
- **Spell books** (`spellbook.dfy`):
  - `cast` as an imperative loop, proved equal to a fold of left joins;
  - the export record;
  - `_instantiate_spells` as a loop that pops fields off each record;
  - the export/import round trip, which holds exactly when no column or
    filter contains `:`.
- **Backend adapters** (`dbcore.dfy`, `sqlite_core.dfy`, `psql_core.dfy`,
  `bq_core.dfy`, `bqutils.dfy`, `cores.dfy`):
  - the geometry-cast function of each core;
  - the upload transformation that adds a leading `__index_level_0__`;
  - the bounded BigQuery poll loop, driven by an oracle sequence of `done()`
    answers;
  - the `project.dataset.table` path;
  - the expiry decision;
  - dataset creation with conflict recovery;
  - the Spatialite fallback and the SQLite "connect" listener.
- **Configuration defaults** (`settings.dfy`, `common_settings.dfy`):
  immutable records.

Data frames (`frames.dfy`) are an ordered column list plus records, each
with an index label and a row, and the index's name. A row is a map from
column name to value. `join` is a left join on the index that keeps the
left index's name. `reset_index` puts the index under its name, or under
"index" ("level_0" when that column exists) when it has none. `rename`
keeps the index name, and `set_index(col)` names the index `col`.

The SQL loads rename only a column called "index" to `__index_level_0__`.
A frame whose index has a name (for example after `set_index("id")`)
therefore uploads its index under that name, and the upload has no key
column (`DBCore.NamedIndexUpload`). DistanceToNearest and LengthOf then
fail on the missing key. NumberOf never reads the key, so its cast
succeeds, and its result has no key column (`Spells.MissingKeyQuery`). A
spell book casting it with `features_only` then fails at
`set_index("__index_level_0__")` with a KeyError (`SpellBooks.Step`). The
upload lemmas that promise the key column are stated for frames with an
unnamed index.

## Model

| member | source | states |
|---|---|---|
| BackendSettings.BQDefaults | geomancer/backend/settings.py:48-54 | `BQConfig` is named "bigquery". Its defaults are dataset "geomancer", an expiry of 3 hours and 10 retries |
| BackendSettings.SQLiteDefaults | geomancer/backend/settings.py:75-81 | `SQLiteConfig` is named "sqlite". Its defaults are no index, no index label, and `if_exists="replace"` |
| BackendSettings.OverrideExpiry | geomancer/backend/settings.py:11-15 | Overriding EXPIRY on an instance changes that field to the new value. Dataset, retries and name keep their defaults |
| BackendSettings.NamesDistinguishKinds | geomancer/backend/settings.py:23-28 | Every configuration has a name. The name is "bigquery" exactly for a BigQuery configuration and "sqlite" exactly for a SQLite one |
| CommonSettings.Defaults | geomancer/common/settings.py:35-37 | The defaults are DATASET_ID "geomancer", EXPIRY 3 and MAX_RETRIES 10 |
| CommonSettings.OverrideExpiry | geomancer/common/settings.py:9-13 | Setting EXPIRY to 12 makes it read 12. The other defaults are unchanged |
| BqUtils.TablePathParts | geomancer/common/bqutils.py:49-51 | The path `project.dataset_id.table_id` splits on '.' back into its three parts when the parts have no dot. With a 32-hex table id its length is the parts' lengths + 34 |
| BqUtils.BqTable | geomancer/common/bqutils.py:45-46 | The uploaded relation is the frame's columns plus the key column, with one row per record carrying the index as key. It fails exactly when the frame already has the key column |
| BqUtils.PollsFromBounds | geomancer/common/bqutils.py:54-62 | From `k` reloads on, the wait performs between `k` and `k + retries` reloads, none of which saw the job done. Stopping before the retries ran out means the job reported done |
| BqUtils.PollsBounds | geomancer/common/bqutils.py:54-62 | The number of reloads is at most `max_retries` (0 when it is not positive). No answer before the last one was done. Ending early means done |
| BqUtils.PollsDoneAtOnce | geomancer/common/bqutils.py:54-62 | A job that is done at the start is never reloaded |
| BqUtils.PollsNeverDone | geomancer/common/bqutils.py:54-62 | A job that never reports done uses up every retry |
| BqUtils.PollJob | geomancer/common/bqutils.py:54-62 | The while loop that decrements the retries and reloads the job performs exactly `Polls(done, maxRetries)` reloads |
| BqUtils.SetTableExpiry | geomancer/common/bqutils.py:73-91 | An existing table gets the expiry now + hours × 3600 s and nothing else changes. A missing table is NotFound and no state changes |
| BqUtils.FetchBqDataset | geomancer/common/bqutils.py:94-116 | Creating a dataset that already exists (Conflict) falls back to fetching it. The dataset exists afterwards either way, and its reference is returned |
| BqUtils.UploadDfToBq | geomancer/common/bqutils.py:17-70 | Resets the index and uploads. The table exists exactly when the job reported done within the retries. Running out of retries raises nothing. The path is returned, with the expiry set only when `expiry` is truthy. A failed `get_table` is NotFound. `reset_index` errors pass through |
| BigQueryCore.FetchDataset | geomancer/backend/cores/bq.py:111-131 | The dataset exists afterwards, whether created or already there (Conflict recovery) |
| BigQueryCore.SetExpiry | geomancer/backend/cores/bq.py:93-109 | The expiry becomes now + hours × 3600 s on an existing table. A missing table is NotFound |
| BigQueryCore.Load | geomancer/backend/cores/bq.py:38-91 | The dataset is fetched or created. The number of reloads is `Polls(done, max_retries)`. The tables are `LoadedTables`. The path `project.dataset_id.table_id` is returned when `expiry` is falsy, and when it is truthy and the table exists, in which case its expiry is set. Otherwise the result is NotFound |
| BigQueryCore.LoadStepSucceeds | geomancer/backend/cores/bq.py:75-91 | Running out of retries is not an error. The load step succeeds and keeps every existing table |
| BigQueryCore.LoadedTables | geomancer/backend/cores/bq.py:63-83 | The load fails exactly when the uploaded relation cannot be built. The other tables are kept, and the new path holds the uploaded relation exactly when a poll saw the job done. Otherwise the tables are unchanged |
| BigQueryCore.CreatedIffDone | geomancer/backend/cores/bq.py:75-83 | The new table exists exactly when some answer of `done()` within the first `max_retries` reloads was true |
| DBCore.UpTo | geomancer/spells/base.py:94 | The prefix before the first stop character: a prefix without stops, followed by a stop or the end |
| DBCore.ParseUrl | geomancer/spells/base.py:94 | A parsed url has a non-empty driver name without ':' |
| DBCore.ParseUrlName | geomancer/spells/base.py:94 | `name://rest` parses whenever the name is made of word characters. The driver name is `name`, the host runs up to the first '/' or '?', and the database follows that '/' up to a '?' |
| DBCore.ParseUrlNoScheme | geomancer/spells/base.py:94 | A string without ':' is refused with ArgumentError |
| DBCore.ParseFileUrl | geomancer/spells/base.py:94 | `name:///path` has no host, and the path is the database |
| DBCore.ParseHostUrl | geomancer/spells/base.py:94 | `name://host` has the host and no database |
| DBCore.ParseSqliteUrl | tests/spellbook/test_spellbook.py:13-20 | `sqlite:///path` parses to backend "sqlite" with the path as database |
| DBCore.ParseBigQueryUrl | geomancer/backend/cores/bq.py:38-72 | `bigquery://project` parses to backend "bigquery" with the project as host |
| DBCore.BackendNamePlain | geomancer/spells/base.py:95 | A driver name without '+' is its own backend name |
| DBCore.BackendNameDialect | geomancer/spells/base.py:95 | `dialect+driver` has backend name `dialect` |
| DBCore.ToSql | geomancer/backend/cores/sqlite.py:39 | `to_sql` writes the frame's columns, led by the index column when `index` is set, with one row per record. It fails exactly when the labels clash |
| DBCore.IndexColumn | geomancer/backend/cores/sqlite.py:39 | The label `to_sql(index=True)` writes the index under: the given label, else the index's name, else "index", or "level_0" when a column "index" exists |
| DBCore.IndexedUpload | geomancer/backend/cores/sqlite.py:35-39 | A failing `reset_index` fails the upload with its error. The upload has one row per record, and without the index its columns are the reset label and the frame's columns, with "index" renamed to `__index_level_0__` |
| DBCore.ResetThenRename | geomancer/backend/cores/sqlite.py:35-36 | For a frame with an unnamed index, `reset_index` then the rename gives the key column first, holding each record's index, with the other columns and values in order |
| DBCore.UploadShape | geomancer/backend/cores/sqlite.py:35-39 | For a frame with an unnamed index, the upload is the input with one new leading `__index_level_0__` column holding the index, and one row per record. It fails exactly when the input already has that column |
| DBCore.ToSqlPlain | geomancer/backend/cores/psql.py:38 | Without the index, `to_sql` writes the frame's columns and rows as they are, failing exactly on duplicate labels |
| DBCore.UploadRoundTrip | tests/backend/cores/base_test_dbcore.py:59-71 | For a frame with an unnamed index, projecting the uploaded relation back onto the input's columns gives the input's rows: all original columns are present, with their values |
| DBCore.NamedIndexUpload | geomancer/backend/cores/sqlite.py:35-39 | A frame with an index named `n` uploads the index under `n` as the leading column, followed by its own columns. The upload has no `__index_level_0__` column |
| DBCore.IndexColumnClash | geomancer/backend/cores/sqlite.py:35-36 | An input with its own "index" column: `reset_index` names the index "level_0", and the key then holds the caller's "index" values, not the index |
| DBCore.WriteTable | geomancer/backend/cores/sqlite.py:39 | `if_exists` handling. An unknown value fails, and "fail" fails on an existing table. "replace" overwrites it, "append" adds the new rows after the old ones under the old columns. Other tables are untouched, and a new name is simply added |
| DBCore.FreshLoad | geomancer/backend/cores/sqlite.py:24-41 | For a well-formed frame with an unnamed index and neither an "index" nor a `__index_level_0__` column, the load with the defaults (no index, "replace") succeeds. It writes exactly the keyed copy of the input under the new id, with the key first, and leaves the other tables |
| DBCore.IndexLabelIgnored | geomancer/backend/cores/sqlite.py:24-39 | As written, asking for the index under the label "fid" writes it under "index": `index_label` is never passed to `to_sql` |
| DBCore.IndexLabelHonoured | geomancer/backend/settings.py:62-67 | With the label passed on, the index leads the relation under that label, before the key and the input columns |
| SQLiteCore.Load | geomancer/backend/cores/sqlite.py:24-41 | `load` resets and renames the index, writes it with `to_sql` without passing `index_label`, and returns the generated table id, which is 32 lower-case hex characters. The tables become `LoadSpec`; on error nothing changes. Only the tables are modified |
| SQLiteCore.LoadExtension | geomancer/backend/cores/sqlite.py:43-51 | Loading an extension succeeds exactly when loading is enabled and the library is installed, and appends it. Failures are OperationalError |
| SQLiteCore.LoadSpatialite | geomancer/backend/cores/sqlite.py:43-51 | Spatialite loads exactly when one of the two libraries is installed. `mod_spatialite` is tried first, and `libspatialite` is loaded only when `mod_spatialite` fails with OperationalError |
| SQLiteCore.ConnectionListener | geomancer/backend/cores/sqlite.py:53-56 | The listener enables extension loading and then loads spatialite. It succeeds exactly when a library is installed |
| SQLiteCore.FireLoads | geomancer/backend/cores/sqlite.py:58-62 | Once a spatialite listener has run on a connection, it keeps spatialite through the remaining listeners |
| SQLiteCore.Engine.constructor | geomancer/backend/cores/sqlite.py:60 | A new engine has no listeners and no connections |
| SQLiteCore.Engine.Listen | geomancer/backend/cores/sqlite.py:61 | Registering a "connect" listener appends it |
| SQLiteCore.Engine.Connect | geomancer/backend/cores/sqlite.py:58-62 | A new connection runs every listener in order. When a spatialite listener is registered, every connection of the engine has spatialite |
| SQLiteCore.GetEngine | geomancer/backend/cores/sqlite.py:58-62 | `get_engine` returns a fresh engine with exactly the spatialite listener registered |
| SQLiteCore.ConnectThroughCore | geomancer/backend/cores/sqlite.py:53-62 | Connecting through the core's engine succeeds exactly when a spatialite library is installed, and the connection has it loaded |
| PostgreSQLCore.Load | geomancer/backend/cores/psql.py:24-40 | As for SQLite: the reset-and-renamed frame is written without `index_label` and the table id, 32 lower-case hex characters, is returned. On error nothing changes. Only the tables are modified |
| Cores.MakeCore | geomancer/spells/base.py:31 | The registry resolves exactly "bigquery" and "sqlite"; any other name is KeyError(name). The core keeps the url and the options given, or defaults to the matching configuration |
| Cores.RegistryMatchesConfigNames | geomancer/backend/settings.py:48-50 | The configuration names are the registry keys, and each builds its own core with its default configuration. "postgresql" is not registered |
| Cores.GeoFromTextShapes | geomancer/backend/cores/sqlite.py:21-22 | Every core wraps the column in one call. SQLite uses `ST_GeomFromText(x, 4326)`; BigQuery (bq.py:35-36) and PostgreSQL (psql.py:21-22) use the one-argument `ST_GeogFromText(x)` |
| Cores.UploadSpec | geomancer/backend/cores/bq.py:38-91 | A SQL core's `load` returns its table id and writes the upload as written, with the index label dropped. BigQuery returns `project.dataset_id.table_id`, and only with a BigQuery configuration |
| Cores.Load | geomancer/backend/cores/sqlite.py:24-41 | `core.load(df, **options)` runs the core's own load and leaves the tables `UploadSpec` states. A SQL core returns the 32-hex table id. The datasets grow by the configured dataset only for BigQuery. An expiry is set only by a BigQuery load with a truthy `expiry` whose table exists, `expiry` hours after `now` |
| Cores.DatasetsAfter | geomancer/backend/cores/bq.py:59-60 | Only a BigQuery core with a BigQuery configuration adds a dataset: its `dataset_id`. The datasets stay the same exactly otherwise, or when it already exists |
| Cores.ExpiresAfter | geomancer/backend/cores/bq.py:87-109 | Other cores and failed uploads leave the expiry times alone. A BigQuery load with a truthy `expiry` sets the path's expiry `expiry` hours after `now` and touches no other table |
| SpellBase.ExtractColumns | geomancer/spells/base.py:79 | Exactly one colon splits the input around it. Any other number of colons gives ("fclass", input) |
| SpellBase.ExtractColumnsPair | geomancer/spells/base.py:79 | `"c:f"` parses back to (c, f) exactly when neither part contains ':' |
| SpellBase.ExtractColumnsNoColon | geomancer/spells/base.py:79 | An input without a colon is the filter of the column "fclass" |
| SpellBase.ExtractColumnsExamples | tests/spells/base_test_spell.py:59-64 | "fclass:embassy" and "embassy" both give ("fclass", "embassy") |
| SpellBase.ExtractColumnsTwoColons | geomancer/spells/base.py:79 | "a:b:c" is not split; it is the filter of column "fclass" |
| SpellBase.NewSpellStores | geomancer/spells/base.py:38-64 | The constructor stores its arguments. `source_id` defaults to "osm_id" and `within` to 10000, and column and filter come from `on` |
| SpellBase.OutputColumns | geomancer/spells/base.py:125-130 | A column is in the output exactly when it is a query column that `_include_column` accepts |
| SpellBase.OutputColumnsSubsequence | geomancer/spells/base.py:185-191 | The filtered columns are a subsequence of the query's columns: order is kept |
| SpellBase.OutputColumnsKeepIndex | geomancer/spells/base.py:128-130 | With `keep_index` and not `features_only`, every column survives |
| SpellBase.OutputColumnsDropIndex | geomancer/spells/base.py:128-130 | Without either flag, exactly `__index_level_0__` is dropped |
| SpellBase.OutputColumnsFeaturesOnly | geomancer/spells/base.py:125-127 | With `features_only`, only the key and the feature survive |
| SpellBase.FeaturesOnlyIgnoresKeepIndex | geomancer/spells/base.py:168-169 | With `features_only`, `keep_index` makes no difference |
| SpellBase.GetCore | geomancer/spells/base.py:94-96 | A url that does not parse fails with its parse error, and an unknown backend name is KeyError. A result means the url parsed to "bigquery" or "sqlite" |
| SpellBase.GetCoreSqlite | geomancer/spells/base.py:94-96 | `sqlite:///path` builds the SQLite core, with the options given or the SQLite defaults |
| SpellBase.GetCoreBigQuery | geomancer/spells/base.py:94-96 | `bigquery://project` builds the BigQuery core on that project, with the options given or the BigQuery defaults |
| SpellBase.Candidates | geomancer/spells/distance_to_nearest.py:62-65 | The candidates are exactly the source rows whose `source_column` equals `source_filter`, reduced to id and geometry |
| SpellBase.CheckColumns | geomancer/spells/distance_to_nearest.py:62-70 | The column references succeed exactly when the source has `source_id`, WKT and `source_column` and the target has the geometry column. The first missing one names the error |
| DistanceToNearestSpell.New | geomancer/spells/distance_to_nearest.py:36-58 | The constructor: `within` defaults to 10000, `on` is parsed with `extract_columns`, and `source_id` is "osm_id" |
| DistanceToNearestSpell.PairsOf | geomancer/spells/distance_to_nearest.py:71-78 | One target's pairs are exactly its candidates at distance strictly below `within` |
| DistanceToNearestSpell.Pairs | geomancer/spells/distance_to_nearest.py:71-78 | The pairs are exactly the union of each target's pairs |
| DistanceToNearestSpell.PairSource | geomancer/spells/distance_to_nearest.py:67-77 | Every pair comes from a target row and a candidate inside the radius |
| DistanceToNearestSpell.PairOfSource | geomancer/spells/distance_to_nearest.py:67-77 | Every target row and candidate inside the radius make a pair |
| DistanceToNearestSpell.Keys | geomancer/spells/distance_to_nearest.py:80-94 | The output keys are distinct and are exactly the keys of the pairs |
| DistanceToNearestSpell.Nearest | geomancer/spells/distance_to_nearest.py:80-90 | The rank-1 pair of a key: a pair with that key whose distance is no larger than that of any pair with the key |
| DistanceToNearestSpell.Query | geomancer/spells/distance_to_nearest.py:60-95 | The query fails exactly on a bad column reference or a missing key column. Its columns are the target's plus the feature, less `row_number`. Its rows are `Output` of the in-radius pairs of the candidates |
| DistanceToNearestSpell.Output | geomancer/spells/distance_to_nearest.py:80-94 | One row per distinct key, in key order, each the rank-1 pair of that key with `row_number` removed |
| DistanceToNearestSpell.OutputPermitted | geomancer/spells/distance_to_nearest.py:83-88 | The model's output is one of the answers the window permits: per key, the row of some pair of smallest distance |
| DistanceToNearestSpell.TieBreakIrrelevant | geomancer/spells/distance_to_nearest.py:83-88 | With unique target keys, any two permitted answers are equal, so the unspecified tie break does not matter |
| DistanceToNearestSpell.SameKeySameRow | geomancer/spells/distance_to_nearest.py:80-90 | With unique keys, two pairs with the same key and distance are equal |
| DistanceToNearestSpell.NearestRow | geomancer/spells/distance_to_nearest.py:80-94 | The row for key `k` is a target row with that key, extended with its distance as the feature |
| DistanceToNearestSpell.PairOfRow | geomancer/spells/distance_to_nearest.py:91-93 | An output row is the target row plus the feature, with `row_number` removed |
| DistanceToNearestSpell.OneRowPerKey | geomancer/spells/distance_to_nearest.py:80-94 | The output has at most one row per `__index_level_0__`, and each carries its key |
| DistanceToNearestSpell.FeatureIsMinimum | geomancer/spells/distance_to_nearest.py:80-94 | The feature of key `k` is a distance to one of its in-radius candidates and no larger than any such distance: the minimum |
| DistanceToNearestSpell.PresentIffInRadius | geomancer/spells/distance_to_nearest.py:71-78 | A key has an output row exactly when a target row with that key has a candidate strictly inside the radius |
| DistanceToNearestSpell.ColumnsAppendFeature | geomancer/spells/distance_to_nearest.py:91-93 | The output columns are the target's columns followed by `feature_name` |
| NumberOfSpell.New | geomancer/spells/number_of.py:37-59 | The constructor: `within` defaults to 10000, `on` is parsed, and `source_id` is "osm_id" |
| NumberOfSpell.KeepColumns | geomancer/spells/number_of.py:81-85 | The grouping columns are the target's columns other than "distance" and `source_id` |
| NumberOfSpell.PairsOf | geomancer/spells/number_of.py:72-79 | One target's pairs are exactly its candidates at distance strictly below `within` |
| NumberOfSpell.Pairs | geomancer/spells/number_of.py:72-79 | The pairs are exactly the union of each target's pairs |
| NumberOfSpell.PairSource | geomancer/spells/number_of.py:68-79 | Every pair comes from a target row and a candidate inside the radius |
| NumberOfSpell.PairOfSource | geomancer/spells/number_of.py:68-79 | Every target row and candidate inside the radius make a pair |
| NumberOfSpell.Groups | geomancer/spells/number_of.py:86-97 | The groups are distinct and are exactly the grouping values of the pairs |
| NumberOfSpell.Output | geomancer/spells/number_of.py:86-97 | One row per group: its grouping values plus the number of distinct ids |
| NumberOfSpell.Query | geomancer/spells/number_of.py:61-99 | The query fails exactly on a bad column reference. Its columns are the grouping columns followed by `feature_name`, and its rows are `Output` of the pairs |
| NumberOfSpell.CountIsDistinctIds | geomancer/spells/number_of.py:86-97 | A group's count is the number of distinct non-NULL ids among the in-radius candidates of its target rows. A duplicate id counts once |
| NumberOfSpell.GroupPresentIff | geomancer/spells/number_of.py:71-79 | A group appears exactly when one of its target rows has a candidate strictly inside the radius. Rows with zero matches are absent |
| NumberOfSpell.CountPositive | geomancer/spells/number_of.py:86-97 | When every candidate has an id, every output count is at least 1 |
| NumberOfSpell.CountBounded | geomancer/spells/number_of.py:62-66 | No count exceeds the number of distinct ids among all candidates |
| NumberOfSpell.OneRowPerGroup | geomancer/spells/number_of.py:86-97 | No two output rows agree on every grouping column |
| LengthOfSpell.New | geomancer/spells/length_of.py:46-71 | The constructor: `within` defaults to 10000, and `on` is parsed with `extract_columns` |
| LengthOfSpell.ClipsOf | geomancer/spells/length_of.py:102-122 | One target's clips carry its key and come from candidate lines that meet its buffer |
| LengthOfSpell.Clips | geomancer/spells/length_of.py:102-122 | The clips are exactly the union of each target's clips: every clip comes from some target, and every clip of every target is there |
| LengthOfSpell.Keys | geomancer/spells/length_of.py:125-135 | The summed keys are distinct and are exactly the keys of the clips |
| LengthOfSpell.Query | geomancer/spells/length_of.py:73-146 | A BigQuery core is refused with ValueError before anything else. Otherwise the query fails exactly on a bad column reference or a target without the key. The columns are exactly the key and `feature_name` |
| LengthOfSpell.SumAppend | geomancer/spells/length_of.py:125-135 | The per-key sum over concatenated clips is the sum of the parts |
| LengthOfSpell.SumOfRow | geomancer/spells/length_of.py:118-135 | One target row contributes the clipped lengths of the lines it meets to its own key only |
| LengthOfSpell.FeatureIsTotalLength | geomancer/spells/length_of.py:118-135 | The feature of a key is the total clipped length of the lines meeting the buffers of the target rows with that key |
| LengthOfSpell.KeyPresentIff | geomancer/spells/length_of.py:118-145 | A key is summed exactly when one of its target rows meets a candidate line |
| LengthOfSpell.ClipOfMeetingRow | geomancer/spells/length_of.py:118-121 | A line that meets a target's buffer gives that target a clip |
| LengthOfSpell.ClipOfMeeting | geomancer/spells/length_of.py:118-121 | Every intersecting target row and line give a clip |
| LengthOfSpell.PartnersOfUnique | geomancer/spells/length_of.py:138-145 | With unique, non-NULL keys, a present key has exactly one partner in the final join |
| LengthOfSpell.PartnersNone | geomancer/spells/length_of.py:138-145 | A key no target carries has no partner |
| LengthOfSpell.OutputOnePartner | geomancer/spells/length_of.py:138-145 | With one partner per key, the result is one summed row per key, in order |
| LengthOfSpell.OneRowPerKey | geomancer/spells/length_of.py:125-145 | With unique, non-NULL target keys, the result holds exactly one row per key with an intersecting line, and no others |
| LengthOfSpell.KeysFromTargets | geomancer/spells/length_of.py:125-135 | Every summed key comes from a target row |
| LengthOfSpell.SumRowShape | geomancer/spells/length_of.py:125-143 | A result row is exactly the key and the feature holding the sum |
| Spells.Query | geomancer/spells/base.py:182 | Each spell's query fails on a bad column reference. LengthOf on BigQuery is ValueError |
| Spells.MissingKeyQuery | geomancer/spells/number_of.py:81-97 | On a target without `__index_level_0__`, DistanceToNearest and LengthOf fail, and NumberOf succeeds with no key column in its result |
| Spells.CastSpec | geomancer/spells/base.py:164-166 | A truthy call dburl is used, else a truthy constructor dburl. With neither, `cast` raises ValueError("dburl was not supplied") |
| Spells.Cast | geomancer/spells/base.py:133-196 | `cast` returns `CastSpec`, leaves the tables as `TablesAfter` says, and the datasets and expiry times as the chosen core's load changes them. With no url it changes nothing |
| Spells.CastWith | geomancer/spells/base.py:168-196 | Once the url is known, `cast` returns `CastAt`: the core's load, then the query. The tables, datasets and expiry times are those the load leaves |
| Spells.LoadTarget | geomancer/spells/base.py:171-179 | With a 32-hex table id, the core is built from the url and the frame is uploaded. The result and the tables are those of `Upload`; on error the tables are unchanged |
| Spells.QueryTables | geomancer/spells/base.py:174-196 | After the upload: connect, reflect the source and the target, run the spell's query, keep the filtered columns and build the frame. The result is `Finish` |
| Spells.DatasetsAfter | geomancer/spells/base.py:171-179 | `cast` never removes a dataset, and adds one only when the url selects BigQuery |
| Spells.ExpiresAfter | geomancer/spells/base.py:171-179 | `cast` changes the expiry times only when the url selects BigQuery |
| Spells.FeaturesOnly | geomancer/spells/base.py:168-169 | With `features_only`, every output column is the key or the feature, and `keep_index` makes no difference |
| Spells.CastHasFeature | geomancer/spells/base.py:185-191 | With `features_only`, a successful cast always returns the feature column, unless the feature is named like one of the queries' helper columns |
| Spells.SqliteUpload | geomancer/spells/base.py:171-174 | A ready SQLite cast builds the SQLite core, uploads the frame under the generated id, and opens a spatialite connection |
| Spells.SqliteReachesQuery | geomancer/spells/base.py:174-196 | A ready SQLite cast runs the spell's query on the source as it was and on the uploaded target, then filters the columns |
| Spells.DistanceColumnsAfterCast | geomancer/spells/base.py:185-191 | After `cast` drops the key, DistanceToNearest leaves the frame's columns followed by the feature |
| Spells.NumberColumnsAfterCast | geomancer/spells/base.py:185-191 | After `cast` drops the key, NumberOf leaves the frame's columns without "distance"/`source_id`, followed by the feature |
| Spells.LengthColumnsAfterCast | geomancer/spells/base.py:185-191 | After `cast` drops the key, LengthOf leaves the feature alone |
| Spells.SqliteDistanceColumns | geomancer/spells/distance_to_nearest.py:91-93 | On SQLite, DistanceToNearest cast succeeds and returns the frame's columns followed by the feature |
| Spells.SqliteNumberColumns | geomancer/spells/number_of.py:81-94 | On SQLite, NumberOf cast succeeds and returns the frame's columns without "distance" and `source_id`, followed by the feature |
| Spells.SqliteLengthColumns | geomancer/spells/length_of.py:138-145 | On SQLite, LengthOf cast succeeds and returns the feature column alone |
| Spells.SqliteDistanceFeatures | tests/spellbook/test_spellbook.py:44-56 | On SQLite, DistanceToNearest with `features_only` succeeds and returns exactly `["__index_level_0__", feature]`, whatever `keep_index` is |
| Spells.SqliteNumberFeatures | geomancer/spells/base.py:168-169 | On SQLite, NumberOf with `features_only` succeeds and returns exactly the key and the feature |
| Spells.SqliteLengthFeatures | geomancer/spells/base.py:168-169 | On SQLite, LengthOf with `features_only` succeeds and returns exactly the key and the feature |
| Spells.DistanceFeaturesAfterCast | geomancer/spells/base.py:125-127 | Filtering DistanceToNearest's query columns with `features_only` leaves exactly the key and the feature |
| Spells.NumberFeaturesAfterCast | geomancer/spells/base.py:125-127 | Filtering NumberOf's query columns with `features_only` leaves exactly the key and the feature |
| Spells.LengthFeaturesAfterCast | geomancer/spells/base.py:125-127 | Filtering LengthOf's query columns with `features_only` leaves exactly the key and the feature |
| SpellBooks.Step | geomancer/spellbook/spellbook.py:48-51 | One iteration: a failing spell's error passes through, and a spell output without the key is KeyError |
| SpellBooks.Cast | geomancer/spellbook/spellbook.py:32-53 | The loop equals the fold of `Spell.cast` (with `features_only=True` and the book's column) and left joins, in list order. It states the result, the tables, the datasets and the expiry times afterwards |
| SpellBooks.FoldDatasets | geomancer/spellbook/spellbook.py:47-52 | The book's casts never remove a dataset |
| SpellBooks.StepKeepsRecords | geomancer/spellbook/spellbook.py:48-52 | A join step keeps every record in order with its index, and appends the spell's columns other than the key |
| SpellBooks.JoinedFeature | geomancer/spellbook/spellbook.py:48-52 | A joined row has the feature: the right side's value when the key matches, NaN otherwise |
| SpellBooks.KeyedRows | geomancer/spellbook/spellbook.py:49 | `set_index` moves the key out of the rows and keeps the other columns' values |
| SpellBooks.StepFeature | geomancer/spellbook/spellbook.py:48-52 | After a step every row has the spell's feature: the spell's value for its key, or NaN when the spell returned no row for it |
| SpellBooks.StepOverlap | geomancer/spellbook/spellbook.py:48-51 | A feature name already in the frame makes the join raise ValueError |
| SpellBooks.CastKeepsRows | geomancer/spellbook/spellbook.py:47-53 | When each spell's output has a unique key, `cast` keeps the row count and index, and the input columns stay a prefix |
| SpellBooks.CastAddsFeatures | geomancer/spellbook/spellbook.py:44-53 | On success, the input's columns come first and every spell's feature is a column of the result (test_spellbook.py:80-83), for features not named like the key or a query helper column |
| SpellBooks.CastColumns | tests/spellbook/test_spellbook.py:79-83 | When each cast returns the key and its feature, the result's columns are the input's followed by the spells' features in spell order |
| SpellBooks.StepAddsFeature | geomancer/spellbook/spellbook.py:48-52 | Joining an output of the key and one feature appends that feature to the frame's columns |
| SpellBooks.Kwargs | geomancer/spellbook/spellbook.py:68-78 | The constructor arguments in a spell's `__dict__` are exactly the keyword set |
| SpellBooks.SpellJson | geomancer/spellbook/spellbook.py:68-78 | A spell's record is its fields plus "module" and "type", with `source_column`/`source_filter` as stored. Options that are not None cannot be serialised: the TypeError names the configuration's class, `BQConfig` or `SQLiteConfig` |
| SpellBooks.ToJson | geomancer/spellbook/spellbook.py:55-83 | The export succeeds exactly when no spell holds options. It then keeps the book's column, author and description, and holds each spell's record, one per spell, in order. Otherwise the error is that of the first spell holding options |
| SpellBooks.SpellsJson | geomancer/spellbook/spellbook.py:70-77 | The "spells" list holds one record per spell, in order, exactly when no spell holds options. Otherwise the error is `json.dump`'s TypeError for the first spell holding options |
| SpellBooks.ImportModule | geomancer/spellbook/spellbook.py:88 | `import_module` resolves exactly the spell modules and the other importable ones, returning the name. A non-string fails with AttributeError, an empty or relative name with ValueError or TypeError, and an unknown module with ImportError |
| SpellBooks.GetSpellClass | geomancer/spellbook/spellbook.py:89 | `getattr` resolves a spell class only in its own module or in `geomancer.spells`. Any other attribute of the module is returned as a non-spell attribute. A name the module does not have is AttributeError, and a name that is not a string is TypeError |
| SpellBooks.Collect | geomancer/spellbook/spellbook.py:85-93 | The spells of all outcomes in order, or an error when one fails |
| SpellBooks.InstantiateOne | geomancer/spellbook/spellbook.py:88-93 | The popping steps of one iteration compute `InstantiateSpell` |
| SpellBooks.CollectStep | geomancer/spellbook/spellbook.py:86-93 | One step of the loop: the next error stops it, or the next spell is appended |
| SpellBooks.InstantiateSpells | geomancer/spellbook/spellbook.py:85-93 | The loop over the records computes `InstantiateAll` |
| SpellBooks.InstantiateSpell | geomancer/spellbook/spellbook.py:87-93 | A record without "module" is KeyError. A spell it builds has the kind its "type" names, and its "module" is that kind's own module or `geomancer.spells` |
| SpellBooks.Construct | geomancer/spellbook/spellbook.py:93 | An unknown keyword, or a missing `source_table` or `feature_name`, is TypeError. A built spell has the given kind, no options, the table and feature from the keywords, the column and filter that `on` parses to, and the defaults "osm_id" and 10000 when those keywords are absent |
| SpellBooks.ReadJson | geomancer/spellbook/spellbook.py:95-112 | `read_json` succeeds exactly when every record instantiates. The book keeps the column, author and description, and holds one spell per record, in order |
| SpellBooks.SpellJsonReads | geomancer/spellbook/spellbook.py:90-93 | An exported spell passes through instantiation to its constructor, with `on` rebuilt as "column:filter" |
| SpellBooks.ConstructFromKwargs | geomancer/spellbook/spellbook.py:93 | The stored keywords, passed back to the spell's constructor with `on`, rebuild the spell's fields |
| SpellBooks.ImportSpellModule | geomancer/spellbook/spellbook.py:88 | The module a spell records is always importable |
| SpellBooks.GetSpellClassOf | geomancer/spellbook/spellbook.py:89 | The class a spell records is found in the module it records, whatever other attributes the modules have |
| SpellBooks.PopUpdated | geomancer/spellbook/spellbook.py:88-92 | Popping a key just added gives back the record before it |
| SpellBooks.SpellRoundTrip | geomancer/spellbook/spellbook.py:90-93 | One spell survives export and import exactly when neither its column nor its filter contains ':' |
| SpellBooks.SpellsRoundTrip | tests/spellbook/test_spellbook.py:99-109 | The spells all survive when every column and filter is free of ':' |
| SpellBooks.SpellsRoundTripBreaks | geomancer/spellbook/spellbook.py:90-93 | A spell whose column or filter contains ':' does not come back as it was |
| SpellBooks.RoundTrip | tests/spellbook/test_spellbook.py:99-109 | Reading back an exported book restores it exactly when every spell's column and filter are free of ':' |
| SpellBooks.UnknownClassFails | geomancer/spellbook/spellbook.py:88-89 | A module that cannot be imported is ImportError. A name that an importable module does not have, including an unknown class name in `geomancer.spells`, is AttributeError. The spell is not skipped |
| SpellBooks.NonSpellAttributeFails | geomancer/spellbook/spellbook.py:88-93 | A name that is an attribute of the module but not a spell class passes `getattr`. The column and filter are popped, and the call `spell_cls(on, **spell)` fails with a TypeError |
| SpellBooks.InstantiateFailsOn | geomancer/spellbook/spellbook.py:95-112 | One failing spell makes the whole import fail |
| SpellBooks.BookDefaults | geomancer/spellbook/spellbook.py:13 | The defaults are column "WKT", no author and no description |
| Frames.ResetIndex | geomancer/backend/cores/sqlite.py:35 | `reset_index` puts the index in a new leading column, labelled with the index's name, or "index" or "level_0" when it has none. It keeps every record and leaves an unnamed index. It fails when that label already exists |
| Frames.Rename | geomancer/backend/cores/sqlite.py:36 | `rename(columns={from: to})` relabels every `from` column, moves each row's value to the new label, and keeps the index and its name |
| Frames.FromResults | geomancer/spells/base.py:196 | The frame built from the query's results has its columns, one record per row, and a fresh unnamed RangeIndex |
| Frames.SetIndex | geomancer/spellbook/spellbook.py:49 | `set_index(col)` makes the column the index, named `col`, and drops it from the columns; a missing column is KeyError |
| Frames.LeftJoin | geomancer/spellbook/spellbook.py:51 | The join appends the right-hand columns and keeps the left index's name. It refuses overlapping labels |
| Frames.JoinKeepsRecords | geomancer/spellbook/spellbook.py:48-52 | With a unique right index, the left join keeps every left record in order with its index |
| Frames.JoinedUnmatched | geomancer/spellbook/spellbook.py:48-52 | Left rows without a partner get NaN in every right-hand column |
| Strings.SplitLength | geomancer/spells/base.py:79 | `split(":")` gives one more part than there are colons |
| Strings.SplitOne | geomancer/spells/base.py:79 | With a single colon, `split(":")` gives the text before it and the text after it |

## Left out

- **SQL and geometry.** SQLAlchemy query construction (`select`, `.cte`,
  `func.*`, `engine.execute`, `MetaData`/`Table` reflection) is not
  modelled. Each query is stated by its meaning over row sequences instead.
  Geometry and metric functions (`ST_Distance`, `ST_Buffer`, `ST_Transform`,
  `ST_Intersection`, `ST_Length`) are uninterpreted integer-valued
  functions. They are passed in as a `SpatialOps` parameter, and floats are
  not modelled.
- **Row order.** SQL does not order groups. The model takes groups and
  keys in order of first appearance.
- DistanceToNearestSpell.Output: the tie between equidistant candidates is
  left open. The model fixes one tie break and proves every permitted tie
  break gives the same rows under unique keys.
- **Oracles.** The following are parameters:
  - `uuid4().hex` (the table id). The loads require it to be 32 lower-case
    hex characters, and the SQL loads return it;
  - the clock;
  - the answers of `job.done()`;
  - the set of installed Spatialite libraries;
  - for a spell book, the per-spell ids and answers.
- **Not modelled at all:**
  - `time.sleep`;
  - logging and `logger.catch`;
  - the constant warning in `LengthOf.__init__`.
- **JSON text and files.** JSON text and file reading/writing in
  `to_json`/`read_json` (`json.dump`/`json.load`, the `filename` argument)
  are not modelled. The model works on the structured record.
- **Field types in import.** Field types are approximated. A field the
  export writes as text must read back as text, and a numeric column name
  that `"{}".format` would accept is a TypeError.
- **Lazy instantiation.** `read_json` stores the generator of
  `_instantiate_spells` as the book's spells. It is modelled as an eager
  list. An import error surfaces when the book is read, rather than when the
  spells are iterated. The generator is also one-shot: a book read back can
  be cast or exported only once, and a second use sees no spells. The model
  does not capture that; `SpellBooks.RoundTrip` holds for the eager list.
- SpellBooks.SpellJson: a spell holding a configuration object is a
  TypeError of `json.dump`. The model reports it for the whole export.
- SpellBooks.CastKeepsRows: it assumes that every spell's output has a
  unique key. The proof does not derive that from each spell's query.
- SpellBooks.CastColumns: it assumes that every cast of the book returns
  exactly the key and its feature. `Spells.SqliteDistanceFeatures`,
  `SqliteNumberFeatures` and `SqliteLengthFeatures` prove that shape for
  ready SQLite casts only, not for BigQuery.
- SpellBooks.CastAddsFeatures: it excludes features named like the key or
  like one of the queries' helper columns (`row_number`, `__len__`,
  `__geom__`, `__buffer__`), which the query itself would drop.
- NumberOfSpell.CountPositive: it requires every candidate to have a
  non-NULL id, as `COUNT(DISTINCT ...)` skips NULLs.
- DBCore.WriteTable: "append" keeps the existing table's column list
  whatever columns the new rows carry. SQLite would raise for a column the
  table lacks, and fill NULL for one the rows lack. This is reachable only
  when a generated table id collides with an existing table.
- **URL names.** `\w` in the URL pattern matches any Unicode word
  character. `DBCore.IsNameChar` accepts ASCII letters, digits, `_` and
  `+` only.
- **Filter comparison.** The candidate filter `source_column ==
  source_filter` compares values as they are. SQLite's type affinity, which
  may coerce a TEXT cell against a numeric literal, is not modelled.
- **Error texts and order.** `DBCore.ToSql` reports duplicate columns as a
  ValueError whose message is not pandas' own. `DBCore.LoadSpec` checks the
  columns before `if_exists`, so when both are wrong it reports the
  duplicate columns where pandas would report the bad `if_exists` first.
- DBCore.FreshLoad: it requires a frame with an unnamed index. A named
  index is uploaded under its name, with no key column
  (`DBCore.NamedIndexUpload`). It also requires a frame without an
  "index" column. With one, `reset_index` puts the index under "level_0" and the caller's own
  "index" column silently becomes the key, as `DBCore.IndexColumnClash`
  shows. A frame that already has `__index_level_0__` fails
  (`DBCore.UploadClash`).
- SpellBooks.ImportModule: the modules other than the spell modules, and
  the attributes of every module besides the spell classes, are a
  parameter (`SpellBooks.Interp`).
- SpellBooks.GetSpellClass: a non-spell attribute (a submodule such as
  `number_of`, `__name__`, the base class `Spell`, or an imported name such
  as `select` or `logger`) is found, and calling it is modelled as a
  TypeError. The source's call may instead raise another error, or build
  an object that is not a spell. A spell class that a non-spell module
  re-exports is treated as such an attribute, not as the class.
- **Backend gaps:**
  - geomancer/backend/backend.py is not part of this model. Its dispatch is
    stale: it keys on "bq" and cannot be reached from the spells.
  - geomancer/backend/cores/base.py is an abstract interface with no
    behaviour; it is represented by the `Cores.Core` datatype.
  - `get_tables`, `get_engine` for BigQuery and PostgreSQL, and
    `_inspect_options` are not part of this model. `cast` is modelled as
    uploading first, then reflecting the source, then reflecting the
    uploaded target.
- **Url parsing.** Only driver name, host and database are parsed. User,
  password, port and query parameters are not.
- **BigQuery upload.** The pyarrow conversion in
  `load_table_from_dataframe` is not modelled. The uploaded relation
  carries the key column the frame's index becomes. A named index is
  assumed to become the key column too (`BqUtils.BqTable` and
  `BigQueryCore.LoadedTables` ignore the index name), where pyarrow would
  store it under its name.
- **Output column collisions.** A `feature_name` that collides with a
  target column is not modelled beyond the join's overlap error.

## Findings

| source | as written | input that shows it | evidently intended | confidence | as-written member | corrected member |
|---|---|---|---|---|---|---|
| geomancer/backend/cores/sqlite.py:24-39 (and geomancer/backend/cores/psql.py:24-38) | `load` accepts `index_label` but never passes it to `to_sql` | `index=True, index_label="fid"`: the index is written under "index", not "fid" | the index label is honoured, as the `INDEX_LABEL` setting documents (geomancer/backend/settings.py:62-67) | medium, not executed | DBCore.IndexLabelIgnored | DBCore.IndexLabelHonoured |
