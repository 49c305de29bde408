/** The older BigQuery-only configuration (geomancer/common/settings.py),
    still exported at the package top level; used by the BigQuery utilities. */
module CommonSettings {
  import opened Wrappers

  datatype BQConfig = BQConfig(datasetId: string := "geomancer", expiry: Option<int> := Some(3), maxRetries: int := 10)

  /** The defaults: dataset "geomancer", 3 hours of expiry, 10 retries. */
  lemma Defaults()
    ensures BQConfig().datasetId == "geomancer"
    ensures BQConfig().expiry == Some(3)
    ensures BQConfig().maxRetries == 10
  {
  }

  /** `myconfig.EXPIRY = 12` makes EXPIRY read 12 and leaves the rest alone. */
  lemma OverrideExpiry()
    ensures BQConfig().(expiry := Some(12)).expiry == Some(12)
    ensures BQConfig().(expiry := Some(12)).datasetId == "geomancer"
    ensures BQConfig().(expiry := Some(12)).maxRetries == 10
  {
  }
}
