/** Backend configuration records (geomancer/backend/settings.py).

    The source declares class-level constants that callers override on an
    instance; here a configuration is an immutable record whose constructor
    defaults are those constants, and an override is a record update. */
module BackendSettings {
  import opened Wrappers

  /** `Config` is abstract in the source; its two concrete kinds are the two
      variants. `expiry` may be None (no expiry), as documented. */
  datatype Config =
    | BQConfig(datasetId: string := "geomancer", expiry: Option<int> := Some(3), maxRetries: int := 10)
    | SQLiteConfig(index: bool := false, indexLabel: Option<string> := None, ifExists: string := "replace")
  {
    /** The abstract `name` property every configuration provides. */
    function Name(): string {
      match this
      case BQConfig(_, _, _) => "bigquery"
      case SQLiteConfig(_, _, _) => "sqlite"
    }
  }

  /** The BigQuery defaults: dataset "geomancer", 3 hours of expiry, 10 retries. */
  lemma BQDefaults()
    ensures BQConfig().datasetId == "geomancer"
    ensures BQConfig().expiry == Some(3)
    ensures BQConfig().maxRetries == 10
    ensures BQConfig().Name() == "bigquery"
  {
  }

  /** The SQLite defaults: no index written, no index label, replace on conflict. */
  lemma SQLiteDefaults()
    ensures !SQLiteConfig().index
    ensures SQLiteConfig().indexLabel == None
    ensures SQLiteConfig().ifExists == "replace"
    ensures SQLiteConfig().Name() == "sqlite"
  {
  }

  /** Overriding EXPIRY on an instance changes that field only. */
  lemma OverrideExpiry(hours: Option<int>)
    ensures BQConfig().(expiry := hours).expiry == hours
    ensures BQConfig().(expiry := hours).datasetId == BQConfig().datasetId
    ensures BQConfig().(expiry := hours).maxRetries == BQConfig().maxRetries
    ensures BQConfig().(expiry := hours).Name() == "bigquery"
  {
  }

  /** Every configuration has a name, and the two kinds are told apart by it. */
  lemma NamesDistinguishKinds(c: Config)
    ensures c.Name() == "bigquery" <==> c.BQConfig?
    ensures c.Name() == "sqlite" <==> c.SQLiteConfig?
  {
  }
}
