/** Option, Result and the error kinds the modelled Python code raises.
    Python exceptions become `Err(e)` values, so that every error path of the
    source is a value of the model rather than a precondition. */
module Wrappers {

  datatype Option<T> = None | Some(value: T)

  /** The Python exception classes raised (or propagated) by the core. */
  datatype Error =
    | ValueError(msg: string)        // builtin ValueError
    | KeyError(key: string)          // builtin KeyError (dict or column lookup)
    | AttributeError(name: string)   // builtin AttributeError (getattr, `c.WKT`)
    | TypeError(msg: string)         // builtin TypeError
    | ImportError(moduleName: string)    // importlib.import_module of an unknown module
    | ArgumentError(url: string)     // sqlalchemy ArgumentError: unparsable database url
    | NoSuchTable(name: string)      // sqlalchemy NoSuchTableError raised by reflection
    | OperationalError(msg: string)  // sqlite3.OperationalError
    | NotFound(path: string)         // google.api_core NotFound: no such BigQuery table

  datatype Result<T> = Ok(value: T) | Err(error: Error) {
    predicate IsFailure() { Err? }
    function PropagateFailure<U>(): Result<U>
      requires Err?
    {
      Err(error)
    }
    function Extract(): T
      requires Ok?
    {
      value
    }
  }

  /** Python truthiness of an optional string: None and "" are both false. */
  predicate Truthy(s: Option<string>) {
    s.Some? && s.value != ""
  }

  /** Python truthiness of an optional integer: None and 0 are both false. */
  predicate TruthyInt(n: Option<int>) {
    n.Some? && n.value != 0
  }
}
