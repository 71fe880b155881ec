/** Failure-carrying values shared by the connector and the application. */
module Wrappers {

  /** A value or its absence; `None` stands for Python's `None`. */
  datatype Option<+T> = None | Some(value: T)

  /** The outcome of an operation that may raise. */
  datatype Result<+T, +E> = Ok(value: T) | Err(error: E)

  /** The exceptions the modelled code raises, named as the program names them. */
  datatype Exception =
    | ValueError        // depth not monitored at the station
    | TypeError         // no row at the requested timestamp (fetchone returned None)
    | KeyError          // structure name absent from the structure data
    | IndexError        // structure without stations
    | QuerySyntaxError  // the data store rejected a query (unknown column)
}
