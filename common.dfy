/** Small value types shared by the collector model. */
module Common {

  /** A value that may be absent (Java's null). */
  datatype Option<T> = None | Some(value: T)

  /** The result of a void Java method that may throw: it returns normally or throws `error`. */
  datatype Outcome<E> = Pass | Fail(error: E)

  /** The exceptions the collector's update path can end in. */
  datatype Failure =
    | IllegalState       // updateAtmosphericInformation: no branch applied the sample
    | AirportNotFound    // the airport code resolves to no registry entry
    | IndexOutOfBounds   // the resolved index has no observation record
}
