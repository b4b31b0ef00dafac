/**
  Shared vocabulary of the ledger model: optional values, results of operations
  that can fail, and document identifiers.
 */
module Core {

  /** A value that may be absent, as an optional field of a request body. */
  datatype Option<+T> = None | Some(value: T)

  /** The outcome of an operation that either produces a value or fails with an error. */
  datatype Result<+T, +E> = Success(value: T) | Failure(error: E)

  /** Document identifiers of the record store are strings. */
  type Id = string

  /** JavaScript truthiness of a string: only the empty string is falsy. */
  predicate Truthy(s: Option<string>) {
    s.Some? && s.value != ""
  }

  /**
    `s || ''` on an optional string. The empty string is falsy, but replacing
    it by '' changes nothing, so any string that is present comes back as is.
   */
  function OrEmpty(s: Option<string>): (r: string)
    ensures s.Some? ==> r == s.value
    ensures s.None? ==> r == ""
  {
    if Truthy(s) then s.value else ""
  }
}
