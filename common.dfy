/**
 * Value wrappers shared by every module of the model.
 */
module Common {

  /** Python's `None` or a value. */
  datatype Option<+T> = None | Some(value: T)

  /**
   * The outcome of a Python call that may raise: it either returns a value
   * or raises an exception that the caller does not catch.
   */
  datatype Outcome<+T> = Ok(value: T) | Raised

  /**
   * What an HTTP GET gives back: a response with its status code and its
   * (already parsed) body, or an exception raised by the HTTP client.
   */
  datatype Fetched<+B> = Response(status: int, body: B) | NetworkError

  /** One byte of a downloaded document. */
  type Byte = bv8

  /** The values the scraper stores in its records: None, strings, and whatever else an adapter returns. */
  datatype Value = Null | Str(s: string) | Bool(b: bool) | Int(i: int)

  /** Python truthiness of a record value. */
  predicate Truthy(v: Value) {
    match v
    case Null => false
    case Str(s) => s != ""
    case Bool(b) => b
    case Int(i) => i != 0
  }

  /** A Python dict from field names to values. */
  type Dict = map<string, Value>
}
