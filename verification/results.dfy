/**
 * Result shapes shared by the route handlers.
 *
 * HTTP status codes and JSON bodies are not modelled; each handler's outcome
 * is one of the four kinds below.
 */
module Results {

  /** A field that a request or document may or may not carry. */
  datatype Option<+T> = None | Some(value: T) {

    /** The carried value, or `default` when the field is absent. */
    function GetOr(default: T): T {
      match this
      case Some(v) => v
      case None => default
    }
  }

  /**
   * How a handler ends:
   * - Ok: the 200/201 paths, carrying the record that is sent back;
   * - NotFound: the explicit 404 checks;
   * - Invalid: a schema validation failure raised by a document save and
   *   caught by the handler's `try`, which answers 500;
   * - Unhandled: a failure raised outside any `try`; the async handler's
   *   promise rejects and the handler itself sends no response.
   */
  datatype Response<+T> = Ok(value: T) | NotFound | Invalid | Unhandled
}
