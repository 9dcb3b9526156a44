/** Results of the route handlers: a value, or the error class the handler answers with. */
module Outcomes {

  datatype Option<+T> = None | Some(value: T)

  /** The error classes the handlers answer with, by HTTP status. */
  datatype Failure =
    | BadRequest   // 400: a required field is missing or falsy
    | NotFound     // 404: the referenced document does not exist
    | ServerError  // 500: an exception inside the handler (store error, provider error)

  datatype Result<+T> = Ok(value: T) | Err(error: Failure)

  function StatusCode(f: Failure): (code: int)
    ensures 400 <= code < 600
    ensures f == BadRequest <==> code == 400
    ensures f == NotFound <==> code == 404
    ensures f == ServerError <==> code == 500
  {
    match f
    case BadRequest => 400
    case NotFound => 404
    case ServerError => 500
  }
}
