/** How a Python call ends: it returns a value or raises one of the exceptions the core uses. */
module Outcomes {
  import opened Text

  datatype Option<+T> = None | Some(value: T)

  /** The exceptions raised by the services and the route handlers. */
  datatype Exception =
    | ValueError(message: string)
      /** `doc["field"]` on a document that lacks the field. */
    | KeyError(key: string)
      /** FastAPI's `HTTPException(status_code, detail)`. */
    | HttpException(status: int, detail: string)
      /** `bson.errors.InvalidId`: `ObjectId(text)` on a string it cannot read. */
    | InvalidId(text: string)
      /** Pydantic's `ValidationError`: a field of a model that its value cannot be coerced to. */
    | ValidationError(model: string, field: string, reason: string)

  /** `str(e)`, the text a route hands back as `detail` of a 500 answer. */
  function Str(e: Exception): string
  {
    match e
    case ValueError(m) => m
    case KeyError(k) => "'" + k + "'"
    case HttpException(s, d) => IntToString(s) + ": " + d
    case InvalidId(t) => "'" + t + "' is not a valid ObjectId, it must be a 12-byte input or a 24-character hex string"
    case ValidationError(m, f, why) => "1 validation error for " + m + "\n" + f + "\n  " + why
  }

  datatype Outcome<+T> = Returned(value: T) | Raised(error: Exception)

  /** What a route hands back: a body with its status, or an `HTTPException`'s status and detail. */
  datatype Response<+T> = Success(status: int, body: T) | Failure(status: int, detail: string)
}
