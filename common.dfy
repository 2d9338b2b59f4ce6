/** Values shared by every part of the model: JSON properties, thrown values,
    operation results and HTTP responses. */
module Common {

  datatype Option<T> = None | Some(value: T)

  /** A property of a JSON object as a request body or a stored document holds it:
      missing (`undefined`), explicitly `null`, or a value. */
  datatype Field<T> = Absent | Null | Present(value: T)

  /** JavaScript truthiness of a string-valued property (`!!x`): present and not "". */
  predicate Truthy(f: Field<string>) {
    f.Present? && f.value != ""
  }

  /** `x || fallback` for a string-valued property. */
  function TextOr(f: Field<string>, fallback: string): string {
    if Truthy(f) then f.value else fallback
  }

  /** A value thrown by an awaited call: an `Error` carrying its message, or anything else. */
  datatype Thrown = JsError(message: string) | NonError

  /** `error instanceof Error ? error.message : fallback` */
  function MessageOr(e: Thrown, fallback: string): string {
    match e
    case JsError(m) => m
    case NonError => fallback
  }

  /** An awaited call that either yields a value or throws. */
  datatype Result<T> = Ok(value: T) | Err(error: Thrown)

  /** The `{ success, data }` / `{ success, error }` JSON body of an API response. */
  datatype Body<D> = Success(data: D) | Failure(error: string)

  /** An API response: its HTTP status and JSON body. */
  datatype Response<D> = Response(status: nat, body: Body<D>)

  /** `NextResponse.json({ success: false, error }, { status })` */
  function Fail<D>(status: nat, error: string): Response<D> {
    Response(status, Failure(error))
  }
}
