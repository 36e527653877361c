/** Small value types shared by the client and the server model. */
module Common {

  /** A value that may be absent (`null` / `None` in the source). */
  datatype Option<+T> = None | Some(value: T)

  /** An HTTP error as raised by the server (`HTTPException(status_code, detail)`). */
  datatype HttpError = HttpError(status: int, detail: string)

  /** The outcome of a server operation: a value, or the HTTP error it raises. */
  datatype Result<+T> = Ok(value: T) | Fail(error: HttpError)

  /** The two authors of a chat message (`'user' | 'assistant'`). */
  datatype Role = User | Assistant

  /** `response.ok` of the Fetch API: the status is in the range 200-299. */
  predicate IsOkStatus(status: int) {
    200 <= status <= 299
  }
}
