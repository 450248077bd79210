/** Vocabulary shared by the backend handlers and the client pages. */
module Common {

  /** A value that may be absent: a NULL column, or a piece of React state set to null. */
  datatype Option<+T> = None | Some(value: T)

  /** What a request handler answers: a value, or the error message it returns instead. */
  datatype Result<+T> = Ok(value: T) | Err(message: string)

  /** JavaScript truthiness of a nullable string: both null and "" are falsy. */
  predicate Truthy(s: Option<string>)
  {
    s.Some? && |s.value| > 0
  }
}
