/** Option, the error classes the task core raises, and a Result that carries one of them. */
module Results {

  datatype Option<+T> = None | Some(value: T)

  /** The exceptions of the backend: a plain `Error`, and the two classes of its errors module. */
  datatype Error =
    | PlainError(message: string)
    | ValidationError(message: string)
    | NotFoundError(message: string)

  /** A call that either returns `value` or throws `error`. */
  datatype Result<+T> = Ok(value: T) | Err(error: Error)
}
