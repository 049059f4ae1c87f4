/** Outcomes shared by every component: Go's `(value, error)` pairs and optional values. */
module Results {

  /** An optional value; `None` stands for Go's nil or for "no row matched". */
  datatype Option<+T> = None | Some(value: T)

  /** The result of a Go call that returns `(value, error)`: the error is only its message. */
  datatype Result<+T> = Ok(value: T) | Err(msg: string)
}
