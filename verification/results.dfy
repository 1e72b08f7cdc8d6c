/** The scanner's two ways of saying "maybe": a Go pointer that may be nil, and a result that
    may instead be an error. */
module Results {

  /** A value that may be missing: Go's nil `*ast.Ident`, an absent doc comment, no match. */
  datatype Option<+T> = None | Some(value: T)

  /** Either the computed value or the error Go would return beside it. */
  datatype Result<+T, +E> = Ok(value: T) | Err(error: E)
}
