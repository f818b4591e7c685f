// Option and Result, the two wrappers every module of the model uses for
// "nothing there" (TypeScript `undefined`, Rust `None`) and for errors the
// source raises (a thrown `Error`, a JavaScript `TypeError`).
module Wrappers {
  datatype Option<T> = None | Some(value: T)

  datatype Result<T, E> = Ok(value: T) | Err(error: E)
}
