/** Option, Result and Outcome, and the exceptions the library raises. */
module Results {

  datatype Option<+T> = None | Some(value: T)

  datatype Result<+T, +E> = Ok(value: T) | Err(error: E)

  /** The outcome of an operation that returns nothing but may raise. */
  datatype Outcome<+E> = Pass | Fail(error: E)

  /** The exceptions raised by `lib/ssdb/attr.rb`. */
  datatype Error =
    | TypeNotSupported(ty: string)  // `ssdb_attr` given a type other than :string / :integer
    | UnknownCastType(ty: string)   // `typecaster` given a type it does not know
    | NilIdField                    // `ssdb_attr_id(nil)`
}
