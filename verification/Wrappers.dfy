/** Result shapes shared by the modules of this project. */
module Wrappers {

  /** An absent or unknown value (the source's `None`), or a value. */
  datatype Option<+T> = None | Some(value: T)

  /** The outcome of code that may raise. */
  datatype Result<+T, +E> = Ok(value: T) | Err(error: E)

  lemma MemberOf<T>(s: set<T>) returns (x: T)
    requires s != {}
    ensures x in s
  {
    x :| x in s;
  }
}
