/** The option type shared by every component: a lookup, a load or a computation
    that either yields a value or reports an error. */
module Wrappers {
  datatype Option<+T> = None | Some(value: T)

  /** Some element of a non-empty set: Go visits map keys in no particular order. */
  method Pick<T>(s: set<T>) returns (x: T)
    requires s != {}
    ensures x in s
  {
    x :| x in s;
  }
}
