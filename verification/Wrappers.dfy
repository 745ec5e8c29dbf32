/** An optional value, and an arbitrary element of a set for loops over one. */
module Wrappers {
  datatype Option<+T> = None | Some(value: T)

  method Choose<A>(s: set<A>) returns (x: A)
    requires s != {}
    ensures x in s
  {
    x :| x in s;
  }
}
