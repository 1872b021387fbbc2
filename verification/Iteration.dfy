/** Iteration over a set or the keys of a map, in no particular order. */
module Iteration {

  /** The next element: any one of those left. */
  method Pick<T(==)>(left: set<T>) returns (x: T)
    requires left != {}
    ensures x in left
  {
    x :| x in left;
  }
}
