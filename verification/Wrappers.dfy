/** What every module shares: the option type (a nullable column, a lookup that may find no row) and ids. */
module Wrappers {
  datatype Option<+T> = None | Some(value: T)

  type Id = nat

  lemma {:induction false} SubsetSize<T>(x: set<T>, y: set<T>)
    requires x <= y
    ensures |x| <= |y|
    decreases y
  {
    if x != {} {
      var e :| e in x;
      SubsetSize(x - {e}, y - {e});
    }
  }
}
