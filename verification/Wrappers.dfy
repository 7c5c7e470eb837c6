/** Shared small definitions. */
module Wrappers {

  datatype Option<+T> = None | Some(value: T)

  function One(b: bool): nat {
    if b then 1 else 0
  }

  lemma {:induction false} SubsetSize<T>(a: set<T>, b: set<T>)
    requires a <= b
    ensures |a| <= |b|
  {
    assert b == a + (b - a);
  }
}
