/** What several components share. */
module Common {

  datatype Option<T> = None | Some(value: T)

  /** The state of a route, RTF_DOWN or RTF_UP; local repair, with a third, is not modelled. */
  datatype Flag = Down | Up

  function Max(a: nat, b: nat): nat {
    if a < b then b else a
  }

  function MaxReal(a: real, b: real): real {
    if a < b then b else a
  }

  function MinReal(a: real, b: real): real {
    if b < a then b else a
  }

  lemma DivideBack(x: real, y: real)
    requires y != 0.0
    ensures (x / y) * y == x
  {
  }

  lemma SubsetSize<T>(a: set<T>, b: set<T>)
    requires a <= b
    ensures |a| <= |b|
  {
    assert b == a + (b - a);
  }
}
