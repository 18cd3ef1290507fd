/** Node names and epochs, shared by the parts of the cluster. */
module Names {

  type Id = nat
  type Epoch = nat

  function Max(a: int, b: int): int { if a < b then b else a }

  lemma {:induction false} SubsetSize<T>(a: set<T>, b: set<T>)
    requires a <= b
    ensures |a| <= |b|
  {
    assert b == a + (b - a);
  }
}
