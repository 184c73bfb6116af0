// Sizes of sets.
module SetSizes {
  lemma SubsetCount<T>(a: set<T>, b: set<T>)
    requires a <= b
    ensures |a| <= |b|
  {
    assert b == a + (b - a);
  }
}
