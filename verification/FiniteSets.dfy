/** Sizes of finite sets. */
module FiniteSets {

  lemma SubsetSize<T>(a: set<T>, b: set<T>)
    requires a <= b
    ensures |a| <= |b|
  {
    assert b == a + (b - a);
  }

  lemma SameSize<T>(a: set<T>, b: set<T>)
    requires a <= b && |a| >= |b|
    ensures a == b
  {
    assert b == a + (b - a);
  }

  lemma SetSizes<T>(a: set<T>, b: set<T>, moved: set<T>)
    requires moved <= a
    ensures |a - moved| == |a| - |moved|
    ensures |b + moved| <= |b| + |moved|
  {
  }
}
