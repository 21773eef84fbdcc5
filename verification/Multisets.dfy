/** Multisets of everything in a list of buckets, or of levels, or of hands. */
module Multisets {
  /** What replacing one part y by y' does to the whole x + y. */
  lemma Replaced<T>(x: multiset<T>, y: multiset<T>, y': multiset<T>, p: multiset<T>, q: multiset<T>)
    requires y' + p == y + q
    ensures (x + y') + p == (x + y) + q
  {
    assert (x + y') + p == x + (y' + p);
    assert (x + y) + q == x + (y + q);
  }
}
