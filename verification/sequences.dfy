/** Facts about sequences shared by both monitors. */
module Sequences {

  /** No element occurs twice. */
  predicate NoDuplicates<T(==)>(s: seq<T>)
  {
    forall i, j :: 0 <= i < j < |s| ==> s[i] != s[j]
  }

  /** Two duplicate-free sequences with no common element concatenate to a duplicate-free one. */
  lemma NoDuplicatesAppend<T>(a: seq<T>, b: seq<T>)
    requires NoDuplicates(a) && NoDuplicates(b)
    requires forall x :: x in a ==> x !in b
    ensures NoDuplicates(a + b)
  {
    forall i, j | 0 <= i < j < |a + b|
      ensures (a + b)[i] != (a + b)[j]
    {
      if j >= |a| && i < |a| {
        assert (a + b)[i] in a;
        assert (a + b)[j] == b[j - |a|];
      }
    }
  }
}
