/** Facts about sets and sequences of any type. */
module Collections {

  predicate NoRepeats<T(==)>(xs: seq<T>) { forall i, j | 0 <= i < j < |xs| :: xs[i] != xs[j] }

  lemma {:induction false} SubsetSize<T>(a: set<T>, b: set<T>)
    requires a <= b
    ensures |a| <= |b|
  {
    assert b == a + (b - a);
  }

  lemma {:induction false} SliceFront<T>(s: seq<T>, j: nat, i: nat)
    requires j < i <= |s|
    ensures s[j..i][..i - 1 - j] == s[j..i - 1] && s[j..i][i - 1 - j] == s[i - 1]
    ensures s[..i][..i - 1] == s[..i - 1] && s[..i][i - 1] == s[i - 1]
  {
  }
}
