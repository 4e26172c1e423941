/** Facts about parts of parts of a sequence. */
module Slices {
  lemma SliceOfSlice<T>(s: seq<T>, a: nat, b: nat, c: nat, d: nat)
    requires a <= b <= |s| && c <= d <= b - a
    ensures s[a..b][c..d] == s[a + c..a + d]
    ensures s[a..b][c..] == s[a + c..b]
    ensures s[a..b][..d] == s[a..a + d]
  {
    var p := s[a..b];
    assert forall i | 0 <= i < d - c :: p[c..d][i] == p[c + i] == s[a + c + i];
  }
}
