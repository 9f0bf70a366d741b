// Small notions that several components share.
module Basics {
  function Min(a: int, b: int): int { if a <= b then a else b }

  function Max(a: int, b: int): int { if a >= b then a else b }

  // Distinct names for distinct numbers.
  function Stars(n: nat): (s: string)
    ensures |s| == n
  {
    if n == 0 then "" else Stars(n - 1) + "*"
  }

  lemma SubsetSize<T>(a: set<T>, b: set<T>)
    requires a <= b
    ensures |a| <= |b| && |b - a| == |b| - |a|
    ensures |a| == |b| ==> a == b
  {
    assert b == a + (b - a);
  }
}
