// Comparison of strings by code points, as Python compares and sorts them.
module StringOrder {
  function Compare(a: string, b: string): (c: int)
    ensures -1 <= c <= 1
    ensures c == 0 <==> a == b
  {
    if a == b then 0
    else if a == "" then -1
    else if b == "" then 1
    else if a[0] < b[0] then -1
    else if a[0] > b[0] then 1
    else assert a == [a[0]] + a[1..] && b == [b[0]] + b[1..]; Compare(a[1..], b[1..])
  }

  lemma {:induction false} CompareFlips(a: string, b: string)
    ensures Compare(a, b) == -Compare(b, a)
  {
    if a != "" && b != "" && a[0] == b[0] {
      CompareFlips(a[1..], b[1..]);
    }
  }

  lemma {:induction false} CompareTransitive(a: string, b: string, c: string)
    requires Compare(a, b) <= 0 && Compare(b, c) <= 0
    ensures Compare(a, c) <= 0
  {
    if a != "" && b != "" && c != "" && a[0] == b[0] && b[0] == c[0] && a != b && b != c && a != c {
      CompareTransitive(a[1..], b[1..], c[1..]);
    }
  }

  // The strings agree up to a place where the first one ends or has the smaller code point.
  ghost predicate Before(a: string, b: string) {
    exists k :: FirstDifference(a, b, k)
  }

  ghost predicate FirstDifference(a: string, b: string, k: int) {
    0 <= k <= |a| && k < |b| && a[..k] == b[..k] && (k < |a| ==> a[k] < b[k])
  }

  lemma {:induction false} CompareIsLexicographic(a: string, b: string)
    ensures Compare(a, b) < 0 <==> Before(a, b)
  {
    if a == b {
      assert forall k :: !FirstDifference(a, b, k);
    } else if a == "" {
      assert FirstDifference(a, b, 0);
    } else if b == "" {
      assert forall k :: !FirstDifference(a, b, k);
    } else if a[0] == b[0] {
      CompareIsLexicographic(a[1..], b[1..]);
      assert a == [a[0]] + a[1..] && b == [b[0]] + b[1..];
      if k :| FirstDifference(a[1..], b[1..], k) { LaterDifference(a, b, k + 1); }
      if k :| FirstDifference(a, b, k) { LaterDifference(a, b, k); }
    } else {
      assert a[0] < b[0] ==> FirstDifference(a, b, 0);
      if k :| FirstDifference(a, b, k) {
        assert k > 0 ==> a[..k][0] == b[..k][0];
      }
    }
  }

  lemma LaterDifference(a: string, b: string, k: int)
    requires a != "" && b != "" && a[0] == b[0]
    ensures k > 0 ==> (FirstDifference(a, b, k) <==> FirstDifference(a[1..], b[1..], k - 1))
    ensures k == 0 ==> !FirstDifference(a, b, k)
  {
    if 0 < k <= |a| && k <= |b| {
      assert a[..k] == [a[0]] + a[1..][..k - 1] && b[..k] == [b[0]] + b[1..][..k - 1];
      assert a[..k][1..] == a[1..][..k - 1] && b[..k][1..] == b[1..][..k - 1];
    }
  }
}
