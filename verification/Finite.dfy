/** Counting with finite sets. */
module Finite {

  /** The numbers below n. */
  ghost function Below(n: nat): (r: set<nat>)
    ensures |r| == n && forall i :: i in r <==> 0 <= i < n
  {
    if n == 0 then {} else Below(n - 1) + {n - 1}
  }

  /** Two sets that differ in t at most. */
  lemma OneChanged<T>(a: set<T>, b: set<T>, t: T)
    requires a - {t} == b - {t}
    ensures |b| == |a| + (if t in b then 1 else 0) - if t in a then 1 else 0
  {
    assert |a - {t}| == |a| - if t in a then 1 else 0;
    assert |b - {t}| == |b| - if t in b then 1 else 0;
  }

  lemma SameSize(a: set<nat>, b: set<nat>)
    requires a <= b
    ensures |a| <= |b| && (|a| == |b| ==> a == b)
  {
    assert b == a + (b - a);
  }
}
