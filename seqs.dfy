/** Small facts about sequences used as ordered key lists (Python dict order). */
module Seqs {
  /** No element occurs twice. */
  predicate Distinct<T(==)>(s: seq<T>)
  {
    forall i, j | 0 <= i < j < |s| :: s[i] != s[j]
  }

  /** `s` with every occurrence of `x` dropped, other elements in their order. */
  function Without<T(==)>(s: seq<T>, x: T): (r: seq<T>)
    ensures forall k | 0 <= k < |r| :: r[k] in s && r[k] != x
    ensures forall k | 0 <= k < |s| && s[k] != x :: s[k] in r
    ensures |r| <= |s|
    ensures Distinct(s) ==> Distinct(r)
    ensures x in s && Distinct(s) ==> |r| == |s| - 1
    ensures x !in s ==> r == s
  {
    if s == [] then []
    else if s[0] == x then Without(s[1..], x)
    else [s[0]] + Without(s[1..], x)
  }

  /** The last `cap` elements of `s` (all of it when it is short enough). */
  function KeepLast<T>(s: seq<T>, cap: nat): (r: seq<T>)
    ensures |r| == if |s| <= cap then |s| else cap
    ensures r == s[|s| - |r|..]
  {
    if |s| <= cap then s else s[|s| - cap..]
  }

  /**
   * Appending to a sequence bounded by `cap`: the element is added at the end,
   * and the oldest element goes only when it was full.
   */
  lemma AppendBounded<T>(s: seq<T>, x: T, cap: nat)
    requires |s| <= cap
    ensures |s| < cap ==> KeepLast(s + [x], cap) == s + [x]
    ensures |s| == cap > 0 ==> KeepLast(s + [x], cap) == s[1..] + [x]
    ensures cap > 0 ==> |KeepLast(s + [x], cap)| > 0 && KeepLast(s + [x], cap)[|KeepLast(s + [x], cap)| - 1] == x
  {
    if |s| == cap > 0 {
      assert (s + [x])[1..] == s[1..] + [x];
    }
  }

  function MaxInt(a: int, b: int): int { if a >= b then a else b }
  function MinInt(a: int, b: int): int { if a <= b then a else b }
  function MaxReal(a: real, b: real): real { if a >= b then a else b }
  function MinReal(a: real, b: real): real { if a <= b then a else b }

  /** Membership in `Without(s, x)`, stated for every candidate element. */
  lemma WithoutIn<T>(s: seq<T>, x: T)
    ensures forall y :: y in Without(s, x) <==> y in s && y != x
  {
    forall y ensures y in Without(s, x) <==> y in s && y != x {
      if y in s && y != x {
        var k :| 0 <= k < |s| && s[k] == y;
      }
    }
  }
}
