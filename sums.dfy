/** Sums of an integer-valued function over a sequence. */
module Sums {

  function SumBy<T>(s: seq<T>, f: T -> int): int
  {
    if s == [] then 0 else f(s[0]) + SumBy(s[1..], f)
  }

  lemma {:induction false} SumByAppend<T>(a: seq<T>, b: seq<T>, f: T -> int)
    ensures SumBy(a + b, f) == SumBy(a, f) + SumBy(b, f)
  {
    if a == [] {
      assert a + b == b;
    } else {
      SumByAppend(a[1..], b, f);
      assert (a + b)[1..] == a[1..] + b;
    }
  }

  /** Reordering the elements does not change the sum. */
  lemma {:induction false} SumByPermutation<T>(s: seq<T>, t: seq<T>, f: T -> int)
    requires multiset(s) == multiset(t)
    ensures SumBy(s, f) == SumBy(t, f)
    decreases |s|
  {
    if s == [] {
      assert |t| == |multiset(t)| == 0;
    } else {
      var x := s[0];
      assert x in multiset(t);
      var j :| 0 <= j < |t| && t[j] == x;
      var pre, post := t[..j], t[j + 1..];
      var rest := pre + post;
      assert t == pre + ([x] + post);
      assert s == [x] + s[1..];
      assert multiset(t) == multiset(pre) + multiset{x} + multiset(post);
      assert multiset(rest) == multiset(pre) + multiset(post);
      assert multiset(s[1..]) == multiset(s) - multiset{x};
      assert multiset(rest) == multiset(t) - multiset{x};
      SumByPermutation(s[1..], rest, f);
      SumByAppend(pre, [x] + post, f);
      SumByAppend(pre, post, f);
      assert ([x] + post)[1..] == post;
    }
  }
}
