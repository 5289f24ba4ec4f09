/** Duplicate-free sequences and the insertion order of a Python dict or set. */
module Sequences {

  /** No element occurs twice. */
  predicate Distinct<T(==)>(s: seq<T>)
  {
    forall i, j :: 0 <= i < j < |s| ==> s[i] != s[j]
  }

  /** The keys of a dict filled from `s` in order: each element where it first occurs. */
  function Dedup<T(==)>(s: seq<T>): seq<T>
  {
    if s == [] then []
    else
      var d := Dedup(s[..|s| - 1]);
      if s[|s| - 1] in d then d else d + [s[|s| - 1]]
  }

  /** `Dedup` keeps every element, adds none and leaves none twice. */
  lemma {:induction false} DedupFacts<T>(s: seq<T>)
    ensures Distinct(Dedup(s))
    ensures forall x :: x in Dedup(s) <==> x in s
  {
    if s != [] {
      var p := s[..|s| - 1];
      DedupFacts(p);
      forall x | x in s
        ensures x in p || x == s[|s| - 1]
      {
        var i :| 0 <= i < |s| && s[i] == x;
        if i < |s| - 1 {
          assert p[i] == x;
        }
      }
    }
  }

  /** A sequence without duplicates is its own dict order. */
  lemma {:induction false} DedupDistinct<T>(s: seq<T>)
    requires Distinct(s)
    ensures Dedup(s) == s
  {
    if s != [] {
      var p := s[..|s| - 1];
      assert Distinct(p);
      DedupDistinct(p);
      DedupFacts(p);
      assert s[|s| - 1] !in p;
      assert p + [s[|s| - 1]] == s;
    }
  }

  /** Distinctness is a property of the multiset of elements. */
  lemma {:induction false} DistinctMultiset<T>(s: seq<T>)
    ensures Distinct(s) <==> forall x :: multiset(s)[x] <= 1
  {
    if s != [] {
      var p, y := s[..|s| - 1], s[|s| - 1];
      DistinctMultiset(p);
      assert s == p + [y];
      if Distinct(s) {
        assert Distinct(p);
        assert y !in p;
        forall x
          ensures multiset(s)[x] <= 1
        {
          assert multiset(s)[x] == multiset(p)[x] + multiset([y])[x];
        }
      }
      if forall x :: multiset(s)[x] <= 1 {
        forall x
          ensures multiset(p)[x] <= 1
        {
          assert multiset(s)[x] == multiset(p)[x] + multiset([y])[x];
        }
        assert multiset(s)[y] == multiset(p)[y] + 1;
        assert y !in multiset(p);
        forall i, j | 0 <= i < j < |s|
          ensures s[i] != s[j]
        {
          if j < |s| - 1 {
            assert p[i] == s[i] && p[j] == s[j];
          } else {
            assert p[i] == s[i];
          }
        }
      }
    }
  }

  /** Two sequences with the same suffix are equal exactly when the parts before it are. */
  lemma {:induction false} SuffixCancels<T>(a: seq<T>, b: seq<T>, x: seq<T>)
    ensures a + x == b + x ==> a == b
  {
    if a + x == b + x {
      assert |a| == |b|;
      assert a == (a + x)[..|a|];
      assert b == (b + x)[..|b|];
    }
  }
}
