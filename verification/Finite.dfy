/** Facts about finite sets and multisets that proofs pick elements from. */
module Finite {
  lemma IntSetInhabited(s: set<int>)
    ensures s == {} || exists x :: x in s
  {
    if forall x :: x !in s {
      assert s == {};
    }
  }

  lemma MultisetInhabited<T(!new)>(m: multiset<T>)
    ensures m == multiset{} || exists x :: x in m
  {
    if forall x :: x !in m {
      assert m == multiset{};
    }
  }

  /** The sum of f over every occurrence in m. */
  ghost function Sum<T(!new)>(m: multiset<T>, f: T -> nat): nat
    decreases |m|
  {
    if m == multiset{} then 0
    else
      MultisetInhabited(m);
      var x :| x in m;
      f(x) + Sum(m - multiset{x}, f)
  }

  lemma TakingCommutes<T>(m: multiset<T>, x: T, y: T)
    requires x in m && y in m && x != y
    ensures y in m - multiset{x} && x in m - multiset{y}
    ensures m - multiset{x} - multiset{y} == m - multiset{y} - multiset{x}
  {
  }

  /** The order in which occurrences are taken does not matter. */
  lemma {:induction false} SumTakesAny<T(!new)>(m: multiset<T>, f: T -> nat, y: T)
    requires y in m
    ensures Sum(m, f) == f(y) + Sum(m - multiset{y}, f)
    decreases |m|
  {
    MultisetInhabited(m);
    var x :| x in m && Sum(m, f) == f(x) + Sum(m - multiset{x}, f);
    if x != y {
      TakingCommutes(m, x, y);
      SumTakesAny(m - multiset{x}, f, y);
      SumTakesAny(m - multiset{y}, f, x);
    }
  }

  lemma SumOfPrepended<T(!new)>(x: T, rest: seq<T>, f: T -> nat)
    ensures Sum(multiset([x] + rest), f) == f(x) + Sum(multiset(rest), f)
  {
    var all := multiset([x] + rest);
    assert all == multiset{x} + multiset(rest);
    assert all - multiset{x} == multiset(rest);
    SumTakesAny(all, f, x);
  }

  lemma {:induction false} SumOfUnion<T(!new)>(a: multiset<T>, b: multiset<T>, f: T -> nat)
    ensures Sum(a + b, f) == Sum(a, f) + Sum(b, f)
    decreases |a|
  {
    if a == multiset{} {
      assert a + b == b;
    } else {
      MultisetInhabited(a);
      var x :| x in a;
      SumTakesAny(a, f, x);
      SumTakesAny(a + b, f, x);
      assert a + b - multiset{x} == (a - multiset{x}) + b;
      SumOfUnion(a - multiset{x}, b, f);
    }
  }

  ghost predicate Distinct<T>(s: seq<T>) {
    forall i, j :: 0 <= i < j < |s| ==> s[i] != s[j]
  }

  ghost function Elements<T>(s: seq<T>): set<T> {
    set x | x in s
  }

  lemma {:induction false} DistinctCardinality<T>(s: seq<T>)
    requires Distinct(s)
    ensures |Elements(s)| == |s|
  {
    if s != [] {
      var init, last := s[..|s| - 1], s[|s| - 1];
      DistinctCardinality(init);
      assert Elements(s) == Elements(init) + {last};
    }
  }
}
