/**
 ORDER BY key, id over a finite set of row ids. Every ordered query of the
 analytics crate breaks ties by a unique id, so its result is one sequence.
 */
module SqlOrder {
  import opened Finite

  predicate Before(key: int -> int, a: int, b: int) {
    key(a) < key(b) || (key(a) == key(b) && a < b)
  }

  predicate IsFirst(ids: set<int>, key: int -> int, a: int) {
    a in ids && forall b :: b in ids && b != a ==> Before(key, a, b)
  }

  lemma {:induction false} FirstExists(ids: set<int>, key: int -> int) returns (first: int)
    requires ids != {}
    ensures IsFirst(ids, key, first)
  {
    IntSetInhabited(ids);
    var x :| x in ids;
    first := x;
    var others := ids - {x};
    if others != {} {
      var a := FirstExists(others, key);
      first := if Before(key, a, x) then a else x;
    }
    forall b | b in ids && b != first
      ensures Before(key, first, b)
    {
      assert b == x || b in others;
    }
  }

  function First(ids: set<int>, key: int -> int): (a: int)
    requires ids != {}
    ensures IsFirst(ids, key, a)
  {
    assert exists a :: a in ids && IsFirst(ids, key, a) by {
      var first := FirstExists(ids, key);
    }
    var a :| a in ids && IsFirst(ids, key, a);
    a
  }

  function OrderBy(ids: set<int>, key: int -> int): (r: seq<int>)
    ensures |r| == |ids|
    ensures forall x :: x in r <==> x in ids
  {
    if ids == {} then []
    else
      var a := First(ids, key);
      [a] + OrderBy(ids - {a}, key)
  }

  predicate Ordered(s: seq<int>, key: int -> int) {
    forall i, j :: 0 <= i < j < |s| ==> Before(key, s[i], s[j])
  }

  lemma OrderByIsOrdered(ids: set<int>, key: int -> int)
    ensures Ordered(OrderBy(ids, key), key)
  {
    if ids != {} {
      var a := First(ids, key);
      OrderByIsOrdered(ids - {a}, key);
      var rest := OrderBy(ids - {a}, key);
      forall j | 0 <= j < |rest|
        ensures Before(key, a, rest[j])
      {
        assert rest[j] in rest;
      }
    }
  }

  /** An ordered listing of the same ids is the query's result. */
  lemma {:induction false} OrderByIsTheOnlyOrder(s: seq<int>, ids: set<int>, key: int -> int)
    requires Ordered(s, key)
    requires forall x :: x in s <==> x in ids
    ensures s == OrderBy(ids, key)
    decreases |s|
  {
    if s == [] {
      IntSetInhabited(ids);
    } else {
      assert s[0] in s;
      assert IsFirst(ids, key, s[0]) by {
        forall b | b in ids && b != s[0]
          ensures Before(key, s[0], b)
        {
          assert b in s;
        }
      }
      assert First(ids, key) == s[0];
      assert s == [s[0]] + s[1..];
      assert s[0] !in s[1..];
      OrderByIsTheOnlyOrder(s[1..], ids - {s[0]}, key);
    }
  }

  /** ORDER BY key, id LIMIT n. */
  function Limited(ids: set<int>, key: int -> int, n: nat): (r: seq<int>)
    ensures |r| == if |ids| <= n then |ids| else n
    ensures forall i :: 0 <= i < |r| ==> r[i] in ids
  {
    var all := OrderBy(ids, key);
    assert forall i :: 0 <= i < |all| ==> all[i] in all;
    if |all| <= n then all else all[..n]
  }

  lemma LimitedIsDistinct(ids: set<int>, key: int -> int, n: nat)
    ensures Distinct(Limited(ids, key, n))
    ensures Ordered(Limited(ids, key, n), key)
  {
    OrderByIsOrdered(ids, key);
    var all, r := OrderBy(ids, key), Limited(ids, key, n);
    forall i, j | 0 <= i < j < |r|
      ensures r[i] != r[j] && Before(key, r[i], r[j])
    {
      assert Before(key, all[i], all[j]);
    }
  }
}
