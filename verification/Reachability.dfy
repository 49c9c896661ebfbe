/** Following links in a graph whose successor function may fail. */
module Reachability {
  import opened Wrappers

  type Successors<!T> = T -> Option<set<T>>

  ghost predicate Edge<T(!new)>(out: Successors<T>, a: T, b: T) {
    out(a).Some? && b in out(a).value
  }

  ghost predicate IsPath<T(!new)>(out: Successors<T>, from: set<T>, path: seq<T>) {
    && path != [] && path[0] in from
    && forall i :: 0 < i < |path| ==> Edge(out, path[i - 1], path[i])
  }

  /** b can be reached by following links from one of these. */
  ghost predicate Reached<T(!new)>(out: Successors<T>, from: set<T>, b: T) {
    exists path :: IsPath(out, from, path) && path[|path| - 1] == b
  }

  /** Every member has successors, and they are members. */
  ghost predicate Closed<T(!new)>(out: Successors<T>, nodes: set<T>) {
    forall a :: a in nodes ==> out(a).Some? && out(a).value <= nodes
  }

  lemma StartIsReached<T(!new)>(out: Successors<T>, from: set<T>, a: T)
    requires a in from
    ensures Reached(out, from, a)
  {
    assert IsPath(out, from, [a]);
  }

  lemma SuccessorIsReached<T(!new)>(out: Successors<T>, from: set<T>, a: T, b: T)
    requires Reached(out, from, a) && Edge(out, a, b)
    ensures Reached(out, from, b)
  {
    var path :| IsPath(out, from, path) && path[|path| - 1] == a;
    var longer := path + [b];
    forall i | 0 < i < |longer|
      ensures Edge(out, longer[i - 1], longer[i])
    {
      assert i < |path| ==> Edge(out, path[i - 1], path[i]);
    }
    assert IsPath(out, from, longer);
  }

  lemma PathInit<T(!new)>(out: Successors<T>, from: set<T>, path: seq<T>)
    requires IsPath(out, from, path) && |path| > 1
    ensures IsPath(out, from, path[..|path| - 1])
    ensures Edge(out, path[|path| - 2], path[|path| - 1])
  {
  }

  lemma {:induction false} PathsCompose<T(!new)>(out: Successors<T>, from: set<T>, via: set<T>, path: seq<T>)
    requires IsPath(out, via, path) && forall a :: a in via ==> Reached(out, from, a)
    ensures Reached(out, from, path[|path| - 1])
    decreases |path|
  {
    if |path| > 1 {
      PathInit(out, via, path);
      PathsCompose(out, from, via, path[..|path| - 1]);
      SuccessorIsReached(out, from, path[|path| - 2], path[|path| - 1]);
    }
  }

  /** What is reached from something reached is reached. */
  lemma ReachedIsTransitive<T(!new)>(out: Successors<T>, from: set<T>, via: set<T>, b: T)
    requires Reached(out, via, b) && forall a :: a in via ==> Reached(out, from, a)
    ensures Reached(out, from, b)
  {
    var path :| IsPath(out, via, path) && path[|path| - 1] == b;
    PathsCompose(out, from, via, path);
  }

  lemma {:induction false} PathStaysInClosed<T(!new)>(out: Successors<T>, from: set<T>, closed: set<T>, path: seq<T>)
    requires IsPath(out, from, path) && from <= closed && Closed(out, closed)
    ensures path[|path| - 1] in closed
    decreases |path|
  {
    if |path| > 1 {
      PathInit(out, from, path);
      PathStaysInClosed(out, from, closed, path[..|path| - 1]);
    }
  }

  /** What is reached lies in every closed set that holds the start. */
  lemma ReachedIsLeast<T(!new)>(out: Successors<T>, from: set<T>, closed: set<T>, b: T)
    requires Reached(out, from, b) && from <= closed && Closed(out, closed)
    ensures b in closed
  {
    var path :| IsPath(out, from, path) && path[|path| - 1] == b;
    PathStaysInClosed(out, from, closed, path);
  }

  /** Successors that agree on everything reached reach the same. */
  lemma SameSuccessorsReachTheSame<T(!new)>(out: Successors<T>, out': Successors<T>, from: set<T>, b: T)
    requires forall a :: Reached(out, from, a) ==> out'(a) == out(a)
    ensures Reached(out, from, b) <==> Reached(out', from, b)
  {
    if Reached(out, from, b) {
      var path :| IsPath(out, from, path) && path[|path| - 1] == b;
      PathCarriesOver(out, out', from, path);
    }
    if Reached(out', from, b) {
      var path :| IsPath(out', from, path) && path[|path| - 1] == b;
      PathComesBack(out, out', from, path);
    }
  }

  lemma {:induction false} PathCarriesOver<T(!new)>(out: Successors<T>, out': Successors<T>, from: set<T>, path: seq<T>)
    requires IsPath(out, from, path)
    requires forall a :: Reached(out, from, a) ==> out'(a) == out(a)
    ensures Reached(out', from, path[|path| - 1])
    decreases |path|
  {
    if |path| > 1 {
      var init := path[..|path| - 1];
      PathInit(out, from, path);
      PathCarriesOver(out, out', from, init);
      assert Reached(out, from, init[|init| - 1]);
      SuccessorIsReached(out', from, path[|path| - 2], path[|path| - 1]);
    } else {
      StartIsReached(out', from, path[0]);
    }
  }

  lemma {:induction false} PathComesBack<T(!new)>(out: Successors<T>, out': Successors<T>, from: set<T>, path: seq<T>)
    requires IsPath(out', from, path)
    requires forall a :: Reached(out, from, a) ==> out'(a) == out(a)
    ensures Reached(out, from, path[|path| - 1])
    decreases |path|
  {
    if |path| > 1 {
      var init := path[..|path| - 1];
      PathInit(out', from, path);
      PathComesBack(out, out', from, init);
      SuccessorIsReached(out, from, path[|path| - 2], path[|path| - 1]);
    } else {
      StartIsReached(out, from, path[0]);
    }
  }

  /** Fewer successors and fewer starts reach less. */
  lemma FewerSuccessorsReachLess<T(!new)>(out: Successors<T>, out': Successors<T>, from: set<T>, from': set<T>, b: T)
    requires from' <= from && forall a :: Reached(out, from, a) ==>
                                            out(a).Some? && out'(a).Some? && out'(a).value <= out(a).value
    requires Reached(out', from', b)
    ensures Reached(out, from, b)
  {
    var path :| IsPath(out', from', path) && path[|path| - 1] == b;
    PathStaysReached(out, out', from, from', path);
  }

  lemma {:induction false} PathStaysReached<T(!new)>(out: Successors<T>, out': Successors<T>, from: set<T>,
                                                     from': set<T>, path: seq<T>)
    requires from' <= from && forall a :: Reached(out, from, a) ==>
                                            out(a).Some? && out'(a).Some? && out'(a).value <= out(a).value
    requires IsPath(out', from', path)
    ensures Reached(out, from, path[|path| - 1])
    decreases |path|
  {
    if |path| > 1 {
      PathInit(out', from', path);
      PathStaysReached(out, out', from, from', path[..|path| - 1]);
      SuccessorIsReached(out, from, path[|path| - 2], path[|path| - 1]);
    } else {
      StartIsReached(out, from, path[0]);
    }
  }

  // ---- A depth-first traversal ------------------------------------------------------------------

  /** The links of two places: none, if either place is broken. */
  function Join<T>(a: Option<set<T>>, b: Option<set<T>>): Option<set<T>> {
    if a.None? || b.None? then None else Some(a.value + b.value)
  }

  function JoinAll<T>(parts: seq<Option<set<T>>>): Option<set<T>> {
    if parts == [] then Some({}) else Join(JoinAll(parts[..|parts| - 1]), parts[|parts| - 1])
  }

  /** What need not be visited any more once a node is marked. */
  type Companions<!T> = T -> set<T>

  ghost predicate Covered<T(!new)>(also: Companions<T>, marked: set<T>, a: T) {
    a in marked || exists n :: n in marked && a in also(n)
  }

  /** Visiting `links` took the marked nodes from before to after: every new node was reached from them,
      and its successors are covered too. */
  ghost predicate Grown<T(!new)>(out: Successors<T>, also: Companions<T>, before: set<T>, after: set<T>,
                                 links: set<T>) {
    && before <= after
    && (forall a :: a in links ==> Covered(also, after, a))
    && forall a :: a in after && a !in before ==> Reached(out, links, a) && Expanded(out, also, after, a)
  }

  ghost predicate Expanded<T(!new)>(out: Successors<T>, also: Companions<T>, marked: set<T>, a: T) {
    out(a).Some? && forall b :: b in out(a).value ==> Covered(also, marked, b)
  }

  /** The place itself is broken, or something reached from its links is. */
  ghost predicate Fails<T(!new)>(out: Successors<T>, found: Option<set<T>>) {
    found.None? || exists a :: Reached(out, found.value, a) && out(a).None?
  }

  ghost predicate Outcome<T(!new)>(out: Successors<T>, also: Companions<T>, before: set<T>, after: set<T>,
                                   found: Option<set<T>>, ok: bool) {
    if ok then found.Some? && Grown(out, also, before, after, found.value) else Fails(out, found)
  }

  lemma MoreStartsReachMore<T(!new)>(out: Successors<T>, from: set<T>, more: set<T>, a: T)
    requires from <= more && Reached(out, from, a)
    ensures Reached(out, more, a)
  {
    var path :| IsPath(out, from, path) && path[|path| - 1] == a;
    assert IsPath(out, more, path);
  }

  lemma FailsInJoin<T(!new)>(out: Successors<T>, f: Option<set<T>>, g: Option<set<T>>)
    requires Fails(out, f) || Fails(out, g)
    ensures Fails(out, Join(f, g))
  {
    if f.Some? && g.Some? {
      var all := f.value + g.value;
      if Fails(out, f) {
        var a :| Reached(out, f.value, a) && out(a).None?;
        MoreStartsReachMore(out, f.value, all, a);
      } else {
        var a :| Reached(out, g.value, a) && out(a).None?;
        MoreStartsReachMore(out, g.value, all, a);
      }
    }
  }

  lemma ExpandedStays<T(!new)>(out: Successors<T>, also: Companions<T>, marked: set<T>, more: set<T>, a: T)
    requires marked <= more && Expanded(out, also, marked, a)
    ensures Expanded(out, also, more, a)
  {
    forall b | b in out(a).value
      ensures Covered(also, more, b)
    {
      assert Covered(also, marked, b);
    }
  }

  /** One visit after another. */
  lemma VisitsCompose<T(!new)>(out: Successors<T>, also: Companions<T>, a: set<T>, b: set<T>, c: set<T>,
                               f: Option<set<T>>, g: Option<set<T>>, ok: bool)
    requires Outcome(out, also, a, b, f, true) && Outcome(out, also, b, c, g, ok)
    ensures Outcome(out, also, a, c, Join(f, g), ok)
  {
    if ok {
      var all := f.value + g.value;
      forall l | l in all
        ensures Covered(also, c, l)
      {
        assert l in f.value ==> Covered(also, b, l);
      }
      forall n | n in c && n !in a
        ensures Reached(out, all, n) && Expanded(out, also, c, n)
      {
        if n in b {
          MoreStartsReachMore(out, f.value, all, n);
          ExpandedStays(out, also, b, c, n);
        } else {
          MoreStartsReachMore(out, g.value, all, n);
        }
      }
    } else {
      FailsInJoin(out, f, g);
    }
  }

  lemma NothingToVisit<T(!new)>(out: Successors<T>, also: Companions<T>, a: set<T>)
    ensures Outcome(out, also, a, a, Some({}), true)
  {
  }

  lemma JoinOneMore<T(!new)>(parts: seq<Option<set<T>>>, i: nat)
    requires i < |parts|
    ensures JoinAll(parts[..i + 1]) == Join(JoinAll(parts[..i]), parts[i])
  {
    assert parts[..i + 1][..i] == parts[..i];
  }

  lemma VisitNextPart<T(!new)>(out: Successors<T>, also: Companions<T>, parts: seq<Option<set<T>>>, i: nat,
                               a: set<T>, b: set<T>, c: set<T>, ok: bool)
    requires i < |parts|
    requires Outcome(out, also, a, b, JoinAll(parts[..i]), true) && Outcome(out, also, b, c, parts[i], ok)
    ensures ok ==> Outcome(out, also, a, c, JoinAll(parts[..i + 1]), true)
    ensures !ok ==> Fails(out, JoinAll(parts))
  {
    JoinOneMore(parts, i);
    VisitsCompose(out, also, a, b, c, JoinAll(parts[..i]), parts[i], ok);
    if !ok {
      PartFails(out, parts, i + 1);
    }
  }

  lemma {:induction false} PartFails<T(!new)>(out: Successors<T>, parts: seq<Option<set<T>>>, n: nat)
    requires n <= |parts| && Fails(out, JoinAll(parts[..n]))
    ensures Fails(out, JoinAll(parts))
    decreases |parts| - n
  {
    if n < |parts| {
      JoinOneMore(parts, n);
      FailsInJoin(out, JoinAll(parts[..n]), parts[n]);
      PartFails(out, parts, n + 1);
    } else {
      assert parts[..n] == parts;
    }
  }

  /** A node that is covered already needs no visit. */
  lemma KnownNode<T(!new)>(out: Successors<T>, also: Companions<T>, a: set<T>, n: T)
    requires Covered(also, a, n)
    ensures Outcome(out, also, a, a, Some({n}), true)
  {
  }

  lemma DeadNode<T(!new)>(out: Successors<T>, also: Companions<T>, a: set<T>, b: set<T>, n: T)
    requires out(n).None?
    ensures Outcome(out, also, a, b, Some({n}), false)
  {
    StartIsReached(out, {n}, n);
  }

  /** A new node is marked, and then the place it leads to is visited. */
  lemma VisitNode<T(!new)>(out: Successors<T>, also: Companions<T>, before: set<T>, after: set<T>, n: T, ok: bool)
    requires Outcome(out, also, before + {n}, after, out(n), ok)
    ensures Outcome(out, also, before, after, Some({n}), ok)
  {
    StartIsReached(out, {n}, n);
    if out(n).Some? {
      forall m | m in out(n).value
        ensures Reached(out, {n}, m)
      {
        SuccessorIsReached(out, {n}, n, m);
      }
      forall a | Reached(out, out(n).value, a)
        ensures Reached(out, {n}, a)
      {
        ReachedIsTransitive(out, {n}, out(n).value, a);
      }
    }
  }
}
