/**
 Route normalisation of frontend/packages/config/src/route-guard.ts, and the
 redirect chain that the loaders of frontend/apps/user/src/App.tsx make of it.
 The router's matcher is injected, so every law holds for every matcher.
 */
module RouteGuard {
  import opened Wrappers
  import opened Strings

  /** matchRoute yields the matched prefix of the path. */
  datatype Options = Options(
    authenticatedFallback: string, authenticatedPublicFallbackRoutes: Option<seq<string>>, guestFallback: string,
    publicRoutes: seq<string>, routes: seq<string>, nestedPrefixes: Option<seq<string>>,
    matchRoute: (string, string, bool) -> Option<string>)

  // ---- Strings -----------------------------------------------------------------------------

  function NormalizePath(path: string): string {
    var next := Trim(path);
    if next == "" || next == "#" then "/" else if StartsWith(next, "/") then next else "/" + next
  }

  predicate NoQuery(s: string) {
    forall i :: 0 <= i < |s| ==> s[i] != '?'
  }

  /** Everything before the first question mark. */
  function PathPart(source: string): (p: string)
    ensures NoQuery(p)
  {
    if source == "" || source[0] == '?' then "" else [source[0]] + PathPart(source[1..])
  }

  function QueryPart(source: string): string {
    if source == "" || source[0] == '?' then source else QueryPart(source[1..])
  }

  /** A query: nothing, or text that starts with a question mark. */
  predicate IsQuery(q: string) {
    q == "" || q[0] == '?'
  }

  /** A query put behind any location extends its query and leaves its path alone. */
  lemma {:induction false} PartsOfJoin(source: string, query: string)
    requires IsQuery(query)
    ensures PathPart(source + query) == PathPart(source) && QueryPart(source + query) == QueryPart(source) + query
  {
    if source == "" {
      assert source + query == query;
      assert query == "" + query;
    } else if source[0] != '?' {
      assert (source + query)[1..] == source[1..] + query;
      PartsOfJoin(source[1..], query);
    }
  }

  lemma {:induction false} PartsOfPath(path: string)
    requires NoQuery(path)
    ensures PathPart(path) == path && QueryPart(path) == ""
  {
    if path != "" {
      PartsOfPath(path[1..]);
      assert path == [path[0]] + path[1..];
    }
  }

  lemma {:induction false} QueryStartsWithMark(source: string)
    ensures IsQuery(QueryPart(source))
  {
    if source != "" && source[0] != '?' {
      QueryStartsWithMark(source[1..]);
    }
  }

  // ---- normalizePath -------------------------------------------------------------------------

  lemma NormalizedForm(path: string)
    ensures var p := NormalizePath(path);
            && Trimmed(p) && StartsWith(p, "/") && NormalizePath(p) == p
            && (NoQuery(path) ==> NoQuery(p))
            && (StartsWith(path, "/") ==> |p| <= |path|)
  {
    TrimTrims(path);
    assert !IsSpace('/');
    var p := NormalizePath(path);
    assert Trim(p) == p;
    assert NoQuery(path) ==> '?' !in path;
    assert '?' !in path ==> '?' !in p;
    if StartsWith(path, "/") {
      assert path[0] == path[..1][0] == '/';
      assert Trim(path)[..1] == "/";
    }
  }

  // ---- Nested prefixes --------------------------------------------------------------------------

  function RoutePrefixLength(path: string, route: string, o: Options): (n: Option<nat>)
    ensures n.Some? ==> 0 < n.value < |path| && path[n.value] == '/'
  {
    if route == "/" then None
    else
      var base := o.matchRoute(route, path, false);
      if base.Some? && base.value != "" && StartsWith(path, base.value + "/") then
        assert path[..|base.value| + 1][|base.value|] == '/';
        Some(|base.value|)
      else None
  }

  predicate IsKnownRoute(path: string, o: Options) {
    exists i :: 0 <= i < |o.routes| && o.matchRoute(o.routes[i], path, true).Some?
  }

  /** The longest matching prefix, or 0. */
  function LongestPrefix(path: string, prefixes: seq<string>, o: Options): (n: nat)
    ensures n > 0 ==> n < |path| && path[n] == '/'
  {
    if prefixes == [] then 0
    else
      var earlier := LongestPrefix(path, prefixes[..|prefixes| - 1], o);
      var last := RoutePrefixLength(path, prefixes[|prefixes| - 1], o);
      if last.Some? && last.value > earlier then last.value else earlier
  }

  function Prefixes(o: Options): seq<string> {
    if o.nestedPrefixes.Some? then o.nestedPrefixes.value else o.publicRoutes
  }

  lemma RestIsShorter(path: string, n: nat)
    requires 0 < n < |path| && path[n] == '/'
    ensures |NormalizePath(path[n..])| < |path|
    ensures NoQuery(path) ==> NoQuery(NormalizePath(path[n..]))
  {
    NormalizedForm(path[n..]);
    assert path[n..][..1] == "/";
  }

  /** recoverNestedPrefix: strip prefixes until a known route is left. */
  function Recover(path: string, o: Options): Option<string>
    decreases |path|
  {
    var n := LongestPrefix(path, Prefixes(o), o);
    if n == 0 then None
    else
      RestIsShorter(path, n);
      var current := NormalizePath(path[n..]);
      if IsKnownRoute(current, o) then Some(current) else Recover(current, o)
  }

  /** The source's loop; that it verifies is its termination, for any matcher. */
  method RecoverNestedPrefix(path: string, o: Options) returns (recovered: Option<string>)
    ensures recovered == Recover(path, o)
    ensures recovered.Some? ==> IsKnownRoute(recovered.value, o) && |recovered.value| < |path|
  {
    var prefixes := Prefixes(o);
    var current := path;
    while true
      invariant Recover(current, o) == Recover(path, o) && |current| <= |path|
      decreases |current|
    {
      var length := 0;
      for i := 0 to |prefixes|
        invariant length == LongestPrefix(current, prefixes[..i], o)
      {
        assert prefixes[..i + 1][..i] == prefixes[..i];
        var next := RoutePrefixLength(current, prefixes[i], o);
        if next.Some? && next.value > length {
          length := next.value;
        }
      }
      assert prefixes[..|prefixes|] == prefixes;
      if length == 0 {
        return None;
      }
      RestIsShorter(current, length);
      current := NormalizePath(current[length..]);
      if IsKnownRoute(current, o) {
        return Some(current);
      }
    }
  }

  /** A recovered path is known, normal and shorter. */
  lemma {:induction false} RecoveredForm(path: string, o: Options)
    ensures Recover(path, o).Some? ==>
              var p := Recover(path, o).value;
              IsKnownRoute(p, o) && |p| < |path| && NormalizePath(p) == p && (NoQuery(path) ==> NoQuery(p))
    decreases |path|
  {
    var n := LongestPrefix(path, Prefixes(o), o);
    if n > 0 {
      RestIsShorter(path, n);
      NormalizedForm(path[n..]);
      RecoveredForm(NormalizePath(path[n..]), o);
    }
  }

  // ---- getNormalizedRoutePath ------------------------------------------------------------------------

  function Fallback(hasAuth: bool, o: Options): string {
    if hasAuth then o.authenticatedFallback else o.guestFallback
  }

  /** A known route that this visitor is not sent away from. */
  predicate Allowed(path: string, hasAuth: bool, o: Options) {
    && IsKnownRoute(path, o)
    && if hasAuth
       then path !in (if o.authenticatedPublicFallbackRoutes.Some? then o.authenticatedPublicFallbackRoutes.value
                      else o.publicRoutes)
       else path in o.publicRoutes
  }

  /** The path that getNormalizedRoutePath decides on, without the query. */
  function Decide(path: string, hasAuth: bool, o: Options): string {
    var normal := NormalizePath(path);
    var recovered := Recover(normal, o);
    var candidate := if recovered.Some? then recovered.value else normal;
    if Allowed(candidate, hasAuth, o) then candidate else Fallback(hasAuth, o)
  }

  function NormalizedRoutePath(source: string, hasAuth: bool, o: Options): string {
    Decide(PathPart(source), hasAuth, o) + QueryPart(source)
  }

  function Iterate<T>(f: T -> T, x: T, n: nat): T {
    if n == 0 then x else f(Iterate(f, x, n - 1))
  }

  /** What the loader does with a location. */
  function Step(hasAuth: bool, o: Options): string -> string {
    (source: string) => NormalizedRoutePath(source, hasAuth, o)
  }

  /** The loader stops redirecting within n steps. */
  ghost predicate SettlesWithin(source: string, hasAuth: bool, o: Options, n: nat) {
    exists k: nat :: k <= n && Iterate(Step(hasAuth, o), source, k + 1) == Iterate(Step(hasAuth, o), source, k)
  }

  lemma SettledAtOnce(source: string, hasAuth: bool, o: Options, n: nat)
    requires NormalizedRoutePath(source, hasAuth, o) == source
    ensures SettlesWithin(source, hasAuth, o, n)
  {
    var f := Step(hasAuth, o);
    assert Iterate(f, source, 0) == source && Iterate(f, source, 0 + 1) == f(Iterate(f, source, 0));
  }

  /** What one application does: to the fallback, or to the path it already had, or to a strictly shorter path. */
  lemma OneRedirect(path: string, hasAuth: bool, o: Options)
    requires NoQuery(path)
    ensures var next, normal := Decide(path, hasAuth, o), NormalizePath(path);
            || next == Fallback(hasAuth, o)
            || (next == normal && Decide(next, hasAuth, o) == next && NoQuery(next))
            || (|NormalizePath(next)| < |normal| && NormalizePath(next) == next && NoQuery(next))
  {
    NormalizedForm(path);
    RecoveredForm(NormalizePath(path), o);
  }

  lemma PathIsDecided(path: string, query: string, hasAuth: bool, o: Options)
    requires NoQuery(path) && IsQuery(query)
    ensures NormalizedRoutePath(path + query, hasAuth, o) == Decide(path, hasAuth, o) + query
  {
    PartsOfPath(path);
    PartsOfJoin(path, query);
    assert "" + query == query;
  }

  predicate Carries(f: string -> string, suffix: string, x: string) {
    f(x + suffix) == f(x) + suffix
  }

  lemma {:induction false} SuffixIsCarriedAlong(f: string -> string, x: string, suffix: string, n: nat)
    requires forall y :: Carries(f, suffix, y)
    ensures Iterate(f, x + suffix, n) == Iterate(f, x, n) + suffix
  {
    if n > 0 {
      SuffixIsCarriedAlong(f, x, suffix, n - 1);
      assert Carries(f, suffix, Iterate(f, x, n - 1));
    }
  }

  lemma StepCarries(hasAuth: bool, o: Options, query: string)
    requires IsQuery(query)
    ensures forall x :: Carries(Step(hasAuth, o), query, x)
  {
    forall x
      ensures Carries(Step(hasAuth, o), query, x)
    {
      PartsOfJoin(x, query);
      assert Decide(PathPart(x), hasAuth, o) + (QueryPart(x) + query)
          == Decide(PathPart(x), hasAuth, o) + QueryPart(x) + query;
    }
  }

  /** The redirects of a location with more query are those of the location, with the query carried along. */
  lemma QueryIsCarriedAlong(source: string, query: string, hasAuth: bool, o: Options, n: nat)
    requires IsQuery(query)
    ensures Iterate(Step(hasAuth, o), source + query, n) == Iterate(Step(hasAuth, o), source, n) + query
  {
    StepCarries(hasAuth, o, query);
    SuffixIsCarriedAlong(Step(hasAuth, o), source, query, n);
  }

  lemma SettlesWithQuery(source: string, query: string, hasAuth: bool, o: Options, n: nat)
    requires IsQuery(query) && SettlesWithin(source, hasAuth, o, n)
    ensures SettlesWithin(source + query, hasAuth, o, n)
  {
    var f := Step(hasAuth, o);
    var k: nat :| k <= n && Iterate(f, source, k + 1) == Iterate(f, source, k);
    QueryIsCarriedAlong(source, query, hasAuth, o, k);
    QueryIsCarriedAlong(source, query, hasAuth, o, k + 1);
  }

  lemma {:induction false} JoinOfParts(source: string)
    ensures PathPart(source) + QueryPart(source) == source
  {
    if source != "" && source[0] != '?' {
      JoinOfParts(source[1..]);
      assert source == [source[0]] + source[1..];
    }
  }

  lemma {:induction false} IterateAdds<T>(f: T -> T, x: T, m: nat, n: nat)
    ensures Iterate(f, Iterate(f, x, m), n) == Iterate(f, x, m + n)
  {
    if n > 0 {
      IterateAdds(f, x, m, n - 1);
    }
  }

  lemma SettlesLater(source: string, hasAuth: bool, o: Options, k: nat, n: nat)
    requires SettlesWithin(Iterate(Step(hasAuth, o), source, k), hasAuth, o, n)
    ensures SettlesWithin(source, hasAuth, o, k + n)
  {
    var f := Step(hasAuth, o);
    var l: nat :| l <= n && Iterate(f, Iterate(f, source, k), l + 1) == Iterate(f, Iterate(f, source, k), l);
    IterateAdds(f, source, k, l);
    IterateAdds(f, source, k, l + 1);
    assert Iterate(f, source, k + l + 1) == Iterate(f, source, k + l);
  }

  /** The length of the path that the guard looks at. */
  function PathLength(source: string): nat {
    |NormalizePath(PathPart(source))|
  }

  /** Within one more step than its path has characters a chain has settled, or it has been sent to the fallback with
      the query it had. */
  lemma {:induction false} PathSettlesOrFallsBack(path: string, query: string, hasAuth: bool, o: Options)
    returns (k: nat)
    requires NoQuery(path) && IsQuery(query)
    ensures 1 <= k <= |NormalizePath(path)| + 1
    ensures || SettlesWithin(path + query, hasAuth, o, k)
            || Iterate(Step(hasAuth, o), path + query, k) == Fallback(hasAuth, o) + query
    decreases |NormalizePath(path)|
  {
    var f, source, next := Step(hasAuth, o), path + query, Decide(path, hasAuth, o);
    PathIsDecided(path, query, hasAuth, o);
    assert Iterate(f, source, 1) == f(Iterate(f, source, 0)) == next + query;
    OneRedirect(path, hasAuth, o);
    if next == Fallback(hasAuth, o) {
      k := 1;
    } else if next == NormalizePath(path) {
      PathIsDecided(next, query, hasAuth, o);
      SettledAtOnce(next + query, hasAuth, o, 0);
      SettlesLater(source, hasAuth, o, 1, 0);
      k := 1;
    } else {
      var rest := PathSettlesOrFallsBack(next, query, hasAuth, o);
      IterateAdds(f, source, 1, rest);
      if SettlesWithin(next + query, hasAuth, o, rest) {
        SettlesLater(source, hasAuth, o, 1, rest);
      }
      k := rest + 1;
    }
  }

  lemma SettlesOrFallsBack(source: string, hasAuth: bool, o: Options) returns (k: nat)
    ensures 1 <= k <= PathLength(source) + 1
    ensures || SettlesWithin(source, hasAuth, o, k)
            || Iterate(Step(hasAuth, o), source, k) == Fallback(hasAuth, o) + QueryPart(source)
  {
    QueryStartsWithMark(source);
    JoinOfParts(source);
    k := PathSettlesOrFallsBack(PathPart(source), QueryPart(source), hasAuth, o);
  }

  lemma SettlesEventually(source: string, hasAuth: bool, o: Options, n: nat, m: nat)
    requires SettlesWithin(source, hasAuth, o, n) && n <= m
    ensures SettlesWithin(source, hasAuth, o, m)
  {
    var k: nat :| k <= n && Iterate(Step(hasAuth, o), source, k + 1) == Iterate(Step(hasAuth, o), source, k);
    assert k <= m;
  }

  /** If the chain from the applicable fallback ends within m steps, every chain ends within m steps more than it takes
      to be sent there. */
  lemma ChainsFollowTheFallback(source: string, hasAuth: bool, o: Options, m: nat)
    requires SettlesWithin(Fallback(hasAuth, o), hasAuth, o, m)
    ensures SettlesWithin(source, hasAuth, o, PathLength(source) + 1 + m)
  {
    var k := SettlesOrFallsBack(source, hasAuth, o);
    if SettlesWithin(source, hasAuth, o, k) {
      SettlesEventually(source, hasAuth, o, k, PathLength(source) + 1 + m);
    } else {
      QueryStartsWithMark(source);
      SettlesWithQuery(Fallback(hasAuth, o), QueryPart(source), hasAuth, o, m);
      SettlesLater(source, hasAuth, o, k, m);
      SettlesEventually(source, hasAuth, o, k + m, PathLength(source) + 1 + m);
    }
  }

  /** Redirects converge: from every location, with the sign-in state fixed and an applicable fallback that the guard
      leaves alone, the loader stops redirecting after at most one more step than the path has characters. */
  lemma RedirectsConverge(source: string, hasAuth: bool, o: Options)
    requires NormalizedRoutePath(Fallback(hasAuth, o), hasAuth, o) == Fallback(hasAuth, o)
    ensures SettlesWithin(source, hasAuth, o, PathLength(source) + 1)
  {
    SettledAtOnce(Fallback(hasAuth, o), hasAuth, o, 0);
    ChainsFollowTheFallback(source, hasAuth, o, 0);
  }

  // ---- The exact condition -----------------------------------------------------------------------------

  ghost predicate Settles(source: string, hasAuth: bool, o: Options) {
    exists n: nat :: SettlesWithin(source, hasAuth, o, n)
  }

  /** A chain that has settled stays where it is. */
  lemma {:induction false} SettledStays<T>(f: T -> T, x: T, n: nat, m: nat)
    requires Iterate(f, x, n + 1) == Iterate(f, x, n) && n <= m
    ensures Iterate(f, x, m) == Iterate(f, x, n)
    decreases m
  {
    if n < m {
      SettledStays(f, x, n, m - 1);
    }
  }

  ghost predicate CarriesQueries(f: string -> string) {
    forall q, x :: IsQuery(q) ==> Carries(f, q, x)
  }

  /** One more lap of a chain that comes back to its start with more query. */
  lemma Lap(f: string -> string, start: string, query: string, k: nat, t: nat, grown: string)
    requires CarriesQueries(f) && IsQuery(grown)
    requires Iterate(f, start, k) == start + query && Iterate(f, start, t) == start + grown
    ensures Iterate(f, start, t + k) == start + query + grown
  {
    IterateAdds(f, start, t, k);
    assert forall x :: Carries(f, grown, x);
    SuffixIsCarriedAlong(f, start, grown, k);
  }

  /** After j laps at least j steps are done, and the start is extended by the query of all laps. */
  lemma {:induction false} Laps(f: string -> string, start: string, query: string, k: nat, j: nat)
    returns (t: nat, grown: string)
    requires CarriesQueries(f) && IsQuery(query) && k >= 1
    requires Iterate(f, start, k) == start + query
    ensures t >= j && IsQuery(grown) && (query == "" ==> grown == "")
    ensures Iterate(f, start, t) == start + grown
  {
    if j == 0 {
      t, grown := 0, "";
      assert start + "" == start;
    } else {
      var earlier, less := Laps(f, start, query, k, j - 1);
      Lap(f, start, query, k, earlier, less);
      t, grown := earlier + k, query + less;
      assert start + query + less == start + grown;
    }
  }

  /** Such a chain ends only if its start is a fixed point. */
  lemma CycleThatSettlesIsFixed(f: string -> string, start: string, query: string, k: nat, settled: nat)
    requires CarriesQueries(f) && IsQuery(query) && k >= 1
    requires Iterate(f, start, k) == start + query
    requires Iterate(f, start, settled + 1) == Iterate(f, start, settled)
    ensures f(start) == start
  {
    var t, grown := Laps(f, start, query, k, settled);
    Lap(f, start, query, k, t, grown);
    SettledStays(f, start, settled, t);
    SettledStays(f, start, settled, t + k);
    SettledStays(f, start, settled, t + 1);
    assert |start + grown| == |start + query + grown|;
    assert query == "" && grown == "";
    assert start + "" == start;
    assert Iterate(f, start, t + 1) == f(Iterate(f, start, t));
  }

  lemma StepCarriesQueries(hasAuth: bool, o: Options)
    ensures CarriesQueries(Step(hasAuth, o))
  {
    forall q, x | IsQuery(q)
      ensures Carries(Step(hasAuth, o), q, x)
    {
      StepCarries(hasAuth, o, q);
    }
  }

  /** The chain from the fallback ends if and only if it ends within one more step than its path has characters: after
      that it is back at its start, and a cycle that ends is a fixed point. */
  lemma FallbackSettlesSoonOrNever(hasAuth: bool, o: Options)
    ensures var fallback := Fallback(hasAuth, o);
            Settles(fallback, hasAuth, o) <==> SettlesWithin(fallback, hasAuth, o, PathLength(fallback) + 1)
  {
    var f, fallback := Step(hasAuth, o), Fallback(hasAuth, o);
    if Settles(fallback, hasAuth, o) {
      var n: nat :| SettlesWithin(fallback, hasAuth, o, n);
      var settled: nat :| settled <= n && Iterate(f, fallback, settled + 1) == Iterate(f, fallback, settled);
      var k := SettlesOrFallsBack(fallback, hasAuth, o);
      if SettlesWithin(fallback, hasAuth, o, k) {
        SettlesEventually(fallback, hasAuth, o, k, PathLength(fallback) + 1);
      } else {
        QueryStartsWithMark(fallback);
        StepCarriesQueries(hasAuth, o);
        CycleThatSettlesIsFixed(f, fallback, QueryPart(fallback), k, settled);
        SettledAtOnce(fallback, hasAuth, o, PathLength(fallback) + 1);
      }
    }
  }

  /** The exact condition: all chains end if and only if the one from the applicable fallback ends within one more step
      than its path has characters, which a caller can follow. */
  lemma AllSettleIffFallbackSettles(hasAuth: bool, o: Options)
    ensures var fallback := Fallback(hasAuth, o);
            (forall source :: Settles(source, hasAuth, o)) <==>
            SettlesWithin(fallback, hasAuth, o, PathLength(fallback) + 1)
  {
    var fallback := Fallback(hasAuth, o);
    FallbackSettlesSoonOrNever(hasAuth, o);
    if SettlesWithin(fallback, hasAuth, o, PathLength(fallback) + 1) {
      forall source
        ensures Settles(source, hasAuth, o)
      {
        ChainsFollowTheFallback(source, hasAuth, o, PathLength(fallback) + 1);
      }
    }
  }

  // ---- A fallback that is not stable -----------------------------------------------------------------

  /** Plain prefix matching, as the router does it for routes without parameters. */
  function PlainMatch(route: string, path: string, end: bool): Option<string> {
    if path == route || (!end && StartsWith(path, route + "/")) then Some(route) else None
  }

  const LOOPING := Options("/d", None, "/x/p/q", ["/p/q"], ["/p/q", "/q"], Some(["/x", "/p"]), PlainMatch)

  lemma PlainPrefix(path: string, rest: string, other: string)
    requires |path| == 2 && |other| == 2 && path[0] == other[0] == '/' && path[1] != other[1]
    ensures RoutePrefixLength(path + "/" + rest, path, LOOPING) == Some(2)
    ensures RoutePrefixLength(path + "/" + rest, other, LOOPING) == None
  {
    var whole := path + "/" + rest;
    assert whole[..3] == path + "/";
    assert whole != path && whole != other;
    assert (other + "/")[1] == other[1] && whole[..3][1] == path[1];
  }

  lemma PlainPath(path: string)
    requires path in {"/x/p/q", "/p/q", "/q"}
    ensures NormalizePath(path) == path && PathPart(path) == path && QueryPart(path) == ""
  {
    assert Trim(path) == path;
    PartsOfPath(path);
  }

  lemma LoopingPrefixes(path: string)
    ensures LongestPrefix(path, Prefixes(LOOPING), LOOPING) ==
            var x, p := RoutePrefixLength(path, "/x", LOOPING), RoutePrefixLength(path, "/p", LOOPING);
            var n := if x.Some? then x.value else 0;
            if p.Some? && p.value > n then p.value else n
  {
    var both, one := ["/x", "/p"], ["/x"];
    assert Prefixes(LOOPING) == both && both[..1] == one && one[..0] == [];
    assert both[1] == "/p" && one[0] == "/x";
    assert LongestPrefix(path, one[..0], LOOPING) == 0;
    var x := RoutePrefixLength(path, "/x", LOOPING);
    assert LongestPrefix(path, one, LOOPING) == if x.Some? then x.value else 0;
  }

  lemma LoopingIsKnown(path: string)
    ensures IsKnownRoute(path, LOOPING) <==> path == "/p/q" || path == "/q"
  {
    assert LOOPING.routes[0] == "/p/q" && LOOPING.routes[1] == "/q";
  }

  lemma LoopingRecovers()
    ensures Recover("/x/p/q", LOOPING) == Some("/p/q")
    ensures Recover("/p/q", LOOPING) == Some("/q")
  {
    PlainPath("/p/q");
    PlainPath("/q");
    assert "/x" + "/" + "p/q" == "/x/p/q" && "/p" + "/" + "q" == "/p/q";
    PlainPrefix("/x", "p/q", "/p");
    PlainPrefix("/p", "q", "/x");
    LoopingPrefixes("/x/p/q");
    LoopingPrefixes("/p/q");
    LoopingIsKnown("/p/q");
    LoopingIsKnown("/q");
    assert "/x/p/q"[2..] == "/p/q" && "/p/q"[2..] == "/q";
  }

  lemma GuestDecision(path: string, recovered: string)
    requires path in {"/x/p/q", "/p/q"} && Recover(path, LOOPING) == Some(recovered)
    ensures NormalizedRoutePath(path, false, LOOPING) == if Allowed(recovered, false, LOOPING) then recovered
                                                         else "/x/p/q"
  {
    PlainPath(path);
    assert NormalizedRoutePath(path, false, LOOPING) == Decide(path, false, LOOPING) + "";
  }

  /** A guest fallback below two nested prefixes: the guard sends it to /p/q and sends that back. */
  lemma UnstableFallbackLoops()
    ensures NormalizedRoutePath("/x/p/q", false, LOOPING) == "/p/q"
    ensures NormalizedRoutePath("/p/q", false, LOOPING) == "/x/p/q"
  {
    LoopingRecovers();
    LoopingIsKnown("/p/q");
    assert |"/q"| != |"/p/q"|;
    assert LOOPING.publicRoutes == ["/p/q"];
    assert Allowed("/p/q", false, LOOPING) && !Allowed("/q", false, LOOPING);
    GuestDecision("/x/p/q", "/p/q");
    GuestDecision("/p/q", "/q");
  }

  lemma {:induction false} TwoCycle(f: string -> string, a: string, b: string, n: nat)
    requires f(a) == b && f(b) == a
    ensures Iterate(f, a, n) == if n % 2 == 0 then a else b
  {
    if n > 0 {
      TwoCycle(f, a, b, n - 1);
    }
  }

  /** So every redirect from the one is followed by a redirect from the other, for ever. */
  lemma UnstableFallbackNeverSettles(n: nat)
    ensures !SettlesWithin(Fallback(false, LOOPING), false, LOOPING, n)
  {
    UnstableFallbackLoops();
    var f := Step(false, LOOPING);
    forall k: nat | k <= n
      ensures Iterate(f, "/x/p/q", k + 1) != Iterate(f, "/x/p/q", k)
    {
      TwoCycle(f, "/x/p/q", "/p/q", k);
      TwoCycle(f, "/x/p/q", "/p/q", k + 1);
      assert |"/x/p/q"| != |"/p/q"|;
    }
  }
}
