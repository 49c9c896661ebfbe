/**
 canonical_value of backend/rust/crates/analytics/src/event.rs: the form in
 which a payload is hashed. Two payloads have the same canonical form exactly
 when they are the same JSON value up to the order of object members.
 */
module CanonicalJson {
  import opened JsonPointer
  import opened DailyTotals

  /** BTreeMap::insert. */
  function InsertMember(members: seq<Member>, m: Member): (r: seq<Member>) {
    if members == [] || TextLess(m.name, members[0].name) then [m] + members
    else if members[0].name == m.name then [m] + members[1..]
    else [members[0]] + InsertMember(members[1..], m)
  }

  function SortMembers(members: seq<Member>): seq<Member> {
    if members == [] then [] else InsertMember(SortMembers(members[..|members| - 1]), members[|members| - 1])
  }

  function Canonical(v: Json): Json
    decreases v, 1
  {
    match v
    case Array(items) => Array(seq(|items|, i requires 0 <= i < |items| => Canonical(items[i])))
    case Object(members) => Object(SortMembers(CanonicalMembers(v)))
    case _ => v
  }

  function CanonicalMembers(v: Json): (r: seq<Member>)
    requires v.Object?
    ensures |r| == |v.members|
    decreases v, 0
  {
    seq(|v.members|, i requires 0 <= i < |v.members| => Member(v.members[i].name, Canonical(v.members[i].value)))
  }

  predicate DistinctNames(members: seq<Member>) {
    forall i, j :: 0 <= i < j < |members| ==> members[i].name != members[j].name
  }

  /** A parsed value: no object repeats a name, at any depth. */
  ghost predicate Parsed(v: Json) {
    match v
    case Array(items) => forall i :: 0 <= i < |items| ==> Parsed(items[i])
    case Object(members) => DistinctNames(members) && forall i :: 0 <= i < |members| ==> Parsed(members[i].value)
    case _ => true
  }

  /** The same JSON value: objects are compared by name, whatever the order of their members. */
  ghost predicate Same(v: Json, w: Json)
    decreases v, 2
  {
    match v
    case Array(items) =>
      && w.Array? && |items| == |w.items|
      && forall i :: 0 <= i < |items| ==> Same(items[i], w.items[i])
    case Object(members) =>
      && w.Object?
      && (forall i :: 0 <= i < |members| ==> HasCounterpart(v, i, w))
      && (forall j :: 0 <= j < |w.members| ==> IsCounterpart(v, w, j))
    case _ => v == w
  }

  ghost predicate SameMember(v: Json, i: int, w: Json, j: int)
    requires v.Object? && w.Object? && 0 <= i < |v.members| && 0 <= j < |w.members|
    decreases v, 0
  {
    v.members[i].name == w.members[j].name && Same(v.members[i].value, w.members[j].value)
  }

  ghost predicate HasCounterpart(v: Json, i: int, w: Json)
    requires v.Object? && w.Object? && 0 <= i < |v.members|
    decreases v, 1
  {
    exists j :: 0 <= j < |w.members| && SameMember(v, i, w, j)
  }

  ghost predicate IsCounterpart(v: Json, w: Json, j: int)
    requires v.Object? && w.Object? && 0 <= j < |w.members|
    decreases v, 1
  {
    exists i :: 0 <= i < |v.members| && SameMember(v, i, w, j)
  }

  // ---- Sorting -------------------------------------------------------------------------------

  ghost predicate Sorted(members: seq<Member>) {
    forall i, j :: 0 <= i < j < |members| ==> TextLess(members[i].name, members[j].name)
  }

  lemma {:induction false} InsertKeepsSorted(members: seq<Member>, m: Member)
    requires Sorted(members) && forall i :: 0 <= i < |members| ==> members[i].name != m.name
    ensures Sorted(InsertMember(members, m))
    ensures forall x :: x in InsertMember(members, m) <==> x in members || x == m
  {
    if members != [] {
      var head, tail := members[0], members[1..];
      TextOrderIsTotal(m.name, head.name);
      if TextLess(m.name, head.name) {
        forall i | 0 <= i < |members|
          ensures TextLess(m.name, members[i].name)
        {
          if i > 0 {
            TextOrderIsTransitive(m.name, head.name, members[i].name);
          }
        }
      } else {
        InsertKeepsSorted(tail, m);
        var rest := InsertMember(tail, m);
        forall j | 0 <= j < |rest|
          ensures TextLess(head.name, rest[j].name)
        {
          assert rest[j] in tail || rest[j] == m;
          if rest[j] in tail {
            var k :| 0 <= k < |tail| && tail[k] == rest[j];
            assert members[k + 1] == rest[j];
          }
        }
      }
    }
  }

  lemma {:induction false} SortSorts(members: seq<Member>)
    requires DistinctNames(members)
    ensures Sorted(SortMembers(members))
    ensures forall x :: x in SortMembers(members) <==> x in members
  {
    if members != [] {
      var init, last := members[..|members| - 1], members[|members| - 1];
      SortSorts(init);
      var sorted := SortMembers(init);
      forall i | 0 <= i < |sorted|
        ensures sorted[i].name != last.name
      {
        assert sorted[i] in init;
      }
      InsertKeepsSorted(sorted, last);
      assert members == init + [last];
    }
  }

  /** Two sorted lists of the same members are equal. */
  lemma {:induction false} SortedIsUnique(a: seq<Member>, b: seq<Member>)
    requires Sorted(a) && Sorted(b) && forall x :: x in a <==> x in b
    ensures a == b
  {
    assert forall x :: x in a ==> x in b;
    assert forall x :: x in b ==> x in a;
    if a != [] && b != [] {
      assert a[0] in b && b[0] in a;
      FirstsAreEqual(a, b);
      forall x
        ensures x in a[1..] <==> x in b[1..]
      {
        HeadIsNotInTail(a, x);
        HeadIsNotInTail(b, x);
      }
      SortedIsUnique(a[1..], b[1..]);
      assert a == [a[0]] + a[1..] && b == [b[0]] + b[1..];
    } else {
      EmptyTogether(a, b);
    }
  }

  lemma EmptyTogether(a: seq<Member>, b: seq<Member>)
    requires forall x :: x in a <==> x in b
    ensures a == [] <==> b == []
  {
    assert a != [] ==> a[0] in a;
    assert b != [] ==> b[0] in b;
  }

  lemma FirstsAreEqual(a: seq<Member>, b: seq<Member>)
    requires Sorted(a) && Sorted(b) && a != [] && b != [] && a[0] in b && b[0] in a
    ensures a[0] == b[0]
  {
    var i :| 0 <= i < |a| && a[i] == b[0];
    var j :| 0 <= j < |b| && b[j] == a[0];
    TextOrderIsTotal(a[0].name, b[0].name);
  }

  lemma HeadIsNotInTail(a: seq<Member>, x: Member)
    requires Sorted(a) && a != []
    ensures x in a[1..] <==> x in a && x != a[0]
  {
    if x in a[1..] {
      var k :| 0 <= k < |a[1..]| && a[1..][k] == x;
      TextOrderIsTotal(a[0].name, a[k + 1].name);
    }
    if x in a && x != a[0] {
      var k :| 0 <= k < |a| && a[k] == x;
      assert a[1..][k - 1] == x;
    }
  }

  // ---- Canonical forms -------------------------------------------------------------------------

  lemma CanonicalSorts(v: Json)
    requires Parsed(v) && v.Object?
    ensures Sorted(Canonical(v).members)
    ensures forall x :: x in Canonical(v).members <==> x in CanonicalMembers(v)
  {
    assert DistinctNames(CanonicalMembers(v)) by {
      forall i, j | 0 <= i < j < |v.members|
        ensures CanonicalMembers(v)[i].name != CanonicalMembers(v)[j].name
      {
        assert v.members[i].name != v.members[j].name;
      }
    }
    SortSorts(CanonicalMembers(v));
  }

  /** Equal canonical forms, exactly for values that are the same up to member order. */
  lemma {:induction false} CanonicalIffSame(v: Json, w: Json)
    requires Parsed(v) && Parsed(w)
    ensures Canonical(v) == Canonical(w) <==> Same(v, w)
    decreases v
  {
    if v.Array? && w.Array? {
      ArraysCanonicalIffSame(v, w);
    } else if v.Object? && w.Object? {
      ObjectsCanonicalIffSame(v, w);
    }
  }

  lemma {:induction false} ArraysCanonicalIffSame(v: Json, w: Json)
    requires Parsed(v) && Parsed(w) && v.Array? && w.Array?
    ensures Canonical(v) == Canonical(w) <==> Same(v, w)
    decreases v, 0
  {
    var a, b := Canonical(v).items, Canonical(w).items;
    if |v.items| == |w.items| {
      forall i | 0 <= i < |v.items|
        ensures a[i] == b[i] <==> Same(v.items[i], w.items[i])
      {
        CanonicalIffSame(v.items[i], w.items[i]);
      }
      assert a == b <==> forall i :: 0 <= i < |a| ==> a[i] == b[i];
    } else {
      assert |a| != |b|;
    }
  }

  /** The canonical members of v all occur among those of w. */
  ghost predicate Covers(v: Json, w: Json)
    requires v.Object? && w.Object?
  {
    forall i :: 0 <= i < |v.members| ==> CanonicalMembers(v)[i] in CanonicalMembers(w)
  }

  lemma EqualIffCovers(v: Json, w: Json)
    requires Parsed(v) && Parsed(w) && v.Object? && w.Object?
    ensures Canonical(v) == Canonical(w) <==> Covers(v, w) && Covers(w, v)
  {
    CanonicalSorts(v);
    CanonicalSorts(w);
    if Covers(v, w) && Covers(w, v) {
      SortedIsUnique(Canonical(v).members, Canonical(w).members);
    }
    if Canonical(v) == Canonical(w) {
      forall i | 0 <= i < |v.members|
        ensures CanonicalMembers(v)[i] in CanonicalMembers(w)
      {
        assert CanonicalMembers(v)[i] in Canonical(v).members;
      }
      forall i | 0 <= i < |w.members|
        ensures CanonicalMembers(w)[i] in CanonicalMembers(v)
      {
        assert CanonicalMembers(w)[i] in Canonical(w).members;
      }
    }
  }

  /** Each member of v has its counterpart in w. */
  ghost predicate Within(v: Json, w: Json)
    requires v.Object? && w.Object?
  {
    forall i :: 0 <= i < |v.members| ==> HasCounterpart(v, i, w)
  }

  ghost predicate Contains(v: Json, w: Json)
    requires v.Object? && w.Object?
  {
    forall j :: 0 <= j < |w.members| ==> IsCounterpart(v, w, j)
  }

  /** Canonical members are equal exactly when the members are the same. */
  ghost predicate Agree(v: Json, w: Json)
    requires v.Object? && w.Object?
  {
    forall i, j :: 0 <= i < |v.members| && 0 <= j < |w.members| ==>
                     (CanonicalMembers(v)[i] == CanonicalMembers(w)[j] <==> SameMember(v, i, w, j))
  }

  lemma CoversIffWithin(v: Json, w: Json)
    requires v.Object? && w.Object? && Agree(v, w)
    ensures Covers(v, w) <==> Within(v, w)
  {
    forall i | 0 <= i < |v.members|
      ensures CanonicalMembers(v)[i] in CanonicalMembers(w) <==> HasCounterpart(v, i, w)
    {
      if CanonicalMembers(v)[i] in CanonicalMembers(w) {
        var j :| 0 <= j < |w.members| && CanonicalMembers(w)[j] == CanonicalMembers(v)[i];
        assert SameMember(v, i, w, j);
      }
      if j :| 0 <= j < |w.members| && SameMember(v, i, w, j) {
        assert CanonicalMembers(v)[i] == CanonicalMembers(w)[j];
      }
    }
  }

  lemma CoversIffContains(v: Json, w: Json)
    requires v.Object? && w.Object? && Agree(v, w)
    ensures Covers(w, v) <==> Contains(v, w)
  {
    forall j | 0 <= j < |w.members|
      ensures CanonicalMembers(w)[j] in CanonicalMembers(v) <==> IsCounterpart(v, w, j)
    {
      if CanonicalMembers(w)[j] in CanonicalMembers(v) {
        var i :| 0 <= i < |v.members| && CanonicalMembers(v)[i] == CanonicalMembers(w)[j];
        assert SameMember(v, i, w, j);
      }
      if i :| 0 <= i < |v.members| && SameMember(v, i, w, j) {
        assert CanonicalMembers(v)[i] == CanonicalMembers(w)[j];
      }
    }
  }

  lemma {:induction false} ObjectsCanonicalIffSame(v: Json, w: Json)
    requires Parsed(v) && Parsed(w) && v.Object? && w.Object?
    ensures Canonical(v) == Canonical(w) <==> Same(v, w)
    decreases v, 0
  {
    forall i, j | 0 <= i < |v.members| && 0 <= j < |w.members|
      ensures CanonicalMembers(v)[i] == CanonicalMembers(w)[j] <==> SameMember(v, i, w, j)
    {
      CanonicalIffSame(v.members[i].value, w.members[j].value);
    }
    EqualIffCovers(v, w);
    CoversIffWithin(v, w);
    CoversIffContains(v, w);
    assert Same(v, w) <==> Within(v, w) && Contains(v, w);
  }

  lemma SortedIsDistinct(members: seq<Member>)
    requires Sorted(members)
    ensures DistinctNames(members)
  {
    forall i, j | 0 <= i < j < |members|
      ensures members[i].name != members[j].name
    {
      TextOrderIsTotal(members[i].name, members[j].name);
    }
  }

  /** The canonical form is a parsed value and the same value. */
  lemma {:induction false} CanonicalIsTheSame(v: Json)
    requires Parsed(v)
    ensures Parsed(Canonical(v)) && Same(v, Canonical(v))
    decreases v, 1
  {
    match v
    case Array(items) =>
      forall i | 0 <= i < |items|
        ensures Parsed(Canonical(v).items[i]) && Same(items[i], Canonical(v).items[i])
      {
        CanonicalIsTheSame(items[i]);
      }
    case Object(members) => CanonicalObjectIsTheSame(v);
    case _ =>
  }

  lemma {:induction false} CanonicalObjectIsTheSame(v: Json)
    requires Parsed(v) && v.Object?
    ensures Parsed(Canonical(v)) && Same(v, Canonical(v))
    decreases v, 0
  {
    var c := Canonical(v);
    CanonicalSorts(v);
    SortedIsDistinct(c.members);
    forall i | 0 <= i < |v.members|
      ensures Parsed(Canonical(v.members[i].value)) && HasCounterpart(v, i, c)
    {
      CanonicalIsTheSame(v.members[i].value);
      assert CanonicalMembers(v)[i] in c.members;
      var j :| 0 <= j < |c.members| && c.members[j] == CanonicalMembers(v)[i];
      assert SameMember(v, i, c, j);
    }
    forall j | 0 <= j < |c.members|
      ensures Parsed(c.members[j].value) && IsCounterpart(v, c, j)
    {
      assert c.members[j] in CanonicalMembers(v);
      var i :| 0 <= i < |v.members| && CanonicalMembers(v)[i] == c.members[j];
      CanonicalIsTheSame(v.members[i].value);
      assert SameMember(v, i, c, j);
    }
  }

  /** Canonicalising twice is canonicalising once. */
  lemma CanonicalIsIdempotent(v: Json)
    requires Parsed(v)
    ensures Canonical(Canonical(v)) == Canonical(v)
  {
    CanonicalIsTheSame(v);
    CanonicalIffSame(v, Canonical(v));
  }
}
