/**
 reachable_components of backend/rust/crates/api-contract/src/operations.rs: the
 traversal from all roots marks exactly the components that are reached, where
 no security scheme is both required and pointed into.
 */
module ComponentSweep {
  import opened Wrappers
  import opened JsonPointer
  import opened Reachability
  import opened ComponentGraph
  import opened ComponentTraversal

  // ---- Mark ------------------------------------------------------------------------------------

  /** keep is the mark. */
  ghost predicate IsMark(contract: Contract, keep: set<Key>) {
    forall key :: key in keep <==> contract.Reaches(key)
  }

  /** Every marked component is reached. */
  ghost predicate MarksReached(contract: Contract, keep: set<Key>) {
    forall key :: key in keep ==> contract.Reaches(key)
  }

  /** The marked places, and the required schemes to which a reference is marked. */
  ghost function WithSchemes(contract: Contract, marked: set<Link>): set<Link> {
    marked + set l | l in marked && IsSchemeReference(l) :: Scheme(KeyOf(l).value.name)
  }

  ghost predicate IsSchemeReference(l: Link) {
    l.Ref? && IsWhole(l.reference) && KeyOf(l).Some? && KeyOf(l).value.kind == "securitySchemes"
  }

  /** A whole reference to a scheme has the successors of the scheme. */
  lemma SchemeSharesSuccessors(contract: Contract, l: Link)
    requires contract.Consistent() && IsSchemeReference(l) && contract.Out(l).Some?
    ensures contract.Out(Scheme(KeyOf(l).value.name)) == contract.Out(l)
  {
    WholeReferenceIsEntry(contract, l.reference);
  }

  /** A reached place that is covered is marked, or is a scheme to which a whole reference is marked. */
  lemma CoveredIsHeld(contract: Contract, marked: set<Link>, l: Link)
    requires contract.SchemesAreWhole() && contract.Roots().Some?
    requires forall a :: a in marked ==> contract.From(contract.Roots().value, a)
    requires contract.From(contract.Roots().value, l) && Covered(AlsoMarked(), marked, l)
    ensures l in WithSchemes(contract, marked)
  {
    if l !in marked {
      var n :| n in marked && l in AlsoMarked()(n);
      assert contract.Follows(n.reference) && Names(n, l.name);
      assert IsSchemeReference(n);
    }
  }

  /** Where no required scheme is pointed into, all successors of what is held are held. */
  lemma HeldIsClosed(contract: Contract, marked: set<Link>)
    requires contract.Consistent() && contract.SchemesAreWhole()
    requires Outcome(OutOf(contract), AlsoMarked(), {}, marked, contract.Roots(), true)
    ensures contract.Roots().value <= WithSchemes(contract, marked)
            && Closed(OutOf(contract), WithSchemes(contract, marked))
  {
    var out, roots, held := OutOf(contract), contract.Roots().value, WithSchemes(contract, marked);
    forall l | l in roots
      ensures l in held
    {
      StartIsReached(out, roots, l);
      CoveredIsHeld(contract, marked, l);
    }
    forall l | l in held
      ensures contract.Out(l).Some? && contract.Out(l).value <= held
    {
      var source: Link :| source in marked
                          && (l == source || (IsSchemeReference(source) && l == Scheme(KeyOf(source).value.name)));
      assert Expanded(out, AlsoMarked(), marked, source);
      if l != source {
        SchemeSharesSuccessors(contract, source);
      }
      forall b | b in contract.Out(l).value
        ensures b in held
      {
        assert Covered(AlsoMarked(), marked, b);
        SuccessorIsReached(out, roots, source, b);
        CoveredIsHeld(contract, marked, b);
      }
    }
  }

  /** What a finished traversal from all roots has established. Whatever it marked is reached; where no required scheme
      is pointed into, everything reached is marked and sound. */
  lemma TraversalIsExact(contract: Contract, visited: set<string>, entered: set<string>, reachable: set<Key>)
    requires contract.Consistent() && KeysAreMarked(visited, entered, reachable)
    requires Outcome(OutOf(contract), AlsoMarked(), {}, Marked(visited, entered), contract.Roots(), true)
    ensures MarksReached(contract, reachable)
    ensures contract.SchemesAreWhole() ==> contract.Sound() && IsMark(contract, reachable)
  {
    var out, roots, marked := OutOf(contract), contract.Roots().value, Marked(visited, entered);
    forall key | key in reachable
      ensures contract.Reaches(key)
    {
      var l :| l in marked && KeyOf(l) == Some(key);
      assert contract.From(roots, l);
    }
    if contract.SchemesAreWhole() {
      HeldIsClosed(contract, marked);
      forall l | contract.From(roots, l)
        ensures contract.Out(l).Some? && (KeyOf(l).Some? ==> KeyOf(l).value in reachable)
      {
        ReachedIsLeast(out, roots, WithSchemes(contract, marked), l);
        assert contract.Out(l) == out(l);
      }
    }
  }

  lemma FailedTraversal(contract: Contract)
    requires Fails(OutOf(contract), contract.Roots())
    ensures !contract.Sound()
  {
    if contract.Roots().Some? {
      var l :| Reached(OutOf(contract), contract.Roots().value, l) && contract.Out(l).None?;
    }
  }

  function ResponseLinks(keys: set<Key>): set<Link> {
    set key | key in keys :: Ref(ResponseReference(key.name))
  }

  /** The traversal of all roots, in the source's order. */
  method VisitRoots(traversal: Traversal) returns (ok: bool)
    requires traversal.Valid() && traversal.Nodes() == {}
    modifies traversal
    ensures Outcome(OutOf(traversal.contract), AlsoMarked(), {}, traversal.Nodes(), traversal.contract.Roots(), ok)
    ensures traversal.Valid()
  {
    var contract := traversal.contract;
    ghost var out, also := OutOf(contract), AlsoMarked();
    var paths := Get(contract.document, "paths");
    if paths.None? {
      return false;
    }
    FieldTexts(contract.document, "paths");
    FieldTexts(contract.document, "webhooks");
    FieldTexts(contract.document, "security");
    ok := traversal.VisitExtensibleMap(paths.value);
    ghost var first, pathLinks := traversal.Nodes(), ScanExtensibleMap(paths.value);
    if !ok {
      FailsInJoin(out, pathLinks, contract.WebhookLinks());
      FailsInJoin(out, Join(pathLinks, contract.WebhookLinks()), contract.SecurityLinks());
      FailsInJoin(out, Join(Join(pathLinks, contract.WebhookLinks()), contract.SecurityLinks()),
                  Some(contract.ResponseRoots()));
      return;
    }
    ok := VisitWebhooks(traversal);
    ghost var second := traversal.Nodes();
    VisitsCompose(out, also, {}, first, second, pathLinks, contract.WebhookLinks(), ok);
    if !ok {
      FailsInJoin(out, Join(pathLinks, contract.WebhookLinks()), contract.SecurityLinks());
      FailsInJoin(out, Join(Join(pathLinks, contract.WebhookLinks()), contract.SecurityLinks()),
                  Some(contract.ResponseRoots()));
      return;
    }
    ok := VisitTopSecurity(traversal);
    ghost var third := traversal.Nodes();
    VisitsCompose(out, also, {}, second, third, Join(pathLinks, contract.WebhookLinks()), contract.SecurityLinks(), ok);
    if !ok {
      FailsInJoin(out, Join(Join(pathLinks, contract.WebhookLinks()), contract.SecurityLinks()),
                  Some(contract.ResponseRoots()));
      return;
    }
    ok := VisitResponses(traversal);
    VisitsCompose(out, also, {}, third, traversal.Nodes(),
                  Join(Join(pathLinks, contract.WebhookLinks()), contract.SecurityLinks()),
                  Some(contract.ResponseRoots()), ok);
  }

  method VisitWebhooks(traversal: Traversal) returns (ok: bool)
    requires traversal.Valid()
    modifies traversal
    ensures traversal.Valid()
    ensures Outcome(OutOf(traversal.contract), AlsoMarked(), old(traversal.Nodes()), traversal.Nodes(),
                    traversal.contract.WebhookLinks(), ok)
  {
    var webhooks := Get(traversal.contract.document, "webhooks");
    if webhooks.None? {
      NothingToVisit(OutOf(traversal.contract), AlsoMarked(), traversal.Nodes());
      return true;
    }
    FieldTexts(traversal.contract.document, "webhooks");
    ok := traversal.VisitExtensibleMap(webhooks.value);
  }

  method VisitTopSecurity(traversal: Traversal) returns (ok: bool)
    requires traversal.Valid()
    modifies traversal
    ensures traversal.Valid()
    ensures Outcome(OutOf(traversal.contract), AlsoMarked(), old(traversal.Nodes()), traversal.Nodes(),
                    traversal.contract.SecurityLinks(), ok)
  {
    var security := Get(traversal.contract.document, "security");
    if security.None? {
      NothingToVisit(OutOf(traversal.contract), AlsoMarked(), traversal.Nodes());
      return true;
    }
    FieldTexts(traversal.contract.document, "security");
    ok := traversal.VisitSecurity(security.value);
  }

  lemma ResponseVisited(out: Successors<Link>, also: Companions<Link>, before: set<Link>, mid: set<Link>,
                        after: set<Link>, all: set<Key>, todo: set<Key>, key: Key, ok: bool)
    requires todo <= all && key in todo
    requires Outcome(out, also, before, mid, Some(ResponseLinks(all - todo)), true)
    requires Outcome(out, also, mid, after, Some({Ref(ResponseReference(key.name))}), ok)
    ensures Outcome(out, also, before, after, Some(ResponseLinks(if ok then all - (todo - {key}) else all)), ok)
  {
    var done, next := ResponseLinks(all - todo), {Ref(ResponseReference(key.name))};
    VisitsCompose(out, also, before, mid, after, Some(done), Some(next), ok);
    assert ResponseLinks(all - (todo - {key})) == done + next;
    if !ok {
      FailsInJoin(out, Some(done + next), Some(ResponseLinks(all)));
      assert done + next + ResponseLinks(all) == ResponseLinks(all);
    }
  }

  /** Every registered response is a root of its own. */
  method VisitResponses(traversal: Traversal) returns (ok: bool)
    requires traversal.Valid()
    modifies traversal
    ensures traversal.Valid()
    ensures Outcome(OutOf(traversal.contract), AlsoMarked(), old(traversal.Nodes()), traversal.Nodes(),
                    Some(traversal.contract.ResponseRoots()), ok)
  {
    var contract := traversal.contract;
    ghost var out, also, before := OutOf(contract), AlsoMarked(), traversal.Nodes();
    var all := set key | key in contract.inventory && key.kind == "responses";
    assert ResponseLinks(all) == contract.ResponseRoots();
    var todo := all;
    NothingToVisit(out, also, before);
    assert ResponseLinks(all - todo) == {};
    while todo != {}
      invariant todo <= all
      invariant traversal.Valid()
      invariant Outcome(out, also, before, traversal.Nodes(), Some(ResponseLinks(all - todo)), true)
      decreases |todo|
    {
      KeySetInhabited(todo);
      var key :| key in todo;
      ghost var mid := traversal.Nodes();
      ok := traversal.VisitReference(ResponseReference(key.name));
      ResponseVisited(out, also, before, mid, traversal.Nodes(), all, todo, key, ok);
      if !ok {
        return;
      }
      todo := todo - {key};
    }
    assert all - todo == all;
    return true;
  }

  lemma KeySetInhabited(s: set<Key>)
    ensures s == {} || exists key :: key in s
  {
    if forall key :: key !in s {
      assert s == {};
    }
  }

  /** reachable_components: what it returns is reached, and it fails only if something reachable is malformed,
      unresolved, external or unknown. Where no required scheme is pointed into, the converses hold too. */
  method ReachableComponents(contract: Contract) returns (result: Option<set<Key>>)
    requires contract.Consistent()
    ensures result.None? ==> !contract.Sound()
    ensures result.Some? ==> result.value <= contract.inventory && MarksReached(contract, result.value)
    ensures contract.SchemesAreWhole() ==> (result.Some? <==> contract.Sound())
    ensures contract.SchemesAreWhole() && result.Some? ==> IsMark(contract, result.value)
  {
    var traversal := new Traversal(contract);
    var ok := VisitRoots(traversal);
    if !ok {
      FailedTraversal(contract);
      return None;
    }
    TraversalIsExact(contract, traversal.visited, traversal.entered, traversal.reachable);
    return Some(traversal.reachable);
  }
}
