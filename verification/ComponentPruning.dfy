/**
 prune_unreachable_components and ensure_all_components_are_reachable of
 backend/rust/crates/api-contract/src/operations.rs: the sweep after the mark.
 */
module ComponentPruning {
  import opened Wrappers
  import opened Strings
  import opened JsonPointer
  import opened Reachability
  import opened ComponentGraph
  import opened ComponentTraversal
  import opened ComponentSweep

  // ---- Sweeping ------------------------------------------------------------------------------

  function KeepEntries(kind: string, entries: seq<Member>, keep: set<Key>): seq<Member> {
    if entries == [] then []
    else if Key(kind, entries[0].name) in keep then [entries[0]] + KeepEntries(kind, entries[1..], keep)
    else KeepEntries(kind, entries[1..], keep)
  }

  function SweepKind(kind: Member, keep: set<Key>): Member {
    if kind.name in KINDS && kind.value.Object? then
      Member(kind.name, Object(KeepEntries(kind.name, kind.value.members, keep)))
    else kind
  }

  function SweepKinds(kinds: seq<Member>, keep: set<Key>): seq<Member> {
    if kinds == [] then [] else [SweepKind(kinds[0], keep)] + SweepKinds(kinds[1..], keep)
  }

  function SweepField(field: Member, keep: set<Key>): Member {
    if field.name == "components" && field.value.Object? then
      Member(field.name, Object(SweepKinds(field.value.members, keep)))
    else field
  }

  function SweepFields(fields: seq<Member>, keep: set<Key>): seq<Member> {
    if fields == [] then [] else [SweepField(fields[0], keep)] + SweepFields(fields[1..], keep)
  }

  /** The document with only these components left. */
  function Swept(document: Json, keep: set<Key>): Json {
    if document.Object? then Object(SweepFields(document.members, keep)) else document
  }

  // ---- What the sweep leaves ----------------------------------------------------------------------

  lemma {:induction false} KeptLookup(kind: string, entries: seq<Member>, keep: set<Key>, name: string)
    ensures Lookup(KeepEntries(kind, entries, keep), name) == if Key(kind, name) in keep then Lookup(entries, name)
                                                              else None
  {
    if entries != [] {
      KeptLookup(kind, entries[1..], keep, name);
      var rest := KeepEntries(kind, entries[1..], keep);
      assert ([entries[0]] + rest)[1..] == rest;
    }
  }

  lemma {:induction false} SweptKindLookup(kinds: seq<Member>, keep: set<Key>, kind: string)
    ensures Lookup(SweepKinds(kinds, keep), kind)
         == if Lookup(kinds, kind).Some? then Some(SweepKind(Member(kind, Lookup(kinds, kind).value), keep).value)
            else None
  {
    if kinds != [] {
      SweptKindLookup(kinds[1..], keep, kind);
      var rest := SweepKinds(kinds[1..], keep);
      assert ([SweepKind(kinds[0], keep)] + rest)[1..] == rest;
    }
  }

  lemma {:induction false} SweptFieldLookup(fields: seq<Member>, keep: set<Key>, name: string)
    ensures Lookup(SweepFields(fields, keep), name)
         == if Lookup(fields, name).Some? then Some(SweepField(Member(name, Lookup(fields, name).value), keep).value)
            else None
  {
    if fields != [] {
      SweptFieldLookup(fields[1..], keep, name);
      var rest := SweepFields(fields[1..], keep);
      assert ([SweepField(fields[0], keep)] + rest)[1..] == rest;
    }
  }

  /** Outside the components nothing changes. */
  lemma OtherFieldsStay(document: Json, keep: set<Key>, name: string)
    requires name != "components"
    ensures Get(Swept(document, keep), name) == Get(document, name)
  {
    if document.Object? {
      SweptFieldLookup(document.members, keep, name);
    }
  }

  /** A kept component keeps its value. */
  lemma KeptEntryStays(document: Json, keep: set<Key>, kind: string, name: string)
    requires kind in KINDS && Key(kind, name) in keep
    ensures Entry(Swept(document, keep), kind, name) == Entry(document, kind, name)
  {
    if document.Object? {
      SweptFieldLookup(document.members, keep, "components");
      var components := Get(document, "components");
      if components.Some? && components.value.Object? {
        SweptKindLookup(components.value.members, keep, kind);
        var entries := Get(components.value, kind);
        if entries.Some? && entries.value.Object? {
          KeptLookup(kind, entries.value.members, keep, name);
        }
      }
    }
  }

  lemma {:induction false} KeptKeys(kind: string, entries: seq<Member>, keep: set<Key>)
    ensures EntryKeys(kind, KeepEntries(kind, entries, keep)) == EntryKeys(kind, entries) * keep
  {
    if entries == [] {
      assert EntryKeys(kind, entries) == {};
    } else {
      KeptKeys(kind, entries[1..], keep);
      EntryKeysStep(kind, entries);
      if Key(kind, entries[0].name) in keep {
        var kept := KeepEntries(kind, entries, keep);
        assert kept[1..] == KeepEntries(kind, entries[1..], keep);
        EntryKeysStep(kind, kept);
      }
    }
  }

  lemma EntryKeysStep(kind: string, entries: seq<Member>)
    requires entries != []
    ensures EntryKeys(kind, entries) == {Key(kind, entries[0].name)} + EntryKeys(kind, entries[1..])
  {
    forall key | key in EntryKeys(kind, entries)
      ensures key in {Key(kind, entries[0].name)} + EntryKeys(kind, entries[1..])
    {
      var i :| 0 <= i < |entries| && key == Key(kind, entries[i].name);
      assert i > 0 ==> entries[i] == entries[1..][i - 1];
    }
    forall key | key in EntryKeys(kind, entries[1..])
      ensures key in EntryKeys(kind, entries)
    {
      var i :| 0 <= i < |entries[1..]| && key == Key(kind, entries[1..][i].name);
      assert entries[i + 1] == entries[1..][i];
    }
  }

  lemma {:induction false} SweptInventoryOf(kinds: seq<Member>, keep: set<Key>)
    requires InventoryOf(kinds).Some?
    ensures InventoryOf(SweepKinds(kinds, keep)) == Some(InventoryOf(kinds).value * keep)
  {
    if kinds != [] {
      var first, rest := SweepKind(kinds[0], keep), SweepKinds(kinds[1..], keep);
      SweptInventoryOf(kinds[1..], keep);
      assert ([first] + rest)[1..] == rest;
      if !StartsWith(kinds[0].name, "x-") {
        KeptKeys(kinds[0].name, kinds[0].value.members, keep);
        var keys, others := EntryKeys(kinds[0].name, kinds[0].value.members), InventoryOf(kinds[1..]).value;
        assert (keys + others) * keep == keys * keep + others * keep;
        assert InventoryOf([first] + rest) == Some(EntryKeys(first.name, first.value.members) + others * keep);
      }
    } else {
      var none: set<Key> := {};
      assert none * keep == none;
    }
  }

  /** The sweep removes exactly the complement of what is kept. */
  lemma SweptInventory(document: Json, keep: set<Key>)
    requires Inventory(document).Some?
    ensures Inventory(Swept(document, keep)) == Some(Inventory(document).value * keep)
  {
    SweptFieldLookup(document.members, keep, "components");
    SweptInventoryOf(Get(document, "components").value.members, keep);
  }

  // ---- The swept contract ---------------------------------------------------------------------------------

  function SweptContract(contract: Contract, keep: set<Key>): Contract {
    Contract(Swept(contract.document, keep), contract.inventory * keep)
  }

  /** A pointer that stays outside the components still resolves to the same value. */
  lemma OutsideStays(document: Json, keep: set<Key>, reference: string)
    requires document.Object? && StartsWith(reference, "#") && AvoidsContainers(reference)
             && ParseKey(reference).NoComponent?
    ensures Resolve(Swept(document, keep), reference[1..]) == Resolve(document, reference[1..])
  {
    var pointer := reference[1..];
    assert pointer != "";
    if pointer[0] == '/' {
      assert reference[..2] == "#/";
      assert pointer[1..] == reference[2..];
      var tokens := Split(reference[2..]);
      FirstTokenIsOutside(reference);
      OtherFieldsStay(document, keep, Decode(tokens[0]));
    }
  }

  lemma ThroughComponents(pointer: string)
    requires |Split(pointer)| >= 2 && Decode(Split(pointer)[0]) == "components"
    ensures StartsWith(pointer, "components" + "/")
  {
    DecodedToPlain(Split(pointer)[0], "components");
    FirstSegment(pointer);
  }

  lemma PrefixAgain(reference: string)
    requires StartsWith(reference, "#/") && StartsWith(reference[2..], "components" + "/")
    ensures StartsWith(reference, COMPONENT_PREFIX)
  {
    assert COMPONENT_PREFIX == "#/" + ("components" + "/");
    var tail := reference[2..];
    assert reference == "#/" + tail;
    assert tail == ("components" + "/") + tail[|"components" + "/"|..];
    assert reference == COMPONENT_PREFIX + tail[|"components" + "/"|..];
  }

  /** A pointer that names no component and no container does not lead through the components object. */
  lemma FirstTokenIsOutside(reference: string)
    requires StartsWith(reference, "#/") && AvoidsContainers(reference) && ParseKey(reference).NoComponent?
    ensures Decode(Split(reference[2..])[0]) != "components"
  {
    assert !StartsWith(reference, COMPONENT_PREFIX);
    if Decode(Split(reference[2..])[0]) == "components" {
      ThroughComponents(reference[2..]);
      PrefixAgain(reference);
    }
  }

  /** A reference to or into a kept component still resolves to the same value. */
  lemma KeptReferenceStays(contract: Contract, keep: set<Key>, reference: string)
    requires contract.Consistent()
    requires ParseKey(reference).Component? && ParseKey(reference).key in contract.inventory * keep
    ensures Resolve(Swept(contract.document, keep), reference[1..]) == Resolve(contract.document, reference[1..])
  {
    ComponentTokens(reference);
    var segments := SegmentsOf(reference);
    var swept := Swept(contract.document, keep);
    SweptInventory(contract.document, keep);
    InventoryIsOfObjects(Get(contract.document, "components").value.members);
    InventoryIsOfObjects(Get(swept, "components").value.members);
    WalkFindsKept(contract.document, keep, segments[0], segments[1], segments[2..]);
  }

  lemma WalkFindsKept(document: Json, keep: set<Key>, kind: string, name: string, inner: seq<string>)
    requires document.Object? && Get(document, "components").Some? && ObjectsOnly(Get(document, "components").value)
    requires Get(Swept(document, keep), "components").Some?
             && ObjectsOnly(Get(Swept(document, keep), "components").value)
    requires kind in KINDS && Key(kind, Decode(name)) in keep
    ensures Walk(Swept(document, keep), ["components"] + ([kind] + ([name] + inner)))
         == Walk(document, ["components"] + ([kind] + ([name] + inner)))
  {
    var components := Get(document, "components").value;
    ComponentsIsPlain();
    KindsArePlain(kind);
    DecodePlain(kind);
    WalkToKind(document, "components", components, kind, name, inner);
    WalkToKind(Swept(document, keep), "components", Get(Swept(document, keep), "components").value, kind, name, inner);
    SweptFieldLookup(document.members, keep, "components");
    KindFindsKept(components, keep, kind, Decode(name));
  }

  lemma KindFindsKept(components: Json, keep: set<Key>, kind: string, name: string)
    requires ObjectsOnly(components) && kind in KINDS && Key(kind, name) in keep
    ensures Get(components, kind).Some? <==> Get(Object(SweepKinds(components.members, keep)), kind).Some?
    ensures Get(components, kind).Some? ==>
              Get(Get(Object(SweepKinds(components.members, keep)), kind).value, name)
              == Get(Get(components, kind).value, name)
  {
    SweptKindLookup(components.members, keep, kind);
    LookupIsMember(components.members, kind);
    if Get(components, kind).Some? {
      KeptLookup(kind, Get(components, kind).value.members, keep, name);
    }
  }

  /** A link whose component is kept leads to the same value as before. */
  lemma KeptLinkStays(contract: Contract, keep: set<Key>, l: Link)
    requires contract.Consistent() && (l.Ref? ==> AvoidsContainers(l.reference))
    requires contract.TargetOf(l).Some? && (KeyOf(l).Some? ==> KeyOf(l).value in keep)
    ensures SweptContract(contract, keep).TargetOf(l) == contract.TargetOf(l)
  {
    match l
    case Scheme(name) => KeptEntryStays(contract.document, keep, "securitySchemes", name);
    case Ref(reference) =>
      if ParseKey(reference).Component? {
        KeptReferenceStays(contract, keep, reference);
      } else {
        OutsideStays(contract.document, keep, reference);
      }
  }

  lemma KeptLinkHasSameLinks(contract: Contract, keep: set<Key>, l: Link)
    requires SweptContract(contract, keep).TargetOf(l) == contract.TargetOf(l)
    ensures SweptContract(contract, keep).Out(l) == contract.Out(l)
  {
  }

  lemma ResponsesAreReached(contract: Contract, key: Key)
    requires contract.Roots().Some? && key in contract.inventory && key.kind == "responses"
    ensures contract.Reaches(key)
  {
    var l := Ref(ResponseReference(key.name));
    EncodedReferenceNames("responses", key.name);
    StartIsReached(OutOf(contract), contract.Roots().value, l);
    assert KeyOf(l) == Some(key);
  }

  lemma SweptRoots(contract: Contract, keep: set<Key>)
    requires contract.Roots().Some? && IsMark(contract, keep)
    ensures SweptContract(contract, keep).Roots() == contract.Roots()
  {
    OtherFieldsStay(contract.document, keep, "paths");
    OtherFieldsStay(contract.document, keep, "webhooks");
    OtherFieldsStay(contract.document, keep, "security");
    forall key | key in contract.inventory && key.kind == "responses"
      ensures key in keep
    {
      ResponsesAreReached(contract, key);
    }
    assert SweptContract(contract, keep).ResponseRoots() == contract.ResponseRoots();
  }

  lemma ReachedKeepsItsLinks(contract: Contract, keep: set<Key>, l: Link)
    requires contract.Consistent() && contract.Sound() && IsMark(contract, keep)
    requires contract.From(contract.Roots().value, l) && (l.Ref? ==> AvoidsContainers(l.reference))
    ensures contract.TargetOf(l).Some? && SweptContract(contract, keep).TargetOf(l) == contract.TargetOf(l)
    ensures SweptContract(contract, keep).Out(l) == contract.Out(l)
    ensures KeyOf(l).Some? ==> KeyOf(l).value in contract.inventory
  {
    assert contract.Out(l).Some?;
    KeptLinkStays(contract, keep, l);
    KeptLinkHasSameLinks(contract, keep, l);
  }

  /** Without container references, the swept document reaches exactly what the document reached. */
  lemma SweptReachesTheSame(contract: Contract, keep: set<Key>)
    requires contract.Consistent() && contract.Sound() && IsMark(contract, keep) && contract.ContainersAreAvoided()
    ensures SweptContract(contract, keep).Roots() == contract.Roots()
    ensures forall l :: contract.From(contract.Roots().value, l) ==>
                          SweptContract(contract, keep).Out(l) == contract.Out(l)
    ensures forall l :: contract.From(contract.Roots().value, l)
                        <==> SweptContract(contract, keep).From(contract.Roots().value, l)
  {
    var after, roots := SweptContract(contract, keep), contract.Roots().value;
    SweptRoots(contract, keep);
    forall l | contract.From(roots, l)
      ensures after.Out(l) == contract.Out(l)
    {
      assert l.Ref? ==> contract.Follows(l.reference);
      ReachedKeepsItsLinks(contract, keep, l);
    }
    forall l
      ensures contract.From(roots, l) <==> after.From(roots, l)
    {
      SameSuccessorsReachTheSame(OutOf(contract), OutOf(after), roots, l);
    }
  }

  /** Every key that is reached in a sound document is of the inventory. */
  lemma ReachedIsKnown(contract: Contract, key: Key)
    requires contract.Sound() && contract.Reaches(key)
    ensures key in contract.inventory
  {
    var l :| contract.From(contract.Roots().value, l) && KeyOf(l) == Some(key);
    assert contract.Out(l).Some?;
  }

  /** The sweep removes exactly the complement of the mark, what is left is still sound, so that no reference
      dangles, and reaches exactly what it reached before: everything that is left. */
  lemma SweepIsExact(contract: Contract, keep: set<Key>)
    requires contract.Consistent() && contract.Sound() && IsMark(contract, keep) && contract.ContainersAreAvoided()
    ensures var after := SweptContract(contract, keep);
            && after.inventory == keep
            && after.Consistent() && after.ContainersAreAvoided()
            && after.Sound()
            && IsMark(after, keep)
            && (contract.SchemesAreWhole() <==> after.SchemesAreWhole())
  {
    var after := SweptContract(contract, keep);
    SweptReachesTheSame(contract, keep);
    SweptInventory(contract.document, keep);
    forall key
      ensures contract.Reaches(key) <==> after.Reaches(key)
      ensures contract.Reaches(key) ==> key in contract.inventory
    {
      if contract.Reaches(key) {
        ReachedIsKnown(contract, key);
      }
    }
    forall r
      ensures contract.Follows(r) <==> after.Follows(r)
    {
    }
  }

  /** When every reached reference is to a whole component, nothing stored dangles either: each component that is left
      scans cleanly, and every link in it leads to the value it led to before. */
  lemma NothingDangles(contract: Contract, keep: set<Key>, key: Key, l: Link)
    requires contract.Consistent() && contract.ReferencesAreWhole() && contract.ContainersAreAvoided()
    requires contract.Sound() && IsMark(contract, keep) && key in keep
    ensures var after := SweptContract(contract, keep);
            var links := after.ScanTarget(Target(key.kind == "links", Entry(after.document, key.kind, key.name)));
            && links.Some?
            && (l in links.value ==> after.TargetOf(l).Some? && after.TargetOf(l) == contract.TargetOf(l))
  {
    var from :| contract.From(contract.Roots().value, from) && KeyOf(from) == Some(key);
    assert from.Ref? ==> contract.Follows(from.reference);
    assert contract.Out(from).Some?;
    ReachedEntry(contract, from, key);
    KeptEntryStays(contract.document, keep, key.kind, key.name);
    var links := contract.ScanTarget(Target(key.kind == "links", Entry(contract.document, key.kind, key.name)));
    if l in links.value {
      SuccessorIsReached(OutOf(contract), contract.Roots().value, from, l);
      assert l.Ref? ==> contract.Follows(l.reference);
      ReachedKeepsItsLinks(contract, keep, l);
    }
  }

  /** A whole link to a component leads to its entry. */
  lemma ReachedEntry(contract: Contract, from: Link, key: Key)
    requires contract.Consistent() && contract.TargetOf(from).Some? && KeyOf(from) == Some(key)
    requires from.Ref? ==> IsWhole(from.reference)
    ensures key.kind in KINDS
    ensures contract.TargetOf(from) == Some(Target(key.kind == "links", Entry(contract.document, key.kind, key.name)))
  {
    if from.Ref? {
      ComponentTokens(from.reference);
      WholeReferenceIsEntry(contract, from.reference);
    } else {
      assert "securitySchemes" == KINDS[6];
    }
  }

  // ---- The two operations ------------------------------------------------------------------------------------

  ghost predicate SoundDocument(document: Json) {
    Inventory(document).Some? && Contract(document, Inventory(document).value).Sound()
  }

  ghost predicate Needs(document: Json, key: Key) {
    Inventory(document).Some? && Contract(document, Inventory(document).value).Reaches(key)
  }

  /** No required security scheme is pointed into, so that the order of the traversal cannot matter. */
  ghost predicate SchemesAreWhole(document: Json) {
    Inventory(document).Some? ==> Contract(document, Inventory(document).value).SchemesAreWhole()
  }

  /** No reached reference is to the document or its components object. */
  ghost predicate ContainersAreAvoided(document: Json) {
    Inventory(document).Some? ==> Contract(document, Inventory(document).value).ContainersAreAvoided()
  }

  /** All that is unneeded is gone, what is left is as it was, and so is everything outside the components. */
  ghost predicate Removed(document: Json, pruned: Json, removed: set<Key>) {
    && Inventory(document).Some? && removed <= Inventory(document).value
    && Inventory(pruned) == Some(Inventory(document).value - removed)
    && (forall key :: key in Inventory(document).value && !Needs(document, key) ==> key in removed)
    && (forall key :: key in Inventory(pruned).value ==>
                        Entry(pruned, key.kind, key.name) == Entry(document, key.kind, key.name))
    && (forall name :: name != "components" ==> Get(pruned, name) == Get(document, name))
  }

  /** The pruned document is sound, and needs exactly what the document needed: all of its components. */
  ghost predicate NeedsTheSame(document: Json, pruned: Json) {
    && SoundDocument(pruned)
    && (forall key :: Needs(pruned, key) <==> Needs(document, key))
    && (forall key :: Needs(pruned, key) <==> key in Inventory(pruned).value)
    && SchemesAreWhole(pruned) && ContainersAreAvoided(pruned)
  }

  lemma {:induction false} InventoryIsOfKinds(components: seq<Member>, key: Key)
    requires InventoryOf(components).Some? && key in InventoryOf(components).value
    ensures key.kind in KINDS
  {
    if !StartsWith(components[0].name, "x-") && key in EntryKeys(components[0].name, components[0].value.members) {
      assert components[0].name in KINDS;
    } else {
      InventoryIsOfKinds(components[1..], key);
    }
  }

  lemma SweptIsRemoved(document: Json, keep: set<Key>)
    requires Inventory(document).Some? && keep <= Inventory(document).value
    requires forall key :: key in keep ==> Needs(document, key)
    ensures Removed(document, Swept(document, keep), Inventory(document).value - keep)
  {
    var pruned, inventory := Swept(document, keep), Inventory(document).value;
    SweptInventory(document, keep);
    assert inventory - (inventory - keep) == keep == inventory * keep;
    forall key | key in keep
      ensures Entry(pruned, key.kind, key.name) == Entry(document, key.kind, key.name)
    {
      InventoryIsOfKinds(Get(document, "components").value.members, key);
      KeptEntryStays(document, keep, key.kind, key.name);
    }
    forall name | name != "components"
      ensures Get(pruned, name) == Get(document, name)
    {
      OtherFieldsStay(document, keep, name);
    }
  }

  lemma SweptNeedsTheSame(document: Json, keep: set<Key>)
    requires SoundDocument(document) && SchemesAreWhole(document) && ContainersAreAvoided(document)
    requires IsMark(Contract(document, Inventory(document).value), keep)
    ensures NeedsTheSame(document, Swept(document, keep))
  {
    var contract := Contract(document, Inventory(document).value);
    SweepIsExact(contract, keep);
    assert SweptContract(contract, keep) == Contract(Swept(document, keep), keep);
  }

  /** prune_unreachable_components. It never keeps what is unneeded. Where no required scheme is pointed into, it
      removes exactly what is unneeded and fails only for unsound documents; where also no container is referred to,
      the result is sound and needs all that is left. */
  method PruneUnreachable(document: Json) returns (result: Option<(Json, set<Key>)>)
    ensures result.None? ==> !SoundDocument(document)
    ensures result.Some? ==> Removed(document, result.value.0, result.value.1)
    ensures SchemesAreWhole(document) ==> (result.Some? <==> SoundDocument(document))
    ensures SchemesAreWhole(document) && result.Some? ==> forall key :: key in result.value.1 ==> !Needs(document, key)
    ensures SchemesAreWhole(document) && ContainersAreAvoided(document) && result.Some? ==>
              NeedsTheSame(document, result.value.0)
  {
    var inventory := Inventory(document);
    if inventory.None? {
      return None;
    }
    var reachable := ReachableComponents(Contract(document, inventory.value));
    if reachable.None? {
      return None;
    }
    SweptIsRemoved(document, reachable.value);
    if SchemesAreWhole(document) && ContainersAreAvoided(document) {
      SweptNeedsTheSame(document, reachable.value);
    }
    return Some((Swept(document, reachable.value), inventory.value - reachable.value));
  }

  /** ensure_all_components_are_reachable: what it accepts has no unneeded component. Where no required scheme is
      pointed into, it accepts exactly the sound documents that need all of their components. */
  method EnsureAllReachable(document: Json) returns (ok: bool)
    ensures ok ==> Inventory(document).Some? && forall key :: key in Inventory(document).value ==> Needs(document, key)
    ensures SchemesAreWhole(document) ==>
              (ok <==> SoundDocument(document) && forall key :: key in Inventory(document).value ==>
                                                                  Needs(document, key))
  {
    var inventory := Inventory(document);
    if inventory.None? {
      return false;
    }
    var reachable := ReachableComponents(Contract(document, inventory.value));
    return reachable.Some? && inventory.value <= reachable.value;
  }

  /** Pruning and then pruning again removes nothing the second time, and the pruned document passes the gate. */
  method PruneTwice(document: Json) returns (again: Option<set<Key>>, passes: bool)
    ensures SoundDocument(document) && SchemesAreWhole(document) && ContainersAreAvoided(document) ==>
              again == Some({}) && passes
  {
    var once := PruneUnreachable(document);
    if once.None? {
      return None, false;
    }
    var twice := PruneUnreachable(once.value.0);
    passes := EnsureAllReachable(once.value.0);
    if twice.None? {
      return None, passes;
    }
    assert SoundDocument(document) && SchemesAreWhole(document) && ContainersAreAvoided(document) ==>
        twice.value.1 == {} by {
      assert twice.value.1 == {} || exists key :: key in twice.value.1;
    }
    return Some(twice.value.1), passes;
  }

  /** The mark is the least set closed under references: what is reached from the roots has only reached links
      behind it, and lies in every closed set of links that holds the roots. */
  lemma MarkIsLeastClosed(contract: Contract, closed: set<Link>, l: Link)
    requires contract.Sound() && contract.From(contract.Roots().value, l)
    ensures contract.Out(l).Some? && forall m :: m in contract.Out(l).value ==> contract.From(contract.Roots().value, m)
    ensures contract.Roots().value <= closed && Closed(OutOf(contract), closed) ==> l in closed
  {
    forall m | m in contract.Out(l).value
      ensures contract.From(contract.Roots().value, m)
    {
      SuccessorIsReached(OutOf(contract), contract.Roots().value, l, m);
    }
    if contract.Roots().value <= closed && Closed(OutOf(contract), closed) {
      ReachedIsLeast(OutOf(contract), contract.Roots().value, closed, l);
    }
  }
}
