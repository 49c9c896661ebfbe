/**
 ComponentTraversal and reachable_components of
 backend/rust/crates/api-contract/src/operations.rs: a depth-first walk that
 marks components and remembers the references it has visited.
 */
module ComponentTraversal {
  import opened Wrappers
  import opened Strings
  import opened JsonPointer
  import opened Reachability
  import opened ComponentGraph

  ghost function OutOf(contract: Contract): Successors<Link> {
    (l: Link) => contract.Out(l)
  }

  /** A marked reference to or into a security scheme keeps a later requirement from visiting the scheme. */
  ghost function AlsoMarked(): Companions<Link> {
    (l: Link) =>
      if l.Ref? && KeyOf(l).Some? && KeyOf(l).value.kind == "securitySchemes" then {Scheme(KeyOf(l).value.name)} else {}
  }

  /** The visited places: references, and schemes entered for a requirement. */
  ghost function Marked(visited: set<string>, entered: set<string>): set<Link> {
    (set r | r in visited :: Ref(r)) + (set name | name in entered :: Scheme(name))
  }

  /** The marked components are those of the visited places. */
  ghost predicate KeysAreMarked(visited: set<string>, entered: set<string>, reachable: set<Key>) {
    && (forall l :: l in Marked(visited, entered) && KeyOf(l).Some? ==> KeyOf(l).value in reachable)
    && forall key :: key in reachable ==> exists l :: l in Marked(visited, entered) && KeyOf(l) == Some(key)
  }

  /** Seeing one more element leaves no more to see, and fewer if it was new. */
  lemma OneFewer<T>(all: set<T>, seen: set<T>, x: T)
    ensures |all - (seen + {x})| <= |all - seen|
    ensures x in all && x !in seen ==> |all - (seen + {x})| < |all - seen|
  {
    var later, earlier := all - (seen + {x}), all - seen;
    if x in earlier {
      assert earlier == later + {x};
    } else {
      assert earlier == later;
    }
  }

  lemma FieldTexts(v: Json, name: string)
    ensures Get(v, name).Some? ==> Texts(Get(v, name).value) <= Texts(v)
  {
    if v.Object? {
      LookupIsMember(v.members, name);
    }
  }

  lemma MemberTexts(v: Json, i: nat)
    requires v.Object? && i < |v.members|
    ensures Texts(v.members[i].value) <= Texts(v)
  {
  }

  lemma EntryTexts(document: Json, kind: string, name: string)
    ensures Texts(Entry(document, kind, name)) <= Texts(document)
  {
    FieldTexts(document, "components");
    var components := Get(document, "components");
    if components.Some? {
      FieldTexts(components.value, kind);
      var entries := Get(components.value, kind);
      if entries.Some? {
        FieldTexts(entries.value, name);
      }
    }
  }

  function WithKey(reachable: set<Key>, key: Option<Key>): set<Key> {
    if key.Some? then reachable + {key.value} else reachable
  }

  lemma KeyNeverAddsWork(inventory: set<Key>, reachable: set<Key>, key: Option<Key>)
    requires reachable <= inventory && (key.Some? ==> key.value in inventory)
    ensures WithKey(reachable, key) <= inventory
    ensures |inventory - WithKey(reachable, key)| <= |inventory - reachable|
  {
    if key.Some? {
      OneFewer(inventory, reachable, key.value);
    }
  }

  /** Visiting a reference marks it and its component. */
  lemma MarkReference(visited: set<string>, entered: set<string>, reachable: set<Key>, reference: string)
    requires KeysAreMarked(visited, entered, reachable)
    ensures Marked(visited + {reference}, entered) == Marked(visited, entered) + {Ref(reference)}
    ensures KeysAreMarked(visited + {reference}, entered, WithKey(reachable, KeyOf(Ref(reference))))
  {
    var before, after := Marked(visited, entered), Marked(visited + {reference}, entered);
    assert after == before + {Ref(reference)};
    forall key | key in WithKey(reachable, KeyOf(Ref(reference)))
      ensures exists l :: l in after && KeyOf(l) == Some(key)
    {
      if key in reachable {
        var l :| l in before && KeyOf(l) == Some(key);
        assert l in after;
      } else {
        assert Ref(reference) in after;
      }
    }
  }

  lemma MarkRequired(visited: set<string>, entered: set<string>, reachable: set<Key>, name: string)
    requires KeysAreMarked(visited, entered, reachable)
    ensures Marked(visited, entered + {name}) == Marked(visited, entered) + {Scheme(name)}
    ensures KeysAreMarked(visited, entered + {name}, reachable + {Key("securitySchemes", name)})
  {
    var before, after := Marked(visited, entered), Marked(visited, entered + {name});
    assert after == before + {Scheme(name)};
    forall key | key in reachable + {Key("securitySchemes", name)}
      ensures exists l :: l in after && KeyOf(l) == Some(key)
    {
      if key in reachable {
        var l :| l in before && KeyOf(l) == Some(key);
        assert l in after;
      } else {
        assert Scheme(name) in after;
      }
    }
  }

  /** A marked scheme was entered, or is kept from being entered by a reference to it. */
  lemma MarkedSchemeIsCovered(visited: set<string>, entered: set<string>, reachable: set<Key>, name: string)
    requires KeysAreMarked(visited, entered, reachable) && Key("securitySchemes", name) in reachable
    ensures Covered(AlsoMarked(), Marked(visited, entered), Scheme(name))
  {
    var l :| l in Marked(visited, entered) && KeyOf(l) == Some(Key("securitySchemes", name));
    if l.Ref? {
      assert Scheme(name) in AlsoMarked()(l);
    }
  }

  lemma TargetIsInUniverse(contract: Contract, mapping: Json, i: nat)
    requires mapping.Object? && i < |mapping.members| && mapping.members[i].value.Text?
    requires Texts(mapping) <= Texts(contract.document)
    ensures TargetReference(mapping.members[i].value.text) in contract.Universe()
  {
    var target := mapping.members[i].value;
    assert target.text in Texts(target);
    assert target.text in Texts(mapping);
  }

  lemma TargetIsInInventory(contract: Contract, reference: string)
    requires contract.TargetOf(Ref(reference)).Some?
    ensures KeyOf(Ref(reference)).Some? ==> KeyOf(Ref(reference)).value in contract.inventory
  {
  }

  lemma TargetTexts(contract: Contract, reference: string)
    ensures var target := contract.TargetOf(Ref(reference));
            target.Some? ==> Texts(target.value.value) <= Texts(contract.document)
  {
    if StartsWith(reference, "#") {
      ResolveTexts(contract.document, reference[1..]);
    }
  }

  class Traversal {
    const contract: Contract
    var reachable: set<Key>
    var visited: set<string>
    ghost var entered: set<string>

    constructor (contract: Contract)
      ensures this.contract == contract && reachable == {} && Valid() && Nodes() == {}
    {
      this.contract := contract;
      reachable, visited, entered := {}, {}, {};
    }

    ghost predicate Valid()
      reads this
    {
      && reachable <= contract.inventory && visited <= contract.Universe()
      && KeysAreMarked(visited, entered, reachable)
    }

    /** References and components that are not marked yet. */
    ghost function Remaining(): nat
      reads this
    {
      |contract.Universe() - visited| + |contract.inventory - reachable|
    }

    ghost predicate Within(value: Json) {
      Texts(value) <= Texts(contract.document)
    }

    ghost function Nodes(): set<Link>
      reads this
    {
      Marked(visited, entered)
    }

    /** A visit only adds marks, and ends as its place demands. */
    twostate predicate Visited(new found: Found, ok: bool)
      reads this
    {
      && Valid() && Remaining() <= old(Remaining())
      && Outcome(OutOf(contract), AlsoMarked(), old(Nodes()), Nodes(), found, ok)
    }

    /** Enters a reference and its key into the marks. */
    method Mark(reference: string)
      requires Valid() && reference in contract.Universe() && reference !in visited
      requires KeyOf(Ref(reference)).Some? ==> KeyOf(Ref(reference)).value in contract.inventory
      modifies this
      ensures Valid() && Remaining() < old(Remaining())
      ensures Nodes() == old(Nodes()) + {Ref(reference)}
    {
      MarkReference(visited, entered, reachable, reference);
      OneFewer(contract.Universe(), visited, reference);
      var marked := WithKey(reachable, KeyOf(Ref(reference)));
      KeyNeverAddsWork(contract.inventory, reachable, KeyOf(Ref(reference)));
      visited, reachable := visited + {reference}, marked;
    }

    method VisitReference(reference: string) returns (ok: bool)
      requires Valid() && reference in contract.Universe()
      modifies this
      ensures Visited(Some({Ref(reference)}), ok)
      decreases 3 * Remaining()
    {
      ghost var out, also, l, before := OutOf(contract), AlsoMarked(), Ref(reference), Nodes();
      if reference in visited {
        KnownNode(out, also, before, l);
        return true;
      }
      var target := contract.TargetOf(Ref(reference));
      if target.None? {
        DeadNode(out, also, before, before, l);
        return false;
      }
      TargetIsInInventory(contract, reference);
      Mark(reference);
      TargetTexts(contract, reference);
      if target.value.isLink {
        ok := VisitLink(target.value.value);
      } else {
        ok := VisitValue(target.value.value);
      }
      VisitNode(out, also, before, Nodes(), l, ok);
    }

    method VisitSecurity(value: Json) returns (ok: bool)
      requires Valid() && Within(value)
      modifies this
      ensures Visited(ScanSecurity(value), ok)
      decreases 3 * Remaining() + 1, 2
    {
      if !value.Array? {
        return false;
      }
      ok := VisitRequirements(value);
    }

    method VisitRequirements(value: Json) returns (ok: bool)
      requires Valid() && value.Array?
      modifies this
      ensures Visited(JoinAll(RequirementParts(value)), ok)
      decreases 3 * Remaining() + 1, 1
    {
      ghost var out, also, before, parts := OutOf(contract), AlsoMarked(), Nodes(), RequirementParts(value);
      NothingToVisit(out, also, before);
      for i := 0 to |value.items|
        invariant Visited(JoinAll(parts[..i]), true)
      {
        ghost var mid := Nodes();
        ok := VisitRequirement(value.items[i]);
        VisitNextPart(out, also, parts, i, before, mid, Nodes(), ok);
        if !ok {
          return;
        }
      }
      assert parts[..|value.items|] == parts;
      return true;
    }

    method VisitRequirement(requirement: Json) returns (ok: bool)
      requires Valid()
      modifies this
      ensures Visited(ScanRequirement(requirement), ok)
      decreases 3 * Remaining() + 1, 0
    {
      if !requirement.Object? {
        return false;
      }
      ghost var out, also, before, parts := OutOf(contract), AlsoMarked(), Nodes(), SchemeParts(requirement);
      NothingToVisit(out, also, before);
      for i := 0 to |requirement.members|
        invariant Visited(JoinAll(parts[..i]), true)
      {
        ghost var mid := Nodes();
        ok := VisitScheme(requirement.members[i]);
        VisitNextPart(out, also, parts, i, before, mid, Nodes(), ok);
        if !ok {
          return;
        }
      }
      assert parts[..|requirement.members|] == parts;
      return true;
    }

    method MarkScheme(name: string)
      requires Valid() && Key("securitySchemes", name) in contract.inventory
               && Key("securitySchemes", name) !in reachable
      modifies this
      ensures Valid() && Remaining() < old(Remaining())
      ensures Nodes() == old(Nodes()) + {Scheme(name)}
    {
      MarkRequired(visited, entered, reachable, name);
      OneFewer(contract.inventory, reachable, Key("securitySchemes", name));
      reachable, entered := reachable + {Key("securitySchemes", name)}, entered + {name};
    }

    /** An unmarked scheme is marked and its definition visited. */
    method EnterScheme(name: string) returns (ok: bool)
      requires Valid() && Key("securitySchemes", name) in contract.inventory
               && Key("securitySchemes", name) !in reachable
      modifies this
      ensures Visited(Some({Scheme(name)}), ok)
      decreases 3 * Remaining(), 0
    {
      ghost var before := Nodes();
      MarkScheme(name);
      var target := Entry(contract.document, "securitySchemes", name);
      EntryTexts(contract.document, "securitySchemes", name);
      ok := VisitValue(target);
      VisitNode(OutOf(contract), AlsoMarked(), before, Nodes(), Scheme(name), ok);
    }

    /** One entry of a security requirement. A marked scheme is left alone, even if it was marked by a pointer into
        it. */
    method VisitScheme(scheme: Member) returns (ok: bool)
      requires Valid()
      modifies this
      ensures Visited(ScanScheme(scheme), ok)
      ensures Key("securitySchemes", scheme.name) in old(reachable) ==>
                Nodes() == old(Nodes()) && reachable == old(reachable)
      decreases 3 * Remaining()
    {
      if !scheme.value.Array? {
        return false;
      }
      var key := Key("securitySchemes", scheme.name);
      if key !in contract.inventory {
        DeadNode(OutOf(contract), AlsoMarked(), Nodes(), Nodes(), Scheme(scheme.name));
        return false;
      }
      if key in reachable {
        MarkedSchemeIsCovered(visited, entered, reachable, scheme.name);
        KnownNode(OutOf(contract), AlsoMarked(), Nodes(), Scheme(scheme.name));
        return true;
      }
      ok := EnterScheme(scheme.name);
    }

    method VisitDiscriminator(value: Json) returns (ok: bool)
      requires Valid() && Within(value)
      modifies this
      ensures Visited(ScanDiscriminator(value), ok)
      decreases 3 * Remaining() + 1, 2
    {
      if !value.Object? {
        return false;
      }
      if Get(value, "mapping").None? {
        NothingToVisit(OutOf(contract), AlsoMarked(), Nodes());
        return true;
      }
      FieldTexts(value, "mapping");
      var mapping := Get(value, "mapping").value;
      if !mapping.Object? {
        return false;
      }
      ok := VisitVariants(mapping);
    }

    method VisitVariants(mapping: Json) returns (ok: bool)
      requires Valid() && Within(mapping) && mapping.Object?
      modifies this
      ensures Visited(JoinAll(VariantParts(mapping)), ok)
      decreases 3 * Remaining() + 1, 1
    {
      ghost var out, also, before, parts := OutOf(contract), AlsoMarked(), Nodes(), VariantParts(mapping);
      NothingToVisit(out, also, before);
      for i := 0 to |mapping.members|
        invariant Visited(JoinAll(parts[..i]), true)
      {
        ghost var mid := Nodes();
        ok := VisitVariant(mapping, i);
        VisitNextPart(out, also, parts, i, before, mid, Nodes(), ok);
        if !ok {
          return;
        }
      }
      assert parts[..|mapping.members|] == parts;
      return true;
    }

    method VisitVariant(mapping: Json, i: nat) returns (ok: bool)
      requires Valid() && Within(mapping) && mapping.Object? && i < |mapping.members|
      modifies this
      ensures Visited(ScanVariant(mapping.members[i]), ok)
      decreases 3 * Remaining() + 1, 0
    {
      var target := mapping.members[i].value;
      if !target.Text? {
        return false;
      }
      TargetIsInUniverse(contract, mapping, i);
      ok := VisitReference(TargetReference(target.text));
    }

    /** The reference of an object, and the refusal of a dynamic one. */
    method VisitOwnReference(value: Json) returns (ok: bool)
      requires Valid() && Within(value)
      modifies this
      ensures Visited(Join(ScanRef(value), ScanDynamicRef(value)), ok)
      decreases 3 * Remaining() + 1
    {
      ghost var out, also, before := OutOf(contract), AlsoMarked(), Nodes();
      ok := true;
      if TextField(value, "$ref").Some? {
        FieldTexts(value, "$ref");
        assert TextField(value, "$ref").value in Texts(Get(value, "$ref").value);
        ok := VisitReference(TextField(value, "$ref").value);
      } else {
        NothingToVisit(out, also, before);
      }
      ghost var mid := Nodes();
      if !ok {
        FailsInJoin(out, ScanRef(value), ScanDynamicRef(value));
        return;
      }
      ok := TextField(value, "$dynamicRef").None?;
      if ok {
        NothingToVisit(out, also, mid);
      }
      VisitsCompose(out, also, before, mid, mid, ScanRef(value), ScanDynamicRef(value), ok);
    }

    /** The security requirements of an operation, and the discriminator of a schema. */
    method VisitOwnStructure(value: Json) returns (ok: bool)
      requires Valid() && Within(value)
      modifies this
      ensures Visited(Join(ScanObjectSecurity(value), ScanObjectDiscriminator(value)), ok)
      decreases 3 * Remaining() + 2, value, 0
    {
      ghost var out, also, before := OutOf(contract), AlsoMarked(), Nodes();
      ok := true;
      if HasSecurity(value) {
        FieldTexts(value, "security");
        ok := VisitSecurity(Get(value, "security").value);
      } else {
        NothingToVisit(out, also, before);
      }
      ghost var mid := Nodes();
      if !ok {
        FailsInJoin(out, ScanObjectSecurity(value), ScanObjectDiscriminator(value));
        return;
      }
      if Get(value, "discriminator").Some? {
        FieldTexts(value, "discriminator");
        ok := VisitDiscriminator(Get(value, "discriminator").value);
      } else {
        NothingToVisit(out, also, mid);
      }
      VisitsCompose(out, also, before, mid, Nodes(), ScanObjectSecurity(value), ScanObjectDiscriminator(value), ok);
    }

    /** All that an object says about itself. */
    method VisitOwn(value: Json) returns (ok: bool)
      requires Valid() && Within(value)
      modifies this
      ensures Visited(ScanOwn(value), ok)
      decreases 3 * Remaining() + 2, value, 1
    {
      ghost var out, also, before := OutOf(contract), AlsoMarked(), Nodes();
      ghost var reference, structure := Join(ScanRef(value), ScanDynamicRef(value)),
                                        Join(ScanObjectSecurity(value), ScanObjectDiscriminator(value));
      ok := VisitOwnReference(value);
      ghost var mid := Nodes();
      if !ok {
        FailsInJoin(out, reference, structure);
        return;
      }
      ok := VisitOwnStructure(value);
      VisitsCompose(out, also, before, mid, Nodes(), reference, structure, ok);
    }

    method VisitObject(value: Json) returns (ok: bool)
      requires Valid() && Within(value) && value.Object?
      modifies this
      ensures Visited(ScanValue(value), ok)
      decreases 3 * Remaining() + 2, value, 2
    {
      ghost var out, also, before := OutOf(contract), AlsoMarked(), Nodes();
      ok := VisitOwn(value);
      ghost var own := Nodes();
      if !ok {
        FailsInJoin(out, ScanOwn(value), JoinAll(FieldParts(value)));
        return;
      }
      ok := VisitFields(value);
      VisitsCompose(out, also, before, own, Nodes(), ScanOwn(value), JoinAll(FieldParts(value)), ok);
    }

    method VisitValue(value: Json) returns (ok: bool)
      requires Valid() && Within(value)
      modifies this
      ensures Visited(ScanValue(value), ok)
      decreases 3 * Remaining() + 2, value, 3
    {
      if value.Object? {
        ok := VisitObject(value);
      } else if value.Array? {
        ok := VisitItems(value);
      } else {
        NothingToVisit(OutOf(contract), AlsoMarked(), Nodes());
        ok := true;
      }
    }

    method VisitItems(value: Json) returns (ok: bool)
      requires Valid() && Within(value) && value.Array?
      modifies this
      ensures Visited(JoinAll(ItemParts(value)), ok)
      decreases 3 * Remaining() + 2, value, 1
    {
      ghost var out, also, before, parts := OutOf(contract), AlsoMarked(), Nodes(), ItemParts(value);
      NothingToVisit(out, also, before);
      for i := 0 to |value.items|
        invariant Visited(JoinAll(parts[..i]), true)
      {
        ghost var mid := Nodes();
        ok := VisitValue(value.items[i]);
        VisitNextPart(out, also, parts, i, before, mid, Nodes(), ok);
        if !ok {
          return;
        }
      }
      assert parts[..|value.items|] == parts;
      return true;
    }

    method VisitFields(value: Json) returns (ok: bool)
      requires Valid() && Within(value) && value.Object?
      modifies this
      ensures Visited(JoinAll(FieldParts(value)), ok)
      decreases 3 * Remaining() + 2, value, 1
    {
      ghost var out, also, before, parts := OutOf(contract), AlsoMarked(), Nodes(), FieldParts(value);
      NothingToVisit(out, also, before);
      for i := 0 to |value.members|
        invariant Visited(JoinAll(parts[..i]), true)
      {
        ghost var mid := Nodes();
        ok := VisitField(value, i);
        VisitNextPart(out, also, parts, i, before, mid, Nodes(), ok);
        if !ok {
          return;
        }
      }
      assert parts[..|value.members|] == parts;
      return true;
    }

    method VisitField(value: Json, i: nat) returns (ok: bool)
      requires Valid() && Within(value) && value.Object? && i < |value.members|
      modifies this
      ensures Visited(ScanField(value, i), ok)
      decreases 3 * Remaining() + 2, value, 0
    {
      var field := value.members[i];
      if Skips(value, field) {
        NothingToVisit(OutOf(contract), AlsoMarked(), Nodes());
        ok := true;
      } else if field.name == "responses" && field.value.Object? {
        ok := VisitExtensibleMap(field.value);
      } else if field.name == "links" && field.value.Object? {
        ok := VisitLinks(field.value);
      } else if IsNamedMap(field.name, field.value) {
        ok := VisitMap(field.value);
      } else {
        ok := VisitValue(field.value);
      }
    }

    /** visit_named_map. */
    method VisitMap(value: Json) returns (ok: bool)
      requires Valid() && Within(value)
      modifies this
      ensures Visited(ScanMap(value), ok)
      decreases 3 * Remaining() + 2, value, 2
    {
      if !value.Object? {
        return false;
      }
      ok := VisitEntries(value);
    }

    method VisitEntries(value: Json) returns (ok: bool)
      requires Valid() && Within(value) && value.Object?
      modifies this
      ensures Visited(JoinAll(EntryParts(value)), ok)
      decreases 3 * Remaining() + 2, value, 1
    {
      ghost var out, also, before, parts := OutOf(contract), AlsoMarked(), Nodes(), EntryParts(value);
      NothingToVisit(out, also, before);
      for i := 0 to |value.members|
        invariant Visited(JoinAll(parts[..i]), true)
      {
        ghost var mid := Nodes();
        MemberTexts(value, i);
        ok := VisitValue(value.members[i].value);
        VisitNextPart(out, also, parts, i, before, mid, Nodes(), ok);
        if !ok {
          return;
        }
      }
      assert parts[..|value.members|] == parts;
      return true;
    }

    /** visit_extensible_named_map. */
    method VisitExtensibleMap(value: Json) returns (ok: bool)
      requires Valid() && Within(value)
      modifies this
      ensures Visited(ScanExtensibleMap(value), ok)
      decreases 3 * Remaining() + 2, value, 2
    {
      if !value.Object? {
        return false;
      }
      ok := VisitExtensibleEntries(value);
    }

    method VisitExtensibleEntries(value: Json) returns (ok: bool)
      requires Valid() && Within(value) && value.Object?
      modifies this
      ensures Visited(JoinAll(ExtensibleParts(value)), ok)
      decreases 3 * Remaining() + 2, value, 1
    {
      ghost var out, also, before, parts := OutOf(contract), AlsoMarked(), Nodes(), ExtensibleParts(value);
      NothingToVisit(out, also, before);
      for i := 0 to |value.members|
        invariant Visited(JoinAll(parts[..i]), true)
      {
        ghost var mid := Nodes();
        if StartsWith(value.members[i].name, "x-") {
          NothingToVisit(out, also, mid);
          ok := true;
        } else {
          MemberTexts(value, i);
          ok := VisitValue(value.members[i].value);
        }
        VisitNextPart(out, also, parts, i, before, mid, Nodes(), ok);
        if !ok {
          return;
        }
      }
      assert parts[..|value.members|] == parts;
      return true;
    }

    method VisitLinks(value: Json) returns (ok: bool)
      requires Valid() && Within(value)
      modifies this
      ensures Visited(ScanLinks(value), ok)
      decreases 3 * Remaining() + 2, value, 2
    {
      if !value.Object? {
        return false;
      }
      ok := VisitLinkEntries(value);
    }

    method VisitLinkEntries(value: Json) returns (ok: bool)
      requires Valid() && Within(value) && value.Object?
      modifies this
      ensures Visited(JoinAll(LinkParts(value)), ok)
      decreases 3 * Remaining() + 2, value, 1
    {
      ghost var out, also, before, parts := OutOf(contract), AlsoMarked(), Nodes(), LinkParts(value);
      NothingToVisit(out, also, before);
      for i := 0 to |value.members|
        invariant Visited(JoinAll(parts[..i]), true)
      {
        ghost var mid := Nodes();
        MemberTexts(value, i);
        ok := VisitLink(value.members[i].value);
        VisitNextPart(out, also, parts, i, before, mid, Nodes(), ok);
        if !ok {
          return;
        }
      }
      assert parts[..|value.members|] == parts;
      return true;
    }

    method VisitLink(value: Json) returns (ok: bool)
      requires Valid() && Within(value)
      modifies this
      ensures Visited(ScanLink(value), ok)
      decreases 3 * Remaining() + 2, value, 2
    {
      if !value.Object? {
        return false;
      }
      if TextField(value, "$ref").Some? {
        FieldTexts(value, "$ref");
        assert TextField(value, "$ref").value in Texts(Get(value, "$ref").value);
        ok := VisitReference(TextField(value, "$ref").value);
        return;
      }
      if TextField(value, "$dynamicRef").Some? {
        return false;
      }
      ok := VisitLinkFields(value);
    }

    method VisitLinkFields(value: Json) returns (ok: bool)
      requires Valid() && Within(value) && value.Object?
      modifies this
      ensures Visited(JoinAll(LinkFieldParts(value)), ok)
      decreases 3 * Remaining() + 2, value, 1
    {
      ghost var out, also, before, parts := OutOf(contract), AlsoMarked(), Nodes(), LinkFieldParts(value);
      NothingToVisit(out, also, before);
      for i := 0 to |value.members|
        invariant Visited(JoinAll(parts[..i]), true)
      {
        ghost var mid := Nodes();
        if SkipsInLink(value.members[i]) {
          NothingToVisit(out, also, mid);
          ok := true;
        } else {
          MemberTexts(value, i);
          ok := VisitValue(value.members[i].value);
        }
        VisitNextPart(out, also, parts, i, before, mid, Nodes(), ok);
        if !ok {
          return;
        }
      }
      assert parts[..|value.members|] == parts;
      return true;
    }
  }
}
