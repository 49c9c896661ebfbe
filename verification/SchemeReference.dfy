/**
 Why the mark is not exact for a document that both requires a security scheme
 and points into it: the traversal that meets the pointer first marks the scheme
 without visiting all of it, and then skips the requirement.
 */
module SchemeReference {
  import opened Wrappers
  import opened Strings
  import opened JsonPointer
  import opened Reachability
  import opened ComponentGraph
  import opened ComponentTraversal
  import opened ComponentSweep
  import opened ContainerReference

  const SCHEME := Object([SCHEMA_X, SCHEMA_Y])
  const KINDS_OF_IT :=
    Object([Member("securitySchemes", Object([Member("S", SCHEME)])), Member("schemas", Object([SCHEMA_Y]))])
  const PATHS := Object([Member("/a", Reference(INTO_SCHEME))])
  const KEY_S := Key("securitySchemes", "S")
  const WITH_SCHEME := Contract(Object([Member("paths", PATHS), Member("components", KINDS_OF_IT)]), {KEY_S, KEY_Y})
  const INTO_SCHEME := Inner("securitySchemes", "S", "Y")

  function Inner(kind: string, name: string, field: string): string {
    COMPONENT_PREFIX + (kind + "/" + (name + "/" + field))
  }

  // ---- Pointers into a component -----------------------------------------------------------------

  lemma InnerSegments(kind: string, name: string, field: string)
    requires kind in KINDS && NoSlash(name) && NoTilde(name) && NoSlash(field)
    ensures SegmentsOf(Inner(kind, name, field)) == [kind, name, field]
    ensures ParseKey(Inner(kind, name, field)) == Component(Key(kind, name))
  {
    var reference := Inner(kind, name, field);
    var rest := kind + "/" + (name + "/" + field);
    assert reference[..|COMPONENT_PREFIX|] == COMPONENT_PREFIX && reference[|COMPONENT_PREFIX|..] == rest;
    KindsArePlain(kind);
    SplitOfJoin(kind, name + "/" + field);
    SplitOfJoin(name, field);
    SplitOfSegment(field);
    DecodePlain(kind);
    DecodePlain(name);
  }

  /** A pointer to a field of an entry. */
  lemma InnerResolves(document: Json, kind: string, name: string, field: string, entry: Json)
    requires document.Object? && Get(document, "components").Some? && ObjectsOnly(Get(document, "components").value)
    requires kind in KINDS && NoSlash(name) && NoTilde(name) && NoSlash(field) && NoTilde(field)
    requires Get(Get(document, "components").value, kind).Some?
    requires Get(Get(Get(document, "components").value, kind).value, name) == Some(entry) && entry.Object?
    ensures StartsWith(Inner(kind, name, field), "#")
    ensures Resolve(document, Inner(kind, name, field)[1..]) == Get(entry, field)
  {
    var reference := Inner(kind, name, field);
    InnerSegments(kind, name, field);
    ComponentTokens(reference);
    assert [kind, name, field][2..] == [field] + [];
    StripPrefix(reference);
    assert reference[..1] == reference[..2][..1] == "#";
    ResolveTokens(document, reference[1..], ["components"] + ([kind] + ([name] + ([field] + []))));
    ComponentsIsPlain();
    KindsArePlain(kind);
    DecodePlain(kind);
    DecodePlain(name);
    DecodePlain(field);
    WalkToKind(document, "components", Get(document, "components").value, kind, name, [field] + []);
    WalkStep(entry, field, []);
  }

  // ---- The graph of the document -------------------------------------------------------------------

  lemma ComponentsField()
    ensures Get(WITH_SCHEME.document, "components") == Some(KINDS_OF_IT)
  {
    assert |"paths"| == 5 && |"components"| == 10;
    LookupInTwo(Member("paths", PATHS), Member("components", KINDS_OF_IT), "components");
  }

  lemma Fields()
    ensures Get(WITH_SCHEME.document, "components") == Some(KINDS_OF_IT) && ObjectsOnly(KINDS_OF_IT)
    ensures Get(KINDS_OF_IT, "securitySchemes") == Some(Object([Member("S", SCHEME)]))
    ensures Get(KINDS_OF_IT, "schemas") == Some(Object([SCHEMA_Y]))
    ensures Get(Object([Member("S", SCHEME)]), "S") == Some(SCHEME)
    ensures Get(Object([SCHEMA_Y]), "Y") == Get(SCHEME, "Y") == Some(Object([]))
  {
    ComponentsField();
    var schemes, schemas := Member("securitySchemes", Object([Member("S", SCHEME)])),
                            Member("schemas", Object([SCHEMA_Y]));
    assert |"securitySchemes"| == 15 && |"schemas"| == 7;
    LookupInTwo(schemes, schemas, "securitySchemes");
    LookupInTwo(schemes, schemas, "schemas");
    LookupInOne(Member("S", SCHEME), "S");
    LookupInOne(SCHEMA_Y, "Y");
    assert "X"[0] != "Y"[0];
    LookupInTwo(SCHEMA_X, SCHEMA_Y, "Y");
  }

  lemma KeysOfEntry(kind: string, entry: Member)
    ensures EntryKeys(kind, [entry]) == {Key(kind, entry.name)}
  {
    assert [entry][0] == entry;
    assert Key(kind, entry.name) in EntryKeys(kind, [entry]);
  }

  lemma TwoKeys(document: Json, kind: string, entry: Member, other: string, another: Member)
    requires kind in KINDS && other in KINDS
    requires Get(document, "components")
          == Some(Object([Member(kind, Object([entry])), Member(other, Object([another]))]))
    ensures Inventory(document) == Some({Key(kind, entry.name), Key(other, another.name)})
  {
    InventoryOfTwo(kind, [entry], other, [another]);
    KeysOfEntry(kind, entry);
    KeysOfEntry(other, another);
    assert {Key(kind, entry.name)} + {Key(other, another.name)} == {Key(kind, entry.name), Key(other, another.name)};
  }

  lemma Listed()
    ensures WITH_SCHEME.Consistent()
  {
    ComponentsField();
    SchemasIsPlain();
    SchemesIsPlain();
    TwoKeys(WITH_SCHEME.document, "securitySchemes", Member("S", SCHEME), "schemas", SCHEMA_Y);
  }

  lemma InventoryOfTwo(kind: string, entries: seq<Member>, other: string, others: seq<Member>)
    requires kind in KINDS && other in KINDS
    ensures InventoryOf([Member(kind, Object(entries)), Member(other, Object(others))])
         == Some(EntryKeys(kind, entries) + EntryKeys(other, others))
  {
    KindsArePlain(kind);
    InventoryOfOne(other, others);
    var kinds := [Member(kind, Object(entries)), Member(other, Object(others))];
    assert kinds[1..] == [Member(other, Object(others))];
  }

  lemma SchemesIsPlain()
    ensures "securitySchemes" in KINDS
  {
    assert "securitySchemes" == KINDS[6];
  }

  lemma PartResolves()
    ensures StartsWith(INTO_SCHEME, "#") && Resolve(WITH_SCHEME.document, INTO_SCHEME[1..]) == Some(Object([]))
  {
    Fields();
    SchemesIsPlain();
    InnerResolves(WITH_SCHEME.document, "securitySchemes", "S", "Y", SCHEME);
  }

  lemma PartKey()
    ensures ParseKey(INTO_SCHEME) == Component(KEY_S) && KEY_S.kind != "links"
  {
    SchemesIsPlain();
    InnerSegments("securitySchemes", "S", "Y");
    assert |"securitySchemes"| == 15 && |"links"| == 5;
  }

  lemma IntoScheme()
    ensures KeyOf(Ref(INTO_SCHEME)) == Some(KEY_S) && WITH_SCHEME.Out(Ref(INTO_SCHEME)) == Some({})
  {
    PartResolves();
    PartKey();
    LinksOfPointer(WITH_SCHEME, INTO_SCHEME, KEY_S, Object([]));
    ScanOfEmpty();
  }

  lemma LinksOfPointer(c: Contract, reference: string, key: Key, v: Json)
    requires StartsWith(reference, "#") && ParseKey(reference) == Component(key) && key in c.inventory
    requires key.kind != "links" && Resolve(c.document, reference[1..]) == Some(v)
    ensures c.Out(Ref(reference)) == ScanValue(v)
  {
    ComponentTarget(c, reference, key, v);
  }

  lemma WholeScheme()
    ensures WITH_SCHEME.Out(Scheme("S")) == Some({Ref(TO_Y)})
  {
    Fields();
    ScanOfSchemas([SCHEMA_X, SCHEMA_Y]);
  }

  lemma IntoY()
    ensures KeyOf(Ref(TO_Y)) == Some(KEY_Y) && WITH_SCHEME.Out(Ref(TO_Y)) == Some({})
  {
    Fields();
    EncodedSegments();
    var token := SegmentsOf(TO_Y)[1];
    WholePointer(TO_Y, KEY_Y);
    ComponentsIsPlain();
    SchemasIsPlain();
    WalkToExisting(WITH_SCHEME.document, "components", KINDS_OF_IT, "schemas", [SCHEMA_Y], token);
    ResolveTokens(WITH_SCHEME.document, TO_Y[1..], ["components"] + (["schemas"] + ([token] + [])));
    ScanOfEmpty();
    assert |"schemas"| == 7 && |"links"| == 5;
    LinksOfPointer(WITH_SCHEME, TO_Y, KEY_Y, Object([]));
  }

  lemma MemberText(v: Json, i: nat, t: string)
    requires v.Object? && i < |v.members| && t in Texts(v.members[i].value)
    ensures t in Texts(v)
  {
  }

  lemma PointerIsText()
    ensures INTO_SCHEME in WITH_SCHEME.Universe()
  {
    assert INTO_SCHEME in Texts(Text(INTO_SCHEME));
    MemberText(Reference(INTO_SCHEME), 0, INTO_SCHEME);
    MemberText(PATHS, 0, INTO_SCHEME);
    MemberText(WITH_SCHEME.document, 0, INTO_SCHEME);
  }

  // ---- The two orders ----------------------------------------------------------------------------------

  /** The scheme refers to another component, and the pointer leads to a part of the scheme that does not. */
  ghost predicate Conflict(c: Contract, pointer: string, scheme: string, target: string, key: Key) {
    && pointer in c.Universe() && KeyOf(Ref(pointer)) == Some(Key("securitySchemes", scheme))
    && c.Out(Ref(pointer)) == Some({})
    && c.Out(Scheme(scheme)) == Some({Ref(target)})
    && c.Out(Ref(target)) == Some({}) && KeyOf(Ref(target)) == Some(key) && key.kind != "securitySchemes"
  }

  /** The pointer is into the scheme. */
  lemma ConflictPointsInto(c: Contract, pointer: string, scheme: string, target: string, key: Key)
    requires c.Consistent() && Conflict(c, pointer, scheme, target, key)
    ensures !IsWhole(pointer)
  {
    if IsWhole(pointer) {
      SchemeSharesSuccessors(c, Ref(pointer));
      assert false;
    }
  }

  lemma ConflictExists()
    ensures Conflict(WITH_SCHEME, INTO_SCHEME, "S", TO_Y, KEY_Y) && WITH_SCHEME.Consistent()
  {
    PointerIsText();
    IntoScheme();
    WholeScheme();
    IntoY();
    Listed();
    assert |"schemas"| == 7 && |"securitySchemes"| == 15;
  }

  /** Visiting the pointer cannot fail, and keeps the marks. */
  lemma PointerSucceeds(c: Contract, pointer: string, before: set<Link>, marked: set<Link>, ok: bool)
    requires c.Out(Ref(pointer)) == Some({})
    requires Outcome(OutOf(c), AlsoMarked(), before, marked, Some({Ref(pointer)}), ok)
    ensures ok && before <= marked
  {
    EndIsReached(OutOf(c), Ref(pointer));
  }

  /** From nothing, it marks nothing else. */
  lemma OnlyThePointer(c: Contract, pointer: string, marked: set<Link>, ok: bool)
    requires c.Out(Ref(pointer)) == Some({})
    requires Outcome(OutOf(c), AlsoMarked(), {}, marked, Some({Ref(pointer)}), ok)
    ensures forall l :: l in marked <==> l == Ref(pointer)
  {
    EndIsReached(OutOf(c), Ref(pointer));
    PointerSucceeds(c, pointer, {}, marked, ok);
    assert Covered(AlsoMarked(), marked, Ref(pointer));
  }

  /** Visiting the scheme for a requirement marks what it refers to. */
  lemma TheSchemeAndTarget(c: Contract, scheme: string, target: string, key: Key, marked: set<Link>, ok: bool)
    requires c.Out(Scheme(scheme)) == Some({Ref(target)}) && c.Out(Ref(target)) == Some({})
    requires KeyOf(Ref(target)) == Some(key) && key.kind != "securitySchemes"
    requires Outcome(OutOf(c), AlsoMarked(), {}, marked, Some({Scheme(scheme)}), ok)
    ensures ok && Ref(target) in marked
  {
    var out := OutOf(c);
    ChainIsReached(out, Scheme(scheme), Ref(target));
    if ok {
      assert Covered(AlsoMarked(), marked, Scheme(scheme));
      assert Expanded(out, AlsoMarked(), marked, Scheme(scheme));
      assert Covered(AlsoMarked(), marked, Ref(target));
    }
  }

  lemma KeysOfOne(visited: set<string>, entered: set<string>, reachable: set<Key>, l: Link, key: Key)
    requires KeysAreMarked(visited, entered, reachable) && KeyOf(l) == Some(key)
    requires forall m :: m in Marked(visited, entered) <==> m == l
    ensures reachable == {key}
  {
    forall k
      ensures k in reachable <==> k == key
    {
      if k in reachable {
        var m :| m in Marked(visited, entered) && KeyOf(m) == Some(k);
      }
    }
  }

  method VisitPointer(traversal: Traversal, pointer: string, ghost scheme: string)
    requires traversal.Valid() && traversal.Nodes() == {} && pointer in traversal.contract.Universe()
    requires KeyOf(Ref(pointer)) == Some(Key("securitySchemes", scheme))
             && traversal.contract.Out(Ref(pointer)) == Some({})
    modifies traversal
    ensures traversal.Valid() && traversal.reachable == {Key("securitySchemes", scheme)}
  {
    var ok := traversal.VisitReference(pointer);
    OnlyThePointer(traversal.contract, pointer, traversal.Nodes(), ok);
    KeysOfOne(traversal.visited, traversal.entered, traversal.reachable, Ref(pointer), Key("securitySchemes", scheme));
  }

  /** The pointer is met first: the scheme counts as marked, and the requirement is skipped. */
  method PointerFirst(c: Contract, pointer: string, scheme: string, ghost target: string, ghost key: Key)
    returns (marked: set<Key>)
    requires Conflict(c, pointer, scheme, target, key)
    ensures marked == {Key("securitySchemes", scheme)}
  {
    var traversal := new Traversal(c);
    VisitPointer(traversal, pointer, scheme);
    var ok := traversal.VisitScheme(Member(scheme, Array([])));
    marked := traversal.reachable;
  }

  method VisitRequired(traversal: Traversal, scheme: string, ghost target: string, ghost key: Key)
    requires traversal.Valid() && traversal.Nodes() == {}
    requires traversal.contract.Out(Scheme(scheme)) == Some({Ref(target)})
             && traversal.contract.Out(Ref(target)) == Some({})
    requires KeyOf(Ref(target)) == Some(key) && key.kind != "securitySchemes"
    modifies traversal
    ensures traversal.Valid() && Ref(target) in traversal.Nodes()
  {
    var ok := traversal.VisitScheme(Member(scheme, Array([])));
    TheSchemeAndTarget(traversal.contract, scheme, target, key, traversal.Nodes(), ok);
  }

  lemma KeyOfMarked(visited: set<string>, entered: set<string>, reachable: set<Key>, l: Link)
    requires KeysAreMarked(visited, entered, reachable) && l in Marked(visited, entered) && KeyOf(l).Some?
    ensures KeyOf(l).value in reachable
  {
  }

  method RevisitPointer(traversal: Traversal, pointer: string, ghost l: Link)
    requires traversal.Valid() && l in traversal.Nodes() && pointer in traversal.contract.Universe()
    requires traversal.contract.Out(Ref(pointer)) == Some({})
    modifies traversal
    ensures traversal.Valid() && l in traversal.Nodes()
  {
    ghost var before := traversal.Nodes();
    var ok := traversal.VisitReference(pointer);
    PointerSucceeds(traversal.contract, pointer, before, traversal.Nodes(), ok);
  }

  /** The requirement is met first: all of the scheme is visited, and the other component is marked too. */
  method RequirementFirst(c: Contract, pointer: string, scheme: string, ghost target: string, ghost key: Key)
    returns (marked: set<Key>)
    requires Conflict(c, pointer, scheme, target, key)
    ensures key in marked
  {
    var traversal := new Traversal(c);
    VisitRequired(traversal, scheme, target, key);
    RevisitPointer(traversal, pointer, Ref(target));
    KeyOfMarked(traversal.visited, traversal.entered, traversal.reachable, Ref(target));
    marked := traversal.reachable;
  }
}
