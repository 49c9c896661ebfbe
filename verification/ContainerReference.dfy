/**
 Why a sweep must not be run on a document that refers to its components object:
 the walk through the object also follows the references of components that the
 sweep then removes, so a second sweep removes more.
 */
module ContainerReference {
  import opened Wrappers
  import opened Strings
  import opened JsonPointer
  import opened Reachability
  import opened ComponentGraph
  import opened ComponentTraversal
  import opened ComponentSweep
  import opened ComponentPruning

  const CONTAINER := "#/components"
  const TO_Y := COMPONENT_PREFIX + ("schemas" + "/" + Encode("Y"))
  const KEY_Y := Key("schemas", "Y")
  const SCHEMA_X := Member("X", Reference(TO_Y))
  const SCHEMA_Y := Member("Y", Object([]))

  function Reference(reference: string): Json {
    Object([Member("$ref", Text(reference))])
  }

  function Components(schemas: seq<Member>): Json {
    Object([Member("schemas", Object(schemas))])
  }

  /** One path item, which is a reference to the whole components object. */
  function Document(schemas: seq<Member>): Json {
    Object([Member("paths", Object([Member("/a", Reference(CONTAINER))])), Member("components", Components(schemas))])
  }

  // ---- Small objects -------------------------------------------------------------------------

  lemma LookupInOne(a: Member, name: string)
    ensures Lookup([a], name) == if a.name == name then Some(a.value) else None
  {
    assert [a][1..] == [];
  }

  lemma LookupInTwo(a: Member, b: Member, name: string)
    ensures Lookup([a, b], name) == if a.name == name then Some(a.value) else if b.name == name then Some(b.value)
                                    else None
  {
    assert [a, b][1..] == [b];
    LookupInOne(b, name);
  }

  // ---- Scanning -----------------------------------------------------------------------------

  lemma JoinNothing(f: Found)
    ensures Join(Some({}), f) == f && Join(f, Some({})) == f
  {
    if f.Some? {
      var none: set<Link> := {};
      assert none + f.value == f.value && f.value + none == f.value;
    }
  }

  lemma JoinAllOfOne(part: Found)
    ensures JoinAll([part]) == part
  {
    assert [part][..0] == [];
    JoinNothing(part);
  }

  lemma JoinAllOfTwo(a: Found, b: Found)
    ensures JoinAll([a, b]) == Join(a, b)
  {
    assert [a, b][..1] == [a];
    JoinAllOfOne(a);
  }

  lemma ScanOfReference(reference: string)
    ensures ScanValue(Reference(reference)) == Some({Ref(reference)})
  {
    var v := Reference(reference);
    LookupInOne(v.members[0], "$ref");
    LookupInOne(v.members[0], "$dynamicRef");
    LookupInOne(v.members[0], "responses");
    LookupInOne(v.members[0], "discriminator");
    assert |"$ref"| == 4 && |"$dynamicRef"| == 11 && |"responses"| == 9 && |"discriminator"| == 13;
    assert TextField(v, "$ref") == Some(reference);
    assert Skips(v, v.members[0]);
    assert FieldParts(v) == [Some({})];
    JoinAllOfOne(Some({}));
    JoinNothing(Some({}));
    JoinNothing(ScanRef(v));
  }

  lemma ScanOfEmpty()
    ensures ScanValue(Object([])) == Some({})
  {
    var v := Object([]);
    assert FieldParts(v) == [];
    SchemasHaveNoStructure(v);
    JoinNothing(Some({}));
  }

  lemma PlainFields(v: Json, i: nat)
    requires v.Object? && i < |v.members| && v.members[i].name in {"X", "Y", "schemas", "/a"}
    ensures ScanField(v, i) == ScanValue(v.members[i].value)
  {
    var name := v.members[i].name;
    OtherFirstLetter(name, "x-");
    assert name == "X" || name == "Y" || name == "/a" || name == "schemas";
    assert |"X"| == 1 && |"Y"| == 1 && |"/a"| == 2 && |"schemas"| == 7;
    NotSpecial(name);
  }

  lemma NotSpecial(name: string)
    requires |name| <= 2 || name == "schemas"
    ensures name !in {"$ref", "$dynamicRef", "security", "discriminator", "responses", "links"}
    ensures name !in {"value", "example", "default", "const", "enum", "examples"}
    ensures name !in {"properties", "patternProperties", "dependentSchemas", "$defs", "content", "headers",
                      "callbacks", "encoding", "variables", "scopes"}
  {
    assert |"schemas"| == 7 && |"default"| == 7 && |"example"| == 7 && |"content"| == 7 && |"headers"| == 7;
    assert "schemas"[0] == 's' && "default"[0] == 'd' && "example"[0] == 'e' && "content"[0] == 'c'
           && "headers"[0] == 'h';
    assert |"$ref"| == 4 && |"$dynamicRef"| == 11 && |"security"| == 8 && |"discriminator"| == 13 && |"responses"| == 9;
    assert |"links"| == 5 && |"value"| == 5 && |"const"| == 5 && |"enum"| == 4 && |"examples"| == 8;
    assert |"properties"| == 10 && |"patternProperties"| == 17 && |"dependentSchemas"| == 16 && |"$defs"| == 5;
    assert |"callbacks"| == 9 && |"encoding"| == 8 && |"variables"| == 9 && |"scopes"| == 6;
  }

  lemma SchemasHaveNoStructure(v: Json)
    requires v.Object? && forall i :: 0 <= i < |v.members| ==>
                                        |v.members[i].name| <= 2 || v.members[i].name == "schemas"
    ensures ScanOwn(v) == Some({})
  {
    LookupIsMember(v.members, "$ref");
    LookupIsMember(v.members, "$dynamicRef");
    LookupIsMember(v.members, "responses");
    LookupIsMember(v.members, "discriminator");
    forall i | 0 <= i < |v.members|
      ensures v.members[i].name !in {"$ref", "$dynamicRef", "responses", "discriminator"}
    {
      NotSpecial(v.members[i].name);
    }
    JoinNothing(Some({}));
  }

  lemma ScanOfSchemas(schemas: seq<Member>)
    requires schemas == [SCHEMA_X, SCHEMA_Y] || schemas == [SCHEMA_Y]
    ensures ScanValue(Object(schemas)) == Some(if |schemas| == 2 then {Ref(TO_Y)} else {})
  {
    var v := Object(schemas);
    ScanOfReference(TO_Y);
    ScanOfEmpty();
    PlainFields(v, 0);
    SchemasHaveNoStructure(v);
    JoinNothing(JoinAll(FieldParts(v)));
    JoinNothing(Some({Ref(TO_Y)}));
    if |schemas| == 2 {
      PlainFields(v, 1);
      assert FieldParts(v) == [Some({Ref(TO_Y)}), Some({})];
      JoinAllOfTwo(Some({Ref(TO_Y)}), Some({}));
    } else {
      assert FieldParts(v) == [Some({})];
      JoinAllOfOne(Some({}));
    }
  }

  lemma ScanOfComponents(schemas: seq<Member>)
    requires schemas == [SCHEMA_X, SCHEMA_Y] || schemas == [SCHEMA_Y]
    ensures ScanValue(Components(schemas)) == Some(if |schemas| == 2 then {Ref(TO_Y)} else {})
  {
    var v := Components(schemas);
    ScanOfSchemas(schemas);
    PlainFields(v, 0);
    SchemasHaveNoStructure(v);
    JoinNothing(JoinAll(FieldParts(v)));
    assert FieldParts(v) == [ScanValue(Object(schemas))];
    JoinAllOfOne(ScanValue(Object(schemas)));
  }

  lemma ScanOfPaths()
    ensures ScanExtensibleMap(Object([Member("/a", Reference(CONTAINER))])) == Some({Ref(CONTAINER)})
  {
    var v := Object([Member("/a", Reference(CONTAINER))]);
    ScanOfReference(CONTAINER);
    OtherFirstLetter("/a", "x-");
    assert !StartsWith(v.members[0].name, "x-");
    assert ExtensibleParts(v) == [ScanValue(v.members[0].value)];
    JoinAllOfOne(Some({Ref(CONTAINER)}));
  }

  // ---- The graph of the document ---------------------------------------------------------------

  function ContractOf(schemas: seq<Member>): Contract {
    Contract(Document(schemas), EntryKeys("schemas", schemas))
  }

  lemma Fields(schemas: seq<Member>)
    ensures Get(Document(schemas), "paths") == Some(Object([Member("/a", Reference(CONTAINER))]))
    ensures Get(Document(schemas), "components") == Some(Components(schemas))
    ensures Get(Document(schemas), "webhooks").None? && Get(Document(schemas), "security").None?
    ensures Get(Components(schemas), "schemas") == Some(Object(schemas))
  {
    var a, b := Document(schemas).members[0], Document(schemas).members[1];
    assert Document(schemas).members == [a, b];
    assert |"paths"| == 5 && |"components"| == 10 && |"webhooks"| == 8 && |"security"| == 8;
    LookupInTwo(a, b, "paths");
    LookupInTwo(a, b, "components");
    LookupInTwo(a, b, "webhooks");
    LookupInTwo(a, b, "security");
    LookupInOne(Components(schemas).members[0], "schemas");
  }

  lemma RootsOf(schemas: seq<Member>)
    requires schemas == [SCHEMA_X, SCHEMA_Y] || schemas == [SCHEMA_Y]
    ensures ContractOf(schemas).Roots() == Some({Ref(CONTAINER)})
  {
    Fields(schemas);
    ScanOfPaths();
    assert ContractOf(schemas).ResponseRoots() == {};
  }

  lemma ContainerResolves(schemas: seq<Member>)
    ensures Resolve(Document(schemas), CONTAINER[1..]) == Some(Components(schemas))
  {
    Fields(schemas);
    ContainerPointer();
    assert ["components"] == ["components"] + [];
    ComponentsIsPlain();
    WalkStep(Document(schemas), "components", []);
    ResolveTokens(Document(schemas), CONTAINER[1..], ["components"]);
  }

  lemma ContainerTarget(schemas: seq<Member>)
    ensures ContractOf(schemas).TargetOf(Ref(CONTAINER)) == Some(Target(false, Components(schemas)))
    ensures KeyOf(Ref(CONTAINER)).None?
  {
    ContainerResolves(schemas);
    ContainerPointer();
    PlainTarget(ContractOf(schemas), CONTAINER, Components(schemas));
  }

  lemma ContainerPointer()
    ensures StartsWith(CONTAINER, "#") && ParseKey(CONTAINER).NoComponent?
    ensures CONTAINER[1..] != "" && CONTAINER[1..][0] == '/' && Split(CONTAINER[1..][1..]) == ["components"]
  {
    assert CONTAINER[..1] == "#";
    assert |CONTAINER| == 12 && |COMPONENT_PREFIX| == 13;
    assert CONTAINER[1..][1..] == "components";
    SplitOfSegment("components");
  }

  lemma ContainerLinks(schemas: seq<Member>)
    requires schemas == [SCHEMA_X, SCHEMA_Y] || schemas == [SCHEMA_Y]
    ensures ContractOf(schemas).Out(Ref(CONTAINER)) == Some(if |schemas| == 2 then {Ref(TO_Y)} else {})
  {
    ContainerTarget(schemas);
    ScanOfComponents(schemas);
  }

  lemma YIsKnown()
    ensures KeyOf(Ref(TO_Y)) == Some(KEY_Y)
  {
    assert "schemas" == KINDS[0];
    EncodedReferenceNames("schemas", "Y");
  }

  /** The pointer of a whole reference, token by token. */
  lemma WholePointer(reference: string, key: Key)
    requires ParseKey(reference) == Component(key) && |SegmentsOf(reference)| == 2
    ensures var token := SegmentsOf(reference)[1];
            && StartsWith(reference, "#") && Decode(token) == key.name && key.kind in KINDS
            && reference[1..] != "" && reference[1..][0] == '/'
            && Split(reference[1..][1..]) == ["components"] + ([key.kind] + ([token] + []))
  {
    ComponentTokens(reference);
    assert SegmentsOf(reference)[2..] == [];
    StripPrefix(reference);
    assert reference[..1] == reference[..2][..1] == "#";
  }

  lemma ResolveTokens(document: Json, pointer: string, tokens: seq<string>)
    requires pointer != "" && pointer[0] == '/' && Split(pointer[1..]) == tokens
    ensures Resolve(document, pointer) == Walk(document, tokens)
  {
  }

  lemma SchemasIsPlain()
    ensures "schemas" in KINDS && Decode("schemas") == "schemas"
  {
    assert "schemas" == KINDS[0];
    KindsArePlain("schemas");
    DecodePlain("schemas");
  }

  lemma ComponentsAreObjects(schemas: seq<Member>)
    ensures ObjectsOnly(Components(schemas))
  {
  }

  lemma WalkToExisting(document: Json, root: string, components: Json, kind: string, entries: seq<Member>,
                       token: string)
    requires document.Object? && Decode(root) == root && Decode(kind) == kind
    requires Get(document, root) == Some(components) && ObjectsOnly(components) && kind in KINDS
    requires Get(components, kind) == Some(Object(entries)) && Lookup(entries, Decode(token)).Some?
    ensures Walk(document, [root] + ([kind] + ([token] + []))) == Lookup(entries, Decode(token))
  {
    WalkToKind(document, root, components, kind, token, []);
  }

  lemma WalkToSchema(schemas: seq<Member>, token: string)
    requires Lookup(schemas, Decode(token)).Some?
    ensures Walk(Document(schemas), ["components"] + (["schemas"] + ([token] + []))) == Lookup(schemas, Decode(token))
  {
    Fields(schemas);
    ComponentsIsPlain();
    SchemasIsPlain();
    ComponentsAreObjects(schemas);
    WalkToExisting(Document(schemas), "components", Components(schemas), "schemas", schemas, token);
  }

  /** A whole reference to a schema of the document resolves to it. */
  lemma SchemaResolves(schemas: seq<Member>, reference: string, key: Key)
    requires ParseKey(reference) == Component(key) && key.kind == "schemas" && |SegmentsOf(reference)| == 2
    requires Lookup(schemas, key.name).Some?
    ensures StartsWith(reference, "#") && Resolve(Document(schemas), reference[1..]) == Lookup(schemas, key.name)
  {
    var token := SegmentsOf(reference)[1];
    WholePointer(reference, key);
    ResolveTokens(Document(schemas), reference[1..], ["components"] + ([key.kind] + ([token] + [])));
    WalkToSchema(schemas, token);
  }

  lemma YResolves()
    ensures StartsWith(TO_Y, "#") && Resolve(Document([SCHEMA_X, SCHEMA_Y]), TO_Y[1..]) == Some(Object([]))
  {
    EncodedSegments();
    assert "X"[0] != "Y"[0];
    LookupInTwo(SCHEMA_X, SCHEMA_Y, "Y");
    SchemaResolves([SCHEMA_X, SCHEMA_Y], TO_Y, KEY_Y);
  }

  lemma EntryIsListed(kind: string, entries: seq<Member>, i: nat)
    requires i < |entries|
    ensures Key(kind, entries[i].name) in EntryKeys(kind, entries)
  {
  }

  lemma YTarget()
    ensures ContractOf([SCHEMA_X, SCHEMA_Y]).TargetOf(Ref(TO_Y)) == Some(Target(false, Object([])))
  {
    EncodedSegments();
    YResolves();
    EntryIsListed("schemas", [SCHEMA_X, SCHEMA_Y], 1);
    assert |"links"| == 5 && |"schemas"| == 7;
    ComponentTarget(ContractOf([SCHEMA_X, SCHEMA_Y]), TO_Y, KEY_Y, Object([]));
  }

  lemma YLinks()
    ensures ContractOf([SCHEMA_X, SCHEMA_Y]).Out(Ref(TO_Y)) == Some({})
  {
    YTarget();
    YIsKnown();
    ScanOfEmpty();
  }

  lemma EncodedSegments()
    ensures ParseKey(TO_Y) == Component(KEY_Y) && |SegmentsOf(TO_Y)| == 2
  {
    assert "schemas" == KINDS[0];
    EncodedReferenceNames("schemas", "Y");
  }

  /** The first mark is Y alone, the second is empty: the document is sound before and after, and sweeping it again
      removes Y as well. What it lacks for the sweep theorem is that it avoids container references. */
  lemma SecondSweepRemovesMore()
    ensures ContractOf([SCHEMA_X, SCHEMA_Y]).Consistent() && ContractOf([SCHEMA_Y]).Consistent()
    ensures ContractOf([SCHEMA_X, SCHEMA_Y]).Sound() && IsMark(ContractOf([SCHEMA_X, SCHEMA_Y]), {KEY_Y})
    ensures SweptContract(ContractOf([SCHEMA_X, SCHEMA_Y]), {KEY_Y}) == ContractOf([SCHEMA_Y])
    ensures ContractOf([SCHEMA_Y]).Sound() && IsMark(ContractOf([SCHEMA_Y]), {})
    ensures !ContractOf([SCHEMA_X, SCHEMA_Y]).ContainersAreAvoided()
  {
    InventoryIsListed([SCHEMA_X, SCHEMA_Y]);
    InventoryIsListed([SCHEMA_Y]);
    FirstMark();
    FirstSweep();
    SecondMark();
    ContainerIsFollowed();
  }

  lemma ChainIsReached(out: Successors<Link>, a: Link, b: Link)
    requires out(a) == Some({b}) && out(b) == Some({})
    ensures forall l :: Reached(out, {a}, l) <==> l in {a, b}
  {
    StartIsReached(out, {a}, a);
    SuccessorIsReached(out, {a}, a, b);
    forall l | Reached(out, {a}, l)
      ensures l in {a, b}
    {
      ReachedIsLeast(out, {a}, {a, b}, l);
    }
  }

  lemma EndIsReached(out: Successors<Link>, a: Link)
    requires out(a) == Some({})
    ensures forall l :: Reached(out, {a}, l) <==> l == a
  {
    StartIsReached(out, {a}, a);
    forall l | Reached(out, {a}, l)
      ensures l == a
    {
      ReachedIsLeast(out, {a}, {a}, l);
    }
  }

  /** The mark of a graph of two links, of which the second names a component. */
  lemma MarkOfTwo(c: Contract, a: Link, b: Link, key: Key)
    requires c.Roots() == Some({a}) && c.Out(a) == Some({b}) && c.Out(b) == Some({})
    requires KeyOf(a).None? && KeyOf(b) == Some(key)
    ensures c.Sound() && IsMark(c, {key})
  {
    ChainIsReached(OutOf(c), a, b);
    assert c.From({a}, b);
  }

  /** The mark of a graph of one link that names no component. */
  lemma MarkOfOne(c: Contract, a: Link)
    requires c.Roots() == Some({a}) && c.Out(a) == Some({}) && KeyOf(a).None?
    ensures c.Sound() && IsMark(c, {})
  {
    EndIsReached(OutOf(c), a);
  }

  lemma FirstMark()
    ensures ContractOf([SCHEMA_X, SCHEMA_Y]).Sound() && IsMark(ContractOf([SCHEMA_X, SCHEMA_Y]), {KEY_Y})
  {
    var schemas := [SCHEMA_X, SCHEMA_Y];
    RootsOf(schemas);
    ContainerTarget(schemas);
    ContainerLinks(schemas);
    YIsKnown();
    YLinks();
    MarkOfTwo(ContractOf(schemas), Ref(CONTAINER), Ref(TO_Y), KEY_Y);
  }

  lemma InventoryOfOne(kind: string, entries: seq<Member>)
    requires kind in KINDS
    ensures InventoryOf([Member(kind, Object(entries))]) == Some(EntryKeys(kind, entries))
  {
    KindsArePlain(kind);
    assert [Member(kind, Object(entries))][1..] == [];
    var none: set<Key> := {};
    assert EntryKeys(kind, entries) + none == EntryKeys(kind, entries);
  }

  lemma InventoryIsListed(schemas: seq<Member>)
    ensures ContractOf(schemas).Consistent()
  {
    Fields(schemas);
    SchemasIsPlain();
    InventoryOfOne("schemas", schemas);
  }

  lemma ContainerIsFollowed()
    ensures !ContractOf([SCHEMA_X, SCHEMA_Y]).ContainersAreAvoided()
  {
    var contract := ContractOf([SCHEMA_X, SCHEMA_Y]);
    RootsOf([SCHEMA_X, SCHEMA_Y]);
    StartIsReached(OutOf(contract), {Ref(CONTAINER)}, Ref(CONTAINER));
    assert contract.Follows(CONTAINER);
    ContainerIsOne();
  }

  lemma ContainerIsOne()
    ensures !AvoidsContainers(CONTAINER)
  {
    assert CONTAINER[..2] == "#/" && CONTAINER[2..] == "components";
    SplitOfSegment("components");
    ComponentsIsPlain();
  }

  lemma FirstSweep()
    ensures SweptContract(ContractOf([SCHEMA_X, SCHEMA_Y]), {KEY_Y}) == ContractOf([SCHEMA_Y])
  {
    var schemas := [SCHEMA_X, SCHEMA_Y];
    SweepOfSchemas();
    SweepOfDocument();
    assert schemas[1].name == "Y" && schemas[0].name == "X" && "X"[0] != "Y"[0];
    assert EntryKeys("schemas", schemas) * {KEY_Y} == {KEY_Y};
    assert [SCHEMA_Y][0].name == "Y";
    assert EntryKeys("schemas", [SCHEMA_Y]) == {KEY_Y};
  }

  lemma SweepOfSchemas()
    ensures KeepEntries("schemas", [SCHEMA_X, SCHEMA_Y], {KEY_Y}) == [SCHEMA_Y]
  {
    var schemas := [SCHEMA_X, SCHEMA_Y];
    assert schemas[1..] == [SCHEMA_Y] && [SCHEMA_Y][1..] == [];
    assert "X"[0] != "Y"[0];
    assert KeepEntries("schemas", [SCHEMA_Y], {KEY_Y}) == [SCHEMA_Y];
  }

  lemma SweepOfDocument()
    ensures Swept(Document([SCHEMA_X, SCHEMA_Y]), {KEY_Y}) == Document([SCHEMA_Y])
  {
    SweepOfSchemas();
    assert "schemas" == KINDS[0];
    var kinds := Components([SCHEMA_X, SCHEMA_Y]).members;
    assert kinds[1..] == [];
    assert SweepKinds(kinds, {KEY_Y}) == [SweepKind(kinds[0], {KEY_Y})];
    var fields := Document([SCHEMA_X, SCHEMA_Y]).members;
    assert fields[1..] == [fields[1]] && [fields[1]][1..] == [];
    assert |"paths"| == 5 && |"components"| == 10;
    assert SweepFields([fields[1]], {KEY_Y}) == [SweepField(fields[1], {KEY_Y})];
    assert SweepFields(fields, {KEY_Y}) == [fields[0], SweepField(fields[1], {KEY_Y})];
  }

  lemma SecondMark()
    ensures ContractOf([SCHEMA_Y]).Sound() && IsMark(ContractOf([SCHEMA_Y]), {})
  {
    var schemas := [SCHEMA_Y];
    RootsOf(schemas);
    ContainerTarget(schemas);
    ContainerLinks(schemas);
    MarkOfOne(ContractOf(schemas), Ref(CONTAINER));
  }
}
