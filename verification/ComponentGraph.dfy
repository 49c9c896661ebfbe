/**
 The reference graph of an OpenAPI document, as the component traversal of
 backend/rust/crates/api-contract/src/operations.rs sees it. Scanning a value
 yields the links it holds, or None when a value on the way is not the OpenAPI
 structure that its place demands; a link leads to the value it points at.
 */
module ComponentGraph {
  import opened Wrappers
  import opened Strings
  import opened JsonPointer
  import opened Reachability

  datatype Key = Key(kind: string, name: string)

  /** A local reference, or the scheme of a security requirement. */
  datatype Link = Ref(reference: string) | Scheme(name: string)

  type Found = Option<set<Link>>

  const KINDS := ["schemas", "responses", "parameters", "examples", "requestBodies",
                  "headers", "securitySchemes", "links", "callbacks", "pathItems"]
  const COMPONENT_PREFIX := "#/components/"

  // ---- Field rules ------------------------------------------------------------------------------

  function TextField(v: Json, name: string): Option<string> {
    var field := Get(v, name);
    if field.Some? && field.value.Text? then Some(field.value.text) else None
  }

  predicate HasSecurity(v: Json) {
    Get(v, "responses").Some? && Get(v, "security").Some? && Get(v, "security").value.Array?
  }

  /** is_instance_data_field. */
  predicate IsInstanceData(name: string, value: Json) {
    name in {"value", "example", "default", "const", "enum"} || (name == "examples" && value.Array?)
  }

  /** is_named_structure_map. */
  predicate IsNamedMap(name: string, value: Json) {
    value.Object? && name in {"properties", "patternProperties", "dependentSchemas", "$defs", "content", "headers",
                              "callbacks", "examples", "encoding", "variables", "scopes"}
  }

  /** A field of an object that the general walk does not enter. */
  predicate Skips(v: Json, field: Member) {
    || (field.name == "$ref" && TextField(v, "$ref").Some?)
    || (field.name == "$dynamicRef" && TextField(v, "$dynamicRef").Some?)
    || (field.name == "security" && HasSecurity(v))
    || field.name == "discriminator"
    || StartsWith(field.name, "x-")
    || IsInstanceData(field.name, field.value)
  }

  predicate SkipsInLink(field: Member) {
    field.name in {"parameters", "requestBody"} || StartsWith(field.name, "x-")
  }

  /** A discriminator target that is not a reference names a schema. */
  function TargetReference(target: string): string {
    if StartsWith(target, "#") then target else COMPONENT_PREFIX + ("schemas" + "/" + Encode(target))
  }

  function ResponseReference(name: string): string {
    COMPONENT_PREFIX + ("responses" + "/" + Encode(name))
  }

  // ---- Scanning -----------------------------------------------------------------------------------

  function ScanRef(v: Json): Found {
    Some(if TextField(v, "$ref").Some? then {Ref(TextField(v, "$ref").value)} else {})
  }

  function ScanDynamicRef(v: Json): Found {
    if TextField(v, "$dynamicRef").Some? then None else Some({})
  }

  function ScanScheme(scheme: Member): Found {
    if scheme.value.Array? then Some({Scheme(scheme.name)}) else None
  }

  function SchemeParts(requirement: Json): (parts: seq<Found>)
    requires requirement.Object?
    ensures |parts| == |requirement.members|
  {
    seq(|requirement.members|, i requires 0 <= i < |requirement.members| => ScanScheme(requirement.members[i]))
  }

  function ScanRequirement(v: Json): Found {
    if v.Object? then JoinAll(SchemeParts(v)) else None
  }

  function RequirementParts(v: Json): (parts: seq<Found>)
    requires v.Array?
    ensures |parts| == |v.items|
  {
    seq(|v.items|, i requires 0 <= i < |v.items| => ScanRequirement(v.items[i]))
  }

  /** A list of security requirements. */
  function ScanSecurity(v: Json): Found {
    if v.Array? then JoinAll(RequirementParts(v)) else None
  }

  function ScanVariant(variant: Member): Found {
    if variant.value.Text? then Some({Ref(TargetReference(variant.value.text))}) else None
  }

  function VariantParts(mapping: Json): (parts: seq<Found>)
    requires mapping.Object?
    ensures |parts| == |mapping.members|
  {
    seq(|mapping.members|, i requires 0 <= i < |mapping.members| => ScanVariant(mapping.members[i]))
  }

  function ScanDiscriminator(v: Json): Found {
    if !v.Object? then None
    else if Get(v, "mapping").None? then Some({})
    else if Get(v, "mapping").value.Object? then JoinAll(VariantParts(Get(v, "mapping").value))
    else None
  }

  function ScanObjectSecurity(v: Json): Found {
    if HasSecurity(v) then ScanSecurity(Get(v, "security").value) else Some({})
  }

  function ScanObjectDiscriminator(v: Json): Found {
    if Get(v, "discriminator").Some? then ScanDiscriminator(Get(v, "discriminator").value) else Some({})
  }

  /** What an object says about itself: reference, security requirements, discriminator. */
  function ScanOwn(v: Json): Found {
    Join(Join(ScanRef(v), ScanDynamicRef(v)), Join(ScanObjectSecurity(v), ScanObjectDiscriminator(v)))
  }

  function ScanValue(v: Json): Found
    decreases v, 2
  {
    match v
    case Object(_) => Join(ScanOwn(v), JoinAll(FieldParts(v)))
    case Array(items) => JoinAll(ItemParts(v))
    case _ => Some({})
  }

  function ItemParts(v: Json): (parts: seq<Found>)
    requires v.Array?
    ensures |parts| == |v.items|
    decreases v, 1
  {
    seq(|v.items|, i requires 0 <= i < |v.items| => ScanValue(v.items[i]))
  }

  function FieldParts(v: Json): (parts: seq<Found>)
    requires v.Object?
    ensures |parts| == |v.members|
    decreases v, 1
  {
    seq(|v.members|, i requires 0 <= i < |v.members| => ScanField(v, i))
  }

  function ScanField(v: Json, i: nat): Found
    requires v.Object? && i < |v.members|
    decreases v, 0
  {
    var field := v.members[i];
    if Skips(v, field) then Some({})
    else if field.name == "responses" && field.value.Object? then ScanExtensibleMap(field.value)
    else if field.name == "links" && field.value.Object? then ScanLinks(field.value)
    else if IsNamedMap(field.name, field.value) then ScanMap(field.value)
    else ScanValue(field.value)
  }

  /** A map from names to structure. */
  function ScanMap(v: Json): Found
    decreases v, 2
  {
    if v.Object? then JoinAll(EntryParts(v)) else None
  }

  function EntryParts(v: Json): (parts: seq<Found>)
    requires v.Object?
    ensures |parts| == |v.members|
    decreases v, 1
  {
    seq(|v.members|, i requires 0 <= i < |v.members| => ScanValue(v.members[i].value))
  }

  /** A map that may also carry x- fields. */
  function ScanExtensibleMap(v: Json): Found
    decreases v, 2
  {
    if v.Object? then JoinAll(ExtensibleParts(v)) else None
  }

  function ExtensibleParts(v: Json): (parts: seq<Found>)
    requires v.Object?
    ensures |parts| == |v.members|
    decreases v, 1
  {
    seq(|v.members|, i requires 0 <= i < |v.members| =>
      if StartsWith(v.members[i].name, "x-") then Some({}) else ScanValue(v.members[i].value))
  }

  function ScanLinks(v: Json): Found
    decreases v, 2
  {
    if v.Object? then JoinAll(LinkParts(v)) else None
  }

  function LinkParts(v: Json): (parts: seq<Found>)
    requires v.Object?
    ensures |parts| == |v.members|
    decreases v, 1
  {
    seq(|v.members|, i requires 0 <= i < |v.members| => ScanLink(v.members[i].value))
  }

  /** A link object: a reference, or fields of which the parameters and the request body are instance data. */
  function ScanLink(v: Json): Found
    decreases v, 2
  {
    if !v.Object? then None
    else if TextField(v, "$ref").Some? then ScanRef(v)
    else if TextField(v, "$dynamicRef").Some? then None
    else JoinAll(LinkFieldParts(v))
  }

  function LinkFieldParts(v: Json): (parts: seq<Found>)
    requires v.Object?
    ensures |parts| == |v.members|
    decreases v, 1
  {
    seq(|v.members|, i requires 0 <= i < |v.members| =>
      if SkipsInLink(v.members[i]) then Some({}) else ScanValue(v.members[i].value))
  }

  // ---- Component keys -------------------------------------------------------------------------------

  datatype KeyOfReference = NoComponent | Malformed | Component(key: Key)

  /** component_key_from_reference. */
  function ParseKey(reference: string): KeyOfReference {
    if !StartsWith(reference, COMPONENT_PREFIX) then NoComponent
    else
      var segments := Split(reference[|COMPONENT_PREFIX|..]);
      if |segments| < 2 || segments[0] !in KINDS then Malformed
      else Component(Key(Decode(segments[0]), Decode(segments[1])))
  }

  function KeyOf(l: Link): Option<Key> {
    match l
    case Scheme(name) => Some(Key("securitySchemes", name))
    case Ref(reference) => if ParseKey(reference).Component? then Some(ParseKey(reference).key) else None
  }

  /** The link leads to this security scheme, or into it. */
  predicate Names(l: Link, scheme: string) {
    KeyOf(l) == Some(Key("securitySchemes", scheme))
  }

  /** The segments behind the components prefix, if the reference has it. */
  function SegmentsOf(reference: string): seq<string> {
    if StartsWith(reference, COMPONENT_PREFIX) then Split(reference[|COMPONENT_PREFIX|..]) else []
  }

  /** A reference into the components names a component and points at nothing inside it. */
  predicate IsWhole(reference: string) {
    ParseKey(reference).Component? ==> |SegmentsOf(reference)| == 2
  }

  /** The pointer is neither to the whole document nor to its components object. */
  predicate AvoidsContainers(reference: string) {
    && reference != "#"
    && (StartsWith(reference, "#/") && |Split(reference[2..])| == 1 ==>
          Decode(Split(reference[2..])[0]) != "components")
  }

  // ---- The graph ---------------------------------------------------------------------------------------

  datatype Target = Target(isLink: bool, value: Json)

  /** serde_json's document["components"][kind][name], which is Null where something is missing. */
  function Entry(document: Json, kind: string, name: string): Json {
    var components := Get(document, "components");
    var entries := if components.Some? then Get(components.value, kind) else None;
    var entry := if entries.Some? then Get(entries.value, name) else None;
    if entry.Some? then entry.value else Null
  }

  datatype Contract = Contract(document: Json, inventory: set<Key>) {
    /** The value a link leads to, unless it is external, unresolved or of an unknown component. */
    function TargetOf(l: Link): Option<Target> {
      match l
      case Scheme(name) =>
        if Key("securitySchemes", name) in inventory then Some(Target(false, Entry(document, "securitySchemes", name)))
        else None
      case Ref(reference) =>
        if !StartsWith(reference, "#") then None
        else
          var target := Resolve(document, reference[1..]);
          var key := ParseKey(reference);
          if target.None? || key.Malformed? || (key.Component? && key.key !in inventory) then None
          else Some(Target(key.Component? && key.key.kind == "links", target.value))
    }

    function ScanTarget(t: Target): Found {
      if t.isLink then ScanLink(t.value) else ScanValue(t.value)
    }

    /** The links behind a link. */
    function Out(l: Link): Found {
      var t := TargetOf(l);
      if t.None? then None else ScanTarget(t.value)
    }

    /** l can be reached by following links from one of these. */
    ghost predicate From(from: set<Link>, l: Link) {
      Reached((m: Link) => Out(m), from, l)
    }

    /** The inventory is that of the document. */
    ghost predicate Consistent() {
      Inventory(document) == Some(inventory)
    }

    /** Every reference string that the traversal can meet. */
    ghost function Universe(): set<string> {
      Texts(document) + (set t | t in Texts(document) :: TargetReference(t))
      + (set key | key in inventory && key.kind == "responses" :: ResponseReference(key.name))
    }

    /** What the traversal starts from: paths, webhooks, security, and all response components. */
    function Roots(): Found {
      var paths := Get(document, "paths");
      if paths.None? then None
      else Join(Join(Join(ScanExtensibleMap(paths.value), WebhookLinks()), SecurityLinks()), Some(ResponseRoots()))
    }

    function WebhookLinks(): Found {
      var webhooks := Get(document, "webhooks");
      if webhooks.Some? then ScanExtensibleMap(webhooks.value) else Some({})
    }

    function SecurityLinks(): Found {
      var security := Get(document, "security");
      if security.Some? then ScanSecurity(security.value) else Some({})
    }

    function ResponseRoots(): set<Link> {
      set key | key in inventory && key.kind == "responses" :: Ref(ResponseReference(key.name))
    }

    /** The components of all links that can be reached. */
    ghost predicate Reaches(key: Key) {
      Roots().Some? && exists l :: From(Roots().value, l) && KeyOf(l) == Some(key)
    }

    /** Everything reachable is well formed. */
    ghost predicate Sound() {
      Roots().Some? && forall l :: From(Roots().value, l) ==> Out(l).Some?
    }

    /** The reference can be reached from the roots. */
    ghost predicate Follows(reference: string) {
      Roots().Some? && From(Roots().value, Ref(reference))
    }

    /** No security scheme that a reached requirement names is pointed into by a reached reference. */
    ghost predicate SchemesAreWhole() {
      forall name, r :: Roots().Some? && From(Roots().value, Scheme(name)) && Follows(r) && Names(Ref(r), name) ==>
                          IsWhole(r)
    }

    /** No reached reference is to the document or to its components object, which a sweep changes. */
    ghost predicate ContainersAreAvoided() {
      forall r :: Follows(r) ==> AvoidsContainers(r)
    }

    /** Every reached reference into the components is to a whole one. */
    ghost predicate ReferencesAreWhole() {
      forall r :: Follows(r) ==> IsWhole(r)
    }
  }

  // ---- The inventory ----------------------------------------------------------------------------------------

  function EntryKeys(kind: string, entries: seq<Member>): set<Key> {
    set i | 0 <= i < |entries| :: Key(kind, entries[i].name)
  }

  function InventoryOf(components: seq<Member>): Option<set<Key>> {
    if components == [] then Some({})
    else
      var first, rest := components[0], InventoryOf(components[1..]);
      if StartsWith(first.name, "x-") then rest
      else if first.name !in KINDS || !first.value.Object? || rest.None? then None
      else Some(EntryKeys(first.name, first.value.members) + rest.value)
  }

  /** component_inventory. */
  function Inventory(document: Json): Option<set<Key>> {
    var components := Get(document, "components");
    if components.None? || !components.value.Object? then None else InventoryOf(components.value.members)
  }

  // ---- References to whole components -----------------------------------------------------------------------

  lemma OtherFirstLetter(s: string, prefix: string)
    requires s != "" && prefix != "" && s[0] != prefix[0]
    ensures !StartsWith(s, prefix)
  {
  }

  lemma KindsArePlain(kind: string)
    requires kind in KINDS
    ensures NoTilde(kind) && NoSlash(kind) && !StartsWith(kind, "x-")
  {
    assert kind == "schemas" || kind == "responses" || kind == "parameters" || kind == "examples"
           || kind == "requestBodies"
           || kind == "headers" || kind == "securitySchemes" || kind == "links" || kind == "callbacks"
           || kind == "pathItems";
    OtherFirstLetter(kind, "x-");
  }

  lemma EncodedIsOneSegment(name: string)
    ensures Split(Encode(name)) == [Encode(name)]
  {
    EncodeIsCanonical(name);
    forall i | 0 <= i < |Encode(name)|
      ensures Encode(name)[i] != '/'
    {
      assert EscapedAt(Encode(name), i);
    }
    SplitOfSegment(Encode(name));
  }

  /** The reference to a component as the contract generator writes it names exactly that component. */
  lemma EncodedReferenceNames(kind: string, name: string)
    requires kind in KINDS
    ensures var reference := COMPONENT_PREFIX + (kind + "/" + Encode(name));
            ParseKey(reference) == Component(Key(kind, name)) && IsWhole(reference)
  {
    var rest := kind + "/" + Encode(name);
    var reference := COMPONENT_PREFIX + rest;
    assert reference[..|COMPONENT_PREFIX|] == COMPONENT_PREFIX;
    assert reference[|COMPONENT_PREFIX|..] == rest;
    KindsArePlain(kind);
    EncodedIsOneSegment(name);
    SplitOfJoin(kind, Encode(name));
    assert Split(rest) == [kind, Encode(name)];
    DecodePlain(kind);
    DecodeEncode(name);
  }

  /** The components object and its kinds are objects. */
  predicate ObjectsOnly(components: Json) {
    components.Object? && forall i :: 0 <= i < |components.members| && components.members[i].name in KINDS ==>
                                        components.members[i].value.Object?
  }

  lemma WalkStep(v: Json, token: string, tokens: seq<string>)
    ensures Walk(v, [token] + tokens) == if Child(v, Decode(token)).None? then None
                                         else Walk(Child(v, Decode(token)).value, tokens)
  {
    assert ([token] + tokens)[1..] == tokens;
  }

  /** The walk from a field to an entry of one of the kinds in it, and on from there. */
  lemma WalkToKind(document: Json, root: string, components: Json, kind: string, name: string, inner: seq<string>)
    requires document.Object? && Decode(root) == root && Decode(kind) == kind
    requires Get(document, root) == Some(components) && ObjectsOnly(components) && kind in KINDS
    ensures Walk(document, [root] + ([kind] + ([name] + inner)))
         == if Get(components, kind).Some? && Get(Get(components, kind).value, Decode(name)).Some?
            then Walk(Get(Get(components, kind).value, Decode(name)).value, inner) else None
  {
    WalkStep(document, root, [kind] + ([name] + inner));
    WalkStep(components, kind, [name] + inner);
    if Get(components, kind).Some? {
      LookupIsMember(components.members, kind);
      WalkStep(Get(components, kind).value, name, inner);
    }
  }

  lemma ComponentsIsPlain()
    ensures Decode("components") == "components"
  {
    assert NoTilde("components");
    DecodePlain("components");
  }

  /** A pointer to or into a component walks on from the component's entry. */
  lemma WalkToEntry(document: Json, kind: string, name: string, inner: seq<string>)
    requires document.Object? && Get(document, "components").Some? && ObjectsOnly(Get(document, "components").value)
    requires kind in KINDS && Walk(document, ["components"] + ([kind] + ([name] + inner))).Some?
    ensures Walk(document, ["components"] + ([kind] + ([name] + inner)))
         == Walk(Entry(document, kind, Decode(name)), inner)
  {
    ComponentsIsPlain();
    KindsArePlain(kind);
    DecodePlain(kind);
    WalkToKind(document, "components", Get(document, "components").value, kind, name, inner);
  }

  lemma StripPrefix(reference: string)
    requires StartsWith(reference, COMPONENT_PREFIX)
    ensures StartsWith(reference, "#/")
    ensures reference[1..] != "" && reference[1..][0] == '/'
    ensures reference[1..][1..] == "components" + "/" + reference[|COMPONENT_PREFIX|..]
  {
    assert COMPONENT_PREFIX == "#/" + ("components" + "/");
    assert reference[..2] == reference[..|COMPONENT_PREFIX|][..2] == "#/";
    var tail := reference[1..][1..];
    assert tail == reference[2..];
    assert reference[2..|COMPONENT_PREFIX|] == reference[..|COMPONENT_PREFIX|][2..] == "components" + "/";
    assert tail == reference[2..|COMPONENT_PREFIX|] + reference[|COMPONENT_PREFIX|..];
  }

  lemma PrefixedTokens(reference: string, segments: seq<string>)
    requires StartsWith(reference, COMPONENT_PREFIX) && segments == SegmentsOf(reference) && |segments| >= 2
    ensures reference[1..] != "" && reference[1..][0] == '/'
    ensures Split(reference[1..][1..]) == ["components"] + ([segments[0]] + ([segments[1]] + segments[2..]))
  {
    StripPrefix(reference);
    SplitOfJoin("components", reference[|COMPONENT_PREFIX|..]);
    assert segments == [segments[0]] + ([segments[1]] + segments[2..]);
  }

  /** The key of a component reference is its first two segments, and its pointer starts with them. */
  lemma ComponentTokens(reference: string)
    requires ParseKey(reference).Component?
    ensures var segments := SegmentsOf(reference);
            && |segments| >= 2 && segments[0] in KINDS && Decode(segments[0]) == segments[0]
            && ParseKey(reference).key == Key(segments[0], Decode(segments[1]))
            && reference[1..] != "" && reference[1..][0] == '/'
            && Split(reference[1..][1..]) == ["components"] + ([segments[0]] + ([segments[1]] + segments[2..]))
  {
    var segments := SegmentsOf(reference);
    KindsArePlain(segments[0]);
    DecodePlain(segments[0]);
    PrefixedTokens(reference, segments);
  }

  lemma {:induction false} InventoryIsOfObjects(components: seq<Member>)
    requires InventoryOf(components).Some?
    ensures forall i :: 0 <= i < |components| && components[i].name in KINDS ==> components[i].value.Object?
  {
    if components != [] {
      InventoryIsOfObjects(components[1..]);
      if components[0].name in KINDS {
        KindsArePlain(components[0].name);
      }
      forall i | 0 <= i < |components| && components[i].name in KINDS
        ensures components[i].value.Object?
      {
        assert i > 0 ==> components[i] == components[1..][i - 1];
      }
    }
  }

  /** A reference that names no component leads to what it resolves to. */
  lemma PlainTarget(c: Contract, reference: string, v: Json)
    requires StartsWith(reference, "#") && ParseKey(reference).NoComponent?
             && Resolve(c.document, reference[1..]) == Some(v)
    ensures c.TargetOf(Ref(reference)) == Some(Target(false, v)) && KeyOf(Ref(reference)).None?
  {
  }

  /** A reference to or into a known component leads to what it resolves to. */
  lemma ComponentTarget(c: Contract, reference: string, key: Key, v: Json)
    requires StartsWith(reference, "#") && ParseKey(reference) == Component(key) && key in c.inventory
    requires Resolve(c.document, reference[1..]) == Some(v)
    ensures c.TargetOf(Ref(reference)) == Some(Target(key.kind == "links", v))
  {
  }

  /** A reference to or into a component resolves from the entry of the component it names. */
  lemma ReferenceWalksFromEntry(contract: Contract, reference: string)
    requires contract.Consistent() && ParseKey(reference).Component?
    requires Resolve(contract.document, reference[1..]).Some?
    ensures var key := ParseKey(reference).key;
            Resolve(contract.document, reference[1..])
            == Walk(Entry(contract.document, key.kind, key.name), SegmentsOf(reference)[2..])
  {
    ComponentTokens(reference);
    var segments := SegmentsOf(reference);
    InventoryIsOfObjects(Get(contract.document, "components").value.members);
    WalkToEntry(contract.document, segments[0], segments[1], segments[2..]);
  }

  /** A whole reference leads to the entry of the component it names. */
  lemma WholeReferenceIsEntry(contract: Contract, reference: string)
    requires contract.Consistent() && ParseKey(reference).Component? && |SegmentsOf(reference)| == 2
    requires Resolve(contract.document, reference[1..]).Some?
    ensures var key := ParseKey(reference).key;
            Resolve(contract.document, reference[1..]) == Some(Entry(contract.document, key.kind, key.name))
  {
    ReferenceWalksFromEntry(contract, reference);
    assert SegmentsOf(reference)[2..] == [];
  }
}
