/**
 Sweeping a document that may refer to its components object. The walk through
 that object shrinks with every sweep, so that one sweep need not be enough;
 each one keeps the document sound, and repeated sweeping settles.
 */
module RepeatedSweep {
  import opened Wrappers
  import opened Strings
  import opened JsonPointer
  import opened Reachability
  import opened ComponentGraph
  import opened ComponentTraversal
  import opened ComponentSweep
  import opened ComponentPruning

  // ---- Fewer parts ---------------------------------------------------------------------------

  /** f is sound where g is, and finds nothing else. */
  predicate Shrinks(f: Found, g: Found) {
    g.Some? ==> f.Some? && f.value <= g.value
  }

  lemma {:induction false} PartIsJoined(parts: seq<Found>, i: nat)
    requires i < |parts| && JoinAll(parts).Some?
    ensures parts[i].Some? && parts[i].value <= JoinAll(parts).value
  {
    if i < |parts| - 1 {
      PartIsJoined(parts[..|parts| - 1], i);
    }
  }

  predicate ShrinksOne(f: Found, large: seq<Found>) {
    exists j :: 0 <= j < |large| && Shrinks(f, large[j])
  }

  /** Every part of the one list shrinks some part of the other. */
  predicate PartsShrink(small: seq<Found>, large: seq<Found>) {
    forall i :: 0 <= i < |small| ==> ShrinksOne(small[i], large)
  }

  lemma {:induction false} JoinShrinks(small: seq<Found>, large: seq<Found>)
    requires PartsShrink(small, large)
    ensures Shrinks(JoinAll(small), JoinAll(large))
  {
    if small != [] && JoinAll(large).Some? {
      var last := |small| - 1;
      assert forall i :: 0 <= i < last ==> small[..last][i] == small[i];
      JoinShrinks(small[..last], large);
      assert ShrinksOne(small[last], large);
      var j :| 0 <= j < |large| && Shrinks(small[last], large[j]);
      PartIsJoined(large, j);
    }
  }

  // ---- Fewer entries ---------------------------------------------------------------------------

  lemma {:induction false} KeptIsEntry(kind: string, entries: seq<Member>, keep: set<Key>, i: nat)
    requires i < |KeepEntries(kind, entries, keep)|
    ensures KeepEntries(kind, entries, keep)[i] in entries
            && Key(kind, KeepEntries(kind, entries, keep)[i].name) in keep
  {
    if Key(kind, entries[0].name) in keep {
      if i > 0 {
        KeptIsEntry(kind, entries[1..], keep, i - 1);
      }
    } else {
      KeptIsEntry(kind, entries[1..], keep, i);
    }
  }

  lemma KeptMapShrinks(kind: string, entries: seq<Member>, keep: set<Key>)
    ensures Shrinks(ScanMap(Object(KeepEntries(kind, entries, keep))), ScanMap(Object(entries)))
  {
    var kept, all := Object(KeepEntries(kind, entries, keep)), Object(entries);
    forall i | 0 <= i < |kept.members|
      ensures ShrinksOne(EntryParts(kept)[i], EntryParts(all))
    {
      KeptIsEntry(kind, entries, keep, i);
      var j :| 0 <= j < |entries| && entries[j] == kept.members[i];
      assert EntryParts(kept)[i] == EntryParts(all)[j];
    }
    JoinShrinks(EntryParts(kept), EntryParts(all));
  }

  lemma KeptExtensibleMapShrinks(kind: string, entries: seq<Member>, keep: set<Key>)
    ensures Shrinks(ScanExtensibleMap(Object(KeepEntries(kind, entries, keep))), ScanExtensibleMap(Object(entries)))
  {
    var kept, all := Object(KeepEntries(kind, entries, keep)), Object(entries);
    forall i | 0 <= i < |kept.members|
      ensures ShrinksOne(ExtensibleParts(kept)[i], ExtensibleParts(all))
    {
      KeptIsEntry(kind, entries, keep, i);
      var j :| 0 <= j < |entries| && entries[j] == kept.members[i];
      assert ExtensibleParts(kept)[i] == ExtensibleParts(all)[j];
    }
    JoinShrinks(ExtensibleParts(kept), ExtensibleParts(all));
  }

  lemma KeptLinksShrink(kind: string, entries: seq<Member>, keep: set<Key>)
    ensures Shrinks(ScanLinks(Object(KeepEntries(kind, entries, keep))), ScanLinks(Object(entries)))
  {
    var kept, all := Object(KeepEntries(kind, entries, keep)), Object(entries);
    forall i | 0 <= i < |kept.members|
      ensures ShrinksOne(LinkParts(kept)[i], LinkParts(all))
    {
      KeptIsEntry(kind, entries, keep, i);
      var j :| 0 <= j < |entries| && entries[j] == kept.members[i];
      assert LinkParts(kept)[i] == LinkParts(all)[j];
    }
    JoinShrinks(LinkParts(kept), LinkParts(all));
  }

  /** No entry reads as a list of security requirements. Such an entry is scanned as one only beside an entry called
      "responses", and as plain structure when the sweep has removed that one. */
  predicate NoSecurityList(entries: seq<Member>) {
    forall k :: 0 <= k < |entries| && entries[k].name == "security" ==> !entries[k].value.Array?
  }

  lemma NoSecurity(entries: seq<Member>)
    requires NoSecurityList(entries)
    ensures !HasSecurity(Object(entries))
  {
    LookupIsMember(entries, "security");
  }

  lemma KeptHasNoSecurityList(kind: string, entries: seq<Member>, keep: set<Key>)
    requires NoSecurityList(entries)
    ensures NoSecurityList(KeepEntries(kind, entries, keep))
  {
    forall i | 0 <= i < |KeepEntries(kind, entries, keep)| && KeepEntries(kind, entries, keep)[i].name == "security"
      ensures !KeepEntries(kind, entries, keep)[i].value.Array?
    {
      KeptIsEntry(kind, entries, keep, i);
    }
  }

  lemma KeptOwnShrinks(kind: string, entries: seq<Member>, keep: set<Key>)
    requires NoSecurityList(entries)
    ensures Shrinks(ScanOwn(Object(KeepEntries(kind, entries, keep))), ScanOwn(Object(entries)))
  {
    KeptHasNoSecurityList(kind, entries, keep);
    NoSecurity(entries);
    NoSecurity(KeepEntries(kind, entries, keep));
    KeptLookup(kind, entries, keep, "$ref");
    KeptLookup(kind, entries, keep, "$dynamicRef");
    KeptLookup(kind, entries, keep, "discriminator");
  }

  /** A kept entry is scanned as it was. */
  lemma KeptFieldStays(kind: string, entries: seq<Member>, keep: set<Key>, i: nat, j: nat)
    requires NoSecurityList(entries) && i < |KeepEntries(kind, entries, keep)| && j < |entries|
    requires entries[j] == KeepEntries(kind, entries, keep)[i] && Key(kind, entries[j].name) in keep
    ensures ScanField(Object(KeepEntries(kind, entries, keep)), i) == ScanField(Object(entries), j)
  {
    KeptHasNoSecurityList(kind, entries, keep);
    NoSecurity(entries);
    NoSecurity(KeepEntries(kind, entries, keep));
    KeptLookup(kind, entries, keep, entries[j].name);
    assert Skips(Object(KeepEntries(kind, entries, keep)), entries[j]) == Skips(Object(entries), entries[j]);
  }

  lemma KeptObjectShrinks(kind: string, entries: seq<Member>, keep: set<Key>)
    requires NoSecurityList(entries)
    ensures Shrinks(ScanValue(Object(KeepEntries(kind, entries, keep))), ScanValue(Object(entries)))
  {
    var kept, all := Object(KeepEntries(kind, entries, keep)), Object(entries);
    KeptOwnShrinks(kind, entries, keep);
    forall i | 0 <= i < |kept.members|
      ensures ShrinksOne(FieldParts(kept)[i], FieldParts(all))
    {
      KeptIsEntry(kind, entries, keep, i);
      var j :| 0 <= j < |entries| && entries[j] == kept.members[i];
      KeptFieldStays(kind, entries, keep, i, j);
      assert FieldParts(kept)[i] == FieldParts(all)[j];
    }
    JoinShrinks(FieldParts(kept), FieldParts(all));
  }

  // ---- The components object and the document ------------------------------------------------------

  predicate PlainKinds(kinds: seq<Member>) {
    forall j :: 0 <= j < |kinds| && kinds[j].value.Object? ==> NoSecurityList(kinds[j].value.members)
  }

  /** No component is a list called "security". */
  predicate Plain(document: Json) {
    && document.Object?
    && forall i :: 0 <= i < |document.members| && document.members[i].name == "components"
                   && document.members[i].value.Object? ==>
                     PlainKinds(document.members[i].value.members)
  }

  lemma {:induction false} SweptKindsAt(kinds: seq<Member>, keep: set<Key>)
    ensures |SweepKinds(kinds, keep)| == |kinds|
    ensures forall i :: 0 <= i < |kinds| ==> SweepKinds(kinds, keep)[i] == SweepKind(kinds[i], keep)
  {
    if kinds != [] {
      SweptKindsAt(kinds[1..], keep);
    }
  }

  lemma {:induction false} SweptFieldsAt(fields: seq<Member>, keep: set<Key>)
    ensures |SweepFields(fields, keep)| == |fields|
    ensures forall i :: 0 <= i < |fields| ==> SweepFields(fields, keep)[i] == SweepField(fields[i], keep)
  {
    if fields != [] {
      SweptFieldsAt(fields[1..], keep);
    }
  }

  /** The value of one kind shrinks, whichever way its field is scanned. */
  lemma KindShrinks(kind: Member, keep: set<Key>)
    requires kind.value.Object? ==> NoSecurityList(kind.value.members)
    ensures var swept := SweepKind(kind, keep);
            && Shrinks(ScanValue(swept.value), ScanValue(kind.value))
            && Shrinks(ScanMap(swept.value), ScanMap(kind.value))
            && Shrinks(ScanExtensibleMap(swept.value), ScanExtensibleMap(kind.value))
            && Shrinks(ScanLinks(swept.value), ScanLinks(kind.value))
  {
    if kind.value.Object? {
      KeptObjectShrinks(kind.name, kind.value.members, keep);
      KeptMapShrinks(kind.name, kind.value.members, keep);
      KeptExtensibleMapShrinks(kind.name, kind.value.members, keep);
      KeptLinksShrink(kind.name, kind.value.members, keep);
    }
  }

  /** A field of a kind keeps its rule. */
  lemma RuleIsKept(before: Json, after: Json, i: nat)
    requires before.Object? && after.Object? && i < |before.members| && |after.members| == |before.members|
    requires after.members[i].name == before.members[i].name
    requires SameShape(after.members[i].value, before.members[i].value)
    requires TextField(after, "$ref").Some? <==> TextField(before, "$ref").Some?
    requires TextField(after, "$dynamicRef").Some? <==> TextField(before, "$dynamicRef").Some?
    requires HasSecurity(after) <==> HasSecurity(before)
    requires Shrinks(ScanValue(after.members[i].value), ScanValue(before.members[i].value))
    requires Shrinks(ScanMap(after.members[i].value), ScanMap(before.members[i].value))
    requires Shrinks(ScanExtensibleMap(after.members[i].value), ScanExtensibleMap(before.members[i].value))
    requires Shrinks(ScanLinks(after.members[i].value), ScanLinks(before.members[i].value))
    ensures Shrinks(ScanField(after, i), ScanField(before, i))
  {
  }

  predicate SameShape(v: Json, w: Json) {
    (v.Object? <==> w.Object?) && (v.Array? <==> w.Array?)
  }

  /** The own part of an object does not depend on the values of other fields. */
  lemma OwnIsKept(before: Json, after: Json)
    requires forall name :: name in {"$ref", "$dynamicRef", "security", "discriminator"} ==>
                              Get(after, name) == Get(before, name)
    requires Get(after, "responses").Some? <==> Get(before, "responses").Some?
    ensures ScanOwn(after) == ScanOwn(before)
    ensures TextField(after, "$ref") == TextField(before, "$ref")
            && TextField(after, "$dynamicRef") == TextField(before, "$dynamicRef")
    ensures HasSecurity(after) <==> HasSecurity(before)
  {
    assert "$ref" in {"$ref", "$dynamicRef", "security", "discriminator"};
  }

  lemma PlainFieldNames(name: string)
    requires name in {"$ref", "$dynamicRef", "security", "discriminator"}
    ensures name !in KINDS && name != "components"
  {
    assert |"$ref"| == 4 && |"$dynamicRef"| == 11 && |"security"| == 8 && |"discriminator"| == 13
           && |"components"| == 10;
    assert "$ref"[0] == '$' && "$dynamicRef"[0] == '$' && "security"[0] == 's' && "security"[1] == 'e'
           && "discriminator"[0] == 'd';
    if name in KINDS {
      KindLetters(name);
    }
  }

  lemma KindLetters(kind: string)
    requires kind in KINDS
    ensures |kind| > 1 && kind[0] != '$' && kind[0] != 'd' && (kind[0] == 's' && kind[1] == 'e' ==> |kind| == 15)
  {
    assert kind == "schemas" || kind == "responses" || kind == "parameters" || kind == "examples"
           || kind == "requestBodies"
           || kind == "headers" || kind == "securitySchemes" || kind == "links" || kind == "callbacks"
           || kind == "pathItems";
  }

  lemma ComponentsShrink(kinds: seq<Member>, keep: set<Key>)
    requires PlainKinds(kinds)
    ensures Shrinks(ScanValue(Object(SweepKinds(kinds, keep))), ScanValue(Object(kinds)))
  {
    var before, after := Object(kinds), Object(SweepKinds(kinds, keep));
    SweptKindsAt(kinds, keep);
    forall name | name in {"$ref", "$dynamicRef", "security", "discriminator"}
      ensures Get(after, name) == Get(before, name)
    {
      PlainFieldNames(name);
      SweptKindLookup(kinds, keep, name);
    }
    SweptKindLookup(kinds, keep, "responses");
    OwnIsKept(before, after);
    forall i | 0 <= i < |kinds|
      ensures ShrinksOne(FieldParts(after)[i], FieldParts(before))
    {
      KindShrinks(kinds[i], keep);
      RuleIsKept(before, after, i);
      assert Shrinks(FieldParts(after)[i], FieldParts(before)[i]);
    }
    JoinShrinks(FieldParts(after), FieldParts(before));
  }

  lemma FieldShrinks(field: Member, keep: set<Key>)
    requires field.name == "components" && field.value.Object? ==> PlainKinds(field.value.members)
    ensures Shrinks(ScanValue(SweepField(field, keep).value), ScanValue(field.value))
  {
    if field.name == "components" && field.value.Object? {
      ComponentsShrink(field.value.members, keep);
    }
  }

  /** The components field is scanned as a plain value. */
  lemma ComponentsFieldShrinks(before: Json, after: Json, i: nat)
    requires before.Object? && after.Object? && i < |before.members| && |after.members| == |before.members|
    requires after.members[i].name == before.members[i].name == "components"
    requires Shrinks(ScanValue(after.members[i].value), ScanValue(before.members[i].value))
    ensures Shrinks(ScanField(after, i), ScanField(before, i))
  {
    var name := "components";
    OtherFirstLetter(name, "x-");
    assert |name| == 10 && name[0] == 'c' && name[2] == 'm';
    assert "properties"[0] == 'p' && |"$ref"| == 4 && |"$dynamicRef"| == 11 && |"security"| == 8
           && |"discriminator"| == 13;
    assert |"responses"| == 9 && |"links"| == 5 && |"patternProperties"| == 17 && |"dependentSchemas"| == 16
           && |"$defs"| == 5;
    assert |"content"| == 7 && |"headers"| == 7 && |"callbacks"| == 9 && |"examples"| == 8 && |"encoding"| == 8;
    assert |"variables"| == 9 && |"scopes"| == 6 && |"value"| == 5 && |"example"| == 7 && |"default"| == 7;
    assert |"const"| == 5 && |"enum"| == 4;
  }

  lemma DocumentShrinks(document: Json, keep: set<Key>)
    requires Plain(document)
    ensures Shrinks(ScanValue(Swept(document, keep)), ScanValue(document))
  {
    var fields, after := document.members, Swept(document, keep);
    SweptFieldsAt(fields, keep);
    forall name | name in {"$ref", "$dynamicRef", "security", "discriminator"}
      ensures Get(after, name) == Get(document, name)
    {
      PlainFieldNames(name);
      OtherFieldsStay(document, keep, name);
    }
    assert |"responses"| == 9 && |"components"| == 10;
    OtherFieldsStay(document, keep, "responses");
    OwnIsKept(document, after);
    forall i | 0 <= i < |fields|
      ensures ShrinksOne(FieldParts(after)[i], FieldParts(document))
    {
      FieldShrinks(fields[i], keep);
      if fields[i].name == "components" {
        ComponentsFieldShrinks(document, after, i);
      } else {
        assert ScanField(after, i) == ScanField(document, i);
      }
      assert Shrinks(FieldParts(after)[i], FieldParts(document)[i]);
    }
    JoinShrinks(FieldParts(after), FieldParts(document));
  }

  // ---- One sweep -------------------------------------------------------------------------------------

  lemma ComponentPointersAvoidContainers(reference: string)
    requires StartsWith(reference, COMPONENT_PREFIX)
    ensures AvoidsContainers(reference)
  {
    StripPrefix(reference);
    assert reference[1..][1..] == reference[2..];
    SplitOfJoin("components", reference[|COMPONENT_PREFIX|..]);
  }

  lemma ContainerIsNoComponent(reference: string)
    requires !AvoidsContainers(reference)
    ensures StartsWith(reference, "#") && ParseKey(reference).NoComponent?
  {
    if StartsWith(reference, COMPONENT_PREFIX) {
      ComponentPointersAvoidContainers(reference);
    }
    assert reference != "#" ==> reference[..2] == "#/" && reference[..2][..1] == reference[..1];
  }

  /** A container reference resolves to the document or to its components object. */
  lemma ContainerResolves(document: Json, reference: string)
    requires !AvoidsContainers(reference) && document.Object? && Get(document, "components").Some?
    ensures StartsWith(reference, "#")
    ensures Resolve(document, reference[1..])
         == Some(if reference == "#" then document else Get(document, "components").value)
  {
    ContainerIsNoComponent(reference);
    if reference != "#" {
      ContainerTokens(reference, "components");
      WalkOneStep(document, Split(reference[1..][1..]), "components");
    }
  }

  lemma ContainerTokens(reference: string, name: string)
    requires StartsWith(reference, "#/") && |Split(reference[2..])| == 1 && Decode(Split(reference[2..])[0]) == name
    ensures reference[1..] != "" && reference[1..][0] == '/'
    ensures |Split(reference[1..][1..])| == 1 && Decode(Split(reference[1..][1..])[0]) == name
  {
    assert reference[..2] == "#/";
    assert reference[1..][1..] == reference[2..];
  }

  lemma WalkOneStep(v: Json, tokens: seq<string>, name: string)
    requires v.Object? && |tokens| == 1 && Decode(tokens[0]) == name
    ensures Walk(v, tokens) == Get(v, name)
  {
    assert tokens == [tokens[0]] + [];
    WalkStep(v, tokens[0], []);
  }

  lemma ContainerTarget(contract: Contract, reference: string)
    requires contract.Consistent() && !AvoidsContainers(reference)
    ensures contract.TargetOf(Ref(reference)) ==
            Some(Target(false, if reference == "#" then contract.document
                        else Get(contract.document, "components").value))
  {
    ContainerIsNoComponent(reference);
    ContainerResolves(contract.document, reference);
    PlainTarget(contract, reference, if reference == "#" then contract.document
                else Get(contract.document, "components").value);
  }

  lemma ContainerShrinks(contract: Contract, keep: set<Key>, reference: string)
    requires contract.Consistent() && Plain(contract.document) && !AvoidsContainers(reference)
    ensures Shrinks(SweptContract(contract, keep).Out(Ref(reference)), contract.Out(Ref(reference)))
  {
    var document, after := contract.document, SweptContract(contract, keep);
    SweptInventory(document, keep);
    ContainerTarget(contract, reference);
    ContainerTarget(after, reference);
    if reference == "#" {
      DocumentShrinks(document, keep);
    } else {
      LookupIsMember(document.members, "components");
      SweptFieldLookup(document.members, keep, "components");
      ComponentsShrink(Get(document, "components").value.members, keep);
    }
  }

  lemma LinkShrinks(contract: Contract, keep: set<Key>, l: Link)
    requires Good(contract) && IsMark(contract, keep)
    requires contract.From(contract.Roots().value, l)
    ensures Shrinks(SweptContract(contract, keep).Out(l), contract.Out(l))
  {
    if l.Ref? && !AvoidsContainers(l.reference) {
      ContainerShrinks(contract, keep, l.reference);
    } else {
      ReachedKeepsItsLinks(contract, keep, l);
    }
  }

  lemma SweptIsPlain(document: Json, keep: set<Key>)
    requires Plain(document)
    ensures Plain(Swept(document, keep))
  {
    SweptFieldsAt(document.members, keep);
    forall i | 0 <= i < |document.members| && document.members[i].name == "components"
               && document.members[i].value.Object?
      ensures PlainKinds(Swept(document, keep).members[i].value.members)
    {
      SweptKindsArePlain(document.members[i].value.members, keep);
    }
  }

  lemma SweptKindsArePlain(kinds: seq<Member>, keep: set<Key>)
    requires PlainKinds(kinds)
    ensures PlainKinds(SweepKinds(kinds, keep))
  {
    SweptKindsAt(kinds, keep);
    forall j | 0 <= j < |kinds| && kinds[j].value.Object?
      ensures NoSecurityList(SweepKinds(kinds, keep)[j].value.members)
    {
      KeptHasNoSecurityList(kinds[j].name, kinds[j].value.members, keep);
    }
  }

  /** A sound document, whatever it refers to. */
  ghost predicate Good(contract: Contract) {
    contract.Consistent() && Plain(contract.document) && contract.Sound()
  }

  ghost predicate NeedsNoMore(after: Contract, before: Contract) {
    forall key :: after.Reaches(key) ==> before.Reaches(key)
  }

  /** The swept document is sound again, and needs nothing that was not needed before. */
  lemma SweptStaysSound(contract: Contract, keep: set<Key>)
    requires Good(contract) && IsMark(contract, keep)
    ensures Good(SweptContract(contract, keep)) && NeedsNoMore(SweptContract(contract, keep), contract)
    ensures SweptContract(contract, keep).inventory == keep
  {
    var after, roots := SweptContract(contract, keep), contract.Roots().value;
    SweptRoots(contract, keep);
    SweptInventory(contract.document, keep);
    SweptIsPlain(contract.document, keep);
    forall l | contract.From(roots, l)
      ensures Shrinks(after.Out(l), contract.Out(l)) && contract.Out(l).Some?
    {
      LinkShrinks(contract, keep, l);
    }
    forall l | after.From(roots, l)
      ensures contract.From(roots, l)
    {
      FewerSuccessorsReachLess(OutOf(contract), OutOf(after), roots, roots, l);
    }
    forall key | key in keep
      ensures key in contract.inventory
    {
      ReachedIsKnown(contract, key);
    }
  }

  // ---- Repeated sweeping -----------------------------------------------------------------------------

  /** The components that are needed. */
  ghost function MarkOf(contract: Contract): set<Key> {
    set key | key in contract.inventory && contract.Reaches(key)
  }

  lemma MarkOfSound(contract: Contract)
    requires contract.Sound()
    ensures IsMark(contract, MarkOf(contract))
  {
    forall key | contract.Reaches(key)
      ensures key in MarkOf(contract)
    {
      ReachedIsKnown(contract, key);
    }
  }

  ghost function SweptByMark(contract: Contract): Contract {
    SweptContract(contract, MarkOf(contract))
  }

  ghost function SweptTimes(contract: Contract, n: nat): Contract
    decreases n
  {
    if n == 0 then contract else SweptTimes(SweptByMark(contract), n - 1)
  }

  /** A contract that needs all of its components. */
  ghost predicate Settled(contract: Contract) {
    contract.Sound() && IsMark(contract, contract.inventory)
  }

  /** A sweep that has not settled removes something. */
  lemma SweptByItsMark(contract: Contract)
    requires Good(contract)
    ensures Good(SweptByMark(contract)) && NeedsNoMore(SweptByMark(contract), contract)
    ensures !Settled(contract) ==> |SweptByMark(contract).inventory| < |contract.inventory|
  {
    MarkOfSound(contract);
    SweptStaysSound(contract, MarkOf(contract));
    if !Settled(contract) {
      var rest := contract.inventory - MarkOf(contract);
      assert contract.inventory == MarkOf(contract) + rest;
      assert rest != {};
    }
  }

  lemma NeedsNoMoreThanFirst(last: Contract, middle: Contract, first: Contract)
    requires NeedsNoMore(last, middle) && NeedsNoMore(middle, first)
    ensures NeedsNoMore(last, first)
  {
  }

  lemma OneMoreSweep(contract: Contract, next: Contract, n: nat)
    requires next == SweptByMark(contract)
    ensures SweptTimes(contract, n + 1) == SweptTimes(next, n)
  {
  }

  /** However a sound document refers to its components, after at most as many sweeps as it has components all that is
      left is needed, so that further sweeps remove nothing; and what is left was needed in the beginning. */
  lemma {:induction false} SweepingSettles(contract: Contract) returns (n: nat, last: Contract)
    requires Good(contract)
    ensures n <= |contract.inventory| && last == SweptTimes(contract, n)
    ensures Good(last) && Settled(last) && NeedsNoMore(last, contract)
    decreases |contract.inventory|
  {
    if Settled(contract) {
      return 0, contract;
    }
    var next := SweptByMark(contract);
    SweptByItsMark(contract);
    n, last := SweepingSettles(next);
    OneMoreSweep(contract, next, n);
    NeedsNoMoreThanFirst(last, next, contract);
    n := n + 1;
  }
}
