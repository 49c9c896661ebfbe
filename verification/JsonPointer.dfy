/**
 JSON values and JSON Pointers (sections 3 and 4 of RFC 6901) as
 backend/rust/crates/api-contract/src/operations.rs uses them: the escape pair
 encode_json_pointer_segment and decode_json_pointer_segment, and resolution.
 */
module JsonPointer {
  import opened Wrappers
  import opened Numerals
  import opened Strings

  datatype Json = Null | Bool(b: bool) | Number(n: string) | Text(text: string) | Array(items: seq<Json>)
                | Object(members: seq<Member>)
  datatype Member = Member(name: string, value: Json)

  // ---- The escape pair ---------------------------------------------------------------------

  /** str::replace of one character by a string. */
  function ReplaceChar(s: string, c: char, to: string): string {
    if s == "" then "" else (if s[0] == c then to else [s[0]]) + ReplaceChar(s[1..], c, to)
  }

  /** str::replace of a two-character pattern by a character: left to right, matches do not overlap. */
  function ReplacePair(s: string, a: char, b: char, to: char): string {
    if |s| >= 2 && s[0] == a && s[1] == b then [to] + ReplacePair(s[2..], a, b, to)
    else if s == "" then ""
    else [s[0]] + ReplacePair(s[1..], a, b, to)
  }

  function Encode(segment: string): string {
    ReplaceChar(ReplaceChar(segment, '~', "~0"), '/', "~1")
  }

  function Decode(segment: string): string {
    ReplacePair(ReplacePair(segment, '~', '1', '/'), '~', '0', '~')
  }

  /** What one character is encoded as. */
  function EncodeChar(c: char): string {
    if c == '~' then "~0" else if c == '/' then "~1" else [c]
  }

  lemma ReplaceCharOfAppend(a: string, b: string, c: char, to: string)
    ensures ReplaceChar(a + b, c, to) == ReplaceChar(a, c, to) + ReplaceChar(b, c, to)
  {
    if a == "" {
      assert a + b == b;
    } else {
      assert (a + b)[1..] == a[1..] + b;
      ReplaceCharOfAppend(a[1..], b, c, to);
    }
  }

  /** The two passes of the encoder work character by character. */
  lemma EncodeStep(s: string)
    requires s != ""
    ensures Encode(s) == EncodeChar(s[0]) + Encode(s[1..])
  {
    var first := if s[0] == '~' then "~0" else [s[0]];
    ReplaceCharOfAppend(first, ReplaceChar(s[1..], '~', "~0"), '/', "~1");
    if s[0] == '~' {
      assert "~0"[1..] == "0" && "0"[1..] == "";
      assert ReplaceChar("0", '/', "~1") == "0";
      assert ReplaceChar("~0", '/', "~1") == "~" + "0";
    } else {
      assert first[1..] == "";
      assert ReplaceChar(first, '/', "~1") == EncodeChar(s[0]) + "";
    }
  }

  /** After the first pass of the decoder only the tildes are still escaped. */
  lemma {:induction false} FirstPass(s: string)
    ensures ReplacePair(Encode(s), '~', '1', '/') == ReplaceChar(s, '~', "~0")
  {
    if s != "" {
      EncodeStep(s);
      FirstPass(s[1..]);
      var rest := Encode(s[1..]);
      if s[0] == '~' {
        assert (EncodeChar('~') + rest)[1..] == "0" + rest;
        assert ("0" + rest)[1..] == rest;
      } else if s[0] == '/' {
        assert (EncodeChar('/') + rest)[2..] == rest;
      } else {
        assert ([s[0]] + rest)[1..] == rest;
      }
    }
  }

  lemma {:induction false} SecondPass(s: string)
    ensures ReplacePair(ReplaceChar(s, '~', "~0"), '~', '0', '~') == s
  {
    if s != "" {
      SecondPass(s[1..]);
      var rest := ReplaceChar(s[1..], '~', "~0");
      if s[0] == '~' {
        assert ("~0" + rest)[2..] == rest;
      } else {
        assert ([s[0]] + rest)[1..] == rest;
      }
      assert s == [s[0]] + s[1..];
    }
  }

  /** Decoding undoes encoding, whatever tildes, slashes and digits the segment holds. */
  lemma DecodeEncode(s: string)
    ensures Decode(Encode(s)) == s
  {
    FirstPass(s);
    SecondPass(s);
  }

  predicate NoTilde(s: string) {
    forall i :: 0 <= i < |s| ==> s[i] != '~'
  }

  lemma {:induction false} NothingToReplace(s: string, b: char, to: char)
    requires NoTilde(s)
    ensures ReplacePair(s, '~', b, to) == s
  {
    if s != "" {
      NothingToReplace(s[1..], b, to);
      assert s == [s[0]] + s[1..];
    }
  }

  lemma DecodePlain(s: string)
    requires NoTilde(s)
    ensures Decode(s) == s
  {
    NothingToReplace(s, '1', '/');
    NothingToReplace(s, '0', '~');
  }

  /** A segment as the encoder writes it: no slash, and every tilde is followed by 0 or 1. */
  predicate Canonical(t: string) {
    forall i :: 0 <= i < |t| ==> EscapedAt(t, i)
  }

  predicate EscapedAt(t: string, i: nat)
    requires i < |t|
  {
    t[i] != '/' && (t[i] == '~' ==> i + 1 < |t| && t[i + 1] in {'0', '1'})
  }

  lemma {:induction false} EncodeIsCanonical(s: string)
    ensures Canonical(Encode(s))
  {
    if s != "" {
      EncodeStep(s);
      EncodeIsCanonical(s[1..]);
      CanonicalAppends(EncodeChar(s[0]), Encode(s[1..]));
    }
  }

  lemma CanonicalAppends(head: string, rest: string)
    requires Canonical(head) && Canonical(rest)
    ensures Canonical(head + rest)
  {
    var all := head + rest;
    forall i | 0 <= i < |all|
      ensures EscapedAt(all, i)
    {
      if i < |head| {
        assert EscapedAt(head, i);
      } else {
        assert EscapedAt(rest, i - |head|);
      }
    }
  }

  lemma {:induction false} CanonicalIsEncoded(t: string) returns (s: string)
    requires Canonical(t)
    ensures Encode(s) == t
  {
    if t == "" {
      s := "";
    } else if t[0] == '~' {
      assert EscapedAt(t, 0);
      forall i | 0 <= i < |t[2..]|
        ensures EscapedAt(t[2..], i)
      {
        assert EscapedAt(t, i + 2);
      }
      var rest := CanonicalIsEncoded(t[2..]);
      s := [if t[1] == '0' then '~' else '/'] + rest;
      EncodeStep(s);
      assert s[1..] == rest;
      assert t == t[..2] + t[2..];
    } else {
      forall i | 0 <= i < |t[1..]|
        ensures EscapedAt(t[1..], i)
      {
        assert EscapedAt(t, i + 1);
      }
      assert EscapedAt(t, 0);
      var rest := CanonicalIsEncoded(t[1..]);
      s := [t[0]] + rest;
      EncodeStep(s);
      assert s[1..] == rest;
      assert t == [t[0]] + t[1..];
    }
  }

  /** Encoding undoes decoding exactly on the canonical segments. */
  lemma EncodeDecodeIff(t: string)
    ensures Encode(Decode(t)) == t <==> Canonical(t)
  {
    if Canonical(t) {
      var s := CanonicalIsEncoded(t);
      DecodeEncode(s);
    }
    if Encode(Decode(t)) == t {
      EncodeIsCanonical(Decode(t));
    }
  }

  // ---- Splitting and resolving ----------------------------------------------------------------

  /** str::split('/'): never empty. */
  function Split(s: string): (parts: seq<string>)
    ensures |parts| >= 1
  {
    if s == "" then [""]
    else
      var rest := Split(s[1..]);
      if s[0] == '/' then [""] + rest else [[s[0]] + rest[0]] + rest[1..]
  }

  predicate NoSlash(s: string) {
    forall i :: 0 <= i < |s| ==> s[i] != '/'
  }

  lemma {:induction false} SplitOfJoin(head: string, tail: string)
    requires NoSlash(head)
    ensures Split(head + "/" + tail) == [head] + Split(tail)
  {
    if head == "" {
      assert "" + "/" + tail == "/" + tail;
      assert ("/" + tail)[1..] == tail;
    } else {
      var s := head + "/" + tail;
      assert s[1..] == head[1..] + "/" + tail;
      SplitOfJoin(head[1..], tail);
      assert head == [head[0]] + head[1..];
    }
  }

  lemma {:induction false} SplitOfSegment(s: string)
    requires NoSlash(s)
    ensures Split(s) == [s]
  {
    if s != "" {
      SplitOfSegment(s[1..]);
      assert s == [s[0]] + s[1..];
    }
  }

  /** What stands before the first slash. */
  lemma {:induction false} FirstSegment(s: string)
    ensures |Split(s)| >= 2 ==> StartsWith(s, Split(s)[0] + "/")
  {
    if s != "" && s[0] != '/' {
      FirstSegment(s[1..]);
      var rest := Split(s[1..]);
      if |rest| >= 2 {
        assert Split(s)[0] + "/" == [s[0]] + (rest[0] + "/");
      }
    }
  }

  lemma {:induction false} ReplacementShows(s: string, a: char, b: char, to: char)
    requires to !in ReplacePair(s, a, b, to)
    ensures ReplacePair(s, a, b, to) == s
  {
    if s != "" {
      ReplacementShows(s[1..], a, b, to);
      assert s == [s[0]] + s[1..];
    }
  }

  /** Only the plain text itself decodes to a text without tildes and slashes. */
  lemma DecodedToPlain(t: string, s: string)
    requires Decode(t) == s && '~' !in s && '/' !in s
    ensures t == s
  {
    ReplacementShows(ReplacePair(t, '~', '1', '/'), '~', '0', '~');
    ReplacementShows(t, '~', '1', '/');
  }

  /** Object::get: names are unique in a parsed object. */
  function Get(v: Json, name: string): Option<Json> {
    if v.Object? then Lookup(v.members, name) else None
  }

  function Lookup(members: seq<Member>, name: string): Option<Json> {
    if members == [] then None
    else if members[0].name == name then Some(members[0].value)
    else Lookup(members[1..], name)
  }

  /** An array index has no sign and no leading zero. */
  function ArrayIndex(token: string): Option<nat> {
    if token == "" || token[0] == '+' || (token[0] == '0' && |token| != 1) then None
    else ParseUnsigned(token, 0xFFFF_FFFF_FFFF_FFFF)
  }

  function Child(v: Json, token: string): Option<Json> {
    match v
    case Object(_) => Get(v, token)
    case Array(items) =>
      var index := ArrayIndex(token);
      if index.Some? && index.value < |items| then Some(items[index.value]) else None
    case _ => None
  }

  function Walk(v: Json, tokens: seq<string>): Option<Json>
    decreases |tokens|
  {
    if tokens == [] then Some(v)
    else
      var child := Child(v, Decode(tokens[0]));
      if child.None? then None else Walk(child.value, tokens[1..])
  }

  /** serde_json's Value::pointer. */
  function Resolve(document: Json, pointer: string): Option<Json> {
    if pointer == "" then Some(document)
    else if pointer[0] != '/' then None
    else Walk(document, Split(pointer[1..]))
  }

  // ---- Strings of a value ------------------------------------------------------------------------

  /** Every string value inside v. */
  ghost function Texts(v: Json): set<string> {
    match v
    case Text(t) => {t}
    case Array(items) => set i, t | 0 <= i < |items| && t in Texts(items[i]) :: t
    case Object(members) => set i, t | 0 <= i < |members| && t in Texts(members[i].value) :: t
    case _ => {}
  }

  lemma {:induction false} LookupIsMember(members: seq<Member>, name: string)
    ensures Lookup(members, name).Some? ==>
              exists i :: 0 <= i < |members| && members[i] == Member(name, Lookup(members, name).value)
    ensures Lookup(members, name).None? ==> forall i :: 0 <= i < |members| ==> members[i].name != name
  {
    if members != [] {
      LookupIsMember(members[1..], name);
      if members[0].name != name && Lookup(members[1..], name).Some? {
        var i :| 0 <= i < |members[1..]| && members[1..][i] == Member(name, Lookup(members[1..], name).value);
        assert members[i + 1] == Member(name, Lookup(members, name).value);
      }
    }
  }

  lemma ChildTexts(v: Json, token: string)
    ensures Child(v, token).Some? ==> Texts(Child(v, token).value) <= Texts(v)
  {
    if v.Object? {
      LookupIsMember(v.members, token);
    }
  }

  lemma {:induction false} WalkTexts(v: Json, tokens: seq<string>)
    ensures Walk(v, tokens).Some? ==> Texts(Walk(v, tokens).value) <= Texts(v)
    decreases |tokens|
  {
    if tokens != [] {
      ChildTexts(v, Decode(tokens[0]));
      var child := Child(v, Decode(tokens[0]));
      if child.Some? {
        WalkTexts(child.value, tokens[1..]);
      }
    }
  }

  lemma ResolveTexts(document: Json, pointer: string)
    ensures Resolve(document, pointer).Some? ==> Texts(Resolve(document, pointer).value) <= Texts(document)
  {
    if pointer != "" && pointer[0] == '/' {
      WalkTexts(document, Split(pointer[1..]));
    }
  }
}
