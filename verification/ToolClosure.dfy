/**
The self-contained input schema of a generated tool (`tools` in tooling/codegen/commands.ts): every component schema
that is referenced, directly or not, is copied into $defs, and all references are rewritten to point there.
*/
module ToolClosure {
  import opened Wrappers
  import opened Json
  import opened Splitting

  const HASH: Unit := 0x23
  const SLASH: Unit := 0x2f

  const REF: Text := [0x24, 0x72, 0x65, 0x66]
  const DEFS: Text := [0x24, 0x64, 0x65, 0x66, 0x73]
  const COMPONENTS: Text := [0x63, 0x6f, 0x6d, 0x70, 0x6f, 0x6e, 0x65, 0x6e, 0x74, 0x73]
  const SCHEMAS: Text := [0x73, 0x63, 0x68, 0x65, 0x6d, 0x61, 0x73]
  const PROPERTIES: Text := [0x70, 0x72, 0x6f, 0x70, 0x65, 0x72, 0x74, 0x69, 0x65, 0x73]
  const REQUIRED: Text := [0x72, 0x65, 0x71, 0x75, 0x69, 0x72, 0x65, 0x64]
  const TYPE: Text := [0x74, 0x79, 0x70, 0x65]
  const OBJECT: Text := [0x6f, 0x62, 0x6a, 0x65, 0x63, 0x74]
  const ADDITIONAL: Text := [0x61, 0x64, 0x64, 0x69, 0x74, 0x69, 0x6f, 0x6e, 0x61, 0x6c, 0x50, 0x72, 0x6f, 0x70, 0x65, 0x72, 0x74, 0x69, 0x65, 0x73]

  /** #/components/schemas/ and #/$defs/ */
  const SOURCE_PREFIX: Text := [HASH, SLASH] + COMPONENTS + [SLASH] + SCHEMAS + [SLASH]
  const LOCAL_PREFIX: Text := [HASH, SLASH] + DEFS + [SLASH]

  datatype Error = UnsupportedReference

  // ---------------------------------------------------------------- references

  function Find(members: seq<Pair<Value>>, key: Text): Value {
    if members == [] then Undefined else if members[0].key == key then members[0].value else Find(members[1..], key)
  }

  /** object(value)[key] */
  function Member(v: Value, key: Text): Value {
    if v.Object? then Find(v.members, key) else Undefined
  }

  function Walk(v: Value, keys: seq<Text>): Option<Value>
    decreases |keys|
  {
    if keys == [] then (if v.Undefined? then None else Some(v)) else Walk(Member(v, keys[0]), keys[1..])
  }

  /** Percent-decoding and the escapes ~1 and ~0 of one pointer segment, taken as given. */
  function DecodeAll(decode: Text -> Text, keys: seq<Text>): seq<Text> {
    if keys == [] then [] else [decode(keys[0])] + DecodeAll(decode, keys[1..])
  }

  /** RFC 6901, section 4: the value a reference points to within a document. */
  function Resolve(document: Value, ref: Text, decode: Text -> Text): Option<Value> {
    if !([HASH, SLASH] <= ref) then None else Walk(document, DecodeAll(decode, Split(ref[2..], SLASH)))
  }

  /** The keys lead from one object to the next, each time to the first member of that name. */
  ghost predicate Leads(v: Value, keys: seq<Text>, w: Value)
    decreases |keys|
  {
    if keys == [] then v == w
    else v.Object? && exists i :: 0 <= i < |v.members| && FirstAt(v.members, i, keys[0]) && Leads(v.members[i].value, keys[1..], w)
  }

  ghost predicate FirstAt(members: seq<Pair<Value>>, i: nat, key: Text)
    requires i < |members|
  {
    members[i].key == key && forall j :: 0 <= j < i ==> members[j].key != key
  }

  lemma {:induction false} FindIff(members: seq<Pair<Value>>, key: Text)
    ensures forall i :: 0 <= i < |members| && FirstAt(members, i, key) ==> Find(members, key) == members[i].value
    ensures Find(members, key) != Undefined ==> exists i :: 0 <= i < |members| && FirstAt(members, i, key)
  {
    if members != [] {
      FindIff(members[1..], key);
      forall i | 0 <= i < |members| && FirstAt(members, i, key) ensures Find(members, key) == members[i].value {
        if i > 0 { assert FirstAt(members[1..], i - 1, key); }
      }
      if members[0].key == key {
        assert FirstAt(members, 0, key);
      } else if Find(members, key) != Undefined {
        var i :| 0 <= i < |members[1..]| && FirstAt(members[1..], i, key);
        assert FirstAt(members, i + 1, key);
      }
    }
  }

  lemma {:induction false} WalkIff(v: Value, keys: seq<Text>, w: Value)
    ensures Walk(v, keys) == Some(w) <==> !w.Undefined? && Leads(v, keys, w)
    decreases |keys|
  {
    if keys != [] {
      var m := Member(v, keys[0]);
      WalkIff(m, keys[1..], w);
      if v.Object? {
        FindIff(v.members, keys[0]);
        if m.Undefined? { NoneLeads(keys[1..], w); }
        forall i | 0 <= i < |v.members| && FirstAt(v.members, i, keys[0]) ensures m == v.members[i].value {}
      } else {
        NoneLeads(keys[1..], w);
      }
    }
  }

  lemma NoneLeads(keys: seq<Text>, w: Value)
    ensures Leads(Undefined, keys, w) ==> w == Undefined
  {
  }

  /** The keys that the text of a reference names. */
  ghost predicate PathIn(ref: Text, keys: seq<Text>) {
    && keys != [] && (forall i :: 0 <= i < |keys| ==> SLASH !in keys[i])
    && ref == [HASH, SLASH] + Splitting.Join(keys, SLASH)
  }

  ghost predicate Decoded(decode: Text -> Text, keys: seq<Text>, names: seq<Text>) {
    |names| == |keys| && forall i :: 0 <= i < |keys| ==> names[i] == decode(keys[i])
  }

  lemma {:induction false} DecodedKeys(decode: Text -> Text, keys: seq<Text>)
    ensures Decoded(decode, keys, DecodeAll(decode, keys))
  {
    if keys != [] { DecodedKeys(decode, keys[1..]); }
  }

  /** A reference is "#", a slash, and the encoded names between slashes; it points to what they lead to, if anything. */
  lemma ResolveIff(document: Value, ref: Text, decode: Text -> Text, w: Value)
    ensures Resolve(document, ref, decode) == Some(w) <==>
      !w.Undefined? && exists keys, names :: PathIn(ref, keys) && Decoded(decode, keys, names) && Leads(document, names, w)
  {
    hide Leads;
    if [HASH, SLASH] <= ref {
      var keys := Split(ref[2..], SLASH);
      var all := DecodeAll(decode, keys);
      JoinOfSplit(ref[2..], SLASH);
      assert ref == [HASH, SLASH] + Splitting.Join(keys, SLASH);
      assert PathIn(ref, keys);
      DecodedKeys(decode, keys);
      WalkIff(document, all, w);
      forall other, names | PathIn(ref, other) && Decoded(decode, other, names) ensures names == all {
        SplitOfJoined(other, SLASH);
        assert ref[2..] == Splitting.Join(other, SLASH);
      }
    }
  }

  /** Words without escapes stand for themselves. */
  ghost predicate Plain(decode: Text -> Text) {
    decode(COMPONENTS) == COMPONENTS && decode(SCHEMAS) == SCHEMAS && decode(DEFS) == DEFS
  }

  /** Every reference string in a value. */
  function Refs(v: Value): set<Text> {
    match v
    case Array(items) => ItemRefs(items)
    case Object(members) => RefHere(members) + MemberRefs(members)
    case _ => {}
  }

  function ItemRefs(items: seq<Value>): set<Text> {
    if items == [] then {} else Refs(items[0]) + ItemRefs(items[1..])
  }

  function MemberRefs(members: seq<Pair<Value>>): set<Text> {
    if members == [] then {} else Refs(members[0].value) + MemberRefs(members[1..])
  }

  function RefHere(members: seq<Pair<Value>>): set<Text> {
    var ref := Find(members, REF);
    if ref.Str? then {ref.text} else {}
  }

  /** The component that a reference names: the segment after the prefix. */
  function NameOf(ref: Text, decode: Text -> Text): Text
    requires SOURCE_PREFIX <= ref
  {
    decode(Split(ref[|SOURCE_PREFIX|..], SLASH)[0])
  }

  function Names(definitions: seq<Pair<Value>>): set<Text> {
    set i | 0 <= i < |definitions| :: definitions[i].key
  }

  // ---------------------------------------------------------------- rewriting

  function Rewritten(ref: Text): Text
    requires SOURCE_PREFIX <= ref
  {
    LOCAL_PREFIX + ref[|SOURCE_PREFIX|..]
  }

  function Portable(v: Value): Result<Value, Error> {
    match v
    case Array(items) =>
      var r := PortableItems(items);
      if r.Err? then Err(r.error) else Ok(Array(r.value))
    case Object(members) =>
      var r := PortableMembers(members);
      if r.Err? then Err(r.error) else Ok(Object(r.value))
    case _ => Ok(v)
  }

  function PortableItems(items: seq<Value>): Result<seq<Value>, Error> {
    if items == [] then Ok([])
    else
      var first, more := Portable(items[0]), PortableItems(items[1..]);
      if first.Err? then Err(first.error) else if more.Err? then Err(more.error) else Ok([first.value] + more.value)
  }

  function PortableMember(m: Pair<Value>): Result<Pair<Value>, Error> {
    if m.key != REF then
      var v := Portable(m.value);
      if v.Err? then Err(v.error) else Ok(Pair(m.key, v.value))
    else if m.value.Str? && SOURCE_PREFIX <= m.value.text then Ok(Pair(m.key, Str(Rewritten(m.value.text))))
    else Err(UnsupportedReference)
  }

  function PortableMembers(members: seq<Pair<Value>>): Result<seq<Pair<Value>>, Error> {
    if members == [] then Ok([])
    else
      var first, more := PortableMember(members[0]), PortableMembers(members[1..]);
      if first.Err? then Err(first.error) else if more.Err? then Err(more.error) else Ok([first.value] + more.value)
  }

  /** Every "$ref" member, at any depth, is a reference to a component. */
  predicate Supported(v: Value) {
    match v
    case Array(items) => forall i :: 0 <= i < |items| ==> Supported(items[i])
    case Object(members) => forall i :: 0 <= i < |members| ==> SupportedMember(members[i])
    case _ => true
  }

  predicate SupportedMember(m: Pair<Value>) {
    if m.key == REF then m.value.Str? && SOURCE_PREFIX <= m.value.text else Supported(m.value)
  }

  /** The rewriting fails on nothing else. */
  lemma {:induction false} PortableIffSupported(v: Value)
    ensures Portable(v).Ok? <==> Supported(v)
    decreases v, 1
  {
    match v
    case Array(items) => PortableItemsIff(items);
    case Object(members) => PortableMembersIff(members);
    case _ =>
  }

  lemma {:induction false} PortableItemsIff(items: seq<Value>)
    ensures PortableItems(items).Ok? <==> forall i :: 0 <= i < |items| ==> Supported(items[i])
    decreases items, 0
  {
    hide Supported, Portable;
    if items != [] {
      PortableIffSupported(items[0]);
      PortableItemsIff(items[1..]);
      assert forall i :: 0 < i < |items| ==> items[i] == items[1..][i - 1];
      assert forall i :: 0 <= i < |items| - 1 ==> items[1..][i] == items[i + 1];
    }
  }

  lemma {:induction false} PortableMembersIff(members: seq<Pair<Value>>)
    ensures PortableMembers(members).Ok? <==> forall i :: 0 <= i < |members| ==> SupportedMember(members[i])
    decreases members, 0
  {
    hide Supported, Portable;
    if members != [] {
      var m := members[0];
      PortableIffSupported(m.value);
      PortableMembersIff(members[1..]);
      assert PortableMember(m).Ok? <==> SupportedMember(m);
      assert forall i :: 0 < i < |members| ==> members[i] == members[1..][i - 1];
      assert forall i :: 0 <= i < |members| - 1 ==> members[1..][i] == members[i + 1];
    }
  }

  lemma {:induction false} SupportedRefs(v: Value, r: Text)
    requires Supported(v) && r in Refs(v)
    ensures SOURCE_PREFIX <= r
  {
    match v
    case Array(items) => var i := SomeItem(items, r); SupportedRefs(items[i], r);
    case Object(members) =>
      if r in RefHere(members) {
        FoundKey(members, REF);
        var i :| 0 <= i < |members| && members[i].key == REF && members[i].value == Find(members, REF);
        assert SupportedMember(members[i]);
      } else {
        SomeMember(members, r);
        var i :| 0 <= i < |members| && r in Refs(members[i].value);
        var m := members[i];
        assert SupportedMember(m);
        if m.key == REF { assert false; } else { SupportedRefs(m.value, r); }
      }
  }

  lemma {:induction false} SomeItem(items: seq<Value>, r: Text) returns (i: nat)
    requires r in ItemRefs(items)
    ensures i < |items| && r in Refs(items[i])
  {
    hide Refs;
    if r in Refs(items[0]) {
      i := 0;
    } else {
      i := SomeItem(items[1..], r);
      i := i + 1;
    }
  }

  /** Every component by itself is supported, whatever it is called. */
  predicate ComponentsSupported(schemas: Value) {
    match schemas
    case Object(members) => forall i :: 0 <= i < |members| ==> Supported(members[i].value)
    case _ => Supported(schemas)
  }

  lemma ComponentIsSupported(schemas: Value, key: Text)
    requires ComponentsSupported(schemas)
    ensures Supported(Member(schemas, key))
  {
    if schemas.Object? { FoundKey(schemas.members, key); }
  }

  /** Rewriting keeps every member, and a reference becomes its rewritten form. */
  lemma {:induction false} FindPortable(members: seq<Pair<Value>>, key: Text)
    requires PortableMembers(members).Ok?
    ensures var before, after := Find(members, key), Find(PortableMembers(members).value, key);
      if key != REF then Portable(before) == Ok(after)
      else if before.Str? then SOURCE_PREFIX <= before.text && after == Str(Rewritten(before.text))
      else before.Undefined? && after.Undefined?
  {
    hide Portable, Rewritten;
    if members == [] {
      UndefinedIsPortable();
    } else {
      var p := PortableMembers(members).value;
      assert p[1..] == PortableMembers(members[1..]).value && p[0] == PortableMember(members[0]).value;
      if members[0].key != key { FindPortable(members[1..], key); }
    }
  }

  /** The references of a rewritten value are the rewritten references of the value. */
  lemma {:induction false} PortableRefs(v: Value, ref: Text)
    requires Portable(v).Ok? && ref in Refs(Portable(v).value)
    ensures exists r :: r in Refs(v) && SOURCE_PREFIX <= r && ref == Rewritten(r)
    decreases v, 0
  {
    hide Rewritten, Find, PortableMembers, PortableItems;
    match v
    case Array(items) => PortableItemRefs(items, ref);
    case Object(members) =>
      if ref in RefHere(PortableMembers(members).value) {
        FindPortable(members, REF);
        assert Find(members, REF).text in Refs(v);
      } else {
        PortableMemberRefs(members, ref);
      }
  }

  lemma {:induction false} PortableItemRefs(items: seq<Value>, ref: Text)
    requires PortableItems(items).Ok? && ref in ItemRefs(PortableItems(items).value)
    ensures exists r :: r in ItemRefs(items) && SOURCE_PREFIX <= r && ref == Rewritten(r)
    decreases items, 1
  {
    hide Rewritten, Portable;
    var p := PortableItems(items).value;
    assert p[1..] == PortableItems(items[1..]).value && p[0] == Portable(items[0]).value;
    if ref in Refs(p[0]) { PortableRefs(items[0], ref); } else { PortableItemRefs(items[1..], ref); }
  }

  lemma {:induction false} PortableMemberRefs(members: seq<Pair<Value>>, ref: Text)
    requires PortableMembers(members).Ok? && ref in MemberRefs(PortableMembers(members).value)
    ensures exists r :: r in MemberRefs(members) && SOURCE_PREFIX <= r && ref == Rewritten(r)
    decreases members, 1
  {
    hide Rewritten, Portable, Refs;
    var p := PortableMembers(members).value;
    assert p[1..] == PortableMembers(members[1..]).value && p[0] == PortableMember(members[0]).value;
    if ref in Refs(p[0].value) {
      if members[0].key == REF { StringHasNoRefs(p[0].value); } else { PortableRefs(members[0].value, ref); }
    } else {
      PortableMemberRefs(members[1..], ref);
    }
  }

  lemma StringHasNoRefs(v: Value)
    ensures v.Str? ==> Refs(v) == {}
  {
  }

  lemma UndefinedIsPortable()
    ensures Portable(Undefined) == Ok(Undefined)
  {
  }

  /** What stands after rewriting where a path leads to: the rewritten reference if it ends at one, else the rewritten value. */
  ghost predicate Image(keys: seq<Text>, before: Value, after: Value) {
    if keys != [] && keys[|keys| - 1] == REF then before.Str? && SOURCE_PREFIX <= before.text && after == Str(Rewritten(before.text))
    else Portable(before) == Ok(after)
  }

  /** Whatever a path leads to is still there after rewriting, rewritten. */
  lemma {:induction false} WalkPortable(v: Value, keys: seq<Text>)
    requires Portable(v).Ok? && Walk(v, keys).Some?
    ensures Walk(Portable(v).value, keys).Some? && Image(keys, Walk(v, keys).value, Walk(Portable(v).value, keys).value)
    decreases |keys|
  {
    hide Find, PortableMembers;
    if keys != [] {
      var next := Member(v, keys[0]);
      if !next.Object? { WalkEnds(next, keys[1..]); }
      if v.Object? {
        FindPortable(v.members, keys[0]);
        if keys[0] != REF { WalkPortable(next, keys[1..]); }
      }
    }
  }

  lemma WalkEnds(v: Value, keys: seq<Text>)
    requires !v.Object?
    ensures Walk(v, keys).Some? ==> keys == [] && !v.Undefined?
  {
    if keys != [] { UndefinedLeadsNowhere(keys[1..]); }
  }

  lemma {:induction false} UndefinedLeadsNowhere(keys: seq<Text>)
    ensures Walk(Undefined, keys).None?
    decreases |keys|
  {
    if keys != [] { UndefinedLeadsNowhere(keys[1..]); }
  }

  // ---------------------------------------------------------------- the closure

  function KeysOf(v: Value): set<Text> {
    if v.Object? then set i | 0 <= i < |v.members| :: v.members[i].key else {}
  }

  lemma {:induction false} FoundKey(members: seq<Pair<Value>>, key: Text)
    ensures !Find(members, key).Undefined? ==> exists i :: 0 <= i < |members| && members[i].key == key && members[i].value == Find(members, key)
  {
    if members != [] && members[0].key != key {
      FoundKey(members[1..], key);
      if !Find(members, key).Undefined? {
        var i :| 0 <= i < |members[1..]| && members[1..][i].key == key && members[1..][i].value == Find(members, key);
        assert members[i + 1] == members[1..][i];
      }
    }
  }

  /** The reference is to a component, and that component is among the definitions. */
  ghost predicate Defined(definitions: seq<Pair<Value>>, ref: Text, decode: Text -> Text) {
    SOURCE_PREFIX <= ref && exists i :: 0 <= i < |definitions| && definitions[i].key == NameOf(ref, decode)
  }

  ghost predicate AllDefined(definitions: seq<Pair<Value>>, refs: set<Text>, decode: Text -> Text) {
    forall r :: r in refs ==> Defined(definitions, r, decode)
  }

  /** The definitions from `first` on were copied from the components, and all they refer to is defined. */
  ghost predicate ClosedFrom(definitions: seq<Pair<Value>>, first: nat, schemas: Value, decode: Text -> Text) {
    forall i :: first <= i < |definitions| ==>
      definitions[i].value == Member(schemas, definitions[i].key) && AllDefined(definitions, Refs(definitions[i].value), decode)
  }

  /** Some reference that can be met on the way is not to a component. */
  ghost predicate Unsupported(refs: set<Text>, schemas: Value) {
    exists r :: r in refs + Refs(schemas) && !(SOURCE_PREFIX <= r)
  }

  ghost predicate NamedBy(key: Text, refs: set<Text>, decode: Text -> Text) {
    exists r :: r in refs && SOURCE_PREFIX <= r && key == NameOf(r, decode)
  }

  /** The definitions from `first` on were copied because something refers to them. */
  ghost predicate NamedFrom(definitions: seq<Pair<Value>>, first: nat, refs: set<Text>, schemas: Value, decode: Text -> Text) {
    forall i :: first <= i < |definitions| ==> NamedBy(definitions[i].key, refs + Refs(schemas), decode)
  }

  lemma StillNamed(definitions: seq<Pair<Value>>, more: seq<Pair<Value>>, first: nat, a: set<Text>, b: set<Text>, refs: set<Text>,
                   schemas: Value, decode: Text -> Text)
    requires definitions <= more && a <= refs + Refs(schemas) && b <= refs + Refs(schemas)
    requires NamedFrom(definitions, first, a, schemas, decode) && NamedFrom(more, |definitions|, b, schemas, decode)
    ensures NamedFrom(more, first, refs, schemas, decode)
  {
    hide NameOf, Refs;
    forall i | first <= i < |more| ensures NamedBy(more[i].key, refs + Refs(schemas), decode) {
      if i < |definitions| {
        assert more[i] == definitions[i] && NamedBy(definitions[i].key, a + Refs(schemas), decode);
      } else {
        assert NamedBy(more[i].key, b + Refs(schemas), decode);
      }
    }
  }

  lemma UnsupportedGrows(refs: set<Text>, more: set<Text>, schemas: Value)
    requires Unsupported(refs, schemas) && refs <= more + Refs(schemas)
    ensures Unsupported(more, schemas)
  {
    var r :| r in refs + Refs(schemas) && !(SOURCE_PREFIX <= r);
    assert r in more + Refs(schemas);
  }

  lemma {:induction false} FoundRefs(members: seq<Pair<Value>>, key: Text)
    ensures Refs(Find(members, key)) <= MemberRefs(members)
  {
    if members != [] && members[0].key != key { FoundRefs(members[1..], key); }
  }

  lemma MemberRefsWithin(v: Value, key: Text)
    ensures Refs(Member(v, key)) <= Refs(v)
  {
    if v.Object? { FoundRefs(v.members, key); }
  }

  ghost predicate Distinct(definitions: seq<Pair<Value>>) {
    forall i, j :: 0 <= i < j < |definitions| ==> definitions[i].key != definitions[j].key
  }

  lemma StillDefined(definitions: seq<Pair<Value>>, more: seq<Pair<Value>>, refs: set<Text>, decode: Text -> Text)
    requires definitions <= more && AllDefined(definitions, refs, decode)
    ensures AllDefined(more, refs, decode)
  {
    hide NameOf;
    forall r | r in refs ensures Defined(more, r, decode) {
      assert Defined(definitions, r, decode);
      var i :| 0 <= i < |definitions| && definitions[i].key == NameOf(r, decode);
      assert more[i] == definitions[i];
    }
  }

  lemma StillClosed(definitions: seq<Pair<Value>>, more: seq<Pair<Value>>, first: nat, schemas: Value, decode: Text -> Text)
    requires definitions <= more && ClosedFrom(definitions, first, schemas, decode) && ClosedFrom(more, |definitions|, schemas, decode)
    ensures ClosedFrom(more, first, schemas, decode)
  {
    hide AllDefined, Member, Refs;
    forall i | first <= i < |more|
      ensures more[i].value == Member(schemas, more[i].key) && AllDefined(more, Refs(more[i].value), decode)
    {
      if i < |definitions| {
        assert more[i] == definitions[i];
        StillDefined(definitions, more, Refs(definitions[i].value), decode);
      }
    }
  }

  class Collector {
    const schemas: Value
    const decode: Text -> Text
    var definitions: seq<Pair<Value>>

    constructor (schemas: Value, decode: Text -> Text)
      ensures this.schemas == schemas && this.decode == decode && definitions == []
    {
      this.schemas, this.decode, definitions := schemas, decode, [];
    }

    /** How many components may still be copied: what makes the walk end on cyclic references. */
    ghost function Left(): set<Text>
      reads this
    {
      KeysOf(schemas) - Names(definitions)
    }

    /** Copy every component that the value refers to, and all that those refer to, however they refer to each other. */
    method Collect(v: Value) returns (ok: bool)
      requires Distinct(definitions)
      modifies `definitions
      ensures Distinct(definitions) && old(definitions) <= definitions && Left() <= old(Left())
      ensures ok ==> AllDefined(definitions, Refs(v), decode) && ClosedFrom(definitions, |old(definitions)|, schemas, decode)
      ensures ok ==> NamedFrom(definitions, |old(definitions)|, Refs(v), schemas, decode)
      ensures !ok ==> Unsupported(Refs(v), schemas)
      decreases Left(), v, 0
    {
      hide AllDefined, ClosedFrom, NamedFrom, Member;
      match v
      case Array(items) => ok := CollectItems(items);
      case Object(members) => ok := CollectMembers(members);
      case _ =>
        NothingToDefine(v);
        ok := true;
    }

    lemma NothingToDefine(v: Value)
      requires !v.Array? && !v.Object?
      ensures AllDefined(definitions, Refs(v), decode) && ClosedFrom(definitions, |definitions|, schemas, decode)
      ensures NamedFrom(definitions, |definitions|, Refs(v), schemas, decode)
    {
    }

    method CollectItems(items: seq<Value>) returns (ok: bool)
      requires Distinct(definitions)
      modifies `definitions
      ensures Distinct(definitions) && old(definitions) <= definitions && Left() <= old(Left())
      ensures ok ==> AllDefined(definitions, ItemRefs(items), decode) && ClosedFrom(definitions, |old(definitions)|, schemas, decode)
      ensures ok ==> NamedFrom(definitions, |old(definitions)|, ItemRefs(items), schemas, decode)
      ensures !ok ==> Unsupported(ItemRefs(items), schemas)
      decreases Left(), items, 0
    {
      hide AllDefined, ClosedFrom, NamedFrom, Distinct, Member, Refs;
      NoItems();
      var i := 0;
      while i < |items|
        invariant 0 <= i <= |items| && Distinct(definitions) && old(definitions) <= definitions && Left() <= old(Left())
        invariant AllDefined(definitions, ItemRefs(items[..i]), decode) && ClosedFrom(definitions, |old(definitions)|, schemas, decode)
        invariant NamedFrom(definitions, |old(definitions)|, ItemRefs(items), schemas, decode)
      {
        ghost var before := definitions;
        ok := Collect(items[i]);
        ItemRefsHas(items, i);
        if !ok { UnsupportedGrows(Refs(items[i]), ItemRefs(items), schemas); return; }
        StillDefined(before, definitions, ItemRefs(items[..i]), decode);
        StillClosed(before, definitions, |old(definitions)|, schemas, decode);
        StillNamed(before, definitions, |old(definitions)|, ItemRefs(items), Refs(items[i]), ItemRefs(items), schemas, decode);
        ItemRefsSnoc(items, i);
        EitherDefined(definitions, ItemRefs(items[..i]), Refs(items[i]), decode);
        i := i + 1;
      }
      assert items[..i] == items;
      ok := true;
    }

    lemma NoItems()
      ensures AllDefined(definitions, ItemRefs([]), decode) && AllDefined(definitions, MemberRefs([]), decode)
      ensures ClosedFrom(definitions, |definitions|, schemas, decode)
      ensures forall refs :: NamedFrom(definitions, |definitions|, refs, schemas, decode)
    {
    }

    method CollectMembers(members: seq<Pair<Value>>) returns (ok: bool)
      requires Distinct(definitions)
      modifies `definitions
      ensures Distinct(definitions) && old(definitions) <= definitions && Left() <= old(Left())
      ensures ok ==> AllDefined(definitions, RefHere(members) + MemberRefs(members), decode)
      ensures ok ==> ClosedFrom(definitions, |old(definitions)|, schemas, decode)
      ensures ok ==> NamedFrom(definitions, |old(definitions)|, RefHere(members) + MemberRefs(members), schemas, decode)
      ensures !ok ==> Unsupported(RefHere(members) + MemberRefs(members), schemas)
      decreases Left(), members, 3
    {
      hide AllDefined, ClosedFrom, NamedFrom, Distinct, Member, RefHere;
      NoItems();
      if Find(members, REF).Str? {
        ok := CollectReference(Find(members, REF).text, members);
        if !ok { HereUnsupported(members); return; }
      }
      HereDefined(members, |old(definitions)|);
      ghost var before := definitions;
      ok := CollectValues(members);
      if !ok { UnsupportedGrows(MemberRefs(members), RefHere(members) + MemberRefs(members), schemas); return; }
      StillDefined(before, definitions, RefHere(members), decode);
      StillClosed(before, definitions, |old(definitions)|, schemas, decode);
      StillNamed(before, definitions, |old(definitions)|, RefHere(members), MemberRefs(members), RefHere(members) + MemberRefs(members),
                 schemas, decode);
      EitherDefined(definitions, RefHere(members), MemberRefs(members), decode);
    }

    lemma HereUnsupported(members: seq<Pair<Value>>)
      requires Find(members, REF).Str? && Unsupported({Find(members, REF).text}, schemas)
      ensures Unsupported(RefHere(members) + MemberRefs(members), schemas)
    {
      UnsupportedGrows({Find(members, REF).text}, RefHere(members) + MemberRefs(members), schemas);
    }

    lemma HereDefined(members: seq<Pair<Value>>, first: nat)
      requires Find(members, REF).Str? ==>
        && AllDefined(definitions, {Find(members, REF).text}, decode)
        && NamedFrom(definitions, first, {Find(members, REF).text}, schemas, decode)
      requires !Find(members, REF).Str? ==> first == |definitions|
      ensures AllDefined(definitions, RefHere(members), decode) && NamedFrom(definitions, first, RefHere(members), schemas, decode)
    {
    }

    method CollectValues(members: seq<Pair<Value>>) returns (ok: bool)
      requires Distinct(definitions)
      modifies `definitions
      ensures Distinct(definitions) && old(definitions) <= definitions && Left() <= old(Left())
      ensures ok ==> AllDefined(definitions, MemberRefs(members), decode) && ClosedFrom(definitions, |old(definitions)|, schemas, decode)
      ensures ok ==> NamedFrom(definitions, |old(definitions)|, MemberRefs(members), schemas, decode)
      ensures !ok ==> Unsupported(MemberRefs(members), schemas)
      decreases Left(), members, 0
    {
      hide AllDefined, ClosedFrom, NamedFrom, Distinct, Member, Refs;
      NoItems();
      var i := 0;
      while i < |members|
        invariant 0 <= i <= |members| && Distinct(definitions) && old(definitions) <= definitions && Left() <= old(Left())
        invariant AllDefined(definitions, MemberRefs(members[..i]), decode) && ClosedFrom(definitions, |old(definitions)|, schemas, decode)
        invariant NamedFrom(definitions, |old(definitions)|, MemberRefs(members), schemas, decode)
      {
        ghost var before := definitions;
        ok := Collect(members[i].value);
        MemberRefsHas(members, i);
        if !ok { UnsupportedGrows(Refs(members[i].value), MemberRefs(members), schemas); return; }
        StillDefined(before, definitions, MemberRefs(members[..i]), decode);
        StillClosed(before, definitions, |old(definitions)|, schemas, decode);
        StillNamed(before, definitions, |old(definitions)|, MemberRefs(members), Refs(members[i].value), MemberRefs(members), schemas, decode);
        MemberRefsSnoc(members, i);
        EitherDefined(definitions, MemberRefs(members[..i]), Refs(members[i].value), decode);
        i := i + 1;
      }
      assert members[..i] == members;
      ok := true;
    }

    /** A component that is not yet copied is copied first, so that a cycle finds it. */
    method CollectReference(ref: Text, ghost within: seq<Pair<Value>>) returns (ok: bool)
      requires Distinct(definitions)
      modifies `definitions
      ensures Distinct(definitions) && old(definitions) <= definitions && Left() <= old(Left())
      ensures ok ==> AllDefined(definitions, {ref}, decode) && ClosedFrom(definitions, |old(definitions)|, schemas, decode)
      ensures ok ==> NamedFrom(definitions, |old(definitions)|, {ref}, schemas, decode)
      ensures !ok ==> Unsupported({ref}, schemas)
      decreases Left(), within, 2
    {
      if !(SOURCE_PREFIX <= ref) {
        assert ref in {ref} + Refs(schemas);
        return false;
      }
      var name := NameOf(ref, decode);
      if exists i :: 0 <= i < |definitions| && definitions[i].key == name {
        NoItems();
        return true;
      }
      ok := Copy(name, within);
      if ok { CopiedIsDefined(ref, |old(definitions)|); } else { UnsupportedGrows({}, {ref}, schemas); }
    }

    lemma CopiedIsDefined(ref: Text, at: nat)
      requires SOURCE_PREFIX <= ref && at < |definitions| && definitions[at].key == NameOf(ref, decode)
      requires NamedFrom(definitions, at + 1, {}, schemas, decode)
      ensures AllDefined(definitions, {ref}, decode) && NamedFrom(definitions, at, {ref}, schemas, decode)
    {
      hide NameOf, Refs;
      forall i | at <= i < |definitions| ensures NamedBy(definitions[i].key, {ref} + Refs(schemas), decode) {
        if i == at {
          assert ref in {ref} + Refs(schemas);
        } else {
          assert NamedBy(definitions[i].key, {} + Refs(schemas), decode);
        }
      }
    }

    method Copy(name: Text, ghost within: seq<Pair<Value>>) returns (ok: bool)
      requires Distinct(definitions) && forall i :: 0 <= i < |definitions| ==> definitions[i].key != name
      modifies `definitions
      ensures Distinct(definitions) && old(definitions) <= definitions && Left() <= old(Left())
      ensures |definitions| > |old(definitions)| && definitions[|old(definitions)|].key == name
      ensures ok ==> ClosedFrom(definitions, |old(definitions)|, schemas, decode)
      ensures ok ==> NamedFrom(definitions, |old(definitions)| + 1, {}, schemas, decode)
      ensures !ok ==> Unsupported({}, schemas)
      decreases Left(), within, 1
    {
      var value := Member(schemas, name);
      definitions := definitions + [Pair(name, value)];
      FewerLeft(old(definitions), name);
      hide AllDefined, ClosedFrom, NamedFrom, Refs, Member, KeysOf, Names;
      NoItems();
      ghost var before := definitions;
      if value.Undefined? {
        NothingToDefine(value);
        ok := true;
      } else {
        ok := Collect(value);
        MemberRefsWithin(schemas, name);
        if !ok { UnsupportedGrows(Refs(value), {}, schemas); return; }
        StillNamed(before, definitions, |before|, {}, Refs(value), {}, schemas, decode);
      }
      if ok { CopyIsClosed(|old(definitions)|); }
    }

    lemma FewerLeft(before: seq<Pair<Value>>, name: Text)
      requires |definitions| == |before| + 1 && definitions == before + [Pair(name, Member(schemas, name))]
      requires forall i :: 0 <= i < |before| ==> before[i].key != name
      ensures Left() <= KeysOf(schemas) - Names(before)
      ensures !Member(schemas, name).Undefined? ==> Left() < KeysOf(schemas) - Names(before)
    {
      assert definitions[|before|].key == name;
      assert forall i :: 0 <= i < |before| ==> definitions[i] == before[i];
      assert name in Names(definitions) && name !in Names(before);
      if schemas.Object? && !Member(schemas, name).Undefined? {
        FoundKey(schemas.members, name);
        assert name in KeysOf(schemas);
      }
    }

    lemma CopyIsClosed(at: nat)
      requires at < |definitions| && definitions[at].value == Member(schemas, definitions[at].key)
      requires AllDefined(definitions, Refs(definitions[at].value), decode) && ClosedFrom(definitions, at + 1, schemas, decode)
      ensures ClosedFrom(definitions, at, schemas, decode)
    {
      hide Member, Refs, AllDefined;
    }
  }

  lemma {:induction false} ItemRefsHas(items: seq<Value>, i: nat)
    requires i < |items|
    ensures Refs(items[i]) <= ItemRefs(items)
  {
    if i > 0 { ItemRefsHas(items[1..], i - 1); }
  }

  lemma {:induction false} MemberRefsHas(members: seq<Pair<Value>>, i: nat)
    requires i < |members|
    ensures Refs(members[i].value) <= MemberRefs(members)
  {
    if i > 0 { MemberRefsHas(members[1..], i - 1); }
  }

  lemma EitherDefined(definitions: seq<Pair<Value>>, a: set<Text>, b: set<Text>, decode: Text -> Text)
    requires AllDefined(definitions, a, decode) && AllDefined(definitions, b, decode)
    ensures AllDefined(definitions, a + b, decode)
  {
  }

  lemma {:induction false} ItemRefsSnoc(items: seq<Value>, i: nat)
    requires i < |items|
    ensures ItemRefs(items[..i + 1]) == ItemRefs(items[..i]) + Refs(items[i])
  {
    hide Refs;
    if i == 0 {
      assert items[..1] == [items[0]];
      assert ItemRefs([items[0]]) == Refs(items[0]) + ItemRefs([]);
    } else {
      ItemRefsSnoc(items[1..], i - 1);
      assert items[..i + 1][1..] == items[1..][..i] && items[..i][1..] == items[1..][..i - 1];
    }
  }

  lemma {:induction false} MemberRefsSnoc(members: seq<Pair<Value>>, i: nat)
    requires i < |members|
    ensures MemberRefs(members[..i + 1]) == MemberRefs(members[..i]) + Refs(members[i].value)
  {
    hide Refs;
    if i == 0 {
      assert members[..1] == [members[0]];
      assert MemberRefs([members[0]]) == Refs(members[0].value) + MemberRefs([]);
    } else {
      MemberRefsSnoc(members[1..], i - 1);
      assert members[..i + 1][1..] == members[1..][..i] && members[..i][1..] == members[1..][..i - 1];
    }
  }

  // ---------------------------------------------------------------- the generated schema

  function Assembled(properties: Value, required: Value, definitions: seq<Pair<Value>>): Value {
    Object([Pair(TYPE, Str(OBJECT)), Pair(PROPERTIES, properties), Pair(REQUIRED, required),
            Pair(ADDITIONAL, Bool(false)), Pair(DEFS, Object(definitions))])
  }

  lemma AssembledParts(properties: Value, required: Value, definitions: seq<Pair<Value>>)
    requires Refs(required) == {}
    ensures var v := Assembled(properties, required, definitions);
      Member(v, DEFS) == Object(definitions) && Refs(v) == Refs(properties) + Refs(Object(definitions))
  {
    hide Refs;
    var ms := Assembled(properties, required, definitions).members;
    assert TYPE[0] != DEFS[0] && PROPERTIES[0] != DEFS[0] && REQUIRED[0] != DEFS[0] && ADDITIONAL[0] != DEFS[0];
    assert TYPE[0] != REF[0] && PROPERTIES[0] != REF[0] && REQUIRED[0] != REF[0] && ADDITIONAL[0] != REF[0] && DEFS[1] != REF[1];
    FindFive(ms, DEFS);
    FindFive(ms, REF);
    LeafRefs();
    FiveRefs(ms);
  }

  lemma LeafRefs()
    ensures Refs(Str(OBJECT)) == {} && Refs(Bool(false)) == {}
    ensures forall ms :: Refs(Object(ms)) == RefHere(ms) + MemberRefs(ms)
  {
  }

  lemma FindFive(ms: seq<Pair<Value>>, key: Text)
    requires |ms| == 5 && ms[0].key != key && ms[1].key != key && ms[2].key != key && ms[3].key != key
    ensures Find(ms, key) == if ms[4].key == key then ms[4].value else Undefined
  {
    var a, b, c, d := ms[1..], ms[2..], ms[3..], ms[4..];
    assert a[1..] == b && b[1..] == c && c[1..] == d && d[1..] == [];
    hide Find;
    FindNext(ms, key);
    FindNext(a, key);
    FindNext(b, key);
    FindNext(c, key);
    FindLast(d, key);
  }

  lemma FindNext(ms: seq<Pair<Value>>, key: Text)
    requires ms != [] && ms[0].key != key
    ensures Find(ms, key) == Find(ms[1..], key)
  {
  }

  lemma FindLast(ms: seq<Pair<Value>>, key: Text)
    requires |ms| == 1
    ensures Find(ms, key) == if ms[0].key == key then ms[0].value else Undefined
  {
  }

  lemma FiveRefs(ms: seq<Pair<Value>>)
    requires |ms| == 5
    ensures MemberRefs(ms) == Refs(ms[0].value) + Refs(ms[1].value) + Refs(ms[2].value) + Refs(ms[3].value) + Refs(ms[4].value)
  {
    hide Refs;
    var a, b, c, d := ms[1..], ms[2..], ms[3..], ms[4..];
    assert a[1..] == b && b[1..] == c && c[1..] == d && d[1..] == [];
    assert MemberRefs(d) == Refs(ms[4].value);
    assert MemberRefs(c) == Refs(ms[3].value) + MemberRefs(d);
    assert MemberRefs(b) == Refs(ms[2].value) + MemberRefs(c);
    assert MemberRefs(a) == Refs(ms[1].value) + MemberRefs(b);
  }

  /** All references of the source document that can be met resolve there. */
  ghost predicate SourceResolves(document: Value, refs: set<Text>, decode: Text -> Text) {
    forall r :: r in refs ==> Resolve(document, r, decode).Some?
  }

  ghost predicate NothingNames(key: Text, refs: set<Text>, decode: Text -> Text) {
    forall r :: r in refs && SOURCE_PREFIX <= r ==> NameOf(r, decode) != key
  }

  /** The segments of a reference after the prefix. */
  function PathOf(ref: Text, decode: Text -> Text): seq<Text>
    requires SOURCE_PREFIX <= ref
  {
    DecodeAll(decode, Split(ref[|SOURCE_PREFIX|..], SLASH))
  }

  /** `ref` is `source` rewritten, and stands in the generated schema for what `source` stands for in the document. */
  ghost predicate StandsFor(document: Value, p: Value, source: Text, ref: Text, decode: Text -> Text) {
    && SOURCE_PREFIX <= source && ref == Rewritten(source)
    && Resolve(document, source, decode).Some? && Resolve(p, ref, decode).Some?
    && Image(PathOf(source, decode), Resolve(document, source, decode).value, Resolve(p, ref, decode).value)
  }

  /**
   * The closure and the rewriting of one tool's input schema. A component may be called "$ref", as long as it is a
   * schema and not a string; then it is in the way only of references to it.
   */
  method InputSchema(document: Value, properties: Value, required: Value, decode: Text -> Text) returns (r: Result<Value, Error>)
    requires Plain(decode) && Refs(required) == {}
    requires SourceResolves(document, Refs(properties) + Refs(Schemas(document)), decode)
    ensures r.Ok? && !Member(Schemas(document), REF).Str? ==> forall ref :: ref in Refs(r.value) ==>
      exists source :: source in Refs(properties) + Refs(Schemas(document)) && StandsFor(document, r.value, source, ref, decode)
    ensures r.Ok? ==> exists definitions ::
      ClosedFrom(definitions, 0, Schemas(document), decode) && Portable(Assembled(properties, required, definitions)) == r
    ensures r.Ok? ==> Supported(properties) && Supported(required)
    ensures Supported(properties) && Supported(required) && ComponentsSupported(Schemas(document))
      && !Member(Schemas(document), REF).Str?
      && (Member(Schemas(document), REF).Undefined? || NothingNames(REF, Refs(properties) + Refs(Schemas(document)), decode))
      ==> r.Ok?
  {
    hide *;
    var collector := new Collector(Schemas(document), decode);
    NothingYet();
    var ok := collector.Collect(properties);
    if !ok { NotSupported(Refs(properties), properties, Schemas(document)); return Err(UnsupportedReference); }
    var schema := Assembled(properties, required, collector.definitions);
    r := Portable(schema);
    AssembledSupported(document, properties, required, collector.definitions, decode);
    if r.Ok? && !Member(Schemas(document), REF).Str? {
      ResolvesLocally(document, properties, required, collector.definitions, decode, r.value);
    }
  }

  lemma NothingYet()
    ensures Distinct([])
  {
  }

  lemma NotSupported(refs: set<Text>, properties: Value, schemas: Value)
    requires Unsupported(refs, schemas) && refs == Refs(properties)
    ensures !Supported(properties) || !ComponentsSupported(schemas) || Member(schemas, REF).Str?
  {
    hide Supported, Find;
    var r :| r in refs + Refs(schemas) && !(SOURCE_PREFIX <= r);
    if r in refs {
      if Supported(properties) { SupportedRefs(properties, r); }
    } else if ComponentsSupported(schemas) && !Member(schemas, REF).Str? {
      ComponentRefs(schemas, r);
    }
  }

  lemma ComponentRefs(schemas: Value, r: Text)
    requires ComponentsSupported(schemas) && !Member(schemas, REF).Str? && r in Refs(schemas)
    ensures SOURCE_PREFIX <= r
  {
    hide Supported, Find;
    if schemas.Object? {
      SomeMember(schemas.members, r);
      var i :| 0 <= i < |schemas.members| && r in Refs(schemas.members[i].value);
      SupportedRefs(schemas.members[i].value, r);
    } else {
      SupportedRefs(schemas, r);
    }
  }

  /** The assembled schema is rewritten without an error if all it is made of is supported. */
  lemma AssembledSupported(document: Value, properties: Value, required: Value, definitions: seq<Pair<Value>>, decode: Text -> Text)
    requires Plain(decode)
    requires SourceResolves(document, Refs(properties) + Refs(Schemas(document)), decode)
    requires ClosedFrom(definitions, 0, Schemas(document), decode) && NamedFrom(definitions, 0, Refs(properties), Schemas(document), decode)
    ensures Portable(Assembled(properties, required, definitions)).Ok? ==> Supported(properties) && Supported(required)
    ensures Supported(properties) && Supported(required) && ComponentsSupported(Schemas(document))
      && (Member(Schemas(document), REF).Undefined? || NothingNames(REF, Refs(properties) + Refs(Schemas(document)), decode))
      ==> Portable(Assembled(properties, required, definitions)).Ok?
  {
    hide Refs, Resolve, NameOf, Schemas, Member, AllDefined, Plain, ComponentsSupported;
    PortableIffSupported(Assembled(properties, required, definitions));
    AssembledSupportedIff(properties, required, definitions);
    if ComponentsSupported(Schemas(document))
       && (Member(Schemas(document), REF).Undefined? || NothingNames(REF, Refs(properties) + Refs(Schemas(document)), decode))
    {
      forall i | 0 <= i < |definitions| ensures SupportedMember(definitions[i]) {
        assert NamedBy(definitions[i].key, Refs(properties) + Refs(Schemas(document)), decode);
        var r :| r in Refs(properties) + Refs(Schemas(document)) && SOURCE_PREFIX <= r && definitions[i].key == NameOf(r, decode);
        NamedIsFound(document, r, decode);
        ComponentIsSupported(Schemas(document), definitions[i].key);
      }
    }
  }

  lemma AssembledSupportedIff(properties: Value, required: Value, definitions: seq<Pair<Value>>)
    ensures Supported(Assembled(properties, required, definitions)) <==>
      Supported(properties) && Supported(required) && forall i :: 0 <= i < |definitions| ==> SupportedMember(definitions[i])
  {
    var ms := Assembled(properties, required, definitions).members;
    assert TYPE[0] != REF[0] && PROPERTIES[0] != REF[0] && REQUIRED[0] != REF[0] && ADDITIONAL[0] != REF[0] && DEFS[1] != REF[1];
    assert SupportedMember(ms[0]) && SupportedMember(ms[3]);
    assert SupportedMember(ms[1]) <==> Supported(properties);
    assert SupportedMember(ms[2]) <==> Supported(required);
    assert SupportedMember(ms[4]) <==> Supported(Object(definitions));
  }

  /** A reference that resolves names a component that exists. */
  lemma NamedIsFound(document: Value, r: Text, decode: Text -> Text)
    requires Plain(decode) && SOURCE_PREFIX <= r && Resolve(document, r, decode).Some?
    ensures !Member(Schemas(document), NameOf(r, decode)).Undefined?
  {
    hide Find, Split, Resolve;
    SourcePath(document, r, decode);
    var keys := DecodeAll(decode, Split(r[|SOURCE_PREFIX|..], SLASH));
    assert keys[0] == NameOf(r, decode);
    if Member(Schemas(document), keys[0]).Undefined? { UndefinedLeadsNowhere(keys[1..]); }
  }

  /** components.schemas */
  function Schemas(document: Value): Value {
    Member(Member(document, COMPONENTS), SCHEMAS)
  }

  lemma ResolvesLocally(document: Value, properties: Value, required: Value, definitions: seq<Pair<Value>>, decode: Text -> Text, p: Value)
    requires Plain(decode) && Refs(required) == {} && !Member(Schemas(document), REF).Str?
    requires SourceResolves(document, Refs(properties) + Refs(Schemas(document)), decode)
    requires Distinct(definitions) && ClosedFrom(definitions, 0, Schemas(document), decode) && AllDefined(definitions, Refs(properties), decode)
    requires Portable(Assembled(properties, required, definitions)) == Ok(p)
    ensures forall ref :: ref in Refs(p) ==>
      exists source :: source in Refs(properties) + Refs(Schemas(document)) && StandsFor(document, p, source, ref, decode)
  {
    hide Portable, Resolve, Assembled, Plain, Schemas, NameOf, Find, StandsFor;
    var schema := Assembled(properties, required, definitions);
    AssembledParts(properties, required, definitions);
    forall ref | ref in Refs(p)
      ensures exists source :: source in Refs(properties) + Refs(Schemas(document)) && StandsFor(document, p, source, ref, decode)
    {
      PortableRefs(schema, ref);
      var r :| r in Refs(schema) && SOURCE_PREFIX <= r && ref == Rewritten(r);
      SchemaRefs(document, properties, definitions, decode, r);
      ResolveRewritten(document, schema, p, definitions, decode, r);
      assert StandsFor(document, p, r, ref, decode);
    }
  }

  /** A reference of the assembled schema is defined, and resolves in the source. */
  lemma SchemaRefs(document: Value, properties: Value, definitions: seq<Pair<Value>>, decode: Text -> Text, r: Text)
    requires ClosedFrom(definitions, 0, Schemas(document), decode) && AllDefined(definitions, Refs(properties), decode)
    requires !Member(Schemas(document), REF).Str?
    requires SourceResolves(document, Refs(properties) + Refs(Schemas(document)), decode)
    requires r in Refs(properties) + Refs(Object(definitions)) && SOURCE_PREFIX <= r
    ensures Defined(definitions, r, decode) && Resolve(document, r, decode).Some? && r in Refs(properties) + Refs(Schemas(document))
  {
    hide Refs, Resolve, Schemas, NameOf, Defined;
    if r !in Refs(properties) {
      ObjectRefs(definitions, r);
      if r in RefHere(definitions) {
        FoundKey(definitions, REF);
      } else {
        var i :| 0 <= i < |definitions| && r in Refs(definitions[i].value);
        MemberRefsWithin(Schemas(document), definitions[i].key);
      }
    }
  }

  lemma ObjectRefs(members: seq<Pair<Value>>, r: Text)
    requires r in Refs(Object(members))
    ensures r in RefHere(members) || exists i :: 0 <= i < |members| && r in Refs(members[i].value)
  {
    if r !in RefHere(members) { SomeMember(members, r); }
  }

  lemma {:induction false} SomeMember(members: seq<Pair<Value>>, r: Text)
    requires r in MemberRefs(members)
    ensures exists i :: 0 <= i < |members| && r in Refs(members[i].value)
  {
    hide Refs;
    if r !in Refs(members[0].value) {
      SomeMember(members[1..], r);
      var i :| 0 <= i < |members[1..]| && r in Refs(members[1..][i].value);
      assert members[i + 1] == members[1..][i];
    }
  }

  /** The rewritten path through $defs leads to the image of what the path through components.schemas leads to. */
  lemma ResolveRewritten(document: Value, schema: Value, p: Value, definitions: seq<Pair<Value>>, decode: Text -> Text, r: Text)
    requires Plain(decode) && SOURCE_PREFIX <= r && Resolve(document, r, decode).Some? && Defined(definitions, r, decode)
    requires Distinct(definitions) && ClosedFrom(definitions, 0, Schemas(document), decode)
    requires Member(schema, DEFS) == Object(definitions) && Portable(schema) == Ok(p)
    ensures StandsFor(document, p, r, Rewritten(r), decode)
  {
    hide Portable, Refs, AllDefined, Find;
    var keys := PathOf(r, decode);
    var name := NameOf(r, decode);
    SourcePath(document, r, decode);
    LocalPath(p, r, decode);
    assert keys[0] == name;
    var i :| 0 <= i < |definitions| && definitions[i].key == name;
    FindDistinct(definitions, i);
    assert Member(Object(definitions), name) == Member(Schemas(document), name);
    assert Walk(schema, [DEFS] + keys) == Walk(Object(definitions), keys) by {
      assert ([DEFS] + keys)[1..] == keys;
    }
    assert Walk(Object(definitions), keys) == Walk(Schemas(document), keys);
    WalkPortable(schema, [DEFS] + keys);
    assert ([DEFS] + keys)[|keys|] == keys[|keys| - 1];
  }

  lemma {:induction false} FindDistinct(members: seq<Pair<Value>>, i: nat)
    requires Distinct(members) && i < |members|
    ensures Find(members, members[i].key) == members[i].value
  {
    if i > 0 { FindDistinct(members[1..], i - 1); }
  }

  lemma SourcePath(document: Value, r: Text, decode: Text -> Text)
    requires Plain(decode) && SOURCE_PREFIX <= r
    ensures Resolve(document, r, decode) == Walk(Schemas(document), DecodeAll(decode, Split(r[|SOURCE_PREFIX|..], SLASH)))
  {
    hide Find, Split, DecodeAll, Walk;
    var rest := r[|SOURCE_PREFIX|..];
    var more := Split(rest, SLASH);
    PrefixParts(r);
    SplitPlain(COMPONENTS, SLASH, SCHEMAS + [SLASH] + rest);
    SplitPlain(SCHEMAS, SLASH, rest);
    TwoSteps(document, COMPONENTS, SCHEMAS, more, decode);
  }

  lemma PrefixParts(r: Text)
    requires SOURCE_PREFIX <= r
    ensures r[2..] == COMPONENTS + [SLASH] + (SCHEMAS + [SLASH] + r[|SOURCE_PREFIX|..])
    ensures SLASH !in COMPONENTS && SLASH !in SCHEMAS && [HASH, SLASH] <= r
  {
    assert r == SOURCE_PREFIX + r[|SOURCE_PREFIX|..];
  }

  lemma TwoSteps(v: Value, a: Text, b: Text, more: seq<Text>, decode: Text -> Text)
    requires decode(a) == a && decode(b) == b
    ensures Walk(v, DecodeAll(decode, [a] + ([b] + more))) == Walk(Member(Member(v, a), b), DecodeAll(decode, more))
  {
    hide Member;
    assert ([a] + ([b] + more))[1..] == [b] + more && ([b] + more)[1..] == more;
    var keys := DecodeAll(decode, more);
    assert DecodeAll(decode, [b] + more) == [b] + keys;
    assert DecodeAll(decode, [a] + ([b] + more)) == [a] + ([b] + keys);
    assert ([a] + ([b] + keys))[1..] == [b] + keys && ([b] + keys)[1..] == keys;
    assert Walk(Member(v, a), [b] + keys) == Walk(Member(Member(v, a), b), keys);
  }

  lemma LocalPath(p: Value, r: Text, decode: Text -> Text)
    requires Plain(decode) && SOURCE_PREFIX <= r
    ensures Resolve(p, Rewritten(r), decode) == Walk(p, [DEFS] + DecodeAll(decode, Split(r[|SOURCE_PREFIX|..], SLASH)))
  {
    hide Find;
    var rest := r[|SOURCE_PREFIX|..];
    assert Rewritten(r)[2..] == DEFS + [SLASH] + rest;
    SplitPlain(DEFS, SLASH, rest);
    var all := [DEFS] + Split(rest, SLASH);
    assert all[1..] == Split(rest, SLASH);
  }
}
