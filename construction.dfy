/** The constructors of the node classes: what one schema entry becomes before
    linking.  Members and arguments drop the upstream-tagged entries and are
    paired by length; enums keep their enabled values; objects keep their
    enabled methods; every type reference is still the schema's name. */
module Construction {
  import opened Util
  import opened Schema
  import opened Nodes
  import TagFilter
  import Pairing
  import Enums

  /** `Member(data)`: the schema fields, nothing linked or paired yet. */
  function MakeMember(r: RawMember): Member {
    Member(r.name, r.typeName, r.annotation, r.length, r.defaultValue, r.optional, r.tags, None, None, None)
  }

  predicate KeepMember(r: RawMember) {
    TagFilter.IsMemberEnabled(r.tags)
  }

  function Unpaired(raw: seq<RawMember>): seq<Member> {
    Map(raw, MakeMember)
  }

  /** The member list of a structure, or the argument list of a function:
      enabled entries in schema order, then paired. */
  function MembersOf(raw: seq<RawMember>): seq<Member> {
    Pairing.Paired(Unpaired(Filter(raw, KeepMember)))
  }

  /** A signature before linking: `return_type` is not set yet. */
  function SignatureOf(args: seq<RawMember>, returnName: Option<string>): Signature {
    Signature(MembersOf(args), returnName, None)
  }

  function MethodKept(enabled: Option<set<string>>): RawMethod -> bool {
    (r: RawMethod) => TagFilter.IsEnabled(r.tags, enabled)
  }

  /** `MethodType(object_name, data)` */
  function MakeMethod(objectName: string, r: RawMethod): Method {
    Method(objectName, r.name, r.tags, SignatureOf(r.args, r.returnName))
  }

  function MethodMaker(objectName: string): RawMethod -> Method {
    (r: RawMethod) => MakeMethod(objectName, r)
  }

  /** `ObjectType.methods`: the enabled methods in schema order. */
  function MethodsOf(objectName: string, raw: seq<RawMethod>, enabled: Option<set<string>>): seq<Method> {
    Map(Filter(raw, MethodKept(enabled)), MethodMaker(objectName))
  }

  /** The body built by the constructor of category `c`; enums and bitmasks
      need `values`, structures need `members`. */
  function NewBody(name: string, c: Category, raw: RawType, enabled: Option<set<string>>): Result<Body> {
    match c
    case Native => Ok(NativeBody)
    case Enum =>
      if raw.values.None? then Err(MissingField(name, "values")) else Enums.EnumBodyOf(false, raw.values.value, enabled, name)
    case Bitmask =>
      if raw.values.None? then Err(MissingField(name, "values")) else Enums.EnumBodyOf(true, raw.values.value, enabled, name)
    case Structure =>
      if raw.members.None? then Err(MissingField(name, "members"))
      else Ok(StructBody(MembersOf(raw.members.value), raw.extensible, raw.chained))
    case FunctionPointer => Ok(FunctionBody(PointerKind, SignatureOf(raw.args, raw.returnName)))
    case Function => Ok(FunctionBody(FunctionKind, SignatureOf(raw.args, raw.returnName)))
    case Object => Ok(ObjectBody(MethodsOf(name, raw.methods, enabled)))
    case Typedef => Ok(TypedefBody(raw.target, None))
  }

  /** `category_types.get(category)(name, data)`: `Ok(None)` when the
      category has no constructor. */
  function NewNode(name: string, raw: RawType, enabled: Option<set<string>>): Result<Option<Node>> {
    match CategoryOfKey(raw.category)
    case None => Ok(None)
    case Some(c) =>
      var b := NewBody(name, c, raw, enabled);
      if b.Err? then Err(b.fault) else Ok(Some(Node(name, raw.tags, b.value)))
  }

  /** Pairing positions inside the list, as the pairing loop leaves them. */
  predicate PairsInRange(ms: seq<Member>) {
    forall k :: 0 <= k < |ms| ==>
      && (ms[k].lengthMember.Some? ==> ms[k].lengthMember.value < |ms|)
      && (ms[k].lengthOf.Some? ==> ms[k].lengthOf.value < |ms|)
  }

  predicate UnlinkedMembers(ms: seq<Member>) {
    forall k :: 0 <= k < |ms| ==> ms[k].ty.None?
  }

  predicate FreshSignature(sig: Signature) {
    PairsInRange(sig.args) && UnlinkedMembers(sig.args) && sig.returnType.None?
  }

  /** A node as a constructor leaves it: paired, and not linked. */
  predicate Fresh(n: Node) {
    match n.body
    case StructBody(ms, _, _) => PairsInRange(ms) && UnlinkedMembers(ms)
    case FunctionBody(_, sig) => FreshSignature(sig)
    case ObjectBody(methods) => forall k :: 0 <= k < |methods| ==> FreshSignature(methods[k].sig)
    case TypedefBody(_, resolved) => resolved.None?
    case _ => true
  }

  /** The member list keeps exactly the members not tagged upstream, in
      order, with their schema fields, and pairs them inside the list. */
  lemma MembersOfKeepsEnabled(raw: seq<RawMember>)
    ensures var kept := Filter(raw, KeepMember);
            var ms := MembersOf(raw);
            && |ms| == |kept|
            && (forall r :: r in kept <==> r in raw && "upstream" !in r.tags)
            && (forall k :: 0 <= k < |ms| ==>
                  ms[k].(lengthMember := None, lengthOf := None) == MakeMember(kept[k]))
            && PairsInRange(ms) && UnlinkedMembers(ms)
  {
    var kept := Filter(raw, KeepMember);
    var u := Unpaired(kept);
    var ms := MembersOf(raw);
    Pairing.PairedKeepsSchemaFields(u);
    forall r ensures KeepMember(r) <==> "upstream" !in r.tags {
      TagFilter.MemberEnabledIffNotUpstream(r.tags);
    }
    forall k | 0 <= k < |ms|
      ensures ms[k].(lengthMember := None, lengthOf := None) == MakeMember(kept[k])
      ensures ms[k].ty.None?
    {
      assert u[k] == MakeMember(kept[k]);
      assert ms[k].(lengthMember := None, lengthOf := None) == u[k].(lengthMember := None, lengthOf := None);
    }
  }

  /** An object keeps exactly its enabled methods, in order, each owned by
      the object. */
  lemma MethodsOfKeepsEnabled(objectName: string, raw: seq<RawMethod>, enabled: Option<set<string>>)
    ensures var kept := Filter(raw, MethodKept(enabled));
            var ms := MethodsOf(objectName, raw, enabled);
            && |ms| == |kept|
            && (forall r :: r in kept <==> r in raw && TagFilter.IsEnabled(r.tags, enabled))
            && forall k :: 0 <= k < |ms| ==> ms[k].objectName == objectName && ms[k].name == kept[k].name
  {
  }

  /** A signature as its constructor leaves it is paired and unlinked. */
  lemma SignatureOfFresh(args: seq<RawMember>, returnName: Option<string>)
    ensures FreshSignature(SignatureOf(args, returnName))
  {
    MembersOfKeepsEnabled(args);
  }

  lemma MethodsOfFresh(objectName: string, raw: seq<RawMethod>, enabled: Option<set<string>>)
    ensures var ms := MethodsOf(objectName, raw, enabled);
            forall k :: 0 <= k < |ms| ==> FreshSignature(ms[k].sig)
  {
    var ms := MethodsOf(objectName, raw, enabled);
    var kept := Filter(raw, MethodKept(enabled));
    forall k | 0 <= k < |ms| ensures FreshSignature(ms[k].sig) {
      assert ms[k] == MakeMethod(objectName, kept[k]);
      SignatureOfFresh(kept[k].args, kept[k].returnName);
    }
  }

  /** The enum and bitmask constructors build an enum body of their own kind;
      their only failure is the entry's empty-name fault. */
  lemma EnumBodyShape(bitmask: bool, values: seq<RawValue>, enabled: Option<set<string>>, name: string)
    ensures var b := Enums.EnumBodyOf(bitmask, values, enabled, name);
            && (b.Ok? ==> b.value.EnumBody? && b.value.bitmask == bitmask)
            && (b.Err? ==> b.fault == EmptyValueName(name))
  {
    Enums.PrefixScanOtherwise(Enums.EnabledValues(values, enabled), name);
  }

  /** The constructor of category `c` builds a fresh body of that category;
      its only failures are a missing list and an empty enum value name. */
  lemma NewBodyShape(name: string, c: Category, raw: RawType, enabled: Option<set<string>>)
    ensures var b := NewBody(name, c, raw, enabled);
            && (b.Ok? ==> CategoryOf(Node(name, raw.tags, b.value)) == c && Fresh(Node(name, raw.tags, b.value)))
            && (b.Err? ==> b.fault in {MissingField(name, "values"), MissingField(name, "members"), EmptyValueName(name)})
  {
    match c
    case Enum =>
      if raw.values.Some? { EnumBodyShape(false, raw.values.value, enabled, name); }
    case Bitmask =>
      if raw.values.Some? { EnumBodyShape(true, raw.values.value, enabled, name); }
    case Structure =>
      if raw.members.Some? { MembersOfKeepsEnabled(raw.members.value); }
    case FunctionPointer => SignatureOfFresh(raw.args, raw.returnName);
    case Function => SignatureOfFresh(raw.args, raw.returnName);
    case Object => MethodsOfFresh(name, raw.methods, enabled);
    case _ =>
  }

  /** A constructor only runs for one of the eight categories and builds a
      node of that category under the entry's name; its only failures are a
      missing `values` or `members` list and an empty enum value name. */
  lemma NewNodeCategory(name: string, raw: RawType, enabled: Option<set<string>>)
    ensures NewNode(name, raw, enabled) == Ok(None) <==> CategoryOfKey(raw.category).None?
    ensures NewNode(name, raw, enabled).Ok? && NewNode(name, raw, enabled).value.Some? ==>
            var n := NewNode(name, raw, enabled).value.value;
            n.name == name && n.tags == raw.tags && Some(CategoryOf(n)) == CategoryOfKey(raw.category) && Fresh(n)
    ensures NewNode(name, raw, enabled).Err? ==>
            NewNode(name, raw, enabled).fault in {MissingField(name, "values"), MissingField(name, "members"), EmptyValueName(name)}
  {
    if CategoryOfKey(raw.category).Some? {
      NewBodyShape(name, CategoryOfKey(raw.category).value, raw, enabled);
    }
  }

  /** `[Member(m) for m in members if _is_member_enabled(m)]` */
  method KeptMembers(raw: seq<RawMember>) returns (unpaired: seq<Member>)
    ensures unpaired == Unpaired(Filter(raw, KeepMember))
  {
    unpaired := [];
    var i := 0;
    while i < |raw|
      invariant 0 <= i <= |raw|
      invariant unpaired == Map(Filter(raw[..i], KeepMember), MakeMember)
    {
      MapFilterSnoc(raw, i, KeepMember, MakeMember);
      if KeepMember(raw[i]) {
        unpaired := unpaired + [MakeMember(raw[i])];
      }
      i := i + 1;
    }
    assert raw[..i] == raw;
  }

  /** The member list of the `StructureType` and `FunctionPointerType`
      constructors: the enabled members, then the pairing loop. */
  method ConstructMembers(raw: seq<RawMember>) returns (ms: seq<Member>)
    ensures ms == MembersOf(raw)
  {
    var unpaired := KeptMembers(raw);
    ms := Pairing.PairLengths(unpaired);
  }

  /** The list of `MethodType` objects an `ObjectType` builds. */
  method ConstructMethods(objectName: string, raw: seq<RawMethod>, enabled: Option<set<string>>) returns (ms: seq<Method>)
    ensures ms == MethodsOf(objectName, raw, enabled)
  {
    ms := [];
    var i := 0;
    while i < |raw|
      invariant 0 <= i <= |raw|
      invariant ms == MethodsOf(objectName, raw[..i], enabled)
    {
      MapFilterSnoc(raw, i, MethodKept(enabled), MethodMaker(objectName));
      if TagFilter.IsEnabled(raw[i].tags, enabled) {
        var args := ConstructMembers(raw[i].args);
        ms := ms + [Method(objectName, raw[i].name, raw[i].tags, Signature(args, raw[i].returnName, None))];
      }
      i := i + 1;
    }
    assert raw[..i] == raw;
  }

  /** The constructor dispatch of `Model.__init__` for one entry. */
  method ConstructNode(name: string, raw: RawType, enabled: Option<set<string>>) returns (r: Result<Option<Node>>)
    ensures r == NewNode(name, raw, enabled)
  {
    var category := CategoryOfKey(raw.category);
    if category.None? {
      return Ok(None);
    }
    var body: Result<Body>;
    match category.value {
    case Native =>
      body := Ok(NativeBody);
    case Enum =>
      body := if raw.values.None? then Err(MissingField(name, "values"))
              else Enums.EnumBodyOf(false, raw.values.value, enabled, name);
    case Bitmask =>
      body := if raw.values.None? then Err(MissingField(name, "values"))
              else Enums.EnumBodyOf(true, raw.values.value, enabled, name);
    case Structure =>
      if raw.members.None? {
        body := Err(MissingField(name, "members"));
      } else {
        var ms := ConstructMembers(raw.members.value);
        body := Ok(StructBody(ms, raw.extensible, raw.chained));
      }
    case FunctionPointer =>
      var args := ConstructMembers(raw.args);
      body := Ok(FunctionBody(PointerKind, Signature(args, raw.returnName, None)));
    case Function =>
      var args := ConstructMembers(raw.args);
      body := Ok(FunctionBody(FunctionKind, Signature(args, raw.returnName, None)));
    case Object =>
      var methods := ConstructMethods(name, raw.methods, enabled);
      body := Ok(ObjectBody(methods));
    case Typedef =>
      body := Ok(TypedefBody(raw.target, None));
    }
    r := if body.Err? then Err(body.fault) else Ok(Some(Node(name, raw.tags, body.value)));
  }
}
