/** `Member.conversion` and `FunctionPointerType.return_conversion`: the
    choice of a marshaling strategy for every member and argument.  The
    strategies are opaque tokens of the `typeconversion` module; only the
    choice between them is modelled. */
module Conversions {
  import opened Util
  import opened Nodes
  import opened FunctionTypes

  datatype Strategy =
    | BufferLengthConversion
    | ArrayLengthConversion
    | UserdataConversion
    | OptionalStringConversion
    | StringConversion
    | BufferConversion
    | EnumArrayConversion
    | StructArrayConversion
    | ObjectArrayConversion
    | ImplicitArrayConversion
    | OptionalStructConversion
    | StructPointerConversion
    | ImplicitConversion
    | EnumConversion
    | BitmaskConversion
    | StructConversion
    | OptionalObjectConversion
    | ObjectConversion
    | CallbackConversion(functionName: string)

  /** `Member.conversion` for member `i` of the sibling list `ms`: rules in
      priority order, the first that applies wins. */
  function MemberConversion(reg: map<string, Node>, ms: seq<Member>, i: nat, ext: External): Strategy
    requires i < |ms| && MembersLinked(reg.Keys, ms)
  {
    var m := ms[i];
    var t := TypeOf(reg, m);
    if m.lengthOf.Some? then
      if TypeOf(reg, ms[m.lengthOf.value]).name == "void" then BufferLengthConversion else ArrayLengthConversion
    else if m.name == "userdata" then UserdataConversion
    else if t.name == "char" && m.annotation == "const*" then
      if m.optional then OptionalStringConversion else StringConversion
    else if m.annotation == "const*" && HasLength(m) then
      if t.name == "void" then BufferConversion
      else if CategoryOf(t) == Enum then EnumArrayConversion
      else if CategoryOf(t) == Structure then StructArrayConversion
      else if CategoryOf(t) == Object then ObjectArrayConversion
      else ImplicitArrayConversion
    else if m.annotation == "const*" then
      if CategoryOf(t) == Structure then
        if m.optional then OptionalStructConversion else StructPointerConversion
      else ImplicitConversion
    else if m.annotation == "*" then ImplicitConversion
    else if CategoryOf(t) == Enum then EnumConversion
    else if CategoryOf(t) == Bitmask then BitmaskConversion
    else if CategoryOf(t) == Structure then StructConversion
    else if CategoryOf(t) == Object then
      if m.optional then OptionalObjectConversion else ObjectConversion
    else if IsCallbackType(t) then CallbackConversion(CallbackFunctionName(t, ext))
    else ImplicitConversion
  }

  /** `return_conversion`: none without a return type, the object strategy
      for an object, pass-through otherwise. */
  function ReturnConversion(reg: map<string, Node>, sig: Signature): (r: Option<Strategy>)
    requires sig.returnType.Some? ==> sig.returnType.value in reg
    ensures r.Some? <==> sig.returnType.Some?
    ensures r.Some? ==> r.value in {ObjectConversion, ImplicitConversion}
    ensures r == Some(ObjectConversion) <==> sig.returnType.Some? && CategoryOf(reg[sig.returnType.value]) == Object
  {
    if sig.returnType.None? then None
    else if CategoryOf(reg[sig.returnType.value]) == Object then Some(ObjectConversion)
    else Some(ImplicitConversion)
  }

  // The member shapes the decision table below is written in.

  /** Neither of the two name-driven rules (length field, userdata) applies. */
  predicate Plain(m: Member) {
    m.lengthOf.None? && m.name != "userdata"
  }

  predicate StringShape(t: Node, m: Member) {
    t.name == "char" && m.annotation == "const*"
  }

  predicate ArrayShape(t: Node, m: Member) {
    m.annotation == "const*" && HasLength(m) && !StringShape(t, m)
  }

  predicate PointerShape(t: Node, m: Member) {
    m.annotation == "const*" && !HasLength(m) && !StringShape(t, m)
  }

  predicate ValueShape(m: Member) {
    m.annotation != "const*" && m.annotation != "*"
  }

  /** The strategy table as independent guards: strategy `s` is chosen for
      member `i` exactly when its row holds.  Every row spells out which
      earlier rules must not apply. */
  predicate Selects(reg: map<string, Node>, ms: seq<Member>, i: nat, ext: External, s: Strategy)
    requires i < |ms| && MembersLinked(reg.Keys, ms)
  {
    var m := ms[i];
    var t := TypeOf(reg, m);
    var c := CategoryOf(t);
    match s
    case BufferLengthConversion => m.lengthOf.Some? && TypeOf(reg, ms[m.lengthOf.value]).name == "void"
    case ArrayLengthConversion => m.lengthOf.Some? && TypeOf(reg, ms[m.lengthOf.value]).name != "void"
    case UserdataConversion => m.lengthOf.None? && m.name == "userdata"
    case OptionalStringConversion => Plain(m) && StringShape(t, m) && m.optional
    case StringConversion => Plain(m) && StringShape(t, m) && !m.optional
    case BufferConversion => Plain(m) && ArrayShape(t, m) && t.name == "void"
    case EnumArrayConversion => Plain(m) && ArrayShape(t, m) && t.name != "void" && c == Enum
    case StructArrayConversion => Plain(m) && ArrayShape(t, m) && t.name != "void" && c == Structure
    case ObjectArrayConversion => Plain(m) && ArrayShape(t, m) && t.name != "void" && c == Object
    case ImplicitArrayConversion =>
      Plain(m) && ArrayShape(t, m) && t.name != "void" && c !in {Enum, Structure, Object}
    case OptionalStructConversion => Plain(m) && PointerShape(t, m) && c == Structure && m.optional
    case StructPointerConversion => Plain(m) && PointerShape(t, m) && c == Structure && !m.optional
    case ImplicitConversion =>
      Plain(m) && (
        || (PointerShape(t, m) && c != Structure)
        || m.annotation == "*"
        || (ValueShape(m) && c !in {Enum, Bitmask, Structure, Object} && !IsCallbackType(t)))
    case EnumConversion => Plain(m) && ValueShape(m) && c == Enum
    case BitmaskConversion => Plain(m) && ValueShape(m) && c == Bitmask
    case StructConversion => Plain(m) && ValueShape(m) && c == Structure
    case OptionalObjectConversion => Plain(m) && ValueShape(m) && c == Object && m.optional
    case ObjectConversion => Plain(m) && ValueShape(m) && c == Object && !m.optional
    case CallbackConversion(name) =>
      Plain(m) && ValueShape(m) && IsCallbackType(t) && name == CallbackFunctionName(t, ext)
  }

  /** The chosen strategy is exactly the one whose row of the table holds;
      in particular exactly one row holds for every member. */
  lemma ConversionFollowsTable(reg: map<string, Node>, ms: seq<Member>, i: nat, ext: External, s: Strategy)
    requires i < |ms| && MembersLinked(reg.Keys, ms)
    ensures MemberConversion(reg, ms, i, ext) == s <==> Selects(reg, ms, i, ext, s)
  {
  }

  /** Toggling `optional` on `ms[i]`. */
  function WithOptional(ms: seq<Member>, i: nat, optional: bool): seq<Member>
    requires i < |ms|
  {
    ms[i := ms[i].(optional := optional)]
  }

  /** Optionality only ever picks between the two strategies of the string,
      struct-pointer and object rules; for every other member, in particular
      a sized array, it is ignored. */
  lemma OptionalityOnlySplitsThreeRules(reg: map<string, Node>, ms: seq<Member>, i: nat, ext: External, optional: bool)
    requires i < |ms| && MembersLinked(reg.Keys, ms)
    ensures MembersLinked(reg.Keys, WithOptional(ms, i, optional))
    ensures var before := MemberConversion(reg, ms, i, ext);
            var after := MemberConversion(reg, WithOptional(ms, i, optional), i, ext);
            before != after ==>
              && {before, after} <= {OptionalStringConversion, StringConversion, OptionalStructConversion,
                                     StructPointerConversion, OptionalObjectConversion, ObjectConversion}
              && (after in {OptionalStringConversion, OptionalStructConversion, OptionalObjectConversion} <==> optional)
  {
    var ms' := WithOptional(ms, i, optional);
    assert TypeOf(reg, ms'[i]) == TypeOf(reg, ms[i]);
    if ms[i].lengthOf.Some? {
      var j := ms[i].lengthOf.value;
      assert TypeOf(reg, ms'[j]).name == TypeOf(reg, ms[j]).name;
    }
  }

  /** A const pointer with a length is an array whatever its optionality: the
      array rule pre-empts every optional strategy. */
  lemma ArrayRulePreemptsOptional(reg: map<string, Node>, ms: seq<Member>, i: nat, ext: External)
    requires i < |ms| && MembersLinked(reg.Keys, ms)
    requires Plain(ms[i]) && ArrayShape(TypeOf(reg, ms[i]), ms[i]) && ms[i].optional
    ensures MemberConversion(reg, ms, i, ext) in
            {BufferConversion, EnumArrayConversion, StructArrayConversion, ObjectArrayConversion, ImplicitArrayConversion}
    ensures MemberConversion(reg, ms, i, ext) == MemberConversion(reg, WithOptional(ms, i, false), i, ext)
  {
    OptionalityOnlySplitsThreeRules(reg, ms, i, ext, false);
  }

  /** A length field is classified by the array it measures: its own name,
      annotation, type and optionality play no part. */
  lemma LengthFieldIgnoresOwnShape(reg: map<string, Node>, ms: seq<Member>, i: nat, ext: External, other: Member)
    requires i < |ms| && MembersLinked(reg.Keys, ms) && ms[i].lengthOf.Some? && ms[i].lengthOf.value != i
    requires Linked(reg.Keys, other) && other.lengthOf == ms[i].lengthOf && other.lengthMember == ms[i].lengthMember
    ensures MembersLinked(reg.Keys, ms[i := other])
    ensures MemberConversion(reg, ms[i := other], i, ext) == MemberConversion(reg, ms, i, ext)
    ensures MemberConversion(reg, ms, i, ext) in {BufferLengthConversion, ArrayLengthConversion}
  {
  }
}
