/** `get_swift_value`, `Member.default_swift_value` and
    `StructureType.has_default_swift_initializer`: the Swift expression a
    member defaults to, and whether a structure gets a zero-argument
    initializer.  A struct member without annotation defaults to the nested
    struct's initializer, so the two definitions recurse into each other along
    by-value struct embedding, which the schema keeps acyclic. */
module Defaults {
  import opened Util
  import opened Schema
  import opened Nodes
  import Enums

  /** `get_swift_value` of node `t` on a default literal.  A non-string literal
      reaching the enum or struct rendering, or a sentinel constant on a native
      type outside the primitive table, raises in the Python code. */
  function RenderLiteral(t: Node, lit: Literal, ext: External): Result<string> {
    match t.body
    case NativeBody =>
      if lit.StrLit? && StartsWith(lit.s, "WGPU_") then
        match PrimitiveName(t.name)
        case None => Err(UnknownNative(t.name))
        case Some(swiftName) => Ok(swiftName + "(" + lit.s + ")")
      else if lit == StrLit("NAN") then Ok(".nan")
      else if t.name == "float" && lit.StrLit? then Ok(RStrip(lit.s, 'f'))
      else Ok(PyStr(lit))
    case EnumBody(_, _, requiresPrefix) =>
      if lit.StrLit? then Ok(Enums.CaseReference(requiresPrefix, lit.s, ext)) else Err(TypeMismatch(t.name))
    case StructBody(_, _, _) =>
      if lit.StrLit? then Ok(ext.structLiteral(t.name, lit.s)) else Err(TypeMismatch(t.name))
    case _ => Ok(PyStr(lit))
  }

  /** Rendering fails exactly on a non-string literal for an enum, bitmask or
      structure, and on a sentinel constant for a native type whose name is not
      in the primitive table; in particular every literal renders for every
      other kind of node. */
  lemma RenderLiteralFailures(t: Node, lit: Literal, ext: External)
    ensures RenderLiteral(t, lit, ext).Err? <==>
            || (CategoryOf(t) in {Enum, Bitmask, Structure} && !lit.StrLit?)
            || (t.body.NativeBody? && lit.StrLit? && StartsWith(lit.s, "WGPU_") && !HasNames(t))
    ensures RenderLiteral(t, lit, ext).Err? ==>
            RenderLiteral(t, lit, ext).fault in {TypeMismatch(t.name), UnknownNative(t.name)}
  {
  }

  /** A native default literal: a sentinel constant is wrapped in the type's
      Swift name, "NAN" is Swift's `.nan` even for `float`, and a `float`
      literal loses its trailing `f` suffix, nothing else. */
  lemma NativeLiteralRendering(t: Node, s: string, ext: External)
    requires t.body.NativeBody? && HasNames(t)
    ensures StartsWith(s, "WGPU_") ==> RenderLiteral(t, StrLit(s), ext) == Ok(SwiftName(t, ext) + "(" + s + ")")
    ensures s == "NAN" ==> RenderLiteral(t, StrLit(s), ext) == Ok(".nan")
    ensures t.name == "float" && !StartsWith(s, "WGPU_") && s != "NAN" ==>
            var r := RenderLiteral(t, StrLit(s), ext).value;
            && StartsWith(s, r) && (r == "" || r[|r| - 1] != 'f')
            && forall k :: |r| <= k < |s| ==> s[k] == 'f'
  {
    if s == "NAN" {
      assert !StartsWith(s, "WGPU_") by { assert s[0] != 'W'; }
    }
  }

  /** A default that names a value of an enum renders as a reference to the
      identifier that value's case is declared with. */
  lemma EnumDefaultReferencesCase(t: Node, k: nat, ext: External)
    requires t.body.EnumBody? && Enums.PrefixConsistent(t.body) && k < |t.body.values|
    ensures var v := t.body.values[k];
            exists id :: RenderLiteral(t, StrLit(v.name), ext) == Ok("." + id) && Enums.ValueSwiftName(v, ext) == ext.swiftSafe(id)
  {
    Enums.DefaultReferencesDeclaredCase(t.body, k, ext);
    var v := t.body.values[k];
    var id := ext.camelCase(Enums.CaseStem(t.body.requiresPrefix, v.name));
    assert RenderLiteral(t, StrLit(v.name), ext) == Ok("." + id);
  }

  /** A member without annotation whose type is a structure: the member
      embeds that structure by value. */
  predicate EmbedsStruct(reg: map<string, Node>, m: Member) {
    m.annotation == "" && m.ty.Some? && m.ty.value in reg && reg[m.ty.value].body.StructBody?
  }

  /** Every structure is linked and has a rank above every structure it
      embeds by value.  Such a ranking exists exactly when by-value embedding
      has no cycle at all, including cycles through optional members, members
      with a default, or length fields, which the recursion never follows. */
  predicate Ranked(reg: map<string, Node>, rank: map<string, nat>) {
    forall key :: key in reg && reg[key].body.StructBody? ==>
      && key in rank
      && MembersLinked(reg.Keys, reg[key].body.members)
      && forall k :: 0 <= k < |reg[key].body.members| && EmbedsStruct(reg, reg[key].body.members[k]) ==>
           reg[key].body.members[k].ty.value in rank && rank[reg[key].body.members[k].ty.value] < rank[key]
  }

  /** The termination measure of a member's default: one above the rank of
      the structure it embeds, if any. */
  ghost function Depth(reg: map<string, Node>, rank: map<string, nat>, m: Member): nat
    requires Ranked(reg, rank)
  {
    if EmbedsStruct(reg, m) then rank[m.ty.value] + 1 else 0
  }

  /** A computed default that lets the initializer exist: present and not the
      empty string (Python truthiness of the returned value). */
  predicate Provided(r: Result<Option<string>>) {
    r.Ok? && r.value.Some? && r.value.value != ""
  }

  /** `Member.default_swift_value` of `ms[i]` inside the sibling list `ms`. */
  function DefaultSwiftValue(reg: map<string, Node>, ms: seq<Member>, i: nat, ext: External, ghost rank: map<string, nat>)
    : Result<Option<string>>
    requires i < |ms| && MembersLinked(reg.Keys, ms) && Ranked(reg, rank)
    decreases Depth(reg, rank, ms[i]), 0, 0
  {
    var m := ms[i];
    var t := TypeOf(reg, m);
    if m.optional then Ok(Some("nil"))
    else if m.lengthMember.Some? && ms[m.lengthMember.value].defaultValue.Some?
            && IsZeroLiteral(ms[m.lengthMember.value].defaultValue.value) then Ok(Some("[]"))
    else if m.defaultValue.Some? && Truthy(m.defaultValue.value) then
      match RenderLiteral(t, m.defaultValue.value, ext)
      case Err(f) => Err(f)
      case Ok(s) => Ok(Some(s))
    else if EmbedsStruct(reg, m) then
      match HasDefaultInit(reg, m.ty.value, ext, rank)
      case Err(f) => Err(f)
      case Ok(b) => if b then Ok(Some(SwiftName(t, ext) + "()")) else Ok(None)
    else Ok(None)
  }

  /** `StructureType.has_default_swift_initializer` of the structure `key`. */
  function HasDefaultInit(reg: map<string, Node>, key: string, ext: External, ghost rank: map<string, nat>): Result<bool>
    requires key in reg && reg[key].body.StructBody? && Ranked(reg, rank)
    decreases rank[key], 1, 0
  {
    AllDefaults(reg, key, 0, ext, rank)
  }

  /** `all(member.default_swift_value for member in self.swift_members)` from
      member `k` on: a falsy default stops the scan, so later members are not
      evaluated and cannot raise. */
  function AllDefaults(reg: map<string, Node>, key: string, k: nat, ext: External, ghost rank: map<string, nat>): Result<bool>
    requires key in reg && reg[key].body.StructBody? && Ranked(reg, rank)
    requires k <= |reg[key].body.members|
    decreases rank[key], 0, |reg[key].body.members| - k
  {
    var ms := reg[key].body.members;
    if k == |ms| then Ok(true)
    else if ms[k].lengthOf.Some? then AllDefaults(reg, key, k + 1, ext, rank)
    else
      var d := DefaultSwiftValue(reg, ms, k, ext, rank);
      if d.Err? then Err(d.fault)
      else if !Provided(d) then Ok(false)
      else AllDefaults(reg, key, k + 1, ext, rank)
  }

  /** Member `j` of structure `key` is one of its `swift_members`. */
  predicate IsSwiftMember(reg: map<string, Node>, key: string, j: int)
    requires key in reg && reg[key].body.StructBody?
  {
    0 <= j < |reg[key].body.members| && reg[key].body.members[j].lengthOf.None?
  }

  /** The scan from member `k` on succeeds iff every later swift member
      provides a default. */
  lemma {:induction false} AllDefaultsIffProvided(reg: map<string, Node>, key: string, k: nat, ext: External, rank: map<string, nat>)
    requires key in reg && reg[key].body.StructBody? && Ranked(reg, rank)
    requires k <= |reg[key].body.members|
    ensures AllDefaults(reg, key, k, ext, rank) == Ok(true) <==>
            forall j :: k <= j && IsSwiftMember(reg, key, j) ==>
              Provided(DefaultSwiftValue(reg, reg[key].body.members, j, ext, rank))
    decreases |reg[key].body.members| - k
  {
    var ms := reg[key].body.members;
    if k < |ms| {
      AllDefaultsIffProvided(reg, key, k + 1, ext, rank);
      if ms[k].lengthOf.None? {
        assert IsSwiftMember(reg, key, k);
      }
    }
  }

  /** The scan stops at the first swift member `j` without a default: it
      answers "no", or raises what computing that default raised, whatever the
      members after `j` hold. */
  lemma {:induction false} AllDefaultsStopsAtGap(reg: map<string, Node>, key: string, k: nat, j: nat, ext: External, rank: map<string, nat>)
    requires key in reg && reg[key].body.StructBody? && Ranked(reg, rank)
    requires k <= j && IsSwiftMember(reg, key, j)
    requires !Provided(DefaultSwiftValue(reg, reg[key].body.members, j, ext, rank))
    requires forall l :: k <= l < j && IsSwiftMember(reg, key, l) ==>
               Provided(DefaultSwiftValue(reg, reg[key].body.members, l, ext, rank))
    ensures var d := DefaultSwiftValue(reg, reg[key].body.members, j, ext, rank);
            AllDefaults(reg, key, k, ext, rank) == if d.Err? then Err(d.fault) else Ok(false)
    decreases j - k
  {
    var ms := reg[key].body.members;
    if k < j {
      AllDefaultsStopsAtGap(reg, key, k + 1, j, ext, rank);
      if ms[k].lengthOf.None? {
        assert IsSwiftMember(reg, key, k);
      }
    }
  }

  /** `has_default_swift_initializer` is true iff every swift member provides
      a default. */
  lemma HasDefaultInitIffAllProvided(reg: map<string, Node>, key: string, ext: External, rank: map<string, nat>)
    requires key in reg && reg[key].body.StructBody? && Ranked(reg, rank)
    ensures HasDefaultInit(reg, key, ext, rank) == Ok(true) <==>
            forall j :: IsSwiftMember(reg, key, j) ==> Provided(DefaultSwiftValue(reg, reg[key].body.members, j, ext, rank))
  {
    AllDefaultsIffProvided(reg, key, 0, ext, rank);
  }

  /** Making one swift member's default absent removes the initializer; when
      every earlier swift member provides one the answer is a plain "no"
      (errors in later members are never reached). */
  lemma AbsentDefaultBlocksInit(reg: map<string, Node>, key: string, j: nat, ext: External, rank: map<string, nat>)
    requires key in reg && reg[key].body.StructBody? && Ranked(reg, rank)
    requires IsSwiftMember(reg, key, j)
    requires DefaultSwiftValue(reg, reg[key].body.members, j, ext, rank) == Ok(None)
    ensures HasDefaultInit(reg, key, ext, rank) != Ok(true)
    ensures (forall l :: 0 <= l < j && IsSwiftMember(reg, key, l) ==>
               Provided(DefaultSwiftValue(reg, reg[key].body.members, l, ext, rank)))
            ==> HasDefaultInit(reg, key, ext, rank) == Ok(false)
  {
    HasDefaultInitIffAllProvided(reg, key, ext, rank);
    if forall l :: 0 <= l < j && IsSwiftMember(reg, key, l) ==>
         Provided(DefaultSwiftValue(reg, reg[key].body.members, l, ext, rank))
    {
      AllDefaultsStopsAtGap(reg, key, 0, j, ext, rank);
    }
  }

  /** A member with nothing else to go on (required, no zero-length pairing,
      no truthy literal) that embeds a structure by value defaults to that
      structure's `T()` exactly when every swift member of the structure
      provides a default, and has no default when the scan says "no". */
  lemma NestedStructDefault(reg: map<string, Node>, ms: seq<Member>, i: nat, ext: External, rank: map<string, nat>)
    requires i < |ms| && MembersLinked(reg.Keys, ms) && Ranked(reg, rank)
    requires EmbedsStruct(reg, ms[i]) && !ms[i].optional
    requires !(ms[i].lengthMember.Some? && ms[ms[i].lengthMember.value].defaultValue.Some?
               && IsZeroLiteral(ms[ms[i].lengthMember.value].defaultValue.value))
    requires ms[i].defaultValue.None? || !Truthy(ms[i].defaultValue.value)
    ensures var key := ms[i].ty.value;
            var t := reg[key];
            && (DefaultSwiftValue(reg, ms, i, ext, rank) == Ok(Some(SwiftName(t, ext) + "()")) <==>
                forall j :: IsSwiftMember(reg, key, j) ==> Provided(DefaultSwiftValue(reg, t.body.members, j, ext, rank)))
            && (DefaultSwiftValue(reg, ms, i, ext, rank) == Ok(None) <==> HasDefaultInit(reg, key, ext, rank) == Ok(false))
  {
    HasDefaultInitIffAllProvided(reg, ms[i].ty.value, ext, rank);
  }

  /** The rules of `default_swift_value` in priority order: an optional
      member is `nil` whatever else it carries; a required member whose
      length field defaults to zero is the empty array whatever its own
      literal; a truthy literal comes next, and fails exactly when the type
      cannot render it; a member no rule applies to has no default.  The
      fixed answers are never the empty string. */
  lemma DefaultRulesInOrder(reg: map<string, Node>, ms: seq<Member>, i: nat, ext: External, rank: map<string, nat>)
    requires i < |ms| && MembersLinked(reg.Keys, ms) && Ranked(reg, rank)
    ensures var d := DefaultSwiftValue(reg, ms, i, ext, rank);
            var m := ms[i];
            var zeroLength := m.lengthMember.Some? && ms[m.lengthMember.value].defaultValue.Some?
                              && IsZeroLiteral(ms[m.lengthMember.value].defaultValue.value);
            var truthy := m.defaultValue.Some? && Truthy(m.defaultValue.value);
            && (m.optional ==> d == Ok(Some("nil")))
            && (!m.optional && zeroLength ==> d == Ok(Some("[]")))
            && (!m.optional && !zeroLength && truthy ==>
                  d == match RenderLiteral(TypeOf(reg, m), m.defaultValue.value, ext)
                       case Ok(s) => Ok(Some(s))
                       case Err(f) => Err(f))
            && (!m.optional && !zeroLength && !truthy && !EmbedsStruct(reg, m) ==> d == Ok(None))
            && (d.Ok? && d.value.Some? && !truthy ==> d.value.value != "")
  {
  }

  /** Every truthy default literal of every structure renders. */
  predicate LiteralsRender(reg: map<string, Node>, ext: External)
  {
    forall key, k ::
      (&& key in reg && reg[key].body.StructBody? && 0 <= k < |reg[key].body.members|
       && reg[key].body.members[k].ty.Some? && reg[key].body.members[k].ty.value in reg
       && reg[key].body.members[k].defaultValue.Some? && Truthy(reg[key].body.members[k].defaultValue.value)) ==>
        RenderLiteral(reg[reg[key].body.members[k].ty.value], reg[key].body.members[k].defaultValue.value, ext).Ok?
  }

  /** Rendering a literal is the only way the defaults raise: when every
      literal renders, no member default and no initializer check fails. */
  lemma {:induction false} NoFaultWhenLiteralsRender(reg: map<string, Node>, key: string, k: nat, ext: External, rank: map<string, nat>)
    requires key in reg && reg[key].body.StructBody? && Ranked(reg, rank) && LiteralsRender(reg, ext)
    requires k <= |reg[key].body.members|
    ensures AllDefaults(reg, key, k, ext, rank).Ok?
    ensures forall j :: k <= j < |reg[key].body.members| ==> DefaultSwiftValue(reg, reg[key].body.members, j, ext, rank).Ok?
    decreases rank[key], |reg[key].body.members| - k
  {
    var ms := reg[key].body.members;
    if k < |ms| {
      NoFaultWhenLiteralsRender(reg, key, k + 1, ext, rank);
      var m := ms[k];
      if EmbedsStruct(reg, m) {
        NoFaultWhenLiteralsRender(reg, m.ty.value, 0, ext, rank);
      }
      assert DefaultSwiftValue(reg, ms, k, ext, rank).Ok?;
    }
  }
}
