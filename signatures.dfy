/** `Member.c_type` and `Member.swift_type`: the native-ABI signature of a
    member as Swift sees it, and the idiomatic Swift signature that replaces it
    for strings, sized arrays, values and struct pointers. */
module Signatures {
  import opened Util
  import opened Nodes
  import opened FunctionTypes
  import opened Conversions

  /** A linked member whose type's names can be computed. */
  predicate Typed(reg: map<string, Node>, m: Member) {
    Linked(reg.Keys, m) && HasNames(TypeOf(reg, m))
  }

  /** `Member.c_type` */
  function CType(reg: map<string, Node>, m: Member, ext: External): string
    requires Typed(reg, m)
  {
    var t := TypeOf(reg, m);
    if m.annotation == "const*" then
      if t.name == "void" then "UnsafeRawPointer!"
      else if CategoryOf(t) == Object then "UnsafePointer<" + CName(t, ext) + "?>!"
      else "UnsafePointer<" + CName(t, ext) + ">!"
    else if m.annotation == "*" then
      if t.name == "void" then "UnsafeMutableRawPointer!"
      else "UnsafeMutablePointer<" + CName(t, ext) + ">!"
    else if CategoryOf(t) == Object then CName(t, ext) + "!"
    else CName(t, ext)
  }

  /** The idiomatic part of `swift_type`, before the escaping and optional
      markers; `None` where `swift_type` falls back to `c_type`. */
  function IdiomaticType(reg: map<string, Node>, m: Member, ext: External): Option<string>
    requires Typed(reg, m)
  {
    var t := TypeOf(reg, m);
    if t.name == "char" && m.annotation == "const*" then Some("String")
    else if m.annotation == "const*" && HasLength(m) then
      if t.name == "void" then Some("UnsafeRawBufferPointer") else Some("[" + SwiftName(t, ext) + "]")
    else if m.annotation == "" || (m.annotation == "const*" && CategoryOf(t) == Structure) then
      Some(SwiftName(t, ext))
    else None
  }

  /** `Member.swift_type` */
  function SwiftType(reg: map<string, Node>, m: Member, ext: External): string
    requires Typed(reg, m)
  {
    match IdiomaticType(reg, m, ext)
    case None => CType(reg, m, ext)
    case Some(base) =>
      var escaped := if CategoryOf(TypeOf(reg, m)) == FunctionPointer then "@escaping " + base else base;
      if m.optional then escaped + "?" else escaped
  }

  /** Where `swift_type` falls back it returns `c_type` verbatim, and a
      pointer signature is implicitly unwrapped ("!"): the optional marker is
      dropped even for an optional member. */
  lemma FallbackDropsOptionalMarker(reg: map<string, Node>, m: Member, ext: External)
    requires Typed(reg, m) && IdiomaticType(reg, m, ext).None?
    ensures SwiftType(reg, m, ext) == CType(reg, m, ext)
    ensures m.annotation in {"const*", "*"} ==>
            EndsWith(SwiftType(reg, m, ext), "!") && !EndsWith(SwiftType(reg, m, ext), "?")
  {
  }

  /** A mutable pointer always falls back, whatever its element and
      optionality. */
  lemma MutablePointerFallsBack(reg: map<string, Node>, m: Member, ext: External)
    requires Typed(reg, m) && m.annotation == "*"
    ensures IdiomaticType(reg, m, ext).None?
    ensures EndsWith(SwiftType(reg, m, ext), "!")
  {
  }

  /** Where the idiomatic signature applies, optionality is exactly a trailing
      "?" and the escaping marker is exactly for function-pointer types. */
  lemma IdiomaticMarkers(reg: map<string, Node>, m: Member, ext: External)
    requires Typed(reg, m) && IdiomaticType(reg, m, ext).Some?
    ensures EndsWith(SwiftType(reg, m, ext), "?") <==> m.optional || EndsWith(IdiomaticType(reg, m, ext).value, "?")
    ensures CategoryOf(TypeOf(reg, m)) == FunctionPointer ==> StartsWith(SwiftType(reg, m, ext), "@escaping ")
  {
    var base := IdiomaticType(reg, m, ext).value;
    var t := TypeOf(reg, m);
    var escaped := if CategoryOf(t) == FunctionPointer then "@escaping " + base else base;
    assert EndsWith(escaped, "?") <==> EndsWith(base, "?") by {
      if CategoryOf(t) == FunctionPointer {
        if |base| >= 1 {
          assert escaped[|escaped| - 1..] == base[|base| - 1..];
        } else {
          assert escaped[|escaped| - 1..] == " ";
        }
      }
    }
    if m.optional {
      assert (escaped + "?")[|escaped + "?"| - 1..] == "?";
    }
    if CategoryOf(t) == FunctionPointer {
      assert SwiftType(reg, m, ext)[..|"@escaping "|] == "@escaping ";
    }
  }

  /** The signature agrees with the strategy chosen for the same member:
      strings are `String`, buffers a raw buffer view, typed arrays a Swift
      array of the element's Swift type, struct pointers the struct by value,
      and a pass-through pointer the native signature unchanged.  The
      name-based rules look only at the type's name, so a function-pointer type
      named "char" or "void" would also get the escaping marker. */
  lemma SignatureAgreesWithConversion(reg: map<string, Node>, ms: seq<Member>, i: nat, ext: External)
    requires i < |ms| && MembersLinked(reg.Keys, ms) && HasNames(TypeOf(reg, ms[i]))
    ensures var m := ms[i];
            var t := TypeOf(reg, m);
            var s := MemberConversion(reg, ms, i, ext);
            var opt := if m.optional then "?" else "";
            var esc := if CategoryOf(t) == FunctionPointer then "@escaping " else "";
            && (s == StringConversion ==> SwiftType(reg, m, ext) == esc + "String")
            && (s == OptionalStringConversion ==> SwiftType(reg, m, ext) == esc + "String?")
            && (s == BufferConversion ==> SwiftType(reg, m, ext) == esc + "UnsafeRawBufferPointer" + opt)
            && (s in {EnumArrayConversion, StructArrayConversion, ObjectArrayConversion} ==>
                  SwiftType(reg, m, ext) == "[" + SwiftName(t, ext) + "]" + opt)
            && (s == StructPointerConversion ==> SwiftType(reg, m, ext) == SwiftName(t, ext))
            && (s == OptionalStructConversion ==> SwiftType(reg, m, ext) == SwiftName(t, ext) + "?")
            && (s == ImplicitArrayConversion ==> SwiftType(reg, m, ext) == esc + "[" + SwiftName(t, ext) + "]" + opt)
            && ((s in {EnumConversion, BitmaskConversion, StructConversion, OptionalObjectConversion, ObjectConversion}
                 && m.annotation == "") ==> SwiftType(reg, m, ext) == SwiftName(t, ext) + opt)
            && (m.annotation == "" ==> SwiftType(reg, m, ext) == esc + SwiftName(t, ext) + opt)
            && (s == ImplicitConversion && m.annotation == "*" ==> SwiftType(reg, m, ext) == CType(reg, m, ext))
  {
    TextSignatures(reg, ms, i, ext);
    ScalarArraySignature(reg, ms, i, ext);
    ContainerSignatures(reg, ms, i, ext);
    ValueSignatures(reg, ms, i, ext);
  }

  /** Strings and buffers. */
  lemma TextSignatures(reg: map<string, Node>, ms: seq<Member>, i: nat, ext: External)
    requires i < |ms| && MembersLinked(reg.Keys, ms) && HasNames(TypeOf(reg, ms[i]))
    ensures var m := ms[i];
            var t := TypeOf(reg, m);
            var s := MemberConversion(reg, ms, i, ext);
            var opt := if m.optional then "?" else "";
            var esc := if CategoryOf(t) == FunctionPointer then "@escaping " else "";
            && (s == StringConversion ==> SwiftType(reg, m, ext) == esc + "String")
            && (s == OptionalStringConversion ==> SwiftType(reg, m, ext) == esc + "String?")
            && (s == BufferConversion ==> SwiftType(reg, m, ext) == esc + "UnsafeRawBufferPointer" + opt)
  {
  }

  /** Typed arrays and struct pointers. */
  lemma ContainerSignatures(reg: map<string, Node>, ms: seq<Member>, i: nat, ext: External)
    requires i < |ms| && MembersLinked(reg.Keys, ms) && HasNames(TypeOf(reg, ms[i]))
    ensures var m := ms[i];
            var t := TypeOf(reg, m);
            var s := MemberConversion(reg, ms, i, ext);
            var opt := if m.optional then "?" else "";
            && (s in {EnumArrayConversion, StructArrayConversion, ObjectArrayConversion} ==>
                  SwiftType(reg, m, ext) == "[" + SwiftName(t, ext) + "]" + opt)
            && (s == StructPointerConversion ==> SwiftType(reg, m, ext) == SwiftName(t, ext))
            && (s == OptionalStructConversion ==> SwiftType(reg, m, ext) == SwiftName(t, ext) + "?")
  {
  }
  lemma ScalarArraySignature(reg: map<string, Node>, ms: seq<Member>, i: nat, ext: External)
    requires i < |ms| && MembersLinked(reg.Keys, ms) && HasNames(TypeOf(reg, ms[i]))
    ensures var m := ms[i];
            var t := TypeOf(reg, m);
            var opt := if m.optional then "?" else "";
            var esc := if CategoryOf(t) == FunctionPointer then "@escaping " else "";
            MemberConversion(reg, ms, i, ext) == ImplicitArrayConversion ==>
              SwiftType(reg, m, ext) == esc + "[" + SwiftName(t, ext) + "]" + opt
  {
  }

  /** Values passed directly, and the pass-through pointer. */
  lemma ValueSignatures(reg: map<string, Node>, ms: seq<Member>, i: nat, ext: External)
    requires i < |ms| && MembersLinked(reg.Keys, ms) && HasNames(TypeOf(reg, ms[i]))
    ensures var m := ms[i];
            var t := TypeOf(reg, m);
            var s := MemberConversion(reg, ms, i, ext);
            var opt := if m.optional then "?" else "";
            var esc := if CategoryOf(t) == FunctionPointer then "@escaping " else "";
            && ((s in {EnumConversion, BitmaskConversion, StructConversion, OptionalObjectConversion, ObjectConversion}
                 && m.annotation == "") ==> SwiftType(reg, m, ext) == SwiftName(t, ext) + opt)
            && (m.annotation == "" ==> SwiftType(reg, m, ext) == esc + SwiftName(t, ext) + opt)
            && (s == ImplicitConversion && m.annotation == "*" ==> SwiftType(reg, m, ext) == CType(reg, m, ext))
  {
  }
}
