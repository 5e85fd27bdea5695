/** The derived views of `StructureType`, `FunctionPointerType` and
    `MethodType`: which members reach the Swift signature, whether a function
    type is a callback, and the shapes of getter and callback-setter methods. */
module FunctionTypes {
  import opened Util
  import opened Nodes

  /** `FunctionPointerType.is_callback`: some argument is named userdata. */
  predicate IsCallback(args: seq<Member>) {
    exists k :: 0 <= k < |args| && args[k].name == "userdata"
  }

  /** A linked member type that is a function pointer or function (both are
      `FunctionPointerType` instances) with callback shape. */
  predicate IsCallbackType(t: Node) {
    t.body.FunctionBody? && IsCallback(t.body.sig.args)
  }

  /** `callback_function_name` */
  function CallbackFunctionName(t: Node, ext: External): string {
    ext.camelCase(Lower(t.name))
  }

  /** `StructureType.swift_members`: the members that are not the length
      field of another member, in order. */
  function SwiftMembers(ms: seq<Member>): (r: seq<Member>)
    ensures |r| <= |ms|
    ensures forall m :: m in r <==> m in ms && m.lengthOf.None?
  {
    Filter(ms, (m: Member) => m.lengthOf.None?)
  }

  /** `FunctionPointerType.swift_args`: length fields and the userdata
      context never appear in the Swift signature. */
  function SwiftArgs(args: seq<Member>): (r: seq<Member>)
    ensures |r| <= |args|
    ensures forall a :: a in r <==> a in args && a.lengthOf.None? && a.name != "userdata"
  {
    Filter(args, (a: Member) => a.lengthOf.None? && a.name != "userdata")
  }

  /** A callback type's userdata argument is never part of its Swift
      arguments, so a callback never shows all its arguments to Swift. */
  lemma CallbackHidesAnArgument(args: seq<Member>)
    requires IsCallback(args)
    ensures |SwiftArgs(args)| < |args|
  {
    var k :| 0 <= k < |args| && args[k].name == "userdata";
    FilterDropsRejected(args, (a: Member) => a.lengthOf.None? && a.name != "userdata", k);
  }

  lemma {:induction false} FilterDropsRejected<T(!new)>(s: seq<T>, keep: T -> bool, k: nat)
    requires k < |s| && !keep(s[k])
    ensures |Filter(s, keep)| < |s|
  {
    if k > 0 {
      FilterDropsRejected(s[1..], keep, k - 1);
    } else {
      assert |Filter(s[1..], keep)| <= |s[1..]|;
    }
  }

  /** `MethodType.is_getter`: a method with a return type, no arguments and a
      name starting with "get ". */
  predicate IsGetter(m: Method) {
    m.sig.returnType.Some? && m.sig.args == [] && StartsWith(m.name, "get ")
  }

  /** `MethodType.is_callback_setter` */
  predicate IsCallbackSetter(m: Method) {
    StartsWith(m.name, "set ") && EndsWith(m.name, " callback")
  }

  /** `MethodType.swift_function_name`: a getter drops its "get " prefix. */
  function MethodSwiftFunctionName(m: Method, ext: External): string {
    ext.camelCase(Lower(if IsGetter(m) then m.name[4..] else m.name))
  }

  /** No method is both a property getter and a callback setter, and a
      getter's Swift name is cased from the name without its "get " prefix. */
  lemma GetterShapes(m: Method, ext: External)
    ensures !(IsGetter(m) && IsCallbackSetter(m))
    ensures IsGetter(m) ==> m.name == "get " + m.name[4..] &&
                            MethodSwiftFunctionName(m, ext) == ext.camelCase(Lower(m.name[4..]))
  {
    if StartsWith(m.name, "get ") {
      assert m.name[0] == m.name[..4][0] == 'g';
    }
  }

  /** `swift_return_type`: a function-pointer return type is made optional. */
  function SwiftReturnType(reg: map<string, Node>, sig: Signature, ext: External): (r: Option<string>)
    requires sig.returnType.Some? ==> sig.returnType.value in reg && HasNames(reg[sig.returnType.value])
    ensures r.Some? <==> sig.returnType.Some?
    ensures r.Some? ==> (EndsWith(r.value, "?") <== CategoryOf(reg[sig.returnType.value]) in {FunctionPointer, Function})
    ensures r.Some? ==>
            var t := reg[sig.returnType.value];
            r.value == SwiftName(t, ext) + (if CategoryOf(t) in {FunctionPointer, Function} then "?" else "")
  {
    if sig.returnType.None? then None
    else
      var t := reg[sig.returnType.value];
      if t.body.FunctionBody? then Some(SwiftName(t, ext) + "?") else Some(SwiftName(t, ext))
  }
}
