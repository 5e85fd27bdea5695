/** The `link` methods: every type name a node mentions is looked up in the
    registry and replaced by a reference to the registry entry.  A name that
    is not registered raises a KeyError, which stops the build. */
module Linker {
  import opened Util
  import opened Schema
  import opened Nodes

  /** `Member.link`: `self.type = types[self.data['type']]`. */
  function LinkMember(keys: set<string>, m: Member): Result<Member> {
    if m.typeName in keys then Ok(m.(ty := Some(m.typeName))) else Err(MissingType(m.typeName))
  }

  /** Linking every member in order; the first failure stops the loop. */
  function LinkMembers(keys: set<string>, ms: seq<Member>): Result<seq<Member>>
    decreases |ms|
  {
    if ms == [] then Ok([])
    else
      var done := LinkMembers(keys, ms[..|ms| - 1]);
      if done.Err? then done
      else
        var m := LinkMember(keys, ms[|ms| - 1]);
        if m.Err? then Err(m.fault) else Ok(done.value + [m.value])
  }

  /** A `returns` entry that is linked: present, non-empty and not "void". */
  predicate LinksReturn(returnName: Option<string>) {
    returnName.Some? && returnName.value != "" && returnName.value != "void"
  }

  /** `FunctionPointerType.link`: the return type first, then the arguments.
      Without a linkable `returns`, `return_type` keeps its value. */
  function LinkSignature(keys: set<string>, sig: Signature): Result<Signature> {
    if LinksReturn(sig.returnName) && sig.returnName.value !in keys then Err(MissingType(sig.returnName.value))
    else
      var returnType := if LinksReturn(sig.returnName) then sig.returnName else sig.returnType;
      var args := LinkMembers(keys, sig.args);
      if args.Err? then Err(args.fault) else Ok(Signature(args.value, sig.returnName, returnType))
  }

  /** `ObjectType.link`: every method's signature, in order. */
  function LinkMethods(keys: set<string>, ms: seq<Method>): Result<seq<Method>>
    decreases |ms|
  {
    if ms == [] then Ok([])
    else
      var done := LinkMethods(keys, ms[..|ms| - 1]);
      if done.Err? then done
      else
        var last := ms[|ms| - 1];
        var sig := LinkSignature(keys, last.sig);
        if sig.Err? then Err(sig.fault) else Ok(done.value + [last.(sig := sig.value)])
  }

  /** `link` of one registry node. */
  function LinkNode(keys: set<string>, n: Node): Result<Node> {
    match n.body
    case StructBody(ms, extensible, chained) =>
      var linked := LinkMembers(keys, ms);
      if linked.Err? then Err(linked.fault) else Ok(n.(body := StructBody(linked.value, extensible, chained)))
    case FunctionBody(kind, sig) =>
      var linked := LinkSignature(keys, sig);
      if linked.Err? then Err(linked.fault) else Ok(n.(body := FunctionBody(kind, linked.value)))
    case ObjectBody(methods) =>
      var linked := LinkMethods(keys, methods);
      if linked.Err? then Err(linked.fault) else Ok(n.(body := ObjectBody(linked.value)))
    case TypedefBody(target, _) =>
      if target.None? then Err(MissingField(n.name, "type"))
      else if target.value !in keys then Err(MissingType(target.value))
      else Ok(n.(body := TypedefBody(target, target)))
    case _ => Ok(n)
  }

  // What linking needs and what it leaves behind.

  predicate MembersResolvable(keys: set<string>, ms: seq<Member>) {
    forall k :: 0 <= k < |ms| ==> ms[k].typeName in keys
  }

  predicate SignatureResolvable(keys: set<string>, sig: Signature) {
    (LinksReturn(sig.returnName) ==> sig.returnName.value in keys) && MembersResolvable(keys, sig.args)
  }

  /** Every name the node's `link` looks up is registered. */
  predicate Resolvable(keys: set<string>, n: Node) {
    match n.body
    case StructBody(ms, _, _) => MembersResolvable(keys, ms)
    case FunctionBody(_, sig) => SignatureResolvable(keys, sig)
    case ObjectBody(methods) => forall k :: 0 <= k < |methods| ==> SignatureResolvable(keys, methods[k].sig)
    case TypedefBody(target, _) => target.Some? && target.value in keys
    case _ => true
  }

  /** Each member refers to the registry entry its schema names. */
  predicate MembersResolved(keys: set<string>, ms: seq<Member>) {
    forall k :: 0 <= k < |ms| ==> ms[k].ty == Some(ms[k].typeName) && ms[k].typeName in keys
  }

  predicate SignatureResolved(keys: set<string>, sig: Signature) {
    && MembersResolved(keys, sig.args)
    && (LinksReturn(sig.returnName) ==> sig.returnType == sig.returnName)
    && (sig.returnType.Some? ==> sig.returnType.value in keys)
  }

  /** A linked node: every reference it holds is a registry key, and it is the
      one the schema names. */
  predicate Resolved(keys: set<string>, n: Node) {
    match n.body
    case StructBody(ms, _, _) => MembersResolved(keys, ms)
    case FunctionBody(_, sig) => SignatureResolved(keys, sig)
    case ObjectBody(methods) => forall k :: 0 <= k < |methods| ==> SignatureResolved(keys, methods[k].sig)
    case TypedefBody(target, resolved) => target.Some? && resolved == target && target.value in keys
    case _ => true
  }

  /** Linking a member list fails iff some member's type is not registered
      (the first such, in order); on success it fills in every member's
      reference and changes nothing else. */
  lemma {:induction false} LinkMembersSpec(keys: set<string>, ms: seq<Member>)
    ensures LinkMembers(keys, ms).Ok? <==> MembersResolvable(keys, ms)
    ensures LinkMembers(keys, ms).Ok? ==>
            var ls := LinkMembers(keys, ms).value;
            && |ls| == |ms| && MembersResolved(keys, ls)
            && forall k :: 0 <= k < |ms| ==> ls[k] == ms[k].(ty := Some(ms[k].typeName))
    ensures LinkMembers(keys, ms).Err? ==>
            exists k :: 0 <= k < |ms| && ms[k].typeName !in keys && LinkMembers(keys, ms).fault == MissingType(ms[k].typeName)
                        && forall l :: 0 <= l < k ==> ms[l].typeName in keys
    decreases |ms|
  {
    if ms != [] {
      var init := ms[..|ms| - 1];
      LinkMembersSpec(keys, init);
      assert forall k :: 0 <= k < |init| ==> init[k] == ms[k];
    }
  }

  lemma LinkSignatureSpec(keys: set<string>, sig: Signature)
    requires sig.returnType.Some? ==> sig.returnType.value in keys
    ensures LinkSignature(keys, sig).Ok? <==> SignatureResolvable(keys, sig)
    ensures LinkSignature(keys, sig).Ok? ==>
            var s := LinkSignature(keys, sig).value;
            && SignatureResolved(keys, s) && s.returnName == sig.returnName && |s.args| == |sig.args|
            && (forall k :: 0 <= k < |sig.args| ==> s.args[k] == sig.args[k].(ty := Some(sig.args[k].typeName)))
            && (!LinksReturn(sig.returnName) ==> s.returnType == sig.returnType)
  {
    LinkMembersSpec(keys, sig.args);
  }

  predicate ReturnsRegistered(keys: set<string>, ms: seq<Method>) {
    forall k :: 0 <= k < |ms| ==> ms[k].sig.returnType.Some? ==> ms[k].sig.returnType.value in keys
  }

  lemma {:induction false} LinkMethodsSpec(keys: set<string>, ms: seq<Method>)
    requires ReturnsRegistered(keys, ms)
    ensures LinkMethods(keys, ms).Ok? <==> forall k :: 0 <= k < |ms| ==> SignatureResolvable(keys, ms[k].sig)
    ensures LinkMethods(keys, ms).Ok? ==>
            var ls := LinkMethods(keys, ms).value;
            && |ls| == |ms|
            && forall k :: 0 <= k < |ms| ==>
                 && SignatureResolved(keys, ls[k].sig)
                 && LinkSignature(keys, ms[k].sig) == Ok(ls[k].sig) && ls[k] == ms[k].(sig := ls[k].sig)
    decreases |ms|
  {
    if ms != [] {
      var init := ms[..|ms| - 1];
      LinkMethodsSpec(keys, init);
      assert forall k :: 0 <= k < |init| ==> init[k] == ms[k];
      LinkSignatureSpec(keys, ms[|ms| - 1].sig);
      forall k | 0 <= k < |ms| && LinkMethods(keys, ms).Ok? ensures SignatureResolvable(keys, ms[k].sig) {
        if k < |init| { LinkSignatureSpec(keys, init[k].sig); }
      }
      if forall k :: 0 <= k < |ms| ==> SignatureResolvable(keys, ms[k].sig) {
        forall k | 0 <= k < |init| ensures SignatureResolvable(keys, init[k].sig) {
          assert init[k] == ms[k];
        }
      }
    }
  }

  /** No reference before linking, or one that is already registered. */
  predicate Linkable(keys: set<string>, n: Node) {
    match n.body
    case FunctionBody(_, sig) => sig.returnType.Some? ==> sig.returnType.value in keys
    case ObjectBody(methods) => ReturnsRegistered(keys, methods)
    case _ => true
  }

  /** `link` succeeds exactly when every name it looks up is registered, and
      then leaves the node resolved, keeping its name, tags and category. */
  lemma LinkNodeSpec(keys: set<string>, n: Node)
    requires Linkable(keys, n)
    ensures LinkNode(keys, n).Ok? <==> Resolvable(keys, n)
    ensures LinkNode(keys, n).Ok? ==>
            var l := LinkNode(keys, n).value;
            && Resolved(keys, l) && l.name == n.name && l.tags == n.tags && CategoryOf(l) == CategoryOf(n)
  {
    match n.body
    case StructBody(ms, _, _) => LinkMembersSpec(keys, ms);
    case FunctionBody(_, sig) => LinkSignatureSpec(keys, sig);
    case ObjectBody(methods) => LinkMethodsSpec(keys, methods);
    case _ =>
  }

  /** Linking twice is linking once: a linked node links to itself. */
  lemma LinkNodeIdempotent(keys: set<string>, n: Node)
    requires Linkable(keys, n) && LinkNode(keys, n).Ok?
    ensures LinkNode(keys, LinkNode(keys, n).value) == LinkNode(keys, n)
  {
    var l := LinkNode(keys, n).value;
    match n.body
    case StructBody(ms, _, _) =>
      LinkMembersSpec(keys, ms);
      LinkMembersSpec(keys, l.body.members);
      assert LinkMembers(keys, l.body.members).value == l.body.members;
    case FunctionBody(_, sig) =>
      LinkSignatureIdempotent(keys, sig);
    case ObjectBody(methods) =>
      LinkMethodsSpec(keys, methods);
      forall k | 0 <= k < |methods|
        ensures LinkSignature(keys, l.body.methods[k].sig) == Ok(l.body.methods[k].sig)
      {
        LinkSignatureIdempotent(keys, methods[k].sig);
      }
      LinkMethodsSpec(keys, l.body.methods);
      assert LinkMethods(keys, l.body.methods).value == l.body.methods;
    case _ =>
  }

  lemma LinkSignatureIdempotent(keys: set<string>, sig: Signature)
    requires (sig.returnType.Some? ==> sig.returnType.value in keys) && LinkSignature(keys, sig).Ok?
    ensures LinkSignature(keys, LinkSignature(keys, sig).value) == LinkSignature(keys, sig)
  {
    var s := LinkSignature(keys, sig).value;
    LinkSignatureSpec(keys, sig);
    LinkSignatureSpec(keys, s);
    LinkMembersSpec(keys, s.args);
    assert LinkMembers(keys, s.args).value == s.args;
  }

  /** The loop of `StructureType.link` / `FunctionPointerType.link` over the
      members. */
  method LinkMembersLoop(keys: set<string>, ms: seq<Member>) returns (r: Result<seq<Member>>)
    ensures r == LinkMembers(keys, ms)
  {
    var done: seq<Member> := [];
    var i := 0;
    while i < |ms|
      invariant 0 <= i <= |ms|
      invariant LinkMembers(keys, ms[..i]) == Ok(done)
    {
      assert ms[..i + 1][..i] == ms[..i];
      if ms[i].typeName !in keys {
        LinkMembersFailureSticks(keys, ms, i + 1);
        return Err(MissingType(ms[i].typeName));
      }
      done := done + [ms[i].(ty := Some(ms[i].typeName))];
      i := i + 1;
    }
    assert ms[..i] == ms;
    r := Ok(done);
  }

  /** Once a prefix fails, the whole list fails with the same fault. */
  lemma {:induction false} LinkMembersFailureSticks(keys: set<string>, ms: seq<Member>, i: nat)
    requires i <= |ms| && LinkMembers(keys, ms[..i]).Err?
    ensures LinkMembers(keys, ms) == LinkMembers(keys, ms[..i])
    decreases |ms| - i
  {
    if i < |ms| {
      assert ms[..i + 1][..i] == ms[..i];
      LinkMembersFailureSticks(keys, ms, i + 1);
    } else {
      assert ms[..i] == ms;
    }
  }

  method LinkSignatureLoop(keys: set<string>, sig: Signature) returns (r: Result<Signature>)
    ensures r == LinkSignature(keys, sig)
  {
    var returnType := sig.returnType;
    if LinksReturn(sig.returnName) {
      if sig.returnName.value !in keys {
        return Err(MissingType(sig.returnName.value));
      }
      returnType := sig.returnName;
    }
    var args := LinkMembersLoop(keys, sig.args);
    if args.Err? {
      return Err(args.fault);
    }
    r := Ok(Signature(args.value, sig.returnName, returnType));
  }

  lemma {:induction false} LinkMethodsFailureSticks(keys: set<string>, ms: seq<Method>, i: nat)
    requires i <= |ms| && LinkMethods(keys, ms[..i]).Err?
    ensures LinkMethods(keys, ms) == LinkMethods(keys, ms[..i])
    decreases |ms| - i
  {
    if i < |ms| {
      assert ms[..i + 1][..i] == ms[..i];
      LinkMethodsFailureSticks(keys, ms, i + 1);
    } else {
      assert ms[..i] == ms;
    }
  }

  /** `ObjectType.link`: `for method in self.methods: method.link(types)`. */
  method LinkMethodsLoop(keys: set<string>, ms: seq<Method>) returns (r: Result<seq<Method>>)
    ensures r == LinkMethods(keys, ms)
  {
    var done: seq<Method> := [];
    var i := 0;
    while i < |ms|
      invariant 0 <= i <= |ms|
      invariant LinkMethods(keys, ms[..i]) == Ok(done)
    {
      assert ms[..i + 1][..i] == ms[..i];
      var sig := LinkSignatureLoop(keys, ms[i].sig);
      if sig.Err? {
        LinkMethodsFailureSticks(keys, ms, i + 1);
        return Err(sig.fault);
      }
      done := done + [ms[i].(sig := sig.value)];
      i := i + 1;
    }
    assert ms[..i] == ms;
    r := Ok(done);
  }

  /** `type_.link(types)` for one node. */
  method LinkNodeLoop(keys: set<string>, n: Node) returns (r: Result<Node>)
    ensures r == LinkNode(keys, n)
  {
    match n.body {
      case StructBody(ms, extensible, chained) =>
        var linked := LinkMembersLoop(keys, ms);
        r := if linked.Err? then Err(linked.fault) else Ok(n.(body := StructBody(linked.value, extensible, chained)));
      case FunctionBody(kind, sig) =>
        var linked := LinkSignatureLoop(keys, sig);
        r := if linked.Err? then Err(linked.fault) else Ok(n.(body := FunctionBody(kind, linked.value)));
      case ObjectBody(methods) =>
        var linked := LinkMethodsLoop(keys, methods);
        r := if linked.Err? then Err(linked.fault) else Ok(n.(body := ObjectBody(linked.value)));
      case TypedefBody(target, _) =>
        if target.None? {
          r := Err(MissingField(n.name, "type"));
        } else if target.value !in keys {
          r := Err(MissingType(target.value));
        } else {
          r := Ok(n.(body := TypedefBody(target, target)));
        }
      case _ =>
        r := Ok(n);
    }
  }
}
