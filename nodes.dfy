/** The type-variant hierarchy of model.py as one tagged variant per category.
    Nodes live in a registry `map<string, Node>` keyed by schema name; every
    reference from one node to another is a registry key, and linking is what
    turns a member's unresolved `type` into such a key. */
module Nodes {
  import opened Util
  import opened Schema

  /** The eight categories the model builder recognises. */
  datatype Category =
    | Native | Enum | Bitmask | Structure | FunctionPointer | Function | Object | Typedef

  /** The keys of `category_types` in `Model.__init__`. */
  function CategoryOfKey(key: string): (r: Option<Category>)
    ensures r.Some? <==> key in {"native", "enum", "bitmask", "structure",
                                 "function pointer", "function", "object", "typedef"}
  {
    match key
    case "native" => Some(Native)
    case "enum" => Some(Enum)
    case "bitmask" => Some(Bitmask)
    case "structure" => Some(Structure)
    case "function pointer" => Some(FunctionPointer)
    case "function" => Some(Function)
    case "object" => Some(Object)
    case "typedef" => Some(Typedef)
    case _ => None
  }

  /** The schema string of each category, which `self.category` returns. */
  function CategoryName(c: Category): string {
    match c
    case Native => "native"
    case Enum => "enum"
    case Bitmask => "bitmask"
    case Structure => "structure"
    case FunctionPointer => "function pointer"
    case Function => "function"
    case Object => "object"
    case Typedef => "typedef"
  }

  /** The dispatch table and the category names are inverse to each other. */
  lemma CategoryNameRoundTrip(c: Category, key: string)
    ensures CategoryOfKey(CategoryName(c)) == Some(c)
    ensures CategoryOfKey(key) == Some(c) ==> key == CategoryName(c)
  {
  }

  datatype EnumValue = EnumValue(name: string, value: int, tags: seq<string>, requiresPrefix: bool)

  /** A structure member or function argument.  The first seven fields are the
      schema's; `ty` is `self.type` (the registry key once linked), and
      `lengthMember` / `lengthOf` are `self.length_member` / `self.length_of`
      as positions in the enclosing member list. */
  datatype Member = Member(
    name: string,
    typeName: string,
    annotation: string,
    length: Option<string>,
    defaultValue: Option<Literal>,
    optional: bool,
    tags: seq<string>,
    ty: Option<string>,
    lengthMember: Option<nat>,
    lengthOf: Option<nat>)

  /** The arguments and return type of a function pointer, function or method.
      `returnName` is the schema's `returns`; `returnType` is `self.return_type`. */
  datatype Signature = Signature(args: seq<Member>, returnName: Option<string>, returnType: Option<string>)

  datatype Method = Method(objectName: string, name: string, tags: seq<string>, sig: Signature)

  /** `FunctionPointerType` versus its subclass `FunctionType`. */
  datatype FnKind = PointerKind | FunctionKind

  datatype Body =
    | NativeBody
    | EnumBody(bitmask: bool, values: seq<EnumValue>, requiresPrefix: bool)
    | StructBody(members: seq<Member>, extensible: bool, chained: bool)
    | FunctionBody(kind: FnKind, sig: Signature)
    | ObjectBody(methods: seq<Method>)
    | TypedefBody(target: Option<string>, resolved: Option<string>)

  datatype Node = Node(name: string, tags: seq<string>, body: Body)

  /** `self.category`: the schema's category string, fixed by the constructor
      the builder dispatched to. */
  function CategoryOf(n: Node): Category {
    match n.body
    case NativeBody => Native
    case EnumBody(bitmask, _, _) => if bitmask then Bitmask else Enum
    case StructBody(_, _, _) => Structure
    case FunctionBody(kind, _) => if kind == PointerKind then FunctionPointer else Function
    case ObjectBody(_) => Object
    case TypedefBody(_, _) => Typedef
  }

  /** The collaborators this core calls but does not define: the casing helpers
      of the `nameutils` module, and `StructureType.get_swift_value`, which
      renders a brace-enclosed struct literal (given the struct's name and the
      literal text). */
  datatype External = External(
    camelCase: string -> string,
    pascalCase: string -> string,
    swiftSafe: string -> string,
    structLiteral: (string, string) -> string)

  /** The fixed table of `NativeType.c_name`. */
  function PrimitiveName(name: string): Option<string> {
    match name
    case "void" => Some("Void")
    case "void *" => Some("UnsafeMutableRawPointer!")
    case "void const *" => Some("UnsafeRawPointer!")
    case "char" => Some("CChar")
    case "float" => Some("Float")
    case "double" => Some("Double")
    case "uint8_t" => Some("UInt8")
    case "uint16_t" => Some("UInt16")
    case "uint32_t" => Some("UInt32")
    case "uint64_t" => Some("UInt64")
    case "int32_t" => Some("Int32")
    case "int64_t" => Some("Int64")
    case "size_t" => Some("Int")
    case "int" => Some("Int32")
    case "bool" => Some("Bool")
    case _ => None
  }

  /** A node whose names can be computed: a native type must be in the table,
      or its `c_name` raises a KeyError. */
  predicate HasNames(t: Node) {
    t.body.NativeBody? ==> PrimitiveName(t.name).Some?
  }

  /** `c_name` of every registry node (methods are not registry nodes). */
  function CName(t: Node, ext: External): string
    requires HasNames(t)
  {
    match t.body
    case NativeBody => PrimitiveName(t.name).value
    case EnumBody(bitmask, _, _) =>
      if bitmask then "WGPU" + ext.pascalCase(t.name) + "Flags" else "WGPU" + ext.pascalCase(t.name)
    case FunctionBody(kind, _) =>
      if kind == FunctionKind then "WGPUProc" + ext.pascalCase(t.name) else "WGPU" + ext.pascalCase(t.name)
    case _ => "WGPU" + ext.pascalCase(t.name)
  }

  /** `swift_name`: natives reuse their `c_name`, every other node pascal-cases
      its lower-cased name. */
  function SwiftName(t: Node, ext: External): string
    requires HasNames(t)
  {
    if t.body.NativeBody? then PrimitiveName(t.name).value else ext.pascalCase(Lower(t.name))
  }

  /** A member whose `type` has been linked to a registry node. */
  predicate Linked(keys: set<string>, m: Member) {
    m.ty.Some? && m.ty.value in keys
  }

  /** A member list ready for classification: every member linked, and the
      pairing positions inside the list. */
  predicate MembersLinked(keys: set<string>, ms: seq<Member>) {
    forall k :: 0 <= k < |ms| ==>
      && Linked(keys, ms[k])
      && (ms[k].lengthMember.Some? ==> ms[k].lengthMember.value < |ms|)
      && (ms[k].lengthOf.Some? ==> ms[k].lengthOf.value < |ms|)
  }

  /** `self.type` of a linked member. */
  function TypeOf(reg: map<string, Node>, m: Member): Node
    requires Linked(reg.Keys, m)
  {
    reg[m.ty.value]
  }

  /** `length` is set and non-empty (`if self.length:`). */
  predicate HasLength(m: Member) {
    m.length.Some? && m.length.value != ""
  }
}
