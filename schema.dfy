/** The raw schema the generator reads: one attribute record per type name.
    A Python `dict` entry read with `data[key]` is a plain field here when the
    schema format always carries it, and an `Option` when the code may find it
    missing; an entry read with `data.get(key, fallback)` carries its fallback. */
module Schema {
  import opened Util

  /** A JSON literal given as a member's `default`. */
  datatype Literal = IntLit(i: int) | StrLit(s: string) | BoolLit(b: bool)

  /** Python truthiness of a literal (`if self.default:`). */
  predicate Truthy(l: Literal) {
    match l
    case IntLit(i) => i != 0
    case StrLit(s) => s != ""
    case BoolLit(b) => b
  }

  /** `l == 0 or l == '0'`; Python's `False == 0` holds, so `false` counts too. */
  predicate IsZeroLiteral(l: Literal) {
    l == IntLit(0) || l == StrLit("0") || l == BoolLit(false)
  }

  /** `str(l)` */
  function PyStr(l: Literal): string {
    match l
    case IntLit(i) => IntToString(i)
    case StrLit(s) => s
    case BoolLit(b) => if b then "True" else "False"
  }

  /** One entry of an enum's `values` list. */
  datatype RawValue = RawValue(name: string, value: int, tags: seq<string>)

  /** One entry of a structure's `members` or a function's `args` list.
      `annotation` is "" when absent; `length` is `None` when absent. */
  datatype RawMember = RawMember(
    name: string,
    typeName: string,
    annotation: string,
    length: Option<string>,
    defaultValue: Option<Literal>,
    optional: bool,
    tags: seq<string>)

  /** One entry of an object's `methods` list. */
  datatype RawMethod = RawMethod(
    name: string,
    args: seq<RawMember>,
    returnName: Option<string>,
    tags: seq<string>)

  /** The attribute record of one schema entry.  Which fields matter depends on
      `category`: `values` for enums and bitmasks, `members`, `extensible` and
      `chained` for structures, `args` and `returnName` (the schema's `returns`
      key) for function-like types, `methods` for objects, `target` (the schema's `type` key) for typedefs. */
  datatype RawType = RawType(
    category: string,
    tags: seq<string>,
    values: Option<seq<RawValue>>,
    members: Option<seq<RawMember>>,
    args: seq<RawMember>,
    returnName: Option<string>,
    methods: seq<RawMethod>,
    target: Option<string>,
    extensible: bool,
    chained: bool)

  /** The exceptions the Python code raises on a malformed schema. */
  datatype Fault =
    | MissingField(entry: string, field: string)   // KeyError on `data['values']`, `data['members']`, `data['type']`
    | EmptyValueName(entry: string)                // IndexError on `value['name'][0]`
    | MissingType(reference: string)               // KeyError on `types[...]` while linking
    | TypeMismatch(typeName: string)               // a non-string default where a string method is called
    | UnknownNative(typeName: string)              // KeyError in the native `c_name` table

  datatype Result<+T> = Ok(value: T) | Err(fault: Fault)
}

/** The two inclusion predicates of model.py. */
module TagFilter {
  import opened Util

  /** `all(tag in enabled for tag in tags)`, scanning left to right. */
  function AllIn(tags: seq<string>, enabled: set<string>): bool {
    if tags == [] then true else tags[0] in enabled && AllIn(tags[1..], enabled)
  }

  /** `_is_enabled(data, enabled_tags)`: an item without tags, or a run without a
      tag set, is always included; otherwise every tag of the item is needed. */
  function IsEnabled(tags: seq<string>, enabled: Option<set<string>>): bool {
    if tags == [] || enabled.None? then true else AllIn(tags, enabled.value)
  }

  /** `_is_member_enabled(data)`: members and arguments tagged upstream are
      dropped whatever the tag set. */
  function IsMemberEnabled(tags: seq<string>): bool {
    !(tags != [] && "upstream" in tags)
  }

  lemma {:induction false} AllInMeansEvery(tags: seq<string>, enabled: set<string>)
    ensures AllIn(tags, enabled) <==> forall t :: t in tags ==> t in enabled
  {
    if tags != [] {
      AllInMeansEvery(tags[1..], enabled);
      assert forall t :: t in tags <==> t == tags[0] || t in tags[1..];
    }
  }

  /** The inclusion rule in closed form: conjunction over the item's tags, and
      no filtering at all when the item has no tags or the run has no tag set. */
  lemma IsEnabledCharacterised(tags: seq<string>, enabled: Option<set<string>>)
    ensures IsEnabled(tags, enabled) <==>
            tags == [] || enabled.None? || forall t :: t in tags ==> t in enabled.value
  {
    if enabled.Some? { AllInMeansEvery(tags, enabled.value); }
  }

  /** An item needing two tags is excluded when only one of them is enabled. */
  lemma IsEnabledIsConjunction(a: string, b: string, enabled: set<string>)
    requires a in enabled && b !in enabled
    ensures !IsEnabled([a, b], Some(enabled))
    ensures IsEnabled([a], Some(enabled))
  {
    IsEnabledCharacterised([a, b], Some(enabled));
  }

  /** The member predicate ignores the enabled tag set: it rejects exactly the
      items tagged upstream, even when that tag is enabled for the run. */
  lemma MemberEnabledIffNotUpstream(tags: seq<string>)
    ensures IsMemberEnabled(tags) <==> "upstream" !in tags
  {
  }
}
