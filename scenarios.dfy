/** Two small schemas taken through construction, pairing and linking, and
    the classification of their members. */
module Scenarios {
  import opened Util
  import opened Schema
  import opened Nodes
  import opened FunctionTypes
  import opened Conversions
  import opened Signatures
  import opened Defaults
  import Construction
  import Linker
  import Pairing

  const Uint32Registry := map["uint32_t" := Node("uint32_t", [], NativeBody)]

  /** A structure's member list: `items` (a `const*` array of `uint32_t`)
      takes its element count from its sibling `count`, which defaults to 0. */
  const CountItemsRaw := [RawMember("count", "uint32_t", "", None, Some(IntLit(0)), false, []),
                          RawMember("items", "uint32_t", "const*", Some("count"), None, false, [])]

  /** The same list once constructed and linked. */
  const CountItems := [Member("count", "uint32_t", "", None, Some(IntLit(0)), false, [], Some("uint32_t"), None, Some(1)),
                       Member("items", "uint32_t", "const*", Some("count"), None, false, [], Some("uint32_t"), Some(0), None)]

  /** Construction pairs `count` with `items` in both directions, and linking
      resolves both to the native type. */
  lemma CountItemsPaired()
    ensures Linker.LinkMembers(Uint32Registry.Keys, Construction.MembersOf(CountItemsRaw)) == Ok(CountItems)
  {
    var raw := CountItemsRaw;
    assert Filter(raw, Construction.KeepMember) == raw;
    var ms := Construction.Unpaired(raw);
    assert |ms| == 2 && ms[0] == Construction.MakeMember(raw[0]) && ms[1] == Construction.MakeMember(raw[1]);
    var paired := Pairing.Paired(ms);
    assert Pairing.NameKeys(ms) == [Some("count"), Some("items")];
    assert Pairing.LengthKeys(ms) == [None, Some("count")];
    assert Pairing.LastIndexOf(Pairing.LengthKeys(ms), "items") == None;
    assert Pairing.LastIndexOf(Pairing.NameKeys(ms), "count") == Some(0);
    assert paired[0] == ms[0].(lengthMember := None, lengthOf := Some(1));
    assert paired[1] == ms[1].(lengthMember := Some(0), lengthOf := None);
    assert Linker.MembersResolvable(Uint32Registry.Keys, paired);
    Linker.LinkMembersSpec(Uint32Registry.Keys, paired);
    var ls := Linker.LinkMembers(Uint32Registry.Keys, paired).value;
    assert ls[0] == CountItems[0] && ls[1] == CountItems[1];
    assert ls == CountItems;
    assert Construction.MembersOf(raw) == paired;
  }

  /** `count` becomes the array's length field and `items` an array filled
      from its sibling. */
  lemma CountItemsConversions(ext: External)
    ensures MembersLinked(Uint32Registry.Keys, CountItems)
    ensures MemberConversion(Uint32Registry, CountItems, 0, ext) == ArrayLengthConversion
    ensures MemberConversion(Uint32Registry, CountItems, 1, ext) == ImplicitArrayConversion
  {
  }

  /** `count` leaves the Swift member list; `items` becomes a Swift array of
      the element's Swift type that defaults to the empty array. */
  lemma CountItemsScenario(ext: External)
    ensures SwiftMembers(CountItems) == [CountItems[1]]
    ensures SwiftType(Uint32Registry, CountItems[1], ext) == "[UInt32]"
    ensures DefaultSwiftValue(Uint32Registry, CountItems, 1, ext, map[]) == Ok(Some("[]"))
  {
    assert CountItems == [CountItems[0]] + [CountItems[1]];
    assert Filter([CountItems[1]], (m: Member) => m.lengthOf.None?) == [CountItems[1]];
  }

  const LimitsRegistry := map["limits" := Node("limits", [], StructBody([], false, false))]

  /** A required `const*` member whose element is a structure, with no
      length. */
  const LimitsRaw := [RawMember("limits", "limits", "const*", None, None, false, [])]

  const Limits := [Member("limits", "limits", "const*", None, None, false, [], Some("limits"), None, None)]

  lemma LimitsLinked()
    ensures Linker.LinkMembers(LimitsRegistry.Keys, Construction.MembersOf(LimitsRaw)) == Ok(Limits)
  {
    var raw := LimitsRaw;
    assert Filter(raw, Construction.KeepMember) == raw;
    var ms := Construction.Unpaired(raw);
    assert |ms| == 1 && ms[0] == Construction.MakeMember(raw[0]);
    assert Pairing.LengthKeys(ms) == [None];
    var paired := Pairing.Paired(ms);
    assert paired[0] == ms[0];
    assert Construction.MembersOf(raw) == paired;
    assert Linker.MembersResolvable(LimitsRegistry.Keys, paired);
    Linker.LinkMembersSpec(LimitsRegistry.Keys, paired);
    var ls := Linker.LinkMembers(LimitsRegistry.Keys, paired).value;
    assert ls[0] == Limits[0];
    assert ls == Limits;
  }

  /** The member is passed as a struct pointer. */
  lemma StructPointerConversionScenario(ext: External)
    ensures MembersLinked(LimitsRegistry.Keys, Limits)
    ensures MemberConversion(LimitsRegistry, Limits, 0, ext) == StructPointerConversion
  {
    var t := LimitsRegistry["limits"];
    assert TypeOf(LimitsRegistry, Limits[0]) == t && CategoryOf(t) == Structure;
  }

  /** Its Swift signature is the structure's own type with no pointer
      wrapper. */
  lemma StructPointerScenario(ext: External)
    ensures SwiftType(LimitsRegistry, Limits[0], ext) == ext.pascalCase("limits")
  {
    var t := LimitsRegistry["limits"];
    assert TypeOf(LimitsRegistry, Limits[0]) == t && CategoryOf(t) == Structure;
    StructPointerConversionScenario(ext);
    assert IdiomaticType(LimitsRegistry, Limits[0], ext) == Some(SwiftName(t, ext));
    assert Lower("limits") == "limits";
  }

  /** The native signature of the same member keeps the pointer. */
  lemma StructPointerNativeSignature(ext: External)
    ensures CType(LimitsRegistry, Limits[0], ext) == "UnsafePointer<WGPU" + ext.pascalCase("limits") + ">!"
  {
    var t := LimitsRegistry["limits"];
    assert TypeOf(LimitsRegistry, Limits[0]) == t && CategoryOf(t) == Structure;
  }
}
