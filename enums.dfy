/** `EnumType`, `BitmaskType` and `EnumValue`: an enum whose enabled values
    include a name starting with a digit renders every case from the name
    prefixed with "type ", because a Swift identifier cannot start with a digit. */
module Enums {
  import opened Util
  import opened Schema
  import opened Nodes
  import TagFilter

  /** `any(value['name'][0].isdigit() for value in values)`: stops at the first
      digit-led name; an empty name met before it raises an IndexError. */
  function PrefixScan(values: seq<RawValue>, entry: string): Result<bool> {
    if values == [] then Ok(false)
    else if values[0].name == "" then Err(EmptyValueName(entry))
    else if IsDigit(values[0].name[0]) then Ok(true)
    else PrefixScan(values[1..], entry)
  }

  predicate DigitLed(name: string) {
    name != "" && IsDigit(name[0])
  }

  /** The scan answers true iff a digit-led name comes before any empty name. */
  lemma {:induction false} PrefixScanTrueIff(values: seq<RawValue>, entry: string)
    ensures PrefixScan(values, entry) == Ok(true) <==>
            exists i :: 0 <= i < |values| && DigitLed(values[i].name) &&
                        forall k :: 0 <= k < i ==> values[k].name != ""
  {
    if values != [] && values[0].name != "" && !IsDigit(values[0].name[0]) {
      var rest := values[1..];
      PrefixScanTrueIff(rest, entry);
      if PrefixScan(rest, entry) == Ok(true) {
        var i :| 0 <= i < |rest| && DigitLed(rest[i].name) && forall k :: 0 <= k < i ==> rest[k].name != "";
        assert DigitLed(values[i + 1].name);
        assert forall k :: 0 <= k < i + 1 ==> values[k].name != "" by {
          forall k | 0 <= k < i + 1 ensures values[k].name != "" {
            if k > 0 { assert values[k] == rest[k - 1]; }
          }
        }
      }
      if exists i :: 0 <= i < |values| && DigitLed(values[i].name) && forall k :: 0 <= k < i ==> values[k].name != "" {
        var i :| 0 <= i < |values| && DigitLed(values[i].name) && forall k :: 0 <= k < i ==> values[k].name != "";
        assert i > 0;
        assert DigitLed(rest[i - 1].name) && forall k :: 0 <= k < i - 1 ==> rest[k].name == values[k + 1].name;
      }
    }
  }

  /** Without empty names the scan succeeds; a false answer means no name
      is digit-led; its only failure is the entry's empty-name fault. */
  lemma {:induction false} PrefixScanOtherwise(values: seq<RawValue>, entry: string)
    ensures (forall k :: 0 <= k < |values| ==> values[k].name != "") ==> PrefixScan(values, entry).Ok?
    ensures PrefixScan(values, entry) == Ok(false) ==> forall i :: 0 <= i < |values| ==> !DigitLed(values[i].name)
    ensures PrefixScan(values, entry).Err? ==> PrefixScan(values, entry) == Err(EmptyValueName(entry))
  {
    if values != [] && values[0].name != "" && !IsDigit(values[0].name[0]) {
      var rest := values[1..];
      PrefixScanOtherwise(rest, entry);
      assert forall k :: 0 <= k < |rest| ==> rest[k] == values[k + 1];
    }
  }

  /** `requires_prefix` holds exactly when some value's name starts with a
      digit, provided no empty name comes first; with no empty names at all
      the scan never fails. */
  lemma PrefixScanCharacterised(values: seq<RawValue>, entry: string)
    ensures PrefixScan(values, entry) == Ok(true) <==>
            exists i :: 0 <= i < |values| && DigitLed(values[i].name) &&
                        forall k :: 0 <= k < i ==> values[k].name != ""
    ensures (forall k :: 0 <= k < |values| ==> values[k].name != "") ==>
            PrefixScan(values, entry) == Ok(exists i :: 0 <= i < |values| && DigitLed(values[i].name))
    ensures PrefixScan(values, entry) == Ok(false) ==> forall i :: 0 <= i < |values| ==> !DigitLed(values[i].name)
    ensures PrefixScan(values, entry).Err? ==> PrefixScan(values, entry) == Err(EmptyValueName(entry))
  {
    PrefixScanTrueIff(values, entry);
    PrefixScanOtherwise(values, entry);
  }

  /** `[value for value in data['values'] if _is_enabled(value, enabled_tags)]` */
  function EnabledValues(raw: seq<RawValue>, enabled: Option<set<string>>): seq<RawValue> {
    Filter(raw, (v: RawValue) => TagFilter.IsEnabled(v.tags, enabled))
  }

  function MakeValue(v: RawValue, requiresPrefix: bool): EnumValue {
    EnumValue(v.name, v.value, v.tags, requiresPrefix)
  }

  /** `EnumType.__init__`: keep the values enabled for the run, compute
      `requires_prefix` once over them, and hand it to every value. */
  function EnumBodyOf(bitmask: bool, raw: seq<RawValue>, enabled: Option<set<string>>, entry: string): Result<Body> {
    var kept := EnabledValues(raw, enabled);
    match PrefixScan(kept, entry)
    case Err(f) => Err(f)
    case Ok(p) => Ok(EnumBody(bitmask, seq(|kept|, k requires 0 <= k < |kept| => MakeValue(kept[k], p)), p))
  }

  /** Every value of an enum carries the enum's own prefix flag. */
  predicate PrefixConsistent(b: Body)
    requires b.EnumBody?
  {
    forall k :: 0 <= k < |b.values| ==> b.values[k].requiresPrefix == b.requiresPrefix
  }

  /** A built enum keeps exactly the enabled values, in order, all sharing one
      flag, and that flag is set iff some enabled value's name starts with a
      digit. */
  lemma EnumBodyPrefixIffDigit(bitmask: bool, raw: seq<RawValue>, enabled: Option<set<string>>, entry: string)
    requires EnumBodyOf(bitmask, raw, enabled, entry).Ok?
    ensures var kept := EnabledValues(raw, enabled);
            var b := EnumBodyOf(bitmask, raw, enabled, entry).value;
            && b.EnumBody? && b.bitmask == bitmask && PrefixConsistent(b)
            && |b.values| == |kept|
            && (forall k :: 0 <= k < |kept| ==> b.values[k].name == kept[k].name && b.values[k].value == kept[k].value)
            && (b.requiresPrefix <==> exists k :: 0 <= k < |kept| && DigitLed(kept[k].name))
  {
    var kept := EnabledValues(raw, enabled);
    PrefixScanCharacterised(kept, entry);
  }

  /** The text an enum case name is cased from: `'type ' + name` when the enum
      requires the prefix, lower-cased. */
  function CaseStem(requiresPrefix: bool, name: string): string {
    Lower(if requiresPrefix then "type " + name else name)
  }

  /** `EnumValue.swift_name` */
  function ValueSwiftName(v: EnumValue, ext: External): string {
    ext.swiftSafe(ext.camelCase(CaseStem(v.requiresPrefix, v.name)))
  }

  /** `EnumType.get_swift_value` for a string literal: a reference to the case. */
  function CaseReference(requiresPrefix: bool, literal: string, ext: External): string {
    "." + ext.camelCase(CaseStem(requiresPrefix, literal))
  }

  /** With the prefix required, the casing helper always receives the prefixed
      name and never the bare one. */
  lemma PrefixedStem(name: string)
    ensures CaseStem(true, name) == "type " + Lower(name)
    ensures StartsWith(CaseStem(true, name), "type ")
  {
    LowerAppend("type ", name);
    assert Lower("type ") == "type ";
  }

  /** A default literal that names a value of an enum renders as a reference to
      the same camel-cased identifier that the value's case is declared with
      (before reserved-word escaping), and both come from the prefixed stem
      when the enum requires a prefix. */
  lemma DefaultReferencesDeclaredCase(b: Body, k: nat, ext: External)
    requires b.EnumBody? && PrefixConsistent(b) && k < |b.values|
    ensures var v := b.values[k];
            var id := ext.camelCase(CaseStem(b.requiresPrefix, v.name));
            && CaseReference(b.requiresPrefix, v.name, ext) == "." + id
            && ValueSwiftName(v, ext) == ext.swiftSafe(id)
            && (b.requiresPrefix ==> id == ext.camelCase("type " + Lower(v.name)))
  {
    if b.requiresPrefix { PrefixedStem(b.values[k].name); }
  }

  /** The enum `E` with values "1x" and "2x": the prefix is required and "1x"
      is cased from "type 1x". */
  lemma DigitLedEnumScenario(ext: External)
    ensures var raw := [RawValue("1x", 0, []), RawValue("2x", 1, [])];
            var r := EnumBodyOf(false, raw, None, "E");
            && r.Ok? && r.value.requiresPrefix
            && ValueSwiftName(r.value.values[0], ext) == ext.swiftSafe(ext.camelCase("type 1x"))
  {
    var raw := [RawValue("1x", 0, []), RawValue("2x", 1, [])];
    assert raw[1..] == [RawValue("2x", 1, [])] && raw[1..][1..] == [];
    assert EnabledValues(raw, None) == raw;
    assert PrefixScan(raw, "E") == Ok(true);
    PrefixedStem("1x");
    assert Lower("1x") == "1x";
    var b := EnumBodyOf(false, raw, None, "E");
    assert b.Ok? && b.value.requiresPrefix;
    assert b.value.values[0] == EnumValue("1x", 0, [], true);
    assert CaseStem(true, "1x") == "type 1x";
  }
}
