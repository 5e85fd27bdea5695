/** The length pairing done by the constructors of `StructureType` and
    `FunctionPointerType`: `length_member` is the sibling named by a member's
    `length`, and `length_of` is the sibling whose `length` names the member.
    Both lookups go through dicts built by comprehensions, so when two
    siblings share a key the later one wins. */
module Pairing {
  import opened Util
  import opened Nodes

  /** The keys of `members_by_name`, position by position. */
  function NameKeys(ms: seq<Member>): seq<Option<string>>
  {
    seq(|ms|, k requires 0 <= k < |ms| => Some(ms[k].name))
  }

  /** The keys of `members_by_length`: a member enters only when its `length`
      is truthy. */
  function LengthKeys(ms: seq<Member>): seq<Option<string>>
  {
    seq(|ms|, k requires 0 <= k < |ms| => if HasLength(ms[k]) then ms[k].length else None)
  }

  /** `d.get(s)` on a dict built from `keys` in order: the last position whose
      key is `s`, if any. */
  function LastIndexOf(keys: seq<Option<string>>, s: string): (r: Option<nat>)
    ensures r.Some? ==> r.value < |keys| && keys[r.value] == Some(s)
    ensures r.Some? ==> forall k :: r.value < k < |keys| ==> keys[k] != Some(s)
    ensures r.None? ==> forall k :: 0 <= k < |keys| ==> keys[k] != Some(s)
  {
    if keys == [] then None
    else if keys[|keys| - 1] == Some(s) then Some(|keys| - 1)
    else LastIndexOf(keys[..|keys| - 1], s)
  }

  /** `members_by_name.get(member.length)` */
  function LengthMemberIndex(ms: seq<Member>, i: nat): Option<nat>
    requires i < |ms|
  {
    if ms[i].length.None? then None else LastIndexOf(NameKeys(ms), ms[i].length.value)
  }

  /** `members_by_length.get(member.name)` */
  function LengthOfIndex(ms: seq<Member>, i: nat): Option<nat>
    requires i < |ms|
  {
    LastIndexOf(LengthKeys(ms), ms[i].name)
  }

  /** The member list after the pairing loop. */
  function Paired(ms: seq<Member>): seq<Member> {
    seq(|ms|, k requires 0 <= k < |ms| =>
      ms[k].(lengthMember := LengthMemberIndex(ms, k), lengthOf := LengthOfIndex(ms, k)))
  }

  /** A dict comprehension `{key: position ...}` over `keys`, skipping absent
      keys: looking a key up in the result gives its last position. */
  method IndexByKey(keys: seq<Option<string>>) returns (d: map<string, nat>)
    ensures forall s :: LastIndexOf(keys, s) == (if s in d then Some(d[s]) else None)
  {
    d := map[];
    var j := 0;
    while j < |keys|
      invariant 0 <= j <= |keys|
      invariant forall s :: LastIndexOf(keys[..j], s) == (if s in d then Some(d[s]) else None)
    {
      assert keys[..j + 1][..j] == keys[..j];
      if keys[j].Some? {
        d := d[keys[j].value := j];
      }
      j := j + 1;
    }
    assert keys[..|keys|] == keys;
  }

  /** The constructor's pairing: build `members_by_name` and
      `members_by_length`, then set both back-references of every member. */
  method PairLengths(ms: seq<Member>) returns (r: seq<Member>)
    ensures r == Paired(ms)
  {
    var byName := IndexByKey(NameKeys(ms));
    var byLength := IndexByKey(LengthKeys(ms));
    r := [];
    var i := 0;
    while i < |ms|
      invariant 0 <= i <= |ms|
      invariant r == Paired(ms)[..i]
    {
      var lengthMember := if ms[i].length.Some? && ms[i].length.value in byName
                          then Some(byName[ms[i].length.value]) else None;
      var lengthOf := if ms[i].name in byLength then Some(byLength[ms[i].name]) else None;
      r := r + [ms[i].(lengthMember := lengthMember, lengthOf := lengthOf)];
      i := i + 1;
    }
  }

  /** Pairing only sets the two back-references, and both point inside the list. */
  lemma PairedKeepsSchemaFields(ms: seq<Member>)
    ensures |Paired(ms)| == |ms|
    ensures forall k :: 0 <= k < |ms| ==>
      && Paired(ms)[k].(lengthMember := None, lengthOf := None) == ms[k].(lengthMember := None, lengthOf := None)
      && (Paired(ms)[k].lengthMember.Some? ==> Paired(ms)[k].lengthMember.value < |ms|)
      && (Paired(ms)[k].lengthOf.Some? ==> Paired(ms)[k].lengthOf.value < |ms|)
  {
  }

  /** `length_member` is the last sibling whose name is this member's `length`,
      and there is none exactly when no sibling has that name. */
  lemma LengthMemberIsLastNamed(ms: seq<Member>, i: nat, j: nat)
    requires i < |ms| && j < |ms|
    ensures Paired(ms)[i].lengthMember == Some(j) <==>
            && ms[i].length == Some(ms[j].name)
            && forall k :: j < k < |ms| ==> ms[k].name != ms[j].name
    ensures Paired(ms)[i].lengthMember.None? <==>
            ms[i].length.None? || forall k :: 0 <= k < |ms| ==> Some(ms[k].name) != ms[i].length
  {
    var names := NameKeys(ms);
    assert |names| == |ms| && forall k :: 0 <= k < |ms| ==> names[k] == Some(ms[k].name);
    if ms[i].length.Some? {
      var r := LastIndexOf(names, ms[i].length.value);
      if ms[i].length == Some(ms[j].name) && forall k :: j < k < |ms| ==> ms[k].name != ms[j].name {
        assert names[j] == Some(ms[i].length.value);
        assert r.Some?;
        assert names[r.value] == Some(ms[j].name);
        assert r.value == j;
      }
    }
  }

  /** `length_of` is the last sibling whose truthy `length` names this member. */
  lemma LengthOfIsLastClaimant(ms: seq<Member>, i: nat, j: nat)
    requires i < |ms| && j < |ms|
    ensures Paired(ms)[i].lengthOf == Some(j) <==>
            && HasLength(ms[j]) && ms[j].length.value == ms[i].name
            && forall k :: j < k < |ms| ==> !(HasLength(ms[k]) && ms[k].length.value == ms[i].name)
  {
    var lengths := LengthKeys(ms);
    assert |lengths| == |ms| && forall k :: 0 <= k < |ms| ==> lengths[k] == if HasLength(ms[k]) then ms[k].length else None;
    var r := LastIndexOf(lengths, ms[i].name);
    if HasLength(ms[j]) && ms[j].length.value == ms[i].name
       && forall k :: j < k < |ms| ==> !(HasLength(ms[k]) && ms[k].length.value == ms[i].name)
    {
      assert lengths[j] == Some(ms[i].name);
      assert r.Some?;
      assert lengths[r.value] == Some(ms[i].name);
      assert r.value == j;
    }
  }

  predicate DistinctNames(ms: seq<Member>) {
    forall a, b :: 0 <= a < b < |ms| ==> ms[a].name != ms[b].name
  }

  /** With distinct sibling names, a length field points back at the array it
      measures: `length_of` set on L to A implies `A.length_member` is L. */
  lemma PairingMutualWithDistinctNames(ms: seq<Member>, i: nat)
    requires i < |ms| && DistinctNames(ms)
    requires Paired(ms)[i].lengthOf.Some?
    ensures Paired(ms)[i].lengthOf.value < |ms|
    ensures Paired(ms)[Paired(ms)[i].lengthOf.value].lengthMember == Some(i)
  {
    var j := Paired(ms)[i].lengthOf.value;
    LengthOfIsLastClaimant(ms, i, j);
    LengthMemberIsLastNamed(ms, j, i);
  }

  /** Conversely, when no two siblings share a length name, an array's
      `length_member` carries the matching `length_of`. */
  lemma PairingConverseWithDistinctLengths(ms: seq<Member>, j: nat)
    requires j < |ms| && DistinctNames(ms)
    requires forall a, b :: 0 <= a < b < |ms| && HasLength(ms[a]) && HasLength(ms[b]) ==> ms[a].length != ms[b].length
    requires HasLength(ms[j]) && Paired(ms)[j].lengthMember.Some?
    ensures Paired(ms)[j].lengthMember.value < |ms|
    ensures Paired(ms)[Paired(ms)[j].lengthMember.value].lengthOf == Some(j)
  {
    var i := Paired(ms)[j].lengthMember.value;
    LengthMemberIsLastNamed(ms, j, i);
    LengthOfIsLastClaimant(ms, i, j);
  }

  function Field(name: string, length: Option<string>): Member {
    Member(name, "uint32_t", if length.Some? then "const*" else "", length, None, false, [], None, None, None)
  }

  /** Two arrays sharing one length field: the first array still names the
      field as its `length_member`, but the field's `length_of` is the last
      array only, so pairing is not mutual. */
  lemma SharedLengthIsNotMutual()
    ensures var ms := Paired([Field("count", None), Field("a", Some("count")), Field("b", Some("count"))]);
            ms[1].lengthMember == Some(0) && ms[0].lengthOf == Some(2)
  {
    var raw := [Field("count", None), Field("a", Some("count")), Field("b", Some("count"))];
    LengthMemberIsLastNamed(raw, 1, 0);
    LengthOfIsLastClaimant(raw, 0, 2);
  }

  /** Two siblings with one name: the first is the length of the array, but
      the array's `length_member` is the second. */
  lemma DuplicateNameIsNotMutual()
    ensures var ms := Paired([Field("count", None), Field("count", None), Field("a", Some("count"))]);
            ms[0].lengthOf == Some(2) && ms[2].lengthMember == Some(1)
  {
    var raw := [Field("count", None), Field("count", None), Field("a", Some("count"))];
    LengthMemberIsLastNamed(raw, 2, 1);
    LengthOfIsLastClaimant(raw, 0, 2);
  }
}
