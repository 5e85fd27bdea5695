# WebGPU-to-Swift binding generator: the type model

This project models `generator/genlib/model.py`, the core of a generator that
reads a WebGPU API schema (one attribute record per type name) and derives the
data its Swift templates need. It has four parts:

- **Tag filter.** This decides which entries, enum values, methods, members
  and arguments take part in a run.
- **Model builder.** This builds one node per public, enabled entry of a known
  category. It then links every node, so that each type name inside a node
  becomes a reference to a registry entry.
- **Length pairing.** Each member is paired with the sibling that holds its
  element count (`length_member`), and each count field with the array it
  measures (`length_of`).
- **Per-member classification.** Each member gets:
  - a conversion strategy (`Member.conversion`);
  - a native and a Swift signature (`c_type`, `swift_type`);
  - a Swift default value (`default_swift_value`).

  Each structure gets a flag saying whether it has a default initializer
  (`has_default_swift_initializer`).

## How the model is laid out

The modules follow the source.

| Module | Models | Form |
|---|---|---|
| `TagFilter` (schema.dfy) | `_is_enabled`, `_is_member_enabled` | functions and lemmas |
| `Schema` | the raw schema records | datatypes |
| `Nodes` | the type hierarchy, as one variant per category | datatypes |
| `Pairing` | the pairing loops of the structure and function-pointer constructors | a method proved equal to a function |
| `Enums` | `EnumType` and `EnumValue` | functions and lemmas |
| `FunctionTypes` | `swift_members`, `swift_args`, `is_callback`, getter and callback-setter shapes | functions and lemmas |
| `Conversions` | `Member.conversion`, `return_conversion` | functions and lemmas |
| `Signatures` | `c_type`, `swift_type` | functions and lemmas |
| `Defaults` | `get_swift_value`, `default_swift_value`, `has_default_swift_initializer` | functions and lemmas |
| `Construction` | the constructors | methods proved equal to functions |
| `Linker` | the `link` methods | methods proved equal to functions |
| `ModelBuild` | `Model.__init__`, `types_by_category` | loops proved equal to functions |
| `Scenarios` | two worked schemas | lemmas |

**Registry and references.** The registry is `map<string, Node>` together with
the insertion order of its keys. A reference from one node to another is a
registry key. Linking fills in `Member.ty` (the source's `self.type`), a
function's `returnType` and a typedef's resolved target. Python object
identity is not modelled.

**Pairing.** Pairing refers to siblings by their position in the member list.

**Errors.** These exceptions the source raises on a malformed schema are an
`Err` of a `Result`:

- a `KeyError` on `data['values']`, `data['members']` or `data['type']`;
- an `IndexError` on an empty enum value name;
- a `KeyError` on an unknown type name while linking;
- a non-string default passed to the enum or struct renderer;
- a sentinel constant on a native type outside the `c_name` table.

Three kinds are not, and "## Left out" lists them:

- a `KeyError` from the name of a native type outside the `c_name` table, which
  the members that render names exclude by a precondition;
- an exception inside `StructureType.get_swift_value`;
- a missing `name` key.

**Behaviour to note.**

- **Callbacks.** A function-pointer type is a callback when any of its
  arguments is named `userdata` (`FunctionTypes.IsCallback`): any such
  argument makes it a callback; exactly one is not required.
- **Pairing is not always mutual.**
  - If two siblings share a `length`, only the last one is the count field's
    `length_of`.
  - If two siblings share a name, the `length_member` is the last of them.
  - Counterexamples are `Pairing.SharedLengthIsNotMutual` and
    `Pairing.DuplicateNameIsNotMutual`.
  - Pairing is mutual under the stated distinctness conditions
    (`Pairing.PairingMutualWithDistinctNames`,
    `Pairing.PairingConverseWithDistinctLengths`).
- **Unknown categories** are skipped without an error.
- **Pairing runs in the constructors**, before linking.
- **Default initializers** consult only the swift members (those that are not
  a length field).
- **Failure modes.** Besides an unknown type name, the build fails on the other
  `Fault` values listed above.
- **Zero-length defaults.** Python's `False == 0` holds, so a `false` length
  default also yields the empty-array default.
- **Order.** A name registered twice keeps the place of its first registering
  entry and the node of its last (`ModelBuild.BuildOrder`,
  `ModelBuild.CollectLastWins`), as a Python dict does.

## Model

| member | source | states |
|---|---|---|
| TagFilter.AllInMeansEvery | generator/genlib/model.py:12 | The left-to-right `all(...)` scan holds iff every item tag is enabled. |
| TagFilter.IsEnabledCharacterised | generator/genlib/model.py:6-12 | `_is_enabled` holds iff the item has no tags, there is no tag set, or every item tag is in the tag set. |
| TagFilter.IsEnabledIsConjunction | generator/genlib/model.py:9-12 | An item needing an enabled and a disabled tag is excluded, although the item with only the enabled tag is included. |
| TagFilter.MemberEnabledIffNotUpstream | generator/genlib/model.py:15-17 | `_is_member_enabled` is false iff the tags contain `upstream`, whatever the run's tag set. |
| TagFilter.IsEnabled | generator/genlib/model.py:6-12 | The tag filter of types, values and methods; the body is the model, and `TagFilter.IsEnabledCharacterised` states what it admits. |
| TagFilter.IsMemberEnabled | generator/genlib/model.py:15-17 | The tag filter of members; the body is the model, and `TagFilter.MemberEnabledIffNotUpstream` states what it admits. |
| Nodes.CategoryOfKey | generator/genlib/model.py:470-479 | A category string has a constructor iff it is one of the eight keys of the dispatch table. |
| Nodes.CategoryNameRoundTrip | generator/genlib/model.py:470-479 | The dispatch table and the category strings nodes report are inverse to each other. |
| Pairing.LastIndexOf | generator/genlib/model.py:301-302 | A lookup in a dict built in list order gives the last position holding the key, or nothing when no position holds it. |
| Pairing.IndexByKey | generator/genlib/model.py:301-302 | The dict-building loop maps each key to its last position, and holds no other keys. |
| Pairing.PairLengths | generator/genlib/model.py:301-305 | The two dicts and the assignment loop set exactly the pairing of `Pairing.Paired`. |
| Pairing.PairedKeepsSchemaFields | generator/genlib/model.py:303-305 | Pairing keeps the list's length and every schema field, and sets only the two back-references, both inside the list. |
| Pairing.LengthMemberIsLastNamed | generator/genlib/model.py:304 | `length_member` is sibling j iff j is the last sibling named by `length`; it is absent iff `length` is unset or names no sibling. |
| Pairing.LengthOfIsLastClaimant | generator/genlib/model.py:305 | `length_of` is sibling j iff j is the last sibling whose non-empty `length` is this member's name. |
| Pairing.PairingMutualWithDistinctNames | generator/genlib/model.py:301-305 | With distinct sibling names, a count field's array names that field as its `length_member`. |
| Pairing.PairingConverseWithDistinctLengths | generator/genlib/model.py:301-305 | With distinct names and distinct length names, an array's `length_member` has that array as its `length_of`. |
| Pairing.SharedLengthIsNotMutual | generator/genlib/model.py:302-305 | Two arrays sharing one count field: the first names the field, but the field's `length_of` is only the second. |
| Pairing.DuplicateNameIsNotMutual | generator/genlib/model.py:301-305 | With two siblings of one name, the one that claims the array is not the array's `length_member`. |
| Pairing.Paired | generator/genlib/model.py:301-305 | The pairing of a member list, stated through `Pairing.LastIndexOf`; `Pairing.PairLengths` proves the dict loop computes it, and `Pairing.LengthMemberIsLastNamed`, `Pairing.LengthOfIsLastClaimant` and `Pairing.PairedKeepsSchemaFields` state what it sets. |
| Enums.PrefixScanCharacterised | generator/genlib/model.py:117 | `requires_prefix` is true iff some value name starts with a digit before any empty name. It is false only when no name starts with a digit. Without empty names it never fails; otherwise it fails with the entry's empty-name fault. |
| Enums.PrefixScanTrueIff | generator/genlib/model.py:117 | The scan answers true iff a digit-led value name comes before any empty name. |
| Enums.PrefixScanOtherwise | generator/genlib/model.py:117 | Without empty names the scan never fails; a false answer means no name is digit-led; the only fault is the entry's empty-name fault. |
| Enums.EnumBodyPrefixIffDigit | generator/genlib/model.py:113-118 | An enum keeps exactly its enabled values, in order. All of them share the enum's flag, which is set iff some enabled value starts with a digit. |
| Enums.PrefixedStem | generator/genlib/model.py:107-110 | With the prefix required, the casing helper receives `type ` plus the lower-cased name, never the bare name. |
| Enums.DefaultReferencesDeclaredCase | generator/genlib/model.py:107-122 | A default naming an enum value renders as `.` plus the camel-cased identifier the case is declared with (before reserved-word escaping). |
| Enums.DigitLedEnumScenario | generator/genlib/model.py:113-122 | The enum with values `1x` and `2x` requires the prefix, and `1x` is cased from `type 1x`. |
| Enums.PrefixScan | generator/genlib/model.py:117 | The `any(...)` scan over the value names, including the fault an empty name raises; `Enums.PrefixScanCharacterised` states its answer and its fault. |
| Enums.ValueSwiftName | generator/genlib/model.py:107-110 | The declared case name of an enum value; `Enums.PrefixedStem` states what the casing helper receives. |
| Enums.CaseReference | generator/genlib/model.py:120-122 | The rendered reference to an enum case; `Enums.DefaultReferencesDeclaredCase` proves it names the declared case. |
| FunctionTypes.SwiftMembers | generator/genlib/model.py:319-321 | The swift members are exactly the members that are no member's length field. |
| FunctionTypes.SwiftArgs | generator/genlib/model.py:358-360 | The Swift arguments are exactly the arguments that are neither a length field nor named `userdata`. |
| FunctionTypes.CallbackHidesAnArgument | generator/genlib/model.py:350-360 | A callback always has fewer Swift arguments than arguments. |
| FunctionTypes.GetterShapes | generator/genlib/model.py:412-433 | No method is both a getter and a callback setter, and a getter's Swift name is cased from its name without the `get ` prefix. |
| FunctionTypes.SwiftReturnType | generator/genlib/model.py:362-368 | There is a Swift return type iff there is a return type; it is that type's Swift name, followed by `?` exactly for a function-pointer or function return type. |
| FunctionTypes.IsCallback | generator/genlib/model.py:350-352 | The callback test; `FunctionTypes.SwiftArgs` and `FunctionTypes.CallbackHidesAnArgument` state its effect on the Swift arguments. |
| FunctionTypes.IsGetter | generator/genlib/model.py:412-414 | The getter test on the raw method name; `FunctionTypes.GetterShapes` relates it to the callback-setter test and the Swift name. |
| FunctionTypes.IsCallbackSetter | generator/genlib/model.py:431-433 | The callback-setter test on the raw method name; `FunctionTypes.GetterShapes` proves it excludes the getter test. |
| Conversions.ReturnConversion | generator/genlib/model.py:370-378 | There is a return strategy iff there is a return type. It is the object strategy exactly for an object, and pass-through otherwise. |
| Conversions.ConversionFollowsTable | generator/genlib/model.py:217-272 | The chosen strategy is exactly the one whose rule (its condition and every earlier rule's negation) holds, so exactly one rule applies to each member. |
| Conversions.OptionalityOnlySplitsThreeRules | generator/genlib/model.py:217-272 | Toggling `optional` changes the strategy only between string and optional string, struct pointer and optional struct, and object and optional object. |
| Conversions.ArrayRulePreemptsOptional | generator/genlib/model.py:231-244 | An optional `const*` with a length and no `length_of`, other than `userdata` or a `char` string, gets an array, buffer or implicit-array strategy, the same as when it is required. |
| Conversions.LengthFieldIgnoresOwnShape | generator/genlib/model.py:219-222 | A length field's strategy depends only on the element type of the array it measures, not on its own fields. |
| Conversions.MemberConversion | generator/genlib/model.py:217-272 | The strategy table of `Member.conversion`, rule by rule; `Conversions.ConversionFollowsTable` and the lemmas above state which rule applies. |
| Signatures.FallbackDropsOptionalMarker | generator/genlib/model.py:206-207 | Where `swift_type` falls back, it equals `c_type`; a pointer fallback ends in `!`, never `?`, even for an optional member. |
| Signatures.MutablePointerFallsBack | generator/genlib/model.py:180-207 | A `*` member always falls back to the native signature, which ends in `!`. |
| Signatures.IdiomaticMarkers | generator/genlib/model.py:209-215 | On the idiomatic path, the signature ends in `?` iff the member is optional or the base does. A function-pointer type always gets `@escaping `. |
| Signatures.SignatureAgreesWithConversion | generator/genlib/model.py:191-252 | The Swift signature agrees with the strategy (see below). |
| Signatures.TextSignatures | generator/genlib/model.py:191-215 | A string strategy gives `String` (`String?` for the optional one) and a buffer strategy `UnsafeRawBufferPointer`, with the escaping and optional markers. |
| Signatures.ContainerSignatures | generator/genlib/model.py:191-215 | A typed-array strategy gives `[` element Swift name `]`, and a struct-pointer strategy gives the struct's Swift name, optional or not. |
| Signatures.ScalarArraySignature | generator/genlib/model.py:191-215 | The scalar-array strategy gives the escaping marker, `[` element Swift name `]` and the optional marker. |
| Signatures.ValueSignatures | generator/genlib/model.py:191-215 | An unannotated member, whatever its strategy, gives the escaping marker, the type's Swift name and the optional marker; a `*` pass-through gives the native signature. |
| Signatures.CType | generator/genlib/model.py:169-189 | The native signature of a member; `Signatures.FallbackDropsOptionalMarker`, `Signatures.MutablePointerFallsBack` and `Scenarios.StructPointerNativeSignature` state its shape. |
| Signatures.IdiomaticType | generator/genlib/model.py:191-207 | The idiomatic base of `swift_type`, or none where it falls back; `Signatures.IdiomaticMarkers` states the markers added to it. |
| Signatures.SwiftType | generator/genlib/model.py:191-215 | The Swift signature of a member; `Signatures.SignatureAgreesWithConversion` states it for every strategy. |
| Defaults.RenderLiteralFailures | generator/genlib/model.py:81-122 | Rendering a literal fails exactly in two cases (see below). |
| Defaults.NativeLiteralRendering | generator/genlib/model.py:81-91 | A `WGPU_` constant is wrapped in the type's Swift name, and `NAN` becomes `.nan`. Any other `float` string loses its trailing `f`s and nothing else. |
| Defaults.EnumDefaultReferencesCase | generator/genlib/model.py:120-122 | An enum or bitmask default that names one of its values renders as the reference to that value's declared case. |
| Defaults.DefaultRulesInOrder | generator/genlib/model.py:278-290 | The rules apply in order: `nil` for an optional member, then `[]` for a zero length default, then a truthy literal's rendering, exactly (its value or its fault), and otherwise no default unless the member embeds a struct. The fixed answers are never empty. |
| Defaults.RenderLiteral | generator/genlib/model.py:46-122 | The per-category `get_swift_value`; `Defaults.RenderLiteralFailures`, `Defaults.NativeLiteralRendering` and `Defaults.EnumDefaultReferencesCase` state its results and faults. |
| Defaults.DefaultSwiftValue | generator/genlib/model.py:278-290 | The default of a member; `Defaults.DefaultRulesInOrder` states each of its rules. |
| Defaults.HasDefaultInit | generator/genlib/model.py:323-325 | Whether a struct has a default initializer; `Defaults.HasDefaultInitIffAllProvided` states it. |
| Defaults.NestedStructDefault | generator/genlib/model.py:289-290 | A required by-value struct member with no truthy default and no zero length default (with or without a length member) defaults to `T()` iff every swift member of the struct provides a default, and has none iff that check says no. |
| Defaults.AllDefaultsIffProvided | generator/genlib/model.py:323-325 | The scan from a position succeeds iff every later swift member provides a non-empty default. |
| Defaults.AllDefaultsStopsAtGap | generator/genlib/model.py:323-325 | The scan stops at the first swift member without a default. It answers no, or raises that member's fault, whatever follows. |
| Defaults.HasDefaultInitIffAllProvided | generator/genlib/model.py:323-325 | `has_default_swift_initializer` is true iff every swift member provides a default. |
| Defaults.AbsentDefaultBlocksInit | generator/genlib/model.py:323-325 | One swift member without a default removes the initializer; if all earlier members provide one, the answer is a plain no. |
| Defaults.NoFaultWhenLiteralsRender | generator/genlib/model.py:278-325 | When every truthy literal renders, no member default and no initializer check fails, through any depth of nesting. |
| Construction.MembersOfKeepsEnabled | generator/genlib/model.py:300-305 | The member list holds exactly the members not tagged upstream, in order, with their schema fields, paired inside the list. |
| Construction.MethodsOfKeepsEnabled | generator/genlib/model.py:439 | An object keeps exactly its enabled methods, in order, each owned by the object and keeping its name. |
| Construction.SignatureOfFresh | generator/genlib/model.py:341-348 | A newly constructed signature has paired, unlinked arguments and no resolved return type. |
| Construction.MethodsOfFresh | generator/genlib/model.py:436-439 | Every method of a newly constructed object has such a fresh signature. |
| Construction.EnumBodyShape | generator/genlib/model.py:113-118 | The enum and bitmask constructors build an enum body of their own kind, and fail only with the entry's empty-name fault. |
| Construction.NewBodyShape | generator/genlib/model.py:488-491 | The constructor of a category builds a fresh body of that category; it fails only for a missing list or an empty enum value name. |
| Construction.NewNodeCategory | generator/genlib/model.py:488-491 | A node is built iff the category is known; it carries the entry's name, tags and category. The only faults are missing `values`/`members` and an empty value name. |
| Construction.ConstructMembers | generator/genlib/model.py:300-305 | The comprehension loop and the pairing build exactly the specified member list. |
| Construction.KeptMembers | generator/genlib/model.py:300 | The comprehension loop gives exactly the members not tagged upstream, in order, unpaired. |
| Construction.ConstructMethods | generator/genlib/model.py:439 | The method loop builds exactly the specified method list. |
| Construction.ConstructNode | generator/genlib/model.py:488-491 | The constructor dispatch gives exactly the specified node or fault. |
| Construction.NewNode | generator/genlib/model.py:470-491 | The category dispatch and the constructors; `Construction.NewNodeCategory` and `Construction.ConstructNode` state what it builds and when it fails. |
| Linker.LinkMembersSpec | generator/genlib/model.py:333-335 | Linking a member list fails iff some type is unregistered, with the first such name. On success each member's reference is its own `type` and nothing else changes. |
| Linker.LinkSignatureSpec | generator/genlib/model.py:380-386 | Linking a signature fails iff the linked return or some argument is unregistered. On success the arguments are resolved, and a `void` or absent return leaves the return type unchanged. |
| Linker.LinkMethodsSpec | generator/genlib/model.py:449-451 | Linking an object's methods fails iff some signature fails; otherwise each method is linked alone and keeps its other fields. |
| Linker.LinkNodeSpec | generator/genlib/model.py:333-460 | `link` succeeds iff every name it looks up is registered, and then leaves the node resolved with its name, tags and category. |
| Linker.LinkNodeIdempotent | generator/genlib/model.py:333-460 | Linking a linked node again changes nothing. |
| Linker.LinkSignatureIdempotent | generator/genlib/model.py:380-386 | Linking a linked signature again changes nothing. |
| Linker.LinkMembersLoop | generator/genlib/model.py:333-335 | The member loop gives exactly the specified linked list or first fault. |
| Linker.LinkMembersFailureSticks | generator/genlib/model.py:334-335 | Once a prefix of the members fails, the whole list fails with that fault. |
| Linker.LinkSignatureLoop | generator/genlib/model.py:380-386 | The return-then-arguments linking gives exactly the specified result. |
| Linker.LinkMethodsFailureSticks | generator/genlib/model.py:450-451 | Once a prefix of the methods fails, the whole list fails with that fault. |
| Linker.LinkMethodsLoop | generator/genlib/model.py:449-451 | The method loop gives exactly the specified result. |
| Linker.LinkNodeLoop | generator/genlib/model.py:333-460 | Per-category linking gives exactly the specified result. |
| Linker.LinkMember | generator/genlib/model.py:292-293 | Linking one member; `Linker.LinkMembersSpec` states its result. |
| Linker.LinkMembers | generator/genlib/model.py:333-335 | Linking a member list; `Linker.LinkMembersSpec` and `Linker.LinkMembersLoop` state it. |
| Linker.LinkSignature | generator/genlib/model.py:380-386 | Linking a signature; `Linker.LinkSignatureSpec` and `Linker.LinkSignatureIdempotent` state it. |
| Linker.LinkMethods | generator/genlib/model.py:449-451 | Linking an object's methods; `Linker.LinkMethodsSpec` states it. |
| Linker.LinkNode | generator/genlib/model.py:333-460 | The per-category `link`; `Linker.LinkNodeSpec` and `Linker.LinkNodeIdempotent` state it. |
| ModelBuild.Collect | generator/genlib/model.py:481-491 | A successful first pass gives a well-formed registry: distinct keys, each with one node (its order is `ModelBuild.CollectOrder`). |
| ModelBuild.BuildModel | generator/genlib/model.py:463-494 | The build loop followed by the link loop gives exactly the specified build. |
| ModelBuild.CollectEntries | generator/genlib/model.py:481-491 | The build loop gives exactly the specified first pass. |
| ModelBuild.CollectEntry | generator/genlib/model.py:482-491 | One iteration of the build loop gives exactly the specified step. |
| ModelBuild.LinkAll | generator/genlib/model.py:493-494 | The link loop gives exactly the specified second pass. |
| ModelBuild.CollectFailureSticks | generator/genlib/model.py:481-491 | Once a prefix of the entries fails, the whole build loop fails with that fault. |
| ModelBuild.LinkFailureSticks | generator/genlib/model.py:493-494 | Once a node fails to link, the whole link loop fails with that fault. |
| ModelBuild.LinkPrefixKeys | generator/genlib/model.py:493-494 | The first n iterations of the link loop keep the registry's keys. |
| ModelBuild.LinkModel | generator/genlib/model.py:493-494 | The link pass keeps the keys and their order, and so a well-formed registry. |
| ModelBuild.CollectSnoc | generator/genlib/model.py:481-491 | The build loop over one more entry is the loop so far followed by one more iteration, unless the loop so far failed. |
| ModelBuild.CollectStepOk | generator/genlib/model.py:482-491 | One iteration of the build loop succeeds iff the entry is skipped or its constructor succeeds. |
| ModelBuild.AllConstructibleSnoc | generator/genlib/model.py:481-491 | Every entry of a longer schema can be constructed iff every earlier entry can and the new last entry can. |
| ModelBuild.CollectFailsIff | generator/genlib/model.py:481-491 | The first pass fails iff the constructor of some admitted entry fails. |
| ModelBuild.CollectStepEffect | generator/genlib/model.py:482-491 | One iteration binds the entry's name to its node if the entry registers, and otherwise changes nothing. |
| ModelBuild.NamedByRegisteringSnoc | generator/genlib/model.py:481-491 | Some entry of a longer schema registers a name iff an earlier entry does or the new last entry does. |
| ModelBuild.CollectKeys | generator/genlib/model.py:481-491 | The registry holds exactly the names of entries that are public, enabled and of a known category. |
| ModelBuild.LastRegisteringExtends | generator/genlib/model.py:491 | Appending an entry that does not register under a name keeps that name's last registering entry. |
| ModelBuild.CollectLastWins | generator/genlib/model.py:491 | Each name holds the node of the last registering entry of that name. |
| ModelBuild.NamedByRegisteringPrefix | generator/genlib/model.py:481-491 | A name registered by some entry of a prefix of the schema is registered by some entry of the schema. |
| ModelBuild.RegistersBeforeSnoc | generator/genlib/model.py:481-491 | Appending an entry keeps every fact that one name registers before another. |
| ModelBuild.RegistersBeforeNew | generator/genlib/model.py:481-491 | A name registered before the last entry registers before a name that only the last entry registers. |
| ModelBuild.CollectStepOrder | generator/genlib/model.py:491 | One iteration appends the name to the order iff the entry registers and the name is not present yet. |
| ModelBuild.CollectOrder | generator/genlib/model.py:481-491 | Of two names in the first pass's order, the earlier one registers at an entry before any entry registers the later one. |
| ModelBuild.LinkPrefixOk | generator/genlib/model.py:493-494 | The first n iterations of the link loop succeed iff each of the first n nodes links. |
| ModelBuild.LinkPrefixValue | generator/genlib/model.py:493-494 | After n successful iterations the keys are kept, the first n nodes are linked against the whole registry, and the rest are untouched. |
| ModelBuild.LinkModelSpec | generator/genlib/model.py:493-494 | The link pass fails iff some node cannot be linked. Otherwise the keys and order are kept, and every node is linked exactly as `link` alone would link it. |
| ModelBuild.LinkModelIdempotent | generator/genlib/model.py:493-494 | Linking a linked registry again gives the same registry, when no node held an unregistered reference before linking. |
| ModelBuild.LinkedMembersReady | generator/genlib/model.py:292-293 | Linking a paired member list makes it ready for classification: linked, with back-references in range. |
| ModelBuild.LinkedFreshNodeIsBuilt | generator/genlib/model.py:493-494 | Linking a freshly constructed node yields a resolved node of the same category, ready for classification. |
| ModelBuild.BuildSpec | generator/genlib/model.py:463-494 | A successful build holds exactly the registering entries. Each node has its own name and its entry's category, is resolved, and can be classified without a failing lookup. |
| ModelBuild.BuildFailsIff | generator/genlib/model.py:463-494 | The build succeeds iff every admitted constructor succeeds and every constructed node's references are registered. |
| ModelBuild.RelinkBuiltIsNoOp | generator/genlib/model.py:463-494 | Linking a built model a second time changes nothing. |
| ModelBuild.BuildOrder | generator/genlib/model.py:463-497 | The order of a built model (`types.values()`, which `types_by_category` filters) holds each registering name once, ordered by its first registering entry. |
| ModelBuild.HasCategoryIff | generator/genlib/model.py:497 | The filter's test holds iff the node's category is the one the string names. |
| ModelBuild.TypesByCategorySpec | generator/genlib/model.py:496-497 | A registered node is selected iff the string names its category, and only registered nodes are selected; the selection follows the registry order by definition. |
| ModelBuild.UnknownCategorySelectsNothing | generator/genlib/model.py:496-497 | A string naming no category selects nothing. |
| ModelBuild.Build | generator/genlib/model.py:463-494 | `Model.__init__`, first pass then link pass; `ModelBuild.BuildFailsIff`, `ModelBuild.BuildOrder` and `ModelBuild.RelinkBuiltIsNoOp` state it. |
| ModelBuild.TypesByCategory | generator/genlib/model.py:496-497 | The category filter over the registry order; `ModelBuild.TypesByCategorySpec` states what it selects. |
| Scenarios.CountItemsPaired | generator/genlib/model.py:300-305 | For `count` and `items` (`length` = `count`), construction pairs them both ways, and linking resolves both. |
| Scenarios.CountItemsConversions | generator/genlib/model.py:217-244 | `count` gets the array-length strategy and `items` the implicit-array strategy. |
| Scenarios.CountItemsScenario | generator/genlib/model.py:191-290 | `count` leaves the swift members; `items` gets the signature `[UInt32]` and the default `[]`. |
| Scenarios.LimitsLinked | generator/genlib/model.py:296-305 | A single `const*` struct member is constructed unpaired and links to the struct. |
| Scenarios.StructPointerConversionScenario | generator/genlib/model.py:246-250 | A required `const*` struct member without length gets the struct-pointer strategy. |
| Scenarios.StructPointerScenario | generator/genlib/model.py:191-215 | That member's Swift signature is the struct's own Swift name, with no pointer wrapper. |
| Scenarios.StructPointerNativeSignature | generator/genlib/model.py:170-178 | The same member's native signature is `UnsafePointer<WGPU…>!`. |

The remaining cells:

- **`Signatures.SignatureAgreesWithConversion`**:
  - the string strategies give `String` / `String?`;
  - the buffer strategy gives `UnsafeRawBufferPointer`;
  - the typed-array and scalar-array strategies give `[` + the element's Swift name + `]`,
    plus `?` when optional (the escaping marker too, for the scalar array);
  - the struct-pointer strategies give the struct's own name, with `?` when optional;
  - any unannotated member gives the escaping marker, its Swift name and `?` when optional;
  - a `*` member gives `c_type`.
- **`Defaults.RenderLiteralFailures`**: rendering fails exactly
  - on a non-string literal for an enum, bitmask or struct;
  - on a `WGPU_` constant for a native type outside the primitive table.

## Left out

- **Casing helpers.** `camel_case`, `pascal_case` and `swift_safe` come from
  `nameutils`, which is not part of this model. They are function-valued
  fields of `Nodes.External`, and every property holds for every choice of
  them.
- **`StructureType.get_swift_value`.** Its brace-stripping and comma-splitting
  of struct literals is the `structLiteral` field of `Nodes.External`. The
  model does not look inside it. That field is total, so the exceptions it can
  raise (a nested value that is not a string, an unknown `WGPU_` constant) are
  not modelled, and `Defaults.RenderLiteralFailures` lists the failures of the
  rest of the renderer only.
- **Conversion tokens.** The `typeconversion` module is not part of this
  model. Its strategies are opaque tokens of `Conversions.Strategy`.
- **Name builders.** These are left out because they only concatenate the
  casing helpers' output:
  - `Type.c_name` and `swift_name` appear only as `Nodes.CName` and
    `Nodes.SwiftName`;
  - `s_type`, `c_function_name`, `reference_method_name`,
    `release_method_name` and `FunctionType.swift_function_name`;
  - `Member.c_name`, `Member.swift_name` and `target_swift_name`.
- **`hide_first_arg_label`.** It is a boolean test on the raw method and
  first argument names that only the templates read; no other operation
  depends on it.
- **Python object identity.** Linking and pairing are modelled on values. The
  model does not capture the aliasing between a `Member` object and the
  sibling it points to, or that `link` mutates nodes in place.
- **Missing keys.**
  - A missing `category` key, a missing member `type` key or a missing `name`
    key is not modelled; every schema entry carries them.
  - A missing `values`, `members` or typedef `type` key is modelled.
- **Literals.**
  - JSON floating-point literals are not in `Schema.Literal`.
  - `str.lower` and `str.isdigit` are modelled on ASCII.
- **Defaults.HasDefaultInit / Defaults.DefaultSwiftValue** require
  `Defaults.Ranked`: a ranking in which a struct embedded by value has a lower
  rank than the struct embedding it. This excludes every cycle of by-value
  embedding, also one that the Python recursion would never follow, because
  an optional member, a member with a truthy default or a length field
  returns before recursing, and `has_default_swift_initializer` consults only
  the swift members. A C API cannot declare such a cycle. On one that the
  recursion does follow, Python raises `RecursionError`, which is not
  modelled.
- **Signatures.CType / Signatures.SwiftType / FunctionTypes.SwiftReturnType /
  Nodes.CName / Nodes.SwiftName** require the type to be linked and, for a
  native type, to be in the primitive table (`Nodes.HasNames`). Otherwise the
  source raises a `KeyError`, which the model does not represent for names and
  signatures. The lemmas about them, such as `Defaults.NativeLiteralRendering`
  and the `Signatures` lemmas, carry the same precondition.
- **Reading the schema file and rendering templates** are I/O outside this
  core.
