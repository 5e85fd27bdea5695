/** `Model`: the registry of nodes built from a whole schema.  The first pass
    constructs a node for every entry that is public, enabled and of a known
    category; the second pass links every node, in insertion order, against
    the complete registry. */
module ModelBuild {
  import opened Util
  import opened Schema
  import opened Nodes
  import TagFilter
  import Construction
  import Linker

  /** `self.types`: a dict, so its keys in insertion order and the nodes. */
  datatype Registry = Registry(order: seq<string>, types: map<string, Node>)

  predicate WellFormed(r: Registry) {
    && (forall a, b :: 0 <= a < b < |r.order| ==> r.order[a] != r.order[b])
    && (forall key :: key in r.types ==> key in r.order)
    && (forall k :: 0 <= k < |r.order| ==> r.order[k] in r.types)
  }

  /** The two filters of the build loop: not private, and enabled. */
  predicate Admitted(name: string, raw: RawType, enabled: Option<set<string>>) {
    !StartsWith(name, "_") && TagFilter.IsEnabled(raw.tags, enabled)
  }

  /** A schema entry that gets a node: admitted, with a category that has a
      constructor. */
  predicate Registers(entry: (string, RawType), enabled: Option<set<string>>) {
    Admitted(entry.0, entry.1, enabled) && CategoryOfKey(entry.1.category).Some?
  }

  /** `self.types[name] = node`: a new key goes last, an existing key keeps its
      place. */
  function Insert(r: Registry, name: string, n: Node): Registry {
    Registry(if name in r.types then r.order else r.order + [name], r.types[name := n])
  }

  /** One iteration of the build loop. */
  function CollectStep(r: Registry, name: string, raw: RawType, enabled: Option<set<string>>): Result<Registry> {
    if !Admitted(name, raw, enabled) then Ok(r)
    else
      var n := Construction.NewNode(name, raw, enabled);
      if n.Err? then Err(n.fault)
      else if n.value.None? then Ok(r)
      else Ok(Insert(r, name, n.value.value))
  }

  /** The build loop over the schema entries in order; a constructor that
      raises stops it. */
  function Collect(data: seq<(string, RawType)>, enabled: Option<set<string>>): (r: Result<Registry>)
    ensures r.Ok? ==> WellFormed(r.value)
    decreases |data|
  {
    if data == [] then Ok(Registry([], map[]))
    else
      var r := Collect(data[..|data| - 1], enabled);
      if r.Err? then r else CollectStep(r.value, data[|data| - 1].0, data[|data| - 1].1, enabled)
  }

  /** The link loop over the first `n` registered nodes, each linked against
      the whole registry. */
  function LinkPrefix(r: Registry, n: nat): Result<map<string, Node>>
    requires WellFormed(r) && n <= |r.order|
  {
    if n == 0 then Ok(r.types)
    else
      var done := LinkPrefix(r, n - 1);
      if done.Err? then done
      else
        var key := r.order[n - 1];
        var linked := Linker.LinkNode(r.types.Keys, r.types[key]);
        if linked.Err? then Err(linked.fault) else Ok(done.value[key := linked.value])
  }

  /** The link pass keeps the keys and their order. */
  function LinkModel(r: Registry): (m: Result<Registry>)
    requires WellFormed(r)
    ensures m.Ok? ==> m.value.order == r.order && m.value.types.Keys == r.types.Keys && WellFormed(m.value)
  {
    LinkPrefixKeys(r, |r.order|);
    var t := LinkPrefix(r, |r.order|);
    if t.Err? then Err(t.fault) else Ok(Registry(r.order, t.value))
  }

  lemma {:induction false} LinkPrefixKeys(r: Registry, n: nat)
    requires WellFormed(r) && n <= |r.order|
    ensures LinkPrefix(r, n).Ok? ==> LinkPrefix(r, n).value.Keys == r.types.Keys
  {
    if n > 0 {
      LinkPrefixKeys(r, n - 1);
    }
  }

  /** `Model(data, enabled_tags)`: both passes. */
  function Build(data: seq<(string, RawType)>, enabled: Option<set<string>>): Result<Registry> {
    var r := Collect(data, enabled);
    if r.Err? then r else LinkModel(r.value)
  }

  /** `Model.__init__`: the build loop, then the link loop. */
  method BuildModel(data: seq<(string, RawType)>, enabled: Option<set<string>>) returns (r: Result<Registry>)
    ensures r == Build(data, enabled)
  {
    r := CollectEntries(data, enabled);
    if r.Ok? {
      r := LinkAll(r.value);
    }
  }

  /** The build loop of `Model.__init__`. */
  method CollectEntries(data: seq<(string, RawType)>, enabled: Option<set<string>>) returns (r: Result<Registry>)
    ensures r == Collect(data, enabled)
  {
    var reg := Registry([], map[]);
    var i := 0;
    while i < |data|
      invariant 0 <= i <= |data|
      invariant Collect(data[..i], enabled) == Ok(reg)
    {
      CollectSnoc(data, i, enabled);
      var next := CollectEntry(reg, data[i].0, data[i].1, enabled);
      if next.Err? {
        CollectFailureSticks(data, i + 1, enabled);
        return next;
      }
      reg := next.value;
      i := i + 1;
    }
    assert data[..i] == data;
    r := Ok(reg);
  }

  /** One iteration of the build loop: skip a private or disabled entry,
      otherwise run the constructor of its category and register the node. */
  method CollectEntry(reg: Registry, name: string, raw: RawType, enabled: Option<set<string>>) returns (r: Result<Registry>)
    ensures r == CollectStep(reg, name, raw, enabled)
  {
    if !StartsWith(name, "_") && TagFilter.IsEnabled(raw.tags, enabled) {
      var node := Construction.ConstructNode(name, raw, enabled);
      if node.Err? {
        return Err(node.fault);
      }
      if node.value.Some? {
        return Ok(Insert(reg, name, node.value.value));
      }
    }
    return Ok(reg);
  }

  /** The link loop of `Model.__init__`: `for type_ in self.types.values():
      type_.link(self.types)`. */
  method LinkAll(reg: Registry) returns (r: Result<Registry>)
    requires WellFormed(reg)
    ensures r == LinkModel(reg)
  {
    var types := reg.types;
    var j := 0;
    while j < |reg.order|
      invariant 0 <= j <= |reg.order|
      invariant LinkPrefix(reg, j) == Ok(types)
    {
      var key := reg.order[j];
      var linked := Linker.LinkNodeLoop(reg.types.Keys, reg.types[key]);
      if linked.Err? {
        LinkFailureSticks(reg, j + 1);
        return Err(linked.fault);
      }
      types := types[key := linked.value];
      j := j + 1;
    }
    r := Ok(Registry(reg.order, types));
  }

  /** The build loop over one more entry. */
  lemma CollectSnoc(data: seq<(string, RawType)>, i: nat, enabled: Option<set<string>>)
    requires i < |data|
    ensures Collect(data[..i + 1], enabled) ==
            (var r := Collect(data[..i], enabled); if r.Err? then r else CollectStep(r.value, data[i].0, data[i].1, enabled))
  {
    assert data[..i + 1][..i] == data[..i];
  }

  lemma {:induction false} CollectFailureSticks(data: seq<(string, RawType)>, i: nat, enabled: Option<set<string>>)
    requires i <= |data| && Collect(data[..i], enabled).Err?
    ensures Collect(data, enabled) == Collect(data[..i], enabled)
    decreases |data| - i
  {
    if i < |data| {
      assert data[..i + 1][..i] == data[..i];
      CollectFailureSticks(data, i + 1, enabled);
    } else {
      assert data[..i] == data;
    }
  }

  lemma {:induction false} LinkFailureSticks(r: Registry, j: nat)
    requires WellFormed(r) && j <= |r.order| && LinkPrefix(r, j).Err?
    ensures LinkPrefix(r, |r.order|) == LinkPrefix(r, j)
    decreases |r.order| - j
  {
    if j < |r.order| {
      LinkFailureSticks(r, j + 1);
    }
  }

  /** An entry whose constructor, if it runs, does not raise. */
  predicate Constructible(entry: (string, RawType), enabled: Option<set<string>>) {
    Admitted(entry.0, entry.1, enabled) ==> Construction.NewNode(entry.0, entry.1, enabled).Ok?
  }

  lemma CollectStepOk(r: Registry, entry: (string, RawType), enabled: Option<set<string>>)
    ensures CollectStep(r, entry.0, entry.1, enabled).Ok? <==> Constructible(entry, enabled)
  {
  }

  predicate AllConstructible(data: seq<(string, RawType)>, enabled: Option<set<string>>) {
    forall i :: 0 <= i < |data| ==> Constructible(data[i], enabled)
  }

  lemma AllConstructibleSnoc(data: seq<(string, RawType)>, enabled: Option<set<string>>)
    requires data != []
    ensures AllConstructible(data, enabled) <==>
            AllConstructible(data[..|data| - 1], enabled) && Constructible(data[|data| - 1], enabled)
  {
    var init := data[..|data| - 1];
    assert forall i :: 0 <= i < |init| ==> init[i] == data[i];
  }

  /** The first pass fails iff the constructor of some admitted entry raises. */
  lemma {:induction false} CollectFailsIff(data: seq<(string, RawType)>, enabled: Option<set<string>>)
    ensures Collect(data, enabled).Ok? <==> AllConstructible(data, enabled)
    decreases |data|
  {
    if data != [] {
      var init := data[..|data| - 1];
      var last := data[|data| - 1];
      CollectFailsIff(init, enabled);
      AllConstructibleSnoc(data, enabled);
      if Collect(init, enabled).Ok? {
        assert Collect(data, enabled) == CollectStep(Collect(init, enabled).value, last.0, last.1, enabled);
        CollectStepOk(Collect(init, enabled).value, last, enabled);
      }
    }
  }

  /** One iteration of the build loop binds the entry's name to its node
      when the entry registers, and changes nothing otherwise. */
  lemma CollectStepEffect(r: Registry, entry: (string, RawType), enabled: Option<set<string>>)
    requires CollectStep(r, entry.0, entry.1, enabled).Ok?
    ensures var t := CollectStep(r, entry.0, entry.1, enabled).value.types;
            var n := Construction.NewNode(entry.0, entry.1, enabled);
            if Registers(entry, enabled) then n.Ok? && n.value.Some? && t == r.types[entry.0 := n.value.value]
            else t == r.types
  {
    Construction.NewNodeCategory(entry.0, entry.1, enabled);
  }

  /** Some entry named `key` registers. */
  predicate NamedByRegistering(data: seq<(string, RawType)>, enabled: Option<set<string>>, key: string) {
    exists i :: 0 <= i < |data| && data[i].0 == key && Registers(data[i], enabled)
  }

  lemma NamedByRegisteringSnoc(data: seq<(string, RawType)>, enabled: Option<set<string>>, key: string)
    requires data != []
    ensures NamedByRegistering(data, enabled, key) <==>
            NamedByRegistering(data[..|data| - 1], enabled, key)
            || (data[|data| - 1].0 == key && Registers(data[|data| - 1], enabled))
  {
    var init := data[..|data| - 1];
    if NamedByRegistering(data, enabled, key) {
      var i :| 0 <= i < |data| && data[i].0 == key && Registers(data[i], enabled);
      if i < |init| { assert init[i] == data[i]; }
    }
    if NamedByRegistering(init, enabled, key) {
      var i :| 0 <= i < |init| && init[i].0 == key && Registers(init[i], enabled);
      assert data[i] == init[i];
    }
  }

  /** After the first pass the registry holds exactly the names of the
      entries that register. */
  lemma {:induction false} CollectKeys(data: seq<(string, RawType)>, enabled: Option<set<string>>)
    requires Collect(data, enabled).Ok?
    ensures forall key :: key in Collect(data, enabled).value.types <==> NamedByRegistering(data, enabled, key)
    decreases |data|
  {
    if data != [] {
      var init := data[..|data| - 1];
      var last := data[|data| - 1];
      assert Collect(init, enabled).Ok?;
      CollectKeys(init, enabled);
      assert Collect(data, enabled) == CollectStep(Collect(init, enabled).value, last.0, last.1, enabled);
      CollectStepEffect(Collect(init, enabled).value, last, enabled);
      forall key
        ensures key in Collect(data, enabled).value.types <==> NamedByRegistering(data, enabled, key)
      {
        NamedByRegisteringSnoc(data, enabled, key);
      }
    }
  }

  /** Entry `i` is the last entry named `key` that registers. */
  predicate LastRegistering(data: seq<(string, RawType)>, enabled: Option<set<string>>, key: string, i: int) {
    && 0 <= i < |data| && data[i].0 == key && Registers(data[i], enabled)
    && forall j :: i < j < |data| && data[j].0 == key ==> !Registers(data[j], enabled)
  }

  /** Appending an entry that does not register under `key` keeps the last
      registering entry of `key`. */
  lemma LastRegisteringExtends(data: seq<(string, RawType)>, enabled: Option<set<string>>, key: string, i: int)
    requires data != [] && LastRegistering(data[..|data| - 1], enabled, key, i)
    requires !(data[|data| - 1].0 == key && Registers(data[|data| - 1], enabled))
    ensures LastRegistering(data, enabled, key, i)
  {
    var init := data[..|data| - 1];
    assert data[i] == init[i];
    forall j | i < j < |data| && data[j].0 == key ensures !Registers(data[j], enabled) {
      if j < |init| { assert data[j] == init[j]; }
    }
  }

  /** Each name is bound to the node built from the last entry of that name
      that registers: a later duplicate entry overwrites an earlier one. */
  lemma {:induction false} CollectLastWins(data: seq<(string, RawType)>, enabled: Option<set<string>>, key: string)
    requires Collect(data, enabled).Ok? && key in Collect(data, enabled).value.types
    ensures exists i :: && LastRegistering(data, enabled, key, i)
                        && Construction.NewNode(key, data[i].1, enabled) == Ok(Some(Collect(data, enabled).value.types[key]))
    decreases |data|
  {
    var init := data[..|data| - 1];
    var last := data[|data| - 1];
    assert Collect(init, enabled).Ok?;
    var before := Collect(init, enabled).value;
    assert Collect(data, enabled) == CollectStep(before, last.0, last.1, enabled);
    CollectStepEffect(before, last, enabled);
    if last.0 == key && Registers(last, enabled) {
      assert LastRegistering(data, enabled, key, |data| - 1);
    } else {
      assert key in before.types;
      CollectLastWins(init, enabled, key);
      var i :| && LastRegistering(init, enabled, key, i)
               && Construction.NewNode(key, init[i].1, enabled) == Ok(Some(before.types[key]));
      LastRegisteringExtends(data, enabled, key, i);
      assert data[i] == init[i];
    }
  }

  /** The link pass over the first `n` nodes fails iff linking one of them
      fails. */
  lemma {:induction false} LinkPrefixOk(r: Registry, n: nat)
    requires WellFormed(r) && n <= |r.order|
    ensures LinkPrefix(r, n).Ok? <==>
            forall j :: 0 <= j < n ==> Linker.LinkNode(r.types.Keys, r.types[r.order[j]]).Ok?
  {
    if n > 0 {
      LinkPrefixOk(r, n - 1);
    }
  }

  /** After a successful link pass over the first `n` nodes, exactly those
      nodes are replaced by their linked form, each linked against the whole
      registry, and the rest are untouched. */
  lemma {:induction false} LinkPrefixValue(r: Registry, n: nat)
    requires WellFormed(r) && n <= |r.order| && LinkPrefix(r, n).Ok?
    ensures forall key :: key in LinkPrefix(r, n).value <==> key in r.types
    ensures forall j :: 0 <= j < n ==>
              Linker.LinkNode(r.types.Keys, r.types[r.order[j]]) == Ok(LinkPrefix(r, n).value[r.order[j]])
    ensures forall j :: n <= j < |r.order| ==> LinkPrefix(r, n).value[r.order[j]] == r.types[r.order[j]]
  {
    if n > 0 {
      var key := r.order[n - 1];
      var prev := LinkPrefix(r, n - 1);
      assert prev.Ok?;
      LinkPrefixValue(r, n - 1);
      var linked := Linker.LinkNode(r.types.Keys, r.types[key]);
      assert linked.Ok?;
      var t := prev.value[key := linked.value];
      assert LinkPrefix(r, n) == Ok(t);
      forall j | 0 <= j < n - 1
        ensures Linker.LinkNode(r.types.Keys, r.types[r.order[j]]) == Ok(t[r.order[j]])
      {
        assert r.order[j] != key;
      }
      forall j | n <= j < |r.order| ensures t[r.order[j]] == r.types[r.order[j]] {
        assert r.order[n - 1] != r.order[j];
      }
    }
  }

  /** The link pass links every registered node exactly as `link` does on
      its own, against the complete registry; it fails iff some node cannot
      be linked. */
  lemma LinkModelSpec(r: Registry)
    requires WellFormed(r)
    ensures LinkModel(r).Ok? <==> forall key :: key in r.types ==> Linker.LinkNode(r.types.Keys, r.types[key]).Ok?
    ensures LinkModel(r).Ok? ==>
            && LinkModel(r).value.order == r.order
            && LinkModel(r).value.types.Keys == r.types.Keys
            && forall key :: key in r.types ==> Linker.LinkNode(r.types.Keys, r.types[key]) == Ok(LinkModel(r).value.types[key])
  {
    LinkPrefixOk(r, |r.order|);
    if LinkPrefix(r, |r.order|).Ok? {
      LinkPrefixValue(r, |r.order|);
    }
    forall key | key in r.types ensures exists j :: 0 <= j < |r.order| && r.order[j] == key {
      assert key in r.order;
    }
  }

  /** Linking a linked registry again changes nothing, provided no node
      holds a reference to an unregistered name before linking. */
  lemma LinkModelIdempotent(r: Registry)
    requires WellFormed(r) && LinkModel(r).Ok?
    requires forall key :: key in r.types ==> Linker.Linkable(r.types.Keys, r.types[key])
    ensures LinkModel(LinkModel(r).value) == LinkModel(r)
  {
    var m := LinkModel(r).value;
    LinkModelSpec(r);
    LinkModelSpec(m);
    forall key | key in m.types ensures Linker.LinkNode(m.types.Keys, m.types[key]) == Ok(m.types[key]) {
      Linker.LinkNodeIdempotent(r.types.Keys, r.types[key]);
    }
    assert LinkModel(m).value.types == m.types;
  }

  /** Entry `i` registers `x`, and no entry up to it registers `y`. */
  predicate RegistersBefore(data: seq<(string, RawType)>, enabled: Option<set<string>>, x: string, y: string) {
    exists i :: 0 <= i < |data| && data[i].0 == x && Registers(data[i], enabled) && !NamedByRegistering(data[..i + 1], enabled, y)
  }

  lemma NamedByRegisteringPrefix(data: seq<(string, RawType)>, enabled: Option<set<string>>, key: string, n: nat)
    requires n <= |data|
    ensures NamedByRegistering(data[..n], enabled, key) ==> NamedByRegistering(data, enabled, key)
  {
    if NamedByRegistering(data[..n], enabled, key) {
      var i :| 0 <= i < n && data[..n][i].0 == key && Registers(data[..n][i], enabled);
      assert data[i] == data[..n][i];
    }
  }

  /** Appending an entry keeps every "registers before" fact. */
  lemma RegistersBeforeSnoc(data: seq<(string, RawType)>, enabled: Option<set<string>>, x: string, y: string)
    requires data != [] && RegistersBefore(data[..|data| - 1], enabled, x, y)
    ensures RegistersBefore(data, enabled, x, y)
  {
    var init := data[..|data| - 1];
    var i :| 0 <= i < |init| && init[i].0 == x && Registers(init[i], enabled)
             && !NamedByRegistering(init[..i + 1], enabled, y);
    assert data[i] == init[i] && data[..i + 1] == init[..i + 1];
  }

  /** A name registered before the last entry registers before a name that
      only the last entry registers. */
  lemma RegistersBeforeNew(data: seq<(string, RawType)>, enabled: Option<set<string>>, x: string)
    requires data != []
    requires NamedByRegistering(data[..|data| - 1], enabled, x)
    requires !NamedByRegistering(data[..|data| - 1], enabled, data[|data| - 1].0)
    ensures RegistersBefore(data, enabled, x, data[|data| - 1].0)
  {
    var init := data[..|data| - 1];
    var i :| 0 <= i < |init| && init[i].0 == x && Registers(init[i], enabled);
    assert data[i] == init[i] && data[..i + 1] == init[..i + 1];
    NamedByRegisteringPrefix(init, enabled, data[|data| - 1].0, i + 1);
  }

  /** One iteration of the build loop appends the entry's name to the order
      iff the entry registers under a name not yet present. */
  lemma CollectStepOrder(r: Registry, entry: (string, RawType), enabled: Option<set<string>>)
    requires CollectStep(r, entry.0, entry.1, enabled).Ok?
    ensures CollectStep(r, entry.0, entry.1, enabled).value.order ==
            if Registers(entry, enabled) && entry.0 !in r.types then r.order + [entry.0] else r.order
  {
    Construction.NewNodeCategory(entry.0, entry.1, enabled);
  }

  /** The insertion order of the first pass: of two registered names, the
      earlier one registers at an entry before any entry registers the later
      one, so each name keeps the place of its first registering entry. */
  lemma {:induction false} CollectOrder(data: seq<(string, RawType)>, enabled: Option<set<string>>)
    requires Collect(data, enabled).Ok?
    ensures var order := Collect(data, enabled).value.order;
            forall a, b :: 0 <= a < b < |order| ==> RegistersBefore(data, enabled, order[a], order[b])
    decreases |data|
  {
    if data != [] {
      var init := data[..|data| - 1];
      var last := data[|data| - 1];
      assert Collect(init, enabled).Ok?;
      var c := Collect(init, enabled).value;
      CollectOrder(init, enabled);
      CollectKeys(init, enabled);
      assert Collect(data, enabled) == CollectStep(c, last.0, last.1, enabled);
      CollectStepOrder(c, last, enabled);
      var order := Collect(data, enabled).value.order;
      forall a, b | 0 <= a < b < |order| ensures RegistersBefore(data, enabled, order[a], order[b]) {
        assert order[a] == c.order[a] && c.order[a] in c.types;
        if b < |c.order| {
          assert order[b] == c.order[b];
          RegistersBeforeSnoc(data, enabled, c.order[a], c.order[b]);
        } else {
          assert order[b] == last.0 && last.0 !in c.types;
          RegistersBeforeNew(data, enabled, c.order[a]);
        }
      }
    }
  }

  /** The order of a built registry (`self.types.values()`, and so
      `types_by_category`): each registering name once, ordered by its first
      registering entry. */
  lemma BuildOrder(data: seq<(string, RawType)>, enabled: Option<set<string>>)
    requires Build(data, enabled).Ok?
    ensures var order := Build(data, enabled).value.order;
            && (forall a, b :: 0 <= a < b < |order| ==> order[a] != order[b])
            && (forall key :: key in order <==> NamedByRegistering(data, enabled, key))
            && (forall a, b :: 0 <= a < b < |order| ==> RegistersBefore(data, enabled, order[a], order[b]))
  {
    var c := Collect(data, enabled).value;
    CollectKeys(data, enabled);
    CollectOrder(data, enabled);
    assert Build(data, enabled).value.order == c.order;
  }

  /** A registered node of a successful build: its key is its name, its
      category is the one its entry names, and every reference it holds is a
      registry key. */
  predicate BuiltNode(keys: set<string>, key: string, n: Node) {
    n.name == key && Linker.Resolved(keys, n) && ReadyForClassification(keys, n)
  }

  /** The preconditions of the per-member classification hold for every
      member list of the node. */
  predicate ReadyForClassification(keys: set<string>, n: Node) {
    match n.body
    case StructBody(ms, _, _) => MembersLinked(keys, ms)
    case FunctionBody(_, sig) => MembersLinked(keys, sig.args)
    case ObjectBody(methods) => forall k :: 0 <= k < |methods| ==> MembersLinked(keys, methods[k].sig.args)
    case _ => true
  }

  lemma LinkedMembersReady(keys: set<string>, ms: seq<Member>)
    requires Construction.PairsInRange(ms) && Linker.LinkMembers(keys, ms).Ok?
    ensures MembersLinked(keys, Linker.LinkMembers(keys, ms).value)
  {
    Linker.LinkMembersSpec(keys, ms);
  }

  /** Linking a freshly constructed node yields a built node. */
  lemma LinkedFreshNodeIsBuilt(keys: set<string>, key: string, n: Node)
    requires Construction.Fresh(n) && n.name == key && Linker.LinkNode(keys, n).Ok?
    ensures BuiltNode(keys, key, Linker.LinkNode(keys, n).value)
    ensures CategoryOf(Linker.LinkNode(keys, n).value) == CategoryOf(n)
  {
    Linker.LinkNodeSpec(keys, n);
    var l := Linker.LinkNode(keys, n).value;
    match n.body
    case StructBody(ms, _, _) => LinkedMembersReady(keys, ms);
    case FunctionBody(_, sig) =>
      Linker.LinkSignatureSpec(keys, sig);
      LinkedMembersReady(keys, sig.args);
    case ObjectBody(methods) =>
      Linker.LinkMethodsSpec(keys, methods);
      forall k | 0 <= k < |methods| ensures MembersLinked(keys, l.body.methods[k].sig.args) {
        Linker.LinkSignatureSpec(keys, methods[k].sig);
        LinkedMembersReady(keys, methods[k].sig.args);
      }
    case _ =>
  }

  /** A successful build registers exactly the entries that are public,
      enabled and of a known category; every node sits under its own name,
      has the category its entry names, and is fully linked, so that every
      registry lookup the classification makes succeeds. */
  lemma BuildSpec(data: seq<(string, RawType)>, enabled: Option<set<string>>)
    requires Build(data, enabled).Ok?
    ensures var m := Build(data, enabled).value;
            && WellFormed(m)
            && (forall key :: key in m.types <==>
                  exists i :: 0 <= i < |data| && data[i].0 == key && Registers(data[i], enabled))
            && (forall key :: key in m.types ==>
                  && BuiltNode(m.types.Keys, key, m.types[key])
                  && exists i :: 0 <= i < |data| && data[i].0 == key && Registers(data[i], enabled)
                                && CategoryOfKey(data[i].1.category) == Some(CategoryOf(m.types[key])))
  {
    var c := Collect(data, enabled).value;
    CollectKeys(data, enabled);
    LinkModelSpec(c);
    var m := Build(data, enabled).value;
    forall key | key in m.types
      ensures BuiltNode(m.types.Keys, key, m.types[key])
      ensures exists i :: 0 <= i < |data| && data[i].0 == key && Registers(data[i], enabled)
                          && CategoryOfKey(data[i].1.category) == Some(CategoryOf(m.types[key]))
    {
      CollectLastWins(data, enabled, key);
      var i :| LastRegistering(data, enabled, key, i)
               && Construction.NewNode(key, data[i].1, enabled) == Ok(Some(c.types[key]));
      Construction.NewNodeCategory(key, data[i].1, enabled);
      LinkedFreshNodeIsBuilt(c.types.Keys, key, c.types[key]);
    }
  }

  /** The build fails iff some admitted entry cannot be constructed, or some
      constructed node names a type that is not registered. */
  lemma BuildFailsIff(data: seq<(string, RawType)>, enabled: Option<set<string>>)
    ensures Build(data, enabled).Ok? <==>
            && Collect(data, enabled).Ok?
            && forall key :: key in Collect(data, enabled).value.types ==>
                 Linker.Resolvable(Collect(data, enabled).value.types.Keys, Collect(data, enabled).value.types[key])
  {
    if Collect(data, enabled).Ok? {
      var c := Collect(data, enabled).value;
      CollectKeys(data, enabled);
      LinkModelSpec(c);
      forall key | key in c.types
        ensures Linker.LinkNode(c.types.Keys, c.types[key]).Ok? <==> Linker.Resolvable(c.types.Keys, c.types[key])
      {
        CollectLastWins(data, enabled, key);
        var i :| LastRegistering(data, enabled, key, i)
                 && Construction.NewNode(key, data[i].1, enabled) == Ok(Some(c.types[key]));
        Construction.NewNodeCategory(key, data[i].1, enabled);
        Linker.LinkNodeSpec(c.types.Keys, c.types[key]);
      }
    }
  }

  /** Linking a built model again is a no-op. */
  lemma RelinkBuiltIsNoOp(data: seq<(string, RawType)>, enabled: Option<set<string>>)
    requires Build(data, enabled).Ok?
    ensures LinkModel(Build(data, enabled).value) == Build(data, enabled)
  {
    var c := Collect(data, enabled).value;
    CollectKeys(data, enabled);
    forall key | key in c.types ensures Linker.Linkable(c.types.Keys, c.types[key]) {
      CollectLastWins(data, enabled, key);
      var i :| LastRegistering(data, enabled, key, i)
               && Construction.NewNode(key, data[i].1, enabled) == Ok(Some(c.types[key]));
      Construction.NewNodeCategory(key, data[i].1, enabled);
    }
    LinkModelIdempotent(c);
  }

  /** The registered nodes in insertion order (`self.types.values()`). */
  function Values(m: Registry): seq<Node>
    requires WellFormed(m)
  {
    seq(|m.order|, k requires 0 <= k < |m.order| => m.types[m.order[k]])
  }

  function HasCategory(category: string): Node -> bool {
    (n: Node) => CategoryName(CategoryOf(n)) == category
  }

  /** `types_by_category(category)` */
  function TypesByCategory(m: Registry, category: string): seq<Node>
    requires WellFormed(m)
  {
    Filter(Values(m), HasCategory(category))
  }

  lemma HasCategoryIff(category: string, n: Node)
    ensures HasCategory(category)(n) <==> CategoryOfKey(category) == Some(CategoryOf(n))
  {
    CategoryNameRoundTrip(CategoryOf(n), category);
  }

  /** The nodes of one category are exactly the registered nodes whose entry
      names that category. */
  lemma TypesByCategorySpec(m: Registry, category: string)
    requires WellFormed(m)
    ensures forall key :: key in m.types ==>
              (m.types[key] in TypesByCategory(m, category) <==> CategoryOfKey(category) == Some(CategoryOf(m.types[key])))
    ensures forall n :: n in TypesByCategory(m, category) ==>
              CategoryOfKey(category) == Some(CategoryOf(n)) && exists key :: key in m.types && m.types[key] == n
  {
    var vs := Values(m);
    forall key | key in m.types
      ensures m.types[key] in vs
      ensures m.types[key] in TypesByCategory(m, category) <==> CategoryOfKey(category) == Some(CategoryOf(m.types[key]))
    {
      var k :| 0 <= k < |m.order| && m.order[k] == key;
      assert vs[k] == m.types[key];
      HasCategoryIff(category, m.types[key]);
    }
    forall n | n in TypesByCategory(m, category)
      ensures CategoryOfKey(category) == Some(CategoryOf(n))
      ensures exists key :: key in m.types && m.types[key] == n
    {
      HasCategoryIff(category, n);
      var k :| 0 <= k < |vs| && vs[k] == n;
      assert m.order[k] in m.types;
    }
  }

  /** A string that names no category selects nothing. */
  lemma UnknownCategorySelectsNothing(m: Registry, category: string)
    requires WellFormed(m) && CategoryOfKey(category).None?
    ensures TypesByCategory(m, category) == []
  {
    var vs := Values(m);
    forall k | 0 <= k < |vs| ensures !HasCategory(category)(vs[k]) {
      HasCategoryIff(category, vs[k]);
    }
  }
}
