/** Expanding the strings of a configuration tree, pruning what came out nil, and merging trees. */
module ConfigTree {
  import opened Base
  import opened Values
  import opened Backticks

  // ---------------------------------------------------------------- expansion

  /** None is the error of some string leaf; which one depends on the order a map is walked in. */
  function ExpandString(lib: Library, env: Properties, s: Bytes): Option<Value> {
    match Meaning(lib, env, s)
    case Expanded(value) => Some(value)
    case Failed(_) => None
  }

  function ExpandAny(lib: Library, env: Properties, v: Value): Option<Value>
    decreases v
  {
    match v
    case Str(s) => ExpandString(lib, env, s)
    case Strings(strings) =>
      if exists i :: 0 <= i < |strings| && ExpandString(lib, env, strings[i]).None? then None
      else Some(List(seq(|strings|, i requires 0 <= i < |strings| && ExpandString(lib, env, strings[i]).Some? =>
                                      ExpandString(lib, env, strings[i]).value)))
    case List(items) =>
      if exists i :: 0 <= i < |items| && ExpandAny(lib, env, items[i]).None? then None
      else Some(List(seq(|items|, i requires 0 <= i < |items| && ExpandAny(lib, env, items[i]).Some? =>
                                    ExpandAny(lib, env, items[i]).value)))
    case Map(entries) =>
      if exists k :: k in entries && ExpandAny(lib, env, entries[k]).None? then None
      else Some(Map(map k | k in entries && ExpandAny(lib, env, entries[k]).value != Nil ::
                      ExpandAny(lib, env, entries[k]).value))
    case _ => Some(v)
  }

  /** A string expands to what it means, and a value that holds no string stays as it is. */
  lemma ExpandLeaf(lib: Library, env: Properties, v: Value)
    ensures v.Str? ==>
              match Meaning(lib, env, v.text)
              case Expanded(w) => ExpandAny(lib, env, v) == Some(w)
              case Failed(_) => ExpandAny(lib, env, v) == None
    ensures !v.Str? && !v.Strings? && !v.List? && !v.Map? ==> ExpandAny(lib, env, v) == Some(v)
  {
  }

  /** Every string that expansion evaluates. */
  ghost function StringLeaves(v: Value): set<Bytes>
    decreases v
  {
    match v
    case Str(s) => {s}
    case Strings(strings) => set i | 0 <= i < |strings| :: strings[i]
    case List(items) => set i, s | 0 <= i < |items| && s in StringLeaves(items[i]) :: s
    case Map(entries) => set k, s | k in entries && s in StringLeaves(entries[k]) :: s
    case _ => {}
  }

  ghost predicate SomeLeafFails(lib: Library, env: Properties, v: Value) {
    exists s :: s in StringLeaves(v) && ExpandString(lib, env, s).None?
  }

  ghost predicate FailsByLeaf(lib: Library, env: Properties, v: Value) {
    ExpandAny(lib, env, v).None? <==> SomeLeafFails(lib, env, v)
  }

  lemma StringsFail(lib: Library, env: Properties, v: Value)
    requires v.Strings?
    ensures FailsByLeaf(lib, env, v)
  {
    forall i | 0 <= i < |v.strings| ensures v.strings[i] in StringLeaves(v) {}
    if SomeLeafFails(lib, env, v) {
      var s :| s in StringLeaves(v) && ExpandString(lib, env, s).None?;
      var i :| 0 <= i < |v.strings| && v.strings[i] == s;
    }
  }

  lemma ListFails(lib: Library, env: Properties, v: Value)
    requires v.List? && forall i :: 0 <= i < |v.items| ==> FailsByLeaf(lib, env, v.items[i])
    ensures FailsByLeaf(lib, env, v)
  {
    if i :| 0 <= i < |v.items| && ExpandAny(lib, env, v.items[i]).None? {
      assert SomeLeafFails(lib, env, v.items[i]);
      var s :| s in StringLeaves(v.items[i]) && ExpandString(lib, env, s).None?;
      assert s in StringLeaves(v);
    }
  }

  lemma MapFails(lib: Library, env: Properties, v: Value)
    requires v.Map? && forall k :: k in v.entries ==> FailsByLeaf(lib, env, v.entries[k])
    ensures FailsByLeaf(lib, env, v)
  {
    if k :| k in v.entries && ExpandAny(lib, env, v.entries[k]).None? {
      assert SomeLeafFails(lib, env, v.entries[k]);
      var s :| s in StringLeaves(v.entries[k]) && ExpandString(lib, env, s).None?;
      assert s in StringLeaves(v);
    }
  }

  /** Expansion fails exactly when some string leaf fails, however maps are ordered. */
  lemma {:induction false} ExpandFailsExactly(lib: Library, env: Properties, v: Value)
    ensures ExpandAny(lib, env, v).None? <==> SomeLeafFails(lib, env, v)
    decreases v
  {
    match v
    case Str(s) =>
      assert s in StringLeaves(v);
    case Strings(strings) =>
      StringsFail(lib, env, v);
    case List(items) =>
      forall i | 0 <= i < |items| ensures FailsByLeaf(lib, env, items[i]) {
        ExpandFailsExactly(lib, env, items[i]);
      }
      ListFails(lib, env, v);
    case Map(entries) =>
      forall k | k in entries ensures FailsByLeaf(lib, env, entries[k]) {
        ExpandFailsExactly(lib, env, entries[k]);
      }
      MapFails(lib, env, v);
    case _ =>
  }

  /** One hop down a configuration tree. */
  datatype Hop = Key(key: Bytes) | Index(index: nat)

  /** The node at an address, with nil for an address that leads nowhere. */
  function At(v: Value, address: seq<Hop>): Value
    decreases |address|
  {
    if |address| == 0 then v
    else At(Down(v, address[0]), address[1..])
  }

  function Down(v: Value, hop: Hop): Value {
    match (v, hop)
    case (Map(entries), Key(k)) => if k in entries then entries[k] else Nil
    case (List(items), Index(i)) => if i < |items| then items[i] else Nil
    case (Strings(strings), Index(i)) => if i < |strings| then Str(strings[i]) else Nil
    case _ => Nil
  }

  /** The address leads through lists and maps of v itself. */
  predicate Leads(v: Value, address: seq<Hop>)
    decreases |address|
  {
    || |address| == 0
    || (&& (v.Map? || v.List? || v.Strings?)
        && Leads(Down(v, address[0]), address[1..]))
  }

  lemma ExpandDown(lib: Library, env: Properties, v: Value, hop: Hop)
    requires ExpandAny(lib, env, v).Some? && (v.Map? || v.List? || v.Strings?)
    ensures ExpandAny(lib, env, Down(v, hop)) == Some(Down(ExpandAny(lib, env, v).value, hop))
  {
  }

  /**
   Expansion keeps every address: what stands there afterwards is the expansion of what stood
   there before, list items in place and map entries that expand to nil dropped.
   */
  lemma {:induction false} ExpandAt(lib: Library, env: Properties, v: Value, address: seq<Hop>)
    requires ExpandAny(lib, env, v).Some? && Leads(v, address)
    ensures ExpandAny(lib, env, At(v, address)) == Some(At(ExpandAny(lib, env, v).value, address))
    decreases |address|
  {
    if |address| == 0 {
    } else {
      ExpandDown(lib, env, v, address[0]);
      ExpandAt(lib, env, Down(v, address[0]), address[1..]);
    }
  }

  lemma ExpandShape(lib: Library, env: Properties, v: Value)
    requires ExpandAny(lib, env, v).Some?
    ensures var w := ExpandAny(lib, env, v).value;
            && (v.Map? ==> w.Map? && w.entries.Keys <= v.entries.Keys && Nil !in w.entries.Values)
            && (v.List? ==> w.List? && |w.items| == |v.items|)
            && (v.Strings? ==> w.List? && |w.items| == |v.strings|)
  {
  }

  function ExpandConfig(lib: Library, env: Properties, config: map<Bytes, Value>): (r: Option<map<Bytes, Value>>)
    ensures r.Some? ==> r.value.Keys <= config.Keys && Nil !in r.value.Values
  {
    match ExpandAny(lib, env, Map(config))
    case None => None
    case Some(expanded) => Some(expanded.entries)
  }

  // ---------------------------------------------------------------- pruning

  /** Drops nil values and nested maps with nothing left in them. */
  function Prune(v: Value): (r: Value)
    requires v.Map?
    ensures r.Map? && r.entries.Keys <= v.entries.Keys
    decreases v
  {
    Map(map k | k in v.entries && v.entries[k] != Nil && (v.entries[k].Map? ==> Prune(v.entries[k]) != Map(map[])) ::
          if v.entries[k].Map? then Prune(v.entries[k]) else v.entries[k])
  }

  function RemoveNilValuesFromMap(m: map<Bytes, Value>): map<Bytes, Value> {
    Prune(Map(m)).entries
  }

  /** The node a run of map keys leads to, if they all lead through maps. */
  function Below(v: Value, keys: seq<Bytes>): Option<Value>
    decreases |keys|
  {
    if |keys| == 0 then Some(v)
    else if v.Map? && keys[0] in v.entries then Below(v.entries[keys[0]], keys[1..])
    else None
  }

  predicate Leaf(v: Option<Value>) {
    v.Some? && v.value != Nil && !v.value.Map?
  }

  /** Exactly the non-nil values that are not maps are kept, each at its own path. */
  lemma {:induction false} PruneKeepsLeaves(v: Value, keys: seq<Bytes>)
    requires v.Map? && |keys| > 0
    ensures Leaf(Below(v, keys)) || Leaf(Below(Prune(v), keys)) ==> Below(Prune(v), keys) == Below(v, keys)
    decreases |keys|
  {
    var k := keys[0];
    if k in v.entries && |keys| > 1 {
      var below := v.entries[k];
      if below.Map? {
        PruneKeepsLeaves(below, keys[1..]);
        if Prune(below) == Map(map[]) {
          assert Below(Prune(below), keys[1..]) == None;
        }
      }
    }
  }

  /** What pruning leaves of a map that it does not empty has a leaf of the map below it. */
  lemma {:induction false} LeafBelow(v: Value) returns (keys: seq<Bytes>)
    requires v.Map? && Prune(v) != Map(map[])
    ensures |keys| > 0 && Leaf(Below(v, keys))
    decreases v
  {
    assert Prune(v).entries != map[];
    var k :| k in Prune(v).entries;
    var below := v.entries[k];
    if below.Map? {
      var more := LeafBelow(below);
      keys := [k] + more;
      assert keys[1..] == more;
    } else {
      keys := [k];
    }
  }

  /** Nothing nil and no empty map is left along map keys. */
  lemma {:induction false} PruneLeavesNothingEmpty(v: Value, keys: seq<Bytes>)
    requires v.Map? && |keys| > 0 && Below(Prune(v), keys).Some?
    ensures Below(Prune(v), keys).value != Nil && Below(Prune(v), keys).value != Map(map[])
    decreases |keys|
  {
    var below := v.entries[keys[0]];
    if |keys| == 1 {
      assert Below(Prune(v), keys) == Some(Prune(v).entries[keys[0]]);
    } else {
      PruneLeavesNothingEmpty(below, keys[1..]);
    }
  }

  lemma {:induction false} PruneIdempotent(v: Value)
    requires v.Map?
    ensures Prune(Prune(v)) == Prune(v)
    decreases v
  {
    var w := Prune(v);
    forall k | k in w.entries && w.entries[k].Map? ensures Prune(w.entries[k]) == w.entries[k] {
      PruneIdempotent(v.entries[k]);
    }
    assert Prune(w).entries == w.entries;
  }

  // ---------------------------------------------------------------- merging

  /** Merges b over a: maps key by key, anything else replaced. */
  function DeepMerge(a: Value, b: Value): (r: Value)
    ensures a.Map? && b.Map? ==> r.Map?
    decreases a
  {
    if a.Map? && b.Map? then
      Map(map k | k in a.entries.Keys + b.entries.Keys ::
            if k !in b.entries then a.entries[k]
            else if k !in a.entries then b.entries[k]
            else DeepMerge(a.entries[k], b.entries[k]))
    else b
  }

  function MergeMaps(a: map<Bytes, Value>, b: map<Bytes, Value>): map<Bytes, Value> {
    DeepMerge(Map(a), Map(b)).entries
  }

  /** Some key on the way leads to a value that is not a map. */
  predicate Blocks(v: Value, keys: seq<Bytes>)
    decreases |keys|
  {
    || !v.Map?
    || (|keys| > 0 && keys[0] in v.entries && Blocks(v.entries[keys[0]], keys[1..]))
  }

  /**
   A merge, path by path: what b has there wins, except that two maps are merged; where b has nothing,
   a's value stays, unless b has a value other than a map on the way.
   */
  lemma {:induction false} MergeBelow(a: Value, b: Value, keys: seq<Bytes>)
    requires a.Map? && b.Map?
    ensures Below(DeepMerge(a, b), keys) ==
            match (Below(a, keys), Below(b, keys))
            case (Some(v), Some(w)) => Some(if v.Map? && w.Map? then DeepMerge(v, w) else w)
            case (None, Some(w)) => Some(w)
            case (x, None) => if Blocks(b, keys) then None else x
    decreases |keys|
  {
    if |keys| == 0 {
    } else {
      var k := keys[0];
      if k in a.entries && k in b.entries {
        if a.entries[k].Map? && b.entries[k].Map? {
          MergeBelow(a.entries[k], b.entries[k], keys[1..]);
        }
      }
    }
  }
}
