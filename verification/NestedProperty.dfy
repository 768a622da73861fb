/** Looking up a property by path, and which nodes of a property tree a path can name. */
module NestedProperty {
  import opened Base
  import opened PropertyPath
  import opened Values

  /** What a key leads to. A label that is present and empty is not the same as an absent one. */
  function Child(v: Value, key: Bytes): Value {
    match v
    case Map(entries) => if key in entries then entries[key] else Nil
    case StringMap(labels) => if key in labels then Str(labels[key]) else Nil
    case Env(env) => if key in env then env[key] else Nil
    case _ => Nil
  }

  function Walk(v: Value, keys: seq<Bytes>): Value
    decreases |keys|
  {
    if |keys| == 0 then v else Walk(Child(v, keys[0]), keys[1..])
  }

  /** The property a path names: the structural walk along the keys it spells. */
  ghost function PropertyAt(properties: Properties, path: Bytes): Value {
    match PathKeys(path)
    case None => Nil
    case Some(keys) => Walk(Map(properties), keys)
  }

  lemma {:induction false} NothingBelowNil(keys: seq<Bytes>)
    ensures Walk(Nil, keys) == Nil
  {
    if |keys| == 0 {
    } else {
      NothingBelowNil(keys[1..]);
    }
  }

  method GetNestedProperty(properties: Properties, path: Bytes) returns (r: Value)
    ensures r == PropertyAt(properties, path)
  {
    var parts := ParsePropertyPath(path);
    if parts.None? {
      return Nil;
    }
    var keys := parts.value;
    var current := Map(properties);
    var n := 0;
    assert keys[0..] == keys;
    while n < |keys|
      invariant n <= |keys|
      invariant Walk(Map(properties), keys) == Walk(current, keys[n..])
      decreases |keys| - n
    {
      var part := keys[n];
      assert keys[n..][1..] == keys[n + 1..];
      NothingBelowNil(keys[n + 1..]);
      match current {
        case Map(entries) =>
          current := if part in entries then entries[part] else Nil;
        case StringMap(labels) =>
          if part !in labels {
            return Nil;
          }
          current := Str(labels[part]);
        case Env(env) =>
          current := if part in env then env[part] else Nil;
        case _ =>
          return Nil;
      }
      if current == Nil {
        return Nil;
      }
      n := n + 1;
    }
    return current;
  }

  // ---------------------------------------------------------------- what a path leads to

  lemma {:induction false} WalkSnoc(v: Value, keys: seq<Bytes>, key: Bytes)
    ensures Walk(v, keys + [key]) == Child(Walk(v, keys), key)
    decreases |keys|
  {
    if |keys| == 0 {
      assert keys + [key] == [key] && [key][1..] == [];
    } else {
      WalkSnoc(Child(v, keys[0]), keys[1..], key);
      assert (keys + [key])[1..] == keys[1..] + [key];
    }
  }

  /** A path of one key leads to the property of that name, and to nil when there is none. */
  lemma PropertyOfKey(properties: Properties, a: Bytes)
    requires |a| > 0 && BareKey(a)
    ensures PropertyAt(properties, Print([Bare(a)])) == if a in properties then properties[a] else Nil
  {
    PathKeysOfPrint([Bare(a)]);
    assert Keys([Bare(a)]) == [a] && [a][1..] == [];
    assert Walk(Map(properties), [a]) == Walk(Child(Map(properties), a), []);
  }

  /**
   A path with one more key, however it is written, leads to the entry of that key in the map,
   environment or label set that the path without it leads to. A missing entry is nil, and so is
   any entry of a value of another kind; a label that is present and empty is not.
   */
  lemma PropertyBelow(properties: Properties, segments: seq<Segment>, last: Segment)
    requires |segments| > 0 && WellFormed(segments) && WellFormedSegment(last, false)
    ensures PropertyAt(properties, Print(segments + [last])) ==
            match PropertyAt(properties, Print(segments))
            case Map(entries) => if last.key in entries then entries[last.key] else Nil
            case Env(env) => if last.key in env then env[last.key] else Nil
            case StringMap(labels) => if last.key in labels then Str(labels[last.key]) else Nil
            case _ => Nil
  {
    PathKeysOfPrint(segments);
    PathKeysOfPrint(segments + [last]);
    assert Keys(segments + [last]) == Keys(segments) + [last.key];
    WalkSnoc(Map(properties), Keys(segments), last.key);
  }

  /** A text that spells no path leads to nil. */
  lemma NoPathIsNil(properties: Properties, path: Bytes)
    requires forall segments :: WellFormed(segments) ==> Print(segments) != path
    ensures PropertyAt(properties, path) == Nil
  {
    assert !IsPath(path);
  }

  /** So a label is found by its key, in brackets whatever bytes it has, and is nil when absent. */
  lemma LabelsExactly(properties: Properties, a: Bytes, key: Bytes)
    requires |a| > 0 && BareKey(a) && |key| > 0
    requires a in properties && properties[a].StringMap?
    ensures var labels := properties[a].labels;
            PropertyAt(properties, Print([Bare(a), Bracketed(key)])) == if key in labels then Str(labels[key]) else Nil
  {
    PropertyOfKey(properties, a);
    PropertyBelow(properties, [Bare(a)], Bracketed(key));
    assert [Bare(a)] + [Bracketed(key)] == [Bare(a), Bracketed(key)];
  }

  // ---------------------------------------------------------------- what a path can name

  /** No key is empty, and the first has no dot and no bracket. */
  predicate Nameable(keys: seq<Bytes>) {
    |keys| > 0 && BareKey(keys[0]) && forall i :: 0 <= i < |keys| ==> |keys[i]| > 0
  }

  /** Spells keys with every key but the first in brackets. */
  function Bracketing(keys: seq<Bytes>): (segments: seq<Segment>)
    ensures |segments| == |keys|
  {
    seq(|keys|, i requires 0 <= i < |keys| => if i == 0 then Bare(keys[i]) else Bracketed(keys[i]))
  }

  lemma KeysAreNameable(segments: seq<Segment>)
    requires WellFormed(segments)
    ensures BareKey(Keys(segments)[0]) && forall i :: 0 <= i < |segments| ==> |Keys(segments)[i]| > 0
  {
    assert forall i :: 0 <= i < |segments| ==> Keys(segments)[i] == segments[i].key;
  }

  /** Some path names exactly these keys, if and only if the first can stand bare and none is empty. */
  lemma NameableKeys(keys: seq<Bytes>)
    ensures (exists path :: PathKeys(path) == Some(keys))
       <==> Nameable(keys)
  {
    if path :| PathKeys(path) == Some(keys) {
      var segments :| Spells(segments, path) && Keys(segments) == PathKeys(path).value;
      KeysAreNameable(segments);
    }
    if Nameable(keys) {
      var segments := Bracketing(keys);
      assert Keys(segments) == keys;
      PathKeysOfPrint(segments);
    }
  }

  /**
   In any tree, a node that is not nil is returned by some path if and only if it stands below
   non-empty keys of which the first has no dot and no bracket.
   */
  lemma ReturnedExactly(properties: Properties, v: Value)
    requires v != Nil
    ensures (exists path :: PropertyAt(properties, path) == v)
       <==> (exists keys :: Nameable(keys) && Walk(Map(properties), keys) == v)
  {
    if path :| PropertyAt(properties, path) == v {
      var keys := PathKeys(path).value;
      NameableKeys(keys);
      assert Nameable(keys) && Walk(Map(properties), keys) == v;
    }
    if keys :| Nameable(keys) && Walk(Map(properties), keys) == v {
      NameableKeys(keys);
      var path :| PathKeys(path) == Some(keys);
      assert PropertyAt(properties, path) == v;
    }
  }

  /**
   So a node that stands below non-empty keys, and nowhere else, is returned by some path if and
   only if its top-level key has no dot and no bracket.
   */
  lemma AddressableExactly(properties: Properties, keys: seq<Bytes>)
    requires |keys| > 0 && forall i :: 0 <= i < |keys| ==> |keys[i]| > 0
    requires Walk(Map(properties), keys) != Nil
    requires forall other :: Walk(Map(properties), other) == Walk(Map(properties), keys) ==> other == keys
    ensures (exists path :: PropertyAt(properties, path) == Walk(Map(properties), keys)) <==> BareKey(keys[0])
  {
    var v := Walk(Map(properties), keys);
    ReturnedExactly(properties, v);
    if other :| Nameable(other) && Walk(Map(properties), other) == v {
      assert other == keys;
    }
    assert BareKey(keys[0]) ==> Nameable(keys);
  }

  /** In any tree, a node below a bare top-level key is returned by a path, under its own keys. */
  lemma Addressable(properties: Properties, keys: seq<Bytes>)
    requires Nameable(keys)
    ensures exists path :: PathKeys(path) == Some(keys) && PropertyAt(properties, path) == Walk(Map(properties), keys)
  {
    NameableKeys(keys);
    var path :| PathKeys(path) == Some(keys);
    assert PropertyAt(properties, path) == Walk(Map(properties), keys);
  }
}
