/**
 From a template and an endpoint to the configuration an exporter is started with.

 `ShouldStart` and `StartConfig` say outright when an exporter is started and with what; the
 steps that get there, through a temporary marker key and a merge, are proved to agree.
 */
module Launch {
  import opened Base
  import opened Values
  import opened Backticks
  import opened ConfigTree
  import opened Endpoints
  import opened Telemetry

  datatype RuleResult = RuleError | RuleValue(matches: bool)

  datatype Template = Template(
    exporterType: TypeName,
    signals: Signals,
    rule: Properties -> RuleResult,
    config: map<Bytes, Value>,
    resourceAttributes: map<Bytes, Value>)

  /** What the exporter factories and the cast library decide. */
  datatype Factories = Factories(acceptsEndpoint: (TypeName, Bytes) -> bool, cast: Value -> Bytes)

  const ENDPOINT: Bytes := Ascii("endpoint")
  const MARKER: Bytes := Ascii("<tmp.exporter.creator.automatically.set.endpoint.field>")

  lemma MarkerIsNotEndpoint()
    ensures MARKER != ENDPOINT
  {
    assert |MARKER| > |ENDPOINT|;
  }

  // ---------------------------------------------------------------- what should happen

  /** The template's configuration, expanded for an endpoint and pruned. */
  function Resolved(lib: Library, t: Template, env: Properties): Option<map<Bytes, Value>> {
    match ExpandConfig(lib, env, t.config)
    case None => None
    case Some(expanded) => Some(RemoveNilValuesFromMap(expanded))
  }

  /** The template expands, an endpoint it names survives, and one it does not name can be discovered. */
  predicate ShouldStart(lib: Library, t: Template, env: Properties, target: Bytes) {
    && Resolved(lib, t, env).Some?
    && if ENDPOINT in t.config then ENDPOINT in Resolved(lib, t, env).value
       else ExpandString(lib, env, target).Some?
  }

  function CastToString(factories: Factories, v: Value): Bytes {
    match v
    case Nil => []
    case Str(s) => s
    case _ => factories.cast(v)
  }

  /** The endpoint an exporter is started with: the template's own, else the discovered one if it is accepted. */
  function EndpointFor(lib: Library, factories: Factories, t: Template, env: Properties, target: Bytes): Option<Value>
    requires ShouldStart(lib, t, env, target)
  {
    if ENDPOINT in t.config then Some(Resolved(lib, t, env).value[ENDPOINT])
    else
      var discovered := ExpandString(lib, env, target).value;
      if discovered != Nil && factories.acceptsEndpoint(t.exporterType, CastToString(factories, discovered))
      then Some(discovered) else None
  }

  function StartConfig(lib: Library, factories: Factories, t: Template, env: Properties, target: Bytes)
    : map<Bytes, Value>
    requires ShouldStart(lib, t, env, target)
  {
    var resolved := Resolved(lib, t, env).value;
    match EndpointFor(lib, factories, t, env, target)
    case Some(endpoint) => resolved[ENDPOINT := endpoint]
    case None => resolved
  }

  // ---------------------------------------------------------------- how it happens

  /** Reading a missing key of a Go map of any gives nil. */
  function ValueAt(m: map<Bytes, Value>, k: Bytes): Value {
    if k in m then m[k] else Nil
  }

  predicate HasTarget(target: Bytes) {
    target != [] && target != Ascii("0")
  }

  /** What is left of a discovered configuration once the marker and a withdrawn endpoint are gone. */
  function Kept(factories: Factories, exporterType: TypeName, templated: map<Bytes, Value>,
                discovered: map<Bytes, Value>)
    : map<Bytes, Value>
  {
    if MARKER !in discovered then discovered
    else if HasTarget(CastToString(factories, ValueAt(templated, ENDPOINT)))
            || !factories.acceptsEndpoint(exporterType, CastToString(factories, ValueAt(discovered, ENDPOINT)))
    then discovered - {MARKER, ENDPOINT}
    else discovered - {MARKER}
  }

  /**
   What is kept: everything without the marker; with it, all but the marker, and the endpoint only if
   the template's own is empty or "0" and the factory accepts the discovered one.
   */
  lemma KeptExactly(factories: Factories, exporterType: TypeName, templated: map<Bytes, Value>,
                    discovered: map<Bytes, Value>, k: Bytes)
    ensures var kept := Kept(factories, exporterType, templated, discovered);
            var own := if ENDPOINT in templated then templated[ENDPOINT] else Nil;
            var found := if ENDPOINT in discovered then discovered[ENDPOINT] else Nil;
            var ownText := if own == Nil then [] else if own.Str? then own.text else factories.cast(own);
            var foundText := if found == Nil then [] else if found.Str? then found.text else factories.cast(found);
            && (k in kept <==>
                  && k in discovered
                  && (MARKER in discovered ==>
                        && k != MARKER
                        && (k == ENDPOINT ==>
                              && (|ownText| == 0 || ownText == [48])
                              && factories.acceptsEndpoint(exporterType, foundText))))
            && (k in kept ==> kept[k] == discovered[k])
  {
    MarkerIsNotEndpoint();
    assert Ascii("0") == [48];
  }

  /**
   Unifies a templated and a discovered configuration. The marker says that the discovered
   endpoint was set automatically; only then is it withdrawn, because the template has one or
   because the factory has no such field.
   */
  method MergeTemplatedAndDiscoveredConfigs(factories: Factories, exporterType: TypeName,
                                            templated: map<Bytes, Value>, discovered: map<Bytes, Value>)
    returns (merged: map<Bytes, Value>, target: Bytes)
    ensures merged == MergeMaps(templated, Kept(factories, exporterType, templated, discovered))
    ensures var own := CastToString(factories, ValueAt(templated, ENDPOINT));
            target == if MARKER in discovered && !HasTarget(own)
                      then CastToString(factories, ValueAt(discovered, ENDPOINT)) else own
  {
    MarkerIsNotEndpoint();
    var kept := discovered;
    target := CastToString(factories, ValueAt(templated, ENDPOINT));
    var templateHasEndpoint := HasTarget(target);
    if MARKER in kept {
      kept := kept - {MARKER};
      if !templateHasEndpoint {
        target := CastToString(factories, ValueAt(kept, ENDPOINT));
        if !factories.acceptsEndpoint(exporterType, target) {
          kept := kept - {ENDPOINT};
        }
      } else {
        kept := kept - {ENDPOINT};
      }
    }
    assert discovered - {MARKER} - {ENDPOINT} == discovered - {MARKER, ENDPOINT};
    merged := MergeMaps(templated, kept);
  }

  /** The discovered configuration the handler sets up when the resolved one has no endpoint. */
  function DiscoveredConfig(resolved: map<Bytes, Value>, target: Bytes): map<Bytes, Value> {
    if ENDPOINT in resolved then map[] else map[ENDPOINT := Str(target), MARKER := Scalar(0)]
  }

  lemma ExpandedEntries(lib: Library, env: Properties, config: map<Bytes, Value>)
    ensures ExpandConfig(lib, env, config).None? <==> exists k :: k in config && ExpandAny(lib, env, config[k]).None?
    ensures ExpandConfig(lib, env, config).Some? ==>
              forall k :: k in config ==>
                ValueAt(ExpandConfig(lib, env, config).value, k) == ExpandAny(lib, env, config[k]).value
  {
  }

  lemma MergeNothing(m: map<Bytes, Value>)
    ensures MergeMaps(m, map[]) == m
  {
  }

  lemma MergeNewKey(m: map<Bytes, Value>, k: Bytes, v: Value)
    requires k !in m
    ensures MergeMaps(m, map[k := v]) == m[k := v]
  {
  }

  /** Expanding what the handler sets up leaves the target expanded, unless nil, and the marker. */
  lemma ExpandedDiscovery(lib: Library, env: Properties, resolved: map<Bytes, Value>, target: Bytes)
    ensures var expanded := ExpandConfig(lib, env, DiscoveredConfig(resolved, target));
            var found := ExpandString(lib, env, target);
            if ENDPOINT in resolved then expanded == Some(map[])
            else
              && (expanded.None? <==> found.None?)
              && (expanded.Some? ==>
                    expanded.value == (if found.value == Nil then map[MARKER := Scalar(0)]
                                       else map[ENDPOINT := found.value, MARKER := Scalar(0)]))
  {
    MarkerIsNotEndpoint();
    var config := DiscoveredConfig(resolved, target);
    ExpandedEntries(lib, env, config);
    if ENDPOINT !in resolved {
      assert config[ENDPOINT] == Str(target) && config[MARKER] == Scalar(0);
      assert ExpandAny(lib, env, Str(target)) == ExpandString(lib, env, target);
    }
  }

  // ---------------------------------------------------------------- when a key survives

  /** What an entry expands to is neither nil nor a map with nothing in it once it is pruned. */
  predicate Lasts(expanded: Value) {
    expanded != Nil && (expanded.Map? ==> Prune(expanded) != Map(map[]))
  }

  /** A key of the template's configuration reaches the resolved one exactly when its entry lasts. */
  lemma ResolvedHas(lib: Library, t: Template, env: Properties, k: Bytes)
    requires Resolved(lib, t, env).Some?
    ensures k in Resolved(lib, t, env).value <==>
              k in t.config && ExpandAny(lib, env, t.config[k]).Some? && Lasts(ExpandAny(lib, env, t.config[k]).value)
  {
    ExpandedEntries(lib, env, t.config);
    var expanded := ExpandConfig(lib, env, t.config).value;
    assert k in expanded ==> expanded[k] == ValueAt(expanded, k);
  }

  /**
   The marker key is in the configuration an exporter is started with if and only if the template's
   own configuration has a key of that name whose entry lasts; the one set for the merge never is.
   */
  lemma MarkerSurvivesExactly(lib: Library, factories: Factories, t: Template, env: Properties, target: Bytes)
    requires ShouldStart(lib, t, env, target)
    ensures MARKER in StartConfig(lib, factories, t, env, target) <==>
              && MARKER in t.config && ExpandAny(lib, env, t.config[MARKER]).Some?
              && Lasts(ExpandAny(lib, env, t.config[MARKER]).value)
  {
    MarkerIsNotEndpoint();
    ResolvedHas(lib, t, env, MARKER);
  }

  /** A template with a number under the marker's name keeps it. */
  lemma MarkerCanSurvive(lib: Library, factories: Factories, env: Properties, signals: Signals,
                         rule: Properties -> RuleResult)
    ensures var t := Template(0, signals, rule, map[MARKER := Scalar(1)], map[]);
            ShouldStart(lib, t, env, []) && MARKER in StartConfig(lib, factories, t, env, [])
  {
    var t := Template(0, signals, rule, map[MARKER := Scalar(1)], map[]);
    MarkerIsNotEndpoint();
    ExpandedEntries(lib, env, t.config);
    assert ExpandAny(lib, env, t.config[MARKER]) == Some(Scalar(1));
    assert Meaning(lib, env, []) == Expanded(Str([]));
    MarkerSurvivesExactly(lib, factories, t, env, []);
  }

  /** A configuration's entry reaches the resolved one pruned if it is a map, and as it expands otherwise. */
  lemma ResolvedAt(lib: Library, t: Template, env: Properties, k: Bytes)
    requires Resolved(lib, t, env).Some? && k in Resolved(lib, t, env).value
    ensures k in t.config && ExpandAny(lib, env, t.config[k]).Some?
    ensures var expanded := ExpandAny(lib, env, t.config[k]).value;
            Resolved(lib, t, env).value[k] == if expanded.Map? then Prune(expanded) else expanded
  {
    ResolvedHas(lib, t, env, k);
    ExpandedEntries(lib, env, t.config);
    var expanded := ExpandConfig(lib, env, t.config).value;
    assert expanded[k] == ValueAt(expanded, k);
  }

  /** What lasts is neither nil nor a map without a leaf below it. */
  lemma LastsExactly(v: Value)
    ensures Lasts(v) <==> v != Nil && (v.Map? ==> exists keys :: |keys| > 0 && Leaf(Below(v, keys)))
  {
    if v.Map? {
      if Prune(v) != Map(map[]) {
        var keys := LeafBelow(v);
      }
      if keys :| |keys| > 0 && Leaf(Below(v, keys)) {
        PruneKeepsLeaves(v, keys);
      }
    }
  }

  /**
   When a template starts an exporter for an endpoint: no string of its configuration fails, and the
   endpoint it names lasts, or, when it names none, the endpoint's target does not fail.
   */
  lemma ShouldStartExactly(lib: Library, t: Template, env: Properties, target: Bytes)
    ensures ShouldStart(lib, t, env, target) <==>
              && (forall s :: s in StringLeaves(Map(t.config)) ==> Meaning(lib, env, s).Expanded?)
              && if ENDPOINT in t.config
                 then ExpandAny(lib, env, t.config[ENDPOINT]).Some?
                      && Lasts(ExpandAny(lib, env, t.config[ENDPOINT]).value)
                 else Meaning(lib, env, target).Expanded?
  {
    ExpandFailsExactly(lib, env, Map(t.config));
    assert forall s :: ExpandString(lib, env, s).None? <==> Meaning(lib, env, s).Failed?;
    if Resolved(lib, t, env).Some? {
      ResolvedHas(lib, t, env, ENDPOINT);
    }
  }

  /**
   What an exporter is started with, key by key: the template's entries that last, as they expand
   and pruned; and, when the template names no endpoint, the expanded target, unless it is nil or
   the factory has no such field.
   */
  lemma StartConfigExactly(lib: Library, factories: Factories, t: Template, env: Properties, target: Bytes, k: Bytes)
    requires ShouldStart(lib, t, env, target)
    ensures var config := StartConfig(lib, factories, t, env, target);
            if k == ENDPOINT && k !in t.config then
              var found := Meaning(lib, env, target);
              && found.Expanded?
              && var text := match found.value
                   case Nil => []
                   case Str(s) => s
                   case other => factories.cast(other);
                 && (k in config <==> found.value != Nil && factories.acceptsEndpoint(t.exporterType, text))
                 && (k in config ==> config[k] == found.value)
            else
              && (k in config <==>
                    k in t.config && ExpandAny(lib, env, t.config[k]).Some?
                    && Lasts(ExpandAny(lib, env, t.config[k]).value))
              && (k in config ==>
                    var expanded := ExpandAny(lib, env, t.config[k]).value;
                    config[k] == if expanded.Map? then Prune(expanded) else expanded)
  {
    ResolvedHas(lib, t, env, k);
    ResolvedHas(lib, t, env, ENDPOINT);
    if k in Resolved(lib, t, env).value {
      ResolvedAt(lib, t, env, k);
    }
  }

  // ---------------------------------------------------------------- end to end

  /**
   Withdrawing or keeping the discovered endpoint and merging gives the start configuration, with
   the template's endpoint first; the marker set for the merge is not in it.
   */
  lemma EndpointPrecedence(lib: Library, factories: Factories, t: Template, env: Properties, target: Bytes,
                           discovered: map<Bytes, Value>)
    requires ShouldStart(lib, t, env, target)
    requires ExpandConfig(lib, env, DiscoveredConfig(Resolved(lib, t, env).value, target)) == Some(discovered)
    ensures var resolved := Resolved(lib, t, env).value;
            && MergeMaps(resolved, Kept(factories, t.exporterType, resolved, discovered))
                == StartConfig(lib, factories, t, env, target)
            && MARKER !in Kept(factories, t.exporterType, resolved, discovered)
  {
    MarkerIsNotEndpoint();
    var resolved := Resolved(lib, t, env).value;
    var kept := Kept(factories, t.exporterType, resolved, discovered);
    assert ENDPOINT in resolved ==> ENDPOINT in t.config;
    ExpandedDiscovery(lib, env, resolved, target);
    MergeNothing(resolved);
    if ENDPOINT !in resolved {
      var found := ExpandString(lib, env, target).value;
      if found == Nil {
        assert kept == map[];
      } else if factories.acceptsEndpoint(t.exporterType, CastToString(factories, found)) {
        assert kept == map[ENDPOINT := found];
        MergeNewKey(resolved, ENDPOINT, found);
      } else {
        assert kept == map[];
      }
    } else {
      assert kept == map[];
      assert resolved[ENDPOINT := resolved[ENDPOINT]] == resolved;
    }
  }

  /** The two configurations an exporter is started from, unless it should not be started. */
  method ResolveConfigs(lib: Library, factories: Factories, t: Template, env: Properties, target: Bytes)
    returns (r: Option<(map<Bytes, Value>, map<Bytes, Value>)>)
    ensures r.Some? <==> ShouldStart(lib, t, env, target)
    ensures r.Some? ==>
              MergeMaps(r.value.0, Kept(factories, t.exporterType, r.value.0, r.value.1))
                  == StartConfig(lib, factories, t, env, target)
  {
    var expanded := ExpandConfig(lib, env, t.config);
    if expanded.None? {
      return None;
    }
    var hadExplicitEndpoint := ENDPOINT in t.config;
    var resolved := RemoveNilValuesFromMap(expanded.value);
    if hadExplicitEndpoint && ENDPOINT !in resolved {
      return None;
    }
    var discovered := ExpandConfig(lib, env, DiscoveredConfig(resolved, target));
    ExpandedDiscovery(lib, env, resolved, target);
    if discovered.None? {
      return None;
    }
    EndpointPrecedence(lib, factories, t, env, target, discovered.value);
    return Some((resolved, discovered.value));
  }

  // ---------------------------------------------------------------- routing properties

  function AttributeText(lib: Library, v: Value): Bytes {
    if v.Str? then v.text else lib.render(v)
  }

  function ExpandAttribute(lib: Library, env: Properties, v: Value): Option<Value> {
    ExpandString(lib, env, AttributeText(lib, v))
  }

  function Expander(lib: Library, env: Properties): Value -> Option<Value> {
    v => ExpandAttribute(lib, env, v)
  }

  /** The environment with the template's resource attributes over it; those that fail to expand are left out. */
  function RoutingProperties(lib: Library, t: Template, env: Properties): Properties {
    Overlay(env, t.resourceAttributes, Expander(lib, env))
  }

  method RoutingEnv(lib: Library, t: Template, env: Properties) returns (routing: Properties)
    ensures routing == RoutingProperties(lib, t, env)
  {
    var attributes := t.resourceAttributes;
    routing := env;
    var left := attributes.Keys;
    OverlayBounds(env, attributes, Expander(lib, env));
    while left != {}
      invariant left <= attributes.Keys
      invariant routing == Overlay(env, attributes - left, Expander(lib, env))
      decreases |left|
    {
      var k :| k in left;
      var expanded := EvalBackticksInConfigValue(lib, env, AttributeText(lib, attributes[k]));
      var value := if expanded.Expanded? then Some(expanded.value) else None;
      assert value == Expander(lib, env)(attributes[k]);
      OverlayStep(env, attributes, left, k, Expander(lib, env));
      if value.Some? {
        routing := routing[k := value.value];
      }
      left := left - {k};
    }
  }

  /**
   The properties an exporter is registered with, name by name: the endpoint's own, and over them
   what the template's resource attributes evaluate to, a string as it is written and any other value
   as it is rendered. One that fails leaves the endpoint's own in place; one that is nil does not.
   */
  lemma RoutingPropertiesExactly(lib: Library, t: Template, env: Properties, k: Bytes)
    ensures var p := RoutingProperties(lib, t, env);
            if k !in t.resourceAttributes then (k in p <==> k in env) && (k in env ==> p[k] == env[k])
            else
              var v := t.resourceAttributes[k];
              match Meaning(lib, env, if v.Str? then v.text else lib.render(v))
              case Expanded(value) => k in p && p[k] == value
              case Failed(_) => (k in p <==> k in env) && (k in env ==> p[k] == env[k])
  {
    if k in t.resourceAttributes {
      assert Expander(lib, env)(t.resourceAttributes[k]) == ExpandAttribute(lib, env, t.resourceAttributes[k]);
    }
  }
}
