/**
 The telemetry router: which exporters a resource goes to, and the cached counts beside the map.

 `RouterState` is the router's state as a value and `Added`/`Removed` are its two updates; the
 class is proved against them, and what every run of updates keeps is proved about them.
 */
module Router {
  import opened Base
  import opened Endpoints
  import opened PropertyPath
  import opened Values
  import opened NestedProperty

  /** The identity of a started exporter. */
  type Handle = nat

  datatype RoutedExporter = RoutedExporter(exporter: Handle, properties: Properties, exporterType: TypeName)

  type Exporters = map<EndpointId, seq<RoutedExporter>>

  /** A routing rule with its attribute spelling as configured and as resolved. */
  datatype Rule = Rule(resourceAttribute: Bytes, endpointProperty: Bytes, attributeName: Bytes)

  /** A resource's attributes, each rendered as a string. */
  type Attributes = map<Bytes, Bytes>

  // ---------------------------------------------------------------- matching

  function ToString(v: Value, render: Value -> Bytes): Bytes {
    match v
    case Nil => []
    case Str(text) => text
    case _ => render(v)
  }

  ghost predicate RuleHolds(rule: Rule, attributes: Attributes, properties: Properties, render: Value -> Bytes) {
    var property := PropertyAt(properties, rule.endpointProperty);
    && rule.attributeName in attributes
    && property != Nil
    && attributes[rule.attributeName] == ToString(property, render)
  }

  ghost predicate Matches(rules: seq<Rule>, attributes: Attributes, properties: Properties, render: Value -> Bytes) {
    |rules| > 0 && forall i :: 0 <= i < |rules| ==> RuleHolds(rules[i], attributes, properties, render)
  }

  /** How often handle is among the exporters of es that match. */
  ghost function HitCount(es: seq<RoutedExporter>, rules: seq<Rule>, attributes: Attributes,
                          render: Value -> Bytes, handle: Handle): nat {
    if |es| == 0 then 0
    else
      var last := es[|es| - 1];
      HitCount(es[..|es| - 1], rules, attributes, render, handle) +
      if last.exporter == handle && Matches(rules, attributes, last.properties, render) then 1 else 0
  }

  ghost function Hits(rules: seq<Rule>, attributes: Attributes, render: Value -> Bytes, handle: Handle)
    : seq<RoutedExporter> -> int
  {
    es => HitCount(es, rules, attributes, render, handle)
  }

  /** How often routing a resource returns handle: the plain specification of Route. */
  ghost function Answer(exporters: Exporters, rules: seq<Rule>, attributes: Attributes,
                        render: Value -> Bytes, handle: Handle): int {
    SumBy(exporters, Hits(rules, attributes, render, handle))
  }

  lemma {:induction false} HitCountShrinks(es: seq<RoutedExporter>, rules: seq<Rule>, rule: Rule,
                                           attributes: Attributes, render: Value -> Bytes, handle: Handle)
    requires |rules| > 0
    ensures HitCount(es, rules + [rule], attributes, render, handle) <= HitCount(es, rules, attributes, render, handle)
  {
    if |es| == 0 {
    } else {
      var p := es[|es| - 1].properties;
      assert Matches(rules + [rule], attributes, p, render) ==> Matches(rules, attributes, p, render) by {
        forall i | 0 <= i < |rules| && Matches(rules + [rule], attributes, p, render)
          ensures RuleHolds(rules[i], attributes, p, render)
        {
          assert (rules + [rule])[i] == rules[i];
        }
      }
      HitCountShrinks(es[..|es| - 1], rules, rule, attributes, render, handle);
    }
  }

  /** Rules are conjoined: one more rule after the first never routes a resource anywhere new. */
  lemma AppendingRuleShrinks(exporters: Exporters, rules: seq<Rule>, rule: Rule,
                             attributes: Attributes, render: Value -> Bytes, handle: Handle)
    requires |rules| > 0
    ensures Answer(exporters, rules + [rule], attributes, render, handle)
         <= Answer(exporters, rules, attributes, render, handle)
  {
    forall id | id in exporters
      ensures Hits(rules + [rule], attributes, render, handle)(exporters[id])
           <= Hits(rules, attributes, render, handle)(exporters[id])
    {
      HitCountShrinks(exporters[id], rules, rule, attributes, render, handle);
    }
    SumByMonotone(exporters, Hits(rules + [rule], attributes, render, handle), Hits(rules, attributes, render, handle));
  }

  // ---------------------------------------------------------------- what configured rules ask

  /** The rules as configured, each with its resolved attribute name, or the configured text if it does not parse. */
  ghost predicate AreResolved(configured: seq<Rule>, rules: seq<Rule>) {
    && |rules| == |configured|
    && forall i :: 0 <= i < |configured| ==>
         && rules[i].endpointProperty == configured[i].endpointProperty
         && rules[i].resourceAttribute == configured[i].resourceAttribute
         && rules[i].attributeName ==
              (match AttributeName(configured[i].resourceAttribute)
               case Some(name) => name
               case None => configured[i].resourceAttribute)
  }

  /**
   Resolved rules match when there are any and, for each, the attribute named is present and equal
   to the text of the property: a string as it is, any other value but nil as it is rendered.
   */
  lemma MatchesExactly(configured: seq<Rule>, rules: seq<Rule>, attributes: Attributes, properties: Properties,
                       render: Value -> Bytes)
    requires AreResolved(configured, rules)
    ensures Matches(rules, attributes, properties, render) <==>
              && |configured| > 0
              && forall i :: 0 <= i < |configured| ==>
                   var spelled := AttributeName(configured[i].resourceAttribute);
                   var name := if spelled.Some? then spelled.value else configured[i].resourceAttribute;
                   var property := PropertyAt(properties, configured[i].endpointProperty);
                   && name in attributes && property != Nil
                   && attributes[name] == if property.Str? then property.text else render(property)
  {
    if Matches(rules, attributes, properties, render) {
      assert forall i :: 0 <= i < |rules| ==> RuleHolds(rules[i], attributes, properties, render);
    }
  }

  /** A rule spelled with brackets looks up the keys joined by dots; a string property must equal what is there. */
  lemma SpelledRule(segments: seq<Segment>, path: Bytes, rules: seq<Rule>, attributes: Attributes,
                    properties: Properties, render: Value -> Bytes)
    requires WellFormed(segments) && AreResolved([Rule(Print(segments), path, [])], rules)
    ensures var name, property := Join(Keys(segments), DOT), PropertyAt(properties, path);
            Matches(rules, attributes, properties, render) <==>
              && name in attributes && property != Nil
              && attributes[name] == if property.Str? then property.text else render(property)
  {
    SpellingsAgree(segments);
    var configured := [Rule(Print(segments), path, [])];
    assert configured[0].resourceAttribute == Print(segments);
    assert Matches(rules, attributes, properties, render) <==> RuleHolds(rules[0], attributes, properties, render);
  }

  lemma {:induction false} HitExactly(es: seq<RoutedExporter>, rules: seq<Rule>, attributes: Attributes,
                                      render: Value -> Bytes, h: Handle)
    ensures HitCount(es, rules, attributes, render, h) > 0 <==>
              exists k :: 0 <= k < |es| && es[k].exporter == h && Matches(rules, attributes, es[k].properties, render)
  {
    if |es| == 0 {
    } else {
      var n := |es| - 1;
      HitExactly(es[..n], rules, attributes, render, h);
      assert forall k :: 0 <= k < n ==> es[..n][k] == es[k];
    }
  }

  /** An exporter is among the answer exactly when it is registered, for any endpoint, with properties that match. */
  lemma AnsweredExactly(exporters: Exporters, rules: seq<Rule>, attributes: Attributes, render: Value -> Bytes,
                        h: Handle)
    ensures Answer(exporters, rules, attributes, render, h) > 0 <==>
              exists id :: id in exporters && exists k ::
                && 0 <= k < |exporters[id]| && exporters[id][k].exporter == h
                && Matches(rules, attributes, exporters[id][k].properties, render)
  {
    var hits := Hits(rules, attributes, render, h);
    forall id | id in exporters
      ensures hits(exporters[id]) > 0 <==>
                exists k :: && 0 <= k < |exporters[id]| && exporters[id][k].exporter == h
                            && Matches(rules, attributes, exporters[id][k].properties, render)
    {
      HitExactly(exporters[id], rules, attributes, render, h);
    }
    if id :| id in exporters && hits(exporters[id]) > 0 {
      SumByAtLeast(exporters, id, hits);
    } else {
      SumByZero(exporters, hits);
    }
  }

  /** Routing by one rule, bracketed anyhow: the exporters whose property is the text of the attribute it names. */
  lemma RoutedBySpelling(segments: seq<Segment>, path: Bytes, rules: seq<Rule>, exporters: Exporters,
                         attributes: Attributes, render: Value -> Bytes, h: Handle)
    requires WellFormed(segments) && AreResolved([Rule(Print(segments), path, [])], rules)
    ensures var name := Join(Keys(segments), DOT);
            Answer(exporters, rules, attributes, render, h) > 0 <==>
              name in attributes && exists id :: id in exporters && exists k ::
                && 0 <= k < |exporters[id]| && exporters[id][k].exporter == h
                && var property := PropertyAt(exporters[id][k].properties, path);
                   && property != Nil
                   && attributes[name] == if property.Str? then property.text else render(property)
  {
    AnsweredExactly(exporters, rules, attributes, render, h);
    forall id, k | id in exporters && 0 <= k < |exporters[id]|
      ensures var name, property := Join(Keys(segments), DOT), PropertyAt(exporters[id][k].properties, path);
              Matches(rules, attributes, exporters[id][k].properties, render) <==>
                && name in attributes && property != Nil
                && attributes[name] == if property.Str? then property.text else render(property)
    {
      SpelledRule(segments, path, rules, attributes, exporters[id][k].properties, render);
    }
  }

  // ---------------------------------------------------------------- the state and its caches

  datatype RouterState = RouterState(
    exporters: Exporters,
    count: int,
    byType: map<TypeName, int>,
    gauge: map<TypeName, int>)

  const EMPTY: RouterState := RouterState(map[], 0, map[], map[])

  ghost function TypeCount(es: seq<RoutedExporter>, t: TypeName): nat {
    if |es| == 0 then 0
    else TypeCount(es[..|es| - 1], t) + if es[|es| - 1].exporterType == t then 1 else 0
  }

  ghost function Length(): seq<RoutedExporter> -> int { es => |es| }

  ghost function OfType(t: TypeName): seq<RoutedExporter> -> int { es => TypeCount(es, t) }

  ghost function Itself(): int -> int { n => n }

  /** The exporters of type t across every endpoint. */
  ghost function LiveOfType(exporters: Exporters, t: TypeName): int {
    SumBy(exporters, OfType(t))
  }

  /** Every cached figure agrees with the map it caches. */
  ghost predicate Coherent(s: RouterState, reporting: bool) {
    && s.count == SumBy(s.exporters, Length())
    && (forall t :: CountAt(s.byType, t) == LiveOfType(s.exporters, t))
    && SumBy(s.byType, Itself()) == s.count
    && (reporting ==> s.gauge == s.byType)
  }

  /** byType after decrementing the type of each exporter of es in turn. */
  function Decremented(byType: map<TypeName, int>, es: seq<RoutedExporter>): map<TypeName, int> {
    if |es| == 0 then byType
    else
      var b := Decremented(byType, es[..|es| - 1]);
      var t := es[|es| - 1].exporterType;
      b[t := CountAt(b, t) - 1]
  }

  function Recorded(s: RouterState, reporting: bool): RouterState {
    if reporting then s.(gauge := s.gauge + s.byType) else s
  }

  function Added(s: RouterState, reporting: bool, id: EndpointId, e: RoutedExporter): RouterState {
    Recorded(RouterState(
               s.exporters[id := ListAt(s.exporters, id) + [e]],
               s.count + 1,
               s.byType[e.exporterType := CountAt(s.byType, e.exporterType) + 1],
               s.gauge), reporting)
  }

  function Removed(s: RouterState, reporting: bool, id: EndpointId): RouterState {
    var es := ListAt(s.exporters, id);
    Recorded(RouterState(s.exporters - {id}, s.count - |es|, Decremented(s.byType, es), s.gauge), reporting)
  }

  lemma {:induction false} DecrementedAt(byType: map<TypeName, int>, es: seq<RoutedExporter>, t: TypeName)
    ensures CountAt(Decremented(byType, es), t) == CountAt(byType, t) - TypeCount(es, t)
    ensures t in Decremented(byType, es) <==> t in byType || TypeCount(es, t) > 0
  {
    if |es| == 0 {
    } else {
      DecrementedAt(byType, es[..|es| - 1], t);
    }
  }

  lemma {:induction false} DecrementedSum(byType: map<TypeName, int>, es: seq<RoutedExporter>)
    ensures SumBy(Decremented(byType, es), Itself()) == SumBy(byType, Itself()) - |es|
  {
    if |es| == 0 {
    } else {
      var t := es[|es| - 1].exporterType;
      var b := Decremented(byType, es[..|es| - 1]);
      DecrementedSum(byType, es[..|es| - 1]);
      SumByUpdate(b, t, CountAt(b, t) - 1, Itself());
    }
  }

  lemma TypeCountSnoc(es: seq<RoutedExporter>, e: RoutedExporter, t: TypeName)
    ensures TypeCount(es + [e], t) == TypeCount(es, t) + if e.exporterType == t then 1 else 0
    ensures TypeCount([], t) == 0
  {
    assert (es + [e])[..|es|] == es;
  }

  lemma AddedOfType(exporters: Exporters, byType: map<TypeName, int>, id: EndpointId, e: RoutedExporter, t: TypeName)
    requires CountAt(byType, t) == LiveOfType(exporters, t)
    ensures CountAt(byType[e.exporterType := CountAt(byType, e.exporterType) + 1], t)
         == LiveOfType(exporters[id := ListAt(exporters, id) + [e]], t)
  {
    var es := ListAt(exporters, id);
    SumByUpdate(exporters, id, es + [e], OfType(t));
    TypeCountSnoc(es, e, t);
    assert OfType(t)(es) == TypeCount(es, t) && OfType(t)(es + [e]) == TypeCount(es + [e], t);
  }

  /** What one more exporter adds to the sums behind the caches. */
  lemma AddedSums(s: RouterState, id: EndpointId, e: RoutedExporter)
    ensures var byType := s.byType[e.exporterType := CountAt(s.byType, e.exporterType) + 1];
            && SumBy(s.exporters[id := ListAt(s.exporters, id) + [e]], Length()) == SumBy(s.exporters, Length()) + 1
            && SumBy(byType, Itself()) == SumBy(s.byType, Itself()) + 1
  {
    SumByUpdate(s.exporters, id, ListAt(s.exporters, id) + [e], Length());
    SumByUpdate(s.byType, e.exporterType, CountAt(s.byType, e.exporterType) + 1, Itself());
  }

  /** A gauge that showed every type seen shows the new counts once they are recorded. */
  lemma RecordedGauge(s: RouterState, reporting: bool)
    requires reporting ==> s.gauge.Keys <= s.byType.Keys
    ensures reporting ==> Recorded(s, reporting).gauge == s.byType
  {
  }

  lemma AddedCoherent(s: RouterState, reporting: bool, id: EndpointId, e: RoutedExporter)
    requires Coherent(s, reporting)
    ensures Coherent(Added(s, reporting, id, e), reporting)
    ensures Added(s, reporting, id, e).byType.Keys == s.byType.Keys + {e.exporterType}
  {
    var s' := Added(s, reporting, id, e);
    AddedSums(s, id, e);
    forall t ensures CountAt(s'.byType, t) == LiveOfType(s'.exporters, t) {
      AddedOfType(s.exporters, s.byType, id, e, t);
    }
    RecordedGauge(RouterState(s'.exporters, s'.count, s'.byType, s.gauge), reporting);
  }

  /** What a removal takes off the sums behind the caches. */
  lemma RemovedSums(s: RouterState, id: EndpointId)
    ensures var es := ListAt(s.exporters, id);
            && SumBy(s.exporters - {id}, Length()) == SumBy(s.exporters, Length()) - |es|
            && SumBy(Decremented(s.byType, es), Itself()) == SumBy(s.byType, Itself()) - |es|
  {
    DecrementedSum(s.byType, ListAt(s.exporters, id));
    if id in s.exporters {
      SumByRemove(s.exporters, id, Length());
    } else {
      assert s.exporters - {id} == s.exporters;
    }
  }

  lemma RemovedOfType(exporters: Exporters, byType: map<TypeName, int>, id: EndpointId, t: TypeName)
    requires CountAt(byType, t) == LiveOfType(exporters, t)
    ensures CountAt(Decremented(byType, ListAt(exporters, id)), t) == LiveOfType(exporters - {id}, t)
    ensures t in Decremented(byType, ListAt(exporters, id)) <==> t in byType
  {
    DecrementedAt(byType, ListAt(exporters, id), t);
    if id in exporters {
      SumByRemove(exporters, id, OfType(t));
      SumByNonNegative(exporters - {id}, OfType(t));
    } else {
      assert exporters - {id} == exporters;
    }
  }

  lemma RemovedCoherent(s: RouterState, reporting: bool, id: EndpointId)
    requires Coherent(s, reporting)
    ensures Coherent(Removed(s, reporting, id), reporting)
    ensures Removed(s, reporting, id).byType.Keys == s.byType.Keys
  {
    var s' := Removed(s, reporting, id);
    RemovedSums(s, id);
    forall t
      ensures CountAt(s'.byType, t) == LiveOfType(s'.exporters, t)
      ensures t in s'.byType <==> t in s.byType
    {
      RemovedOfType(s.exporters, s.byType, id, t);
    }
    RecordedGauge(RouterState(s'.exporters, s'.count, s'.byType, s.gauge), reporting);
  }

  /** With nothing counted there is nothing to route to, so the early exit changes no answer. */
  lemma NothingToRoute(s: RouterState, reporting: bool, rules: seq<Rule>, attributes: Attributes,
                       render: Value -> Bytes)
    requires Coherent(s, reporting) && s.count == 0
    ensures forall h :: Answer(s.exporters, rules, attributes, render, h) == 0
  {
    forall id | id in s.exporters ensures |s.exporters[id]| == 0 {
      SumByAtLeast(s.exporters, id, Length());
    }
    forall h ensures Answer(s.exporters, rules, attributes, render, h) == 0 {
      SumByZero(s.exporters, Hits(rules, attributes, render, h));
    }
  }

  lemma NoRulesNoAnswer(exporters: Exporters, attributes: Attributes, render: Value -> Bytes)
    ensures forall h :: Answer(exporters, [], attributes, render, h) == 0
  {
    forall h ensures Answer(exporters, [], attributes, render, h) == 0 {
      forall id | id in exporters ensures Hits([], attributes, render, h)(exporters[id]) == 0 {
        NoRulesNoHits(exporters[id], attributes, render, h);
      }
      SumByZero(exporters, Hits([], attributes, render, h));
    }
  }

  lemma {:induction false} NoRulesNoHits(es: seq<RoutedExporter>, attributes: Attributes, render: Value -> Bytes,
                                         h: Handle)
    ensures HitCount(es, [], attributes, render, h) == 0
  {
    if |es| == 0 {
    } else {
      NoRulesNoHits(es[..|es| - 1], attributes, render, h);
    }
  }

  // ---------------------------------------------------------------- whole runs

  datatype Update = Add(id: EndpointId, e: RoutedExporter) | Remove(id: EndpointId)

  function Run(updates: seq<Update>, reporting: bool): RouterState {
    if |updates| == 0 then EMPTY
    else
      var s := Run(updates[..|updates| - 1], reporting);
      match updates[|updates| - 1]
      case Add(id, e) => Added(s, reporting, id, e)
      case Remove(id) => Removed(s, reporting, id)
  }

  function TypesAdded(updates: seq<Update>): set<TypeName> {
    set i | 0 <= i < |updates| && updates[i].Add? :: updates[i].e.exporterType
  }

  lemma TypesAddedStep(updates: seq<Update>)
    requires |updates| > 0
    ensures var before, last := updates[..|updates| - 1], updates[|updates| - 1];
            TypesAdded(updates) == TypesAdded(before) + if last.Add? then {last.e.exporterType} else {}
  {
    var before := updates[..|updates| - 1];
    assert forall i :: 0 <= i < |before| ==> updates[i] == before[i];
    forall t | t in TypesAdded(updates)
      ensures t in TypesAdded(before) || (updates[|before|].Add? && t == updates[|before|].e.exporterType)
    {
      var i :| 0 <= i < |updates| && updates[i].Add? && updates[i].e.exporterType == t;
      assert i < |before| ==> before[i].Add? && before[i].e.exporterType == t;
    }
    forall t | t in TypesAdded(before) ensures t in TypesAdded(updates) {
      var i :| 0 <= i < |before| && before[i].Add? && before[i].e.exporterType == t;
      assert updates[i].Add? && updates[i].e.exporterType == t;
    }
  }

  /**
   Whatever the updates, repeated and unknown ids included, the caches agree with the map after
   each, and the types counted are exactly those ever added.
   */
  lemma {:induction false} RunCoherent(updates: seq<Update>, reporting: bool)
    ensures Coherent(Run(updates, reporting), reporting)
    ensures Run(updates, reporting).byType.Keys == TypesAdded(updates)
  {
    if |updates| == 0 {
    } else {
      var before := updates[..|updates| - 1];
      RunCoherent(before, reporting);
      TypesAddedStep(updates);
      match updates[|updates| - 1]
      case Add(id, e) => AddedCoherent(Run(before, reporting), reporting, id, e);
      case Remove(id) => RemovedCoherent(Run(before, reporting), reporting, id);
    }
  }

  /** Every type ever added stays on the gauge, at its live count, down to zero. */
  lemma GaugeShowsLiveCounts(updates: seq<Update>, t: TypeName)
    requires t in TypesAdded(updates)
    ensures var s := Run(updates, true); t in s.gauge && s.gauge[t] == LiveOfType(s.exporters, t) >= 0
  {
    var s := Run(updates, true);
    RunCoherent(updates, true);
    assert CountAt(s.byType, t) == LiveOfType(s.exporters, t);
    SumByNonNegative(s.exporters, OfType(t));
  }

  // ---------------------------------------------------------------- the router

  class TelemetryRouter {
    const rules: seq<Rule>
    const render: Value -> Bytes
    const reporting: bool
    var exporters: Exporters
    var count: int
    var byType: map<TypeName, int>
    var gauge: map<TypeName, int>

    ghost function State(): RouterState
      reads this
    {
      RouterState(exporters, count, byType, gauge)
    }

    /** Resolves each rule's attribute spelling once; one that does not parse is taken as given. */
    constructor (configured: seq<Rule>, render: Value -> Bytes, reporting: bool)
      ensures State() == EMPTY && Coherent(State(), reporting)
      ensures this.render == render && this.reporting == reporting
      ensures AreResolved(configured, rules)
    {
      var resolved: seq<Rule> := [];
      TakeBounds(configured);
      for i := 0 to |configured|
        invariant AreResolved(configured[..i], resolved)
      {
        TakeNext(configured, i);
        var name := ResolveAttributeName(configured[i].resourceAttribute);
        var attribute := if name.Some? then name.value else configured[i].resourceAttribute;
        resolved := resolved + [configured[i].(attributeName := attribute)];
      }
      rules, this.render, this.reporting := resolved, render, reporting;
      exporters, count, byType, gauge := map[], 0, map[], map[];
    }

    method AddExporter(id: EndpointId, exporter: Handle, env: Properties, exporterType: TypeName)
      modifies this
      ensures State() == Added(old(State()), reporting, id, RoutedExporter(exporter, env, exporterType))
    {
      exporters := exporters[id := ListAt(exporters, id) + [RoutedExporter(exporter, env, exporterType)]];
      count := count + 1;
      byType := byType[exporterType := CountAt(byType, exporterType) + 1];
      RecordCountLocked();
    }

    method RemoveExporter(id: EndpointId)
      modifies this
      ensures State() == Removed(old(State()), reporting, id)
    {
      var es := ListAt(exporters, id);
      for i := 0 to |es|
        invariant exporters == old(exporters) && count == old(count) && gauge == old(gauge)
        invariant byType == Decremented(old(byType), es[..i])
      {
        assert es[..i + 1][..i] == es[..i];
        byType := byType[es[i].exporterType := CountAt(byType, es[i].exporterType) - 1];
      }
      assert es[..|es|] == es;
      count := count - |es|;
      exporters := exporters - {id};
      RecordCountLocked();
    }

    /** Reports every known type, those at zero included. */
    method RecordCountLocked()
      modifies `gauge
      ensures State() == Recorded(old(State()), reporting)
    {
      if !reporting {
        return;
      }
      gauge := Publish(byType, gauge);
    }

    method MatchesAllRules(attributes: Attributes, properties: Properties) returns (b: bool)
      ensures b == Matches(rules, attributes, properties, render)
    {
      if |rules| == 0 {
        return false;
      }
      for i := 0 to |rules|
        invariant forall k :: 0 <= k < i ==> RuleHolds(rules[k], attributes, properties, render)
      {
        var rule := rules[i];
        if rule.attributeName !in attributes {
          assert !RuleHolds(rules[i], attributes, properties, render);
          return false;
        }
        var property := GetNestedProperty(properties, rule.endpointProperty);
        if property == Nil || attributes[rule.attributeName] != ToString(property, render) {
          assert !RuleHolds(rules[i], attributes, properties, render);
          return false;
        }
      }
      return true;
    }

    method Count() returns (n: int)
      ensures n == count
    {
      return count;
    }

    /** The exporters of one endpoint that match, in their order. */
    method MatchingOf(es: seq<RoutedExporter>, attributes: Attributes) returns (matched: seq<Handle>)
      ensures forall h :: multiset(matched)[h] == HitCount(es, rules, attributes, render, h)
    {
      matched := [];
      for i := 0 to |es|
        invariant forall h :: multiset(matched)[h] == HitCount(es[..i], rules, attributes, render, h)
      {
        assert es[..i + 1][..i] == es[..i];
        var matchedRules := MatchesAllRules(attributes, es[i].properties);
        if matchedRules {
          matched := matched + [es[i].exporter];
        }
      }
      assert es[..|es|] == es;
    }

    /** The exporters a resource goes to, endpoints in arbitrary order, with their multiplicity. */
    method Route(attributes: Attributes) returns (matched: seq<Handle>)
      requires Coherent(State(), reporting)
      ensures forall h :: multiset(matched)[h] == Answer(exporters, rules, attributes, render, h)
    {
      if |rules| == 0 {
        NoRulesNoAnswer(exporters, attributes, render);
        return [];
      }
      if count == 0 {
        NothingToRoute(State(), reporting, rules, attributes, render);
        return [];
      }
      matched := [];
      var left := exporters;
      while left != map[]
        invariant forall h :: multiset(matched)[h] + Answer(left, rules, attributes, render, h)
                           == Answer(exporters, rules, attributes, render, h)
        decreases |left|
      {
        var id :| id in left;
        var more := MatchingOf(left[id], attributes);
        forall h ensures Answer(left, rules, attributes, render, h)
                      == multiset(more)[h] + Answer(left - {id}, rules, attributes, render, h)
        {
          SumByRemove(left, id, Hits(rules, attributes, render, h));
        }
        matched := matched + more;
        left := left - {id};
      }
    }
  }
}
