/**
 What the observer handler keeps, as values: how each event changes it, and what every run keeps.

 A notification is a sequence of events; `Step` is one event's effect on the multimap, the router
 and the runner, and `Agrees` says that all of them are what the log calls for.
 */
module Lifecycle {
  import opened Base
  import opened Values
  import opened Backticks
  import opened ConfigTree
  import opened Endpoints
  import opened Router
  import opened Telemetry
  import opened Launch
  import opened History
  import opened ExporterMaps

  // ---------------------------------------------------------------- what the log says the state is

  function ListOf<V>(f: Event -> V, events: seq<Event>): (vs: seq<V>)
    ensures |vs| == |events|
  {
    if |events| == 0 then [] else ListOf(f, events[..|events| - 1]) + [f(events[|events| - 1])]
  }

  function HandleOf(): Event -> Handle {
    (e: Event) => if e.Started? then e.handle else 0
  }

  type Templates = map<TemplateName, Template>

  /** What the router is told when an exporter is started. */
  function RoutedOf(lib: Library, templates: Templates): Event -> RoutedExporter {
    (e: Event) => if e.Started? && e.template in templates && e.endpoint.env.Some? then
           var t := templates[e.template];
           RoutedExporter(e.handle, RoutingProperties(lib, t, e.endpoint.env.value), t.exporterType)
         else RoutedExporter(0, map[], 0)
  }

  /** The templates that match an endpoint, expand for it, and keep an endpoint they name. */
  ghost predicate Eligible(lib: Library, templates: Templates, e: Endpoint, name: TemplateName) {
    && name in templates && e.env.Some?
    && templates[name].rule(e.env.value) == RuleValue(true)
    && ShouldStart(lib, templates[name], e.env.value, e.target)
  }

  ghost function EligibleTemplates(lib: Library, templates: Templates, e: Endpoint): set<TemplateName> {
    set name | name in templates && Eligible(lib, templates, e, name)
  }

  /** A start that was due, with the configuration the template and endpoint call for and signals it enables. */
  ghost predicate JustifiedStart(lib: Library, factories: Factories, templates: Templates, e: Event)
    requires e.Started?
  {
    && Eligible(lib, templates, e.endpoint, e.template)
    && e.config == StartConfig(lib, factories, templates[e.template], e.endpoint.env.value, e.endpoint.target)
    && Usable(e.capabilities, templates[e.template].signals)
  }

  ghost predicate Justified(lib: Library, factories: Factories, templates: Templates, log: Log) {
    forall i :: 0 <= i < |log| && log[i].Started? ==> JustifiedStart(lib, factories, templates, log[i])
  }

  // ---------------------------------------------------------------- what a notification adds to the log

  predicate IsAttempt(e: Event, endpoint: Endpoint) {
    (e.Started? || e.StartFailed?) && e.endpoint == endpoint
  }

  ghost predicate AllAttempts(events: seq<Event>, endpoint: Endpoint) {
    forall i :: 0 <= i < |events| ==> IsAttempt(events[i], endpoint)
  }

  ghost function Attempted(events: seq<Event>): set<TemplateName> {
    if |events| == 0 then {}
    else
      var last := events[|events| - 1];
      Attempted(events[..|events| - 1]) + if last.Started? || last.StartFailed? then {last.template} else {}
  }

  /** One start attempt for each of the given templates, and nothing else. */
  ghost predicate OneAttemptEach(events: seq<Event>, endpoint: Endpoint, names: set<TemplateName>) {
    AllAttempts(events, endpoint) && Attempted(events) == names && |events| == |names|
  }

  /** For each endpoint in turn, one start attempt for each eligible template, in any order. */
  ghost predicate AddShape(lib: Library, templates: Templates, added: seq<Endpoint>, events: seq<Event>) {
    if |added| == 0 then |events| == 0
    else
      var last := added[|added| - 1];
      var names := EligibleTemplates(lib, templates, last);
      && |names| <= |events|
      && OneAttemptEach(events[|events| - |names|..], last, names)
      && AddShape(lib, templates, added[..|added| - 1], events[..|events| - |names|])
  }

  lemma AddShapeSnoc(lib: Library, templates: Templates, added: seq<Endpoint>, events: seq<Event>, e: Endpoint,
                     more: seq<Event>)
    requires AddShape(lib, templates, added, events)
    requires OneAttemptEach(more, e, EligibleTemplates(lib, templates, e))
    ensures AddShape(lib, templates, added + [e], events + more)
  {
    assert (added + [e])[..|added|] == added;
    assert (events + more)[|events|..] == more && (events + more)[..|events|] == events;
  }

  lemma OneAttemptMore(events: seq<Event>, endpoint: Endpoint, names: set<TemplateName>, e: Event)
    requires OneAttemptEach(events, endpoint, names) && IsAttempt(e, endpoint) && e.template !in names
    ensures OneAttemptEach(events + [e], endpoint, names + {e.template})
  {
    assert (events + [e])[..|events|] == events;
  }

  /** What trying one template adds to the log, when due are the templates that should be started. */
  ghost predicate Trial(due: set<TemplateName>, e: Endpoint, name: TemplateName, tried: seq<Event>) {
    if name in due then |tried| == 1 && IsAttempt(tried[0], e) && tried[0].template == name else |tried| == 0
  }

  lemma NoAttemptYet(due: set<TemplateName>, e: Endpoint, all: set<TemplateName>)
    requires due <= all
    ensures OneAttemptEach([], e, due - all) && due - {} == due
  {
    assert due - all == {};
  }

  lemma OneAttemptStep(due: set<TemplateName>, attempts: seq<Event>, e: Endpoint,
                       left: set<TemplateName>, name: TemplateName, tried: seq<Event>)
    requires OneAttemptEach(attempts, e, due - left) && name in left && Trial(due, e, name, tried)
    ensures OneAttemptEach(attempts + tried, e, due - (left - {name}))
  {
    if |tried| > 0 {
      assert due - (left - {name}) == due - left + {name};
      OneAttemptMore(attempts, e, due - left, tried[0]);
      assert tried == [tried[0]];
    } else {
      assert due - (left - {name}) == due - left;
      ConcatNothing(attempts);
      assert attempts + tried == attempts;
    }
  }

  function Removals(endpoints: seq<Endpoint>): seq<Event> {
    if |endpoints| == 0 then [] else Removals(endpoints[..|endpoints| - 1]) + [Removed(endpoints[|endpoints| - 1].id)]
  }

  /** One removal for each endpoint, in order. */
  lemma {:induction false} RemovalsExactly(endpoints: seq<Endpoint>)
    ensures |Removals(endpoints)| == |endpoints|
    ensures forall k :: 0 <= k < |endpoints| ==> Removals(endpoints)[k] == Removed(endpoints[k].id)
  {
    if |endpoints| == 0 {
    } else {
      RemovalsExactly(endpoints[..|endpoints| - 1]);
    }
  }

  lemma {:induction false} AttemptedHas(events: seq<Event>, endpoint: Endpoint, name: TemplateName)
    requires AllAttempts(events, endpoint)
    ensures name in Attempted(events) <==> exists k :: 0 <= k < |events| && events[k].template == name
  {
    if |events| == 0 {
    } else {
      var n := |events| - 1;
      AttemptedHas(events[..n], endpoint, name);
      assert IsAttempt(events[n], endpoint);
      assert forall k :: 0 <= k < n ==> events[..n][k] == events[k];
    }
  }

  lemma {:induction false} AttemptedSize(events: seq<Event>)
    ensures |Attempted(events)| <= |events|
  {
    if |events| == 0 {
    } else {
      AttemptedSize(events[..|events| - 1]);
    }
  }

  /** As many templates as attempts: no template is tried twice. */
  lemma {:induction false} AttemptedOnce(events: seq<Event>, endpoint: Endpoint, k: nat, l: nat)
    requires AllAttempts(events, endpoint) && |Attempted(events)| == |events| && k < l < |events|
    ensures events[k].template != events[l].template
  {
    var n := |events| - 1;
    AttemptedSize(events[..n]);
    assert IsAttempt(events[n], endpoint);
    if l < n {
      AttemptedOnce(events[..n], endpoint, k, l);
    } else {
      AttemptedHas(events[..n], endpoint, events[n].template);
      assert events[..n][k] == events[k];
    }
  }

  /** Each of the templates is tried once for the endpoint, and nothing else happens. */
  lemma OneAttemptExactly(events: seq<Event>, endpoint: Endpoint, names: set<TemplateName>)
    requires OneAttemptEach(events, endpoint, names)
    ensures forall k :: 0 <= k < |events| ==>
              && (events[k].Started? || events[k].StartFailed?)
              && events[k].endpoint == endpoint && events[k].template in names
    ensures forall name :: name in names ==> exists k :: 0 <= k < |events| && events[k].template == name
    ensures forall k, l :: 0 <= k < l < |events| ==> events[k].template != events[l].template
  {
    forall name
      ensures name in names <==> exists k :: 0 <= k < |events| && events[k].template == name
    {
      AttemptedHas(events, endpoint, name);
    }
    forall k | 0 <= k < |events|
      ensures (events[k].Started? || events[k].StartFailed?) && events[k].endpoint == endpoint
    {
      assert IsAttempt(events[k], endpoint);
    }
    forall k, l | 0 <= k < l < |events| ensures events[k].template != events[l].template {
      AttemptedOnce(events, endpoint, k, l);
    }
  }

  /** For each endpoint in turn, one attempt for each template due to it. */
  ghost predicate TriedInTurn(added: seq<Endpoint>, due: seq<set<TemplateName>>, events: seq<Event>)
    requires |due| == |added|
  {
    if |added| == 0 then |events| == 0
    else
      var n := |added| - 1;
      && |due[n]| <= |events|
      && OneAttemptEach(events[|events| - |due[n]|..], added[n], due[n])
      && TriedInTurn(added[..n], due[..n], events[..|events| - |due[n]|])
  }

  lemma {:induction false} AddShapeInTurn(lib: Library, templates: Templates, added: seq<Endpoint>,
                                          due: seq<set<TemplateName>>, events: seq<Event>)
    requires AddShape(lib, templates, added, events) && |due| == |added|
    requires forall i :: 0 <= i < |added| ==> due[i] == EligibleTemplates(lib, templates, added[i])
    ensures TriedInTurn(added, due, events)
  {
    if |added| == 0 {
    } else {
      var n := |added| - 1;
      AddShapeInTurn(lib, templates, added[..n], due[..n], events[..|events| - |due[n]|]);
    }
  }

  function Sizes<T>(sets: seq<set<T>>): nat {
    if |sets| == 0 then 0 else Sizes(sets[..|sets| - 1]) + |sets[|sets| - 1]|
  }

  lemma {:induction false} InTurnLength(added: seq<Endpoint>, due: seq<set<TemplateName>>, events: seq<Event>)
    requires |due| == |added| && TriedInTurn(added, due, events)
    ensures |events| == Sizes(due)
  {
    if |added| == 0 {
    } else {
      var n := |added| - 1;
      InTurnLength(added[..n], due[..n], events[..|events| - |due[n]|]);
    }
  }

  lemma SliceOfTake<T>(s: seq<T>, m: nat, a: nat, b: nat)
    requires a <= b <= m <= |s|
    ensures s[..m][a..b] == s[a..b]
  {
  }

  lemma {:induction false} InTurnAt(added: seq<Endpoint>, due: seq<set<TemplateName>>, events: seq<Event>, i: nat)
    requires |due| == |added| && TriedInTurn(added, due, events) && i < |added|
    ensures Sizes(due[..i]) <= Sizes(due[..i + 1]) <= |events|
    ensures OneAttemptEach(events[Sizes(due[..i])..Sizes(due[..i + 1])], added[i], due[i])
  {
    var n := |added| - 1;
    var m := |events| - |due[n]|;
    TakeNext(due, i);
    InTurnLength(added[..n], due[..n], events[..m]);
    if i == n {
      TakeBounds(due);
      assert events[m..] == events[m..|events|];
    } else {
      InTurnAt(added[..n], due[..n], events[..m], i);
      assert due[..n][..i] == due[..i] && due[..n][..i + 1] == due[..i + 1];
      SliceOfTake(events, m, Sizes(due[..i]), Sizes(due[..i + 1]));
    }
  }

  /** The events of an addition are, endpoint by endpoint and in order, one attempt for each eligible template. */
  lemma AddShapeExactly(lib: Library, templates: Templates, added: seq<Endpoint>, due: seq<set<TemplateName>>,
                        events: seq<Event>, i: nat)
    requires AddShape(lib, templates, added, events) && |due| == |added| && i < |added|
    requires forall i :: 0 <= i < |added| ==> due[i] == EligibleTemplates(lib, templates, added[i])
    ensures |events| == Sizes(due)
    ensures Sizes(due[..i]) <= Sizes(due[..i + 1]) <= |events|
    ensures OneAttemptEach(events[Sizes(due[..i])..Sizes(due[..i + 1])], added[i], due[i])
  {
    AddShapeInTurn(lib, templates, added, due, events);
    InTurnLength(added, due, events);
    InTurnAt(added, due, events, i);
  }

  /**
   The templates tried for an endpoint: those whose rule is true of it, whose configuration has no
   string that fails, and whose own endpoint lasts, or, when they have none, whose target does not fail.
   */
  lemma EligibleExactly(lib: Library, templates: Templates, e: Endpoint, name: TemplateName)
    ensures name in EligibleTemplates(lib, templates, e) <==>
              && name in templates && e.env.Some?
              && var t, env := templates[name], e.env.value;
                 && t.rule(env) == RuleValue(true)
                 && (forall s :: s in StringLeaves(Map(t.config)) ==> Meaning(lib, env, s).Expanded?)
                 && if ENDPOINT in t.config
                    then ExpandAny(lib, env, t.config[ENDPOINT]).Some?
                         && Lasts(ExpandAny(lib, env, t.config[ENDPOINT]).value)
                    else Meaning(lib, env, e.target).Expanded?
  {
    if name in templates && e.env.Some? {
      ShouldStartExactly(lib, templates[name], e.env.value, e.target);
    }
  }

  // ---------------------------------------------------------------- facts about the log's lists

  lemma HeldOneMore(held: seq<Event>, e: Event)
    requires e.Started? && e.handle !in Handles(held)
    ensures multiset(ListOf(HandleOf(), held + [e])) == multiset(ListOf(HandleOf(), held)) + multiset{e.handle}
    ensures multiset(Handles(held + [e])) == multiset(Handles(held)) + multiset{e.handle}
  {
    assert (held + [e])[..|held|] == held;
    HandlesSnoc(held, e);
  }

  /** What an endpoint holds is held once. */
  lemma {:induction false} HeldDistinct(log: Log, id: EndpointId)
    requires Fresh(log)
    ensures multiset(ListOf(HandleOf(), Held(log, id))) == multiset(Handles(Held(log, id)))
  {
    if |log| > 0 {
      var before, e := log[..|log| - 1], log[|log| - 1];
      HeldDistinct(before, id);
      HeldAreStarts(before, id);
      HandlesLast(log);
      if e.Started? && e.endpoint.id == id {
        HeldOneMore(Held(before, id), e);
      }
    } else {
      assert Handles([]) == {};
    }
  }

  // ---------------------------------------------------------------- agreement with the log

  /** m holds, for each endpoint, what f makes of the exporters the log says it holds. */
  ghost predicate Mirrors<V>(m: map<EndpointId, seq<V>>, f: Event -> V, log: Log) {
    && (forall id :: ListAt(m, id) == ListOf(f, Held(log, id)))
    && (forall id :: id in m <==> |Held(log, id)| > 0)
  }

  /** The runner started and stopped what the log says, each start as it was due. */
  ghost predicate Ran(lib: Library, factories: Factories, templates: Templates,
                      next: Handle, stops: multiset<Handle>, log: Log) {
    && Fresh(log) && (forall h :: h in Handles(log) ==> h < next)
    && stops == Stops(log)
    && Justified(lib, factories, templates, log)
  }

  lemma MirrorsStarted<V>(m: map<EndpointId, seq<V>>, f: Event -> V, log: Log, e: Event)
    requires Mirrors(m, f, log) && e.Started?
    ensures Mirrors(m[e.endpoint.id := ListAt(m, e.endpoint.id) + [f(e)]], f, log + [e])
  {
    assert (log + [e])[..|log|] == log;
    var held := Held(log, e.endpoint.id);
    assert (held + [e])[..|held|] == held;
  }

  lemma MirrorsRemoved<V>(m: map<EndpointId, seq<V>>, f: Event -> V, log: Log, id: EndpointId)
    requires Mirrors(m, f, log)
    ensures Mirrors(m - {id}, f, log + [Removed(id)])
  {
    assert (log + [Removed(id)])[..|log|] == log;
  }

  lemma MirrorsSkipped<V>(m: map<EndpointId, seq<V>>, f: Event -> V, log: Log, id: EndpointId)
    requires Mirrors(m, f, log) && |Held(log, id)| == 0
    ensures Mirrors(m, f, log + [Removed(id)])
  {
    assert (log + [Removed(id)])[..|log|] == log;
  }

  lemma MirrorsOther<V>(m: map<EndpointId, seq<V>>, f: Event -> V, log: Log, e: Event)
    requires Mirrors(m, f, log) && (e.StartFailed? || e.Closed?)
    ensures Mirrors(m, f, log + [e])
  {
    assert (log + [e])[..|log|] == log;
  }

  lemma JustifiedSnoc(lib: Library, factories: Factories, templates: Templates, log: Log, e: Event)
    requires Justified(lib, factories, templates, log)
    requires e.Started? ==> JustifiedStart(lib, factories, templates, e)
    ensures Justified(lib, factories, templates, log + [e])
  {
    assert forall i :: 0 <= i < |log| ==> (log + [e])[i] == log[i];
  }

  lemma RanSnoc(lib: Library, factories: Factories, templates: Templates,
                next: Handle, next': Handle, stops: multiset<Handle>, log: Log, e: Event)
    requires Ran(lib, factories, templates, next, stops, log)
    requires if e.Started? then
               && e.handle == next && next' == next + 1
               && JustifiedStart(lib, factories, templates, e)
             else next' == next
    ensures Ran(lib, factories, templates, next', stops + StopsOf(log, e), log + [e])
  {
    FreshSnoc(log, e, next);
    StopsSnoc(log, e);
    JustifiedSnoc(lib, factories, templates, log, e);
  }

  // ---------------------------------------------------------------- steps

  /** What never changes: the libraries, the factories, the templates and whether gauges are reported. */
  datatype Setting = Setting(lib: Library, factories: Factories, templates: Templates, reporting: bool)

  /** Everything a handler keeps. */
  datatype View = View(
    entries: map<EndpointId, seq<Handle>>,
    router: RouterState,
    next: Handle,
    stops: multiset<Handle>,
    log: Log)

  /** What one event does to what the handler keeps. */
  ghost function Step(g: Setting, v: View, e: Event): View {
    match e
    case Started(endpoint, _, handle, _, _) =>
      View(v.entries[endpoint.id := ListAt(v.entries, endpoint.id) + [handle]],
           Added(v.router, g.reporting, endpoint.id, RoutedOf(g.lib, g.templates)(e)),
           handle + 1, v.stops, v.log + [e])
    case StartFailed(_, _) => v.(log := v.log + [e])
    case Removed(id) =>
      var held := ListAt(v.entries, id);
      if |held| == 0 then v.(log := v.log + [e])
      else View(v.entries - {id}, Router.Removed(v.router, g.reporting, id), v.next, v.stops + multiset(held),
          v.log + [e])
    case Closed => v.(stops := v.stops + AllHeld(v.entries), log := v.log + [e])
  }

  ghost function Replay(g: Setting, v: View, events: seq<Event>): View {
    if |events| == 0 then v else Step(g, Replay(g, v, events[..|events| - 1]), events[|events| - 1])
  }

  /** A start takes the runner's next handle and was due. */
  ghost predicate Admissible(g: Setting, v: View, e: Event) {
    e.Started? ==> e.handle == v.next && JustifiedStart(g.lib, g.factories, g.templates, e)
  }

  ghost predicate AllAdmissible(g: Setting, v: View, events: seq<Event>) {
    || |events| == 0
    || (&& AllAdmissible(g, v, events[..|events| - 1])
        && Admissible(g, Replay(g, v, events[..|events| - 1]), events[|events| - 1]))
  }

  /** w is v after the events, each of which could happen. */
  ghost predicate Reaches(g: Setting, v: View, events: seq<Event>, w: View) {
    w == Replay(g, v, events) && AllAdmissible(g, v, events)
  }

  lemma ReachesOne(g: Setting, v: View, e: Event)
    requires Admissible(g, v, e)
    ensures Reaches(g, v, [e], Step(g, v, e))
  {
    assert [e][..0] == [];
  }

  lemma ConcatLast<T>(a: seq<T>, b: seq<T>)
    requires |b| > 0
    ensures |a + b| > 0 && (a + b)[..|a + b| - 1] == a + b[..|b| - 1] && (a + b)[|a + b| - 1] == b[|b| - 1]
  {
  }

  lemma {:induction false} ReplayConcat(g: Setting, v: View, a: seq<Event>, b: seq<Event>)
    ensures Replay(g, v, a + b) == Replay(g, Replay(g, v, a), b)
  {
    if |b| == 0 {
      ConcatNothing(a);
      assert a + b == a;
    } else {
      ConcatLast(a, b);
      ReplayConcat(g, v, a, b[..|b| - 1]);
    }
  }

  lemma {:induction false} AdmissibleConcat(g: Setting, v: View, a: seq<Event>, b: seq<Event>)
    requires AllAdmissible(g, v, a) && AllAdmissible(g, Replay(g, v, a), b)
    ensures AllAdmissible(g, v, a + b)
  {
    if |b| == 0 {
      ConcatNothing(a);
      assert a + b == a;
    } else {
      ConcatLast(a, b);
      ReplayConcat(g, v, a, b[..|b| - 1]);
      AdmissibleConcat(g, v, a, b[..|b| - 1]);
    }
  }

  lemma ReachesThen(g: Setting, v: View, a: seq<Event>, w: View, b: seq<Event>, x: View)
    requires Reaches(g, v, a, w) && Reaches(g, w, b, x)
    ensures Reaches(g, v, a + b, x)
  {
    ReplayConcat(g, v, a, b);
    AdmissibleConcat(g, v, a, b);
  }

  lemma {:induction false} ReplayLog(g: Setting, v: View, events: seq<Event>)
    ensures Replay(g, v, events).log == v.log + events
  {
    if |events| == 0 {
    } else {
      var n := |events| - 1;
      ReplayLog(g, v, events[..n]);
      TakeNext(events, n);
      ConcatAssociative(v.log, events[..n], [events[n]]);
    }
  }

  /** A template is due to be started for an endpoint, and these are its two configurations. */
  ghost predicate Startable(g: Setting, e: Endpoint, name: TemplateName,
                            configs: (map<Bytes, Value>, map<Bytes, Value>)) {
    match configs
    case (resolved, discovered) =>
      && Eligible(g.lib, g.templates, e, name)
      && var t := g.templates[name];
         MergeMaps(resolved, Kept(g.factories, t.exporterType, resolved, discovered))
           == StartConfig(g.lib, g.factories, t, e.env.value, e.target)
  }

  lemma StartableIsEligible(g: Setting, e: Endpoint, name: TemplateName,
                            configs: (map<Bytes, Value>, map<Bytes, Value>))
    requires Startable(g, e, name, configs)
    ensures name in g.templates && e.env.Some? && name in EligibleTemplates(g.lib, g.templates, e)
  {
  }

  lemma StartIsDue(g: Setting, v: View, e: Endpoint, name: TemplateName,
                   configs: (map<Bytes, Value>, map<Bytes, Value>), has: Signals)
    requires Startable(g, e, name, configs) && name in g.templates && e.env.Some?
    requires Usable(has, g.templates[name].signals)
    ensures var t := g.templates[name];
            var merged := MergeMaps(configs.0, Kept(g.factories, t.exporterType, configs.0, configs.1));
            var event := Started(e, name, v.next, merged, has);
            && Admissible(g, v, event)
            && Step(g, v, event) == View(
                 v.entries[e.id := ListAt(v.entries, e.id) + [v.next]],
                 Added(v.router, g.reporting, e.id,
                     RoutedExporter(v.next, RoutingProperties(g.lib, t, e.env.value), t.exporterType)),
                 v.next + 1, v.stops, v.log + [event])
  {
  }

  // ---------------------------------------------------------------- what every step keeps

  /** The multimap, the router and the runner all agree with the log. */
  ghost predicate Agrees(g: Setting, v: View) {
    && Mirrors(v.entries, HandleOf(), v.log)
    && Mirrors(v.router.exporters, RoutedOf(g.lib, g.templates), v.log)
    && Coherent(v.router, g.reporting)
    && Ran(g.lib, g.factories, g.templates, v.next, v.stops, v.log)
  }

  lemma AgreesStarted(g: Setting, v: View, e: Event)
    requires Agrees(g, v) && e.Started? && Admissible(g, v, e)
    ensures Agrees(g, Step(g, v, e))
  {
    MirrorsStarted(v.entries, HandleOf(), v.log, e);
    MirrorsStarted(v.router.exporters, RoutedOf(g.lib, g.templates), v.log, e);
    AddedCoherent(v.router, g.reporting, e.endpoint.id, RoutedOf(g.lib, g.templates)(e));
    RanSnoc(g.lib, g.factories, g.templates, v.next, v.next + 1, v.stops, v.log, e);
    assert v.stops + multiset{} == v.stops;
  }

  lemma AgreesFailed(g: Setting, v: View, e: Event)
    requires Agrees(g, v) && e.StartFailed?
    ensures Agrees(g, Step(g, v, e))
  {
    MirrorsOther(v.entries, HandleOf(), v.log, e);
    MirrorsOther(v.router.exporters, RoutedOf(g.lib, g.templates), v.log, e);
    RanSnoc(g.lib, g.factories, g.templates, v.next, v.next, v.stops, v.log, e);
    assert v.stops + multiset{} == v.stops;
  }

  lemma AgreesRemovedHeld(g: Setting, v: View, id: EndpointId)
    requires Agrees(g, v) && |ListAt(v.entries, id)| > 0
    ensures Agrees(g, Step(g, v, Removed(id)))
  {
    HeldDistinct(v.log, id);
    MirrorsRemoved(v.entries, HandleOf(), v.log, id);
    MirrorsRemoved(v.router.exporters, RoutedOf(g.lib, g.templates), v.log, id);
    RemovedCoherent(v.router, g.reporting, id);
    RanSnoc(g.lib, g.factories, g.templates, v.next, v.next, v.stops, v.log, Removed(id));
  }

  /** Skipping an endpoint that holds nothing loses nothing: the router has nothing for it either. */
  lemma AgreesRemovedNothing(g: Setting, v: View, id: EndpointId)
    requires Agrees(g, v) && |ListAt(v.entries, id)| == 0
    ensures Agrees(g, Step(g, v, Removed(id)))
  {
    HeldDistinct(v.log, id);
    MirrorsSkipped(v.entries, HandleOf(), v.log, id);
    MirrorsSkipped(v.router.exporters, RoutedOf(g.lib, g.templates), v.log, id);
    RanSnoc(g.lib, g.factories, g.templates, v.next, v.next, v.stops, v.log, Removed(id));
    assert v.stops + StopsOf(v.log, Removed(id)) == v.stops;
  }

  /** Everything the multimap holds is what is live, each exporter once. */
  lemma AllHeldIsLive(entries: map<EndpointId, seq<Handle>>, log: Log)
    requires Mirrors(entries, HandleOf(), log) && Fresh(log)
    ensures AllHeld(entries) == multiset(Live(log))
  {
    forall h ensures AllHeld(entries)[h] == multiset(Live(log))[h] {
      AllHeldCount(entries, h);
      forall id | id in entries
        ensures Occurrences(h)(entries[id]) == if h in Handles(Held(log, id)) then 1 else 0
      {
        assert entries[id] == ListAt(entries, id);
        HeldDistinct(log, id);
      }
      if h in Live(log) {
        var owner := LiveIsHeld(log, h);
        assert owner in entries by {
          HeldDistinct(log, owner);
        }
        SumByRemove(entries, owner, Occurrences(h));
        forall id | id in entries - {owner} ensures h !in Handles(Held(log, id)) {
          HeldOnce(log, owner, id, h);
        }
        SumByZero(entries - {owner}, Occurrences(h));
      } else {
        forall id | id in entries ensures h !in Handles(Held(log, id)) {
          if h in Handles(Held(log, id)) {
            HeldOnce(log, id, id, h);
          }
        }
        SumByZero(entries, Occurrences(h));
      }
    }
  }

  lemma AgreesClosed(g: Setting, v: View)
    requires Agrees(g, v)
    ensures Agrees(g, Step(g, v, Closed))
  {
    AllHeldIsLive(v.entries, v.log);
    MirrorsOther(v.entries, HandleOf(), v.log, Closed);
    MirrorsOther(v.router.exporters, RoutedOf(g.lib, g.templates), v.log, Closed);
    RanSnoc(g.lib, g.factories, g.templates, v.next, v.next, v.stops, v.log, Closed);
  }

  /** Over every run of events that can happen, everything the handler keeps agrees with its log. */
  lemma {:induction false} AgreesAlways(g: Setting, v: View, events: seq<Event>)
    requires Agrees(g, v) && AllAdmissible(g, v, events)
    ensures Agrees(g, Replay(g, v, events))
  {
    if |events| == 0 {
    } else {
      var n := |events| - 1;
      AgreesAlways(g, v, events[..n]);
      var w, e := Replay(g, v, events[..n]), events[n];
      match e
      case Started(_, _, _, _, _) => AgreesStarted(g, w, e);
      case StartFailed(_, _) => AgreesFailed(g, w, e);
      case Removed(id) =>
        if |ListAt(w.entries, id)| == 0 {
          AgreesRemovedNothing(g, w, id);
        } else {
          AgreesRemovedHeld(g, w, id);
        }
      case Closed => AgreesClosed(g, w);
    }
  }

  // ---------------------------------------------------------------- what agreement gives

  lemma {:induction false} ListOfMember<V>(f: Event -> V, events: seq<Event>, i: nat)
    requires i < |events|
    ensures ListOf(f, events)[i] == f(events[i])
  {
    if i + 1 == |events| {
    } else {
      ListOfMember(f, events[..|events| - 1], i);
    }
  }

  lemma {:induction false} SumByPointwise<K, V, W>(m: map<K, V>, f: V -> int, n: map<K, W>, g: W -> int)
    requires m.Keys == n.Keys && forall k :: k in m ==> f(m[k]) == g(n[k])
    ensures SumBy(m, f) == SumBy(n, g)
    decreases |m|
  {
    if m == map[] {
      assert n == map[];
    } else {
      var k := Pick(m);
      SumByPointwise(m - {k}, f, n - {k}, g);
      SumByRemove(n, k, g);
    }
  }

  /** The multimap's size is the router's cached count. */
  lemma SizeIsCount(g: Setting, v: View)
    requires Agrees(g, v)
    ensures SumBy(v.entries, ListLength()) == v.router.count
  {
    forall id | id in v.entries ensures ListLength()(v.entries[id]) == Length()(v.router.exporters[id]) {
      assert v.entries[id] == ListAt(v.entries, id) && v.router.exporters[id] == ListAt(v.router.exporters, id);
    }
    assert v.entries.Keys == v.router.exporters.Keys;
    SumByPointwise(v.entries, ListLength(), v.router.exporters, Length());
  }

  /**
   Until the handler is shut down, an exporter that was started is either in the multimap, and not
   stopped, or stopped once, and not in the multimap.
   */
  lemma StartedIsHeldOrStopped(g: Setting, v: View, h: Handle)
    requires Agrees(g, v) && NotClosed(v.log)
    ensures h in Handles(v.log) ==> AllHeld(v.entries)[h] + v.stops[h] == 1
    ensures h !in Handles(v.log) ==> AllHeld(v.entries)[h] == v.stops[h] == 0
  {
    AllHeldIsLive(v.entries, v.log);
    Conservation(v.log, h);
  }

  /** Once it is shut down for good, every exporter it ever started has been stopped exactly once. */
  lemma AllStoppedOnce(g: Setting, v: View, h: Handle)
    requires Agrees(g, v) && NotClosed(v.log)
    ensures Step(g, v, Closed).stops[h] == if h in Handles(v.log) then 1 else 0
  {
    StartedIsHeldOrStopped(g, v, h);
  }

  /** Until the handler is shut down, nothing the router can return has been stopped. */
  lemma RoutedAreRunning(g: Setting, v: View, id: EndpointId, i: nat)
    requires Agrees(g, v) && NotClosed(v.log)
    requires id in v.router.exporters && i < |v.router.exporters[id]|
    ensures v.router.exporters[id][i].exporter in Handles(v.log)
    ensures v.stops[v.router.exporters[id][i].exporter] == 0
  {
    var held := Held(v.log, id);
    assert v.router.exporters[id] == ListAt(v.router.exporters, id);
    HeldAreJustified(g, v, id, i);
    ListOfMember(RoutedOf(g.lib, g.templates), held, i);
    var h := held[i].handle;
    assert h in Handles(held);
    HeldOnce(v.log, id, id, h);
    Conservation(v.log, h);
  }

  lemma HeldAreJustified(g: Setting, v: View, id: EndpointId, i: nat)
    requires Agrees(g, v) && i < |Held(v.log, id)|
    ensures var e := Held(v.log, id)[i];
            e.Started? && e.endpoint.id == id && JustifiedStart(g.lib, g.factories, g.templates, e)
  {
    var at := HeldExactly(v.log, id);
    assert HeldAt(v.log, id, at[i]) && Held(v.log, id)[i] == v.log[at[i]];
  }

  /**
   What the multimap and the router hold for an endpoint, exporter by exporter: the handle of the
   start, and with it the properties and the type its template gives the endpoint it was started for.
   */
  lemma RegisteredExactly(g: Setting, v: View, id: EndpointId)
    requires Agrees(g, v)
    ensures |ListAt(v.entries, id)| == |ListAt(v.router.exporters, id)| == |Held(v.log, id)|
    ensures forall i :: 0 <= i < |Held(v.log, id)| ==>
              var e, r := Held(v.log, id)[i], ListAt(v.router.exporters, id)[i];
              && e.Started? && e.template in g.templates && e.endpoint.env.Some?
              && ListAt(v.entries, id)[i] == r.exporter == e.handle
              && r.exporterType == g.templates[e.template].exporterType
              && r.properties == RoutingProperties(g.lib, g.templates[e.template], e.endpoint.env.value)
  {
    var held := Held(v.log, id);
    forall i | 0 <= i < |held|
      ensures var e, r := held[i], ListAt(v.router.exporters, id)[i];
              && e.Started? && e.template in g.templates && e.endpoint.env.Some?
              && ListAt(v.entries, id)[i] == r.exporter == e.handle
              && r.exporterType == g.templates[e.template].exporterType
              && r.properties == RoutingProperties(g.lib, g.templates[e.template], e.endpoint.env.value)
    {
      HeldAreJustified(g, v, id, i);
      ListOfMember(HandleOf(), held, i);
      ListOfMember(RoutedOf(g.lib, g.templates), held, i);
    }
  }

  /** Whatever was started was eligible, with the configuration called for and signals its template enables. */
  lemma StartedWasDue(g: Setting, v: View, i: nat)
    requires Agrees(g, v) && i < |v.log| && v.log[i].Started?
    ensures var e := v.log[i];
            && e.template in EligibleTemplates(g.lib, g.templates, e.endpoint)
            && ShouldStart(g.lib, g.templates[e.template], e.endpoint.env.value, e.endpoint.target)
            && e.config == StartConfig(g.lib, g.factories, g.templates[e.template], e.endpoint.env.value,
                                       e.endpoint.target)
            && (exists s :: e.capabilities.Has(s))
            && forall s :: e.capabilities.Has(s) ==> g.templates[e.template].signals.Has(s)
  {
    assert JustifiedStart(g.lib, g.factories, g.templates, v.log[i]);
    UsableExactly(v.log[i].capabilities, g.templates[v.log[i].template].signals);
  }

  ghost predicate AllRouted(g: Setting, events: seq<Event>) {
    && (forall i :: 0 <= i < |events| ==>
        events[i].Started? && RoutedOf(g.lib, g.templates)(events[i]).exporter == events[i].handle)
    && (forall i, j :: 0 <= i < j < |events| ==> events[i].handle != events[j].handle)
  }

  /** The event started h, and its exporter matches. */
  ghost predicate StartedMatch(g: Setting, rules: seq<Rule>, attributes: Attributes, render: Value -> Bytes,
                               h: Handle, e: Event) {
    && e.Started? && e.handle == h
    && Matches(rules, attributes, RoutedOf(g.lib, g.templates)(e).properties, render)
  }

  /** Some event of the list started h, and its exporter matches. */
  ghost predicate MatchIn(g: Setting, events: seq<Event>, rules: seq<Rule>, attributes: Attributes,
                          render: Value -> Bytes, h: Handle) {
    exists i :: 0 <= i < |events| && StartedMatch(g, rules, attributes, render, h, events[i])
  }

  lemma MatchInLast(g: Setting, events: seq<Event>, rules: seq<Rule>, attributes: Attributes, render: Value -> Bytes,
                    h: Handle)
    requires |events| > 0
    ensures var n := |events| - 1;
            MatchIn(g, events, rules, attributes, render, h) <==>
              MatchIn(g, events[..n], rules, attributes, render, h)
                  || StartedMatch(g, rules, attributes, render, h, events[n])
  {
    var n := |events| - 1;
    var before := events[..n];
    if i :| 0 <= i < n && StartedMatch(g, rules, attributes, render, h, before[i]) {
      assert StartedMatch(g, rules, attributes, render, h, events[i]);
    }
    if i :| 0 <= i < n && StartedMatch(g, rules, attributes, render, h, events[i]) {
      assert StartedMatch(g, rules, attributes, render, h, before[i]);
    }
  }

  lemma AllRoutedLast(g: Setting, events: seq<Event>, h: Handle)
    requires AllRouted(g, events) && |events| > 0
    ensures AllRouted(g, events[..|events| - 1])
    ensures var last := events[|events| - 1];
            last.Started? && RoutedOf(g.lib, g.templates)(last).exporter == last.handle
    ensures events[|events| - 1].handle == h ==> forall e :: e in events[..|events| - 1] ==> e.Started? && e.handle != h
  {
  }

  lemma {:induction false} HitCountOfHeld(g: Setting, events: seq<Event>, rules: seq<Rule>,
                                          attributes: Attributes, render: Value -> Bytes, h: Handle)
    requires AllRouted(g, events)
    ensures HitCount(ListOf(RoutedOf(g.lib, g.templates), events), rules, attributes, render, h) ==
            if MatchIn(g, events, rules, attributes, render, h) then 1 else 0
  {
    if |events| == 0 {
    } else {
      var n := |events| - 1;
      var f := RoutedOf(g.lib, g.templates);
      AllRoutedLast(g, events, h);
      MatchInLast(g, events, rules, attributes, render, h);
      HitCountOfHeld(g, events[..n], rules, attributes, render, h);
      assert ListOf(f, events)[..n] == ListOf(f, events[..n]) && ListOf(f, events)[n] == f(events[n]);
    }
  }

  lemma HeldAreRouted(g: Setting, v: View, id: EndpointId)
    requires Agrees(g, v)
    ensures AllRouted(g, Held(v.log, id))
  {
    var held := Held(v.log, id);
    var at := HeldExactly(v.log, id);
    forall i | 0 <= i < |held|
      ensures held[i].Started? && RoutedOf(g.lib, g.templates)(held[i]).exporter == held[i].handle
    {
      HeldAreJustified(g, v, id, i);
    }
    forall i, j | 0 <= i < j < |held| ensures held[i].handle != held[j].handle {
      assert HeldAt(v.log, id, at[i]) && HeldAt(v.log, id, at[j]);
      FreshDistinct(v.log, at[i], at[j]);
    }
  }

  /** What an endpoint's entry in the router contributes to an answer. */
  lemma HitsOfHeld(g: Setting, v: View, id: EndpointId, rules: seq<Rule>, attributes: Attributes,
                   render: Value -> Bytes, h: Handle)
    requires Agrees(g, v) && id in v.router.exporters
    ensures Hits(rules, attributes, render, h)(v.router.exporters[id]) ==
            if MatchIn(g, Held(v.log, id), rules, attributes, render, h) then 1 else 0
  {
    assert v.router.exporters[id] == ListAt(v.router.exporters, id);
    HeldAreRouted(g, v, id);
    HitCountOfHeld(g, Held(v.log, id), rules, attributes, render, h);
  }

  lemma OneOwner(g: Setting, v: View, owner: EndpointId, id: EndpointId, rules: seq<Rule>, attributes: Attributes,
                 render: Value -> Bytes, h: Handle)
    requires Agrees(g, v) && MatchIn(g, Held(v.log, owner), rules, attributes, render, h)
    ensures owner in v.router.exporters
    ensures MatchIn(g, Held(v.log, id), rules, attributes, render, h) ==> id == owner
  {
    MatchIsHeld(g, v.log, owner, rules, attributes, render, h);
    HeldOnce(v.log, owner, id, h);
    if MatchIn(g, Held(v.log, id), rules, attributes, render, h) {
      MatchIsHeld(g, v.log, id, rules, attributes, render, h);
    }
  }

  /** h was started for some endpoint and not removed since, and its exporter matches. */
  ghost predicate HeldMatch(g: Setting, log: Log, rules: seq<Rule>, attributes: Attributes,
                            render: Value -> Bytes, h: Handle) {
    exists id :: MatchIn(g, Held(log, id), rules, attributes, render, h)
  }

  /**
   End to end: a resource is routed to an exporter, once, exactly when the exporter was started
   for an endpoint and not removed since, and its endpoint's properties with the template's
   resource attributes over them satisfy every rule.
   */
  lemma RoutedExactly(g: Setting, v: View, rules: seq<Rule>, attributes: Attributes, render: Value -> Bytes, h: Handle)
    requires Agrees(g, v)
    ensures Answer(v.router.exporters, rules, attributes, render, h) ==
            if HeldMatch(g, v.log, rules, attributes, render, h) then 1 else 0
  {
    var exporters, hits := v.router.exporters, Hits(rules, attributes, render, h);
    if owner :| MatchIn(g, Held(v.log, owner), rules, attributes, render, h) {
      OneOwner(g, v, owner, owner, rules, attributes, render, h);
      HitsOfHeld(g, v, owner, rules, attributes, render, h);
      SumByRemove(exporters, owner, hits);
      forall id | id in exporters - {owner} ensures hits(exporters[id]) == 0 {
        HitsOfHeld(g, v, id, rules, attributes, render, h);
        OneOwner(g, v, owner, id, rules, attributes, render, h);
      }
      SumByZero(exporters - {owner}, hits);
    } else {
      forall id | id in exporters ensures hits(exporters[id]) == 0 {
        HitsOfHeld(g, v, id, rules, attributes, render, h);
      }
      SumByZero(exporters, hits);
    }
  }

  lemma MatchIsHeld(g: Setting, log: Log, id: EndpointId, rules: seq<Rule>, attributes: Attributes,
                    render: Value -> Bytes, h: Handle)
    requires MatchIn(g, Held(log, id), rules, attributes, render, h)
    ensures h in Handles(Held(log, id))
  {
  }
}
