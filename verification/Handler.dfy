/** The observer handler: endpoint notifications start and stop exporters and keep the router in step. */
module Handler {
  import opened Base
  import opened Values
  import opened Backticks
  import opened ConfigTree
  import opened Endpoints
  import opened Router
  import opened Telemetry
  import opened Launch
  import opened History
  import opened ExporterMaps
  import opened Lifecycle

  // ---------------------------------------------------------------- the runner

  /** What asking a factory for a sub-exporter comes to. */
  datatype Creation = Made | NotSupported | Broken

  /** What was asked of the factory, signal by signal. */
  datatype Creations = Creations(logs: Option<Creation>, metrics: Option<Creation>, traces: Option<Creation>)

  const NOTHING_ASKED := Creations(None, None, None)

  /** What starting the sub-exporters came to, for each that was started. */
  datatype Starts = Starts(logs: Option<bool>, metrics: Option<bool>, traces: Option<bool>)

  const NOTHING_STARTED := Starts(None, None, None)

  /** Whether the configuration loaded, what was created, and what starting it came to. */
  datatype Attempt = Attempt(loaded: bool, creations: Creations, starts: Starts)

  predicate AsksFor(signals: Signals, c: Creations) {
    c.logs.Some? == signals.logs && c.metrics.Some? == signals.metrics && c.traces.Some? == signals.traces
  }

  predicate AnyBroken(c: Creations) {
    c.logs == Some(Broken) || c.metrics == Some(Broken) || c.traces == Some(Broken)
  }

  predicate AnyMade(c: Creations) {
    c.logs == Some(Made) || c.metrics == Some(Made) || c.traces == Some(Made)
  }

  /** A signal the factory does not support is left out; any other error, or nothing left, is a failure. */
  predicate Complete(c: Creations) {
    !AnyBroken(c) && AnyMade(c)
  }

  predicate AllStarted(s: Starts) {
    s.logs != Some(false) && s.metrics != Some(false) && s.traces != Some(false)
  }

  predicate Launches(a: Attempt) {
    a.loaded && Complete(a.creations) && AllStarted(a.starts)
  }

  /** The signals a wrapped exporter has a sub-exporter for. */
  function Capabilities(c: Creations): Signals {
    Signals(c.logs == Some(Made), c.metrics == Some(Made), c.traces == Some(Made))
  }

  /** Exactly the sub-exporters that were made are started. */
  predicate StartsAll(has: Signals, s: Starts) {
    s.logs.Some? == has.logs && s.metrics.Some? == has.metrics && s.traces.Some? == has.traces
  }

  /** Nothing is asked for without a configuration, and nothing started unless all that was asked for is complete. */
  predicate Follows(signals: Signals, a: Attempt) {
    && (if a.loaded then AsksFor(signals, a.creations) else a.creations == NOTHING_ASKED)
    && (if a.loaded && Complete(a.creations) then StartsAll(Capabilities(a.creations), a.starts)
        else a.starts == NOTHING_STARTED)
  }

  // ---------------------------------------------------------------- the calls an attempt makes

  /** A call out of the runner, and what came of it. */
  datatype Call =
    | Loading(config: map<Bytes, Value>, ok: bool)
    | Creating(signal: Signal, creation: Creation)
    | Starting(signal: Signal, ok: bool)

  function CreatingIf(signal: Signal, c: Option<Creation>): seq<Call> {
    if c.Some? then [Creating(signal, c.value)] else []
  }

  function StartingIf(signal: Signal, s: Option<bool>): seq<Call> {
    if s.Some? then [Starting(signal, s.value)] else []
  }

  function CreationCalls(c: Creations): seq<Call> {
    CreatingIf(Logs, c.logs) + CreatingIf(Metrics, c.metrics) + CreatingIf(Traces, c.traces)
  }

  function StartCalls(s: Starts): seq<Call> {
    StartingIf(Logs, s.logs) + StartingIf(Metrics, s.metrics) + StartingIf(Traces, s.traces)
  }

  /** The calls of an attempt, in order. */
  function CallsOf(config: map<Bytes, Value>, a: Attempt): seq<Call> {
    [Loading(config, a.loaded)] + (CreationCalls(a.creations) + StartCalls(a.starts))
  }

  function CreationOf(c: Creations, s: Signal): Option<Creation> {
    match s
    case Logs => c.logs
    case Metrics => c.metrics
    case Traces => c.traces
  }

  function StartOf(starts: Starts, s: Signal): Option<bool> {
    match s
    case Logs => starts.logs
    case Metrics => starts.metrics
    case Traces => starts.traces
  }

  lemma InThree<T>(x: T, a: seq<T>, b: seq<T>, c: seq<T>)
    ensures x in a + b + c <==> x in a || x in b || x in c
    ensures x in a + (b + c) <==> x in a || x in b || x in c
  {
  }

  /** An attempt's calls, one by one. */
  lemma CallsExactly(config: map<Bytes, Value>, a: Attempt, call: Call)
    ensures call in CallsOf(config, a) <==>
              match call
              case Loading(c, ok) => c == config && ok == a.loaded
              case Creating(s, creation) => CreationOf(a.creations, s) == Some(creation)
              case Starting(s, ok) => StartOf(a.starts, s) == Some(ok)
  {
    var c, s := a.creations, a.starts;
    InThree(call, [Loading(config, a.loaded)], CreationCalls(c), StartCalls(s));
    InThree(call, CreatingIf(Logs, c.logs), CreatingIf(Metrics, c.metrics), CreatingIf(Traces, c.traces));
    InThree(call, StartingIf(Logs, s.logs), StartingIf(Metrics, s.metrics), StartingIf(Traces, s.traces));
  }

  /**
   An attempt launches an exporter exactly when its configuration loads, no creation breaks, one makes
   a sub-exporter, and no start fails.
   */
  lemma LaunchesExactly(config: map<Bytes, Value>, a: Attempt)
    ensures Launches(a) <==>
              && Loading(config, true) in CallsOf(config, a)
              && (forall s :: Creating(s, Broken) !in CallsOf(config, a))
              && (exists s :: Creating(s, Made) in CallsOf(config, a))
              && (forall s :: Starting(s, false) !in CallsOf(config, a))
  {
    CallsExactly(config, a, Loading(config, true));
    forall s
      ensures Creating(s, Broken) in CallsOf(config, a) <==> CreationOf(a.creations, s) == Some(Broken)
      ensures Creating(s, Made) in CallsOf(config, a) <==> CreationOf(a.creations, s) == Some(Made)
      ensures Starting(s, false) in CallsOf(config, a) <==> StartOf(a.starts, s) == Some(false)
    {
      CallsExactly(config, a, Creating(s, Broken));
      CallsExactly(config, a, Creating(s, Made));
      CallsExactly(config, a, Starting(s, false));
    }
    LaunchesBySignal(a);
  }

  lemma LaunchesBySignal(a: Attempt)
    ensures Launches(a) <==>
              && a.loaded
              && (forall s :: CreationOf(a.creations, s) != Some(Broken))
              && (exists s :: CreationOf(a.creations, s) == Some(Made))
              && (forall s :: StartOf(a.starts, s) != Some(false))
  {
    var c, s := a.creations, a.starts;
    assert CreationOf(c, Logs) == c.logs && CreationOf(c, Metrics) == c.metrics && CreationOf(c, Traces) == c.traces;
    assert StartOf(s, Logs) == s.logs && StartOf(s, Metrics) == s.metrics && StartOf(s, Traces) == s.traces;
  }

  /**
   A factory is asked for exactly the enabled signals, once a configuration has loaded; and what is
   made is started when nothing broke. So a launched exporter has the signals that were made.
   */
  lemma FollowsExactly(signals: Signals, config: map<Bytes, Value>, a: Attempt, s: Signal)
    requires Follows(signals, a)
    ensures (exists c :: Creating(s, c) in CallsOf(config, a)) <==> a.loaded && signals.Has(s)
    ensures Creating(s, Made) in CallsOf(config, a) <==> Capabilities(a.creations).Has(s)
    ensures (exists ok :: Starting(s, ok) in CallsOf(config, a)) <==>
              && Creating(s, Made) in CallsOf(config, a)
              && forall other :: Creating(other, Broken) !in CallsOf(config, a)
    ensures Launches(a) ==> (Starting(s, true) in CallsOf(config, a) <==> Capabilities(a.creations).Has(s))
  {
    forall s, c ensures Creating(s, c) in CallsOf(config, a) <==> CreationOf(a.creations, s) == Some(c) {
      CallsExactly(config, a, Creating(s, c));
    }
    forall ok ensures Starting(s, ok) in CallsOf(config, a) <==> StartOf(a.starts, s) == Some(ok) {
      CallsExactly(config, a, Starting(s, ok));
    }
    FollowsBySignal(signals, a, s);
    if CreationOf(a.creations, s).Some? {
      assert Creating(s, CreationOf(a.creations, s).value) in CallsOf(config, a);
    }
    if StartOf(a.starts, s).Some? {
      assert Starting(s, StartOf(a.starts, s).value) in CallsOf(config, a);
    }
  }

  lemma FollowsBySignal(signals: Signals, a: Attempt, s: Signal)
    requires Follows(signals, a)
    ensures CreationOf(a.creations, s).Some? <==> a.loaded && signals.Has(s)
    ensures CreationOf(a.creations, s) == Some(Made) <==> Capabilities(a.creations).Has(s)
    ensures StartOf(a.starts, s).Some? <==>
              CreationOf(a.creations, s) == Some(Made) && forall other :: CreationOf(a.creations, other) != Some(Broken)
    ensures Launches(a) ==> (StartOf(a.starts, s) == Some(true) <==> Capabilities(a.creations).Has(s))
  {
    var c := a.creations;
    assert CreationOf(c, Logs) == c.logs && CreationOf(c, Metrics) == c.metrics && CreationOf(c, Traces) == c.traces;
    assert Launches(a) ==> StartOf(a.starts, s) != Some(false);
    var started := StartOf(a.starts, s);
    assert started.Some? ==> started.value == true || started.value == false;
  }

  /**
   A sub-exporter has been started for an exporter that is not launched exactly when another one's
   start failed; no handle is given for it, so nothing stops it.
   */
  lemma StartedInVain(signals: Signals, config: map<Bytes, Value>, a: Attempt, s: Signal)
    requires Follows(signals, a) && Starting(s, true) in CallsOf(config, a)
    ensures !Launches(a) <==> exists other :: Starting(other, false) in CallsOf(config, a)
  {
    CallsExactly(config, a, Starting(s, true));
    forall other ensures Starting(other, false) in CallsOf(config, a) <==> StartOf(a.starts, other) == Some(false) {
      CallsExactly(config, a, Starting(other, false));
    }
    LaunchesBySignal(a);
    FollowsBySignal(signals, a, s);
  }

  /** As when logs start and metrics do not. */
  lemma StartCanFailHalfway(config: map<Bytes, Value>)
    ensures var a := Attempt(true, Creations(Some(Made), Some(Made), None), Starts(Some(true), Some(false), None));
            && Follows(Signals(true, true, false), a) && !Launches(a)
            && Starting(Logs, true) in CallsOf(config, a) && Starting(Metrics, false) in CallsOf(config, a)
  {
    var a := Attempt(true, Creations(Some(Made), Some(Made), None), Starts(Some(true), Some(false), None));
    CallsExactly(config, a, Starting(Logs, true));
    CallsExactly(config, a, Starting(Metrics, false));
  }

  /** A start as the runner tried it: the configuration it loaded and what came of the attempt. */
  datatype Try = Try(config: map<Bytes, Value>, attempt: Attempt)

  /** The start that a template is due for an endpoint. */
  ghost predicate DueTry(g: Setting, endpoint: Endpoint, name: TemplateName, t: Try) {
    && Eligible(g.lib, g.templates, endpoint, name)
    && t.config == StartConfig(g.lib, g.factories, g.templates[name], endpoint.env.value, endpoint.target)
    && Follows(g.templates[name].signals, t.attempt)
  }

  /** The event logged is what came of the try. */
  ghost predicate TriedFor(g: Setting, e: Event, t: Try) {
    match e
    case Started(endpoint, name, _, config, has) =>
      && DueTry(g, endpoint, name, t) && Launches(t.attempt)
      && config == t.config && has == Capabilities(t.attempt.creations)
    case StartFailed(endpoint, name) => DueTry(g, endpoint, name, t) && !Launches(t.attempt)
    case _ => false
  }

  /** The tries between the two lists are, one by one, those the events are logged for. */
  ghost predicate TriedAs(g: Setting, events: seq<Event>, before: seq<Try>, after: seq<Try>) {
    && before <= after && |after| == |before| + |events|
    && forall i :: 0 <= i < |events| ==> TriedFor(g, events[i], after[|before| + i])
  }

  lemma TriedNothing(g: Setting, tries: seq<Try>)
    ensures TriedAs(g, [], tries, tries)
  {
  }

  lemma TriedOne(g: Setting, e: Event, before: seq<Try>, t: Try)
    requires TriedFor(g, e, t)
    ensures TriedAs(g, [e], before, before + [t])
  {
  }

  lemma TriedThen(g: Setting, a: seq<Event>, x: seq<Try>, y: seq<Try>, b: seq<Event>, z: seq<Try>)
    requires TriedAs(g, a, x, y) && TriedAs(g, b, y, z)
    ensures TriedAs(g, a + b, x, z)
  {
    forall i | 0 <= i < |a + b| ensures TriedFor(g, (a + b)[i], z[|x| + i]) {
      if i < |a| {
        assert TriedFor(g, a[i], y[|x| + i]);
      } else {
        assert TriedFor(g, b[i - |a|], z[|y| + (i - |a|)]);
      }
    }
  }

  lemma Chain<T>(start: seq<T>, a: seq<T>, b: seq<T>, c: seq<T>)
    ensures start + a + b + c == start + (a + b + c) == start + (a + (b + c))
  {
  }

  /** Starts and stops exporters; whether an external call succeeds is arbitrary. */
  class Runner {
    const factories: Factories
    var next: Handle
    var calls: seq<Call>
    ghost var tries: seq<Try>
    var stops: multiset<Handle>
    var errors: nat

    constructor (factories: Factories)
      ensures this.factories == factories && next == 0 && calls == [] && stops == multiset{} && errors == 0
      ensures tries == []
    {
      this.factories, next, calls, stops, errors := factories, 0, [], multiset{}, 0;
      tries := [];
    }

    /** Loads and validates a merged configuration. */
    method Load(config: map<Bytes, Value>) returns (ok: bool)
      modifies `calls
      ensures calls == old(calls) + [Loading(config, ok)]
    {
      ok := *;
      calls := calls + [Loading(config, ok)];
    }

    /** Asks for a sub-exporter if its signal is enabled. */
    method Create(signal: Signal, enabled: bool) returns (c: Option<Creation>)
      modifies `calls
      ensures c.Some? == enabled && calls == old(calls) + CreatingIf(signal, c)
    {
      c := None;
      if enabled {
        var creation: Creation := *;
        c := Some(creation);
        calls := calls + [Creating(signal, creation)];
      }
    }

    /** Starts a sub-exporter if there is one. */
    method StartOne(signal: Signal, made: bool) returns (s: Option<bool>)
      modifies `calls
      ensures s.Some? == made && calls == old(calls) + StartingIf(signal, s)
    {
      s := None;
      if made {
        var ok: bool := *;
        s := Some(ok);
        calls := calls + [Starting(signal, ok)];
      }
    }

    /** Asks for a sub-exporter for each enabled signal. */
    method CreateAll(signals: Signals) returns (c: Creations)
      modifies `calls
      ensures AsksFor(signals, c) && calls == old(calls) + CreationCalls(c)
    {
      ghost var start := calls;
      var logs := Create(Logs, signals.logs);
      var metrics := Create(Metrics, signals.metrics);
      var traces := Create(Traces, signals.traces);
      c := Creations(logs, metrics, traces);
      Chain(start, CreatingIf(Logs, logs), CreatingIf(Metrics, metrics), CreatingIf(Traces, traces));
    }

    /** Starts every sub-exporter there is, whatever the others' starts return. */
    method StartAll(has: Signals) returns (s: Starts)
      modifies `calls
      ensures StartsAll(has, s) && calls == old(calls) + StartCalls(s)
    {
      ghost var start := calls;
      var logs := StartOne(Logs, has.logs);
      var metrics := StartOne(Metrics, has.metrics);
      var traces := StartOne(Traces, has.traces);
      s := Starts(logs, metrics, traces);
      Chain(start, StartingIf(Logs, logs), StartingIf(Metrics, metrics), StartingIf(Traces, traces));
    }

    /** The calls that load, create and start, up to the first step that fails. */
    method TryStart(signals: Signals, config: map<Bytes, Value>) returns (attempt: Attempt)
      modifies `calls
      ensures Follows(signals, attempt) && calls == old(calls) + CallsOf(config, attempt)
    {
      ghost var start := calls;
      var loaded := Load(config);
      attempt := Attempt(loaded, NOTHING_ASKED, NOTHING_STARTED);
      if loaded {
        var creations := CreateAll(signals);
        attempt := attempt.(creations := creations);
        if !AnyBroken(creations) && AnyMade(creations) {
          var starts := StartAll(Capabilities(creations));
          attempt := attempt.(starts := starts);
        }
      }
      Chain(start, [Loading(config, loaded)], CreationCalls(attempt.creations), StartCalls(attempt.starts));
    }

    /** An exporter that starts has a sub-exporter for at least one signal, and only for enabled ones. */
    method Start(t: Template, resolved: map<Bytes, Value>, discovered: map<Bytes, Value>)
      returns (r: Option<Handle>, merged: map<Bytes, Value>, attempt: Attempt)
      modifies this`next, this`calls, this`tries
      ensures merged == MergeMaps(resolved, Kept(factories, t.exporterType, resolved, discovered))
      ensures calls == old(calls) + CallsOf(merged, attempt) && Follows(t.signals, attempt)
      ensures tries == old(tries) + [Try(merged, attempt)]
      ensures if r.Some? then r.value == old(next) && next == old(next) + 1 else next == old(next)
      ensures r.Some? <==> Launches(attempt)
      ensures r.Some? ==> Usable(Capabilities(attempt.creations), t.signals)
    {
      var target;
      merged, target := MergeTemplatedAndDiscoveredConfigs(factories, t.exporterType, resolved, discovered);
      attempt := TryStart(t.signals, merged);
      tries := tries + [Try(merged, attempt)];
      if !Launches(attempt) {
        return None, merged, attempt;
      }
      next := next + 1;
      return Some(next - 1), merged, attempt;
    }

    method Shutdown(exporter: Handle) returns (ok: bool)
      modifies this`stops, this`errors
      ensures stops == old(stops) + multiset{exporter}
      ensures errors == old(errors) + if ok then 0 else 1
    {
      stops := stops + multiset{exporter};
      ok := *;
      if !ok {
        errors := errors + 1;
      }
    }
  }

  lemma TryIsDue(g: Setting, e: Endpoint, name: TemplateName, configs: (map<Bytes, Value>, map<Bytes, Value>),
                 outcome: Attempt, event: Event)
    requires Startable(g, e, name, configs) && name in g.templates && Follows(g.templates[name].signals, outcome)
    requires IsAttempt(event, e) && event.template == name && (event.Started? <==> Launches(outcome))
    requires var t := g.templates[name];
             var merged := MergeMaps(configs.0, Kept(g.factories, t.exporterType, configs.0, configs.1));
             event.Started? ==> event.config == merged && event.capabilities == Capabilities(outcome.creations)
    ensures var t := g.templates[name];
            var merged := MergeMaps(configs.0, Kept(g.factories, t.exporterType, configs.0, configs.1));
            TriedFor(g, event, Try(merged, outcome))
  {
  }

  class ObserverHandler {
    const lib: Library
    const templates: Templates
    const exporters: ExporterMap
    const router: TelemetryRouter
    const runner: Runner
    ghost var log: Log

    ghost function Settings(): Setting {
      Setting(lib, runner.factories, templates, router.reporting)
    }

    ghost function State(): View
      reads this, exporters, router, runner
    {
      View(exporters.entries, router.State(), runner.next, runner.stops, log)
    }

    /** With the handler's mutex free, everything it keeps agrees with its log. */
    ghost predicate Valid()
      reads this, exporters, router, runner
    {
      Agrees(Settings(), State())
    }

    constructor (lib: Library, templates: Templates, router: TelemetryRouter, factories: Factories)
      requires router.State() == EMPTY
      ensures Valid() && log == []
      ensures this.router == router && this.lib == lib && this.templates == templates && runner.factories == factories
      ensures fresh(exporters) && fresh(runner)
    {
      this.lib, this.templates, this.router := lib, templates, router;
      exporters := new ExporterMap();
      runner := new Runner(factories);
      log := [];
      new;
      assert Handles([]) == {};
      RunCoherent([], router.reporting);
    }

    /** Registers a started exporter with the multimap and the router. */
    method Register(e: Endpoint, exporter: Handle, template: Template, env: Properties)
      modifies exporters, router
      ensures exporters.entries == old(exporters.entries)[e.id := ListAt(old(exporters.entries), e.id) + [exporter]]
      ensures router.State() == Added(old(router.State()), router.reporting, e.id,
                                      RoutedExporter(exporter, RoutingProperties(lib, template, env),
                                          template.exporterType))
    {
      exporters.Put(e.id, exporter);
      var routingEnv := RoutingEnv(lib, template, env);
      router.AddExporter(e.id, exporter, routingEnv, template.exporterType);
    }

    /** Starts an exporter from its two configurations; it is registered only if it starts. */
    method StartResolved(name: TemplateName, env: Properties, e: Endpoint,
                         configs: (map<Bytes, Value>, map<Bytes, Value>))
      returns (ghost attempt: Event)
      requires name in templates && e.env == Some(env) && Startable(Settings(), e, name, configs)
      modifies this`log, exporters, router, runner
      ensures Admissible(Settings(), old(State()), attempt) && State() == Step(Settings(), old(State()), attempt)
      ensures IsAttempt(attempt, e) && attempt.template == name
      ensures TriedAs(Settings(), [attempt], old(runner.tries), runner.tries)
    {
      var started, merged, outcome := runner.Start(templates[name], configs.0, configs.1);
      if started.None? {
        attempt := StartFailed(e, name);
      } else {
        var has := Capabilities(outcome.creations);
        StartIsDue(Settings(), old(State()), e, name, configs, has);
        Register(e, started.value, templates[name], env);
        attempt := Started(e, name, started.value, merged, has);
      }
      log := log + [attempt];
      TryIsDue(Settings(), e, name, configs, outcome, attempt);
      TriedOne(Settings(), attempt, old(runner.tries), Try(merged, outcome));
    }

    /** Starts one template's exporter for an endpoint, unless a configuration fails or loses its endpoint. */
    method StartExporter(name: TemplateName, env: Properties, e: Endpoint) returns (ghost attempt: seq<Event>)
      requires name in templates && e.env == Some(env) && templates[name].rule(env) == RuleValue(true)
      modifies this`log, exporters, router, runner
      ensures Reaches(Settings(), old(State()), attempt, State())
      ensures Trial(EligibleTemplates(lib, templates, e), e, name, attempt)
      ensures TriedAs(Settings(), attempt, old(runner.tries), runner.tries)
    {
      attempt := [];
      TriedNothing(Settings(), runner.tries);
      var configs := ResolveConfigs(lib, runner.factories, templates[name], env, e.target);
      if configs.Some? {
        StartableIsEligible(Settings(), e, name, configs.value);
        ghost var tried := StartResolved(name, env, e, configs.value);
        ReachesOne(Settings(), old(State()), tried);
        attempt := [tried];
      }
    }

    /** Tries one template for an endpoint, if its rule matches. */
    method TryTemplate(name: TemplateName, env: Properties, e: Endpoint) returns (ghost tried: seq<Event>)
      requires name in templates && e.env == Some(env)
      modifies this`log, exporters, router, runner
      ensures Reaches(Settings(), old(State()), tried, State())
      ensures Trial(EligibleTemplates(lib, templates, e), e, name, tried)
      ensures TriedAs(Settings(), tried, old(runner.tries), runner.tries)
    {
      tried := [];
      TriedNothing(Settings(), runner.tries);
      var matches := templates[name].rule(env);
      if matches == RuleValue(true) {
        tried := StartExporter(name, env, e);
      }
    }

    /** Tries every template for one endpoint, in any order. */
    method StartMatching(e: Endpoint, env: Properties) returns (ghost attempts: seq<Event>)
      requires e.env == Some(env)
      modifies this`log, exporters, router, runner
      ensures Reaches(Settings(), old(State()), attempts, State())
      ensures OneAttemptEach(attempts, e, EligibleTemplates(lib, templates, e))
      ensures TriedAs(Settings(), attempts, old(runner.tries), runner.tries)
    {
      ghost var g, start, due := Settings(), State(), EligibleTemplates(lib, templates, e);
      ghost var first := runner.tries;
      TriedNothing(g, first);
      attempts := [];
      var left := templates.Keys;
      NoAttemptYet(due, e, left);
      while left != {}
        invariant left <= templates.Keys
        invariant Reaches(g, start, attempts, State())
        invariant OneAttemptEach(attempts, e, due - left)
        invariant TriedAs(g, attempts, first, runner.tries)
        decreases |left|
      {
        var name :| name in left;
        ghost var before, tries := State(), runner.tries;
        ghost var tried := TryTemplate(name, env, e);
        ReachesThen(g, start, attempts, before, tried, State());
        TriedThen(g, attempts, first, tries, tried, runner.tries);
        OneAttemptStep(due, attempts, e, left, name, tried);
        attempts := attempts + tried;
        left := left - {name};
      }
    }

    /** Handles added endpoints: one start attempt per eligible template of each. */
    method OnAddLocked(added: seq<Endpoint>) returns (ghost events: seq<Event>)
      modifies this`log, exporters, router, runner
      ensures Reaches(Settings(), old(State()), events, State())
      ensures AddShape(lib, templates, added, events)
      ensures TriedAs(Settings(), events, old(runner.tries), runner.tries)
    {
      events := [];
      ghost var first := runner.tries;
      TriedNothing(Settings(), first);
      TakeBounds(added);
      for i := 0 to |added|
        invariant Reaches(Settings(), old(State()), events, State())
        invariant AddShape(lib, templates, added[..i], events)
        invariant TriedAs(Settings(), events, first, runner.tries)
      {
        var e := added[i];
        ghost var attempts: seq<Event> := [];
        ConcatNothing(events);
        if e.env.Some? {
          ghost var before, tries := State(), runner.tries;
          attempts := StartMatching(e, e.env.value);
          ReachesThen(Settings(), old(State()), events, before, attempts, State());
          TriedThen(Settings(), events, first, tries, attempts, runner.tries);
        }
        AddShapeSnoc(lib, templates, added[..i], events, e, attempts);
        TakeNext(added, i);
        events := events + attempts;
      }
    }

    /** Shuts down exporters in turn, whatever each call returns, and counts the calls that fail. */
    method StopAll(exps: seq<Handle>) returns (failures: nat)
      modifies runner`stops, runner`errors
      ensures runner.stops == old(runner.stops) + multiset(exps)
      ensures runner.errors == old(runner.errors) + failures
    {
      failures := 0;
      TakeBounds(exps);
      for i := 0 to |exps|
        invariant runner.stops == old(runner.stops) + multiset(exps[..i])
        invariant runner.errors == old(runner.errors) + failures
      {
        var ok := runner.Shutdown(exps[i]);
        TakeNext(exps, i);
        if !ok {
          failures := failures + 1;
        }
      }
    }

    /** Stops and forgets every exporter of an endpoint, if it has any. */
    method RemoveEndpoint(id: EndpointId)
      modifies this`log, exporters, router, runner`stops, runner`errors
      ensures Reaches(Settings(), old(State()), [Removed(id)], State())
    {
      ReachesOne(Settings(), State(), Removed(id));
      var exps := exporters.Get(id);
      if |exps| > 0 {
        var failures := StopAll(exps);
        router.RemoveExporter(id);
        exporters.RemoveAll(id);
      }
      log := log + [Removed(id)];
    }

    /** Handles removed endpoints. */
    method OnRemoveLocked(removed: seq<Endpoint>)
      modifies this`log, exporters, router, runner`stops, runner`errors
      ensures Reaches(Settings(), old(State()), Removals(removed), State())
    {
      TakeBounds(removed);
      for i := 0 to |removed|
        invariant Reaches(Settings(), old(State()), Removals(removed[..i]), State())
      {
        ghost var before := State();
        RemoveEndpoint(removed[i].id);
        TakeNext(removed, i);
        ReachesThen(Settings(), old(State()), Removals(removed[..i]), before, [Removed(removed[i].id)], State());
      }
    }

    /** OnAdd: keeps everything in agreement and logs one attempt per eligible template of each endpoint. */
    method OnAdd(added: seq<Endpoint>) returns (ghost events: seq<Event>)
      requires Valid()
      modifies this`log, exporters, router, runner
      ensures Valid() && log == old(log) + events
      ensures AddShape(lib, templates, added, events)
      ensures TriedAs(Settings(), events, old(runner.tries), runner.tries)
    {
      events := OnAddLocked(added);
      AgreesAlways(Settings(), old(State()), events);
      ReplayLog(Settings(), old(State()), events);
    }

    method OnRemove(removed: seq<Endpoint>)
      requires Valid()
      modifies this`log, exporters, router, runner`stops, runner`errors
      ensures Valid() && log == old(log) + Removals(removed)
    {
      OnRemoveLocked(removed);
      AgreesAlways(Settings(), old(State()), Removals(removed));
      ReplayLog(Settings(), old(State()), Removals(removed));
    }

    /** OnChange: every endpoint is removed before any is added again. */
    method OnChange(changed: seq<Endpoint>) returns (ghost events: seq<Event>)
      requires Valid()
      modifies this`log, exporters, router, runner
      ensures Valid() && log == old(log) + Removals(changed) + events
      ensures AddShape(lib, templates, changed, events)
      ensures TriedAs(Settings(), events, old(runner.tries), runner.tries)
    {
      OnRemoveLocked(changed);
      ghost var between := State();
      AgreesAlways(Settings(), old(State()), Removals(changed));
      ReplayLog(Settings(), old(State()), Removals(changed));
      events := OnAddLocked(changed);
      AgreesAlways(Settings(), between, events);
      ReplayLog(Settings(), between, events);
    }

    /** Stops everything the multimap holds, endpoints in any order, and counts the calls that fail. */
    method StopEverything() returns (failures: nat)
      modifies runner`stops, runner`errors
      ensures runner.stops == old(runner.stops) + AllHeld(exporters.entries)
      ensures runner.errors == old(runner.errors) + failures
    {
      ghost var entries, before := exporters.entries, runner.stops;
      failures := 0;
      var left := exporters.entries;
      while left != map[]
        invariant runner.stops + AllHeld(left) == before + AllHeld(entries)
        invariant runner.errors == old(runner.errors) + failures
        decreases |left|
      {
        var id :| id in left;
        AllHeldRemove(left, id);
        var failed := StopAll(left[id]);
        failures := failures + failed;
        left := left - {id};
      }
    }

    /** The final shutdown: stops everything held, forgets nothing, and reports an error exactly when a call failed. */
    method Shutdown() returns (ok: bool)
      requires Valid()
      modifies this`log, runner`stops, runner`errors
      ensures Valid() && log == old(log) + [Closed]
      ensures ok <==> runner.errors == old(runner.errors)
    {
      AgreesClosed(Settings(), State());
      var failures := StopEverything();
      log := log + [Closed];
      ok := failures == 0;
      assert State() == Step(Settings(), old(State()), Closed);
    }
  }
}
