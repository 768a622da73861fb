/**
 A schedule in which routing returns a stopped exporter.

 A removal stops an endpoint's exporters before it takes them out of the router. One thread that
 adds an endpoint and removes it, and another that routes in between, are enough.
 */
module RemovalWindow {
  import opened Base
  import opened Endpoints
  import opened Values
  import opened Router
  import opened Interleaving
  import opened Linearization

  /** The state in which thread i is at another place and the world is another. */
  function Moved(st: State, i: nat, p: Place, w: World): State
    requires i < |st.threads|
  {
    State(st.threads[i := st.threads[i].(place := p)], w)
  }

  /** One step of a thread that is not between calls. */
  lemma OneAct(cfg: Config, calls: seq<seq<Call>>, schedule: seq<Choice>, st: State, i: nat, id: EndpointId)
    returns (more: seq<Choice>, end: State)
    requires After(cfg, calls, schedule) == Some(st) && CanStep(cfg, st, Choice(i, id)) && !st.threads[i].place.Idle?
    ensures After(cfg, calls, more) == Some(end)
    ensures var (p, w) := Act(cfg, st.world, i, st.threads[i].place, id); end == Moved(st, i, p, w)
  {
    OneMore(cfg, calls, schedule, st, Choice(i, id));
    more, end := schedule + [Choice(i, id)], Next(cfg, st, Choice(i, id));
  }

  lemma MovedTwice(st: State, i: nat, p: Place, w: World, q: Place, x: World)
    requires i < |st.threads|
    ensures Moved(Moved(st, i, p, w), i, q, x) == Moved(st, i, q, x)
  {
  }

  lemma OneStage(cfg: Config, calls: seq<seq<Call>>, schedule: seq<Choice>, st: State, i: nat, k: nat)
    returns (more: seq<Choice>, end: State)
    requires After(cfg, calls, schedule) == Some(st) && i < |st.threads| && k < STAGES
    requires st.threads[i].place.Updating? && st.threads[i].place.phase == Writing(k)
    ensures After(cfg, calls, more) == Some(end)
    ensures var p := st.threads[i].place;
            end == Moved(st, i, p.(phase := Writing(k + 1)),
                         st.world.(router := Stage(st.world.router, cfg.reporting, p.update, k)))
  {
    more, end := OneAct(cfg, calls, schedule, st, i, 0);
  }

  /** The states an update takes the router through. */
  ghost predicate Stages(rs: seq<RouterState>, reporting: bool, u: Update) {
    forall k :: 0 <= k < |rs| - 1 ==> rs[k + 1] == Stage(rs[k], reporting, u, k)
  }

  function AllStages(s: RouterState, reporting: bool, u: Update): (rs: seq<RouterState>)
    ensures |rs| == STAGES + 1
  {
    seq(STAGES + 1, k requires 0 <= k < STAGES + 1 => Staged(s, reporting, u, k))
  }

  lemma StagesFollow(s: RouterState, reporting: bool, u: Update)
    ensures Stages(AllStages(s, reporting, u), reporting, u)
  {
    forall k | 0 <= k < STAGES
      ensures AllStages(s, reporting, u)[k + 1] == Stage(AllStages(s, reporting, u)[k], reporting, u, k)
    {
      StagedNext(s, reporting, u, k);
    }
  }

  /** A writer that has the lock takes the router to the n-th of these states. */
  lemma {:induction false} WriterStages(cfg: Config, calls: seq<seq<Call>>, schedule: seq<Choice>, st: State, i: nat,
                                        u: Update, rs: seq<RouterState>, n: nat, errand: Errand)
    returns (more: seq<Choice>, end: State)
    requires After(cfg, calls, schedule) == Some(st) && i < |st.threads| && n <= STAGES
    requires st.threads[i].place == Updating(u, Writing(0), errand)
    requires |rs| == STAGES + 1 && Stages(rs, cfg.reporting, u) && st.world.router == rs[0]
    ensures After(cfg, calls, more) == Some(end)
    ensures end == Moved(st, i, Updating(u, Writing(n), errand), st.world.(router := rs[n]))
  {
    if n == 0 {
      more, end := schedule, st;
    } else {
      var next, mid := WriterStages(cfg, calls, schedule, st, i, u, rs, n - 1, errand);
      more, end := OneStage(cfg, calls, next, mid, i, n - 1);
      MovedTwice(st, i, Updating(u, Writing(n - 1), errand), mid.world, Updating(u, Writing(n), errand), end.world);
    }
  }

  /** Done with them, it leaves. */
  lemma WriterLeaves(cfg: Config, calls: seq<seq<Call>>, schedule: seq<Choice>, st: State,
                     i: nat, u: Update, errand: Errand)
    returns (more: seq<Choice>, end: State)
    requires After(cfg, calls, schedule) == Some(st) && i < |st.threads|
    requires st.threads[i].place == Updating(u, Writing(STAGES), errand)
    ensures After(cfg, calls, more) == Some(end)
    ensures end == Moved(st, i, Returned(u, errand),
                         st.world.(locks := st.world.locks.(writer := None), updates := st.world.updates + [u]))
  {
    more, end := OneAct(cfg, calls, schedule, st, i, 0);
  }

  /** A writer that nobody holds up gets the lock and completes its update. */
  lemma WriterRuns(cfg: Config, calls: seq<seq<Call>>, schedule: seq<Choice>, st: State, i: nat, u: Update,
                   errand: Errand)
    returns (more: seq<Choice>, end: State)
    requires After(cfg, calls, schedule) == Some(st) && i < |st.threads|
    requires st.threads[i].place == Updating(u, Asking, errand)
    requires MayRead(st.world.locks) && st.world.locks.readers == multiset{}
    ensures After(cfg, calls, more) == Some(end)
    ensures end == Moved(st, i, Returned(u, errand),
                         st.world.(router := Staged(st.world.router, cfg.reporting, u, STAGES),
                                   updates := st.world.updates + [u]))
  {
    var l := st.world.locks;
    var waits, writes := Updating(u, Queued, errand), Updating(u, Writing(0), errand);
    var w1 := Locking(st.world, l.(queued := Some(i)));
    var w2 := Locking(st.world, l.(writer := Some(i)));
    var r1, s1 := OneAct(cfg, calls, schedule, st, i, 0);
    assert s1 == Moved(st, i, waits, w1);
    var r2, s2 := OneAct(cfg, calls, r1, s1, i, 0);
    MovedTwice(st, i, waits, w1, writes, w2);
    assert s2 == Moved(st, i, writes, w2);
    var rs := AllStages(st.world.router, cfg.reporting, u);
    StagesFollow(st.world.router, cfg.reporting, u);
    var r3, s3 := WriterStages(cfg, calls, r2, s2, i, u, rs, STAGES, errand);
    MovedTwice(st, i, writes, w2, Updating(u, Writing(STAGES), errand), s3.world);
    more, end := WriterLeaves(cfg, calls, r3, s3, i, u, errand);
    MovedTwice(st, i, Updating(u, Writing(STAGES), errand), s3.world, Returned(u, errand), end.world);
  }

  /** The first steps of a thread that adds an endpoint: its exporter is started and held, not yet routed to. */
  lemma AddBegins(cfg: Config, calls: seq<seq<Call>>, id: EndpointId, properties: Properties, jobs: seq<Job>)
    returns (schedule: seq<Choice>, st: State)
    requires |calls| == 2 && calls[0] == [Notify([Start(id, properties, 0)] + jobs, true)]
    ensures After(cfg, calls, schedule) == Some(st) && |st.threads| == 2
    ensures st.threads[1] == Thread(calls[1], Idle)
    ensures st.threads[0].place
         == Updating(Add(id, RoutedExporter(0, properties, 0)), Asking, ForHandler(jobs, true))
    ensures st.world == World(Locks(Some(0), None, multiset{}, None, None), EMPTY, [],
                              map[id := [0]], 1, multiset{}, false, [])
  {
    var s0, c := Initial(calls), Choice(0, 0);
    OneMore(cfg, calls, [], s0, c);
    var s1 := Next(cfg, s0, c);
    assert s1.threads[1] == s0.threads[1] == Thread(calls[1], Idle);
    assert s1.threads[0].place == Handling([Start(id, properties, 0)] + jobs, true);
    assert ([Start(id, properties, 0)] + jobs)[1..] == jobs;
    schedule, st := OneAct(cfg, calls, [] + [c], s1, 0, 0);
    assert ListAt(s1.world.entries, id) + [0] == [0];
  }

  /** An endpoint is added and its removal begins: its one exporter is stopped and still routed to. */
  lemma RemovalBegins(cfg: Config, calls: seq<seq<Call>>, id: EndpointId, properties: Properties)
    returns (schedule: seq<Choice>, st: State)
    requires |calls| == 2 && calls[0] == [Notify([Start(id, properties, 0)] + [Drop(id)], true)]
    ensures After(cfg, calls, schedule) == Some(st) && |st.threads| == 2
    ensures st.threads[1] == Thread(calls[1], Idle)
    ensures var e := RoutedExporter(0, properties, 0);
            st.world == World(Locks(Some(0), None, multiset{}, None, None), Added(EMPTY, cfg.reporting, id, e),
                              [Add(id, e)], map[id := [0]], 1, multiset{0}, false, [])
  {
    var u := Add(id, RoutedExporter(0, properties, 0));
    var r1, s1 := AddBegins(cfg, calls, id, properties, [Drop(id)]);
    var r2, s2 := WriterRuns(cfg, calls, r1, s1, 0, u, ForHandler([Drop(id)], true));
    StagesAddUp(EMPTY, cfg.reporting, u);
    assert [] + [u] == [u];
    schedule, st := DropStops(cfg, calls, r2, s2, id);
  }

  lemma DropStops(cfg: Config, calls: seq<seq<Call>>, schedule: seq<Choice>, st: State, id: EndpointId)
    returns (more: seq<Choice>, end: State)
    requires After(cfg, calls, schedule) == Some(st) && |st.threads| == 2
    requires st.threads[0].place == Handling([Drop(id)], true) && st.world.entries == map[id := [0]]
    requires st.world.stopped == multiset{}
    ensures After(cfg, calls, more) == Some(end) && |end.threads| == 2
    ensures end.threads[1] == st.threads[1] && end.world == st.world.(stopped := multiset{0})
  {
    var r1, s1 := OneAct(cfg, calls, schedule, st, 0, 0);
    more, end := OneAct(cfg, calls, r1, s1, 0, 0);
  }

  /** Another thread routes meanwhile, and is answered with it. */
  lemma RouteAnswers(cfg: Config, st: State, id: EndpointId, e: RoutedExporter, attributes: Attributes)
    returns (s1: State, s2: State, s3: State)
    requires !cfg.reentrant && Matches(cfg.rules, attributes, e.properties, cfg.render)
    requires |st.threads| == 2 && st.threads[1].place.Idle? && MayRead(st.world.locks)
    requires |st.threads[1].calls| > 0 && st.threads[1].calls[0] == Route(attributes)
    requires st.world.router.exporters == map[id := [e]] && st.world.router.count == 1
    ensures CanStep(cfg, st, Choice(1, id)) && s1 == Next(cfg, st, Choice(1, id))
    ensures CanStep(cfg, s1, Choice(1, id)) && s2 == Next(cfg, s1, Choice(1, id))
    ensures CanStep(cfg, s2, Choice(1, id)) && s3 == Next(cfg, s2, Choice(1, id))
    ensures s3.world.answers == st.world.answers + [Routed(attributes, [e.exporter], |st.world.updates|)]
    ensures s3.world.stopped == st.world.stopped && s3.world.closed == st.world.closed
  {
    var c := Choice(1, id);
    s1 := Next(cfg, st, c);
    assert s1.threads[1].place == Scanning(attributes, {}, []);
    assert id in s1.world.router.exporters && !ScanDone(cfg, s1.world, {});
    s2 := Next(cfg, s1, c);
    assert MatchingIn(cfg, [e], attributes) == [e.exporter];
    assert s2.threads[1].place == Scanning(attributes, {id}, [e.exporter]);
    s3 := Next(cfg, s2, c);
  }

  /** Before any shutdown, with a matching resource, routing returns an exporter that has been stopped. */
  lemma RouteReturnsStopped(cfg: Config, id: EndpointId, properties: Properties, attributes: Attributes)
    returns (calls: seq<seq<Call>>, schedule: seq<Choice>)
    requires !cfg.reentrant && Matches(cfg.rules, attributes, properties, cfg.render)
    ensures calls == [[Notify([Start(id, properties, 0), Drop(id)], true)], [Route(attributes)]]
    ensures After(cfg, calls, schedule).Some?
    ensures var w := After(cfg, calls, schedule).value.world;
            w.answers == [Routed(attributes, [0], 1)] && w.stopped[0] == 1 && !w.closed
  {
    calls := [[Notify([Start(id, properties, 0), Drop(id)], true)], [Route(attributes)]];
    assert [Start(id, properties, 0), Drop(id)] == [Start(id, properties, 0)] + [Drop(id)];
    var begun, st := RemovalBegins(cfg, calls, id, properties);
    var e := RoutedExporter(0, properties, 0);
    assert ListAt(EMPTY.exporters, id) + [e] == [e];
    var s1, s2, s3 := RouteAnswers(cfg, st, id, e, attributes);
    var c := Choice(1, id);
    OneMore(cfg, calls, begun, st, c);
    OneMore(cfg, calls, begun + [c], s1, c);
    OneMore(cfg, calls, begun + [c] + [c], s2, c);
    schedule := begun + [c] + [c] + [c];
  }
}
