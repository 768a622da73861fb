/**
 Routing and endpoint churn on several threads, one step at a time.

 A step is as much as a thread does between two points where another may run. The router's lock is
 a read-write lock that prefers writers: once one has queued, no new reader gets in. The handler
 and the tracker have a mutex each. A schedule may pick any thread and, while routing, any endpoint
 not yet visited.
 */
module Interleaving {
  import opened Base
  import opened Endpoints
  import opened Values
  import opened Router
  import opened ExporterMaps

  // ---------------------------------------------------------------- what threads do

  /** A step of a notification: an exporter that starts, an endpoint that goes, or the final shutdown. */
  datatype Job = Start(id: EndpointId, properties: Properties, kind: TypeName) | Drop(id: EndpointId) | Close

  /**
   A notification is tracked after it is handled; the final shutdown is not. An edit is one call of
   AddExporter or RemoveExporter straight on the router, past the handler and its mutex.
   */
  datatype Call =
    | Route(attributes: Attributes)
    | Count
    | Notify(jobs: seq<Job>, tracked: bool)
    | Edit(update: Update)

  /** How far a writer has got with the router's lock. */
  datatype Phase = Asking | Queued | Writing(done: nat)

  /** On whose behalf the router is updated, and what its caller has left to do. */
  datatype Errand = Direct | ForHandler(jobs: seq<Job>, tracked: bool)

  /** Where a thread is. */
  datatype Place =
    | Idle
    | Scanning(attributes: Attributes, seen: set<EndpointId>, out: seq<Handle>)
    | Rereading(attributes: Attributes, out: seq<Handle>)
    | Reread(attributes: Attributes, out: seq<Handle>)
    | Counting
    | Handling(jobs: seq<Job>, tracked: bool)
    | Stopping(id: EndpointId, left: seq<Handle>, jobs: seq<Job>, tracked: bool)
    | Updating(update: Update, phase: Phase, errand: Errand)
    | Forgetting(id: EndpointId, jobs: seq<Job>, tracked: bool)
    | Reporting
    | Tracking

  datatype Thread = Thread(calls: seq<Call>, place: Place)

  /** What a call returned, and how many updates the router had made by then. */
  datatype Answered = Routed(attributes: Attributes, out: seq<Handle>, at: nat) | Counted(n: int, at: nat)

  /** Who holds the two mutexes, and who reads, has queued to write, or writes under the router's lock. */
  datatype Locks = Locks(
    handler: Option<nat>, tracker: Option<nat>,
    readers: multiset<nat>, queued: Option<nat>, writer: Option<nat>)

  /** The locks, the router with the updates it has completed, and what the handler owns. */
  datatype World = World(
    locks: Locks,
    router: RouterState, updates: seq<Update>,
    entries: map<EndpointId, seq<Handle>>, next: Handle, stopped: multiset<Handle>, closed: bool,
    answers: seq<Answered>)

  datatype State = State(threads: seq<Thread>, world: World)

  /** reentrant makes Route take the read lock again while it holds it, as asking for the count would. */
  datatype Config = Config(rules: seq<Rule>, render: Value -> Bytes, reporting: bool, reentrant: bool)

  /** Which thread runs next, and the endpoint it visits if it is routing. */
  datatype Choice = Choice(thread: nat, id: EndpointId)

  // ---------------------------------------------------------------- one update in stages

  const STAGES: nat := 4

  /** The stages of AddExporter and RemoveExporter, in their order. */
  function Stage(s: RouterState, reporting: bool, u: Update, k: nat): RouterState {
    match u
    case Add(id, e) =>
      if k == 0 then s.(exporters := s.exporters[id := ListAt(s.exporters, id) + [e]])
      else if k == 1 then s.(count := s.count + 1)
      else if k == 2 then s.(byType := s.byType[e.exporterType := CountAt(s.byType, e.exporterType) + 1])
      else Recorded(s, reporting)
    case Remove(id) =>
      if k == 0 then s.(byType := Decremented(s.byType, ListAt(s.exporters, id)))
      else if k == 1 then s.(count := s.count - |ListAt(s.exporters, id)|)
      else if k == 2 then s.(exporters := s.exporters - {id})
      else Recorded(s, reporting)
  }

  function Staged(s: RouterState, reporting: bool, u: Update, k: nat): RouterState {
    if k == 0 then s else Stage(Staged(s, reporting, u, k - 1), reporting, u, k - 1)
  }

  // ---------------------------------------------------------------- a step

  predicate MayRead(l: Locks) {
    l.queued.None? && l.writer.None?
  }

  /** Route has visited every endpoint, or need not visit any. */
  predicate ScanDone(cfg: Config, w: World, seen: set<EndpointId>) {
    |cfg.rules| == 0 || w.router.count == 0 || w.router.exporters.Keys <= seen
  }

  predicate MayBegin(l: Locks, call: Call) {
    match call
    case Route(_) => MayRead(l)
    case Count => MayRead(l)
    case Notify(_, _) => l.handler.None?
    case Edit(_) => true
  }

  predicate Enabled(cfg: Config, w: World, th: Thread, id: EndpointId) {
    match th.place
    case Idle =>
      |th.calls| > 0 && MayBegin(w.locks, th.calls[0])
    case Scanning(_, seen, _) => ScanDone(cfg, w, seen) || id in w.router.exporters.Keys - seen
    case Rereading(_, _) => MayRead(w.locks)
    case Updating(_, phase, _) =>
      (match phase
       case Asking => MayRead(w.locks)
       case Queued => |w.locks.readers| == 0
       case Writing(_) => true)
    case Reporting => w.locks.tracker.None?
    case _ => true
  }

  /** The exporters of one endpoint that match, in their order. */
  ghost function MatchingIn(cfg: Config, es: seq<RoutedExporter>, attributes: Attributes): seq<Handle> {
    if |es| == 0 then []
    else
      var last := es[|es| - 1];
      MatchingIn(cfg, es[..|es| - 1], attributes) +
      if Matches(cfg.rules, attributes, last.properties, cfg.render) then [last.exporter] else []
  }

  function Answering(w: World, a: Answered): World {
    w.(answers := w.answers + [a])
  }

  function Locking(w: World, l: Locks): World {
    w.(locks := l)
  }

  function Read(l: Locks, i: nat): Locks {
    l.(readers := l.readers + multiset{i})
  }

  function Unread(l: Locks, i: nat): Locks {
    l.(readers := l.readers - multiset{i})
  }

  /** Taking the first job of a notification. */
  ghost function TakeJob(w: World, job: Job, jobs: seq<Job>, tracked: bool): (Place, World) {
    match job
    case Start(id, properties, kind) =>
      (Updating(Add(id, RoutedExporter(w.next, properties, kind)), Asking, ForHandler(jobs, tracked)),
       w.(entries := w.entries[id := ListAt(w.entries, id) + [w.next]], next := w.next + 1))
    case Drop(id) =>
      var held := ListAt(w.entries, id);
      if |held| == 0 then (Handling(jobs, tracked), w) else (Stopping(id, held, jobs, tracked), w)
    case Close => (Handling(jobs, tracked), w.(stopped := w.stopped + AllHeld(w.entries), closed := true))
  }

  ghost function Begin(w: World, i: nat, call: Call): (Place, World) {
    match call
    case Route(attributes) => (Scanning(attributes, {}, []), Locking(w, Read(w.locks, i)))
    case Count => (Counting, Locking(w, Read(w.locks, i)))
    case Notify(jobs, tracked) => (Handling(jobs, tracked), Locking(w, w.locks.(handler := Some(i))))
    case Edit(u) => (Updating(u, Asking, Direct), w)
  }

  /** Where an update leaves its caller: a removal is forgotten by the handler once the router is rid of it. */
  function Returned(u: Update, errand: Errand): Place {
    match errand
    case Direct => Idle
    case ForHandler(jobs, tracked) => if u.Add? then Handling(jobs, tracked) else Forgetting(u.id, jobs, tracked)
  }

  /** The writer's way through the lock: queue, get in once the readers are gone, update, leave. */
  function WriteStep(cfg: Config, w: World, i: nat, u: Update, phase: Phase, errand: Errand): (Place, World) {
    match phase
    case Asking => (Updating(u, Queued, errand), Locking(w, w.locks.(queued := Some(i))))
    case Queued => (Updating(u, Writing(0), errand), Locking(w, w.locks.(queued := None, writer := Some(i))))
    case Writing(k) =>
      if k < STAGES then
        (Updating(u, Writing(k + 1), errand), w.(router := Stage(w.router, cfg.reporting, u, k)))
      else
        (Returned(u, errand), Locking(w, w.locks.(writer := None)).(updates := w.updates + [u]))
  }

  /** What thread i does next, from where it is. */
  ghost function Act(cfg: Config, w: World, i: nat, p: Place, id: EndpointId): (Place, World)
    requires Enabled(cfg, w, Thread([], p), id)
  {
    match p
    case Idle => (Idle, w)
    case Scanning(attributes, seen, out) =>
      if !ScanDone(cfg, w, seen) then
        (Scanning(attributes, seen + {id}, out + MatchingIn(cfg, w.router.exporters[id], attributes)), w)
      else if cfg.reentrant then (Rereading(attributes, out), w)
      else (Idle, Answering(Locking(w, Unread(w.locks, i)), Routed(attributes, out, |w.updates|)))
    case Rereading(attributes, out) => (Reread(attributes, out), Locking(w, Read(w.locks, i)))
    case Reread(attributes, out) =>
      (Idle, Answering(Locking(w, Unread(Unread(w.locks, i), i)), Routed(attributes, out, |w.updates|)))
    case Counting => (Idle, Answering(Locking(w, Unread(w.locks, i)), Counted(w.router.count, |w.updates|)))
    case Handling(jobs, tracked) =>
      if |jobs| > 0 then TakeJob(w, jobs[0], jobs[1..], tracked)
      else (if tracked then Reporting else Idle, Locking(w, w.locks.(handler := None)))
    case Stopping(gone, left, jobs, tracked) =>
      if |left| > 0 then (Stopping(gone, left[1..], jobs, tracked), w.(stopped := w.stopped + multiset{left[0]}))
      else (Updating(Remove(gone), Asking, ForHandler(jobs, tracked)), w)
    case Updating(u, phase, errand) => WriteStep(cfg, w, i, u, phase, errand)
    case Forgetting(gone, jobs, tracked) => (Handling(jobs, tracked), w.(entries := w.entries - {gone}))
    case Reporting => (Tracking, Locking(w, w.locks.(tracker := Some(i))))
    case Tracking => (Idle, Locking(w, w.locks.(tracker := None)))
  }

  predicate CanStep(cfg: Config, st: State, c: Choice) {
    c.thread < |st.threads| && Enabled(cfg, st.world, st.threads[c.thread], c.id)
  }

  /** The next state: one thread moves, or takes up its next call. */
  ghost function Next(cfg: Config, st: State, c: Choice): State
    requires CanStep(cfg, st, c)
  {
    var i := c.thread;
    var th := st.threads[i];
    if th.place.Idle? then
      var (p, w) := Begin(st.world, i, th.calls[0]);
      State(st.threads[i := Thread(th.calls[1..], p)], w)
    else
      var (p, w) := Act(cfg, st.world, i, th.place, c.id);
      State(st.threads[i := Thread(th.calls, p)], w)
  }

  function Fresh(calls: seq<seq<Call>>): seq<Thread> {
    seq(|calls|, i requires 0 <= i < |calls| => Thread(calls[i], Idle))
  }

  function Initial(calls: seq<seq<Call>>): State {
    State(Fresh(calls), World(Locks(None, None, multiset{}, None, None), EMPTY, [], map[], 0, multiset{}, false, []))
  }

  /** Where a schedule leads, if each of its choices is of a thread that can move. */
  ghost function After(cfg: Config, calls: seq<seq<Call>>, schedule: seq<Choice>): Option<State> {
    if |schedule| == 0 then Some(Initial(calls))
    else
      var before, last := After(cfg, calls, schedule[..|schedule| - 1]), schedule[|schedule| - 1];
      if before.Some? && CanStep(cfg, before.value, last) then Some(Next(cfg, before.value, last)) else None
  }

  // ---------------------------------------------------------------- who holds what

  predicate InHandler(p: Place) {
    p.Handling? || p.Stopping? || p.Forgetting? || (p.Updating? && p.errand.ForHandler?)
  }

  function Reads(p: Place): nat {
    match p
    case Scanning(_, _, _) => 1
    case Rereading(_, _) => 1
    case Reread(_, _) => 2
    case Counting => 1
    case _ => 0
  }

  /** The locks say of thread i what its place says. */
  predicate Owns(l: Locks, i: nat, p: Place) {
    && (l.handler == Some(i) <==> InHandler(p))
    && (l.tracker == Some(i) <==> p.Tracking?)
    && (l.queued == Some(i) <==> p.Updating? && p.phase.Queued?)
    && (l.writer == Some(i) <==> p.Updating? && p.phase.Writing?)
    && l.readers[i] == Reads(p)
  }

  /** A writer excludes readers and other writers. */
  predicate Exclusive(l: Locks) {
    l.writer.Some? ==> |l.readers| == 0 && l.queued.None?
  }

  /** Locks are held by threads there are. */
  predicate Within(l: Locks, n: nat) {
    && (l.handler.Some? ==> l.handler.value < n)
    && (l.tracker.Some? ==> l.tracker.value < n)
    && (l.queued.Some? ==> l.queued.value < n)
    && (l.writer.Some? ==> l.writer.value < n)
    && forall i :: i in l.readers ==> i < n
  }

  /** Each lock is held by the threads whose place says so, and by nobody else. */
  ghost predicate Locked(st: State) {
    && Within(st.world.locks, |st.threads|) && Exclusive(st.world.locks)
    && forall i :: 0 <= i < |st.threads| ==> Owns(st.world.locks, i, st.threads[i].place)
  }

  /** Two states of the locks that differ in what thread i holds at most. */
  predicate SameButFor(i: nat, l: Locks, m: Locks) {
    && (l.handler == m.handler || (l.handler.None? && m.handler == Some(i))
        || (l.handler == Some(i) && m.handler.None?))
    && (l.tracker == m.tracker || (l.tracker.None? && m.tracker == Some(i))
        || (l.tracker == Some(i) && m.tracker.None?))
    && (l.queued == m.queued || (l.queued.None? && m.queued == Some(i)) || (l.queued == Some(i) && m.queued.None?))
    && (l.writer == m.writer || (l.writer.None? && m.writer == Some(i)) || (l.writer == Some(i) && m.writer.None?))
    && l.readers[i := 0] == m.readers[i := 0]
  }

  /** After its step, thread i owns what its place says, and no other thread's locks have moved. */
  predicate Moves(i: nat, l: Locks, m: Locks, p: Place) {
    match m
    case Locks(_, _, _, _, _) => Owns(m, i, p) && Exclusive(m) && SameButFor(i, l, m)
  }

  lemma OthersKeep(i: nat, l: Locks, m: Locks, j: nat, p: Place)
    requires SameButFor(i, l, m) && Owns(l, j, p) && j != i
    ensures Owns(m, j, p)
  {
    assert l.readers[i := 0][j] == m.readers[i := 0][j];
  }

  lemma WithinKept(i: nat, l: Locks, m: Locks, n: nat)
    requires SameButFor(i, l, m) && Within(l, n) && i < n
    ensures Within(m, n)
  {
    forall j | j in m.readers ensures j < n {
      assert j != i ==> j in m.readers[i := 0] && j in l.readers;
    }
  }

  lemma SameLocks(i: nat, l: Locks, p: Place, p': Place)
    requires Owns(l, i, p) && Exclusive(l)
    requires InHandler(p) == InHandler(p') && p.Tracking? == p'.Tracking? && Reads(p) == Reads(p')
    requires (p.Updating? ==> p.phase.Asking? || p.phase.Writing?)
        && (p'.Updating? ==> p'.phase.Asking? || p'.phase.Writing?)
    requires (p.Updating? && p.phase.Writing?) == (p'.Updating? && p'.phase.Writing?)
    ensures Moves(i, l, l, p')
  {
  }

  lemma TakeJobOwns(w: World, i: nat, job: Job, jobs: seq<Job>, tracked: bool)
    ensures var (p', w') := TakeJob(w, job, jobs, tracked);
            w'.locks == w.locks && InHandler(p') && (p'.Updating? ==> p'.phase.Asking?)
  {
  }

  lemma UpdateOwns(cfg: Config, w: World, i: nat, u: Update, phase: Phase, errand: Errand)
    requires Owns(w.locks, i, Updating(u, phase, errand)) && Exclusive(w.locks)
    requires phase.Asking? ==> MayRead(w.locks)
    requires phase.Queued? ==> |w.locks.readers| == 0
    ensures var (p', w') := WriteStep(cfg, w, i, u, phase, errand); Moves(i, w.locks, w'.locks, p')
  {
  }

  lemma UnreadOwns(l: Locks, i: nat)
    requires Exclusive(l) && l.readers[i] > 0
    ensures Exclusive(Unread(l, i)) && SameButFor(i, l, Unread(l, i)) && Unread(l, i).readers[i] == l.readers[i] - 1
  {
  }

  /** Routing and counting hold the read lock until they answer. */
  lemma ReadingOwns(cfg: Config, w: World, i: nat, p: Place, id: EndpointId)
    requires Enabled(cfg, w, Thread([], p), id) && Owns(w.locks, i, p) && Exclusive(w.locks) && Reads(p) > 0
    ensures var (p', w') := Act(cfg, w, i, p, id); Moves(i, w.locks, w'.locks, p')
  {
    UnreadOwns(w.locks, i);
    if p.Reread? {
      UnreadOwns(Unread(w.locks, i), i);
    }
  }

  /** A thread in the handler keeps its mutex until its jobs are done. */
  lemma HandlingOwns(cfg: Config, w: World, i: nat, p: Place, id: EndpointId)
    requires Enabled(cfg, w, Thread([], p), id) && Owns(w.locks, i, p) && Exclusive(w.locks)
    requires InHandler(p) && !p.Updating?
    ensures var (p', w') := Act(cfg, w, i, p, id); Moves(i, w.locks, w'.locks, p')
  {
    var p' := Act(cfg, w, i, p, id).0;
    if p.Handling? && |p.jobs| > 0 {
      TakeJobOwns(w, i, p.jobs[0], p.jobs[1..], p.tracked);
    }
    if InHandler(p') {
      SameLocks(i, w.locks, p, p');
    }
  }

  /** A step changes what its own thread holds as its place changes, and nothing else. */
  lemma ActOwns(cfg: Config, w: World, i: nat, p: Place, id: EndpointId)
    requires Enabled(cfg, w, Thread([], p), id) && Owns(w.locks, i, p) && Exclusive(w.locks)
    ensures var (p', w') := Act(cfg, w, i, p, id); Moves(i, w.locks, w'.locks, p')
  {
    if p.Updating? {
      UpdateOwns(cfg, w, i, p.update, p.phase, p.errand);
    } else if InHandler(p) {
      HandlingOwns(cfg, w, i, p, id);
    } else if Reads(p) > 0 {
      ReadingOwns(cfg, w, i, p, id);
    }
  }

  lemma BeginOwns(w: World, i: nat, call: Call)
    requires Owns(w.locks, i, Idle) && Exclusive(w.locks)
    requires MayBegin(w.locks, call)
    ensures var (p', w') := Begin(w, i, call); Moves(i, w.locks, w'.locks, p')
  {
  }

  lemma NextLocked(cfg: Config, st: State, c: Choice)
    requires Locked(st) && CanStep(cfg, st, c)
    ensures Locked(Next(cfg, st, c))
  {
    var i, th, st' := c.thread, st.threads[c.thread], Next(cfg, st, c);
    if th.place.Idle? {
      BeginOwns(st.world, i, th.calls[0]);
    } else {
      ActOwns(cfg, st.world, i, th.place, c.id);
    }
    WithinKept(i, st.world.locks, st'.world.locks, |st.threads|);
    forall j | 0 <= j < |st.threads| && j != i ensures Owns(st'.world.locks, j, st'.threads[j].place) {
      OthersKeep(i, st.world.locks, st'.world.locks, j, st.threads[j].place);
    }
  }

  lemma {:induction false} AlwaysLocked(cfg: Config, calls: seq<seq<Call>>, schedule: seq<Choice>)
    ensures var st := After(cfg, calls, schedule); st.Some? ==> Locked(st.value)
  {
    if |schedule| == 0 {
    } else {
      AlwaysLocked(cfg, calls, schedule[..|schedule| - 1]);
      var before, last := After(cfg, calls, schedule[..|schedule| - 1]), schedule[|schedule| - 1];
      if before.Some? && CanStep(cfg, before.value, last) {
        NextLocked(cfg, before.value, last);
      }
    }
  }

  /** Writers contend, and take turns: while one has queued or writes, every other waits to queue. */
  lemma WritersTakeTurns(cfg: Config, calls: seq<seq<Call>>, schedule: seq<Choice>, i: nat, j: nat)
    requires After(cfg, calls, schedule).Some?
    requires var st := After(cfg, calls, schedule).value;
             && i < |st.threads| && j < |st.threads| && i != j
             && st.threads[i].place.Updating? && st.threads[j].place.Updating? && !st.threads[i].place.phase.Asking?
    ensures var st := After(cfg, calls, schedule).value;
            && st.threads[j].place.phase.Asking?
            && forall id :: !CanStep(cfg, st, Choice(j, id))
  {
    var st := After(cfg, calls, schedule).value;
    AlwaysLocked(cfg, calls, schedule);
    assert Owns(st.world.locks, i, st.threads[i].place) && Owns(st.world.locks, j, st.threads[j].place);
  }

  // ---------------------------------------------------------------- no deadlock

  predicate Finished(st: State) {
    forall i :: 0 <= i < |st.threads| ==> |st.threads[i].calls| == 0 && st.threads[i].place.Idle?
  }

  /** A writer has queued while a reader waits for the lock it already holds. */
  predicate Trapped(st: State) {
    st.world.locks.queued.Some? && exists i :: 0 <= i < |st.threads| && st.threads[i].place.Rereading?
  }

  /** A place at which a thread waits for nobody. */
  predicate Free(l: Locks, th: Thread) {
    match th.place
    case Idle => |th.calls| > 0 && MayBegin(l, th.calls[0])
    case Rereading(_, _) => MayRead(l)
    case Updating(_, phase, _) => (phase.Asking? ==> MayRead(l)) && (phase.Queued? ==> |l.readers| == 0)
    case Reporting => l.tracker.None?
    case _ => true
  }

  lemma FreeCanStep(cfg: Config, st: State, i: nat) returns (c: Choice)
    requires i < |st.threads| && Free(st.world.locks, st.threads[i])
    ensures CanStep(cfg, st, c)
  {
    c := Choice(i, 0);
    var p := st.threads[i].place;
    if p.Scanning? && !ScanDone(cfg, st.world, p.seen) {
      var id :| id in st.world.router.exporters.Keys && id !in p.seen;
      c := Choice(i, id);
    }
  }

  lemma SomeMember(m: multiset<nat>) returns (i: nat)
    requires |m| > 0
    ensures i in m
  {
    assert m != multiset{};
    i :| i in m;
  }

  /**
   Whoever holds what the others wait for can move: a writer, then a reader, then whoever has
   queued to write, then the holder of the tracker's or the handler's mutex, then anyone: a writer
   that has not queued yet waits only for other writers.
   */
  lemma SomeoneIsFree(st: State) returns (i: nat)
    requires Locked(st) && !Finished(st) && !Trapped(st)
    ensures i < |st.threads| && Free(st.world.locks, st.threads[i])
  {
    var l := st.world.locks;
    if l.writer.Some? {
      i := l.writer.value;
    } else if |l.readers| > 0 {
      i := SomeMember(l.readers);
      assert Owns(l, i, st.threads[i].place);
    } else if l.queued.Some? {
      i := l.queued.value;
    } else if l.tracker.Some? {
      i := l.tracker.value;
    } else if l.handler.Some? {
      i := l.handler.value;
    } else {
      i :| 0 <= i < |st.threads| && !(|st.threads[i].calls| == 0 && st.threads[i].place.Idle?);
    }
    assert Owns(l, i, st.threads[i].place);
  }

  ghost predicate NeverRereads(st: State) {
    forall i :: 0 <= i < |st.threads| ==> !st.threads[i].place.Rereading?
  }

  lemma {:induction false} OnceIsEnough(cfg: Config, calls: seq<seq<Call>>, schedule: seq<Choice>)
    requires !cfg.reentrant
    ensures var st := After(cfg, calls, schedule); st.Some? ==> NeverRereads(st.value)
  {
    if |schedule| == 0 {
    } else {
      OnceIsEnough(cfg, calls, schedule[..|schedule| - 1]);
      var before, c := After(cfg, calls, schedule[..|schedule| - 1]), schedule[|schedule| - 1];
      if before.Some? && CanStep(cfg, before.value, c) {
        var st := Next(cfg, before.value, c);
        forall j | 0 <= j < |st.threads| ensures !st.threads[j].place.Rereading? {
          assert !before.value.threads[j].place.Rereading?;
        }
      }
    }
  }

  /**
   Routing, counting, notifications, shutdown and direct calls of AddExporter and RemoveExporter, on
   any number of threads and however many of them write, never deadlock: in every state a schedule
   can reach, all calls have returned or some thread can move.
   */
  lemma NoDeadlock(cfg: Config, calls: seq<seq<Call>>, schedule: seq<Choice>) returns (c: Choice)
    requires !cfg.reentrant && After(cfg, calls, schedule).Some? && !Finished(After(cfg, calls, schedule).value)
    ensures CanStep(cfg, After(cfg, calls, schedule).value, c)
  {
    var st := After(cfg, calls, schedule).value;
    AlwaysLocked(cfg, calls, schedule);
    OnceIsEnough(cfg, calls, schedule);
    var i := SomeoneIsFree(st);
    c := FreeCanStep(cfg, st, i);
  }

  /** Whether or not Route takes its lock again, nothing but that trap stops every thread. */
  lemma OnlyTheTrapDeadlocks(cfg: Config, calls: seq<seq<Call>>, schedule: seq<Choice>)
    requires After(cfg, calls, schedule).Some?
    requires var st := After(cfg, calls, schedule).value; !Finished(st) && forall c :: !CanStep(cfg, st, c)
    ensures Trapped(After(cfg, calls, schedule).value)
  {
    var st := After(cfg, calls, schedule).value;
    AlwaysLocked(cfg, calls, schedule);
    if !Trapped(st) {
      var i := SomeoneIsFree(st);
      var c := FreeCanStep(cfg, st, i);
      assert false;
    }
  }

  /** And once in the trap, the reader and the writer stay in it, whatever the others do. */
  lemma TrapIsForEver(cfg: Config, st: State, c: Choice, reader: nat)
    requires Locked(st) && CanStep(cfg, st, c)
    requires reader < |st.threads| && st.threads[reader].place.Rereading? && st.world.locks.queued.Some?
    ensures var st' := Next(cfg, st, c);
            && st'.threads[reader].place == st.threads[reader].place && st'.world.locks.queued == st.world.locks.queued
            && c.thread != reader && c.thread != st.world.locks.queued.value
  {
    var l, i := st.world.locks, c.thread;
    assert Owns(l, reader, st.threads[reader].place) && Owns(l, i, st.threads[i].place);
    assert reader in l.readers;
  }

  lemma OneMore(cfg: Config, calls: seq<seq<Call>>, schedule: seq<Choice>, st: State, c: Choice)
    requires After(cfg, calls, schedule) == Some(st) && CanStep(cfg, st, c)
    ensures After(cfg, calls, schedule + [c]) == Some(Next(cfg, st, c))
  {
    assert (schedule + [c])[..|schedule|] == schedule;
  }

  /** A thread that routes when there is nothing to visit gets as far as asking for its lock again. */
  lemma ReaderRereads(cfg: Config, calls: seq<seq<Call>>, attributes: Attributes) returns (st: State)
    requires cfg.reentrant && |calls| == 2 && calls[0] == [Route(attributes)]
    ensures After(cfg, calls, [Choice(0, 0), Choice(0, 0)]) == Some(st)
    ensures st.threads == [Thread([], Rereading(attributes, [])), Thread(calls[1], Idle)]
    ensures st.world == Locking(Initial(calls).world, Locks(None, None, multiset{0}, None, None))
  {
    var s0, c := Initial(calls), Choice(0, 0);
    OneMore(cfg, calls, [], s0, c);
    var s1 := Next(cfg, s0, c);
    assert s0.threads[0].calls[1..] == [] && multiset{} + multiset{0} == multiset{0};
    assert s1.threads[0] == Thread([], Scanning(attributes, {}, []));
    OneMore(cfg, calls, [c], s1, c);
    assert [] + [c] == [c] && [c] + [c] == [c, c];
    st := Next(cfg, s1, c);
  }

  /** A thread with an endpoint to add gets, in three steps, as far as queueing for the router's lock. */
  lemma WriterQueues(cfg: Config, st: State, call: Call) returns (s1: State, s2: State, s3: State)
    requires |st.threads| == 2 && st.threads[1].place.Idle?
    requires |st.threads[1].calls| > 0 && st.threads[1].calls[0] == call
    requires call.Notify? && |call.jobs| > 0 && call.jobs[0].Start?
    requires st.world.locks.handler.None? && MayRead(st.world.locks)
    ensures var c := Choice(1, 0);
            && CanStep(cfg, st, c) && s1 == Next(cfg, st, c)
            && CanStep(cfg, s1, c) && s2 == Next(cfg, s1, c)
            && CanStep(cfg, s2, c) && s3 == Next(cfg, s2, c)
    ensures |s3.threads| == 2 && s3.threads[0] == st.threads[0]
    ensures s3.threads[1].place.Updating? && s3.threads[1].place.phase.Queued?
    ensures s3.world.locks == st.world.locks.(handler := Some(1), queued := Some(1))
  {
    var c := Choice(1, 0);
    s1 := Next(cfg, st, c);
    assert s1.threads[1].place == Handling(call.jobs, call.tracked);
    s2 := Next(cfg, s1, c);
    assert s2.threads[1].place.Updating? && s2.threads[1].place.phase.Asking?;
    s3 := Next(cfg, s2, c);
  }

  /** With a Route that asks for the count, a resource and one new endpoint are enough to deadlock. */
  lemma ReentrantReadDeadlocks(cfg: Config, attributes: Attributes, id: EndpointId, properties: Properties)
    returns (calls: seq<seq<Call>>, schedule: seq<Choice>)
    requires cfg.reentrant
    ensures calls == [[Route(attributes)], [Notify([Start(id, properties, 0)], true)]]
    ensures var st := After(cfg, calls, schedule);
            st.Some? && !Finished(st.value) && forall c :: !CanStep(cfg, st.value, c)
  {
    calls := [[Route(attributes)], [Notify([Start(id, properties, 0)], true)]];
    var reading := ReaderRereads(cfg, calls, attributes);
    var start, c := [Choice(0, 0), Choice(0, 0)], Choice(1, 0);
    var s1, s2, s3 := WriterQueues(cfg, reading, calls[1][0]);
    OneMore(cfg, calls, start, reading, c);
    OneMore(cfg, calls, start + [c], s1, c);
    OneMore(cfg, calls, start + [c] + [c], s2, c);
    schedule := start + [c] + [c] + [c];
    NobodyMoves(cfg, s3);
  }

  lemma NobodyMoves(cfg: Config, st: State)
    requires |st.threads| == 2 && st.threads[0].place.Rereading?
    requires st.threads[1].place.Updating? && st.threads[1].place.phase.Queued?
    requires st.world.locks.queued.Some? && |st.world.locks.readers| > 0
    ensures !Finished(st) && forall c :: !CanStep(cfg, st, c)
  {
  }

  // ---------------------------------------------------------------- every schedule ends

  const JOB: nat := 12

  function CallWeight(): Call -> nat {
    (c: Call) => match c
      case Route(_) => 4
      case Count => 2
      case Notify(jobs, _) => 4 + JOB * |jobs|
      case Edit(_) => 9
  }

  function PlaceWeight(p: Place): nat {
    match p
    case Idle => 0
    case Scanning(_, _, _) => 3
    case Rereading(_, _) => 2
    case Reread(_, _) => 1
    case Counting => 1
    case Handling(jobs, _) => 3 + JOB * |jobs|
    case Stopping(_, _, jobs, _) => 12 + JOB * |jobs|
    case Updating(_, phase, errand) => (if errand.Direct? then 0 else 3 + JOB * |errand.jobs|) + (match phase
      case Asking => 8
      case Queued => 7
      case Writing(k) => if k < STAGES then 6 - k else 2)
    case Forgetting(_, jobs, _) => 4 + JOB * |jobs|
    case Reporting => 2
    case Tracking => 1
  }

  ghost function ThreadWeight(): Thread -> nat {
    (th: Thread) => PlaceWeight(th.place) + Total(CallWeight(), th.calls)
  }

  /** Endpoints to visit and exporters to stop: what a thread may still do without leaving its place. */
  function Left(w: World): Thread -> nat {
    (th: Thread) =>
      if th.place.Scanning? then |w.router.exporters.Keys - th.place.seen|
      else if th.place.Stopping? then |th.place.left| else 0
  }

  ghost function Weight(st: State): nat {
    Total(ThreadWeight(), st.threads)
  }

  ghost function Work(st: State): nat {
    Total(Left(st.world), st.threads)
  }

  lemma TakeJobLighter(w: World, job: Job, jobs: seq<Job>, tracked: bool)
    ensures PlaceWeight(TakeJob(w, job, jobs, tracked).0) < 3 + JOB * (|jobs| + 1)
  {
  }

  lemma UpdateLighter(cfg: Config, w: World, i: nat, u: Update, phase: Phase, errand: Errand)
    ensures PlaceWeight(WriteStep(cfg, w, i, u, phase, errand).0) < PlaceWeight(Updating(u, phase, errand))
  {
  }

  /** A step of routing that visits an endpoint leaves one fewer to visit. */
  lemma ScanLighter(cfg: Config, w: World, i: nat, p: Place, id: EndpointId, calls: seq<Call>)
    requires Enabled(cfg, w, Thread([], p), id) && p.Scanning? && !ScanDone(cfg, w, p.seen)
    ensures var (p', w') := Act(cfg, w, i, p, id);
            PlaceWeight(p') == PlaceWeight(p) && w' == w && Left(w)(Thread(calls, p')) < Left(w)(Thread(calls, p))
  {
    assert w.router.exporters.Keys - (p.seen + {id}) == w.router.exporters.Keys - p.seen - {id};
  }

  /** So does a step of a removal that stops an exporter. */
  lemma StopLighter(cfg: Config, w: World, i: nat, p: Place, id: EndpointId, calls: seq<Call>)
    requires Enabled(cfg, w, Thread([], p), id) && p.Stopping? && |p.left| > 0
    ensures var (p', w') := Act(cfg, w, i, p, id);
            && PlaceWeight(p') == PlaceWeight(p) && w'.router == w.router
            && Left(w)(Thread(calls, p')) < Left(w)(Thread(calls, p))
  {
  }

  /** Any other step leaves its place for a lighter one. */
  lemma OtherLighter(cfg: Config, w: World, i: nat, p: Place, id: EndpointId)
    requires Enabled(cfg, w, Thread([], p), id)
    requires !(p.Scanning? && !ScanDone(cfg, w, p.seen)) && !(p.Stopping? && |p.left| > 0)
    ensures PlaceWeight(Act(cfg, w, i, p, id).0) < PlaceWeight(p)
  {
    match p
    case Handling(jobs, tracked) =>
      if |jobs| > 0 {
        TakeJobLighter(w, jobs[0], jobs[1..], tracked);
      }
    case Updating(u, phase, errand) => UpdateLighter(cfg, w, i, u, phase, errand);
    case _ =>
  }

  lemma ActLighter(cfg: Config, w: World, i: nat, p: Place, id: EndpointId, calls: seq<Call>)
    requires Enabled(cfg, w, Thread([], p), id)
    ensures var (p', w') := Act(cfg, w, i, p, id);
            || PlaceWeight(p') < PlaceWeight(p)
            || (&& PlaceWeight(p') == PlaceWeight(p) && w'.router == w.router
                && Left(w)(Thread(calls, p')) < Left(w)(Thread(calls, p)))
  {
    if p.Scanning? && !ScanDone(cfg, w, p.seen) {
      ScanLighter(cfg, w, i, p, id, calls);
    } else if p.Stopping? && |p.left| > 0 {
      StopLighter(cfg, w, i, p, id, calls);
    } else {
      OtherLighter(cfg, w, i, p, id);
    }
  }

  lemma BeginLighter(w: World, i: nat, calls: seq<Call>)
    requires |calls| > 0
    ensures PlaceWeight(Begin(w, i, calls[0]).0) + Total(CallWeight(), calls[1..]) < Total(CallWeight(), calls)
  {
    TotalFirst(CallWeight(), calls);
    BeginPlace(w, i, calls[0]);
  }

  lemma BeginPlace(w: World, i: nat, call: Call)
    ensures PlaceWeight(Begin(w, i, call).0) < CallWeight()(call)
  {
  }

  /** Each step leaves less to do, or as many steps and less work within them. */
  lemma NextLighter(cfg: Config, st: State, c: Choice)
    requires CanStep(cfg, st, c)
    ensures var st' := Next(cfg, st, c); Weight(st') < Weight(st) || (Weight(st') == Weight(st) && Work(st') < Work(st))
  {
    var i, th, st' := c.thread, st.threads[c.thread], Next(cfg, st, c);
    TotalUpdate(ThreadWeight(), st.threads, i, st'.threads[i]);
    if th.place.Idle? {
      BeginLighter(st.world, i, th.calls);
    } else {
      ActLighter(cfg, st.world, i, th.place, c.id, th.calls);
      if Weight(st') == Weight(st) {
        TotalUpdate(Left(st.world), st.threads, i, st'.threads[i]);
        assert Left(st'.world) == Left(st.world);
      }
    }
  }

  /** An unending supply of choices; the n-th state it leads to, as long as each can be taken. */
  ghost function Along(cfg: Config, st: State, choices: nat -> Choice, n: nat): Option<State> {
    if n == 0 then Some(st)
    else
      var before := Along(cfg, st, choices, n - 1);
      if before.Some? && CanStep(cfg, before.value, choices(n - 1))
          then Some(Next(cfg, before.value, choices(n - 1))) else None
  }

  lemma AlongMore(cfg: Config, st: State, choices: nat -> Choice, n: nat, now: State)
    requires Along(cfg, st, choices, n) == Some(now)
    ensures Along(cfg, st, choices, n + 1) ==
            if CanStep(cfg, now, choices(n)) then Some(Next(cfg, now, choices(n))) else None
  {
  }

  /** No schedule goes on for ever. */
  lemma {:induction false} EveryScheduleEnds(cfg: Config, st: State, choices: nat -> Choice, n: nat) returns (end: nat)
    requires Along(cfg, st, choices, n).Some?
    ensures end > n && Along(cfg, st, choices, end).None?
    decreases Weight(Along(cfg, st, choices, n).value), Work(Along(cfg, st, choices, n).value)
  {
    var now := Along(cfg, st, choices, n).value;
    AlongMore(cfg, st, choices, n, now);
    if CanStep(cfg, now, choices(n)) {
      NextLighter(cfg, now, choices(n));
      end := EveryScheduleEnds(cfg, st, choices, n + 1);
    } else {
      end := n + 1;
    }
  }

  /** From wherever a schedule has led, going on as long as somebody can move finishes every call. */
  lemma {:induction false} EveryCallReturns(cfg: Config, calls: seq<seq<Call>>, schedule: seq<Choice>)
    returns (whole: seq<Choice>)
    requires !cfg.reentrant && After(cfg, calls, schedule).Some?
    ensures schedule <= whole && After(cfg, calls, whole).Some? && Finished(After(cfg, calls, whole).value)
    decreases Weight(After(cfg, calls, schedule).value), Work(After(cfg, calls, schedule).value)
  {
    var st := After(cfg, calls, schedule).value;
    if Finished(st) {
      whole := schedule;
    } else {
      var c := NoDeadlock(cfg, calls, schedule);
      assert (schedule + [c])[..|schedule|] == schedule;
      NextLighter(cfg, st, c);
      whole := EveryCallReturns(cfg, calls, schedule + [c]);
    }
  }
}
