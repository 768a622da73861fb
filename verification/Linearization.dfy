/**
 What threads that interleave may observe: every call to the router answers as of one instant, and
 the handler and the router agree whenever the handler's mutex is free.
 */
module Linearization {
  import opened Base
  import opened Endpoints
  import opened Router
  import opened ExporterMaps
  import opened Interleaving

  /** The router's state once the updates completed so far, and no other, have happened. */
  function Done(cfg: Config, w: World): RouterState {
    Run(w.updates, cfg.reporting)
  }

  // ---------------------------------------------------------------- updates are seen whole

  lemma StagedNext(s: RouterState, reporting: bool, u: Update, k: nat)
    ensures Staged(s, reporting, u, k + 1) == Stage(Staged(s, reporting, u, k), reporting, u, k)
  {
  }

  /** The stages of an update add up to it. */
  lemma StagesAddUp(s: RouterState, reporting: bool, u: Update)
    ensures Staged(s, reporting, u, STAGES) ==
            match u { case Add(id, e) => Added(s, reporting, id, e) case Remove(id) => Removed(s, reporting, id) }
  {
    StagedNext(s, reporting, u, 0);
    StagedNext(s, reporting, u, 1);
    StagedNext(s, reporting, u, 2);
    StagedNext(s, reporting, u, 3);
  }

  lemma RunMore(updates: seq<Update>, reporting: bool, u: Update)
    ensures Run(updates + [u], reporting) == Staged(Run(updates, reporting), reporting, u, STAGES)
  {
    StagesAddUp(Run(updates, reporting), reporting, u);
    assert (updates + [u])[..|updates|] == updates;
  }

  /** The router holds the completed updates, and the stages done of the one being written, if any. */
  ghost predicate RouterAt(cfg: Config, w: World, writer: Option<Place>) {
    if writer.None? then w.router == Done(cfg, w)
    else
      && writer.value.Updating? && writer.value.phase.Writing? && writer.value.phase.done <= STAGES
      && w.router == Staged(Done(cfg, w), cfg.reporting, writer.value.update, writer.value.phase.done)
  }

  function PlaceOf(st: State, holder: Option<nat>): Option<Place> {
    if holder.Some? && holder.value < |st.threads| then Some(st.threads[holder.value].place) else None
  }

  ghost predicate Whole(cfg: Config, st: State) {
    RouterAt(cfg, st.world, PlaceOf(st, st.world.locks.writer))
  }

  /** Only the thread that holds the write lock changes the router. */
  lemma ActWrites(cfg: Config, w: World, i: nat, p: Place, id: EndpointId)
    requires Enabled(cfg, w, Thread([], p), id)
    ensures var w' := Act(cfg, w, i, p, id).1;
            !(p.Updating? && (p.phase.Writing? || p.phase.Queued?)) ==>
              w'.router == w.router && w'.updates == w.updates && w'.locks.writer == w.locks.writer
  {
  }

  lemma WriteWhole(cfg: Config, w: World, i: nat, u: Update, phase: Phase, errand: Errand)
    requires !phase.Asking? && (phase.Writing? <==> w.locks.writer.Some?)
    requires RouterAt(cfg, w, if phase.Writing? then Some(Updating(u, phase, errand)) else None)
    ensures var (p', w') := WriteStep(cfg, w, i, u, phase, errand);
            && RouterAt(cfg, w', if w'.locks.writer.Some? then Some(p') else None)
            && (phase.Writing? && phase.done < STAGES ==> w'.locks == w.locks)
            && (phase.Writing? && phase.done >= STAGES ==> w'.locks.writer.None?)
            && (phase.Queued? ==> w'.locks.writer == Some(i))
  {
    if phase.Writing? && phase.done == STAGES {
      RunMore(w.updates, cfg.reporting, u);
    } else if phase.Writing? {
      StagedNext(Done(cfg, w), cfg.reporting, u, phase.done);
    }
  }

  lemma WriterActs(cfg: Config, st: State, c: Choice)
    requires Locked(st) && Whole(cfg, st) && CanStep(cfg, st, c)
    requires var p := st.threads[c.thread].place; p.Updating? && !p.phase.Asking?
    ensures Whole(cfg, Next(cfg, st, c))
  {
    var i, w, p := c.thread, st.world, st.threads[c.thread].place;
    assert Owns(w.locks, i, p);
    WriteWhole(cfg, w, i, p.update, p.phase, p.errand);
    var (p', w') := WriteStep(cfg, w, i, p.update, p.phase, p.errand);
    assert PlaceOf(Next(cfg, st, c), w'.locks.writer) == if w'.locks.writer.Some? then Some(p') else None;
  }

  lemma SameWriter(cfg: Config, st: State, c: Choice)
    requires Locked(st) && Whole(cfg, st) && CanStep(cfg, st, c)
    requires var p := st.threads[c.thread].place; !(p.Updating? && !p.phase.Asking?)
    ensures Whole(cfg, Next(cfg, st, c))
  {
    var i, w, p, st' := c.thread, st.world, st.threads[c.thread].place, Next(cfg, st, c);
    assert Owns(w.locks, i, p);
    if !p.Idle? {
      ActWrites(cfg, w, i, p, c.id);
    }
    assert PlaceOf(st', st'.world.locks.writer) == PlaceOf(st, w.locks.writer);
  }

  lemma NextWhole(cfg: Config, st: State, c: Choice)
    requires Locked(st) && Whole(cfg, st) && CanStep(cfg, st, c)
    ensures Whole(cfg, Next(cfg, st, c))
  {
    var p := st.threads[c.thread].place;
    if p.Updating? && !p.phase.Asking? {
      WriterActs(cfg, st, c);
    } else {
      SameWriter(cfg, st, c);
    }
  }

  lemma {:induction false} AlwaysWhole(cfg: Config, calls: seq<seq<Call>>, schedule: seq<Choice>)
    ensures var st := After(cfg, calls, schedule); st.Some? ==> Whole(cfg, st.value)
  {
    if |schedule| == 0 {
    } else {
      AlwaysWhole(cfg, calls, schedule[..|schedule| - 1]);
      AlwaysLocked(cfg, calls, schedule[..|schedule| - 1]);
      var before, last := After(cfg, calls, schedule[..|schedule| - 1]), schedule[|schedule| - 1];
      if before.Some? && CanStep(cfg, before.value, last) {
        NextWhole(cfg, before.value, last);
      }
    }
  }

  /** Whoever holds the read lock sees whole updates only, and caches that agree with the map. */
  lemma ReadersSeeWholeUpdates(cfg: Config, calls: seq<seq<Call>>, schedule: seq<Choice>)
    requires After(cfg, calls, schedule).Some?
    ensures var w := After(cfg, calls, schedule).value.world;
            |w.locks.readers| > 0 ==> w.router == Done(cfg, w) && Coherent(w.router, cfg.reporting)
  {
    AlwaysWhole(cfg, calls, schedule);
    AlwaysLocked(cfg, calls, schedule);
    RunCoherent(After(cfg, calls, schedule).value.world.updates, cfg.reporting);
  }

  // ---------------------------------------------------------------- answers as of one instant

  /** out is what routing with these attributes gives when the router's map is exporters. */
  ghost predicate Answers(cfg: Config, exporters: Exporters, attributes: Attributes, out: seq<Handle>) {
    forall h :: multiset(out)[h] == Answer(exporters, cfg.rules, attributes, cfg.render, h)
  }

  /** The same, as far as the endpoints seen go. */
  ghost predicate AnswersSoFar(cfg: Config, exporters: Exporters, attributes: Attributes, seen: set<EndpointId>,
                               out: seq<Handle>) {
    forall h :: multiset(out)[h] + Answer(exporters - seen, cfg.rules, attributes, cfg.render, h)
             == Answer(exporters, cfg.rules, attributes, cfg.render, h)
  }

  lemma {:induction false} MatchingHits(cfg: Config, es: seq<RoutedExporter>, attributes: Attributes, h: Handle)
    ensures multiset(MatchingIn(cfg, es, attributes))[h] == HitCount(es, cfg.rules, attributes, cfg.render, h)
  {
    if |es| == 0 {
    } else {
      MatchingHits(cfg, es[..|es| - 1], attributes, h);
    }
  }

  lemma VisitAnswers(cfg: Config, exporters: Exporters, attributes: Attributes, seen: set<EndpointId>,
                     out: seq<Handle>, id: EndpointId)
    requires AnswersSoFar(cfg, exporters, attributes, seen, out) && id in exporters && id !in seen
    ensures AnswersSoFar(cfg, exporters, attributes, seen + {id}, out + MatchingIn(cfg, exporters[id], attributes))
  {
    var more := MatchingIn(cfg, exporters[id], attributes);
    forall h
      ensures multiset(out + more)[h] + Answer(exporters - (seen + {id}), cfg.rules, attributes, cfg.render, h)
           == Answer(exporters, cfg.rules, attributes, cfg.render, h)
    {
      var hits := Hits(cfg.rules, attributes, cfg.render, h);
      SumByRemove(exporters - seen, id, hits);
      assert exporters - seen - {id} == exporters - (seen + {id});
      MatchingHits(cfg, exporters[id], attributes, h);
      assert hits(exporters[id]) == HitCount(exporters[id], cfg.rules, attributes, cfg.render, h);
    }
  }

  /** Leaving early, for want of rules or of exporters, leaves nothing out. */
  lemma ScanAnswers(cfg: Config, w: World, attributes: Attributes, seen: set<EndpointId>, out: seq<Handle>)
    requires AnswersSoFar(cfg, w.router.exporters, attributes, seen, out) && ScanDone(cfg, w, seen)
    requires Coherent(w.router, cfg.reporting)
    ensures Answers(cfg, w.router.exporters, attributes, out)
  {
    var exporters := w.router.exporters;
    var rest := exporters - seen;
    forall h ensures multiset(out)[h] == Answer(exporters, cfg.rules, attributes, cfg.render, h) {
      if |cfg.rules| == 0 {
        assert cfg.rules == [];
        NoRulesNoAnswer(rest, attributes, cfg.render);
      } else if w.router.count == 0 {
        NothingToRoute(w.router, cfg.reporting, cfg.rules, attributes, cfg.render);
        RestAnswer(cfg, exporters, attributes, seen, h);
      } else {
        assert rest == map[];
      }
    }
  }

  lemma RestAnswer(cfg: Config, exporters: Exporters, attributes: Attributes, seen: set<EndpointId>, h: Handle)
    requires Answer(exporters, cfg.rules, attributes, cfg.render, h) == 0
    ensures Answer(exporters - seen, cfg.rules, attributes, cfg.render, h) == 0
  {
    var hits := Hits(cfg.rules, attributes, cfg.render, h);
    forall id | id in exporters - seen ensures hits(exporters[id]) == 0 {
      SumByAtLeast(exporters, id, hits);
    }
    SumByZero(exporters - seen, hits);
  }

  lemma NothingSeen(cfg: Config, exporters: Exporters, attributes: Attributes)
    ensures AnswersSoFar(cfg, exporters, attributes, {}, [])
  {
    assert exporters - {} == exporters;
  }

  /** What a thread that routes has so far. */
  ghost predicate Routing(cfg: Config, w: World, p: Place) {
    match p
    case Scanning(attributes, seen, out) => AnswersSoFar(cfg, w.router.exporters, attributes, seen, out)
    case Rereading(attributes, out) => Answers(cfg, w.router.exporters, attributes, out)
    case Reread(attributes, out) => Answers(cfg, w.router.exporters, attributes, out)
    case _ => true
  }

  /** The answer is right as of the state the router was in after `at` updates. */
  ghost predicate Right(cfg: Config, updates: seq<Update>, a: Answered) {
    && a.at <= |updates|
    && var state := Run(updates[..a.at], cfg.reporting);
       match a
       case Routed(attributes, out, _) => Answers(cfg, state.exporters, attributes, out)
       case Counted(n, _) => n == SumBy(state.exporters, Length())
  }

  ghost predicate AllRight(cfg: Config, w: World) {
    forall k :: 0 <= k < |w.answers| ==> Right(cfg, w.updates, w.answers[k])
  }

  ghost predicate AllRouting(cfg: Config, st: State) {
    forall i :: 0 <= i < |st.threads| ==> Routing(cfg, st.world, st.threads[i].place)
  }

  lemma RightLater(cfg: Config, updates: seq<Update>, u: Update, a: Answered)
    requires Right(cfg, updates, a)
    ensures Right(cfg, updates + [u], a)
  {
    assert (updates + [u])[..a.at] == updates[..a.at];
  }

  lemma RightNow(cfg: Config, w: World, a: Answered)
    requires w.router == Done(cfg, w) && Coherent(w.router, cfg.reporting) && a.at == |w.updates|
    requires match a
             case Routed(attributes, out, _) => Answers(cfg, w.router.exporters, attributes, out)
             case Counted(n, _) => n == w.router.count
    ensures Right(cfg, w.updates, a)
  {
    assert w.updates[..a.at] == w.updates;
  }

  lemma AnsweringRight(cfg: Config, w: World, w': World, a: Answered)
    requires AllRight(cfg, w) && Right(cfg, w.updates, a)
    requires w'.updates == w.updates && w'.answers == w.answers + [a]
    ensures AllRight(cfg, w')
  {
  }

  lemma ScanningAnswers(cfg: Config, w: World, i: nat, p: Place, id: EndpointId)
    requires Enabled(cfg, w, Thread([], p), id) && p.Scanning? && Routing(cfg, w, p) && AllRight(cfg, w)
    requires w.router == Done(cfg, w) && Coherent(w.router, cfg.reporting)
    ensures var (p', w') := Act(cfg, w, i, p, id);
            w'.router == w.router && Routing(cfg, w', p') && AllRight(cfg, w')
  {
    if ScanDone(cfg, w, p.seen) {
      var a := Routed(p.attributes, p.out, |w.updates|);
      ScanAnswers(cfg, w, p.attributes, p.seen, p.out);
      RightNow(cfg, w, a);
      if !cfg.reentrant {
        AnsweringRight(cfg, w, Act(cfg, w, i, p, id).1, a);
      }
    } else {
      VisitAnswers(cfg, w.router.exporters, p.attributes, p.seen, p.out, id);
    }
  }

  /** A reader's step keeps its part of the answer right, and answers rightly. */
  lemma ReaderAnswers(cfg: Config, w: World, i: nat, p: Place, id: EndpointId)
    requires Enabled(cfg, w, Thread([], p), id) && Reads(p) > 0 && Routing(cfg, w, p) && AllRight(cfg, w)
    requires w.router == Done(cfg, w) && Coherent(w.router, cfg.reporting)
    ensures var (p', w') := Act(cfg, w, i, p, id);
            w'.router == w.router && Routing(cfg, w', p') && AllRight(cfg, w')
  {
    if p.Scanning? {
      ScanningAnswers(cfg, w, i, p, id);
    } else if !p.Rereading? {
      var n := |w.updates|;
      var a := if p.Counting? then Counted(w.router.count, n) else Routed(p.attributes, p.out, n);
      RightNow(cfg, w, a);
      AnsweringRight(cfg, w, Act(cfg, w, i, p, id).1, a);
    }
  }

  lemma OtherAnswers(cfg: Config, w: World, i: nat, p: Place, id: EndpointId)
    requires Enabled(cfg, w, Thread([], p), id) && Reads(p) == 0 && AllRight(cfg, w)
    ensures var (p', w') := Act(cfg, w, i, p, id); Routing(cfg, w', p') && AllRight(cfg, w')
  {
    var w' := Act(cfg, w, i, p, id).1;
    assert w'.answers == w.answers;
    if w'.updates != w.updates {
      var u := p.update;
      assert w'.updates == w.updates + [u];
      forall k | 0 <= k < |w.answers| ensures Right(cfg, w'.updates, w.answers[k]) {
        RightLater(cfg, w.updates, u, w.answers[k]);
      }
    }
  }

  lemma BeginAnswers(cfg: Config, w: World, i: nat, call: Call)
    requires AllRight(cfg, w)
    ensures var (p', w') := Begin(w, i, call); w'.router == w.router && Routing(cfg, w', p') && AllRight(cfg, w')
  {
    if call.Route? {
      NothingSeen(cfg, w.router.exporters, call.attributes);
    }
  }

  lemma NextAnswers(cfg: Config, st: State, c: Choice)
    requires Locked(st) && Whole(cfg, st) && CanStep(cfg, st, c)
    requires AllRight(cfg, st.world) && AllRouting(cfg, st)
    ensures var st' := Next(cfg, st, c); AllRight(cfg, st'.world) && AllRouting(cfg, st')
  {
    var i, th, w, st' := c.thread, st.threads[c.thread], st.world, Next(cfg, st, c);
    var p := th.place;
    assert Owns(w.locks, i, p) && Routing(cfg, w, p);
    if p.Idle? {
      BeginAnswers(cfg, w, i, th.calls[0]);
    } else if Reads(p) > 0 {
      assert |w.locks.readers| > 0;
      RunCoherent(w.updates, cfg.reporting);
      ReaderAnswers(cfg, w, i, p, c.id);
    } else {
      ActWrites(cfg, w, i, p, c.id);
      OtherAnswers(cfg, w, i, p, c.id);
    }
    forall j | 0 <= j < |st.threads| && j != i ensures Routing(cfg, st'.world, st.threads[j].place) {
      OthersRoute(cfg, st, c, j);
    }
  }

  /** A thread that routes keeps every writer out, so what it has so far stays right. */
  lemma OthersRoute(cfg: Config, st: State, c: Choice, j: nat)
    requires Locked(st) && CanStep(cfg, st, c) && j < |st.threads| && j != c.thread
    requires Routing(cfg, st.world, st.threads[j].place)
    ensures Routing(cfg, Next(cfg, st, c).world, st.threads[j].place)
  {
    var w, p, q := st.world, st.threads[c.thread].place, st.threads[j].place;
    assert Owns(w.locks, c.thread, p) && Owns(w.locks, j, q);
    if Reads(q) > 0 {
      assert j in w.locks.readers && |w.locks.readers| > 0;
      SameRouter(cfg, st, c);
    }
  }

  lemma SameRouter(cfg: Config, st: State, c: Choice)
    requires Locked(st) && CanStep(cfg, st, c) && |st.world.locks.readers| > 0
    ensures Next(cfg, st, c).world.router == st.world.router
  {
    var w, p := st.world, st.threads[c.thread].place;
    assert Owns(w.locks, c.thread, p);
    if !p.Idle? {
      ActWrites(cfg, w, c.thread, p, c.id);
    }
  }

  /** An answer is given as a call returns, and dated by the updates completed at that moment. */
  lemma AnsweredOnReturn(cfg: Config, st: State, c: Choice)
    requires CanStep(cfg, st, c)
    ensures var st' := Next(cfg, st, c); var before, after := st.world.answers, st'.world.answers;
            after == before ||
              (&& |after| == |before| + 1 && after[..|before|] == before && after[|before|].at == |st'.world.updates|
               && Reads(st.threads[c.thread].place) > 0 && st'.threads[c.thread].place.Idle?)
  {
    var th := st.threads[c.thread];
    if !th.place.Idle? {
      ActAnswers(cfg, st.world, c.thread, th.place, c.id);
    }
  }

  lemma ActAnswers(cfg: Config, w: World, i: nat, p: Place, id: EndpointId)
    requires Enabled(cfg, w, Thread([], p), id)
    ensures var (p', w') := Act(cfg, w, i, p, id);
            if Reads(p) > 0 && p'.Idle? then
              && |w'.answers| == |w.answers| + 1 && w'.answers[..|w.answers|] == w.answers
              && w'.answers[|w.answers|].at == |w'.updates|
            else w'.answers == w.answers
  {
  }

  /**
   Whatever the schedule, every Route returned exactly the matching exporters of the router's map,
   and every Count their number, as of one instant: the one at which the updates completed were
   the first `at`, which is when the call returned. No answer mixes two states of the map or sees
   half an update.
   */
  lemma {:induction false} AnsweredAtOneInstant(cfg: Config, calls: seq<seq<Call>>, schedule: seq<Choice>)
    ensures var st := After(cfg, calls, schedule); st.Some? ==>
        AllRight(cfg, st.value.world) && AllRouting(cfg, st.value)
  {
    if |schedule| == 0 {
    } else {
      var before, last := After(cfg, calls, schedule[..|schedule| - 1]), schedule[|schedule| - 1];
      AnsweredAtOneInstant(cfg, calls, schedule[..|schedule| - 1]);
      AlwaysLocked(cfg, calls, schedule[..|schedule| - 1]);
      AlwaysWhole(cfg, calls, schedule[..|schedule| - 1]);
      if before.Some? && CanStep(cfg, before.value, last) {
        NextAnswers(cfg, before.value, last);
      }
    }
  }

  // ---------------------------------------------------------------- the handler and the router

  function HandlesOf(es: seq<RoutedExporter>): (hs: seq<Handle>)
    ensures |hs| == |es|
  {
    seq(|es|, i requires 0 <= i < |es| => es[i].exporter)
  }

  /** The handler holds for each endpoint what the router routes to, one update in progress apart. */
  ghost predicate InStep(entries: map<EndpointId, seq<Handle>>, exporters: Exporters, owner: Option<Place>) {
    forall id :: SameAt(entries, exporters, owner, id)
  }

  ghost predicate SameAt(entries: map<EndpointId, seq<Handle>>, exporters: Exporters, owner: Option<Place>,
                         id: EndpointId) {
    var held, routed := ListAt(entries, id), HandlesOf(ListAt(exporters, id));
    if owner.Some? && owner.value.Updating? && owner.value.update.Add? && owner.value.update.id == id
    then held == routed + [owner.value.update.e.exporter]
    else if owner.Some? && owner.value.Forgetting? && owner.value.id == id then routed == []
    else held == routed
  }

  /** The endpoint whose exporters are being stopped, from the first shutdown until they are forgotten. */
  function Removing(owner: Option<Place>): Option<EndpointId> {
    match owner
    case Some(Stopping(id, _, _, _)) => Some(id)
    case Some(Updating(Remove(id), _, ForHandler(_, _))) => Some(id)
    case Some(Forgetting(id, _, _)) => Some(id)
    case _ => None
  }

  predicate Holds(entries: map<EndpointId, seq<Handle>>, id: EndpointId, h: Handle) {
    h in ListAt(entries, id)
  }

  ghost predicate HeldSomewhere(entries: map<EndpointId, seq<Handle>>, h: Handle) {
    exists id: EndpointId :: Holds(entries, id, h)
  }

  predicate Distinct(hs: seq<Handle>) {
    forall i, j :: 0 <= i < j < |hs| ==> hs[i] != hs[j]
  }

  /** Handles are given out in order, and each is held once, by one endpoint. */
  ghost predicate Apart(entries: map<EndpointId, seq<Handle>>, next: Handle) {
    && (forall id: EndpointId, h: Handle :: Holds(entries, id, h) ==> h < next)
    && (forall id: EndpointId, id': EndpointId, h: Handle :: Holds(entries, id, h) && Holds(entries, id', h) ==>
        id == id')
    && (forall id: EndpointId :: Distinct(ListAt(entries, id)))
  }

  /** What a removal has still to stop is held by the endpoint it removes. */
  ghost predicate LeftIsHeld(entries: map<EndpointId, seq<Handle>>, owner: Option<Place>) {
    owner.Some? && owner.value.Stopping? ==>
      Distinct(owner.value.left) && forall h: Handle :: h in owner.value.left ==> Holds(entries, owner.value.id, h)
  }

  /** A removal has still to stop this exporter of the endpoint it removes. */
  predicate StillToStop(owner: Option<Place>, h: Handle) {
    owner.Some? && owner.value.Stopping? && h in owner.value.left
  }

  /**
   Before the final shutdown no exporter has been stopped twice, and every exporter ever started is
   either held or stopped; both at once only for what a removal has stopped and not yet forgotten.
   */
  ghost predicate Ledger(entries: map<EndpointId, seq<Handle>>, next: Handle, stopped: multiset<Handle>,
                         owner: Option<Place>) {
    && (forall h: Handle :: stopped[h] <= 1)
    && (forall h: Handle :: h < next && stopped[h] == 0 ==> HeldSomewhere(entries, h))
    && (forall id: EndpointId, h: Handle :: Holds(entries, id, h) ==>
          (stopped[h] > 0 <==> Removing(owner) == Some(id) && !StillToStop(owner, h)))
  }

  ghost predicate Sound(w: World, owner: Option<Place>) {
    match w
    case World(_, _, _, entries, next, stopped, closed, _) =>
      && Apart(entries, next) && LeftIsHeld(entries, owner)
      && (forall h: Handle :: stopped[h] > 0 ==> h < next)
      && (!closed ==> Ledger(entries, next, stopped, owner))
  }

  // ---------------------------------------------------------------- what is held, and how often

  lemma {:induction false} DistinctOnce(hs: seq<Handle>, h: Handle)
    requires Distinct(hs)
    ensures multiset(hs)[h] == if h in hs then 1 else 0
  {
    if |hs| == 0 {
    } else {
      var n := |hs| - 1;
      DistinctOnce(hs[..n], h);
      assert hs == hs[..n] + [hs[n]];
    }
  }

  lemma NotHeld(entries: map<EndpointId, seq<Handle>>, h: Handle)
    requires forall id :: id in entries ==> h !in entries[id]
    ensures AllHeld(entries)[h] == 0
  {
    AllHeldCount(entries, h);
    SumByZero(entries, Occurrences(h));
  }

  /** Held apart, each exporter is held once in all or not at all. */
  lemma HeldOnceInAll(entries: map<EndpointId, seq<Handle>>, next: Handle, h: Handle)
    requires Apart(entries, next)
    ensures AllHeld(entries)[h] == if HeldSomewhere(entries, h) then 1 else 0
  {
    if HeldSomewhere(entries, h) {
      var id: EndpointId :| Holds(entries, id, h);
      AllHeldRemove(entries, id);
      DistinctOnce(ListAt(entries, id), h);
      forall other | other in entries - {id} ensures h !in (entries - {id})[other] {
        assert Holds(entries, other, h) ==> other == id;
      }
      NotHeld(entries - {id}, h);
    } else {
      forall id | id in entries ensures h !in entries[id] {
        assert !Holds(entries, id, h);
      }
      NotHeld(entries, h);
    }
  }

  // ---------------------------------------------------------------- what each job keeps

  lemma HoldsPut(entries: map<EndpointId, seq<Handle>>, id: EndpointId, new': Handle, other: EndpointId, h: Handle)
    ensures Holds(entries[id := ListAt(entries, id) + [new']], other, h) <==>
              Holds(entries, other, h) || (other == id && h == new')
  {
  }

  lemma ApartStart(entries: map<EndpointId, seq<Handle>>, next: Handle, id: EndpointId)
    requires Apart(entries, next)
    ensures Apart(entries[id := ListAt(entries, id) + [next]], next + 1)
  {
    var entries' := entries[id := ListAt(entries, id) + [next]];
    forall other, h ensures Holds(entries', other, h) <==> Holds(entries, other, h) || (other == id && h == next) {
      HoldsPut(entries, id, next, other, h);
    }
    forall other: EndpointId ensures Distinct(ListAt(entries', other)) {
      var held := ListAt(entries, other);
      assert Distinct(held);
      if other == id {
        forall k | 0 <= k < |held| ensures held[k] != next {
          assert Holds(entries, id, held[k]);
        }
        assert ListAt(entries', other) == held + [next];
      }
    }
  }

  lemma LedgerStart(entries: map<EndpointId, seq<Handle>>, next: Handle, stopped: multiset<Handle>, id: EndpointId,
                    p: Place)
    requires Ledger(entries, next, stopped, None) && stopped[next] == 0
    requires p.Updating? && p.update.Add?
    ensures Ledger(entries[id := ListAt(entries, id) + [next]], next + 1, stopped, Some(p))
  {
    var entries' := entries[id := ListAt(entries, id) + [next]];
    forall other, h ensures Holds(entries', other, h) <==> Holds(entries, other, h) || (other == id && h == next) {
      HoldsPut(entries, id, next, other, h);
    }
    forall h: Handle | h < next + 1 && stopped[h] == 0 ensures HeldSomewhere(entries', h) {
      if h == next {
        assert Holds(entries', id, h);
      } else {
        var other: EndpointId :| Holds(entries, other, h);
        assert Holds(entries', other, h);
      }
    }
  }

  lemma DropSound(w: World, id: EndpointId, jobs: seq<Job>, tracked: bool)
    requires Sound(w, None)
    ensures Sound(w, Some(Handling(jobs, tracked)))
    ensures Sound(w, Some(Stopping(id, ListAt(w.entries, id), jobs, tracked)))
  {
    var held := ListAt(w.entries, id);
    assert Distinct(held) && forall h: Handle :: h in held <==> Holds(w.entries, id, h);
  }

  lemma CloseSound(w: World, jobs: seq<Job>, tracked: bool)
    requires Sound(w, None)
    ensures Sound(w.(stopped := w.stopped + AllHeld(w.entries), closed := true), Some(Handling(jobs, tracked)))
  {
    forall h: Handle | AllHeld(w.entries)[h] > 0 ensures h < w.next {
      HeldOnceInAll(w.entries, w.next, h);
    }
  }

  lemma StopSound(w: World, id: EndpointId, left: seq<Handle>, jobs: seq<Job>, tracked: bool)
    requires Sound(w, Some(Stopping(id, left, jobs, tracked))) && |left| > 0
    ensures Sound(w.(stopped := w.stopped + multiset{left[0]}), Some(Stopping(id, left[1..], jobs, tracked)))
  {
    assert left[0] in left && Holds(w.entries, id, left[0]);
    assert left == [left[0]] + left[1..];
    assert forall h: Handle :: h in left <==> h == left[0] || h in left[1..];
    assert left[0] !in left[1..];
  }

  lemma StoppedSound(w: World, id: EndpointId, jobs: seq<Job>, tracked: bool, p: Place)
    requires Sound(w, Some(Stopping(id, [], jobs, tracked)))
    requires p == Updating(Remove(id), Asking, ForHandler(jobs, tracked))
    ensures Sound(w, Some(p))
  {
  }

  lemma ForgetSound(w: World, id: EndpointId, jobs: seq<Job>, tracked: bool)
    requires Sound(w, Some(Forgetting(id, jobs, tracked)))
    ensures Sound(w.(entries := w.entries - {id}), Some(Handling(jobs, tracked)))
  {
    var entries' := w.entries - {id};
    forall other, h ensures Holds(entries', other, h) <==> Holds(w.entries, other, h) && other != id {
    }
    forall other: EndpointId ensures Distinct(ListAt(entries', other)) {
      assert Distinct(ListAt(w.entries, other));
    }
    forall h: Handle | !w.closed && h < w.next && w.stopped[h] == 0 ensures HeldSomewhere(entries', h) {
      var other: EndpointId :| Holds(w.entries, other, h);
      assert Holds(entries', other, h);
    }
  }

  /** Owners that remove the same endpoint, or none, and have stopped as much of it, are alike. */
  lemma AlikeSound(w: World, p: Place, q: Place)
    requires Sound(w, Some(p)) && Removing(Some(p)) == Removing(Some(q)) && !p.Stopping? && !q.Stopping?
    ensures Sound(w, Some(q))
  {
  }

  ghost predicate HandlerAt(cfg: Config, w: World, owner: Option<Place>) {
    match w
    case World(_, _, updates, entries, _, _, _, _) =>
      InStep(entries, Run(updates, cfg.reporting).exporters, owner) && Sound(w, owner)
  }

  lemma TakeJobInStep(cfg: Config, w: World, job: Job, jobs: seq<Job>, tracked: bool)
    requires InStep(w.entries, Done(cfg, w).exporters, None)
    ensures var (p', w') := TakeJob(w, job, jobs, tracked); InStep(w'.entries, Done(cfg, w').exporters, Some(p'))
  {
    var (p', w') := TakeJob(w, job, jobs, tracked);
    var exporters := Done(cfg, w).exporters;
    forall id ensures SameAt(w'.entries, exporters, Some(p'), id) {
      assert SameAt(w.entries, exporters, None, id);
    }
  }

  lemma TakeJobSound(w: World, job: Job, jobs: seq<Job>, tracked: bool)
    requires Sound(w, None)
    ensures var (p', w') := TakeJob(w, job, jobs, tracked); Sound(w', Some(p'))
  {
    match job
    case Start(id, _, _) =>
      ApartStart(w.entries, w.next, id);
      if !w.closed {
        LedgerStart(w.entries, w.next, w.stopped, id, TakeJob(w, job, jobs, tracked).0);
      }
    case Drop(id) => DropSound(w, id, jobs, tracked);
    case Close => CloseSound(w, jobs, tracked);
  }

  lemma TakeJobHandler(cfg: Config, w: World, job: Job, jobs: seq<Job>, tracked: bool)
    requires HandlerAt(cfg, w, None)
    ensures var (p', w') := TakeJob(w, job, jobs, tracked); HandlerAt(cfg, w', Some(p'))
  {
    TakeJobInStep(cfg, w, job, jobs, tracked);
    TakeJobSound(w, job, jobs, tracked);
  }

  lemma HandlesOfSnoc(es: seq<RoutedExporter>, e: RoutedExporter)
    ensures HandlesOf(es + [e]) == HandlesOf(es) + [e.exporter]
  {
  }

  /** What an update makes of the router's map. */
  function Applied(exporters: Exporters, u: Update): Exporters {
    match u
    case Add(id, e) => exporters[id := ListAt(exporters, id) + [e]]
    case Remove(id) => exporters - {id}
  }

  lemma DoneMore(cfg: Config, updates: seq<Update>, u: Update)
    ensures Run(updates + [u], cfg.reporting).exporters == Applied(Run(updates, cfg.reporting).exporters, u)
  {
    assert (updates + [u])[..|updates|] == updates;
  }

  lemma AppliedAt(entries: map<EndpointId, seq<Handle>>, exporters: Exporters, u: Update, k: nat, errand: Errand,
                  id: EndpointId)
    requires errand.ForHandler? && SameAt(entries, exporters, Some(Updating(u, Writing(k), errand)), id)
    ensures SameAt(entries, Applied(exporters, u), Some(Returned(u, errand)), id)
  {
    if u.Add? && u.id == id {
      HandlesOfSnoc(ListAt(exporters, id), u.e);
    }
  }

  /** Leaving the write lock is where an update takes effect. */
  lemma LeaveInStep(entries: map<EndpointId, seq<Handle>>, exporters: Exporters, u: Update, k: nat, errand: Errand)
    requires errand.ForHandler? && InStep(entries, exporters, Some(Updating(u, Writing(k), errand)))
    ensures InStep(entries, Applied(exporters, u), Some(Returned(u, errand)))
  {
    forall id ensures SameAt(entries, Applied(exporters, u), Some(Returned(u, errand)), id) {
      assert SameAt(entries, exporters, Some(Updating(u, Writing(k), errand)), id);
      AppliedAt(entries, exporters, u, k, errand, id);
    }
  }

  lemma HandlerFrom(cfg: Config, w: World, owner: Option<Place>, exporters: Exporters)
    requires InStep(w.entries, exporters, owner) && Sound(w, owner) && exporters
        == Run(w.updates, cfg.reporting).exporters
    ensures HandlerAt(cfg, w, owner)
  {
  }

  lemma LeaveHandler(cfg: Config, w: World, i: nat, u: Update, errand: Errand, k: nat)
    requires HandlerAt(cfg, w, Some(Updating(u, Writing(k), errand))) && k >= STAGES && errand.ForHandler?
    ensures HandlerAt(cfg, WriteStep(cfg, w, i, u, Writing(k), errand).1, Some(Returned(u, errand)))
  {
    var exporters := Run(w.updates, cfg.reporting).exporters;
    var w' := WriteStep(cfg, w, i, u, Writing(k), errand).1;
    LeaveInStep(w.entries, exporters, u, k, errand);
    DoneMore(cfg, w.updates, u);
    AlikeSound(w, Updating(u, Writing(k), errand), Returned(u, errand));
    SameSound(w, w', Some(Returned(u, errand)));
    HandlerFrom(cfg, w', Some(Returned(u, errand)), Applied(exporters, u));
  }

  lemma SameSound(w: World, w': World, owner: Option<Place>)
    requires Sound(w, owner)
    requires w'.entries == w.entries && w'.next == w.next && w'.stopped == w.stopped && w'.closed == w.closed
    ensures Sound(w', owner)
  {
  }

  lemma UpdatingHandler(cfg: Config, w: World, i: nat, u: Update, phase: Phase, errand: Errand)
    requires HandlerAt(cfg, w, Some(Updating(u, phase, errand))) && errand.ForHandler?
    ensures var (p', w') := WriteStep(cfg, w, i, u, phase, errand); HandlerAt(cfg, w', Some(p'))
  {
    if phase.Writing? && phase.done >= STAGES {
      LeaveHandler(cfg, w, i, u, errand, phase.done);
    } else {
      var (p', w') := WriteStep(cfg, w, i, u, phase, errand);
      SameOwner(cfg, w, Updating(u, phase, errand), p');
      SameHandler(cfg, w, w', Some(p'));
    }
  }

  lemma SameOwner(cfg: Config, w: World, p: Place, p': Place)
    requires HandlerAt(cfg, w, Some(p)) && p.Updating? && p'.Updating? && p.update == p'.update && p.errand == p'.errand
    ensures HandlerAt(cfg, w, Some(p'))
  {
    var exporters, before, after := Done(cfg, w).exporters, Some(p), Some(p');
    forall id ensures SameAt(w.entries, exporters, after, id) {
      assert SameAt(w.entries, exporters, before, id);
    }
    assert InStep(w.entries, exporters, after);
    AlikeSound(w, p, p');
  }

  /** Nobody who is between two jobs makes a difference. */
  lemma NoOwner(cfg: Config, w: World, jobs: seq<Job>, tracked: bool)
    ensures HandlerAt(cfg, w, Some(Handling(jobs, tracked))) <==> HandlerAt(cfg, w, None)
  {
    var entries, exporters, owner := w.entries, Done(cfg, w).exporters, Some(Handling(jobs, tracked));
    assert forall id :: SameAt(entries, exporters, owner, id) <==> SameAt(entries, exporters, None, id);
  }

  lemma StopHandler(cfg: Config, w: World, id: EndpointId, left: seq<Handle>, jobs: seq<Job>, tracked: bool)
    requires HandlerAt(cfg, w, Some(Stopping(id, left, jobs, tracked)))
    ensures if |left| > 0
            then HandlerAt(cfg, w.(stopped := w.stopped + multiset{left[0]}),
                Some(Stopping(id, left[1..], jobs, tracked)))
            else HandlerAt(cfg, w, Some(Updating(Remove(id), Asking, ForHandler(jobs, tracked))))
  {
    var exporters := Done(cfg, w).exporters;
    var p := Updating(Remove(id), Asking, ForHandler(jobs, tracked));
    forall other
      ensures SameAt(w.entries, exporters, Some(p), other)
      ensures |left| > 0 ==> SameAt(w.entries, exporters, Some(Stopping(id, left[1..], jobs, tracked)), other)
    {
      assert SameAt(w.entries, exporters, Some(Stopping(id, left, jobs, tracked)), other);
    }
    if |left| > 0 {
      StopSound(w, id, left, jobs, tracked);
    } else {
      assert left == [];
      StoppedSound(w, id, jobs, tracked, p);
    }
  }

  lemma ForgetHandler(cfg: Config, w: World, id: EndpointId, jobs: seq<Job>, tracked: bool)
    requires HandlerAt(cfg, w, Some(Forgetting(id, jobs, tracked)))
    ensures HandlerAt(cfg, w.(entries := w.entries - {id}), Some(Handling(jobs, tracked)))
  {
    var exporters, entries' := Done(cfg, w).exporters, w.entries - {id};
    forall other ensures SameAt(entries', exporters, Some(Handling(jobs, tracked)), other) {
      assert SameAt(w.entries, exporters, Some(Forgetting(id, jobs, tracked)), other);
    }
    ForgetSound(w, id, jobs, tracked);
  }

  lemma HandlingHandler(cfg: Config, w: World, i: nat, p: Place, id: EndpointId)
    requires Enabled(cfg, w, Thread([], p), id) && p.Handling? && HandlerAt(cfg, w, Some(p))
    ensures var (p', w') := Act(cfg, w, i, p, id); HandlerAt(cfg, w', if InHandler(p') then Some(p') else None)
  {
    NoOwner(cfg, w, p.jobs, p.tracked);
    if |p.jobs| > 0 {
      TakeJobHandler(cfg, w, p.jobs[0], p.jobs[1..], p.tracked);
      assert InHandler(TakeJob(w, p.jobs[0], p.jobs[1..], p.tracked).0);
    } else {
      SameHandler(cfg, w, Act(cfg, w, i, p, id).1, None);
    }
  }

  /** The thread in the handler keeps the handler and the router in step. */
  lemma ActHandler(cfg: Config, w: World, i: nat, p: Place, id: EndpointId)
    requires Enabled(cfg, w, Thread([], p), id) && InHandler(p) && HandlerAt(cfg, w, Some(p))
    ensures var (p', w') := Act(cfg, w, i, p, id); HandlerAt(cfg, w', if InHandler(p') then Some(p') else None)
  {
    if p.Handling? {
      HandlingHandler(cfg, w, i, p, id);
    } else if p.Stopping? {
      StopHandler(cfg, w, p.id, p.left, p.jobs, p.tracked);
    } else if p.Updating? {
      UpdatingHandler(cfg, w, i, p.update, p.phase, p.errand);
      assert InHandler(WriteStep(cfg, w, i, p.update, p.phase, p.errand).0);
    } else {
      ForgetHandler(cfg, w, p.id, p.jobs, p.tracked);
    }
  }

  // ---------------------------------------------------------------- threads that go through the handler

  predicate Through(th: Thread) {
    (forall k :: 0 <= k < |th.calls| ==> !th.calls[k].Edit?) && !(th.place.Updating? && th.place.errand.Direct?)
  }

  /** Every update of the router is made for the handler. */
  ghost predicate AllThrough(st: State) {
    forall i :: 0 <= i < |st.threads| ==> Through(st.threads[i])
  }

  ghost predicate NoEdits(calls: seq<seq<Call>>) {
    forall i, k :: 0 <= i < |calls| && 0 <= k < |calls[i]| ==> !calls[i][k].Edit?
  }

  lemma ActThrough(cfg: Config, w: World, i: nat, p: Place, id: EndpointId)
    requires Enabled(cfg, w, Thread([], p), id) && Through(Thread([], p))
    ensures Through(Thread([], Act(cfg, w, i, p, id).0))
  {
  }

  lemma NextThrough(cfg: Config, st: State, c: Choice)
    requires AllThrough(st) && CanStep(cfg, st, c)
    ensures AllThrough(Next(cfg, st, c))
  {
    var i, th, st' := c.thread, st.threads[c.thread], Next(cfg, st, c);
    assert Through(th);
    if !th.place.Idle? {
      ActThrough(cfg, st.world, i, th.place, c.id);
    }
    assert Through(st'.threads[i]);
  }

  /** What the handler owns, and the updates made, change only in the hands of its owner. */
  lemma ActElsewhere(cfg: Config, w: World, i: nat, p: Place, id: EndpointId)
    requires Enabled(cfg, w, Thread([], p), id) && !InHandler(p) && Through(Thread([], p))
    ensures var (p', w') := Act(cfg, w, i, p, id);
            && !InHandler(p') && w'.locks.handler == w.locks.handler
            && w'.entries == w.entries && w'.updates == w.updates && w'.next == w.next
            && w'.stopped == w.stopped && w'.closed == w.closed
  {
  }

  ghost predicate Agreed(cfg: Config, st: State) {
    HandlerAt(cfg, st.world, PlaceOf(st, st.world.locks.handler))
  }

  lemma BeginAgreed(cfg: Config, w: World, i: nat, call: Call)
    requires HandlerAt(cfg, w, None)
    ensures call.Notify? ==> HandlerAt(cfg, Begin(w, i, call).1, Some(Begin(w, i, call).0))
  {
    if call.Notify? {
      NoOwner(cfg, w, call.jobs, call.tracked);
      SameHandler(cfg, w, Begin(w, i, call).1, Some(Begin(w, i, call).0));
    }
  }

  lemma SameHandler(cfg: Config, w: World, w': World, owner: Option<Place>)
    requires w'.entries == w.entries && w'.updates == w.updates && w'.next == w.next
    requires w'.stopped == w.stopped && w'.closed == w.closed
    requires HandlerAt(cfg, w, owner)
    ensures HandlerAt(cfg, w', owner)
  {
    SameSound(w, w', owner);
  }

  lemma OwnerActs(cfg: Config, st: State, c: Choice)
    requires Locked(st) && Agreed(cfg, st) && CanStep(cfg, st, c) && InHandler(st.threads[c.thread].place)
    ensures Agreed(cfg, Next(cfg, st, c))
  {
    var i, p := c.thread, st.threads[c.thread].place;
    assert Owns(st.world.locks, i, p);
    ActHandler(cfg, st.world, i, p, c.id);
    ActKeepsMutex(cfg, st.world, i, p, c.id);
    var (p', w') := Act(cfg, st.world, i, p, c.id);
    assert PlaceOf(Next(cfg, st, c), w'.locks.handler) == if InHandler(p') then Some(p') else None;
  }

  lemma OtherActs(cfg: Config, st: State, c: Choice)
    requires Locked(st) && Agreed(cfg, st) && CanStep(cfg, st, c)
    requires var p := st.threads[c.thread].place; !p.Idle? && !InHandler(p) && Through(Thread([], p))
    ensures Agreed(cfg, Next(cfg, st, c))
  {
    var i, p := c.thread, st.threads[c.thread].place;
    assert Owns(st.world.locks, i, p);
    ActElsewhere(cfg, st.world, i, p, c.id);
    var w', owner := Act(cfg, st.world, i, p, c.id).1, PlaceOf(st, st.world.locks.handler);
    SameHandler(cfg, st.world, w', owner);
    assert PlaceOf(Next(cfg, st, c), w'.locks.handler) == owner;
  }

  lemma CallBegins(cfg: Config, st: State, c: Choice)
    requires Locked(st) && Agreed(cfg, st) && CanStep(cfg, st, c) && st.threads[c.thread].place.Idle?
    ensures Agreed(cfg, Next(cfg, st, c))
  {
    var i, th, owner := c.thread, st.threads[c.thread], PlaceOf(st, st.world.locks.handler);
    assert Owns(st.world.locks, i, th.place);
    var (p', w') := Begin(st.world, i, th.calls[0]);
    if th.calls[0].Notify? {
      BeginAgreed(cfg, st.world, i, th.calls[0]);
      assert PlaceOf(Next(cfg, st, c), w'.locks.handler) == Some(p');
    } else {
      SameHandler(cfg, st.world, w', owner);
      assert PlaceOf(Next(cfg, st, c), w'.locks.handler) == owner;
    }
  }

  lemma NextAgreed(cfg: Config, st: State, c: Choice)
    requires Locked(st) && Agreed(cfg, st) && CanStep(cfg, st, c) && AllThrough(st)
    ensures Agreed(cfg, Next(cfg, st, c))
  {
    var p := st.threads[c.thread].place;
    assert Through(st.threads[c.thread]);
    if p.Idle? {
      CallBegins(cfg, st, c);
    } else if InHandler(p) {
      OwnerActs(cfg, st, c);
    } else {
      OtherActs(cfg, st, c);
    }
  }

  lemma ActKeepsMutex(cfg: Config, w: World, i: nat, p: Place, id: EndpointId)
    requires Enabled(cfg, w, Thread([], p), id) && InHandler(p) && w.locks.handler == Some(i)
    ensures var (p', w') := Act(cfg, w, i, p, id); w'.locks.handler == if InHandler(p') then Some(i) else None
  {
  }

  lemma InitialAgreed(cfg: Config, calls: seq<seq<Call>>)
    requires NoEdits(calls)
    ensures Agreed(cfg, Initial(calls)) && AllThrough(Initial(calls))
  {
    var st := Initial(calls);
    assert forall id :: SameAt(st.world.entries, Done(cfg, st.world).exporters, None, id);
  }

  lemma {:induction false} AlwaysAgreed(cfg: Config, calls: seq<seq<Call>>, schedule: seq<Choice>)
    requires NoEdits(calls)
    ensures var st := After(cfg, calls, schedule); st.Some? ==> Agreed(cfg, st.value) && AllThrough(st.value)
  {
    if |schedule| == 0 {
      InitialAgreed(cfg, calls);
    } else {
      var before, last := After(cfg, calls, schedule[..|schedule| - 1]), schedule[|schedule| - 1];
      AlwaysAgreed(cfg, calls, schedule[..|schedule| - 1]);
      AlwaysLocked(cfg, calls, schedule[..|schedule| - 1]);
      if before.Some? && CanStep(cfg, before.value, last) {
        NextAgreed(cfg, before.value, last);
        NextThrough(cfg, before.value, last);
      }
    }
  }

  /** Whenever the handler's mutex is free, the handler holds for every endpoint exactly what the router routes to. */
  lemma AgreeWhenFree(cfg: Config, calls: seq<seq<Call>>, schedule: seq<Choice>, id: EndpointId)
    requires NoEdits(calls) && After(cfg, calls, schedule).Some?
    ensures var w := After(cfg, calls, schedule).value.world;
            w.locks.handler.None? ==>
                w.router == Done(cfg, w) && ListAt(w.entries, id) == HandlesOf(ListAt(w.router.exporters, id))
  {
    var st := After(cfg, calls, schedule).value;
    AlwaysAgreed(cfg, calls, schedule);
    AlwaysWhole(cfg, calls, schedule);
    AlwaysLocked(cfg, calls, schedule);
    assert SameAt(st.world.entries, Done(cfg, st.world).exporters, PlaceOf(st, st.world.locks.handler), id);
    if st.world.locks.writer.Some? {
      var writer := st.world.locks.writer.value;
      assert Owns(st.world.locks, writer, st.threads[writer].place) && Through(st.threads[writer]);
    }
  }

  /**
   Before the final shutdown, an exporter the router has for an endpoint has been stopped if and
   only if a thread in the handler is removing that endpoint and has got past it; so never while
   the handler's mutex is free.
   */
  lemma StoppedExactlyInRemoval(cfg: Config, calls: seq<seq<Call>>, schedule: seq<Choice>, id: EndpointId, h: Handle)
    requires NoEdits(calls) && After(cfg, calls, schedule).Some?
    requires var w := After(cfg, calls, schedule).value.world;
             !w.closed && h in HandlesOf(ListAt(Done(cfg, w).exporters, id))
    ensures var st := After(cfg, calls, schedule).value;
            var owner := PlaceOf(st, st.world.locks.handler);
            h in st.world.stopped <==> Removing(owner) == Some(id) && !StillToStop(owner, h)
  {
    var st := After(cfg, calls, schedule).value;
    var owner := PlaceOf(st, st.world.locks.handler);
    AlwaysAgreed(cfg, calls, schedule);
    assert SameAt(st.world.entries, Done(cfg, st.world).exporters, owner, id);
    assert Holds(st.world.entries, id, h);
  }

  /**
   Conservation under every schedule. Before the final shutdown no exporter has been stopped twice;
   and with the handler's mutex free, each one ever started is held once or has been stopped once,
   and not both.
   */
  lemma Conserved(cfg: Config, calls: seq<seq<Call>>, schedule: seq<Choice>, h: Handle)
    requires NoEdits(calls) && After(cfg, calls, schedule).Some?
    requires !After(cfg, calls, schedule).value.world.closed
    ensures var w := After(cfg, calls, schedule).value.world;
            && w.stopped[h] <= 1
            && (w.locks.handler.None? ==> AllHeld(w.entries)[h] + w.stopped[h] == if h < w.next then 1 else 0)
  {
    var w := After(cfg, calls, schedule).value.world;
    AlwaysAgreed(cfg, calls, schedule);
    HeldOnceInAll(w.entries, w.next, h);
  }

  /** The first shutdown of a run completes the account: every exporter started so far has been stopped exactly once. */
  lemma ClosingStopsTheRest(cfg: Config, calls: seq<seq<Call>>, schedule: seq<Choice>, c: Choice, h: Handle)
    requires NoEdits(calls) && After(cfg, calls, schedule).Some?
    requires var st := After(cfg, calls, schedule).value;
             CanStep(cfg, st, c) && !st.world.closed && Next(cfg, st, c).world.closed
    ensures var w := Next(cfg, After(cfg, calls, schedule).value, c).world;
            w.stopped[h] == if h < w.next then 1 else 0
  {
    var st := After(cfg, calls, schedule).value;
    AlwaysAgreed(cfg, calls, schedule);
    AlwaysLocked(cfg, calls, schedule);
    var p := st.threads[c.thread].place;
    assert Owns(st.world.locks, c.thread, p);
    ClosingIsAJob(cfg, st.world, c.thread, p, c.id);
    CloseStops(st.world, p, h);
  }

  lemma CloseStops(w: World, p: Place, h: Handle)
    requires Sound(w, Some(p)) && p.Handling? && !w.closed
    ensures (w.stopped + AllHeld(w.entries))[h] == if h < w.next then 1 else 0
  {
    HeldOnceInAll(w.entries, w.next, h);
    if HeldSomewhere(w.entries, h) {
      var id: EndpointId :| Holds(w.entries, id, h);
    }
  }

  lemma ClosingIsAJob(cfg: Config, w: World, i: nat, p: Place, id: EndpointId)
    requires !w.closed
    ensures p.Idle? || !Enabled(cfg, w, Thread([], p), id) || !Act(cfg, w, i, p, id).1.closed ||
              (p.Handling? && |p.jobs| > 0 && p.jobs[0].Close?)
  {
  }
}
