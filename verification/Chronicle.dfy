/**
 The history a schedule of interleaved threads makes.

 Each step of the thread in the handler that starts, forgets or closes something is an event; the
 events of a schedule, in order, are a log, and what the handler owns is what that log calls for.
 So what is proved of every log holds under every schedule.
 */
module Chronicle {
  import opened Base
  import opened Endpoints
  import opened Telemetry
  import opened Router
  import opened ExporterMaps
  import opened History
  import opened Lifecycle
  import opened Interleaving
  import opened Linearization

  /** The start of an exporter, as an event; the step model knows no template, configuration or signals. */
  function StartEvent(job: Job, h: Handle): Event
    requires job.Start?
  {
    Started(Endpoint(job.id, [], job.kind, Some(job.properties)), 0, h, map[], Signals(false, false, false))
  }

  /** What a thread's step adds to the log: a removal counts once the endpoint is forgotten. */
  function EventsOf(w: World, p: Place): Log {
    match p
    case Handling(jobs, _) =>
      if |jobs| == 0 then []
      else
        (match jobs[0]
         case Start(_, _, _) => [StartEvent(jobs[0], w.next)]
         case Drop(id) => if |ListAt(w.entries, id)| == 0 then [Event.Removed(id)] else []
         case Close => [Closed])
    case Forgetting(id, _, _) => [Event.Removed(id)]
    case _ => []
  }

  ghost function LogOf(cfg: Config, calls: seq<seq<Call>>, schedule: seq<Choice>): Log {
    if |schedule| == 0 then []
    else
      var before, last := After(cfg, calls, schedule[..|schedule| - 1]), schedule[|schedule| - 1];
      LogOf(cfg, calls, schedule[..|schedule| - 1]) +
      if before.Some? && CanStep(cfg, before.value, last)
      then EventsOf(before.value.world, before.value.threads[last.thread].place) else []
  }

  // ---------------------------------------------------------------- what the log accounts for

  /** Shutdown calls a removal under way has still to make. */
  function StillOwed(owner: Option<Place>): multiset<Handle> {
    if owner.Some? && owner.value.Stopping? then multiset(owner.value.left) else multiset{}
  }

  /** Everything the removal under way stops, whether it has been stopped yet or not. */
  function Underway(entries: map<EndpointId, seq<Handle>>, owner: Option<Place>): multiset<Handle> {
    if Removing(owner).Some? then multiset(ListAt(entries, Removing(owner).value)) else multiset{}
  }

  /** The multimap holds what the log says, and handles were given out in order. */
  ghost predicate Recorded(entries: map<EndpointId, seq<Handle>>, next: Handle, log: Log) {
    Mirrors(entries, HandleOf(), log) && History.Fresh(log) && forall h :: h in Handles(log) ==> h < next
  }

  /** The stops made are those due and, so far, those of the removal under way. */
  ghost predicate Owed(stopped: multiset<Handle>, entries: map<EndpointId, seq<Handle>>,
                       owner: Option<Place>, due: multiset<Handle>) {
    stopped + StillOwed(owner) == due + Underway(entries, owner)
  }

  // ---------------------------------------------------------------- what the multimap holds

  lemma RecordedStart(entries: map<EndpointId, seq<Handle>>, next: Handle, log: Log, e: Event)
    requires Recorded(entries, next, log) && e.Started? && e.handle == next
    ensures Recorded(entries[e.endpoint.id := ListAt(entries, e.endpoint.id) + [next]], next + 1, log + [e])
  {
    MirrorsStarted(entries, HandleOf(), log, e);
    FreshSnoc(log, e, next);
  }

  lemma HeldNothing(entries: map<EndpointId, seq<Handle>>, log: Log, id: EndpointId)
    requires Mirrors(entries, HandleOf(), log) && |ListAt(entries, id)| == 0
    ensures |Held(log, id)| == 0
  {
  }

  lemma RecordedSkip(entries: map<EndpointId, seq<Handle>>, next: Handle, log: Log, id: EndpointId)
    requires Recorded(entries, next, log) && |ListAt(entries, id)| == 0
    ensures Recorded(entries, next, log + [Event.Removed(id)])
  {
    HeldNothing(entries, log, id);
    MirrorsSkipped(entries, HandleOf(), log, id);
    FreshSnoc(log, Event.Removed(id), next);
  }

  lemma RecordedClose(entries: map<EndpointId, seq<Handle>>, next: Handle, log: Log)
    requires Recorded(entries, next, log)
    ensures Recorded(entries, next, log + [Closed])
  {
    MirrorsOther(entries, HandleOf(), log, Closed);
    FreshSnoc(log, Closed, next);
  }

  lemma RecordedForget(entries: map<EndpointId, seq<Handle>>, next: Handle, log: Log, id: EndpointId)
    requires Recorded(entries, next, log)
    ensures Recorded(entries - {id}, next, log + [Event.Removed(id)])
  {
    MirrorsRemoved(entries, HandleOf(), log, id);
    FreshSnoc(log, Event.Removed(id), next);
  }

  lemma ActRecorded(cfg: Config, w: World, i: nat, p: Place, id: EndpointId, log: Log)
    requires Enabled(cfg, w, Thread([], p), id) && InHandler(p) && Recorded(w.entries, w.next, log)
    ensures var w' := Act(cfg, w, i, p, id).1; Recorded(w'.entries, w'.next, log + EventsOf(w, p))
  {
    ConcatNothing(log);
    match p
    case Handling(jobs, tracked) =>
      if |jobs| > 0 {
        match jobs[0] {
          case Start(_, _, _) => RecordedStart(w.entries, w.next, log, StartEvent(jobs[0], w.next));
          case Drop(gone) =>
            if |ListAt(w.entries, gone)| == 0 {
              RecordedSkip(w.entries, w.next, log, gone);
            }
          case Close => RecordedClose(w.entries, w.next, log);
        }
      }
    case Forgetting(gone, _, _) => RecordedForget(w.entries, w.next, log, gone);
    case _ =>
  }

  // ---------------------------------------------------------------- what has been stopped

  /** What the next event would stop: a removal, what the endpoint holds; a shutdown, everything held. */
  ghost predicate NextStops(entries: map<EndpointId, seq<Handle>>, log: Log) {
    && (forall id :: StopsOf(log, Event.Removed(id)) == multiset(ListAt(entries, id)))
    && StopsOf(log, Closed) == AllHeld(entries)
  }

  lemma RecordedStops(entries: map<EndpointId, seq<Handle>>, next: Handle, log: Log)
    requires Recorded(entries, next, log)
    ensures NextStops(entries, log)
  {
    forall id ensures StopsOf(log, Event.Removed(id)) == multiset(ListAt(entries, id)) {
      HeldDistinct(log, id);
    }
    AllHeldIsLive(entries, log);
  }

  /** What a thread's step adds to the stops due. */
  ghost function Gain(w: World, p: Place): multiset<Handle> {
    match p
    case Handling(jobs, _) => if |jobs| > 0 && jobs[0].Close? then AllHeld(w.entries) else multiset{}
    case Forgetting(id, _, _) => multiset(ListAt(w.entries, id))
    case _ => multiset{}
  }

  lemma StopsGain(w: World, p: Place, log: Log)
    requires NextStops(w.entries, log)
    ensures Stops(log + EventsOf(w, p)) == Stops(log) + Gain(w, p)
  {
    if |EventsOf(w, p)| == 0 {
      assert EventsOf(w, p) == [];
      NothingGained(log);
    } else {
      var e := EventsOf(w, p)[0];
      assert EventsOf(w, p) == [e];
      StopsSnoc(log, e);
      EventGain(w, p, log);
    }
  }

  lemma NothingGained(log: Log)
    ensures Stops(log + []) == Stops(log) + multiset{}
  {
    ConcatNothing(log);
  }

  lemma EventGain(w: World, p: Place, log: Log)
    requires NextStops(w.entries, log) && |EventsOf(w, p)| > 0
    ensures StopsOf(log, EventsOf(w, p)[0]) == Gain(w, p)
  {
    if EventsOf(w, p)[0].Removed? {
      var id := EventsOf(w, p)[0].id;
      assert StopsOf(log, Event.Removed(id)) == multiset(ListAt(w.entries, id));
      assert p.Handling? ==> ListAt(w.entries, id) == [];
    }
  }

  /** With no removal under way, the stops made are those due. */
  lemma OwedNothing(stopped: multiset<Handle>, entries: map<EndpointId, seq<Handle>>,
                    owner: Option<Place>, due: multiset<Handle>)
    requires Removing(owner).None?
    ensures Owed(stopped, entries, owner, due) <==> stopped == due
  {
    assert stopped + multiset{} == stopped && due + multiset{} == due;
  }

  lemma TakeJobOwed(w: World, jobs: seq<Job>, tracked: bool)
    requires |jobs| > 0
    ensures var (p', w') := TakeJob(w, jobs[0], jobs[1..], tracked);
            InHandler(p') && Owed(w'.stopped, w'.entries, Some(p'), w.stopped + Gain(w, Handling(jobs, tracked)))
  {
    var (p', w') := TakeJob(w, jobs[0], jobs[1..], tracked);
    assert w.stopped + multiset{} == w.stopped;
    if Removing(Some(p')).None? {
      OwedNothing(w'.stopped, w'.entries, Some(p'), w.stopped + Gain(w, Handling(jobs, tracked)));
    }
  }

  lemma BagTake(stopped: multiset<Handle>, left: seq<Handle>, due: multiset<Handle>)
    requires |left| > 0 && stopped + multiset(left) == due
    ensures stopped + multiset{left[0]} + multiset(left[1..]) == due
  {
    assert left == [left[0]] + left[1..];
  }

  lemma StopOwed(stopped: multiset<Handle>, entries: map<EndpointId, seq<Handle>>, p: Place, due: multiset<Handle>)
    requires p.Stopping? && |p.left| > 0 && Owed(stopped, entries, Some(p), due)
    ensures Owed(stopped + multiset{p.left[0]}, entries, Some(p.(left := p.left[1..])), due)
  {
    BagTake(stopped, p.left, due + Underway(entries, Some(p)));
  }

  lemma ForgetOwed(w: World, p: Place, p': Place, due: multiset<Handle>)
    requires p.Forgetting? && p'.Handling? && Owed(w.stopped, w.entries, Some(p), due)
    ensures Owed(w.stopped, w.entries - {p.id}, Some(p'), due + Gain(w, p))
  {
    assert w.stopped + multiset{} == w.stopped;
    OwedNothing(w.stopped, w.entries - {p.id}, Some(p'), due + Gain(w, p));
  }

  /** Nothing that counts has changed, and the owner removes what it removed. */
  lemma SameOwed(w: World, w': World, owner: Option<Place>, owner': Option<Place>, due: multiset<Handle>)
    requires Owed(w.stopped, w.entries, owner, due) && w'.stopped == w.stopped && w'.entries == w.entries
    requires Removing(owner) == Removing(owner') && StillOwed(owner) == StillOwed(owner')
    ensures Owed(w'.stopped, w'.entries, owner', due)
  {
  }

  lemma UpdateOwed(cfg: Config, w: World, i: nat, p: Place, due: multiset<Handle>)
    requires p.Updating? && p.errand.ForHandler? && Owed(w.stopped, w.entries, Some(p), due)
    ensures var (p', w') := WriteStep(cfg, w, i, p.update, p.phase, p.errand);
            InHandler(p') && Owed(w'.stopped, w'.entries, Some(p'), due)
  {
    var (p', w') := WriteStep(cfg, w, i, p.update, p.phase, p.errand);
    SameOwed(w, w', Some(p), Some(p'), due);
  }

  lemma HandlingOwed(cfg: Config, w: World, i: nat, p: Place, id: EndpointId, due: multiset<Handle>)
    requires Enabled(cfg, w, Thread([], p), id) && p.Handling? && Owed(w.stopped, w.entries, Some(p), due)
    ensures var (p', w') := Act(cfg, w, i, p, id);
            Owed(w'.stopped, w'.entries, if InHandler(p') then Some(p') else None, due + Gain(w, p))
  {
    OwedNothing(w.stopped, w.entries, Some(p), due);
    if |p.jobs| == 0 {
      assert due + multiset{} == due;
      OwedNothing(w.stopped, w.entries, None, due);
    } else {
      TakeJobOwed(w, p.jobs, p.tracked);
    }
  }

  lemma StoppingOwed(cfg: Config, w: World, i: nat, p: Place, id: EndpointId, due: multiset<Handle>)
    requires Enabled(cfg, w, Thread([], p), id) && p.Stopping? && Owed(w.stopped, w.entries, Some(p), due)
    ensures var (p', w') := Act(cfg, w, i, p, id); InHandler(p') && Owed(w'.stopped, w'.entries, Some(p'), due)
  {
    if |p.left| == 0 {
      assert p.left == [];
      SameOwed(w, w, Some(p), Some(Act(cfg, w, i, p, id).0), due);
    } else {
      StopOwed(w.stopped, w.entries, p, due);
    }
  }

  /** The step of the thread in the handler makes the shutdown calls its events account for. */
  lemma ActOwed(cfg: Config, w: World, i: nat, p: Place, id: EndpointId, due: multiset<Handle>)
    requires Enabled(cfg, w, Thread([], p), id) && InHandler(p) && Owed(w.stopped, w.entries, Some(p), due)
    ensures var (p', w') := Act(cfg, w, i, p, id);
            Owed(w'.stopped, w'.entries, if InHandler(p') then Some(p') else None, due + Gain(w, p))
  {
    if p.Handling? {
      HandlingOwed(cfg, w, i, p, id, due);
    } else if p.Forgetting? {
      ForgetOwed(w, p, Act(cfg, w, i, p, id).0, due);
    } else {
      assert due + multiset{} == due;
      if p.Stopping? {
        StoppingOwed(cfg, w, i, p, id, due);
      } else {
        UpdateOwed(cfg, w, i, p, due);
      }
    }
  }

  // ---------------------------------------------------------------- every schedule

  /** Everything the handler owns is what the log calls for, one removal under way apart. */
  ghost predicate Told(st: State, log: Log) {
    match st
    case State(_, w) =>
      Recorded(w.entries, w.next, log) && Owed(w.stopped, w.entries, PlaceOf(st, w.locks.handler), Stops(log))
  }

  lemma OwnerTold(cfg: Config, st: State, c: Choice, log: Log)
    requires Locked(st) && CanStep(cfg, st, c) && Told(st, log) && InHandler(st.threads[c.thread].place)
    ensures Told(Next(cfg, st, c), log + EventsOf(st.world, st.threads[c.thread].place))
  {
    var i, p, w, st' := c.thread, st.threads[c.thread].place, st.world, Next(cfg, st, c);
    assert Owns(w.locks, i, p);
    ActRecorded(cfg, w, i, p, c.id, log);
    RecordedStops(w.entries, w.next, log);
    StopsGain(w, p, log);
    ActOwed(cfg, w, i, p, c.id, Stops(log));
    ActKeepsMutex(cfg, w, i, p, c.id);
    var p' := st'.threads[i].place;
    assert PlaceOf(st', st'.world.locks.handler) == if InHandler(p') then Some(p') else None;
  }

  lemma BeginsNothing(w: World, i: nat, call: Call)
    ensures var (p', w') := Begin(w, i, call);
            && w'.entries == w.entries && w'.next == w.next && w'.stopped == w.stopped
            && (if call.Notify? then p'.Handling? && w'.locks.handler == Some(i)
                else w'.locks.handler == w.locks.handler)
  {
  }

  /** A thread outside the handler changes nothing of this. */
  lemma OtherOwner(cfg: Config, st: State, c: Choice)
    requires Locked(st) && CanStep(cfg, st, c) && Through(st.threads[c.thread])
    requires !InHandler(st.threads[c.thread].place)
    ensures var w, w' := st.world, Next(cfg, st, c).world;
            var owner, owner' := PlaceOf(st, w.locks.handler), PlaceOf(Next(cfg, st, c), w'.locks.handler);
            && w'.entries == w.entries && w'.next == w.next && w'.stopped == w.stopped
            && (owner' == owner || (owner.None? && owner'.Some? && owner'.value.Handling?))
  {
    var i, th := c.thread, st.threads[c.thread];
    assert Owns(st.world.locks, i, th.place);
    if th.place.Idle? {
      BeginsNothing(st.world, i, th.calls[0]);
    } else {
      ActElsewhere(cfg, st.world, i, th.place, c.id);
    }
  }

  lemma OtherTold(cfg: Config, st: State, c: Choice, log: Log)
    requires Locked(st) && CanStep(cfg, st, c) && Told(st, log) && Through(st.threads[c.thread])
    requires !InHandler(st.threads[c.thread].place)
    ensures Told(Next(cfg, st, c), log)
  {
    var st' := Next(cfg, st, c);
    OtherOwner(cfg, st, c);
    SameOwed(st.world, st'.world, PlaceOf(st, st.world.locks.handler), PlaceOf(st', st'.world.locks.handler),
        Stops(log));
  }

  lemma NextTold(cfg: Config, st: State, c: Choice, log: Log)
    requires Locked(st) && CanStep(cfg, st, c) && Told(st, log) && AllThrough(st)
    ensures Told(Next(cfg, st, c), log + EventsOf(st.world, st.threads[c.thread].place))
  {
    assert Through(st.threads[c.thread]);
    if InHandler(st.threads[c.thread].place) {
      OwnerTold(cfg, st, c, log);
    } else {
      OtherTold(cfg, st, c, log);
      ConcatNothing(log);
    }
  }

  lemma {:induction false} AlwaysTold(cfg: Config, calls: seq<seq<Call>>, schedule: seq<Choice>)
    requires NoEdits(calls)
    ensures var st := After(cfg, calls, schedule);
            st.Some? ==> Told(st.value, LogOf(cfg, calls, schedule))
  {
    if |schedule| == 0 {
      assert Handles([]) == {};
    } else {
      var before, last := After(cfg, calls, schedule[..|schedule| - 1]), schedule[|schedule| - 1];
      AlwaysTold(cfg, calls, schedule[..|schedule| - 1]);
      AlwaysAgreed(cfg, calls, schedule[..|schedule| - 1]);
      AlwaysLocked(cfg, calls, schedule[..|schedule| - 1]);
      if before.Some? && CanStep(cfg, before.value, last) {
        NextTold(cfg, before.value, last, LogOf(cfg, calls, schedule[..|schedule| - 1]));
      }
    }
  }

  /**
   Under every schedule, with the handler's mutex free, the handler holds for every endpoint what
   the schedule's log says, and has made exactly the shutdown calls of that log.
   */
  lemma OwnedAsLogged(cfg: Config, calls: seq<seq<Call>>, schedule: seq<Choice>)
    requires NoEdits(calls) && After(cfg, calls, schedule).Some?
    requires After(cfg, calls, schedule).value.world.locks.handler.None?
    ensures var w, log := After(cfg, calls, schedule).value.world, LogOf(cfg, calls, schedule);
            && Mirrors(w.entries, HandleOf(), log) && History.Fresh(log)
            && w.stopped == Stops(log) && forall h :: h in Handles(log) ==> h < w.next
  {
    var w, log := After(cfg, calls, schedule).value.world, LogOf(cfg, calls, schedule);
    AlwaysTold(cfg, calls, schedule);
    OwedNothing(w.stopped, w.entries, None, Stops(log));
  }

  /**
   Under every schedule, before and after any shutdown: with the mutex free, a started exporter has
   been stopped if and only if its endpoint was removed or the handler shut down since, and stopped
   again if and only if it was still held at a shutdown and its endpoint removed, or the handler
   shut down, after that.
   */
  lemma StoppedAsLogged(cfg: Config, calls: seq<seq<Call>>, schedule: seq<Choice>, i: nat)
    requires NoEdits(calls) && After(cfg, calls, schedule).Some?
    requires After(cfg, calls, schedule).value.world.locks.handler.None?
    requires i < |LogOf(cfg, calls, schedule)| && LogOf(cfg, calls, schedule)[i].Started?
    ensures var w, log := After(cfg, calls, schedule).value.world, LogOf(cfg, calls, schedule);
            && (w.stopped[log[i].handle] > 0 <==> exists j: nat :: StopsAfter(log, i, j))
            && (w.stopped[log[i].handle] > 1 <==> exists j: nat, k: nat :: StoppedAgain(log, i, j, k))
  {
    var log := LogOf(cfg, calls, schedule);
    OwnedAsLogged(cfg, calls, schedule);
    StopsCounted(log, i);
    StopCountPositive(log, i);
    StopCountTwice(log, i);
  }
}
