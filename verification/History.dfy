/**
 The history of an observer handler: one log of what was started, removed and closed.

 Everything the handler keeps is a function of its log: the exporters held for an endpoint, the
 shutdown calls made. What every run guarantees is proved here, for all logs.
 */
module History {
  import opened Base
  import opened Values
  import opened Endpoints
  import opened Router
  import opened Telemetry

  type TemplateName = nat

  datatype Event =
    | Started(endpoint: Endpoint, template: TemplateName, handle: Handle, config: map<Bytes, Value>,
        capabilities: Signals)
    | StartFailed(endpoint: Endpoint, template: TemplateName)
    | Removed(id: EndpointId)
    | Closed

  type Log = seq<Event>

  function Handles(events: seq<Event>): set<Handle> {
    set i | 0 <= i < |events| && events[i].Started? :: events[i].handle
  }

  /** The exporters held for an endpoint: those started for it since it was last removed, in order. */
  function Held(log: Log, id: EndpointId): seq<Event> {
    if |log| == 0 then []
    else
      var before := Held(log[..|log| - 1], id);
      match log[|log| - 1]
      case Started(endpoint, _, _, _, _) => if endpoint.id == id then before + [log[|log| - 1]] else before
      case Removed(removed) => if removed == id then [] else before
      case _ => before
  }

  function Live(log: Log): set<Handle> {
    if |log| == 0 then {}
    else
      var before := log[..|log| - 1];
      match log[|log| - 1]
      case Started(_, _, handle, _, _) => Live(before) + {handle}
      case Removed(id) => Live(before) - Handles(Held(before, id))
      case _ => Live(before)
  }

  /** The shutdown calls an event makes: on removal, for what the endpoint holds; on close, for all that is live. */
  function StopsOf(log: Log, e: Event): multiset<Handle> {
    match e
    case Removed(id) => multiset(Handles(Held(log, id)))
    case Closed => multiset(Live(log))
    case _ => multiset{}
  }

  function Stops(log: Log): multiset<Handle> {
    if |log| == 0 then multiset{}
    else Stops(log[..|log| - 1]) + StopsOf(log[..|log| - 1], log[|log| - 1])
  }

  /** Starting an exporter gives a new handle. */
  predicate Fresh(log: Log) {
    || |log| == 0
    || (&& Fresh(log[..|log| - 1])
        && (log[|log| - 1].Started? ==> log[|log| - 1].handle !in Handles(log[..|log| - 1])))
  }

  lemma HandlesSnoc(log: Log, e: Event)
    ensures Handles(log + [e]) == Handles(log) + if e.Started? then {e.handle} else {}
  {
    var more := log + [e];
    assert forall i :: 0 <= i < |log| ==> more[i] == log[i];
    assert more[|log|] == e;
    forall h | h in Handles(log) ensures h in Handles(more) {
      var i :| 0 <= i < |log| && log[i].Started? && log[i].handle == h;
      assert more[i].Started? && more[i].handle == h;
    }
  }

  lemma HandlesLast(log: Log)
    requires |log| > 0
    ensures var before, e := log[..|log| - 1], log[|log| - 1];
            Handles(log) == Handles(before) + if e.Started? then {e.handle} else {}
  {
    HandlesSnoc(log[..|log| - 1], log[|log| - 1]);
    assert log == log[..|log| - 1] + [log[|log| - 1]];
  }

  lemma FreshSnoc(log: Log, e: Event, next: Handle)
    requires Fresh(log) && forall h :: h in Handles(log) ==> h < next
    requires e.Started? ==> e.handle == next
    ensures Fresh(log + [e])
    ensures forall h :: h in Handles(log + [e]) ==> h < if e.Started? then next + 1 else next
  {
    assert (log + [e])[..|log|] == log;
    HandlesSnoc(log, e);
  }

  lemma StopsSnoc(log: Log, e: Event)
    ensures Stops(log + [e]) == Stops(log) + StopsOf(log, e)
  {
    assert (log + [e])[..|log|] == log;
  }

  // ---------------------------------------------------------------- what is held

  /** Event i started an exporter for id, and no later event removed id. */
  predicate HeldAt(log: Log, id: EndpointId, i: nat) {
    && i < |log| && log[i].Started? && log[i].endpoint.id == id
    && forall j :: i < j < |log| ==> log[j] != Removed(id)
  }

  /** Whether an earlier event is still held after one more event. */
  lemma HeldAtLast(log: Log, id: EndpointId, i: nat)
    requires |log| > 0 && i < |log| - 1
    ensures HeldAt(log, id, i) <==> HeldAt(log[..|log| - 1], id, i) && log[|log| - 1] != Removed(id)
  {
    var n := |log| - 1;
    assert forall j :: 0 <= j < n ==> log[..n][j] == log[j];
  }

  /** The positions in the log of what an endpoint holds. */
  ghost predicate HeldFrom(log: Log, id: EndpointId, at: seq<nat>) {
    && |at| == |Held(log, id)|
    && (forall k :: 0 <= k < |at| ==> HeldAt(log, id, at[k]) && Held(log, id)[k] == log[at[k]])
    && (forall i: nat :: HeldAt(log, id, i) ==> i in at)
    && (forall k, l :: 0 <= k < l < |at| ==> at[k] < at[l])
  }

  lemma HeldFromStart(log: Log, id: EndpointId, at: seq<nat>)
    requires |log| > 0 && HeldFrom(log[..|log| - 1], id, at)
    requires log[|log| - 1].Started? && log[|log| - 1].endpoint.id == id
    ensures HeldFrom(log, id, at + [|log| - 1])
  {
    var n := |log| - 1;
    forall i: nat | i < n ensures HeldAt(log, id, i) <==> HeldAt(log[..n], id, i) {
      HeldAtLast(log, id, i);
    }
  }

  lemma HeldFromRemoval(log: Log, id: EndpointId)
    requires |log| > 0 && log[|log| - 1] == Removed(id)
    ensures HeldFrom(log, id, [])
  {
    forall i: nat | i < |log| ensures !HeldAt(log, id, i) {
      if i < |log| - 1 {
        HeldAtLast(log, id, i);
      }
    }
  }

  lemma HeldFromOther(log: Log, id: EndpointId, at: seq<nat>)
    requires |log| > 0 && HeldFrom(log[..|log| - 1], id, at)
    requires log[|log| - 1] != Removed(id) && !(log[|log| - 1].Started? && log[|log| - 1].endpoint.id == id)
    ensures HeldFrom(log, id, at)
  {
    var n := |log| - 1;
    forall i: nat | i < n ensures HeldAt(log, id, i) <==> HeldAt(log[..n], id, i) {
      HeldAtLast(log, id, i);
    }
  }

  /** Held lists exactly the starts since the last removal of the endpoint, each once, in start order. */
  lemma {:induction false} HeldExactly(log: Log, id: EndpointId) returns (at: seq<nat>)
    ensures |at| == |Held(log, id)|
    ensures forall k :: 0 <= k < |at| ==> HeldAt(log, id, at[k]) && Held(log, id)[k] == log[at[k]]
    ensures forall i: nat :: HeldAt(log, id, i) ==> i in at
    ensures forall k, l :: 0 <= k < l < |at| ==> at[k] < at[l]
  {
    if |log| == 0 {
      at := [];
    } else {
      var n := |log| - 1;
      at := HeldExactly(log[..n], id);
      if log[n] == Removed(id) {
        HeldFromRemoval(log, id);
        at := [];
      } else if log[n].Started? && log[n].endpoint.id == id {
        HeldFromStart(log, id, at);
        at := at + [n];
      } else {
        HeldFromOther(log, id, at);
      }
    }
  }

  lemma {:induction false} HeldAreStarts(log: Log, id: EndpointId)
    ensures forall k :: 0 <= k < |Held(log, id)| ==> Held(log, id)[k].Started? && Held(log, id)[k].endpoint.id == id
    ensures Handles(Held(log, id)) <= Handles(log)
  {
    if |log| == 0 {
    } else {
      var before := log[..|log| - 1];
      HeldAreStarts(before, id);
      HandlesLast(log);
      HandlesSnoc(Held(before, id), log[|log| - 1]);
    }
  }

  /** What happens to a handle's membership in one step. */
  lemma HoldingStep(log: Log, id: EndpointId, h: Handle)
    requires |log| > 0
    ensures var before, e := log[..|log| - 1], log[|log| - 1];
            h in Handles(Held(log, id)) <==>
              || (e.Started? && e.endpoint.id == id && e.handle == h)
              || (h in Handles(Held(before, id)) && e != Removed(id))
  {
    HandlesSnoc(Held(log[..|log| - 1], id), log[|log| - 1]);
  }

  /** A handle is held by at most one endpoint, and only while it is live. */
  lemma {:induction false} HeldOnce(log: Log, id: EndpointId, id': EndpointId, h: Handle)
    requires Fresh(log) && h in Handles(Held(log, id))
    ensures h in Live(log) && h in Handles(log)
    ensures h in Handles(Held(log, id')) ==> id == id'
  {
    if |log| == 0 {
    } else {
      var before, e := log[..|log| - 1], log[|log| - 1];
      HandlesLast(log);
      HoldingStep(log, id, h);
      HoldingStep(log, id', h);
      HeldAreStarts(before, id);
      HeldAreStarts(before, id');
      if h in Handles(Held(before, id)) {
        HeldOnce(before, id, id', h);
        if e.Removed? {
          HeldOnce(before, id, e.id, h);
        }
      }
    }
  }

  /** What is live is held by some endpoint. */
  lemma {:induction false} LiveIsHeld(log: Log, h: Handle) returns (id: EndpointId)
    requires Fresh(log) && h in Live(log)
    ensures h in Handles(Held(log, id))
  {
    var before, e := log[..|log| - 1], log[|log| - 1];
    if e.Started? && e.handle == h {
      id := e.endpoint.id;
    } else {
      id := LiveIsHeld(before, h);
    }
    HoldingStep(log, id, h);
  }

  // ---------------------------------------------------------------- conservation

  predicate NotClosed(log: Log) {
    forall i :: 0 <= i < |log| ==> !log[i].Closed?
  }

  /**
   Until the handler is shut down, the exporters started are those live and those stopped, with
   none in both and none stopped twice.
   */
  lemma {:induction false} Conservation(log: Log, h: Handle)
    requires Fresh(log) && NotClosed(log)
    ensures Stops(log)[h] == if h in Handles(log) && h !in Live(log) then 1 else 0
    ensures h in Live(log) ==> h in Handles(log)
  {
    if |log| == 0 {
    } else {
      var before, e := log[..|log| - 1], log[|log| - 1];
      assert forall i :: 0 <= i < |before| ==> before[i] == log[i];
      Conservation(before, h);
      HandlesLast(log);
      if e.Removed? && h in Handles(Held(before, e.id)) {
        HeldOnce(before, e.id, e.id, h);
      }
    }
  }

  /** A shutdown that nothing follows has stopped every exporter ever started, exactly once. */
  lemma FinalShutdown(log: Log, h: Handle)
    requires Fresh(log) && NotClosed(log)
    ensures Stops(log + [Closed])[h] == if h in Handles(log) then 1 else 0
  {
    assert (log + [Closed])[..|log|] == log;
    Conservation(log, h);
  }

  // ---------------------------------------------------------------- stops, event by event

  lemma FreshDistinct(log: Log, i: nat, j: nat)
    requires Fresh(log) && i < j < |log| && log[i].Started? && log[j].Started?
    ensures log[i].handle != log[j].handle
    decreases |log|
  {
    var before := log[..|log| - 1];
    if j < |before| {
      FreshDistinct(before, i, j);
    } else {
      assert before[i].Started? && before[i].handle in Handles(before);
    }
  }

  /** Event e stops what event i of the log started: it closes, or removes the endpoint, and i is still held. */
  predicate StopsStart(log: Log, i: nat, e: Event)
    requires i < |log| && log[i].Started?
  {
    HeldAt(log, log[i].endpoint.id, i) && (e.Closed? || e == Removed(log[i].endpoint.id))
  }

  /** How many events since stopped what event i started. */
  function StopCount(log: Log, i: nat): nat
    requires i < |log| && log[i].Started?
  {
    var n := |log| - 1;
    if i == n then 0 else StopCount(log[..n], i) + if StopsStart(log[..n], i, log[n]) then 1 else 0
  }

  /** Among fresh handles, a held handle is that of a start that is still held. */
  lemma HeldHandle(log: Log, i: nat, id: EndpointId)
    requires Fresh(log) && i < |log| && log[i].Started?
    ensures log[i].handle in Handles(Held(log, id)) <==> HeldAt(log, id, i)
  {
    var at := HeldExactly(log, id);
    if HeldAt(log, id, i) {
      var k :| 0 <= k < |at| && at[k] == i;
      assert Held(log, id)[k].Started? && Held(log, id)[k].handle == log[i].handle;
    }
    if log[i].handle in Handles(Held(log, id)) {
      var k :| 0 <= k < |Held(log, id)| && Held(log, id)[k].Started? && Held(log, id)[k].handle == log[i].handle;
      var m := at[k];
      assert HeldAt(log, id, m) && log[m].handle == log[i].handle;
      if m < i {
        FreshDistinct(log, m, i);
      } else if i < m {
        FreshDistinct(log, i, m);
      }
    }
  }

  lemma LiveHandle(log: Log, i: nat)
    requires Fresh(log) && i < |log| && log[i].Started?
    ensures log[i].handle in Live(log) <==> HeldAt(log, log[i].endpoint.id, i)
  {
    var id, h := log[i].endpoint.id, log[i].handle;
    HeldHandle(log, i, id);
    if HeldAt(log, id, i) {
      HeldOnce(log, id, id, h);
    }
    if h in Live(log) {
      var owner := LiveIsHeld(log, h);
      HeldHandle(log, i, owner);
    }
  }

  lemma StopsOfStart(log: Log, i: nat, e: Event)
    requires Fresh(log) && i < |log| && log[i].Started?
    ensures StopsOf(log, e)[log[i].handle] == if StopsStart(log, i, e) then 1 else 0
  {
    match e
    case Removed(id) => HeldHandle(log, i, id);
    case Closed => LiveHandle(log, i);
    case _ =>
  }

  lemma {:induction false} NeverStartedNeverStopped(log: Log, h: Handle)
    requires Fresh(log) && h !in Handles(log)
    ensures Stops(log)[h] == 0
  {
    if |log| == 0 {
    } else {
      var before, e := log[..|log| - 1], log[|log| - 1];
      HandlesLast(log);
      NeverStartedNeverStopped(before, h);
      if e.Removed? {
        HeldAreStarts(before, e.id);
      } else if e.Closed? && h in Live(before) {
        var id := LiveIsHeld(before, h);
        HeldAreStarts(before, id);
      }
    }
  }

  /** Over every run, the shutdown calls an exporter got are the events that stopped what started it. */
  lemma {:induction false} StopsCounted(log: Log, i: nat)
    requires Fresh(log) && i < |log| && log[i].Started?
    ensures Stops(log)[log[i].handle] == StopCount(log, i)
  {
    var n := |log| - 1;
    if i == n {
      NeverStartedNeverStopped(log[..n], log[i].handle);
    } else {
      StopsCounted(log[..n], i);
      StopsOfStart(log[..n], i, log[n]);
    }
  }

  /** After event i, event j removes the endpoint or closes the handler. */
  predicate StopsAfter(log: Log, i: nat, j: nat) {
    i < j < |log| && log[i].Started? && (log[j].Closed? || log[j] == Removed(log[i].endpoint.id))
  }

  /**
   Over every run, whatever follows a shutdown: an exporter has been stopped in the end if and only
   if a removal of its endpoint, or a shutdown, came after its start.
   */
  lemma StoppedExactly(log: Log, i: nat)
    requires Fresh(log) && i < |log| && log[i].Started?
    ensures Stops(log)[log[i].handle] > 0 <==> exists j: nat :: StopsAfter(log, i, j)
  {
    StopsCounted(log, i);
    StopCountPositive(log, i);
  }

  lemma {:induction false} StopCountPositive(log: Log, i: nat)
    requires i < |log| && log[i].Started?
    ensures StopCount(log, i) > 0 <==> exists j: nat :: StopsAfter(log, i, j)
    decreases |log|
  {
    var n := |log| - 1;
    if i == n {
    } else {
      var before := log[..n];
      StopCountPositive(before, i);
      if j: nat :| StopsAfter(before, i, j) {
        assert StopsAfter(log, i, j);
      }
      if StopsStart(before, i, log[n]) {
        assert StopsAfter(log, i, n);
      }
      if j: nat :| StopsAfter(log, i, j) && !exists m: nat :: StopsAfter(before, i, m) {
        assert j < n ==> StopsAfter(before, i, j);
        NothingRemoved(before, i);
      }
    }
  }

  lemma NothingRemoved(log: Log, i: nat)
    requires i < |log| && log[i].Started? && !exists m: nat :: StopsAfter(log, i, m)
    ensures HeldAt(log, log[i].endpoint.id, i)
  {
    forall j | i < j < |log| ensures log[j] != Removed(log[i].endpoint.id) {
      assert !StopsAfter(log, i, j);
    }
  }

  /**
   The handler is closed at j while what event i started is held, and at k it is closed again, or
   the endpoint is removed, with no removal of the endpoint in between.
   */
  predicate StoppedAgain(log: Log, i: nat, j: nat, k: nat) {
    && j < k && StopsAfter(log, i, k) && i < j && log[j].Closed?
    && forall m :: i < m < k ==> log[m] != Removed(log[i].endpoint.id)
  }

  ghost predicate StopsAtMostOnce(log: Log) {
    forall h :: Stops(log)[h] <= 1
  }

  lemma {:induction false} StopCountTwice(log: Log, i: nat)
    requires i < |log| && log[i].Started?
    ensures StopCount(log, i) >= 2 <==> exists j: nat, k: nat :: StoppedAgain(log, i, j, k)
    decreases |log|
  {
    var n, id := |log| - 1, log[i].endpoint.id;
    if i == n {
    } else {
      var before := log[..n];
      StopCountTwice(before, i);
      StopCountPositive(before, i);
      if j: nat, k: nat :| StoppedAgain(before, i, j, k) {
        assert StoppedAgain(log, i, j, k);
      }
      if StopsStart(before, i, log[n]) && StopCount(before, i) > 0 {
        var j: nat :| StopsAfter(before, i, j);
        assert StopsAfter(log, i, n) && StoppedAgain(log, i, j, n);
      }
      if j: nat, k: nat :| StoppedAgain(log, i, j, k) {
        if k < n {
          assert StopsAfter(before, i, k) && StoppedAgain(before, i, j, k);
        } else {
          assert StopsAfter(before, i, j) && HeldAt(before, id, i);
        }
      }
    }
  }

  /**
   Over any run, shutdowns in the middle included, no exporter is stopped twice if and only if no
   endpoint that held an exporter at a shutdown is removed or changed later, or still holds it at a
   further shutdown.
   */
  lemma StoppedOnceExactly(log: Log)
    requires Fresh(log)
    ensures StopsAtMostOnce(log) <==> !exists i: nat, j: nat, k: nat :: StoppedAgain(log, i, j, k)
  {
    if i: nat, j: nat, k: nat :| StoppedAgain(log, i, j, k) {
      StopsCounted(log, i);
      StopCountTwice(log, i);
      assert Stops(log)[log[i].handle] > 1;
    } else {
      forall h ensures Stops(log)[h] <= 1 {
        StoppedAtMostOnce(log, h);
      }
    }
  }

  lemma StoppedAtMostOnce(log: Log, h: Handle)
    requires Fresh(log) && !exists i: nat, j: nat, k: nat :: StoppedAgain(log, i, j, k)
    ensures Stops(log)[h] <= 1
  {
    if h in Handles(log) {
      var i :| 0 <= i < |log| && log[i].Started? && log[i].handle == h;
      StopsCounted(log, i);
      StopCountTwice(log, i);
    } else {
      NeverStartedNeverStopped(log, h);
    }
  }

  /** An exporter started after the last shutdown, as by a notification that waited for it, is never stopped. */
  lemma LateStartIsNotStopped(endpoint: Endpoint, template: TemplateName, config: map<Bytes, Value>, has: Signals)
    ensures var log := [Closed, Started(endpoint, template, 0, config, has)]; Fresh(log) && Stops(log)[0] == 0
  {
    var log := [Closed, Started(endpoint, template, 0, config, has)];
    assert log[..1] == [Closed] && Handles([Closed]) == {};
    StopsCounted(log, 1);
  }

  /** A removal after a shutdown does stop an exporter twice. */
  lemma RemovalAfterShutdownStopsTwice(endpoint: Endpoint, template: TemplateName, config: map<Bytes, Value>,
                                       has: Signals)
    ensures var log := [Started(endpoint, template, 0, config, has), Closed, Removed(endpoint.id)];
            Fresh(log) && Stops(log)[0] == 2
  {
    var started := Started(endpoint, template, 0, config, has);
    var one, two := [started], [started, Closed];
    assert one[..0] == [] && two[..1] == one && [started, Closed, Removed(endpoint.id)][..2] == two;
    assert Held(one, endpoint.id) == one && Held(two, endpoint.id) == one && Live(one) == {0};
    HandlesSnoc([], started);
    HandlesSnoc(one, Closed);
    assert Fresh(one) && Fresh(two);
    assert [] + one == one && one + [Closed] == two;
    assert Stops(one) == multiset{} && Stops(two) == multiset{0};
  }
}
