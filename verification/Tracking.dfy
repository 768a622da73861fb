/**
 Counting the endpoints reported across observer subscriptions, per series of a gauge.

 The tracker's whole state follows from who reports what and which series were ever counted;
 the totals and the gauge, kept up one step at a time, are proved to be what follows.
 */
module Tracking {
  import opened Base
  import opened Endpoints

  /** The id of a watched observer; several may share a type. */
  datatype ObserverId = ObserverId(observerType: TypeName, name: nat)

  datatype Series = Series(observerType: TypeName, endpointType: TypeName)

  type Live = map<ObserverId, map<EndpointId, TypeName>>

  function Reported(live: Live, o: ObserverId): map<EndpointId, TypeName> {
    if o in live then live[o] else map[]
  }

  /** The (subscription, endpoint) pairs that a series counts. */
  function Pairs(live: Live, s: Series): set<(ObserverId, EndpointId)> {
    set o, id | o in live && id in live[o] && o.observerType == s.observerType && live[o][id] == s.endpointType ::
        (o, id)
  }

  datatype State = State(live: Live, seen: set<Series>)

  /** The total of every series seen: how many pairs it counts. */
  function Totals(st: State): map<Series, int> {
    map s | s in st.seen :: |Pairs(st.live, s)|
  }

  /** Every endpoint reported is counted under a series that was seen. */
  ghost predicate Covered(st: State) {
    forall o, id :: o in st.live && id in st.live[o] ==> Series(o.observerType, st.live[o][id]) in st.seen
  }

  // ---------------------------------------------------------------- operations

  datatype Operation = Track(o: ObserverId, endpoints: seq<Endpoint>) | Untrack(o: ObserverId, endpoints: seq<Endpoint>)

  function With(m: map<EndpointId, TypeName>, id: EndpointId, kind: TypeName): map<EndpointId, TypeName> {
    m[id := kind]
  }

  /** What a subscription reports once it has reported endpoints as well. */
  function WithAll(m: map<EndpointId, TypeName>, endpoints: seq<Endpoint>): map<EndpointId, TypeName> {
    if |endpoints| == 0 then m
    else
      var e := endpoints[|endpoints| - 1];
      With(WithAll(m, endpoints[..|endpoints| - 1]), e.id, e.kind)
  }

  function Ids(endpoints: seq<Endpoint>): set<EndpointId> {
    if |endpoints| == 0 then {} else Ids(endpoints[..|endpoints| - 1]) + {endpoints[|endpoints| - 1].id}
  }

  function SeriesOf(o: ObserverId, endpoints: seq<Endpoint>): set<Series> {
    if |endpoints| == 0 then {}
    else SeriesOf(o, endpoints[..|endpoints| - 1]) + {Series(o.observerType, endpoints[|endpoints| - 1].kind)}
  }

  function Entry(live: Live, o: ObserverId): Option<map<EndpointId, TypeName>> {
    if o in live then Some(live[o]) else None
  }

  function SetEntry(live: Live, o: ObserverId, entry: Option<map<EndpointId, TypeName>>): Live {
    if entry.Some? then live[o := entry.value] else live
  }

  /** What an operation makes of its own subscription's entry; tracking creates it. */
  function NewEntry(entry: Option<map<EndpointId, TypeName>>, op: Operation): Option<map<EndpointId, TypeName>> {
    match op
    case Track(_, endpoints) => Some(WithAll(if entry.Some? then entry.value else map[], endpoints))
    case Untrack(_, endpoints) => if entry.Some? then Some(entry.value - Ids(endpoints)) else None
  }

  function NewSeries(op: Operation): set<Series> {
    if op.Track? then SeriesOf(op.o, op.endpoints) else {}
  }

  function Apply(st: State, op: Operation): State {
    State(SetEntry(st.live, op.o, NewEntry(Entry(st.live, op.o), op)), st.seen + NewSeries(op))
  }

  function Run(st: State, ops: seq<Operation>): State {
    if |ops| == 0 then st else Apply(Run(st, ops[..|ops| - 1]), ops[|ops| - 1])
  }

  lemma {:induction false} WithAllIsOverlay(m: map<EndpointId, TypeName>, endpoints: seq<Endpoint>)
    ensures WithAll(m, endpoints) == m + WithAll(map[], endpoints)
  {
    if |endpoints| == 0 {
    } else {
      WithAllIsOverlay(m, endpoints[..|endpoints| - 1]);
    }
  }

  /** Resync: reporting the same endpoints again changes nothing, totals included. */
  lemma TrackTwice(st: State, o: ObserverId, endpoints: seq<Endpoint>)
    ensures Apply(Apply(st, Track(o, endpoints)), Track(o, endpoints)) == Apply(st, Track(o, endpoints))
  {
    var m := Reported(st.live, o);
    WithAllIsOverlay(m, endpoints);
    WithAllIsOverlay(WithAll(m, endpoints), endpoints);
    assert WithAll(WithAll(m, endpoints), endpoints) == WithAll(m, endpoints);
    SetTwice(st.live, o, Some(WithAll(m, endpoints)));
  }

  lemma SetTwice(live: Live, o: ObserverId, x: Option<map<EndpointId, TypeName>>)
    ensures SetEntry(SetEntry(live, o, x), o, x) == SetEntry(live, o, x)
  {
  }

  lemma SetDifferent(live: Live, o: ObserverId, x: Option<map<EndpointId, TypeName>>,
                     p: ObserverId, y: Option<map<EndpointId, TypeName>>)
    requires o != p
    ensures SetEntry(SetEntry(live, o, x), p, y) == SetEntry(SetEntry(live, p, y), o, x)
    ensures Entry(SetEntry(live, o, x), p) == Entry(live, p)
  {
  }

  /** Operations of different subscriptions commute. */
  lemma SubscriptionsCommute(st: State, a: Operation, b: Operation)
    requires a.o != b.o
    ensures Apply(Apply(st, a), b) == Apply(Apply(st, b), a)
  {
    var x, y := NewEntry(Entry(st.live, a.o), a), NewEntry(Entry(st.live, b.o), b);
    SetDifferent(st.live, a.o, x, b.o, y);
    SetDifferent(st.live, b.o, y, a.o, x);
    assert st.seen + NewSeries(a) + NewSeries(b) == st.seen + NewSeries(b) + NewSeries(a);
  }

  // ---------------------------------------------------------------- what is reported

  lemma {:induction false} WithAllOther(m: map<EndpointId, TypeName>, endpoints: seq<Endpoint>, id: EndpointId)
    requires forall i :: 0 <= i < |endpoints| ==> endpoints[i].id != id
    ensures id in WithAll(m, endpoints) <==> id in m
    ensures id in m ==> WithAll(m, endpoints)[id] == m[id]
  {
    if |endpoints| == 0 {
    } else {
      WithAllOther(m, endpoints[..|endpoints| - 1], id);
    }
  }

  /** Endpoint i is the last of the list with its id. */
  predicate LastOfId(endpoints: seq<Endpoint>, i: nat) {
    i < |endpoints| && forall j :: i < j < |endpoints| ==> endpoints[j].id != endpoints[i].id
  }

  lemma {:induction false} WithAllLast(m: map<EndpointId, TypeName>, endpoints: seq<Endpoint>, i: nat)
    requires LastOfId(endpoints, i)
    ensures var id := endpoints[i].id; id in WithAll(m, endpoints) && WithAll(m, endpoints)[id] == endpoints[i].kind
  {
    if i + 1 == |endpoints| {
    } else {
      assert LastOfId(endpoints[..|endpoints| - 1], i);
      WithAllLast(m, endpoints[..|endpoints| - 1], i);
    }
  }

  lemma {:induction false} IdsExactly(endpoints: seq<Endpoint>, id: EndpointId)
    ensures id in Ids(endpoints) <==> exists i :: 0 <= i < |endpoints| && endpoints[i].id == id
  {
    if |endpoints| == 0 {
    } else {
      var n := |endpoints| - 1;
      IdsExactly(endpoints[..n], id);
      assert forall i :: 0 <= i < n ==> endpoints[..n][i] == endpoints[i];
    }
  }

  /** A subscription reports what it last said of an endpoint. */
  lemma TrackedExactly(st: State, o: ObserverId, endpoints: seq<Endpoint>, i: nat)
    requires i < |endpoints| && forall j :: i < j < |endpoints| ==> endpoints[j].id != endpoints[i].id
    ensures var id, after := endpoints[i].id, Reported(Apply(st, Track(o, endpoints)).live, o);
            id in after && after[id] == endpoints[i].kind
  {
    WithAllLast(Reported(st.live, o), endpoints, i);
  }

  /** Tracking changes nothing that other subscriptions report, nor what this one does of other endpoints. */
  lemma TrackedOnly(st: State, o: ObserverId, endpoints: seq<Endpoint>, p: ObserverId, id: EndpointId)
    requires p != o || forall i :: 0 <= i < |endpoints| ==> endpoints[i].id != id
    ensures var before, after := Reported(st.live, p), Reported(Apply(st, Track(o, endpoints)).live, p);
            (id in after <==> id in before) && (id in before ==> after[id] == before[id])
  {
    if p == o {
      WithAllOther(Reported(st.live, o), endpoints, id);
    }
  }

  /** A dropped endpoint is no longer reported by the subscription that dropped it; nothing else changes. */
  lemma UntrackedExactly(st: State, o: ObserverId, endpoints: seq<Endpoint>, p: ObserverId, id: EndpointId)
    ensures var before, after := Reported(st.live, p), Reported(Apply(st, Untrack(o, endpoints)).live, p);
            && (id in after <==>
                  id in before && (p == o ==> forall i :: 0 <= i < |endpoints| ==> endpoints[i].id != id))
            && (id in after ==> after[id] == before[id])
  {
    IdsExactly(endpoints, id);
  }

  /** The series seen are those of the endpoints tracked, and none is forgotten. */
  lemma SeenExactly(st: State, op: Operation, s: Series)
    ensures s in Apply(st, op).seen <==>
              || s in st.seen
              || (op.Track?
                  && exists i :: 0 <= i < |op.endpoints| && s == Series(op.o.observerType, op.endpoints[i].kind))
  {
    SeriesExactly(op.o, op.endpoints, s);
  }

  lemma {:induction false} SeriesExactly(o: ObserverId, endpoints: seq<Endpoint>, s: Series)
    ensures s in SeriesOf(o, endpoints) <==>
              exists i :: 0 <= i < |endpoints| && s == Series(o.observerType, endpoints[i].kind)
  {
    if |endpoints| == 0 {
    } else {
      var n := |endpoints| - 1;
      SeriesExactly(o, endpoints[..n], s);
      assert forall i :: 0 <= i < n ==> endpoints[..n][i] == endpoints[i];
    }
  }

  // ---------------------------------------------------------------- one endpoint at a time

  lemma PairsTracked(live: Live, o: ObserverId, id: EndpointId, kind: TypeName, s: Series)
    ensures Pairs(live[o := With(Reported(live, o), id, kind)], s) ==
            Pairs(live, s) - {(o, id)} + if s == Series(o.observerType, kind) then {(o, id)} else {}
  {
  }

  lemma PairsUntracked(live: Live, o: ObserverId, id: EndpointId, s: Series)
    requires o in live
    ensures Pairs(live[o := live[o] - {id}], s) == Pairs(live, s) - {(o, id)}
  {
  }

  /** Whether a pair is counted by a series. */
  predicate CountedBy(live: Live, o: ObserverId, id: EndpointId, s: Series) {
    id in Reported(live, o) && s == Series(o.observerType, Reported(live, o)[id])
  }

  lemma InPairs(live: Live, o: ObserverId, id: EndpointId, s: Series)
    ensures (o, id) in Pairs(live, s) <==> CountedBy(live, o, id, s)
  {
  }

  /** The totals after one step: down by one where the pair was counted, up by one where it is. */
  function Moved(totals: map<Series, int>, was: Option<Series>, now: Option<Series>): map<Series, int> {
    var t := if was.Some? then totals[was.value := CountAt(totals, was.value) - 1] else totals;
    if now.Some? then t[now.value := CountAt(t, now.value) + 1] else t
  }

  function Counted(live: Live, o: ObserverId, id: EndpointId): Option<Series> {
    if id in Reported(live, o) then Some(Series(o.observerType, Reported(live, o)[id])) else None
  }

  function TrackedOne(st: State, o: ObserverId, id: EndpointId, kind: TypeName): State
    requires o in st.live
  {
    State(st.live[o := With(st.live[o], id, kind)], st.seen + {Series(o.observerType, kind)})
  }

  function UntrackedOne(st: State, o: ObserverId, id: EndpointId): State
    requires o in st.live
  {
    st.(live := st.live[o := st.live[o] - {id}])
  }

  lemma CountTracked(st: State, o: ObserverId, id: EndpointId, kind: TypeName, t: Series)
    requires o in st.live
    ensures |Pairs(TrackedOne(st, o, id, kind).live, t)| == |Pairs(st.live, t)|
              - (if Counted(st.live, o, id) == Some(t) then 1 else 0)
              + (if t == Series(o.observerType, kind) then 1 else 0)
  {
    PairsTracked(st.live, o, id, kind, t);
    InPairs(st.live, o, id, t);
  }

  lemma CountUntracked(st: State, o: ObserverId, id: EndpointId, t: Series)
    requires o in st.live
    ensures |Pairs(UntrackedOne(st, o, id).live, t)|
         == |Pairs(st.live, t)| - if Counted(st.live, o, id) == Some(t) then 1 else 0
  {
    PairsUntracked(st.live, o, id, t);
    InPairs(st.live, o, id, t);
  }

  lemma UnseenIsEmpty(st: State, s: Series)
    requires Covered(st)
    ensures s !in st.seen ==> |Pairs(st.live, s)| == 0
  {
    assert s !in st.seen ==> Pairs(st.live, s) == {};
  }

  lemma MovedAt(totals: map<Series, int>, was: Option<Series>, now: Option<Series>, t: Series)
    requires was.Some? ==> was.value in totals
    ensures CountAt(Moved(totals, was, now), t) ==
            CountAt(totals, t) - (if was == Some(t) then 1 else 0) + (if now == Some(t) then 1 else 0)
    ensures t in Moved(totals, was, now) <==> t in totals || now == Some(t)
  {
  }

  lemma SameCounts(a: map<Series, int>, b: map<Series, int>)
    requires forall t :: (t in a <==> t in b) && CountAt(a, t) == CountAt(b, t)
    ensures a == b
  {
    forall t | t in a ensures a[t] == b[t] {
      assert CountAt(a, t) == CountAt(b, t);
    }
  }

  lemma TotalsTracked(st: State, o: ObserverId, id: EndpointId, kind: TypeName)
    requires Covered(st) && o in st.live
    ensures Totals(TrackedOne(st, o, id, kind)) ==
            Moved(Totals(st), Counted(st.live, o, id), Some(Series(o.observerType, kind)))
  {
    var s := Series(o.observerType, kind);
    var was, totals := Counted(st.live, o, id), Totals(st);
    assert was.Some? ==> was.value in st.seen;
    UnseenIsEmpty(st, s);
    var after, moved := Totals(TrackedOne(st, o, id, kind)), Moved(totals, was, Some(s));
    forall t
      ensures t in after <==> t in moved
      ensures CountAt(after, t) == CountAt(moved, t)
    {
      CountTracked(st, o, id, kind, t);
      MovedAt(totals, was, Some(s), t);
    }
    SameCounts(after, moved);
  }

  lemma TotalsUntracked(st: State, o: ObserverId, id: EndpointId)
    requires Covered(st) && o in st.live
    ensures Totals(UntrackedOne(st, o, id)) == Moved(Totals(st), Counted(st.live, o, id), None)
  {
    var was, totals := Counted(st.live, o, id), Totals(st);
    assert was.Some? ==> was.value in st.seen;
    var after, moved := Totals(UntrackedOne(st, o, id)), Moved(totals, was, None);
    forall t
      ensures t in after <==> t in moved
      ensures CountAt(after, t) == CountAt(moved, t)
    {
      CountUntracked(st, o, id, t);
      MovedAt(totals, was, None, t);
    }
    SameCounts(after, moved);
  }

  lemma CoveredOne(st: State, o: ObserverId, id: EndpointId, kind: TypeName)
    requires Covered(st) && o in st.live
    ensures Covered(TrackedOne(st, o, id, kind)) && Covered(UntrackedOne(st, o, id))
  {
  }

  lemma UnchangedOne(st: State, o: ObserverId, id: EndpointId, kind: TypeName)
    requires Covered(st) && o in st.live
    ensures Counted(st.live, o, id) == Some(Series(o.observerType, kind)) ==> TrackedOne(st, o, id, kind) == st
    ensures Counted(st.live, o, id) == None ==> UntrackedOne(st, o, id) == st
  {
    var t, u := TrackedOne(st, o, id, kind), UntrackedOne(st, o, id);
    if Counted(st.live, o, id) == Some(Series(o.observerType, kind)) {
      assert t.live[o] == st.live[o] && t.live == st.live && t.seen == st.seen;
    }
    if Counted(st.live, o, id) == None {
      assert u.live[o] == st.live[o] && u.live == st.live;
    }
  }

  /** In every reachable state, whatever is reported was counted under a series that stays. */
  lemma {:induction false} RunCovered(ops: seq<Operation>)
    ensures Covered(Run(State(map[], {}), ops))
  {
    if |ops| == 0 {
    } else {
      var st := Run(State(map[], {}), ops[..|ops| - 1]);
      RunCovered(ops[..|ops| - 1]);
      ApplyCovered(st, ops[|ops| - 1]);
    }
  }

  /** A series that was seen stays, whatever follows. */
  lemma {:induction false} SeriesStay(st: State, ops: seq<Operation>, k: nat)
    requires k <= |ops|
    ensures Run(st, ops[..k]).seen <= Run(st, ops).seen
  {
    if k == |ops| {
      assert ops[..k] == ops;
    } else {
      SeriesStay(st, ops[..|ops| - 1], k);
      assert ops[..|ops| - 1][..k] == ops[..k];
    }
  }

  lemma {:induction false} WithAllSeries(m: map<EndpointId, TypeName>, o: ObserverId, endpoints: seq<Endpoint>,
                                         id: EndpointId)
    requires id in WithAll(m, endpoints)
    ensures Series(o.observerType, WithAll(m, endpoints)[id]) in SeriesOf(o, endpoints)
        || (id in m && WithAll(m, endpoints)[id] == m[id])
  {
    if |endpoints| > 0 && endpoints[|endpoints| - 1].id != id {
      WithAllSeries(m, o, endpoints[..|endpoints| - 1], id);
    }
  }

  lemma ApplyCovered(st: State, op: Operation)
    requires Covered(st)
    ensures Covered(Apply(st, op))
  {
    var st' := Apply(st, op);
    forall o, id | o in st'.live && id in st'.live[o] ensures Series(o.observerType, st'.live[o][id]) in st'.seen {
      if o == op.o && op.Track? {
        WithAllSeries(Reported(st.live, o), o, op.endpoints, id);
        assert o !in st.live ==> id !in Reported(st.live, o);
      }
    }
  }

  lemma TrackNothing(st: State, o: ObserverId)
    ensures Apply(st, Track(o, [])) == State(st.live[o := Reported(st.live, o)], st.seen)
    ensures o in st.live ==> Apply(st, Track(o, [])) == st
    ensures Covered(st) ==> Covered(Apply(st, Track(o, []))) && Totals(Apply(st, Track(o, []))) == Totals(st)
  {
    var first := Apply(st, Track(o, []));
    assert first.seen == st.seen;
    if o in st.live {
      assert first.live == st.live;
    } else {
      forall t ensures Pairs(first.live, t) == Pairs(st.live, t) {}
    }
  }

  lemma TrackNext(st: State, o: ObserverId, endpoints: seq<Endpoint>, i: nat)
    requires i < |endpoints|
    ensures var before, e := Apply(st, Track(o, endpoints[..i])), endpoints[i];
            o in before.live && Apply(st, Track(o, endpoints[..i + 1])) == TrackedOne(before, o, e.id, e.kind)
  {
    TakeNext(endpoints, i);
    var before, after := Apply(st, Track(o, endpoints[..i])), Apply(st, Track(o, endpoints[..i + 1]));
    assert after.live == before.live[o := With(before.live[o], endpoints[i].id, endpoints[i].kind)];
    assert after.seen == before.seen + {Series(o.observerType, endpoints[i].kind)};
  }

  lemma UntrackNext(st: State, o: ObserverId, endpoints: seq<Endpoint>, i: nat)
    requires i < |endpoints|
    ensures var before, e := Apply(st, Untrack(o, endpoints[..i])), endpoints[i];
            Apply(st, Untrack(o, endpoints[..i + 1]))
              == if o in before.live then UntrackedOne(before, o, e.id) else before
  {
    TakeNext(endpoints, i);
    var before, after := Apply(st, Untrack(o, endpoints[..i])), Apply(st, Untrack(o, endpoints[..i + 1]));
    if o in st.live {
      assert st.live[o] - Ids(endpoints[..i + 1]) == st.live[o] - Ids(endpoints[..i]) - {endpoints[i].id};
      assert after.live == before.live[o := before.live[o] - {endpoints[i].id}];
    }
  }

  lemma UntrackNothing(st: State, o: ObserverId)
    ensures Apply(st, Untrack(o, [])) == st
  {
    var after := Apply(st, Untrack(o, []));
    assert o in st.live ==> after.live[o] == st.live[o];
    assert after.live == st.live && after.seen == st.seen;
  }

  lemma MovedKeys(totals: map<Series, int>, was: Option<Series>, now: Series)
    requires was.Some? ==> was.value in totals
    ensures Moved(totals, was, Some(now)).Keys == totals.Keys + {now}
    ensures Moved(totals, was, None).Keys == totals.Keys
  {
  }

  /** A series stays once seen, so recording the new totals replaces everything the gauge showed. */
  lemma GaugeCatchesUp(st: State, op: Operation)
    ensures Totals(st) + Totals(Apply(st, op)) == Totals(Apply(st, op))
  {
  }

  /** Taking the step, or seeing that there is none to take, leaves the tracker as the step calls for. */
  lemma StepTracked(st: State, totals: map<Series, int>, o: ObserverId, e: Endpoint, live': Live,
                    totals': map<Series, int>)
    requires Covered(st) && o in st.live && totals == Totals(st)
    requires var was, now := Counted(st.live, o, e.id), Some(Series(o.observerType, e.kind));
             if was == now then live' == st.live && totals' == totals
             else live' == st.live[o := With(st.live[o], e.id, e.kind)] && totals' == Moved(totals, was, now)
    ensures var st' := State(live', totals'.Keys);
            st' == TrackedOne(st, o, e.id, e.kind) && totals' == Totals(st') && Covered(st')
  {
    var was, now := Counted(st.live, o, e.id), Series(o.observerType, e.kind);
    TotalsTracked(st, o, e.id, e.kind);
    CoveredOne(st, o, e.id, e.kind);
    UnchangedOne(st, o, e.id, e.kind);
    MovedKeys(totals, was, now);
  }

  // ---------------------------------------------------------------- the tracker

  class EndpointTracker {
    const reporting: bool
    var live: Live
    var totals: map<Series, int>
    var gauge: map<Series, int>

    ghost function View(): State
      reads this
    {
      State(live, totals.Keys)
    }

    /** The totals, and what the gauge last showed, are what the reports and the series seen call for. */
    ghost predicate Valid()
      reads this
    {
      Covered(View()) && totals == Totals(View()) && (reporting ==> gauge == totals)
    }

    constructor (reporting: bool)
      ensures Valid() && live == map[] && totals == map[] && this.reporting == reporting
    {
      this.reporting, live, totals, gauge := reporting, map[], map[], map[];
    }

    /** An endpoint already counted is not counted again; one whose type changed moves between series. */
    method TrackOne(o: ObserverId, e: Endpoint)
      requires o in live
      modifies `live, `totals
      ensures var was, now := Counted(old(live), o, e.id), Some(Series(o.observerType, e.kind));
              if was == now then live == old(live) && totals == old(totals)
              else live == old(live)[o := With(old(live)[o], e.id, e.kind)] && totals == Moved(old(totals), was, now)
    {
      if e.id in live[o] {
        var previous := live[o][e.id];
        if previous == e.kind {
          return;
        }
        var was := Series(o.observerType, previous);
        totals := totals[was := CountAt(totals, was) - 1];
      }
      live := live[o := With(live[o], e.id, e.kind)];
      var now := Series(o.observerType, e.kind);
      totals := totals[now := CountAt(totals, now) + 1];
    }

    /** Finds a subscription's map, creating it on its first report. */
    method Open(o: ObserverId)
      requires totals == Totals(View()) && Covered(View())
      modifies `live
      ensures o in live && View() == Apply(old(View()), Operation.Track(o, []))
      ensures totals == Totals(View()) && Covered(View())
    {
      TrackNothing(View(), o);
      if o !in live {
        live := live[o := map[]];
      }
    }

    method TrackEach(o: ObserverId, endpoints: seq<Endpoint>)
      requires totals == Totals(View()) && Covered(View())
      modifies `live, `totals
      ensures View() == Apply(old(View()), Operation.Track(o, endpoints))
      ensures totals == Totals(View()) && Covered(View())
    {
      ghost var start := View();
      Open(o);
      TakeBounds(endpoints);
      for i := 0 to |endpoints|
        invariant totals == Totals(View()) && Covered(View())
        invariant o in live && View() == Apply(start, Operation.Track(o, endpoints[..i]))
      {
        TrackNext(start, o, endpoints, i);
        ghost var st, before := View(), totals;
        TrackOne(o, endpoints[i]);
        StepTracked(st, before, o, endpoints[i], live, totals);
      }
    }

    method Track(o: ObserverId, endpoints: seq<Endpoint>)
      requires Valid()
      modifies this
      ensures Valid() && View() == Apply(old(View()), Operation.Track(o, endpoints))
    {
      GaugeCatchesUp(View(), Operation.Track(o, endpoints));
      TrackEach(o, endpoints);
      RecordLocked();
    }

    /** An endpoint the subscription never reported is ignored. */
    method UntrackOne(o: ObserverId, e: Endpoint)
      requires totals == Totals(View()) && Covered(View())
      modifies `live, `totals
      ensures View() == (if o in old(live) then UntrackedOne(old(View()), o, e.id) else old(View()))
      ensures totals == Totals(View())
    {
      ghost var st := View();
      if o !in live {
        return;
      }
      TotalsUntracked(st, o, e.id);
      UnchangedOne(st, o, e.id, e.kind);
      if e.id !in live[o] {
        return;
      }
      var was := Series(o.observerType, live[o][e.id]);
      MovedKeys(totals, Some(was), was);
      totals := totals[was := CountAt(totals, was) - 1];
      live := live[o := live[o] - {e.id}];
    }

    method UntrackEach(o: ObserverId, endpoints: seq<Endpoint>)
      requires totals == Totals(View()) && Covered(View())
      modifies `live, `totals
      ensures View() == Apply(old(View()), Operation.Untrack(o, endpoints))
      ensures totals == Totals(View()) && Covered(View())
    {
      ghost var start := View();
      UntrackNothing(start, o);
      TakeBounds(endpoints);
      for i := 0 to |endpoints|
        invariant totals == Totals(View()) && Covered(View())
        invariant View() == Apply(start, Operation.Untrack(o, endpoints[..i]))
      {
        UntrackNext(start, o, endpoints, i);
        if o in live {
          CoveredOne(View(), o, endpoints[i].id, endpoints[i].kind);
        }
        UntrackOne(o, endpoints[i]);
      }
    }

    method Untrack(o: ObserverId, endpoints: seq<Endpoint>)
      requires Valid()
      modifies this
      ensures Valid() && View() == Apply(old(View()), Operation.Untrack(o, endpoints))
    {
      GaugeCatchesUp(View(), Operation.Untrack(o, endpoints));
      UntrackEach(o, endpoints);
      RecordLocked();
    }

    /** Reports every series, those now at zero included. */
    method RecordLocked()
      modifies `gauge
      ensures gauge == if reporting then old(gauge) + totals else old(gauge)
    {
      if reporting {
        gauge := Publish(totals, gauge);
      }
    }
  }
}
