/**
 Dispatching a batch: each resource to every matched exporter that handles its signal, the rest
 to the default exporters, and what nobody takes to the non-routable counter.

 `Delivered` says what a dispatch must have done, for any kind of telemetry. Logs, metrics and
 traces are dispatched by three copies of the algorithm, metrics with branches of its own; all
 three are proved to have done it, whatever the router answers and whichever exports fail.
 */
module Dispatch {
  import opened Base
  import opened Telemetry

  /**
   A component the router can answer with: a wrapped exporter, which has a sub-exporter for some
   signals, or any other component, which implements some signals itself.
   */
  class Component {
    const wrapped: bool
    const has: Signals
    var warnedLogs: bool
    var warnedMetrics: bool
    var warnedTraces: bool

    constructor (wrapped: bool, has: Signals)
      ensures this.wrapped == wrapped && this.has == has
      ensures !warnedLogs && !warnedMetrics && !warnedTraces
    {
      this.wrapped, this.has := wrapped, has;
      warnedLogs, warnedMetrics, warnedTraces := false, false, false;
    }

    predicate Handles(signal: Signal) {
      has.Has(signal)
    }

    predicate Warned(signal: Signal)
      reads this
    {
      match signal
      case Logs => warnedLogs
      case Metrics => warnedMetrics
      case Traces => warnedTraces
    }

    /** Marks a signal as warned about; true if it was not marked before. */
    method FirstUnsupported(signal: Signal) returns (first: bool)
      modifies this
      ensures first == !old(Warned(signal)) && Warned(signal)
      ensures forall s :: s != signal ==> Warned(s) == old(Warned(s))
    {
      match signal
      case Logs => first := !warnedLogs; warnedLogs := true;
      case Metrics => first := !warnedMetrics; warnedMetrics := true;
      case Traces => first := !warnedTraces; warnedTraces := true;
    }
  }

  // ---------------------------------------------------------------- what a dispatch must do

  /** How often c is among the components of an answer. */
  ghost function Times(answer: seq<Component>, c: Component): nat {
    multiset(answer)[c]
  }

  ghost function Repeat<R>(r: R, n: nat): seq<R> {
    seq(n, _ => r)
  }

  /** What is sent to c: the resources matched to it, in order, each as often as it was matched. */
  ghost function BatchFor<R>(c: Component, resources: seq<R>, answers: seq<seq<Component>>): seq<R>
    requires |resources| == |answers|
  {
    if |resources| == 0 then []
    else
      var n := |resources| - 1;
      BatchFor(c, resources[..n], answers[..n]) + Repeat(resources[n], Times(answers[n], c))
  }

  predicate AnyHandles(answer: seq<Component>, signal: Signal) {
    |answer| > 0 && (answer[|answer| - 1].Handles(signal) || AnyHandles(answer[..|answer| - 1], signal))
  }

  /** Everyone to send to: the components matched to some resource that handle the signal. */
  ghost function Recipients(signal: Signal, answers: seq<seq<Component>>): set<Component> {
    set i, k | 0 <= i < |answers| && 0 <= k < |answers[i]| && answers[i][k].Handles(signal) :: answers[i][k]
  }

  datatype Fate = Accepted | Unsupported | Unmatched

  /** What becomes of a resource depends on its answer alone. */
  function FateOf(answer: seq<Component>, signal: Signal): Fate {
    if |answer| == 0 then Unmatched else if AnyHandles(answer, signal) then Accepted else Unsupported
  }

  /** The resources with a given fate, in order. */
  ghost function WithFate<R>(fate: Fate, signal: Signal, resources: seq<R>, answers: seq<seq<Component>>): seq<R>
    requires |resources| == |answers|
  {
    if |resources| == 0 then []
    else
      var n := |resources| - 1;
      WithFate(fate, signal, resources[..n], answers[..n]) +
      if FateOf(answers[n], signal) == fate then [resources[n]] else []
  }

  /** One export and whether it succeeded. */
  datatype Send<R> = Send(to: Component, batch: seq<R>, ok: bool)

  ghost function Failures<R>(sends: seq<Send<R>>): nat {
    if |sends| == 0 then 0
    else Failures(sends[..|sends| - 1]) + if sends[|sends| - 1].ok then 0 else 1
  }

  ghost predicate AnySucceeded<R>(sends: seq<Send<R>>) {
    |sends| > 0 && (sends[|sends| - 1].ok || AnySucceeded(sends[..|sends| - 1]))
  }

  /** A default exporter takes a signal only by implementing it itself. */
  predicate TakesDefault(c: Component, signal: Signal) {
    !c.wrapped && c.Handles(signal)
  }

  ghost function DefaultsFor(signal: Signal, defaults: seq<Component>): seq<Component> {
    if |defaults| == 0 then []
    else
      var last := defaults[|defaults| - 1];
      DefaultsFor(signal, defaults[..|defaults| - 1]) + if TakesDefault(last, signal) then [last] else []
  }

  ghost function TargetSet<R>(sends: seq<Send<R>>): set<Component> {
    if |sends| == 0 then {} else TargetSet(sends[..|sends| - 1]) + {sends[|sends| - 1].to}
  }

  /** Each recipient is sent its batch, once. */
  ghost predicate SentToRecipients<R>(signal: Signal, resources: seq<R>, answers: seq<seq<Component>>,
                                      sends: seq<Send<R>>)
    requires |resources| == |answers|
  {
    && TargetSet(sends) == Recipients(signal, answers)
    && (forall i, j :: 0 <= i < j < |sends| ==> sends[i].to != sends[j].to)
    && (forall i :: 0 <= i < |sends| ==> sends[i].batch == BatchFor(sends[i].to, resources, answers))
  }

  /** If anything was unmatched, each default exporter for the signal is sent all of it. */
  ghost predicate SentToDefaults<R>(signal: Signal, unmatched: seq<R>, defaults: seq<Component>, sends: seq<Send<R>>) {
    var takers := if |unmatched| == 0 then [] else DefaultsFor(signal, defaults);
    && |sends| == |takers|
    && forall i :: 0 <= i < |sends| ==> sends[i].to == takers[i] && sends[i].batch == unmatched
  }

  /** The records nobody took: of unsupported resources, and of unmatched ones that no default exporter took. */
  ghost function Lost<R>(size: R -> nat, signal: Signal, resources: seq<R>, answers: seq<seq<Component>>,
                         defaultSends: seq<Send<R>>): nat
    requires |resources| == |answers|
  {
    Total(size, WithFate(Unsupported, signal, resources, answers)) +
    if AnySucceeded(defaultSends) then 0 else Total(size, WithFate(Unmatched, signal, resources, answers))
  }

  /** What a dispatch did. */
  datatype Report<R> = Report(sends: seq<Send<R>>, defaultSends: seq<Send<R>>, lost: int, failures: int)

  ghost predicate Delivered<R>(size: R -> nat, signal: Signal, resources: seq<R>, answers: seq<seq<Component>>,
                               defaults: seq<Component>, report: Report<R>)
    requires |resources| == |answers|
  {
    match report
    case Report(sends, defaultSends, lost, failures) =>
      && SentToRecipients(signal, resources, answers, sends)
      && SentToDefaults(signal, WithFate(Unmatched, signal, resources, answers), defaults, defaultSends)
      && lost == Lost(size, signal, resources, answers, defaultSends)
      && failures == Failures(sends) + Failures(defaultSends)
  }

  /** The batch was delivered, or dropped without a trace for want of a router. */
  ghost predicate Consumed<R>(hasRouter: bool, size: R -> nat, signal: Signal, resources: seq<R>,
                              answers: seq<seq<Component>>, defaults: seq<Component>, report: Report<R>)
    requires |resources| == |answers|
  {
    match report
    case Report(sends, defaultSends, lost, failures) =>
      if hasRouter then Delivered(size, signal, resources, answers, defaults, report)
      else |sends| == 0 && |defaultSends| == 0 && lost == 0 && failures == 0
  }

  // ---------------------------------------------------------------- who is sent what, by position

  /** Each item as often as its number says, in order. */
  ghost function Chosen<T>(items: seq<T>, times: seq<nat>): seq<T>
    requires |times| == |items|
  {
    if |items| == 0 then []
    else
      var n := |items| - 1;
      Chosen(items[..n], times[..n]) + Repeat(items[n], times[n])
  }

  /** What is chosen stands in items at the given positions, in their order. */
  ghost predicate Selects<T>(items: seq<T>, at: seq<nat>, chosen: seq<T>) {
    && |at| == |chosen|
    && (forall k :: 0 <= k < |at| ==> at[k] < |items| && chosen[k] == items[at[k]])
    && (forall k, l :: 0 <= k < l < |at| ==> at[k] <= at[l])
  }

  lemma {:induction false} TimesRepeated<T>(x: T, n: nat, y: T)
    ensures multiset(Repeat(x, n))[y] == if y == x then n else 0
  {
    if n == 0 {
    } else {
      TimesRepeated(x, n - 1, y);
      RepeatSnoc(x, n);
    }
  }

  lemma SelectsLast<T>(items: seq<T>, at: seq<nat>, chosen: seq<T>, count: nat)
    requires |items| > 0 && Selects(items[..|items| - 1], at, chosen)
    ensures var n: nat := |items| - 1; Selects(items, at + Repeat(n, count), chosen + Repeat(items[n], count))
  {
  }

  /** Position i is among those at as often as its number says. */
  ghost predicate AsOften(at: seq<nat>, times: seq<nat>, i: nat) {
    multiset(at)[i] == if i < |times| then times[i] else 0
  }

  lemma AsOftenLast(at: seq<nat>, times: seq<nat>, i: nat)
    requires |times| > 0 && AsOften(at, times[..|times| - 1], i)
    ensures var n: nat := |times| - 1; AsOften(at + Repeat(n, times[n]), times, i)
  {
    var n: nat := |times| - 1;
    TimesRepeated(n, times[n], i);
  }

  /** The positions chosen go up, and each is chosen as often as it should be. */
  lemma {:induction false} ChosenExactly<T>(items: seq<T>, times: seq<nat>) returns (at: seq<nat>)
    requires |times| == |items|
    ensures Selects(items, at, Chosen(items, times)) && forall i: nat :: AsOften(at, times, i)
  {
    if |items| == 0 {
      at := [];
    } else {
      var n: nat := |items| - 1;
      var before := ChosenExactly(items[..n], times[..n]);
      at := before + Repeat(n, times[n]);
      SelectsLast(items, before, Chosen(items[..n], times[..n]), times[n]);
      forall i: nat ensures AsOften(at, times, i) {
        assert AsOften(before, times[..n], i);
        AsOftenLast(before, times, i);
      }
    }
  }

  /** A component is sent each resource as often as it is in its answer, in order. */
  lemma {:induction false} BatchExactly<R>(c: Component, resources: seq<R>, answers: seq<seq<Component>>,
                                           times: seq<nat>)
    requires |times| == |resources| == |answers|
    requires forall i :: 0 <= i < |times| ==> times[i] == multiset(answers[i])[c]
    ensures BatchFor(c, resources, answers) == Chosen(resources, times)
  {
    if |resources| == 0 {
    } else {
      var n := |resources| - 1;
      BatchExactly(c, resources[..n], answers[..n], times[..n]);
    }
  }

  lemma {:induction false} AnyHandlesExactly(answer: seq<Component>, signal: Signal)
    ensures AnyHandles(answer, signal) <==> exists k :: 0 <= k < |answer| && answer[k].Handles(signal)
  {
    if |answer| == 0 {
    } else {
      var n := |answer| - 1;
      AnyHandlesExactly(answer[..n], signal);
      assert forall k :: 0 <= k < n ==> answer[..n][k] == answer[k];
    }
  }

  /** A resource without a match is unmatched, one whose matches all lack the signal unsupported. */
  lemma FateExactly(answer: seq<Component>, signal: Signal)
    ensures FateOf(answer, signal) == Unmatched <==> |answer| == 0
    ensures FateOf(answer, signal) == Accepted <==> exists k :: 0 <= k < |answer| && answer[k].Handles(signal)
  {
    AnyHandlesExactly(answer, signal);
  }

  lemma RepeatOnce<T>(x: T, takes: bool)
    ensures Repeat(x, if takes then 1 else 0) == if takes then [x] else []
  {
  }

  /** The resources with a fate are all of those, each once and in order. */
  lemma {:induction false} WithFateExactly<R>(fate: Fate, signal: Signal, resources: seq<R>,
                                              answers: seq<seq<Component>>, times: seq<nat>)
    requires |times| == |resources| == |answers|
    requires forall i :: 0 <= i < |times| ==> times[i] == if FateOf(answers[i], signal) == fate then 1 else 0
    ensures WithFate(fate, signal, resources, answers) == Chosen(resources, times)
  {
    if |resources| == 0 {
    } else {
      var n := |resources| - 1;
      WithFateExactly(fate, signal, resources[..n], answers[..n], times[..n]);
      RepeatOnce(resources[n], FateOf(answers[n], signal) == fate);
    }
  }

  /** The default exporters for a signal are those that are not wrapped and have it, each once and in order. */
  lemma {:induction false} DefaultsExactly(signal: Signal, defaults: seq<Component>, times: seq<nat>)
    requires |times| == |defaults|
    requires forall i :: 0 <= i < |times| ==>
        times[i] == if !defaults[i].wrapped && defaults[i].has.Has(signal) then 1 else 0
    ensures DefaultsFor(signal, defaults) == Chosen(defaults, times)
  {
    if |defaults| == 0 {
    } else {
      var n := |defaults| - 1;
      DefaultsExactly(signal, defaults[..n], times[..n]);
      RepeatOnce(defaults[n], !defaults[n].wrapped && defaults[n].has.Has(signal));
    }
  }

  function FailedAt<R>(sends: seq<Send<R>>): set<nat> {
    set i: nat | i < |sends| && !sends[i].ok
  }

  lemma FailedAtLast<R>(sends: seq<Send<R>>)
    requires |sends| > 0
    ensures var n: nat := |sends| - 1; FailedAt(sends) == FailedAt(sends[..n]) + if sends[n].ok then {} else {n}
  {
  }

  /** The errors counted are the exports that failed. */
  lemma {:induction false} FailuresExactly<R>(sends: seq<Send<R>>)
    ensures Failures(sends) == |FailedAt(sends)|
  {
    if |sends| == 0 {
      assert FailedAt(sends) == {};
    } else {
      FailuresExactly(sends[..|sends| - 1]);
      FailedAtLast(sends);
    }
  }

  /** One success is enough for a batch to be taken. */
  lemma {:induction false} SucceededExactly<R>(sends: seq<Send<R>>)
    ensures AnySucceeded(sends) <==> exists i :: 0 <= i < |sends| && sends[i].ok
  {
    if |sends| == 0 {
    } else {
      var n := |sends| - 1;
      SucceededExactly(sends[..n]);
      assert forall i :: 0 <= i < n ==> sends[..n][i] == sends[i];
    }
  }

  // ---------------------------------------------------------------- conservation

  /** Every record is in a resource with exactly one fate. */
  lemma {:induction false} RecordsSplit<R>(size: R -> nat, signal: Signal, resources: seq<R>,
                                           answers: seq<seq<Component>>)
    requires |resources| == |answers|
    ensures Total(size, resources) ==
            Total(size, WithFate(Accepted, signal, resources, answers)) +
            Total(size, WithFate(Unsupported, signal, resources, answers)) +
            Total(size, WithFate(Unmatched, signal, resources, answers))
  {
    if |resources| == 0 {
    } else {
      var n := |resources| - 1;
      RecordsSplit(size, signal, resources[..n], answers[..n]);
      RecordsSnoc(size, WithFate(Accepted, signal, resources[..n], answers[..n]), resources[n]);
      RecordsSnoc(size, WithFate(Unsupported, signal, resources[..n], answers[..n]), resources[n]);
      RecordsSnoc(size, WithFate(Unmatched, signal, resources[..n], answers[..n]), resources[n]);
    }
  }

  lemma RecordsSnoc<R>(size: R -> nat, batch: seq<R>, r: R)
    ensures Total(size, batch + [r]) == Total(size, batch) + size(r)
    ensures Total(size, batch + []) == Total(size, batch)
  {
    assert (batch + [r])[..|batch|] == batch && batch + [] == batch;
  }

  /** Nothing is counted twice or forgotten: a record is lost, accepted, or taken by a default exporter. */
  lemma Accounting<R>(size: R -> nat, signal: Signal, resources: seq<R>, answers: seq<seq<Component>>,
                      defaults: seq<Component>, report: Report<R>)
    requires |resources| == |answers| && Delivered(size, signal, resources, answers, defaults, report)
    ensures Total(size, resources) ==
            report.lost
            + Total(size, WithFate(Accepted, signal, resources, answers))
            + if AnySucceeded(report.defaultSends)
              then Total(size, WithFate(Unmatched, signal, resources, answers)) else 0
  {
    RecordsSplit(size, signal, resources, answers);
  }

  lemma {:induction false} SomeUnmatched<R>(signal: Signal, resources: seq<R>, answers: seq<seq<Component>>)
    requires |resources| == |answers|
    ensures |WithFate(Unmatched, signal, resources, answers)| > 0 <==>
        exists i :: 0 <= i < |answers| && |answers[i]| == 0
  {
    if |resources| == 0 {
    } else {
      var n := |resources| - 1;
      SomeUnmatched(signal, resources[..n], answers[..n]);
      assert forall i :: 0 <= i < n ==> answers[..n][i] == answers[i];
    }
  }

  /**
   What goes out: to each component that handles the signal of some resource it is answered for, its
   batch, once; and to each default exporter for the signal all that is unmatched, if anything is.
   */
  lemma DeliveredExactly<R>(size: R -> nat, signal: Signal, resources: seq<R>, answers: seq<seq<Component>>,
                            defaults: seq<Component>, report: Report<R>, c: Component)
    requires |resources| == |answers| && Delivered(size, signal, resources, answers, defaults, report)
    ensures (exists k :: 0 <= k < |report.sends| && report.sends[k].to == c) <==>
              c.has.Has(signal) && exists i, j :: 0 <= i < |answers| && 0 <= j < |answers[i]| && answers[i][j] == c
    ensures forall k :: 0 <= k < |report.sends| ==>
              report.sends[k].batch == BatchFor(report.sends[k].to, resources, answers)
    ensures forall k, l :: 0 <= k < l < |report.sends| ==> report.sends[k].to != report.sends[l].to
    ensures (forall i :: 0 <= i < |answers| ==> |answers[i]| > 0) ==> |report.defaultSends| == 0
    ensures (exists i :: 0 <= i < |answers| && |answers[i]| == 0) ==>
              && |report.defaultSends| == |DefaultsFor(signal, defaults)|
              && forall k :: 0 <= k < |report.defaultSends| ==>
                   && report.defaultSends[k].to == DefaultsFor(signal, defaults)[k]
                   && report.defaultSends[k].batch == WithFate(Unmatched, signal, resources, answers)
  {
    SomeUnmatched(signal, resources, answers);
    SentExactly(signal, resources, answers, report.sends, c);
  }

  lemma SentExactly<R>(signal: Signal, resources: seq<R>, answers: seq<seq<Component>>, sends: seq<Send<R>>,
                       c: Component)
    requires |resources| == |answers| && SentToRecipients(signal, resources, answers, sends)
    ensures (exists k :: 0 <= k < |sends| && sends[k].to == c) <==>
              c.has.Has(signal) && exists i, j :: 0 <= i < |answers| && 0 <= j < |answers[i]| && answers[i][j] == c
  {
    if k :| 0 <= k < |sends| && sends[k].to == c {
      TargetIsIn(sends, k);
    }
    if i, j :| 0 <= i < |answers| && 0 <= j < |answers[i]| && answers[i][j] == c && c.has.Has(signal) {
      assert answers[i][j].Handles(signal) && c in Recipients(signal, answers);
      var k := TargetIsAt(sends, c);
    }
  }

  /** How many components of an answer handle the signal, with multiplicity. */
  ghost function Takers(answer: seq<Component>, signal: Signal): nat {
    if |answer| == 0 then 0
    else Takers(answer[..|answer| - 1], signal) + if answer[|answer| - 1].Handles(signal) then 1 else 0
  }

  /** The records that should go out: each resource's once per component that takes it. */
  ghost function Due<R>(size: R -> nat, signal: Signal, resources: seq<R>, answers: seq<seq<Component>>): nat
    requires |resources| == |answers|
  {
    if |resources| == 0 then 0
    else
      var n := |resources| - 1;
      Due(size, signal, resources[..n], answers[..n]) + Takers(answers[n], signal) * size(resources[n])
  }

  ghost function Outgoing<R>(size: R -> nat, sends: seq<Send<R>>): nat {
    if |sends| == 0 then 0
    else Outgoing(size, sends[..|sends| - 1]) + Total(size, sends[|sends| - 1].batch)
  }

  /** The same, summed over recipients: how often they are among the components of an answer. */
  ghost function TimesEach(answer: seq<Component>, cs: seq<Component>): nat {
    if |cs| == 0 then 0 else TimesEach(answer, cs[..|cs| - 1]) + Times(answer, cs[|cs| - 1])
  }

  ghost function BatchesFor<R>(size: R -> nat, cs: seq<Component>, resources: seq<R>, answers: seq<seq<Component>>): nat
    requires |resources| == |answers|
  {
    if |cs| == 0 then 0
    else
      BatchesFor(size, cs[..|cs| - 1], resources, answers) +
      Total(size, BatchFor(cs[|cs| - 1], resources, answers))
  }

  lemma RepeatSnoc<R>(r: R, n: nat)
    requires n > 0
    ensures Repeat(r, n) == Repeat(r, n - 1) + [r]
  {
  }

  lemma Distribute(x: int, y: int, z: int)
    ensures (x + y) * z == x * z + y * z
    ensures 1 * z == z
  {
  }

  lemma {:induction false} RecordsRepeat<R>(size: R -> nat, batch: seq<R>, r: R, n: nat)
    ensures Total(size, batch + Repeat(r, n)) == Total(size, batch) + n * size(r)
  {
    if n == 0 {
      assert batch + Repeat(r, 0) == batch;
    } else {
      RecordsRepeat(size, batch, r, n - 1);
      RepeatSnoc(r, n);
      ConcatAssociative(batch, Repeat(r, n - 1), [r]);
      RecordsSnoc(size, batch + Repeat(r, n - 1), r);
      Distribute(n - 1, 1, size(r));
    }
  }

  /** What the last resource adds to every recipient's batch. */
  ghost function LastShare<R>(size: R -> nat, cs: seq<Component>, r: R, answer: seq<Component>): nat {
    if |cs| == 0 then 0 else LastShare(size, cs[..|cs| - 1], r, answer) + Times(answer, cs[|cs| - 1]) * size(r)
  }

  lemma {:induction false} LastShareIsProduct<R>(size: R -> nat, cs: seq<Component>, r: R, answer: seq<Component>)
    ensures LastShare(size, cs, r, answer) == TimesEach(answer, cs) * size(r)
  {
    if |cs| == 0 {
    } else {
      var before := cs[..|cs| - 1];
      LastShareIsProduct(size, before, r, answer);
      Distribute(TimesEach(answer, before), Times(answer, cs[|cs| - 1]), size(r));
    }
  }

  /** Taking the last resource off every recipient's batch. */
  lemma {:induction false} BatchesLast<R>(size: R -> nat, cs: seq<Component>, resources: seq<R>,
                                          answers: seq<seq<Component>>)
    requires |resources| == |answers| > 0
    ensures var n := |resources| - 1;
            BatchesFor(size, cs, resources, answers) ==
            BatchesFor(size, cs, resources[..n], answers[..n]) + LastShare(size, cs, resources[n], answers[n])
  {
    if |cs| == 0 {
    } else {
      var n, c := |resources| - 1, cs[|cs| - 1];
      BatchesLast(size, cs[..|cs| - 1], resources, answers);
      RecordsRepeat(size, BatchFor(c, resources[..n], answers[..n]), resources[n], Times(answers[n], c));
    }
  }

  lemma {:induction false} NoBatches<R>(size: R -> nat, cs: seq<Component>)
    ensures BatchesFor<R>(size, cs, [], []) == 0
  {
    if |cs| == 0 {
    } else {
      NoBatches(size, cs[..|cs| - 1]);
    }
  }

  lemma {:induction false} TimesEachSnoc(answer: seq<Component>, c: Component, cs: seq<Component>)
    requires forall i, j :: 0 <= i < j < |cs| ==> cs[i] != cs[j]
    ensures TimesEach(answer + [c], cs) == TimesEach(answer, cs) + if c in cs then 1 else 0
  {
    if |cs| == 0 {
    } else {
      TimesEachSnoc(answer, c, cs[..|cs| - 1]);
    }
  }

  lemma {:induction false} NoTimes(cs: seq<Component>)
    ensures TimesEach([], cs) == 0
  {
    if |cs| == 0 {
    } else {
      NoTimes(cs[..|cs| - 1]);
    }
  }

  /** Counting an answer's takers component by component or position by position is the same. */
  lemma {:induction false} TakersAreTimes(answer: seq<Component>, signal: Signal, cs: seq<Component>)
    requires forall i, j :: 0 <= i < j < |cs| ==> cs[i] != cs[j]
    requires forall k :: 0 <= k < |answer| ==> (answer[k].Handles(signal) <==> answer[k] in cs)
    ensures TimesEach(answer, cs) == Takers(answer, signal)
  {
    if |answer| == 0 {
      NoTimes(cs);
    } else {
      var before, last := answer[..|answer| - 1], answer[|answer| - 1];
      TakersAreTimes(before, signal, cs);
      TimesEachSnoc(before, last, cs);
      assert answer == before + [last];
    }
  }

  lemma {:induction false} BatchesAreDue<R>(size: R -> nat, signal: Signal, resources: seq<R>,
                                            answers: seq<seq<Component>>, cs: seq<Component>)
    requires |resources| == |answers|
    requires forall i, j :: 0 <= i < j < |cs| ==> cs[i] != cs[j]
    requires forall i, k :: 0 <= i < |answers| && 0 <= k < |answers[i]| ==>
        (answers[i][k].Handles(signal) <==> answers[i][k] in cs)
    ensures BatchesFor(size, cs, resources, answers) == Due(size, signal, resources, answers)
  {
    if |resources| == 0 {
      assert resources == [] && answers == [];
      NoBatches(size, cs);
    } else {
      var n := |resources| - 1;
      BatchesAreDue(size, signal, resources[..n], answers[..n], cs);
      BatchesLast(size, cs, resources, answers);
      LastShareIsProduct(size, cs, resources[n], answers[n]);
      TakersAreTimes(answers[n], signal, cs);
    }
  }

  function Targets<R>(sends: seq<Send<R>>): (cs: seq<Component>)
    ensures |cs| == |sends|
  {
    seq(|sends|, i requires 0 <= i < |sends| => sends[i].to)
  }

  lemma {:induction false} OutgoingIsBatches<R>(size: R -> nat, resources: seq<R>, answers: seq<seq<Component>>,
                                                sends: seq<Send<R>>)
    requires |resources| == |answers|
    requires forall i :: 0 <= i < |sends| ==> sends[i].batch == BatchFor(sends[i].to, resources, answers)
    ensures Outgoing(size, sends) == BatchesFor(size, Targets(sends), resources, answers)
  {
    if |sends| == 0 {
    } else {
      OutgoingIsBatches(size, resources, answers, sends[..|sends| - 1]);
      assert Targets(sends)[..|sends| - 1] == Targets(sends[..|sends| - 1]);
    }
  }

  /**
   What goes out to matched exporters is, in all, each resource's records once for every matched
   component that handles the signal: regrouping drops nothing and duplicates nothing.
   */
  lemma FlowConservation<R>(size: R -> nat, signal: Signal, resources: seq<R>, answers: seq<seq<Component>>,
                            sends: seq<Send<R>>)
    requires |resources| == |answers| && SentToRecipients(signal, resources, answers, sends)
    ensures Outgoing(size, sends) == Due(size, signal, resources, answers)
  {
    var cs := Targets(sends);
    forall i, k | 0 <= i < |answers| && 0 <= k < |answers[i]|
      ensures answers[i][k].Handles(signal) <==> answers[i][k] in cs
    {
      var c := answers[i][k];
      if c.Handles(signal) {
        assert c in Recipients(signal, answers);
        var j := TargetIsAt(sends, c);
        assert cs[j] == c;
      }
      if c in cs {
        var j :| 0 <= j < |cs| && cs[j] == c;
        TargetIsIn(sends, j);
      }
    }
    OutgoingIsBatches(size, resources, answers, sends);
    BatchesAreDue(size, signal, resources, answers, cs);
  }

  // ---------------------------------------------------------------- telemetry and its size

  type Record = nat

  datatype ResourceLogs = ResourceLogs(scopeLogs: seq<seq<Record>>)

  datatype ResourceSpans = ResourceSpans(scopeSpans: seq<seq<Record>>)

  datatype Metric =
    | Gauge(points: seq<Record>)
    | Sum(points: seq<Record>)
    | Histogram(points: seq<Record>)
    | ExponentialHistogram(points: seq<Record>)
    | Summary(points: seq<Record>)
    | Empty

  datatype ResourceMetrics = ResourceMetrics(scopeMetrics: seq<seq<Metric>>)

  function Length<T>(): seq<T> -> nat { items => |items| }

  function LogSize(): ResourceLogs -> nat { (rl: ResourceLogs) => Total(Length(), rl.scopeLogs) }

  function SpanSize(): ResourceSpans -> nat { (rs: ResourceSpans) => Total(Length(), rs.scopeSpans) }

  function PointCount(): Metric -> nat { (m: Metric) => if m.Empty? then 0 else |m.points| }

  function ScopePoints(): seq<Metric> -> nat { metrics => Total(PointCount(), metrics) }

  function PointSize(): ResourceMetrics -> nat { (rm: ResourceMetrics) => Total(ScopePoints(), rm.scopeMetrics) }

  /** Every kind of metric counts its own data points. */
  lemma PointsExactly(points: seq<Record>)
    ensures PointCount()(Gauge(points)) == PointCount()(Sum(points)) == |points|
    ensures PointCount()(Histogram(points)) == PointCount()(ExponentialHistogram(points)) == |points|
    ensures PointCount()(Summary(points)) == |points| && PointCount()(Empty) == 0
  {
  }

  /** A resource's logs and spans are those of its scopes, its points those of its metrics in every scope. */
  lemma SizesExactly(a: seq<seq<Record>>, b: seq<seq<Record>>, scope: seq<Record>,
                     c: seq<seq<Metric>>, d: seq<seq<Metric>>, e: seq<Metric>, m: Metric)
    ensures LogSize()(ResourceLogs(a + b)) == LogSize()(ResourceLogs(a)) + LogSize()(ResourceLogs(b))
    ensures LogSize()(ResourceLogs([])) == 0 && LogSize()(ResourceLogs([scope])) == |scope|
    ensures SpanSize()(ResourceSpans(a + b)) == SpanSize()(ResourceSpans(a)) + SpanSize()(ResourceSpans(b))
    ensures SpanSize()(ResourceSpans([])) == 0 && SpanSize()(ResourceSpans([scope])) == |scope|
    ensures PointSize()(ResourceMetrics(c + d)) == PointSize()(ResourceMetrics(c)) + PointSize()(ResourceMetrics(d))
    ensures PointSize()(ResourceMetrics([e + [m]])) == PointSize()(ResourceMetrics([e])) + PointCount()(m)
    ensures PointSize()(ResourceMetrics([])) == PointSize()(ResourceMetrics([[]])) == 0
  {
    TotalConcat(Length(), a, b);
    TotalConcat(ScopePoints(), c, d);
    TotalConcat(PointCount(), e, [m]);
    TotalFirst(Length(), [scope]);
    TotalFirst(PointCount(), [m]);
    assert forall ms: seq<Metric> :: Total(ScopePoints(), [ms]) == ScopePoints()(ms) by {
      forall ms: seq<Metric> ensures Total(ScopePoints(), [ms]) == ScopePoints()(ms) {
        TotalFirst(ScopePoints(), [ms]);
      }
    }
  }

  method CountScopes(scopes: seq<seq<Record>>) returns (count: nat)
    ensures count == Total(Length(), scopes)
  {
    count := 0;
    TakeBounds(scopes);
    for i := 0 to |scopes|
      invariant count == Total(Length(), scopes[..i])
    {
      TakeNext(scopes, i);
      count := count + |scopes[i]|;
    }
  }

  method CountResourceLogRecords(rl: ResourceLogs) returns (count: nat)
    ensures count == LogSize()(rl)
  {
    count := CountScopes(rl.scopeLogs);
  }

  method CountResourceSpans(rs: ResourceSpans) returns (count: nat)
    ensures count == SpanSize()(rs)
  {
    count := CountScopes(rs.scopeSpans);
  }

  method CountPoints(metrics: seq<Metric>) returns (count: nat)
    ensures count == ScopePoints()(metrics)
  {
    count := 0;
    TakeBounds(metrics);
    for j := 0 to |metrics|
      invariant count == Total(PointCount(), metrics[..j])
    {
      TakeNext(metrics, j);
      match metrics[j]
      case Gauge(points) => count := count + |points|;
      case Sum(points) => count := count + |points|;
      case Histogram(points) => count := count + |points|;
      case ExponentialHistogram(points) => count := count + |points|;
      case Summary(points) => count := count + |points|;
      case Empty =>
    }
  }

  method CountResourceMetricPoints(rm: ResourceMetrics) returns (count: nat)
    ensures count == PointSize()(rm)
  {
    count := 0;
    TakeBounds(rm.scopeMetrics);
    for i := 0 to |rm.scopeMetrics|
      invariant count == Total(ScopePoints(), rm.scopeMetrics[..i])
    {
      TakeNext(rm.scopeMetrics, i);
      var points := CountPoints(rm.scopeMetrics[i]);
      count := count + points;
    }
  }

  method CountLogRecords(batch: seq<ResourceLogs>) returns (count: nat)
    ensures count == Total(LogSize(), batch)
  {
    count := 0;
    TakeBounds(batch);
    for i := 0 to |batch|
      invariant count == Total(LogSize(), batch[..i])
    {
      TakeNext(batch, i);
      var more := CountResourceLogRecords(batch[i]);
      count := count + more;
    }
  }

  method CountSpans(batch: seq<ResourceSpans>) returns (count: nat)
    ensures count == Total(SpanSize(), batch)
  {
    count := 0;
    TakeBounds(batch);
    for i := 0 to |batch|
      invariant count == Total(SpanSize(), batch[..i])
    {
      TakeNext(batch, i);
      var more := CountResourceSpans(batch[i]);
      count := count + more;
    }
  }

  method CountMetricPoints(batch: seq<ResourceMetrics>) returns (count: nat)
    ensures count == Total(PointSize(), batch)
  {
    count := 0;
    TakeBounds(batch);
    for i := 0 to |batch|
      invariant count == Total(PointSize(), batch[..i])
    {
      TakeNext(batch, i);
      var more := CountResourceMetricPoints(batch[i]);
      count := count + more;
    }
  }

  // ---------------------------------------------------------------- grouping

  /** The handlers among an answer. */
  ghost function HandlersIn(signal: Signal, answer: seq<Component>): set<Component> {
    set k | 0 <= k < |answer| && answer[k].Handles(signal) :: answer[k]
  }

  /** The batches built so far: those of the resources done, and of part of the answer for r. */
  ghost predicate Grouped<R>(signal: Signal, resources: seq<R>, answers: seq<seq<Component>>,
                             r: R, part: seq<Component>, groups: map<Component, seq<R>>)
    requires |resources| == |answers|
  {
    && groups.Keys == Recipients(signal, answers) + HandlersIn(signal, part)
    && forall c :: c in groups ==> groups[c] == BatchFor(c, resources, answers) + Repeat(r, Times(part, c))
  }

  lemma HandlersNext(signal: Signal, part: seq<Component>, c: Component)
    ensures HandlersIn(signal, part + [c]) == HandlersIn(signal, part) + if c.Handles(signal) then {c} else {}
  {
    var more := part + [c];
    assert more[|part|] == c && forall k :: 0 <= k < |part| ==> more[k] == part[k];
  }

  lemma TimesNext(part: seq<Component>, c: Component, d: Component)
    ensures Times(part + [c], d) == Times(part, d) + if d == c then 1 else 0
  {
  }

  lemma {:induction false} NotRecipient<R>(signal: Signal, resources: seq<R>, answers: seq<seq<Component>>,
                                           c: Component)
    requires |resources| == |answers| && c.Handles(signal) && c !in Recipients(signal, answers)
    ensures BatchFor(c, resources, answers) == []
  {
    if |resources| == 0 {
    } else {
      var n := |resources| - 1;
      assert forall i :: 0 <= i < n ==> answers[..n][i] == answers[i];
      NotRecipient(signal, resources[..n], answers[..n], c);
      assert forall k :: 0 <= k < |answers[n]| && answers[n][k].Handles(signal) ==>
          answers[n][k] in Recipients(signal, answers);
      assert Repeat(resources[n], 0) == [];
    }
  }

  lemma NotInPart(signal: Signal, part: seq<Component>, c: Component)
    requires c.Handles(signal) && c !in HandlersIn(signal, part)
    ensures Times(part, c) == 0
  {
    assert forall k :: 0 <= k < |part| && part[k].Handles(signal) ==> part[k] in HandlersIn(signal, part);
  }

  lemma GroupBatch<R>(signal: Signal, resources: seq<R>, answers: seq<seq<Component>>,
                      r: R, part: seq<Component>, groups: map<Component, seq<R>>, c: Component)
    requires |resources| == |answers| && Grouped(signal, resources, answers, r, part, groups) && c.Handles(signal)
    ensures ListAt(groups, c) + [r] == BatchFor(c, resources, answers) + Repeat(r, Times(part, c) + 1)
  {
    var n := Times(part, c);
    RepeatSnoc(r, n + 1);
    ConcatAssociative(BatchFor(c, resources, answers), Repeat(r, n), [r]);
    if c !in groups {
      NotRecipient(signal, resources, answers, c);
      NotInPart(signal, part, c);
      assert Repeat(r, 0) == [];
    }
  }

  lemma GroupedAt<R>(signal: Signal, resources: seq<R>, answers: seq<seq<Component>>,
                     r: R, part: seq<Component>, groups: map<Component, seq<R>>, d: Component)
    requires |resources| == |answers| && Grouped(signal, resources, answers, r, part, groups) && d in groups
    ensures groups[d] == BatchFor(d, resources, answers) + Repeat(r, Times(part, d)) && d.Handles(signal)
  {
  }

  lemma GroupedAll<R>(signal: Signal, resources: seq<R>, answers: seq<seq<Component>>,
                      r: R, part: seq<Component>, groups: map<Component, seq<R>>)
    requires |resources| == |answers|
    requires groups.Keys == Recipients(signal, answers) + HandlersIn(signal, part)
    requires forall d :: d in groups ==> groups[d] == BatchFor(d, resources, answers) + Repeat(r, Times(part, d))
    ensures Grouped(signal, resources, answers, r, part, groups)
  {
  }

  /** Copying r to one more component of its answer. */
  lemma GroupCopy<R>(signal: Signal, resources: seq<R>, answers: seq<seq<Component>>,
                     r: R, part: seq<Component>, groups: map<Component, seq<R>>, c: Component)
    requires |resources| == |answers| && Grouped(signal, resources, answers, r, part, groups) && c.Handles(signal)
    ensures Grouped(signal, resources, answers, r, part + [c], groups[c := ListAt(groups, c) + [r]])
  {
    var more := groups[c := ListAt(groups, c) + [r]];
    forall d | d in more
      ensures more[d] == BatchFor(d, resources, answers) + Repeat(r, Times(part + [c], d))
    {
      TimesNext(part, c, d);
      if d == c {
        GroupBatch(signal, resources, answers, r, part, groups, c);
      } else {
        GroupedAt(signal, resources, answers, r, part, groups, d);
      }
    }
    HandlersNext(signal, part, c);
    assert more.Keys == groups.Keys + {c};
    GroupedAll(signal, resources, answers, r, part + [c], more);
  }

  /** A component that does not handle the signal is passed over. */
  lemma GroupSkip<R>(signal: Signal, resources: seq<R>, answers: seq<seq<Component>>,
                     r: R, part: seq<Component>, groups: map<Component, seq<R>>, c: Component)
    requires |resources| == |answers| && Grouped(signal, resources, answers, r, part, groups) && !c.Handles(signal)
    ensures Grouped(signal, resources, answers, r, part + [c], groups)
  {
    HandlersNext(signal, part, c);
    forall d | d in groups ensures Times(part + [c], d) == Times(part, d) {
      TimesNext(part, c, d);
      GroupedAt(signal, resources, answers, r, part, groups, d);
    }
  }

  /** The batches of a whole list of resources. */
  ghost predicate Grouping<R>(signal: Signal, resources: seq<R>, answers: seq<seq<Component>>,
                              groups: map<Component, seq<R>>)
    requires |resources| == |answers|
  {
    && groups.Keys == Recipients(signal, answers)
    && forall c :: c in groups ==> groups[c] == BatchFor(c, resources, answers)
  }

  lemma GroupStart<R>(signal: Signal, resources: seq<R>, answers: seq<seq<Component>>, r: R,
                      groups: map<Component, seq<R>>)
    requires |resources| == |answers|
    ensures Grouped(signal, resources, answers, r, [], groups) <==> Grouping(signal, resources, answers, groups)
  {
    assert Repeat(r, 0) == [];
    assert forall c :: Times([], c) == 0;
    assert forall c :: BatchFor(c, resources, answers) + [] == BatchFor(c, resources, answers);
  }

  /** With the whole answer copied, one more resource is grouped. */
  lemma GroupEnd<R>(signal: Signal, resources: seq<R>, answers: seq<seq<Component>>, i: nat,
                    groups: map<Component, seq<R>>)
    requires |resources| == |answers| && i < |resources|
    requires Grouped(signal, resources[..i], answers[..i], resources[i], answers[i], groups)
    ensures Grouping(signal, resources[..i + 1], answers[..i + 1], groups)
  {
    TakeNext(resources, i);
    TakeNext(answers, i);
    RecipientsNext(signal, answers, i);
  }

  lemma RecipientsNext(signal: Signal, answers: seq<seq<Component>>, i: nat)
    requires i < |answers|
    ensures Recipients(signal, answers[..i + 1]) == Recipients(signal, answers[..i]) + HandlersIn(signal, answers[i])
  {
    var before, after := answers[..i], answers[..i + 1];
    assert after[i] == answers[i] && forall j :: 0 <= j < i ==> after[j] == before[j];
    forall c | c in Recipients(signal, before) ensures c in Recipients(signal, after) {
      var j, k :| 0 <= j < |before| && 0 <= k < |before[j]| && before[j][k].Handles(signal) && before[j][k] == c;
      assert after[j][k] == c;
    }
    forall c | c in HandlersIn(signal, answers[i]) ensures c in Recipients(signal, after) {
      var k :| 0 <= k < |answers[i]| && answers[i][k].Handles(signal) && answers[i][k] == c;
      assert after[i][k] == c;
    }
  }

  lemma FateNext<R>(fate: Fate, signal: Signal, resources: seq<R>, answers: seq<seq<Component>>, i: nat)
    requires |resources| == |answers| && i < |resources|
    ensures WithFate(fate, signal, resources[..i + 1], answers[..i + 1]) ==
            WithFate(fate, signal, resources[..i], answers[..i])
            + if FateOf(answers[i], signal) == fate then [resources[i]] else []
  {
    TakeNext(resources, i);
    TakeNext(answers, i);
  }

  // ---------------------------------------------------------------- sending

  /** Sends made from groups so far, when those of left are still to be made. */
  ghost predicate SentFrom<R>(groups: map<Component, seq<R>>, left: set<Component>, sends: seq<Send<R>>) {
    && TargetSet(sends) == groups.Keys - left
    && (forall i, j :: 0 <= i < j < |sends| ==> sends[i].to != sends[j].to)
    && (forall i :: 0 <= i < |sends| ==> sends[i].to in groups && sends[i].batch == groups[sends[i].to])
  }

  lemma SentOneMore<R>(groups: map<Component, seq<R>>, left: set<Component>, sends: seq<Send<R>>, c: Component,
                       ok: bool)
    requires SentFrom(groups, left, sends) && c in left && c in groups
    ensures SentFrom(groups, left - {c}, sends + [Send(c, groups[c], ok)])
    ensures Failures(sends + [Send(c, groups[c], ok)]) == Failures(sends) + if ok then 0 else 1
  {
    var more := sends + [Send(c, groups[c], ok)];
    assert more[..|sends|] == sends && more[|sends|].to == c;
    assert forall i :: 0 <= i < |sends| ==> more[i] == sends[i];
    forall i | 0 <= i < |sends| ensures sends[i].to in TargetSet(sends) {
      TargetIsIn(sends, i);
    }
    assert groups.Keys - (left - {c}) == groups.Keys - left + {c};
  }

  lemma {:induction false} TargetIsIn<R>(sends: seq<Send<R>>, i: nat)
    requires i < |sends|
    ensures sends[i].to in TargetSet(sends)
  {
    if i + 1 == |sends| {
    } else {
      TargetIsIn(sends[..|sends| - 1], i);
    }
  }

  lemma {:induction false} TargetIsAt<R>(sends: seq<Send<R>>, c: Component) returns (i: nat)
    requires c in TargetSet(sends)
    ensures i < |sends| && sends[i].to == c
  {
    var n := |sends| - 1;
    if sends[n].to == c {
      i := n;
    } else {
      i := TargetIsAt(sends[..n], c);
    }
  }

  lemma NothingSent<R>(groups: map<Component, seq<R>>, left: set<Component>)
    requires groups.Keys <= left
    ensures SentFrom(groups, left, [])
  {
    assert groups.Keys - left == {};
  }

  lemma SentNoMore<R>(groups: map<Component, seq<R>>, left: set<Component>, sends: seq<Send<R>>, c: Component)
    requires SentFrom(groups, left, sends) && c !in groups
    ensures SentFrom(groups, left - {c}, sends)
  {
    assert groups.Keys - (left - {c}) == groups.Keys - left;
  }

  /** The groups of components that handle the signal. */
  ghost function Sendable<R>(signal: Signal, groups: map<Component, seq<R>>): map<Component, seq<R>> {
    map c | c in groups && c.Handles(signal) :: groups[c]
  }

  /** The way out to the exporters of one signal: every export made, in order, with what came of it. */
  class Wire<R> {
    var sent: seq<Send<R>>

    constructor ()
      ensures sent == []
    {
      sent := [];
    }

    /** One external export; whether it succeeds is arbitrary. */
    method Export(to: Component, batch: seq<R>) returns (ok: bool)
      modifies this
      ensures sent == old(sent) + [Send(to, batch, ok)]
    {
      ok := *;
      sent := sent + [Send(to, batch, ok)];
    }
  }

  /** Sends one group and keeps the tally. */
  method SendOne<R>(wire: Wire<R>, ghost start: seq<Send<R>>, ghost groups: map<Component, seq<R>>,
                    ghost left: set<Component>, c: Component, batch: seq<R>, before: seq<Send<R>>, failed: nat)
    returns (sends: seq<Send<R>>, errs: nat)
    requires SentFrom(groups, left, before) && c in left && c in groups && batch == groups[c]
    requires wire.sent == start + before && failed == Failures(before)
    modifies wire
    ensures SentFrom(groups, left - {c}, sends)
    ensures wire.sent == start + sends && errs == Failures(sends)
  {
    var ok := wire.Export(c, batch);
    SentOneMore(groups, left, before, c, ok);
    ConcatAssociative(start, before, [Send(c, batch, ok)]);
    sends, errs := before + [Send(c, batch, ok)], failed;
    if !ok {
      errs := errs + 1;
    }
  }

  /** Sends each group to its exporter, if it handles the signal, in any order. */
  method SendToMatched<R>(wire: Wire<R>, signal: Signal, groups: map<Component, seq<R>>)
    returns (sends: seq<Send<R>>, errs: nat)
    modifies wire
    ensures wire.sent == old(wire.sent) + sends
    ensures SentFrom(Sendable(signal, groups), {}, sends) && errs == Failures(sends)
  {
    sends, errs := [], 0;
    ghost var sendable, start := Sendable(signal, groups), wire.sent;
    ConcatNothing(start);
    NothingSent(sendable, groups.Keys);
    var left := groups.Keys;
    while left != {}
      invariant left <= groups.Keys && SentFrom(sendable, left, sends) && errs == Failures(sends)
      invariant wire.sent == start + sends
      decreases |left|
    {
      var c :| c in left;
      var takes := (c.wrapped && c.Handles(signal)) || TakesDefault(c, signal);
      if takes {
        sends, errs := SendOne(wire, start, sendable, left, c, groups[c], sends, errs);
      } else {
        SentNoMore(sendable, left, sends, c);
      }
      left := left - {c};
    }
  }

  /** The same for metrics, which tells wrapped exporters apart first and drops what it cannot send. */
  method SendMetricsToMatched(wire: Wire<ResourceMetrics>, groups: map<Component, seq<ResourceMetrics>>)
    returns (sends: seq<Send<ResourceMetrics>>, errs: nat)
    modifies wire
    ensures wire.sent == old(wire.sent) + sends
    ensures SentFrom(Sendable(Metrics, groups), {}, sends) && errs == Failures(sends)
  {
    sends, errs := [], 0;
    ghost var sendable, start := Sendable(Metrics, groups), wire.sent;
    ConcatNothing(start);
    NothingSent(sendable, groups.Keys);
    var left := groups.Keys;
    while left != {}
      invariant left <= groups.Keys && SentFrom(sendable, left, sends) && errs == Failures(sends)
      invariant wire.sent == start + sends
      decreases |left|
    {
      var c :| c in left;
      var takes := false;
      if c.wrapped {
        if c.has.metrics {
          takes := true;
        }
      } else if TakesDefault(c, Metrics) {
        takes := true;
      }
      if !takes {
        SentNoMore(sendable, left, sends, c);
        left := left - {c};
        continue;
      }
      sends, errs := SendOne(wire, start, sendable, left, c, groups[c], sends, errs);
      left := left - {c};
    }
  }

  lemma SentToAll<R>(signal: Signal, resources: seq<R>, answers: seq<seq<Component>>, groups: map<Component, seq<R>>,
                     sends: seq<Send<R>>)
    requires |resources| == |answers| && SentFrom(groups, {}, sends)
    requires Grouping(signal, resources, answers, groups)
    ensures SentToRecipients(signal, resources, answers, sends)
  {
    assert groups.Keys - {} == groups.Keys;
  }

  /** The sends made to the default exporters of a prefix of the list. */
  ghost predicate SentDefaults<R>(takers: seq<Component>, unmatched: seq<R>, sends: seq<Send<R>>) {
    && |sends| == |takers|
    && forall i :: 0 <= i < |sends| ==> sends[i].to == takers[i] && sends[i].batch == unmatched
  }

  /** Considering one more default exporter. */
  lemma DefaultsNext<R>(signal: Signal, defaults: seq<Component>, i: nat, unmatched: seq<R>, sends: seq<Send<R>>,
                        ok: bool)
    requires i < |defaults| && SentDefaults(DefaultsFor(signal, defaults[..i]), unmatched, sends)
    ensures SentDefaults(DefaultsFor(signal, defaults[..i + 1]), unmatched,
                         if TakesDefault(defaults[i], signal) then sends + [Send(defaults[i], unmatched, ok)]
                         else sends)
  {
    TakeNext(defaults, i);
    var before, after := DefaultsFor(signal, defaults[..i]), DefaultsFor(signal, defaults[..i + 1]);
    assert after == before + if TakesDefault(defaults[i], signal) then [defaults[i]] else [];
    if TakesDefault(defaults[i], signal) {
      SentDefaultsNext(before, unmatched, sends, defaults[i], ok);
    } else {
      assert after == before;
    }
  }

  lemma SentDefaultsNext<R>(takers: seq<Component>, unmatched: seq<R>, sends: seq<Send<R>>, c: Component, ok: bool)
    requires SentDefaults(takers, unmatched, sends)
    ensures SentDefaults(takers + [c], unmatched, sends + [Send(c, unmatched, ok)])
  {
  }

  lemma SucceededNext<R>(sends: seq<Send<R>>, s: Send<R>)
    ensures AnySucceeded(sends + [s]) <==> AnySucceeded(sends) || s.ok
    ensures Failures(sends + [s]) == Failures(sends) + if s.ok then 0 else 1
  {
    var more := sends + [s];
    assert more[..|sends|] == sends && more[|sends|] == s;
  }

  /** Offers the unmatched batch to one default exporter, keeping the tally. */
  method OfferTo<R>(wire: Wire<R>, c: Component, unmatched: seq<R>, ghost sends: seq<Send<R>>, succeeded: bool,
                    errs: nat)
    returns (ok: bool, succeeded': bool, errs': nat)
    requires succeeded == AnySucceeded(sends) && errs == Failures(sends)
    modifies wire
    ensures wire.sent == old(wire.sent) + [Send(c, unmatched, ok)]
    ensures succeeded' == AnySucceeded(sends + [Send(c, unmatched, ok)])
    ensures errs' == Failures(sends + [Send(c, unmatched, ok)])
  {
    succeeded', errs' := succeeded, errs;
    ok := wire.Export(c, unmatched);
    SucceededNext(sends, Send(c, unmatched, ok));
    if ok {
      succeeded' := true;
    } else {
      errs' := errs + 1;
    }
  }

  /** Offers the unmatched batch to every default exporter that takes the signal. */
  method SendToDefaults<R>(wire: Wire<R>, signal: Signal, defaults: seq<Component>, unmatched: seq<R>)
    returns (sends: seq<Send<R>>, hasExporter: bool, succeeded: bool, errs: nat)
    modifies wire
    ensures wire.sent == old(wire.sent) + sends
    ensures SentDefaults(DefaultsFor(signal, defaults), unmatched, sends)
    ensures hasExporter == (|sends| > 0) && succeeded == AnySucceeded(sends) && errs == Failures(sends)
  {
    sends, hasExporter, succeeded, errs := [], false, false, 0;
    ghost var start := wire.sent;
    ConcatNothing(start);
    TakeBounds(defaults);
    for i := 0 to |defaults|
      invariant SentDefaults(DefaultsFor(signal, defaults[..i]), unmatched, sends)
      invariant hasExporter == (|sends| > 0) && succeeded == AnySucceeded(sends) && errs == Failures(sends)
      invariant wire.sent == start + sends
    {
      var ok := false;
      if TakesDefault(defaults[i], signal) {
        hasExporter := true;
        ok, succeeded, errs := OfferTo(wire, defaults[i], unmatched, sends, succeeded, errs);
        DefaultsNext(signal, defaults, i, unmatched, sends, ok);
        ConcatAssociative(start, sends, [Send(defaults[i], unmatched, ok)]);
        sends := sends + [Send(defaults[i], unmatched, ok)];
      } else {
        DefaultsNext(signal, defaults, i, unmatched, sends, ok);
      }
    }
  }

  /** Offers unmatched logs to the default exporters; `lost` is what none of them took. */
  method OfferUnmatchedLogs(wire: Wire<ResourceLogs>, defaults: seq<Component>, unmatched: seq<ResourceLogs>)
    returns (sends: seq<Send<ResourceLogs>>, lost: nat, errs: nat)
    modifies wire
    ensures wire.sent == old(wire.sent) + sends
    ensures Offered(LogSize(), Logs, defaults, unmatched, sends, lost) && errs == Failures(sends)
  {
    sends, lost, errs := [], 0, 0;
    if |unmatched| > 0 {
      var hasExporter, succeeded;
      sends, hasExporter, succeeded, errs := SendToDefaults(wire, Logs, defaults, unmatched);
      if !hasExporter || !succeeded {
        lost := CountLogRecords(unmatched);
      }
    }
  }

  /** The same for metrics, where having no default exporters is a case of its own. */
  method OfferUnmatchedMetrics(wire: Wire<ResourceMetrics>, defaults: seq<Component>, unmatched: seq<ResourceMetrics>)
    returns (sends: seq<Send<ResourceMetrics>>, lost: nat, errs: nat)
    modifies wire
    ensures wire.sent == old(wire.sent) + sends
    ensures Offered(PointSize(), Metrics, defaults, unmatched, sends, lost) && errs == Failures(sends)
  {
    sends, lost, errs := [], 0, 0;
    if |unmatched| > 0 {
      if |defaults| > 0 {
        var hasExporter, succeeded;
        sends, hasExporter, succeeded, errs := SendToDefaults(wire, Metrics, defaults, unmatched);
        if !hasExporter || !succeeded {
          lost := CountMetricPoints(unmatched);
        }
      } else {
        lost := CountMetricPoints(unmatched);
      }
    }
  }

  /** Offers unmatched traces to the default exporters; `lost` is what none of them took. */
  method OfferUnmatchedTraces(wire: Wire<ResourceSpans>, defaults: seq<Component>, unmatched: seq<ResourceSpans>)
    returns (sends: seq<Send<ResourceSpans>>, lost: nat, errs: nat)
    modifies wire
    ensures wire.sent == old(wire.sent) + sends
    ensures Offered(SpanSize(), Traces, defaults, unmatched, sends, lost) && errs == Failures(sends)
  {
    sends, lost, errs := [], 0, 0;
    if |unmatched| > 0 {
      var hasExporter, succeeded;
      sends, hasExporter, succeeded, errs := SendToDefaults(wire, Traces, defaults, unmatched);
      if !hasExporter || !succeeded {
        lost := CountSpans(unmatched);
      }
    }
  }

  // ---------------------------------------------------------------- the exporter creator

  function AllOf(answers: seq<seq<Component>>): set<Component> {
    set i, k | 0 <= i < |answers| && 0 <= k < |answers[i]| :: answers[i][k]
  }

  /** The batches, the unmatched resources and the lost records of a whole batch of resources. */
  ghost predicate Sorted<R>(size: R -> nat, signal: Signal, resources: seq<R>, answers: seq<seq<Component>>,
                            groups: map<Component, seq<R>>, unmatched: seq<R>, unroutable: int)
    requires |resources| == |answers|
  {
    && Grouping(signal, resources, answers, groups)
    && unmatched == WithFate(Unmatched, signal, resources, answers)
    && unroutable == Total(size, WithFate(Unsupported, signal, resources, answers))
  }

  lemma SortedNext<R>(size: R -> nat, signal: Signal, resources: seq<R>, answers: seq<seq<Component>>, i: nat,
                      before: map<Component, seq<R>>, groups: map<Component, seq<R>>, unmatched: seq<R>,
                      unroutable: int)
    requires |resources| == |answers| && i < |resources|
    requires Sorted(size, signal, resources[..i], answers[..i], before, unmatched, unroutable)
    requires if |answers[i]| > 0 then Grouped(signal, resources[..i], answers[..i], resources[i], answers[i], groups)
        else groups == before
    ensures var fate := FateOf(answers[i], signal);
            Sorted(size, signal, resources[..i + 1], answers[..i + 1], groups,
                   unmatched + (if fate == Unmatched then [resources[i]] else []),
                   unroutable + (if fate == Unsupported then size(resources[i]) else 0))
  {
    FateNext(Unmatched, signal, resources, answers, i);
    FateNext(Unsupported, signal, resources, answers, i);
    RecordsSnoc(size, WithFate(Unsupported, signal, resources[..i], answers[..i]), resources[i]);
    if |answers[i]| == 0 {
      GroupStart(signal, resources[..i], answers[..i], resources[i], groups);
      assert answers[i] == [];
    }
    GroupEnd(signal, resources, answers, i, groups);
  }

  lemma SortedNothing<R>(size: R -> nat, signal: Signal, resources: seq<R>, answers: seq<seq<Component>>)
    requires |resources| == |answers|
    ensures resources[..0] == [] && answers[..0] == [] && Sorted<R>(size, signal, [], [], map[], [], 0)
    ensures resources[..|resources|] == resources && answers[..|answers|] == answers
  {
  }

  /** The unmatched resources were offered to the default exporters, and the records none of them took counted. */
  ghost predicate Offered<R>(size: R -> nat, signal: Signal, defaults: seq<Component>, unmatched: seq<R>,
                             sends: seq<Send<R>>, lost: int) {
    && (if |unmatched| == 0 then sends == [] else SentDefaults(DefaultsFor(signal, defaults), unmatched, sends))
    && lost == if |unmatched| == 0 || AnySucceeded(sends) then 0 else Total(size, unmatched)
  }

  /** What the default exporters were sent, given what was set aside. */
  lemma DefaultsFrom<R>(signal: Signal, defaults: seq<Component>, unmatched: seq<R>, sends: seq<Send<R>>)
    requires if |unmatched| == 0 then sends == [] else SentDefaults(DefaultsFor(signal, defaults), unmatched, sends)
    ensures SentToDefaults(signal, unmatched, defaults, sends)
  {
  }

  /** What was lost, given what was set aside and what no match could take. */
  lemma LostFrom<R>(size: R -> nat, signal: Signal, resources: seq<R>, answers: seq<seq<Component>>,
                    sends: seq<Send<R>>, unmatched: seq<R>, unroutable: int, lost: int)
    requires |resources| == |answers|
    requires unmatched == WithFate(Unmatched, signal, resources, answers)
    requires unroutable == Total(size, WithFate(Unsupported, signal, resources, answers))
    requires lost == unroutable + if |unmatched| == 0 || AnySucceeded(sends) then 0 else Total(size, unmatched)
    ensures lost == Lost(size, signal, resources, answers, sends)
  {
  }

  /** Putting the pieces of a dispatch together. */
  lemma DeliveredFrom<R>(size: R -> nat, signal: Signal, resources: seq<R>, answers: seq<seq<Component>>,
                         defaults: seq<Component>, groups: map<Component, seq<R>>, unmatched: seq<R>, unroutable: int,
                         report: Report<R>)
    requires |resources| == |answers| && Sorted(size, signal, resources, answers, groups, unmatched, unroutable)
    requires SentFrom(groups, {}, report.sends)
    requires Offered(size, signal, defaults, unmatched, report.defaultSends, report.lost - unroutable)
    requires report.failures == Failures(report.sends) + Failures(report.defaultSends)
    ensures Delivered(size, signal, resources, answers, defaults, report)
  {
    SentToAll(signal, resources, answers, groups, report.sends);
    DefaultsFrom(signal, defaults, unmatched, report.defaultSends);
    LostFrom(size, signal, resources, answers, report.defaultSends, unmatched, unroutable, report.lost);
  }

  /** Every group is of a component that handles the signal, so the check before sending drops nothing. */
  lemma GroupsHandle<R>(signal: Signal, resources: seq<R>, answers: seq<seq<Component>>, groups: map<Component, seq<R>>)
    requires |resources| == |answers| && Grouping(signal, resources, answers, groups)
    ensures forall c :: c in groups ==> c.Handles(signal)
  {
  }

  /** Sends grouped logs to their exporters and the unmatched ones to the defaults. */
  method SendLogs(wire: Wire<ResourceLogs>, ghost resources: seq<ResourceLogs>, ghost answers: seq<seq<Component>>,
                  defaults: seq<Component>, groups: map<Component, seq<ResourceLogs>>, unmatched: seq<ResourceLogs>,
                  unroutable: int)
    returns (report: Report<ResourceLogs>)
    requires |resources| == |answers| && Sorted(LogSize(), Logs, resources, answers, groups, unmatched, unroutable)
    modifies wire
    ensures wire.sent == old(wire.sent) + (report.sends + report.defaultSends)
    ensures Delivered(LogSize(), Logs, resources, answers, defaults, report)
  {
    ghost var start := wire.sent;
    GroupsHandle(Logs, resources, answers, groups);
    assert Sendable(Logs, groups) == groups;
    var sends, errs := SendToMatched(wire, Logs, groups);
    var defaultSends, lost, defaultErrs := OfferUnmatchedLogs(wire, defaults, unmatched);
    ConcatAssociative(start, sends, defaultSends);
    report := Report(sends, defaultSends, unroutable + lost, errs + defaultErrs);
    DeliveredFrom(LogSize(), Logs, resources, answers, defaults, groups, unmatched, unroutable, report);
  }

  /** The same for metrics. */
  method SendMetrics(wire: Wire<ResourceMetrics>, ghost resources: seq<ResourceMetrics>,
                     ghost answers: seq<seq<Component>>, defaults: seq<Component>,
                     groups: map<Component, seq<ResourceMetrics>>, unmatched: seq<ResourceMetrics>,
                     unroutableBySignal: int)
    returns (report: Report<ResourceMetrics>)
    requires |resources| == |answers|
        && Sorted(PointSize(), Metrics, resources, answers, groups, unmatched, unroutableBySignal)
    modifies wire
    ensures wire.sent == old(wire.sent) + (report.sends + report.defaultSends)
    ensures Delivered(PointSize(), Metrics, resources, answers, defaults, report)
  {
    ghost var start := wire.sent;
    GroupsHandle(Metrics, resources, answers, groups);
    assert Sendable(Metrics, groups) == groups;
    var sends, errs := SendMetricsToMatched(wire, groups);
    var defaultSends, lost, defaultErrs := OfferUnmatchedMetrics(wire, defaults, unmatched);
    ConcatAssociative(start, sends, defaultSends);
    report := Report(sends, defaultSends, unroutableBySignal + lost, errs + defaultErrs);
    DeliveredFrom(PointSize(), Metrics, resources, answers, defaults, groups, unmatched, unroutableBySignal, report);
  }

  /** The same for traces. */
  method SendTraces(wire: Wire<ResourceSpans>, ghost resources: seq<ResourceSpans>,
                    ghost answers: seq<seq<Component>>, defaults: seq<Component>,
                    groups: map<Component, seq<ResourceSpans>>, unmatched: seq<ResourceSpans>, unroutable: int)
    returns (report: Report<ResourceSpans>)
    requires |resources| == |answers| && Sorted(SpanSize(), Traces, resources, answers, groups, unmatched, unroutable)
    modifies wire
    ensures wire.sent == old(wire.sent) + (report.sends + report.defaultSends)
    ensures Delivered(SpanSize(), Traces, resources, answers, defaults, report)
  {
    ghost var start := wire.sent;
    GroupsHandle(Traces, resources, answers, groups);
    assert Sendable(Traces, groups) == groups;
    var sends, errs := SendToMatched(wire, Traces, groups);
    var defaultSends, lost, defaultErrs := OfferUnmatchedTraces(wire, defaults, unmatched);
    ConcatAssociative(start, sends, defaultSends);
    report := Report(sends, defaultSends, unroutable + lost, errs + defaultErrs);
    DeliveredFrom(SpanSize(), Traces, resources, answers, defaults, groups, unmatched, unroutable, report);
  }

  lemma InAnswers(answers: seq<seq<Component>>, i: nat)
    requires i < |answers|
    ensures AllOf([answers[i]]) <= AllOf(answers)
  {
    var one := [answers[i]];
    forall c | c in AllOf(one) ensures c in AllOf(answers) {
      var k :| 0 <= k < |one[0]| && one[0][k] == c;
      assert answers[i][k] == c;
    }
  }

  lemma InAnswer(answer: seq<Component>, k: nat)
    requires k < |answer|
    ensures answer[k] in AllOf([answer])
  {
    assert [answer][0][k] == answer[k];
  }

  lemma AnyHandlesNext(part: seq<Component>, c: Component, signal: Signal)
    ensures AnyHandles(part + [c], signal) <==> AnyHandles(part, signal) || c.Handles(signal)
  {
    assert (part + [c])[..|part|] == part;
  }

  /** What components remember of the warnings given about them. */
  ghost function WarnedAmong(cs: set<Component>): set<(Component, Signal)>
    reads cs
  {
    set c, s | c in cs && c.Warned(s) :: (c, s)
  }

  /** The warnings an answer calls for: its wrapped exporters that do not handle the signal. */
  ghost function CallsFor(signal: Signal, answer: seq<Component>): set<(Component, Signal)> {
    set k | 0 <= k < |answer| && answer[k].wrapped && !answer[k].Handles(signal) :: (answer[k], signal)
  }

  ghost function AllCallFor(signal: Signal, answers: seq<seq<Component>>): set<(Component, Signal)> {
    if |answers| == 0 then {}
    else AllCallFor(signal, answers[..|answers| - 1]) + CallsFor(signal, answers[|answers| - 1])
  }

  /** A dispatch warns about exactly the wrapped exporters in its answers that lack the signal. */
  lemma {:induction false} AllCallForExactly(signal: Signal, answers: seq<seq<Component>>, c: Component, s: Signal)
    ensures (c, s) in AllCallFor(signal, answers) <==>
              && s == signal && c.wrapped && !c.has.Has(signal)
              && exists i :: 0 <= i < |answers| && c in answers[i]
  {
    if |answers| == 0 {
    } else {
      var n := |answers| - 1;
      AllCallForExactly(signal, answers[..n], c, s);
      assert answers == answers[..n] + [answers[n]];
      if i :| 0 <= i < |answers| && c in answers[i] {
        assert i < n ==> c in answers[..n][i];
      }
      if i :| 0 <= i < n && c in answers[..n][i] {
        assert c in answers[i];
      }
    }
  }

  lemma CallsForNext(signal: Signal, part: seq<Component>, c: Component)
    ensures CallsFor(signal, part + [c])
         == CallsFor(signal, part) + if c.wrapped && !c.Handles(signal) then {(c, signal)} else {}
  {
    var more := part + [c];
    assert more[|part|] == c && forall k :: 0 <= k < |part| ==> more[k] == part[k];
    forall w | w in CallsFor(signal, part) ensures w in CallsFor(signal, more) {
      var k :| 0 <= k < |part| && part[k].wrapped && !part[k].Handles(signal) && w == (part[k], signal);
      assert w == (more[k], signal);
    }
  }

  lemma UnionAssociative<T>(a: set<T>, b: set<T>, c: set<T>)
    ensures a + (b + c) == a + b + c
  {
  }

  lemma AllCallForNext(signal: Signal, answers: seq<seq<Component>>, i: nat)
    requires i < |answers|
    ensures AllCallFor(signal, answers[..i + 1]) == AllCallFor(signal, answers[..i]) + CallsFor(signal, answers[i])
    ensures |answers[i]| == 0 ==> CallsFor(signal, answers[i]) == {}
  {
    TakeNext(answers, i);
  }

  class ExporterCreator {
    const hasRouter: bool
    const reporting: bool
    const defaults: seq<Component>
    const logsWire: Wire<ResourceLogs>
    const metricsWire: Wire<ResourceMetrics>
    const tracesWire: Wire<ResourceSpans>
    var nonRoutableLogRecords: int
    var nonRoutableMetricPoints: int
    var nonRoutableSpans: int
    var warnings: seq<(Component, Signal)>

    /** Each warning was given once, and its exporter remembers it. */
    ghost predicate WarnedOnce()
      reads this, set i | 0 <= i < |warnings| :: warnings[i].0
    {
      && (forall i :: 0 <= i < |warnings| ==> warnings[i].0.Warned(warnings[i].1))
      && (forall i, j :: 0 <= i < j < |warnings| ==> warnings[i] != warnings[j])
    }

    constructor (hasRouter: bool, reporting: bool, defaults: seq<Component>)
      ensures WarnedOnce() && warnings == []
      ensures this.hasRouter == hasRouter && this.reporting == reporting && this.defaults == defaults
      ensures nonRoutableLogRecords == 0 && nonRoutableMetricPoints == 0 && nonRoutableSpans == 0
      ensures fresh(logsWire) && fresh(metricsWire) && fresh(tracesWire)
      ensures logsWire.sent == [] && metricsWire.sent == [] && tracesWire.sent == []
    {
      this.hasRouter, this.reporting, this.defaults := hasRouter, reporting, defaults;
      logsWire := new Wire();
      metricsWire := new Wire();
      tracesWire := new Wire();
      nonRoutableLogRecords, nonRoutableMetricPoints, nonRoutableSpans, warnings := 0, 0, 0, [];
    }

    /** Reports, once per wrapped exporter and signal, that it cannot handle the signal. */
    method WarnUnsupportedSignal(c: Component, signal: Signal, ghost cs: set<Component>)
      requires WarnedOnce() && c in cs
      modifies this`warnings, c
      ensures WarnedOnce()
      ensures WarnedAmong(cs) == old(WarnedAmong(cs)) + if c.wrapped then {(c, signal)} else {}
      ensures warnings == old(warnings) + if c.wrapped && !old(c.Warned(signal)) then [(c, signal)] else []
    {
      if !c.wrapped {
        return;
      }
      var first := c.FirstUnsupported(signal);
      if first {
        warnings := warnings + [(c, signal)];
      }
    }

    /** Copies a matched resource to one component's batch, or warns that it does not handle the signal. */
    method GroupOne<R>(signal: Signal, ghost resources: seq<R>, ghost answers: seq<seq<Component>>, r: R,
                       ghost part: seq<Component>, c: Component, before: map<Component, seq<R>>,
                       ghost cs: set<Component>)
      returns (groups: map<Component, seq<R>>, takes: bool)
      requires WarnedOnce() && c in cs
      requires |resources| == |answers| && Grouped(signal, resources, answers, r, part, before)
      modifies this`warnings, c
      ensures WarnedOnce() && takes == c.Handles(signal)
      ensures Grouped(signal, resources, answers, r, part + [c], groups)
      ensures WarnedAmong(cs) == old(WarnedAmong(cs)) + if c.wrapped && !takes then {(c, signal)} else {}
    {
      takes := (c.wrapped && c.Handles(signal)) || TakesDefault(c, signal);
      if !takes {
        GroupSkip(signal, resources, answers, r, part, before, c);
        WarnUnsupportedSignal(c, signal, cs);
        return before, false;
      }
      GroupCopy(signal, resources, answers, r, part, before, c);
      groups := before[c := ListAt(before, c) + [r]];
    }

    /** Copies a matched resource to the batch of each component of its answer that handles the signal. */
    method GroupMatched<R>(signal: Signal, ghost resources: seq<R>, ghost answers: seq<seq<Component>>,
                           r: R, answer: seq<Component>, before: map<Component, seq<R>>, ghost cs: set<Component>)
      returns (groups: map<Component, seq<R>>, accepted: bool)
      requires WarnedOnce() && AllOf([answer]) <= cs
      requires |resources| == |answers| && Grouped(signal, resources, answers, r, [], before)
      modifies this`warnings, AllOf([answer])
      ensures WarnedOnce()
      ensures Grouped(signal, resources, answers, r, answer, groups)
      ensures accepted == AnyHandles(answer, signal)
      ensures WarnedAmong(cs) == old(WarnedAmong(cs)) + CallsFor(signal, answer)
    {
      groups, accepted := before, false;
      ghost var told := WarnedAmong(cs);
      TakeBounds(answer);
      for k := 0 to |answer|
        invariant WarnedOnce()
        invariant Grouped(signal, resources, answers, r, answer[..k], groups)
        invariant accepted == AnyHandles(answer[..k], signal)
        invariant WarnedAmong(cs) == told + CallsFor(signal, answer[..k])
      {
        var c := answer[k];
        TakeNext(answer, k);
        InAnswer(answer, k);
        AnyHandlesNext(answer[..k], c, signal);
        CallsForNext(signal, answer[..k], c);
        var takes;
        groups, takes := GroupOne(signal, resources, answers, r, answer[..k], c, groups, cs);
        if takes {
          accepted := true;
        }
      }
    }

    /** Groups one more resource, or sets it aside, or counts it as one no match could take. */
    method GroupNext<R>(signal: Signal, size: R -> nat, resources: seq<R>, answers: seq<seq<Component>>, i: nat,
                        before: map<Component, seq<R>>, aside: seq<R>, counted: int, ghost cs: set<Component>)
      returns (groups: map<Component, seq<R>>, unmatched: seq<R>, unroutable: int)
      requires WarnedOnce() && |resources| == |answers| && i < |resources| && cs == AllOf(answers)
      requires Sorted(size, signal, resources[..i], answers[..i], before, aside, counted)
      modifies this`warnings, AllOf(answers)
      ensures WarnedOnce()
      ensures Sorted(size, signal, resources[..i + 1], answers[..i + 1], groups, unmatched, unroutable)
      ensures WarnedAmong(cs) == old(WarnedAmong(cs)) + CallsFor(signal, answers[i])
    {
      groups, unmatched, unroutable := before, aside, counted;
      if |answers[i]| > 0 {
        InAnswers(answers, i);
        GroupStart(signal, resources[..i], answers[..i], resources[i], before);
        var accepted;
        groups, accepted := GroupMatched(signal, resources[..i], answers[..i], resources[i], answers[i], before, cs);
        SortedNext(size, signal, resources, answers, i, before, groups, aside, counted);
        if !accepted {
          unroutable := counted + size(resources[i]);
        }
      } else {
        SortedNext(size, signal, resources, answers, i, before, groups, aside, counted);
        unmatched := aside + [resources[i]];
      }
    }

    /** Groups a batch by recipient, setting the unmatched aside and counting what no match could take. */
    method GroupAll<R>(signal: Signal, size: R -> nat, resources: seq<R>, answers: seq<seq<Component>>)
      returns (groups: map<Component, seq<R>>, unmatched: seq<R>, unroutable: int)
      requires WarnedOnce() && |resources| == |answers|
      modifies this`warnings, AllOf(answers)
      ensures WarnedOnce()
      ensures Sorted(size, signal, resources, answers, groups, unmatched, unroutable)
      ensures WarnedAmong(AllOf(answers)) == old(WarnedAmong(AllOf(answers))) + AllCallFor(signal, answers)
    {
      groups, unmatched, unroutable := map[], [], 0;
      ghost var cs := AllOf(answers);
      ghost var told := WarnedAmong(cs);
      SortedNothing(size, signal, resources, answers);
      for i := 0 to |resources|
        invariant WarnedOnce()
        invariant Sorted(size, signal, resources[..i], answers[..i], groups, unmatched, unroutable)
        invariant WarnedAmong(cs) == told + AllCallFor(signal, answers[..i])
      {
        AllCallForNext(signal, answers, i);
        UnionAssociative(told, AllCallFor(signal, answers[..i]), CallsFor(signal, answers[i]));
        groups, unmatched, unroutable :=
          GroupNext(signal, size, resources, answers, i, groups, unmatched, unroutable, cs);
      }
    }

    method DispatchLogs(resources: seq<ResourceLogs>, answers: seq<seq<Component>>)
      returns (report: Report<ResourceLogs>)
      requires WarnedOnce() && |resources| == |answers|
      modifies this`warnings, logsWire, AllOf(answers)
      ensures logsWire.sent == old(logsWire.sent) + (report.sends + report.defaultSends)
      ensures WarnedOnce() && Delivered(LogSize(), Logs, resources, answers, defaults, report)
      ensures WarnedAmong(AllOf(answers)) == old(WarnedAmong(AllOf(answers))) + AllCallFor(Logs, answers)
    {
      var groups, unmatched, unroutable := GroupAll(Logs, LogSize(), resources, answers);
      report := SendLogs(logsWire, resources, answers, defaults, groups, unmatched, unroutable);
    }

    /** Dispatches logs; reports an error exactly when an export failed. */
    method ConsumeLogs(resources: seq<ResourceLogs>, answers: seq<seq<Component>>)
      returns (report: Report<ResourceLogs>, ok: bool)
      requires WarnedOnce() && |resources| == |answers|
      modifies this`warnings, this`nonRoutableLogRecords, logsWire, AllOf(answers)
      ensures logsWire.sent == old(logsWire.sent) + (report.sends + report.defaultSends)
      ensures WarnedOnce()
      ensures Consumed(hasRouter, LogSize(), Logs, resources, answers, defaults, report)
      ensures hasRouter ==> WarnedAmong(AllOf(answers)) == old(WarnedAmong(AllOf(answers))) + AllCallFor(Logs, answers)
      ensures nonRoutableLogRecords == old(nonRoutableLogRecords) + (if reporting then report.lost else 0)
      ensures ok == (report.failures == 0)
    {
      if !hasRouter {
        ConcatNothing(logsWire.sent);
        return Report([], [], 0, 0), true;
      }
      report := DispatchLogs(resources, answers);
      if report.lost > 0 && reporting {
        nonRoutableLogRecords := nonRoutableLogRecords + report.lost;
      }
      ok := report.failures == 0;
    }

    method DispatchMetrics(resources: seq<ResourceMetrics>, answers: seq<seq<Component>>)
      returns (report: Report<ResourceMetrics>)
      requires WarnedOnce() && |resources| == |answers|
      modifies this`warnings, metricsWire, AllOf(answers)
      ensures metricsWire.sent == old(metricsWire.sent) + (report.sends + report.defaultSends)
      ensures WarnedOnce() && Delivered(PointSize(), Metrics, resources, answers, defaults, report)
      ensures WarnedAmong(AllOf(answers)) == old(WarnedAmong(AllOf(answers))) + AllCallFor(Metrics, answers)
    {
      var groups, unmatched, unroutableBySignal := GroupAll(Metrics, PointSize(), resources, answers);
      report := SendMetrics(metricsWire, resources, answers, defaults, groups, unmatched, unroutableBySignal);
    }

    /**
     Dispatches metrics, with its own branches: points no match could take are counted apart, and no defaults
     is a case of its own.
     */
    method ConsumeMetrics(resources: seq<ResourceMetrics>, answers: seq<seq<Component>>)
      returns (report: Report<ResourceMetrics>, ok: bool)
      requires WarnedOnce() && |resources| == |answers|
      modifies this`warnings, this`nonRoutableMetricPoints, metricsWire, AllOf(answers)
      ensures metricsWire.sent == old(metricsWire.sent) + (report.sends + report.defaultSends)
      ensures WarnedOnce()
      ensures Consumed(hasRouter, PointSize(), Metrics, resources, answers, defaults, report)
      ensures hasRouter ==>
          WarnedAmong(AllOf(answers)) == old(WarnedAmong(AllOf(answers))) + AllCallFor(Metrics, answers)
      ensures nonRoutableMetricPoints == old(nonRoutableMetricPoints) + (if reporting then report.lost else 0)
      ensures ok == (report.failures == 0)
    {
      if !hasRouter {
        ConcatNothing(metricsWire.sent);
        return Report([], [], 0, 0), true;
      }
      report := DispatchMetrics(resources, answers);
      if report.lost > 0 {
        if reporting {
          nonRoutableMetricPoints := nonRoutableMetricPoints + report.lost;
        }
      }
      ok := report.failures == 0;
    }

    method DispatchTraces(resources: seq<ResourceSpans>, answers: seq<seq<Component>>)
      returns (report: Report<ResourceSpans>)
      requires WarnedOnce() && |resources| == |answers|
      modifies this`warnings, tracesWire, AllOf(answers)
      ensures tracesWire.sent == old(tracesWire.sent) + (report.sends + report.defaultSends)
      ensures WarnedOnce() && Delivered(SpanSize(), Traces, resources, answers, defaults, report)
      ensures WarnedAmong(AllOf(answers)) == old(WarnedAmong(AllOf(answers))) + AllCallFor(Traces, answers)
    {
      var groups, unmatched, unroutable := GroupAll(Traces, SpanSize(), resources, answers);
      report := SendTraces(tracesWire, resources, answers, defaults, groups, unmatched, unroutable);
    }

    /** Dispatches traces; reports an error exactly when an export failed. */
    method ConsumeTraces(resources: seq<ResourceSpans>, answers: seq<seq<Component>>)
      returns (report: Report<ResourceSpans>, ok: bool)
      requires WarnedOnce() && |resources| == |answers|
      modifies this`warnings, this`nonRoutableSpans, tracesWire, AllOf(answers)
      ensures tracesWire.sent == old(tracesWire.sent) + (report.sends + report.defaultSends)
      ensures WarnedOnce()
      ensures Consumed(hasRouter, SpanSize(), Traces, resources, answers, defaults, report)
      ensures hasRouter ==>
          WarnedAmong(AllOf(answers)) == old(WarnedAmong(AllOf(answers))) + AllCallFor(Traces, answers)
      ensures nonRoutableSpans == old(nonRoutableSpans) + (if reporting then report.lost else 0)
      ensures ok == (report.failures == 0)
    {
      if !hasRouter {
        ConcatNothing(tracesWire.sent);
        return Report([], [], 0, 0), true;
      }
      report := DispatchTraces(resources, answers);
      if report.lost > 0 && reporting {
        nonRoutableSpans := nonRoutableSpans + report.lost;
      }
      ok := report.failures == 0;
    }
  }
}
