/**
 From endpoint to export: what the handler's history says a consumed batch is sent to whom.

 Dispatch is proved for any answers of the router, and the router's answers are proved of any
 history of the handler. Here the two are put together, with a history of its own for each resource,
 since the handler may be at work while a batch is dispatched.
 */
module Delivery {
  import opened Base
  import opened Values
  import opened Telemetry
  import opened Router
  import opened History
  import opened Lifecycle
  import opened Dispatch

  /** The routing of one resource: what the handler kept at the time, and the handles Route returned. */
  datatype Routing = Routing(view: View, attributes: Attributes, out: seq<Handle>)

  /** Rules, render function and handler settings. */
  datatype Setup = Setup(setting: Setting, rules: seq<Rule>, render: Value -> Bytes)

  /** How often routing the resource returns h. */
  ghost function Asked(s: Setup, r: Routing, h: Handle): int {
    Answer(r.view.router.exporters, s.rules, r.attributes, s.render, h)
  }

  ghost predicate Routed(s: Setup, r: Routing) {
    Agrees(s.setting, r.view) && forall h :: multiset(r.out)[h] == Asked(s, r, h)
  }

  /** The exporter was started for an endpoint, not removed since, whose properties satisfy every rule. */
  ghost predicate Due(s: Setup, r: Routing, h: Handle) {
    HeldMatch(s.setting, r.view.log, s.rules, r.attributes, s.render, h)
  }

  /** The wrapped exporters behind the handles; each has the signals it was created for. */
  ghost predicate Wires(components: map<Handle, Component>, log: Log) {
    forall i :: 0 <= i < |log| && log[i].Started? ==>
      && log[i].handle in components
      && components[log[i].handle].wrapped && components[log[i].handle].has == log[i].capabilities
  }

  ghost predicate Injective(components: map<Handle, Component>) {
    forall a, b :: a in components && b in components && components[a] == components[b] ==> a == b
  }

  /** What Route returned, as components. */
  ghost predicate AnswersAs(components: map<Handle, Component>, out: seq<Handle>, answer: seq<Component>) {
    && |answer| == |out|
    && forall k :: 0 <= k < |out| ==> out[k] in components && answer[k] == components[out[k]]
  }

  lemma RoutedOnce(s: Setup, r: Routing, h: Handle)
    requires Routed(s, r)
    ensures multiset(r.out)[h] == if Due(s, r, h) then 1 else 0
  {
    RoutedExactly(s.setting, r.view, s.rules, r.attributes, s.render, h);
  }

  lemma {:induction false} TimesOfHandle(components: map<Handle, Component>, out: seq<Handle>, answer: seq<Component>,
                                         h: Handle)
    requires AnswersAs(components, out, answer) && Injective(components) && h in components
    ensures Times(answer, components[h]) == multiset(out)[h]
  {
    if |out| == 0 {
      assert answer == [];
    } else {
      var n := |out| - 1;
      TimesOfHandle(components, out[..n], answer[..n], h);
      assert out == out[..n] + [out[n]] && answer == answer[..n] + [answer[n]];
    }
  }

  /** The resources an exporter is due, in order. */
  ghost function DueTo<R>(s: Setup, routings: seq<Routing>, resources: seq<R>, h: Handle): seq<R>
    requires |routings| == |resources|
  {
    if |resources| == 0 then []
    else
      var n := |resources| - 1;
      DueTo(s, routings[..n], resources[..n], h) + if Due(s, routings[n], h) then [resources[n]] else []
  }

  /** What an exporter is due: the resources it is due, each once and in order. */
  lemma {:induction false} DueToExactly<R>(s: Setup, routings: seq<Routing>, resources: seq<R>, h: Handle,
                                           times: seq<nat>)
    requires |times| == |routings| == |resources|
    requires forall i :: 0 <= i < |times| ==> times[i] == if Due(s, routings[i], h) then 1 else 0
    ensures DueTo(s, routings, resources, h) == Chosen(resources, times)
  {
    if |resources| == 0 {
    } else {
      var n := |resources| - 1;
      DueToExactly(s, routings[..n], resources[..n], h, times[..n]);
      RepeatOnce(resources[n], Due(s, routings[n], h));
    }
  }

  /** Every resource was routed, and answered with the wrapped exporters of the handles returned. */
  ghost predicate AllRouted<R>(s: Setup, components: map<Handle, Component>, routings: seq<Routing>,
                               resources: seq<R>, answers: seq<seq<Component>>) {
    && |routings| == |resources| == |answers| && Injective(components)
    && forall i :: 0 <= i < |routings| ==>
         && Routed(s, routings[i]) && Wires(components, routings[i].view.log)
         && AnswersAs(components, routings[i].out, answers[i])
  }

  lemma AllRoutedBefore<R>(s: Setup, components: map<Handle, Component>, routings: seq<Routing>,
                           resources: seq<R>, answers: seq<seq<Component>>)
    requires AllRouted(s, components, routings, resources, answers) && |resources| > 0
    ensures var n := |resources| - 1; AllRouted(s, components, routings[..n], resources[..n], answers[..n])
  {
  }

  lemma {:induction false} BatchIsDue<R>(s: Setup, components: map<Handle, Component>, routings: seq<Routing>,
                                         resources: seq<R>, answers: seq<seq<Component>>, h: Handle)
    requires AllRouted(s, components, routings, resources, answers) && h in components
    ensures BatchFor(components[h], resources, answers) == DueTo(s, routings, resources, h)
  {
    if |resources| == 0 {
    } else {
      var n := |resources| - 1;
      AllRoutedBefore(s, components, routings, resources, answers);
      BatchIsDue(s, components, routings[..n], resources[..n], answers[..n], h);
      ShareIsDue(s, components, routings, resources, answers, n, h);
    }
  }

  /** What a resource adds to an exporter's batch. */
  lemma ShareIsDue<R>(s: Setup, components: map<Handle, Component>, routings: seq<Routing>,
                      resources: seq<R>, answers: seq<seq<Component>>, n: nat, h: Handle)
    requires AllRouted(s, components, routings, resources, answers) && h in components && n < |resources|
    ensures Repeat(resources[n], Times(answers[n], components[h]))
         == if Due(s, routings[n], h) then [resources[n]] else []
  {
    RoutedOnce(s, routings[n], h);
    TimesOfHandle(components, routings[n].out, answers[n], h);
  }

  /** What Route answers for a resource is the exporters due it, and no other. */
  lemma AnswerIsDue<R>(s: Setup, components: map<Handle, Component>, routings: seq<Routing>,
                       resources: seq<R>, answers: seq<seq<Component>>, i: nat, h: Handle)
    requires AllRouted(s, components, routings, resources, answers) && i < |answers| && h in components
    ensures components[h] in answers[i] <==> Due(s, routings[i], h)
  {
    RoutedOnce(s, routings[i], h);
    TimesOfHandle(components, routings[i].out, answers[i], h);
    assert components[h] in answers[i] <==> multiset(answers[i])[components[h]] > 0;
  }

  lemma RecipientIsDue<R>(s: Setup, components: map<Handle, Component>, routings: seq<Routing>,
                          resources: seq<R>, answers: seq<seq<Component>>, signal: Signal, h: Handle)
    requires AllRouted(s, components, routings, resources, answers) && h in components
    ensures components[h] in Recipients(signal, answers) <==>
              components[h].has.Has(signal) && exists i :: 0 <= i < |routings| && Due(s, routings[i], h)
  {
    var c := components[h];
    if c in Recipients(signal, answers) {
      var i, k :| 0 <= i < |answers| && 0 <= k < |answers[i]| && answers[i][k].Handles(signal) && answers[i][k] == c;
      AnswerIsDue(s, components, routings, resources, answers, i, h);
    }
    if i :| 0 <= i < |routings| && Due(s, routings[i], h) && c.has.Has(signal) {
      AnswerIsDue(s, components, routings, resources, answers, i, h);
      var k :| 0 <= k < |answers[i]| && answers[i][k] == c;
      assert answers[i][k].Handles(signal);
    }
  }

  /**
   End to end: a consumed batch goes to exactly the exporters that were started with the signal for
   an endpoint, not removed since, whose properties match some resource; and each of them is sent
   the resources it matches, once each and in order.
   */
  lemma DeliveredToDue<R>(s: Setup, components: map<Handle, Component>, routings: seq<Routing>,
                          size: R -> nat, signal: Signal, resources: seq<R>, answers: seq<seq<Component>>,
                          defaults: seq<Component>, report: Report<R>)
    requires AllRouted(s, components, routings, resources, answers)
    requires Delivered(size, signal, resources, answers, defaults, report)
    ensures forall h :: h in components ==>
              (components[h] in TargetSet(report.sends) <==>
                 components[h].has.Has(signal) && exists i :: 0 <= i < |routings| && Due(s, routings[i], h))
    ensures forall k :: 0 <= k < |report.sends| ==>
              exists h :: h in components && report.sends[k].to == components[h]
                       && report.sends[k].batch == DueTo(s, routings, resources, h)
  {
    forall h | h in components
      ensures components[h] in TargetSet(report.sends) <==>
                components[h].has.Has(signal) && exists i :: 0 <= i < |routings| && Due(s, routings[i], h)
    {
      RecipientIsDue(s, components, routings, resources, answers, signal, h);
    }
    forall k | 0 <= k < |report.sends|
      ensures exists h :: h in components && report.sends[k].to == components[h]
                       && report.sends[k].batch == DueTo(s, routings, resources, h)
    {
      TargetIsIn(report.sends, k);
      var h := HandleOfRecipient(s, components, routings, resources, answers, signal, report.sends[k].to);
      BatchIsDue(s, components, routings, resources, answers, h);
    }
  }

  lemma HandleOfRecipient<R>(s: Setup, components: map<Handle, Component>, routings: seq<Routing>,
                             resources: seq<R>, answers: seq<seq<Component>>, signal: Signal, c: Component)
    returns (h: Handle)
    requires AllRouted(s, components, routings, resources, answers) && c in Recipients(signal, answers)
    ensures h in components && components[h] == c
  {
    var i, k :| 0 <= i < |answers| && 0 <= k < |answers[i]| && answers[i][k].Handles(signal) && answers[i][k] == c;
    h := routings[i].out[k];
  }

  lemma AnsweredHandle<R>(s: Setup, components: map<Handle, Component>, routings: seq<Routing>,
                          resources: seq<R>, answers: seq<seq<Component>>, i: nat, k: nat)
    requires AllRouted(s, components, routings, resources, answers) && i < |answers| && k < |answers[i]|
    ensures k < |routings[i].out|
    ensures var h := routings[i].out[k];
            h in components && answers[i][k] == components[h] && Due(s, routings[i], h)
  {
    var h := routings[i].out[k];
    assert answers[i][k] == components[h] && components[h] in answers[i];
    AnswerIsDue(s, components, routings, resources, answers, i, h);
  }

  lemma SomeoneIsDue<R>(s: Setup, components: map<Handle, Component>, routings: seq<Routing>,
                        resources: seq<R>, answers: seq<seq<Component>>, i: nat)
    requires AllRouted(s, components, routings, resources, answers) && i < |answers|
    ensures |answers[i]| > 0 <==> exists h :: h in components && Due(s, routings[i], h)
  {
    if |answers[i]| > 0 {
      AnsweredHandle(s, components, routings, resources, answers, i, 0);
    }
    if h :| h in components && Due(s, routings[i], h) {
      AnswerIsDue(s, components, routings, resources, answers, i, h);
    }
  }

  lemma SomeoneIsDueAndHas<R>(s: Setup, components: map<Handle, Component>, routings: seq<Routing>,
                              resources: seq<R>, answers: seq<seq<Component>>, signal: Signal, i: nat)
    requires AllRouted(s, components, routings, resources, answers) && i < |answers|
    ensures (exists k :: 0 <= k < |answers[i]| && answers[i][k].Handles(signal)) <==>
              exists h :: h in components && Due(s, routings[i], h) && components[h].has.Has(signal)
  {
    if k :| 0 <= k < |answers[i]| && answers[i][k].Handles(signal) {
      AnsweredHandle(s, components, routings, resources, answers, i, k);
    }
    if h :| h in components && Due(s, routings[i], h) && components[h].has.Has(signal) {
      AnswerIsDue(s, components, routings, resources, answers, i, h);
      var k :| 0 <= k < |answers[i]| && answers[i][k] == components[h];
      assert answers[i][k].Handles(signal);
    }
  }

  /**
   What becomes of a resource: it is unmatched when no exporter is due it, unsupported when none of
   those due it has the signal, and accepted otherwise.
   */
  lemma FateIsDue<R>(s: Setup, components: map<Handle, Component>, routings: seq<Routing>,
                     resources: seq<R>, answers: seq<seq<Component>>, signal: Signal, i: nat)
    requires AllRouted(s, components, routings, resources, answers) && i < |answers|
    ensures FateOf(answers[i], signal) ==
            if !exists h :: h in components && Due(s, routings[i], h) then Unmatched
            else if exists h :: h in components && Due(s, routings[i], h) && components[h].has.Has(signal) then Accepted
            else Unsupported
  {
    FateExactly(answers[i], signal);
    SomeoneIsDue(s, components, routings, resources, answers, i);
    SomeoneIsDueAndHas(s, components, routings, resources, answers, signal, i);
  }
}
