/** The kinds of telemetry an exporter may handle. */
module Telemetry {

  datatype Signal = Logs | Metrics | Traces

  datatype Signals = Signals(logs: bool, metrics: bool, traces: bool) {
    predicate Has(signal: Signal) {
      match signal
      case Logs => logs
      case Metrics => metrics
      case Traces => traces
    }
  }

  /** At least one signal, and none that is not enabled. */
  predicate Usable(has: Signals, enabled: Signals) {
    && (has.logs || has.metrics || has.traces)
    && (has.logs ==> enabled.logs) && (has.metrics ==> enabled.metrics) && (has.traces ==> enabled.traces)
  }

  lemma HasExactly(logs: bool, metrics: bool, traces: bool)
    ensures var has := Signals(logs, metrics, traces);
            has.Has(Logs) == logs && has.Has(Metrics) == metrics && has.Has(Traces) == traces
  {
  }

  lemma UsableExactly(has: Signals, enabled: Signals)
    ensures Usable(has, enabled) <==> (exists s :: has.Has(s)) && forall s :: has.Has(s) ==> enabled.Has(s)
  {
    if Usable(has, enabled) {
      assert has.Has(Logs) || has.Has(Metrics) || has.Has(Traces);
    }
    if forall s :: has.Has(s) ==> enabled.Has(s) {
      assert (has.Has(Logs) ==> enabled.Has(Logs)) && (has.Has(Metrics) ==> enabled.Has(Metrics))
          && (has.Has(Traces) ==> enabled.Has(Traces));
    }
  }
}
