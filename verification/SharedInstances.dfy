/** One exporter creator per configuration, started once and stopped once, whatever the calls. */
module SharedInstances {

  /** Configurations are compared by identity, so a number stands for each. */
  type Key = nat

  /** An exporter creator; its counters record the calls that reach it. Calls may fail. */
  class Creator {
    var starts: nat
    var stops: nat
    var startErrors: nat
    var stopErrors: nat
    var telemetryStops: nat
    var shared: SharedExporter?

    constructor ()
      ensures starts == 0 && stops == 0 && telemetryStops == 0 && shared == null
      ensures startErrors == 0 && stopErrors == 0
    {
      starts, stops, startErrors, stopErrors, telemetryStops, shared := 0, 0, 0, 0, 0, null;
    }

    method Start() returns (ok: bool)
      modifies this`starts, this`startErrors
      ensures starts == old(starts) + 1 && startErrors == old(startErrors) + if ok then 0 else 1
    {
      starts := starts + 1;
      ok := *;
      startErrors := startErrors + if ok then 0 else 1;
    }

    /** Shutting a creator down shuts its telemetry down as well. */
    method Shutdown() returns (ok: bool)
      modifies this`stops, this`stopErrors, this`telemetryStops
      ensures stops == old(stops) + 1 && telemetryStops == old(telemetryStops) + 1
      ensures stopErrors == old(stopErrors) + if ok then 0 else 1
    {
      stops := stops + 1;
      ShutdownTelemetry();
      ok := *;
      stopErrors := stopErrors + if ok then 0 else 1;
    }

    method ShutdownTelemetry()
      modifies this`telemetryStops
      ensures telemetryStops == old(telemetryStops) + 1
    {
      telemetryStops := telemetryStops + 1;
    }
  }

  /** A component behind once-flags: later calls of Start and Shutdown do not get through to it. */
  class SharedComponent {
    const table: SharedComponents
    const key: Key
    const component: Creator
    var startOnce: bool
    var stopOnce: bool

    constructor (table: SharedComponents, key: Key, component: Creator)
      ensures this.table == table && this.key == key && this.component == component && !startOnce && !stopOnce
    {
      this.table, this.key, this.component := table, key, component;
      startOnce, stopOnce := false, false;
    }

    /** Only the call that does the work can report an error. */
    method Start() returns (ok: bool)
      requires table.Valid() && this in table.all
      modifies this`startOnce, component`starts, component`startErrors
      ensures table.Valid()
      ensures startOnce && component.starts == 1 && (old(startOnce) ==> ok)
      ensures component.startErrors == old(component.startErrors) + if ok then 0 else 1
    {
      ok := true;
      if !startOnce {
        startOnce := true;
        ok := component.Start();
      }
    }

    /** Evicts this instance on the first call; a later call changes nothing, so it cannot evict a newer one. */
    method Shutdown() returns (ok: bool)
      requires table.Valid() && this in table.all
      modifies this`stopOnce, component`stops, component`stopErrors, component`telemetryStops, table`comps
      ensures table.Valid()
      ensures stopOnce && component.stops == 1 && component.telemetryStops == 1 && (old(stopOnce) ==> ok)
      ensures component.stopErrors == old(component.stopErrors) + if ok then 0 else 1
      ensures table.comps == if old(stopOnce) then old(table.comps) else old(table.comps) - {key}
      ensures forall k :: k in old(table.comps) && old(table.comps)[k] != this ==>
          k in table.comps && table.comps[k] == old(table.comps)[k]
    {
      ok := true;
      if !stopOnce {
        ok := StopOnce();
      }
    }

    /** The body of the stop flag: stops the component, whatever the call returns, and evicts this instance. */
    method StopOnce() returns (ok: bool)
      requires table.Valid() && this in table.all && !stopOnce
      modifies this`stopOnce, component`stops, component`stopErrors, component`telemetryStops, table`comps
      ensures table.Valid()
      ensures stopOnce && component.stops == 1 && component.telemetryStops == 1
      ensures component.stopErrors == old(component.stopErrors) + if ok then 0 else 1
      ensures table.comps == old(table.comps) - {key}
    {
      stopOnce := true;
      ok := component.Shutdown();
      table.comps := table.comps - {key};
      table.OneLeft(this);
      table.OnceLeft(this);
    }
  }

  /** The one wrapper every pipeline of a configuration gets. */
  class SharedExporter {
    const component: SharedComponent
    const creator: Creator

    constructor (component: SharedComponent)
      ensures this.component == component && creator == component.component
    {
      this.component, creator := component, component.component;
    }
  }

  class SharedComponents {
    var comps: map<Key, SharedComponent>
    ghost var all: set<SharedComponent>
    ghost var surplus: set<Creator>

    ghost function Creators(): set<Creator>
      reads this
    {
      set c | c in all :: c.component
    }

    /** A key maps to an instance exactly while that instance is not stopped. */
    ghost predicate OneLivePerKey()
      reads this, all
    {
      && (forall c :: c in all ==> c.table == this)
      && (forall k :: k in comps ==> comps[k] in all && comps[k].key == k && !comps[k].stopOnce)
      && (forall c :: c in all && !c.stopOnce ==> c.key in comps && comps[c.key] == c)
    }

    /** Instances do not share a creator, and a surplus creator has no instance. */
    ghost predicate Separate()
      reads this
    {
      && (forall c, d :: c in all && d in all && c.component == d.component ==> c == d)
      && Creators() !! surplus
    }

    /** Every call reached its creator at most once, and telemetry runs only where a live instance needs it. */
    ghost predicate OnceEach()
      reads this, all, Creators(), surplus
    {
      && (forall c :: c in all ==>
            && c.component.starts == (if c.startOnce then 1 else 0)
            && c.component.stops == (if c.stopOnce then 1 else 0)
            && c.component.telemetryStops == (if c.stopOnce then 1 else 0))
      && (forall u :: u in surplus ==> u.starts == 0 && u.stops == 0 && u.telemetryStops == 1)
    }

    ghost predicate Wrapped()
      reads this, Creators(), set c | c in all && c.component.shared != null :: c.component.shared
    {
      forall c :: c in all && c.component.shared != null ==>
        c.component.shared.component == c && c.component.shared.creator == c.component
    }

    ghost predicate Valid()
      reads this, all, Creators(), surplus, set c | c in all && c.component.shared != null :: c.component.shared
    {
      OneLivePerKey() && Separate() && OnceEach() && Wrapped()
    }

    /** With its flag set and its entry gone, an instance leaves the others one live instance per key. */
    twostate lemma OneLeft(c: SharedComponent)
      requires old(OneLivePerKey()) && c in all && all == old(all)
      requires c.stopOnce && comps == old(comps) - {c.key}
      requires !old(c.stopOnce) && forall d :: d in all && d != c ==> d.stopOnce == old(d.stopOnce)
      ensures OneLivePerKey()
    {
    }

    /** And with its component stopped once, everything has still been stopped at most once. */
    twostate lemma OnceLeft(c: SharedComponent)
      requires old(OnceEach()) && old(Separate()) && c in all && all == old(all) && surplus == old(surplus)
      requires c.stopOnce && !old(c.stopOnce) && forall d :: d in all && d != c ==> d.stopOnce == old(d.stopOnce)
      requires forall d :: d in all ==> d.startOnce == old(d.startOnce)
      requires c.component.starts == old(c.component.starts)
      requires c.component.stops == old(c.component.stops) + 1
      requires c.component.telemetryStops == old(c.component.telemetryStops) + 1
      requires forall u :: u in Creators() + surplus && u != c.component ==>
                 u.starts == old(u.starts) && u.stops == old(u.stops) && u.telemetryStops == old(u.telemetryStops)
      ensures OnceEach()
    {
      forall d | d in all ensures d.component in Creators() && (d.component == c.component ==> d == c) {
      }
    }

    constructor ()
      ensures Valid() && comps == map[] && all == {} && surplus == {}
    {
      comps, all, surplus := map[], {}, {};
    }

    /** The instance already created for a key, or a new one around what was constructed. */
    method GetOrAdd(key: Key, created: Creator) returns (sc: SharedComponent)
      requires Valid() && created !in Creators() && created !in surplus
      requires created.starts == 0 && created.stops == 0 && created.telemetryStops == 0 && created.shared == null
      modifies this`comps, this`all
      ensures Valid() && sc in all && sc.key == key && key in comps && comps[key] == sc
      ensures if key in old(comps) then sc == old(comps)[key] && comps == old(comps) && all == old(all)
              else fresh(sc) && sc.component == created && comps == old(comps)[key := sc] && all == old(all) + {sc}
    {
      if key in comps {
        return comps[key];
      }
      sc := new SharedComponent(this, key, created);
      comps := comps[key := sc];
      all := all + {sc};
    }

    /** A creator constructed in vain: its telemetry is released rather than left attached. */
    method Retire(created: Creator)
      requires Valid() && created !in Creators() && created !in surplus
      requires created.starts == 0 && created.stops == 0 && created.telemetryStops == 0
      modifies this`surplus, created`telemetryStops
      ensures Valid() && surplus == old(surplus) + {created}
    {
      created.ShutdownTelemetry();
      surplus := surplus + {created};
    }

    /** Every pipeline gets the same wrapper. */
    method Wrapper(sc: SharedComponent) returns (r: SharedExporter)
      requires Valid() && sc in all
      modifies sc.component`shared
      ensures Valid() && sc.component.shared == r && r.component == sc && r.creator == sc.component
      ensures old(sc.component.shared) != null ==> r == old(sc.component.shared)
    {
      if sc.component.shared == null {
        sc.component.shared := new SharedExporter(sc);
      }
      r := sc.component.shared;
    }

    /**
     The creator shared by every pipeline using a configuration. A creator constructed in vain has
     its telemetry shut down; a failed construction leaves nothing behind.
     */
    method GetOrAddExporterCreator(key: Key) returns (r: SharedExporter?)
      requires Valid()
      modifies this, Creators()
      ensures Valid()
      ensures r == null ==> comps == old(comps) && all == old(all) && surplus == old(surplus)
      ensures r != null ==> key in comps && comps[key] == r.component && r.component.component.shared == r
      ensures r != null && key in old(comps) ==>
                && comps == old(comps) && all == old(all)
                && (old(comps[key].component.shared) != null ==> r == old(comps[key].component.shared))
                && exists u :: u in surplus && fresh(u) && surplus == old(surplus) + {u}
      ensures r != null && key !in old(comps) ==>
                fresh(r.component) && comps == old(comps)[key := r.component] && surplus == old(surplus)
    {
      var constructed: bool := *;
      if !constructed {
        return null;
      }
      var created := new Creator();
      var sc := GetOrAdd(key, created);
      if sc.component != created {
        Retire(created);
      }
      r := Wrapper(sc);
    }
  }
}
