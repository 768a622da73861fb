/** The multimap of running exporters that the observer handler owns. */
module ExporterMaps {
  import opened Base
  import opened Endpoints
  import opened Router

  ghost function ListLength(): seq<Handle> -> int { es => |es| }

  ghost function Occurrences(h: Handle): seq<Handle> -> int { es => multiset(es)[h] }

  /** Everything a multimap holds. */
  ghost function AllHeld(entries: map<EndpointId, seq<Handle>>): multiset<Handle>
    decreases |entries|
  {
    if entries == map[] then multiset{}
    else var id := Pick(entries); multiset(entries[id]) + AllHeld(entries - {id})
  }

  lemma BagSwap<T>(a: multiset<T>, b: multiset<T>, c: multiset<T>)
    ensures a + (b + c) == b + (a + c)
  {
  }

  lemma {:induction false} AllHeldRemove(entries: map<EndpointId, seq<Handle>>, id: EndpointId)
    requires id in entries
    ensures AllHeld(entries) == multiset(entries[id]) + AllHeld(entries - {id})
    decreases |entries|
  {
    var c := Pick(entries);
    if c != id {
      AllHeldRemove(entries - {c}, id);
      AllHeldRemove(entries - {id}, c);
      assert entries - {c} - {id} == entries - {id} - {c};
      BagSwap(multiset(entries[c]), multiset(entries[id]), AllHeld(entries - {c} - {id}));
    }
  }

  lemma {:induction false} AllHeldCount(entries: map<EndpointId, seq<Handle>>, h: Handle)
    ensures AllHeld(entries)[h] == SumBy(entries, Occurrences(h))
    decreases |entries|
  {
    if entries == map[] {
    } else {
      AllHeldCount(entries - {Pick(entries)}, h);
    }
  }

  /** A multimap from endpoints to exporters, duplicates allowed. */
  class ExporterMap {
    var entries: map<EndpointId, seq<Handle>>

    constructor ()
      ensures entries == map[]
    {
      entries := map[];
    }

    method Put(id: EndpointId, exporter: Handle)
      modifies this
      ensures entries == old(entries)[id := ListAt(old(entries), id) + [exporter]]
    {
      entries := entries[id := ListAt(entries, id) + [exporter]];
    }

    method Get(id: EndpointId) returns (exporters: seq<Handle>)
      ensures exporters == ListAt(entries, id)
    {
      exporters := ListAt(entries, id);
    }

    method RemoveAll(id: EndpointId)
      modifies this
      ensures entries == old(entries) - {id}
    {
      entries := entries - {id};
    }

    method Values() returns (out: seq<Handle>)
      ensures forall h :: multiset(out)[h] == SumBy(entries, Occurrences(h))
    {
      out := [];
      var left := entries;
      while left != map[]
        invariant forall h :: multiset(out)[h] + SumBy(left, Occurrences(h)) == SumBy(entries, Occurrences(h))
        decreases |left|
      {
        var id :| id in left;
        forall h ensures SumBy(left, Occurrences(h)) == multiset(left[id])[h] + SumBy(left - {id}, Occurrences(h)) {
          SumByRemove(left, id, Occurrences(h));
        }
        out := out + left[id];
        left := left - {id};
      }
    }

    method Size() returns (out: int)
      ensures out == SumBy(entries, ListLength())
    {
      out := 0;
      var left := entries;
      while left != map[]
        invariant out + SumBy(left, ListLength()) == SumBy(entries, ListLength())
        decreases |left|
      {
        var id :| id in left;
        SumByRemove(left, id, ListLength());
        out := out + |left[id]|;
        left := left - {id};
      }
    }
  }
}
