/**
 * The satellite network of graph.rs: the stored satellites and the stored
 * contact graph, rebuilt from scratch on every update.
 */
module Graph {
  import opened Common
  import opened Satellites
  import opened Contacts
  import opened Tracking

  /** Inserts every satellite under its id, in order, so a later one with the same id wins. */
  function InsertAll(m: map<u32, SatelliteRecord>, sats: seq<SatelliteRecord>): map<u32, SatelliteRecord>
    decreases |sats|
  {
    if sats == [] then m
    else InsertAll(m, sats[..|sats| - 1])[sats[|sats| - 1].id := sats[|sats| - 1]]
  }

  /** The keys after inserting are the old keys and the inserted ids; untouched keys keep their value. */
  lemma {:induction false} InsertAllKeys(m: map<u32, SatelliteRecord>, sats: seq<SatelliteRecord>, k: u32)
    ensures k in InsertAll(m, sats) <==> k in m || exists i :: 0 <= i < |sats| && sats[i].id == k
    ensures (forall i :: 0 <= i < |sats| ==> sats[i].id != k) && k in m ==> InsertAll(m, sats)[k] == m[k]
    decreases |sats|
  {
    if sats != [] {
      var init := sats[..|sats| - 1];
      InsertAllKeys(m, init, k);
      if k in InsertAll(m, sats) && k !in m && k != sats[|sats| - 1].id {
        var i :| 0 <= i < |init| && init[i].id == k;
        assert sats[i] == init[i];
      }
      if exists i :: 0 <= i < |sats| && sats[i].id == k {
        var i :| 0 <= i < |sats| && sats[i].id == k;
        if i < |init| { assert init[i] == sats[i]; }
      }
    }
  }

  /** An inserted satellite is stored unless a later one has the same id. */
  lemma {:induction false} InsertAllLastWins(m: map<u32, SatelliteRecord>, sats: seq<SatelliteRecord>, i: nat)
    requires i < |sats| && forall j :: i < j < |sats| ==> sats[j].id != sats[i].id
    ensures sats[i].id in InsertAll(m, sats) && InsertAll(m, sats)[sats[i].id] == sats[i]
    decreases |sats|
  {
    if i < |sats| - 1 {
      var init := sats[..|sats| - 1];
      assert init[i] == sats[i];
      InsertAllLastWins(m, init, i);
    }
  }

  /** Every stored satellite is stored under its own id. */
  ghost predicate KeyedById(m: map<u32, SatelliteRecord>) {
    forall id :: id in m ==> m[id].id == id
  }

  lemma {:induction false} InsertAllKeyedById(m: map<u32, SatelliteRecord>, sats: seq<SatelliteRecord>)
    requires KeyedById(m)
    ensures KeyedById(InsertAll(m, sats))
    decreases |sats|
  {
    if sats != [] {
      InsertAllKeyedById(m, sats[..|sats| - 1]);
    }
  }

  class SatelliteNetwork {
    var satellites: map<u32, SatelliteRecord>
    var connectionsGraph: ContactGraph

    /**
     * Every satellite is stored under its id, and the contact graph has
     * entries only for stored satellites (satellites are never removed, and
     * only the update writes the graph).
     */
    ghost predicate Valid()
      reads this
    {
      KeyedById(satellites) && connectionsGraph.Keys <= satellites.Keys
    }

    constructor ()
      ensures Valid()
      ensures satellites == map[] && connectionsGraph == map[]
    {
      satellites := map[];
      connectionsGraph := map[];
    }

    /**
     * Recomputes every stored satellite's contacts and applies them: each
     * satellite's entry is replaced by its fresh list, entries of satellites
     * no longer stored are kept, and the returned events carry the diff
     * against the previous list, or the neighbour list of a newcomer.
     */
    method UpdateSatelliteGraph(phys: Physics) returns (events: map<u32, UpdateEvent>)
      requires phys.Valid()
      modifies this`connectionsGraph
      ensures connectionsGraph.Keys == old(connectionsGraph).Keys + satellites.Keys
      ensures forall id :: id in satellites ==> IsContactList(satellites, phys, id, connectionsGraph[id])
      ensures forall id :: id in old(connectionsGraph) && id !in satellites ==> connectionsGraph[id] == old(connectionsGraph)[id]
      ensures events.Keys == satellites.Keys
      ensures forall id :: id in events ==> events[id] == EventFor(old(connectionsGraph), id, connectionsGraph[id])
      ensures old(Valid()) ==> Valid() && IsContactMap(satellites, phys, connectionsGraph)
    {
      var updatedGraph := CreateSatellitesMap(satellites, phys);
      if Valid() {
        OverwriteCovering(connectionsGraph, updatedGraph);
      }
      connectionsGraph, events := ApplyUpdate(connectionsGraph, updatedGraph);
    }

    /** One copy of each stored satellite, in the map's (unspecified) iteration order. */
    method GetSatellites() returns (sats: seq<SatelliteRecord>)
      requires Valid()
      ensures |sats| == |satellites|
      ensures forall i :: 0 <= i < |sats| ==> sats[i].id in satellites && satellites[sats[i].id] == sats[i]
      ensures forall i, j :: 0 <= i < j < |sats| ==> sats[i].id != sats[j].id
      ensures forall id :: id in satellites ==> satellites[id] in sats
    {
      sats := [];
      var pending := satellites.Keys;
      while pending != {}
        invariant pending <= satellites.Keys
        invariant |sats| + |pending| == |satellites|
        invariant forall i :: 0 <= i < |sats| ==> sats[i].id in satellites.Keys - pending && satellites[sats[i].id] == sats[i]
        invariant forall i, j :: 0 <= i < j < |sats| ==> sats[i].id != sats[j].id
        invariant forall id :: id in satellites.Keys - pending ==> satellites[id] in sats
        decreases pending
      {
        var id :| id in pending;
        sats := sats + [satellites[id]];
        pending := pending - {id};
      }
    }

    method AddSatellites(sats: seq<SatelliteRecord>)
      modifies this`satellites
      ensures satellites == InsertAll(old(satellites), sats)
      ensures old(Valid()) ==> Valid()
    {
      ghost var before := satellites;
      for i := 0 to |sats|
        invariant satellites == InsertAll(before, sats[..i])
      {
        assert sats[..i + 1][..i] == sats[..i];
        satellites := satellites[sats[i].id := sats[i]];
      }
      assert sats[..|sats|] == sats;
      if KeyedById(before) {
        InsertAllKeyedById(before, sats);
      }
      forall k | k in before ensures k in satellites {
        InsertAllKeys(before, sats, k);
      }
    }

    method AddSatellite(sat: SatelliteRecord)
      modifies this`satellites
      ensures satellites == old(satellites)[sat.id := sat]
      ensures old(Valid()) ==> Valid()
    {
      satellites := satellites[sat.id := sat];
    }
  }
}
