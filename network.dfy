/**
 * The satellite network of network.rs: the same rebuild-and-diff update as
 * graph.rs, plus the relay choice by lowest relay score.
 */
module Network {
  import opened Common
  import opened Satellites
  import opened Contacts
  import opened Tracking
  import Graph

  class SatelliteNetwork {
    var satellitesDict: map<u32, SatelliteRecord>
    var satellitesNetwork: ContactGraph

    /** As `Graph.SatelliteNetwork.Valid`: keyed by id, contact lists only for stored satellites. */
    ghost predicate Valid()
      reads this
    {
      Graph.KeyedById(satellitesDict) && satellitesNetwork.Keys <= satellitesDict.Keys
    }

    constructor ()
      ensures Valid()
      ensures satellitesDict == map[] && satellitesNetwork == map[]
    {
      satellitesDict := map[];
      satellitesNetwork := map[];
    }

    /** As `Graph.SatelliteNetwork.UpdateSatelliteGraph`, over this network's fields. */
    method UpdateSatelliteNetwork(phys: Physics) returns (events: map<u32, UpdateEvent>)
      requires phys.Valid()
      modifies this`satellitesNetwork
      ensures satellitesNetwork.Keys == old(satellitesNetwork).Keys + satellitesDict.Keys
      ensures forall id :: id in satellitesDict ==> IsContactList(satellitesDict, phys, id, satellitesNetwork[id])
      ensures forall id :: id in old(satellitesNetwork) && id !in satellitesDict ==> satellitesNetwork[id] == old(satellitesNetwork)[id]
      ensures events.Keys == satellitesDict.Keys
      ensures forall id :: id in events ==> events[id] == EventFor(old(satellitesNetwork), id, satellitesNetwork[id])
      ensures old(Valid()) ==> Valid() && IsContactMap(satellitesDict, phys, satellitesNetwork)
    {
      var updatedGraph := CreateSatellitesMap(satellitesDict, phys);
      if Valid() {
        OverwriteCovering(satellitesNetwork, updatedGraph);
      }
      satellitesNetwork, events := ApplyUpdate(satellitesNetwork, updatedGraph);
    }

    ghost predicate ScoresDefined()
      reads this
    {
      forall id :: id in satellitesDict ==> satellitesDict[id].ScoreDefined()
    }

    /**
     * The stored satellite other than the source with the lowest relay score,
     * provided that score is below `f64::MAX`; `None` when the source is not
     * stored or no other satellite qualifies. Which of several equally scored
     * satellites wins depends on the map's iteration order.
     */
    method FindBestRelay(sourceSatelliteId: u32, groundPosition: Position) returns (bestRelay: Option<u32>)
      requires Graph.KeyedById(satellitesDict) && ScoresDefined()
      ensures sourceSatelliteId !in satellitesDict ==> bestRelay == None
      ensures bestRelay.Some? ==>
                && bestRelay.value in satellitesDict
                && bestRelay.value != sourceSatelliteId
                && satellitesDict[bestRelay.value].RelayScore(groundPosition) < F64_MAX
                && forall id :: id in satellitesDict && id != sourceSatelliteId ==>
                     satellitesDict[bestRelay.value].RelayScore(groundPosition) <= satellitesDict[id].RelayScore(groundPosition)
      ensures bestRelay.Some? <==>
                && sourceSatelliteId in satellitesDict
                && exists id :: id in satellitesDict && id != sourceSatelliteId &&
                     satellitesDict[id].RelayScore(groundPosition) < F64_MAX
    {
      if sourceSatelliteId !in satellitesDict {
        return None;
      }
      bestRelay := None;
      var bestScore := F64_MAX;
      var pending := satellitesDict.Keys;
      while pending != {}
        invariant pending <= satellitesDict.Keys
        invariant bestRelay.None? ==> bestScore == F64_MAX
        invariant bestRelay.Some? ==>
                    && bestRelay.value in satellitesDict.Keys - pending
                    && bestRelay.value != sourceSatelliteId
                    && satellitesDict[bestRelay.value].RelayScore(groundPosition) == bestScore < F64_MAX
        invariant forall id :: id in satellitesDict.Keys - pending && id != sourceSatelliteId ==>
                    bestScore <= satellitesDict[id].RelayScore(groundPosition)
        decreases pending
      {
        var key :| key in pending;
        var sat := satellitesDict[key];
        if sat.id != sourceSatelliteId {
          var score := sat.RelayScore(groundPosition);
          if score < bestScore {
            bestScore := score;
            bestRelay := Some(sat.id);
          }
        }
        pending := pending - {key};
      }
    }

    method AddSatellites(sats: seq<SatelliteRecord>)
      modifies this`satellitesDict
      ensures satellitesDict == Graph.InsertAll(old(satellitesDict), sats)
      ensures old(Valid()) ==> Valid()
    {
      ghost var before := satellitesDict;
      for i := 0 to |sats|
        invariant satellitesDict == Graph.InsertAll(before, sats[..i])
      {
        assert sats[..i + 1][..i] == sats[..i];
        satellitesDict := satellitesDict[sats[i].id := sats[i]];
      }
      assert sats[..|sats|] == sats;
      if Graph.KeyedById(before) {
        Graph.InsertAllKeyedById(before, sats);
      }
      forall k | k in before ensures k in satellitesDict {
        Graph.InsertAllKeys(before, sats, k);
      }
    }

    method AddSatellite(sat: SatelliteRecord)
      modifies this`satellitesDict
      ensures satellitesDict == old(satellitesDict)[sat.id := sat]
      ensures old(Valid()) ==> Valid()
    {
      satellitesDict := satellitesDict[sat.id := sat];
    }
  }
}
