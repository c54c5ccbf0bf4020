/**
 * Contact discovery: for every ordered pair of distinct satellites, a contact
 * exists when the two are within communication range now or after the
 * lookahead horizon. The distance, the predicted position, the lookahead
 * horizon and the speed of light are supplied as a `Physics` value.
 */
module Tracking {
  import opened Common
  import opened Satellites
  import opened Contacts

  const COMMUNICATION_RANGE: real := 1000.0

  /** The collaborators contact discovery relies on but does not define. */
  datatype Physics = Physics(
    distance: (Position, Position) -> real,               // Euclidean distance
    futurePosition: (SatelliteRecord, real) -> Position,  // position after a time step
    lookahead: real,                                      // the lookahead horizon
    speedOfLight: real)
  {
    predicate Valid() {
      speedOfLight > 0.0
    }

    ghost predicate SymmetricDistance() {
      forall p, q :: distance(p, q) == distance(q, p)
    }
  }

  /** The distance between two satellites once both are projected `timeStep` ahead. */
  function PredictFutureDistance(phys: Physics, sat1: SatelliteRecord, sat2: SatelliteRecord, timeStep: real): (d: real)
    ensures phys.SymmetricDistance() ==>
              d == phys.distance(phys.futurePosition(sat2, timeStep), phys.futurePosition(sat1, timeStep))
  {
    phys.distance(phys.futurePosition(sat1, timeStep), phys.futurePosition(sat2, timeStep))
  }

  /** Within range now, or within range at the lookahead horizon. */
  predicate InRange(phys: Physics, sat1: SatelliteRecord, sat2: SatelliteRecord) {
    phys.distance(sat1.position, sat2.position) <= COMMUNICATION_RANGE
    || PredictFutureDistance(phys, sat1, sat2, phys.lookahead) <= COMMUNICATION_RANGE
  }

  /** The contact `sat1` gets towards `sat2` (whose id is `id2`). */
  function ContactTo(phys: Physics, sat1: SatelliteRecord, sat2: SatelliteRecord, id2: u32): (c: Contact)
    requires phys.Valid()
    ensures c.destination == id2
    ensures c.startTime == sat1.timeToDownlink && c.endTime - c.startTime == sat1.communicationWindow
    ensures sat1.communicationWindow >= 0.0 ==> c.startTime <= c.endTime
  {
    var now := phys.distance(sat1.position, sat2.position);
    var predicted := PredictFutureDistance(phys, sat1, sat2, phys.lookahead);
    Contact(id2, sat1.timeToDownlink, sat1.timeToDownlink + sat1.communicationWindow,
            Min(now / phys.speedOfLight, predicted / phys.speedOfLight))
  }

  /**
   * A contact's latency is the smaller of the two distances over the speed of
   * light: never negative for non-negative distances, and at most the range
   * over the speed of light for a pair in range.
   */
  lemma ContactLatency(phys: Physics, sat1: SatelliteRecord, sat2: SatelliteRecord, id2: u32)
    requires phys.Valid()
    ensures var c := ContactTo(phys, sat1, sat2, id2);
      && c.latency == Min(phys.distance(sat1.position, sat2.position),
                          PredictFutureDistance(phys, sat1, sat2, phys.lookahead)) / phys.speedOfLight
      && (InRange(phys, sat1, sat2) ==> c.latency <= COMMUNICATION_RANGE / phys.speedOfLight)
      && ((phys.distance(sat1.position, sat2.position) >= 0.0
           && PredictFutureDistance(phys, sat1, sat2, phys.lookahead) >= 0.0) ==> c.latency >= 0.0)
  {
    var now := phys.distance(sat1.position, sat2.position);
    var predicted := PredictFutureDistance(phys, sat1, sat2, phys.lookahead);
    DivisionMin(now, predicted, phys.speedOfLight);
    if InRange(phys, sat1, sat2) {
      DivisionMonotone(Min(now, predicted), COMMUNICATION_RANGE, phys.speedOfLight);
    }
    if now >= 0.0 && predicted >= 0.0 {
      DivisionMonotone(0.0, Min(now, predicted), phys.speedOfLight);
    }
  }

  lemma DivisionMonotone(a: real, b: real, k: real)
    requires a <= b && k > 0.0
    ensures a / k <= b / k
  {
  }

  /**
   * `list` is a contact list of `id1` for the destinations in `done`: every
   * contact goes to another satellite in range with the contact `ContactTo`
   * describes, no destination occurs twice, and every satellite of `done`
   * in range is a destination.
   */
  ghost predicate IsContactListOver(sats: map<u32, SatelliteRecord>, phys: Physics, id1: u32, done: set<u32>, list: seq<Contact>)
    requires phys.Valid() && id1 in sats
  {
    && (forall i :: 0 <= i < |list| ==>
          var id2 := list[i].destination;
          id2 in done && id2 in sats && id2 != id1 && InRange(phys, sats[id1], sats[id2])
          && list[i] == ContactTo(phys, sats[id1], sats[id2], id2))
    && (forall i, j :: 0 <= i < j < |list| ==> list[i].destination != list[j].destination)
    && (forall id2 :: id2 in done && id2 in sats && id2 != id1 && InRange(phys, sats[id1], sats[id2]) ==>
          id2 in Destinations(list))
  }

  ghost predicate IsContactList(sats: map<u32, SatelliteRecord>, phys: Physics, id1: u32, list: seq<Contact>)
    requires phys.Valid() && id1 in sats
  {
    IsContactListOver(sats, phys, id1, sats.Keys, list)
  }

  /** A contact map has one contact list per satellite. */
  ghost predicate IsContactMap(sats: map<u32, SatelliteRecord>, phys: Physics, connections: ContactGraph)
    requires phys.Valid()
  {
    connections.Keys == sats.Keys
    && forall id1 :: id1 in connections ==> IsContactList(sats, phys, id1, connections[id1])
  }

  /**
   * The O(n^2) discovery loop. Both loops visit the satellites in the map's
   * iteration order, which is unspecified, so each list is fixed up to order.
   */
  method CreateSatellitesMap(satellites: map<u32, SatelliteRecord>, phys: Physics) returns (connections: ContactGraph)
    requires phys.Valid()
    ensures IsContactMap(satellites, phys, connections)
  {
    connections := map[];
    var pending1 := satellites.Keys;
    while pending1 != {}
      invariant pending1 <= satellites.Keys
      invariant connections.Keys == satellites.Keys - pending1
      invariant forall id1 :: id1 in connections ==> IsContactList(satellites, phys, id1, connections[id1])
      decreases pending1
    {
      var id1 :| id1 in pending1;
      var contactList := ContactListOf(satellites, phys, id1);
      connections := connections[id1 := contactList];
      pending1 := pending1 - {id1};
    }
  }

  /** The inner loop of discovery: the contact list of `id1`, over every stored satellite. */
  method ContactListOf(satellites: map<u32, SatelliteRecord>, phys: Physics, id1: u32) returns (contactList: seq<Contact>)
    requires phys.Valid() && id1 in satellites
    ensures IsContactList(satellites, phys, id1, contactList)
  {
    var sat1 := satellites[id1];
    contactList := [];
    var pending2 := satellites.Keys;
    while pending2 != {}
      invariant pending2 <= satellites.Keys
      invariant IsContactListOver(satellites, phys, id1, satellites.Keys - pending2, contactList)
      decreases pending2
    {
      var id2 :| id2 in pending2;
      ghost var done := satellites.Keys - pending2;
      if id1 != id2 {
        var sat2 := satellites[id2];
        var distanceBtwSats := phys.distance(sat1.position, sat2.position);
        var predictedDistance := PredictFutureDistance(phys, sat1, sat2, phys.lookahead);
        if distanceBtwSats <= COMMUNICATION_RANGE || predictedDistance <= COMMUNICATION_RANGE {
          var startTime := sat1.timeToDownlink;
          var endTime := startTime + sat1.communicationWindow;
          var latency := Min(distanceBtwSats / phys.speedOfLight, predictedDistance / phys.speedOfLight);
          ExtendContactList(satellites, phys, id1, done, contactList, id2);
          contactList := contactList + [Contact(id2, startTime, endTime, latency)];
        } else {
          SkipCandidate(satellites, phys, id1, done, contactList, id2);
        }
      } else {
        SkipCandidate(satellites, phys, id1, done, contactList, id2);
      }
      pending2 := pending2 - {id2};
      assert satellites.Keys - pending2 == done + {id2};
    }
  }

  /** Appending the contact towards a new satellite in range keeps the list a contact list. */
  lemma ExtendContactList(sats: map<u32, SatelliteRecord>, phys: Physics, id1: u32, done: set<u32>,
                          list: seq<Contact>, id2: u32)
    requires phys.Valid() && id1 in sats && id2 in sats && id2 != id1 && id2 !in done
    requires InRange(phys, sats[id1], sats[id2])
    requires IsContactListOver(sats, phys, id1, done, list)
    ensures IsContactListOver(sats, phys, id1, done + {id2}, list + [ContactTo(phys, sats[id1], sats[id2], id2)])
  {
    var c := ContactTo(phys, sats[id1], sats[id2], id2);
    DestinationsAppend(list, c);
    var extended := list + [c];
    forall i | 0 <= i < |extended|
      ensures var d := extended[i].destination;
              d in done + {id2} && d in sats && d != id1 && InRange(phys, sats[id1], sats[d])
              && extended[i] == ContactTo(phys, sats[id1], sats[d], d)
    {
      if i < |list| { assert extended[i] == list[i]; }
    }
  }

  /** Passing over the sender itself or a satellite out of range keeps the list a contact list. */
  lemma SkipCandidate(sats: map<u32, SatelliteRecord>, phys: Physics, id1: u32, done: set<u32>,
                      list: seq<Contact>, id2: u32)
    requires phys.Valid() && id1 in sats && id2 !in done
    requires id2 == id1 || id2 !in sats || !InRange(phys, sats[id1], sats[id2])
    requires IsContactListOver(sats, phys, id1, done, list)
    ensures IsContactListOver(sats, phys, id1, done + {id2}, list)
  {
  }

  lemma DestinationsAppend(list: seq<Contact>, c: Contact)
    ensures Destinations(list + [c]) == Destinations(list) + {c.destination}
  {
    assert (list + [c])[|list|] == c;
    forall x | x in Destinations(list) ensures x in Destinations(list + [c]) {
      var k :| 0 <= k < |list| && list[k].destination == x;
      assert (list + [c])[k] == list[k];
    }
  }

  /** A contact from `id1` to `id2` exists exactly when `id2` is another satellite in range. */
  lemma ContactExistsIff(sats: map<u32, SatelliteRecord>, phys: Physics, connections: ContactGraph, id1: u32, id2: u32)
    requires phys.Valid() && IsContactMap(sats, phys, connections) && id1 in sats
    ensures id2 in Destinations(connections[id1]) <==> id2 in sats && id2 != id1 && InRange(phys, sats[id1], sats[id2])
  {
  }

  /**
   * Each contact's window opens at the sender's time to downlink and lasts
   * its communication window; its latency is the smaller of the two
   * distances over the speed of light.
   */
  lemma ContactWindow(sats: map<u32, SatelliteRecord>, phys: Physics, connections: ContactGraph, id1: u32, c: Contact)
    requires phys.Valid() && IsContactMap(sats, phys, connections) && id1 in connections && c in connections[id1]
    ensures c.destination in sats && c.destination != id1
    ensures c.startTime == sats[id1].timeToDownlink
    ensures c.endTime == c.startTime + sats[id1].communicationWindow
    ensures sats[id1].communicationWindow >= 0.0 ==> c.endTime >= c.startTime
    ensures c.latency == Min(phys.distance(sats[id1].position, sats[c.destination].position),
                             PredictFutureDistance(phys, sats[id1], sats[c.destination], phys.lookahead)) / phys.speedOfLight
  {
    var i :| 0 <= i < |connections[id1]| && connections[id1][i] == c;
    var s1, s2 := sats[id1], sats[c.destination];
    DivisionMin(phys.distance(s1.position, s2.position), PredictFutureDistance(phys, s1, s2, phys.lookahead), phys.speedOfLight);
  }

  lemma DivisionMin(a: real, b: real, k: real)
    requires k > 0.0
    ensures Min(a / k, b / k) == Min(a, b) / k
  {
    if a <= b {
      assert a / k <= b / k;
    } else {
      assert b / k < a / k;
    }
  }

  /** A list with distinct destinations has as many elements as destinations. */
  lemma {:induction false} DistinctDestinationsCount(list: seq<Contact>)
    requires forall i, j :: 0 <= i < j < |list| ==> list[i].destination != list[j].destination
    ensures |Destinations(list)| == |list|
  {
    if list != [] {
      var init, last := list[..|list| - 1], list[|list| - 1];
      assert list == init + [last];
      DistinctDestinationsCount(init);
      DestinationsAppend(init, last);
      assert last.destination !in Destinations(init);
    }
  }

  /** Each list holds at most one contact per other satellite. */
  lemma ContactListLength(sats: map<u32, SatelliteRecord>, phys: Physics, connections: ContactGraph, id1: u32)
    requires phys.Valid() && IsContactMap(sats, phys, connections) && id1 in connections
    ensures |connections[id1]| <= |sats| - 1
  {
    var list := connections[id1];
    DistinctDestinationsCount(list);
    assert Destinations(list) <= sats.Keys - {id1};
    assert |sats.Keys - {id1}| == |sats| - 1;
    assert |Destinations(list)| <= |sats.Keys - {id1}| by {
      SubsetCardinality(Destinations(list), sats.Keys - {id1});
    }
  }

  lemma SubsetCardinality(a: set<u32>, b: set<u32>)
    requires a <= b
    ensures |a| <= |b|
  {
    assert b == a + (b - a);
  }

  /** With a symmetric distance, contact existence is symmetric in the pair. */
  lemma ContactSymmetry(sats: map<u32, SatelliteRecord>, phys: Physics, connections: ContactGraph, id1: u32, id2: u32)
    requires phys.Valid() && phys.SymmetricDistance() && IsContactMap(sats, phys, connections)
    requires id1 in sats && id2 in sats
    ensures id2 in Destinations(connections[id1]) <==> id1 in Destinations(connections[id2])
  {
    var s1, s2 := sats[id1], sats[id2];
    var f1, f2 := phys.futurePosition(s1, phys.lookahead), phys.futurePosition(s2, phys.lookahead);
    assert phys.distance(s1.position, s2.position) == phys.distance(s2.position, s1.position);
    assert phys.distance(f1, f2) == phys.distance(f2, f1);
    ContactExistsIff(sats, phys, connections, id1, id2);
    ContactExistsIff(sats, phys, connections, id2, id1);
  }
}
