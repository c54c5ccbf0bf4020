/**
 * The satellite record: its orbital-radius invariant, its bounded position
 * history, its relay score, and the per-neighbour information record.
 *
 * Rust's `Satellite` is a value type: the network maps hold clones of it.
 * Here the class `Satellite` is the owner whose methods update fields in
 * place, and `SatelliteRecord` is the value a clone produces and a map stores.
 */
module Satellites {
  import opened Common

  /** Earth radius in metres. */
  const EARTH_RADIUS: real := 6371000.0

  /** The ranges `Satellite::new` draws the on-board storage and the energy from. */
  const MIN_ONBOARD_STORAGE: real := 500.0
  const MAX_ONBOARD_STORAGE: real := 10000.0
  const MIN_ENERGY: real := 50.0
  const MAX_ENERGY_CAPACITY: real := 100.0

  /** The number of past positions a satellite keeps. */
  const HISTORY_LIMIT: nat := 1000

  datatype SatelliteRecord = SatelliteRecord(
    id: u32,
    position: Position,
    altitude: real,              // km
    velocity: real,
    storageOnBoard: real,
    distanceToGround: Option<real>,
    energyEfficiency: real,
    timeToDownlink: real,
    communicationWindow: real,
    orbitalRadius: real,         // m
    pastPositions: seq<Position>)
  {
    /** The orbital radius is the Earth radius plus the altitude in metres. */
    predicate RadiusInvariant() {
      orbitalRadius == EARTH_RADIUS + altitude * 1000.0
    }

    /** Height above the Earth's surface in metres. */
    function DistanceFromGround(): (d: real)
      ensures RadiusInvariant() ==> d == orbitalRadius - EARTH_RADIUS
    {
      altitude * 1000.0
    }

    /** The three reciprocals of the relay score have non-zero denominators. */
    predicate ScoreDefined() {
      storageOnBoard + 1.0 != 0.0 && energyEfficiency + 1.0 != 0.0 && communicationWindow + 1.0 != 0.0
    }

    /**
     * The linear relay heuristic: lower is better. The ground position is a
     * parameter of the source's method but takes no part in the score.
     */
    function RelayScore(ground: Position): (score: real)
      requires ScoreDefined()
      ensures NonNegativeResources() ==>
                1.5 * DistanceFromGround() + timeToDownlink < score <= 1.5 * DistanceFromGround() + timeToDownlink + 1.0
    {
      var storageScore := 1.0 / (storageOnBoard + 1.0);
      var energyAvailScore := 1.0 / (energyEfficiency + 1.0);
      var timeToDownlinkScore := timeToDownlink;
      var communicationWindowScore := 1.0 / (communicationWindow + 1.0);
      ReciprocalBounds(storageOnBoard);
      ReciprocalBounds(energyEfficiency);
      ReciprocalBounds(communicationWindow);
      DistanceFromGround() * 1.5 + storageScore * 0.5 + energyAvailScore * 0.3
        + timeToDownlinkScore * 1.0 + communicationWindowScore * 0.2
    }

    predicate NonNegativeResources() {
      storageOnBoard >= 0.0 && energyEfficiency >= 0.0 && communicationWindow >= 0.0
    }
  }

  lemma ReciprocalBounds(x: real)
    requires x + 1.0 != 0.0
    ensures x >= 0.0 ==> 0.0 < 1.0 / (x + 1.0) <= 1.0
  {
    if x >= 0.0 {
      assert (1.0 / (x + 1.0)) * (x + 1.0) == 1.0;
    }
  }

  /** The relay score is the same whatever ground position it is asked about. */
  lemma RelayScoreIgnoresGround(s: SatelliteRecord, g1: Position, g2: Position)
    requires s.ScoreDefined()
    ensures s.RelayScore(g1) == s.RelayScore(g2)
  {
  }

  /** Of two satellites that differ only in altitude, the lower one scores better. */
  lemma RelayScoreMonotoneInAltitude(s: SatelliteRecord, higher: real, ground: Position)
    requires s.ScoreDefined() && s.altitude < higher
    ensures s.RelayScore(ground) < s.(altitude := higher).RelayScore(ground)
  {
  }

  /**
   * The history step of a position update: append the position held before
   * the update and, when that exceeds the limit, drop the oldest entry.
   */
  function PushHistory(history: seq<Position>, current: Position): (r: seq<Position>)
    ensures |r| == if |history| + 1 > HISTORY_LIMIT then |history| else |history| + 1
    ensures |history| <= HISTORY_LIMIT ==> |r| <= HISTORY_LIMIT
    ensures r == (history + [current])[|history| + 1 - |r|..]
    ensures r[|r| - 1] == current
  {
    var pushed := history + [current];
    if |pushed| > HISTORY_LIMIT then pushed[1..] else pushed
  }

  /** A satellite owned by a simulation step; its methods update it in place. */
  class Satellite {
    var id: u32
    var position: Position
    var altitude: real
    var velocity: real
    var storageOnBoard: real
    var distanceToGround: Option<real>
    var energyEfficiency: real
    var timeToDownlink: real
    var communicationWindow: real
    var orbitalRadius: real
    var pastPositions: seq<Position>

    ghost predicate Valid()
      reads this
    {
      |pastPositions| <= HISTORY_LIMIT && Record().RadiusInvariant()
    }

    /** The value `clone()` yields, as the network maps store it. */
    function Record(): SatelliteRecord
      reads this
    {
      SatelliteRecord(id, position, altitude, velocity, storageOnBoard, distanceToGround,
                      energyEfficiency, timeToDownlink, communicationWindow, orbitalRadius, pastPositions)
    }

    /**
     * `storage` and `energy` are the values drawn at random, from
     * `[500, 10000)` and `[50, 100)`; so every new satellite has a defined
     * relay score.
     */
    constructor (id: u32, position: Position, altitude: real, velocity: real, storage: real, energy: real)
      requires MIN_ONBOARD_STORAGE <= storage < MAX_ONBOARD_STORAGE
      requires MIN_ENERGY <= energy < MAX_ENERGY_CAPACITY
      ensures Valid()
      ensures Record().ScoreDefined() && Record().NonNegativeResources()
      ensures Record() == SatelliteRecord(id, position, altitude, velocity, storage, None, energy,
                                          0.0, 0.0, EARTH_RADIUS + altitude * 1000.0, [])
    {
      this.id := id;
      this.position := position;
      this.altitude := altitude;
      this.velocity := velocity;
      storageOnBoard := storage;
      distanceToGround := None;
      energyEfficiency := energy;
      timeToDownlink := 0.0;
      communicationWindow := 0.0;
      orbitalRadius := EARTH_RADIUS + (altitude * 1000.0);
      pastPositions := [];
    }

    /**
     * Records the current position in the history, then moves to `next`,
     * the outcome of the orbital angle update.
     */
    method UpdateSatellitePosition(next: Position)
      modifies this
      ensures old(Valid()) ==> Valid()
      ensures Record() == old(Record()).(position := next, pastPositions := PushHistory(old(pastPositions), old(position)))
    {
      pastPositions := pastPositions + [position];
      if |pastPositions| > HISTORY_LIMIT {
        pastPositions := pastPositions[1..];
      }
      position := next;
    }

    method UpdateSatelliteAltitude(altitudeDiff: real)
      modifies this
      ensures Record().RadiusInvariant()
      ensures old(Valid()) ==> Valid()
      ensures Record() == old(Record()).(altitude := old(altitude) + altitudeDiff,
                                         orbitalRadius := EARTH_RADIUS + (old(altitude) + altitudeDiff) * 1000.0)
    {
      altitude := altitude + altitudeDiff;
      orbitalRadius := EARTH_RADIUS + (altitude * 1000.0);
    }
  }

  /**
   * What a satellite knows about one neighbour. The source names the setters
   * `get_*`; each sets only its own field.
   */
  class NeighboringSatelliteInformation {
    var id: u32
    var distanceFromSource: Option<real>
    var speed: Option<real>
    var distanceFromGround: Option<real>
    var availableStorage: Option<real>

    constructor (id: u32)
      ensures this.id == id
      ensures distanceFromSource == None && speed == None && distanceFromGround == None && availableStorage == None
    {
      this.id := id;
      distanceFromSource := None;
      speed := None;
      distanceFromGround := None;
      availableStorage := None;
    }

    method GetDistanceFromGround(distance: real)
      modifies this`distanceFromGround
      ensures distanceFromGround == Some(distance)
    {
      distanceFromGround := Some(distance);
    }

    method GetDistanceFromSource(distance: real)
      modifies this`distanceFromSource
      ensures distanceFromSource == Some(distance)
    {
      distanceFromSource := Some(distance);
    }

    method GetAvailableStorage(availableStorage: real)
      modifies this`availableStorage
      ensures this.availableStorage == Some(availableStorage)
    {
      this.availableStorage := Some(availableStorage);
    }

    method GetSpeed(speed: real)
      modifies this`speed
      ensures this.speed == Some(speed)
    {
      this.speed := Some(speed);
    }
  }
}
