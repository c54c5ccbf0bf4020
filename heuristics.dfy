/**
 * Relay choice by distance: the satellite, other than the source, closest to
 * the ground position and strictly closer to it than the source.
 */
module Heuristics {
  import opened Common
  import opened Satellites

  /**
   * `sat` is a candidate relay for `source`: another satellite (by id) that is
   * strictly closer to the ground than the source, and closer than the
   * initial best distance `f64::MAX`.
   */
  predicate Qualifies(distance: (Position, Position) -> real, source: SatelliteRecord, sat: SatelliteRecord, ground: Position) {
    && sat.id != source.id
    && distance(sat.position, ground) < distance(source.position, ground)
    && distance(sat.position, ground) < F64_MAX
  }

  /**
   * `satellites[k]` qualifies, is no farther from the ground than any other
   * qualifying satellite, and is strictly closer than every qualifying
   * satellite before it.
   */
  ghost predicate IsFirstClosest(distance: (Position, Position) -> real, source: SatelliteRecord,
                                 satellites: seq<SatelliteRecord>, ground: Position, k: int)
  {
    && 0 <= k < |satellites|
    && Qualifies(distance, source, satellites[k], ground)
    && (forall j :: 0 <= j < |satellites| && Qualifies(distance, source, satellites[j], ground) ==>
          distance(satellites[k].position, ground) <= distance(satellites[j].position, ground))
    && (forall j :: 0 <= j < k && Qualifies(distance, source, satellites[j], ground) ==>
          distance(satellites[k].position, ground) < distance(satellites[j].position, ground))
  }

  method FindBestRelay(source: SatelliteRecord, satellites: seq<SatelliteRecord>, groundPosition: Position,
                       distance: (Position, Position) -> real)
    returns (bestRelaySatelliteId: Option<u32>)
    ensures bestRelaySatelliteId.None? <==>
              forall i :: 0 <= i < |satellites| ==> !Qualifies(distance, source, satellites[i], groundPosition)
    ensures bestRelaySatelliteId.Some? ==> bestRelaySatelliteId.value != source.id
    ensures bestRelaySatelliteId.Some? ==>
              exists k :: IsFirstClosest(distance, source, satellites, groundPosition, k)
                          && satellites[k].id == bestRelaySatelliteId.value
  {
    bestRelaySatelliteId := None;
    var bestDistance := F64_MAX;
    ghost var best := -1;
    for i := 0 to |satellites|
      invariant bestRelaySatelliteId.None? <==> best == -1
      invariant best == -1 ==> bestDistance == F64_MAX
      invariant best == -1 ==> forall j :: 0 <= j < i ==> !Qualifies(distance, source, satellites[j], groundPosition)
      invariant best != -1 ==>
                  && best < i
                  && bestRelaySatelliteId == Some(satellites[best].id)
                  && bestDistance == distance(satellites[best].position, groundPosition)
                  && IsFirstClosest(distance, source, satellites[..i], groundPosition, best)
    {
      var sat := satellites[i];
      if sat.id == source.id {
        continue;
      }
      var distToGround := distance(sat.position, groundPosition);
      var sourceToGround := distance(source.position, groundPosition);
      if distToGround < sourceToGround && distToGround < bestDistance {
        bestDistance := distToGround;
        bestRelaySatelliteId := Some(sat.id);
        best := i;
      }
    }
    assert satellites[..|satellites|] == satellites;
  }

  /** When the source is at a finite distance, qualifying is just "another satellite, strictly closer". */
  lemma QualifiesWhenFinite(distance: (Position, Position) -> real, source: SatelliteRecord, sat: SatelliteRecord, ground: Position)
    requires distance(source.position, ground) <= F64_MAX
    ensures Qualifies(distance, source, sat, ground) <==>
              sat.id != source.id && distance(sat.position, ground) < distance(source.position, ground)
  {
  }

  /**
   * A source within `10^12` of the ground is at a finite distance in the
   * sense above, so a candidate is just another satellite strictly closer.
   */
  lemma QualifiesWithinBound(distance: (Position, Position) -> real, source: SatelliteRecord, sat: SatelliteRecord, ground: Position)
    requires distance(source.position, ground) <= 1000000000000.0
    ensures Qualifies(distance, source, sat, ground) <==>
              sat.id != source.id && distance(sat.position, ground) < distance(source.position, ground)
  {
    F64MaxIsLarge();
    QualifiesWhenFinite(distance, source, sat, ground);
  }
}
