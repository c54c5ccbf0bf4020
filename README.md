# Satellite contact-graph routing: a Dafny model

This project models the routing core of a delay-tolerant satellite mesh
simulator written in Rust. The model has five parts:

- **Contact discovery** (`tracking.dfy`). For every ordered pair of distinct satellites, a
  contact exists when the two are within `COMMUNICATION_RANGE` (1000) now, or after the
  lookahead horizon. The contact's window is `[time_to_downlink, time_to_downlink +
  communication_window]` of the sender. Its latency is the smaller distance over the
  speed of light.
- **The contact graph and its update** (`contacts.dfy`, `graph.dfy`, `network.dfy`). Each
  update recomputes every stored satellite's contact list and overwrites or inserts that
  satellite's entry; nothing is removed. For a satellite already present, it computes the
  destination ids lost and gained. Both network types of the source (in `graph.rs` and in
  `network.rs`) run the same loop, so it is defined once, as `Contacts.ApplyUpdate`.
- **Relay choice**. `heuristics.rs` picks the closest satellite to the ground that is
  strictly closer than the source, and the earliest one wins a tie. `network.rs` picks the
  satellite with the lowest relay score other than the source.
- **The satellite record** (`satellite.dfy`). The orbital radius is the Earth radius plus
  the altitude in metres. The position history is bounded at 1000 entries. The relay score
  is linear. The neighbour-information setters each set one field.
- **The router core** (`cgr.dfy`). It has the packet delivery state machine, the grouping of
  links into a per-sender adjacency map, and the reversed ordering of route nodes. That
  ordering makes a max-heap pop the earliest arrival first.

Real numbers stand in for `f64`, with no NaN and no infinities. `f64::MAX` is kept exactly
(`Common.F64_MAX`, written as `2^1024 - 2^971` from the binary64 exponent bias and mantissa
width), because both relay searches start from it.

Some collaborators are parameters, not definitions. In `Tracking.Physics`, these are:

- the Euclidean distance, whose square root is not modelled;
- the predicted position after a time step;
- the lookahead horizon;
- the speed of light.

Also passed in are the satellite's next position after the orbital angle update, and the
random storage and energy drawn in `Satellite::new`.

`HashMap` iteration order is unspecified. The loops over maps pick each next key with
`:|`, so every property proved holds for any iteration order.

The Rust `Satellite` is a value type, and the maps store clones of it. `Satellites.Satellite`
is a class whose methods update its fields in place. `Satellites.SatelliteRecord` is the
value that `clone()` yields (`Satellite.Record()`), and the maps store it.

`CGREvent` has no event for a failed route computation, so `SelectRoute` is left only
on `RouteComputed`. `CommunicationLinkLost` in `Retransmit` falls to the default arm
(`cgr.rs:107`) and keeps the state (`Cgr.RetransmitIgnoresLinkLoss`).

The derived `PartialEq` of `RouteNode` compares all fields, but its `Ord` compares only
arrival times. So two different nodes can compare `Equal` (`Cgr.Cmp`).

## Model

| member | source | states |
|---|---|---|
| `Satellites.SatelliteRecord.DistanceFromGround` | satellite_simulation/src/simulation/satellite.rs:84-87 | under the radius invariant, the height above ground is the orbital radius minus the Earth radius |
| `Satellites.SatelliteRecord.RelayScore` | satellite_simulation/src/simulation/satellite.rs:73-82 | with non-negative storage, energy and window, the score lies in `(1.5·dist + ttd, 1.5·dist + ttd + 1]`, the three reciprocal terms together weighing more than 0 and at most 1 |
| `Satellites.RelayScoreIgnoresGround` | satellite_simulation/src/simulation/satellite.rs:73-82 | the score does not depend on the ground position passed in |
| `Satellites.RelayScoreMonotoneInAltitude` | satellite_simulation/src/simulation/satellite.rs:73-87 | raising only the altitude strictly raises the score, so lower satellites are preferred |
| `Satellites.PushHistory` | satellite_simulation/src/simulation/satellite.rs:53-57 | the history grows by one, or keeps its length when it would exceed 1000, so a history of at most 1000 stays at most 1000; it is the matching suffix of the old history plus the current position, whose last element is that position |
| `Satellites.Satellite.constructor` | satellite_simulation/src/simulation/satellite.rs:30-45 | orbital radius = Earth radius + altitude·1000, empty history, no distance to ground, time to downlink and window 0, the storage and energy drawn from `[500, 10000)` and `[50, 100)`; hence the relay score of every new satellite is defined and its resources non-negative |
| `Satellites.Satellite.UpdateSatellitePosition` | satellite_simulation/src/simulation/satellite.rs:52-66 | the history becomes `PushHistory(old history, old position)`, the position the given next one, every other field unchanged, and the invariant is kept |
| `Satellites.Satellite.UpdateSatelliteAltitude` | satellite_simulation/src/simulation/satellite.rs:68-71 | altitude grows by the difference and the orbital radius is recomputed from it, so the radius invariant holds afterwards; nothing else changes |
| `Satellites.NeighboringSatelliteInformation.constructor` | satellite_simulation/src/simulation/satellite.rs:167-176 | the id is stored and every optional field is `None` |
| `Satellites.NeighboringSatelliteInformation.GetDistanceFromGround` | satellite_simulation/src/simulation/satellite.rs:178-180 | sets only the distance from ground, to `Some(distance)` |
| `Satellites.NeighboringSatelliteInformation.GetDistanceFromSource` | satellite_simulation/src/simulation/satellite.rs:182-184 | sets only the distance from source, to `Some(distance)` |
| `Satellites.NeighboringSatelliteInformation.GetAvailableStorage` | satellite_simulation/src/simulation/satellite.rs:186-188 | sets only the available storage, to `Some(v)` |
| `Satellites.NeighboringSatelliteInformation.GetSpeed` | satellite_simulation/src/simulation/satellite.rs:190-192 | sets only the speed, to `Some(v)` |
| `Contacts.DestinationList` | satellite_simulation/src/simulation/graph.rs:87-90 | the newcomer's neighbour list has one id per contact, in contact order, and holds exactly the destination set the next update's diff compares against |
| `Contacts.ComputeDiff` | satellite_simulation/src/simulation/graph.rs:60-68 | an id is lost exactly when some old contact goes to it and no new one does, and gained exactly when some new contact goes to it and no old one does |
| `Contacts.DiffLaws` | satellite_simulation/src/simulation/graph.rs:60-68 | lost and gained are disjoint, lost lies in the old destinations and outside the new, gained the reverse, `(old − lost) ∪ gained = new`, and both are empty exactly when the destination sets agree |
| `Contacts.ApplyOne` | satellite_simulation/src/simulation/graph.rs:59-92 | one satellite's step stores its fresh list under its id, and reports the diff against the list it replaces, or the join of a new id |
| `Contacts.ApplyUpdate` | satellite_simulation/src/simulation/graph.rs:57-94 | the result is the old graph overwritten by the fresh lists (map union, fresh entries win; no key removed); the events have one entry per fresh id: the diff against the old list for an id already present, the destination list for a new one |
| `Tracking.CreateSatellitesMap` | satellite_simulation/src/simulation/tracking.rs:49-83 | one list per stored satellite; every contact goes to another stored satellite in range with the window and latency of `ContactTo`; no destination twice; every other satellite in range is a destination |
| `Tracking.ContactListOf` | satellite_simulation/src/simulation/tracking.rs:53-78 | the inner loop yields a contact list of one satellite: each contact to another stored satellite in range, as `ContactTo` builds it, no destination twice, none missing |
| `Tracking.PredictFutureDistance` | satellite_simulation/src/simulation/tracking.rs:85-90 | both satellites are projected by the same time step, so with a symmetric distance the predicted distance does not depend on the order of the pair |
| `Tracking.ContactTo` | satellite_simulation/src/simulation/tracking.rs:66-76 | the contact goes to the given id, opens at the sender's time to downlink and lasts the sender's window, so it does not close before it opens when the window is non-negative |
| `Tracking.ContactLatency` | satellite_simulation/src/simulation/tracking.rs:68-69 | a contact's latency is the smaller of the current and predicted distances over the speed of light; it is at most range / speed of light for a pair in range, and non-negative for non-negative distances |
| `Tracking.ContactExistsIff` | satellite_simulation/src/simulation/tracking.rs:55-65 | a contact from `id1` to `id2` exists iff `id2` is stored, differs from `id1`, and the current or predicted distance is within range |
| `Tracking.ContactWindow` | satellite_simulation/src/simulation/tracking.rs:66-69 | a contact's start is the sender's time to downlink, its end the start plus the sender's window (so end ≥ start for a non-negative window), its latency `min(now, predicted) / speed of light`, and it is no self-loop |
| `Tracking.DivisionMin` | satellite_simulation/src/simulation/tracking.rs:68-69 | the minimum of the two quotients is the quotient of the minimum |
| `Tracking.DistinctDestinationsCount` | satellite_simulation/src/simulation/tracking.rs:55-77 | a list with pairwise distinct destinations has as many destinations as contacts |
| `Tracking.ContactListLength` | satellite_simulation/src/simulation/tracking.rs:55-77 | each contact list has at most n − 1 entries |
| `Tracking.ContactSymmetry` | satellite_simulation/src/simulation/tracking.rs:85-90 | with a symmetric distance, `id1` has a contact to `id2` iff `id2` has one to `id1` |
| `Graph.InsertAllKeys` | satellite_simulation/src/simulation/graph.rs:101-104 | after inserting a list, the keys are the old keys plus the inserted ids, and a key no inserted satellite has keeps its old value |
| `Graph.InsertAllLastWins` | satellite_simulation/src/simulation/graph.rs:101-104 | a satellite with no later same-id satellite in the list is what is stored under its id |
| `Graph.InsertAllKeyedById` | satellite_simulation/src/simulation/graph.rs:101-104 | inserting under each satellite's own id keeps every entry keyed by its id |
| `Graph.SatelliteNetwork.constructor` | satellite_simulation/src/simulation/graph.rs:20-25 | both maps start empty |
| `Graph.SatelliteNetwork.UpdateSatelliteGraph` | satellite_simulation/src/simulation/graph.rs:52-95 | every stored satellite's entry becomes a contact list as `CreateSatellitesMap` promises, no key is removed, and the diff or join event of each satellite is reported; when the graph held entries only for stored satellites (kept by every operation), the stored graph afterwards is exactly a fresh contact map, with no stale entry |
| `Graph.SatelliteNetwork.GetSatellites` | satellite_simulation/src/simulation/graph.rs:97-99 | exactly one copy of each stored satellite: as many as stored, each stored under its id, no id twice, none missing |
| `Graph.SatelliteNetwork.AddSatellites` | satellite_simulation/src/simulation/graph.rs:101-106 | the map becomes `InsertAll(old map, list)` (later duplicates win, other keys unchanged), stays keyed by id, and still covers every key of the contact graph |
| `Graph.SatelliteNetwork.AddSatellite` | satellite_simulation/src/simulation/graph.rs:108-110 | exactly the satellite's id is inserted or overwritten |
| `Network.SatelliteNetwork.constructor` | satellite_simulation/src/simulation/network.rs:13-18 | both maps start empty |
| `Network.SatelliteNetwork.UpdateSatelliteNetwork` | satellite_simulation/src/simulation/network.rs:45-88 | the same overwrite-or-insert update and diff events as `UpdateSatelliteGraph`, over this network's maps, and the same exact-rebuild guarantee |
| `Network.SatelliteNetwork.FindBestRelay` | satellite_simulation/src/simulation/network.rs:90-106 | `None` when the source is not stored; a returned relay is stored, is not the source, scores below `f64::MAX` and no worse than every other non-source satellite; a relay is returned exactly when the source is stored and some other stored satellite scores below `f64::MAX`; requires only that the map is keyed by id and every score is defined |
| `Network.SatelliteNetwork.AddSatellites` | satellite_simulation/src/simulation/network.rs:108-113 | as `Graph.SatelliteNetwork.AddSatellites` |
| `Network.SatelliteNetwork.AddSatellite` | satellite_simulation/src/simulation/network.rs:115-117 | exactly one key is inserted or overwritten, the others are unchanged |
| `Heuristics.FindBestRelay` | satellite_simulation/src/routing/heuristics.rs:17-40 | `None` iff no satellite of another id is strictly closer to the ground than the source (and below `f64::MAX`); otherwise the id of the first satellite in vector order with the least ground distance among those, which is never the source's id |
| `Heuristics.QualifiesWhenFinite` | satellite_simulation/src/routing/heuristics.rs:29-33 | for a source at a finite distance, a candidate is exactly another satellite strictly closer to the ground |
| `Heuristics.QualifiesWithinBound` | satellite_simulation/src/routing/heuristics.rs:23-33 | for a source at most `10^12` from the ground, the `best_distance = f64::MAX` guard drops out: a candidate is exactly another satellite strictly closer than the source |
| `Common.F64MaxIsLarge` | satellite_simulation/src/routing/heuristics.rs:23 | the initial best value `f64::MAX` (also network.rs:93) is at least `10^12`, so any distance or score below that passes the `< f64::MAX` guard |
| `Cgr.Cmp` | satellite_simulation/src/simulation/cgr.rs:27-31 | a node is greater exactly when it arrives earlier, less when later, equal when at the same time whatever its path or id |
| `Cgr.PartialCmp` | satellite_simulation/src/simulation/cgr.rs:33-37 | always defined: `Some(Greater)` exactly for an earlier arrival, `Some(Less)` for a later one, `Some(Equal)` for the same time |
| `Cgr.CmpIsTotalPreorder` | satellite_simulation/src/simulation/cgr.rs:27-31 | `Cmp` is antisymmetric, reflexive-equal and transitive |
| `Cgr.GreatestIsEarliest` | satellite_simulation/src/simulation/cgr.rs:24-31 | a node no other node exceeds has the minimum arrival time |
| `Cgr.Greatest` | satellite_simulation/src/simulation/cgr.rs:24-31 | a maximum under `Cmp`, the element a max-heap yields first, exists in every non-empty collection and has the earliest arrival |
| `Cgr.Next` | satellite_simulation/src/simulation/cgr.rs:86-108 | a listed (state, event) pair moves to its entry in the nine-row transition table; every other pair keeps the state |
| `Cgr.TerminalIsAbsorbing` | satellite_simulation/src/simulation/cgr.rs:99-107 | from `Delivered` or `Failed` every event sequence stays put |
| `Cgr.RetransmitIgnoresLinkLoss` | satellite_simulation/src/simulation/cgr.rs:105-107 | `Retransmit` on `CommunicationLinkLost` stays `Retransmit` |
| `Cgr.IntoDelivered` | satellite_simulation/src/simulation/cgr.rs:99-105 | the only steps into `Delivered` are `DataSent` from `TransmitData` or `Retransmit` |
| `Cgr.IntoFailed` | satellite_simulation/src/simulation/cgr.rs:102 | the only step into `Failed` is `Timeout` from `HoldData` |
| `Cgr.DeliveredOnlyViaTransmission` | satellite_simulation/src/simulation/cgr.rs:86-108 | any run reaching `Delivered` from elsewhere takes a `DataSent` step in `TransmitData` or `Retransmit` |
| `Cgr.EveryStateReachable` | satellite_simulation/src/simulation/cgr.rs:86-108 | each of the eight states is reachable from `IDLE` |
| `Cgr.GroupIsPerSenderFilter` | satellite_simulation/src/simulation/cgr.rs:71-78 | the adjacency list has a key exactly for the senders of some link, and its bucket is that sender's links in input order (so no bucket is empty) |
| `Cgr.LinksFromMembership` | satellite_simulation/src/simulation/cgr.rs:71-78 | a sender's bucket holds exactly the input links with that sender |
| `Cgr.LinkInExactlyOneBucket` | satellite_simulation/src/simulation/cgr.rs:71-78 | every link is in its sender's bucket and in no other |
| `Cgr.CGR.constructor` | satellite_simulation/src/simulation/cgr.rs:71-84 | keeps the links, builds the per-sender adjacency list `Group(links)` link by link, and starts in `IDLE` |
| `Cgr.CGR.Transition` | satellite_simulation/src/simulation/cgr.rs:86-109 | the state becomes `Next(old state, event)` and nothing else changes |

## Left out

- Orbital and trigonometric numerics: the angle update in `update_satellite_position` is
  supplied as the next position. Also left out are `update_time_to_downlink`,
  `update_communication_window`, `get_current_speed`, `calculate_angular_velocity`, the
  square root of `calculate_euclid_distance` (distance is a parameter), and
  `calculate_future_satellite_position`. `calculate_future_satellite_position`,
  `SPEED_OF_LIGHT` and `TIME_LOOKAHEAD_SECS` are not part of this model; they are
  parameters.
- IEEE behaviour: there is no NaN, no infinity and no rounding. Division by zero is
  excluded by `SatelliteRecord.ScoreDefined` (which `f64` would turn into infinity) and by
  a positive speed of light.
- Randomness: `generate_satellite_network`, `get_satellite_storage`, and the random storage
  and energy in `Satellite::new`, which are passed in.
- `update_sat_positions` in both network types: it applies the left-out orbital update to
  every stored satellite.
- `CGR::find_best_route`: an unfinished stub with no search to model. Only the ordering it
  was meant to use is modelled.
- The `println!` logging in the graph updates. The lost, gained and neighbour ids it
  prints are returned as `UpdateEvent` values instead.
- Cryptography (`secure_comm.rs`, `encryption.rs`, `key_exchange.rs`, `signature.rs`):
  these are thin wrappers over external crates.
- CLI, serial, tokio and firmware code (`main.rs` files, `sat_firmware`, `stm32_firmware`),
  and module declarations.
- `Network.SatelliteNetwork.FindBestRelay`: the tie between equally scored satellites goes
  to the first in map iteration order. That order is unspecified, so the contract says only
  "no worse than every other".
- `Tracking.CreateSatellitesMap`: the order of each contact list follows the map's
  unspecified iteration order, so a list is fixed only up to order.
- `Tracking.ContactListOf`: the same holds for the one list it builds; it is fixed only up to order.
