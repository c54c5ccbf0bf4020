/**
 * Contacts between satellites and the per-tick update of a contact graph:
 * the recomputed contact lists overwrite or insert each satellite's entry, and for
 * a satellite already present the lost and gained destinations are computed.
 * The same update loop appears in both network types (graph.rs and
 * network.rs); it is defined once here.
 */
module Contacts {
  import opened Common

  /** A directed, time-windowed opportunity to transmit to `destination`. */
  datatype Contact = Contact(destination: u32, startTime: real, endTime: real, latency: real)

  type ContactGraph = map<u32, seq<Contact>>

  function Destinations(contacts: seq<Contact>): set<u32> {
    set c | c in contacts :: c.destination
  }

  /**
   * The neighbour ids a newcomer reports, one per contact: as a set they are
   * exactly the destinations the next update's diff compares against.
   */
  function DestinationList(contacts: seq<Contact>): (ids: seq<u32>)
    ensures |ids| == |contacts|
    ensures forall i :: 0 <= i < |contacts| ==> ids[i] == contacts[i].destination
    ensures forall x :: x in ids <==> x in Destinations(contacts)
  {
    seq(|contacts|, i requires 0 <= i < |contacts| => contacts[i].destination)
  }

  /** The destination ids a satellite lost and gained in one update. */
  datatype Diff = Diff(lost: set<u32>, gained: set<u32>)

  /**
   * Set differences of the old and new destination ids: an id is lost when
   * some old contact goes to it and no new one does, gained the other way round.
   */
  function ComputeDiff(previous: seq<Contact>, updated: seq<Contact>): (d: Diff)
    ensures forall x :: x in d.lost <==>
              (exists c :: c in previous && c.destination == x) && (forall c :: c in updated ==> c.destination != x)
    ensures forall x :: x in d.gained <==>
              (exists c :: c in updated && c.destination == x) && (forall c :: c in previous ==> c.destination != x)
  {
    var oldDestinations := Destinations(previous);
    var newDestinations := Destinations(updated);
    Diff(oldDestinations - newDestinations, newDestinations - oldDestinations)
  }

  /**
   * The lost and gained sets are disjoint, each lies on its own side, and
   * together they turn the old destination set into the new one.
   */
  lemma DiffLaws(previous: seq<Contact>, updated: seq<Contact>)
    ensures var d := ComputeDiff(previous, updated);
      && d.lost !! d.gained
      && d.lost <= Destinations(previous) && d.lost !! Destinations(updated)
      && d.gained <= Destinations(updated) && d.gained !! Destinations(previous)
      && (Destinations(previous) - d.lost) + d.gained == Destinations(updated)
      && (d == Diff({}, {}) <==> Destinations(previous) == Destinations(updated))
  {
  }

  /**
   * What one update reports about one satellite: the diff when it was
   * already in the graph, the destination list when it is new.
   */
  datatype UpdateEvent = Changed(diff: Diff) | Joined(neighbors: seq<u32>)

  function EventFor(graph: ContactGraph, id: u32, updated: seq<Contact>): UpdateEvent {
    if id in graph then Changed(ComputeDiff(graph[id], updated)) else Joined(DestinationList(updated))
  }

  /** Overwriting a graph whose keys are all recomputed leaves exactly the recomputed graph. */
  lemma OverwriteCovering(graph: ContactGraph, recomputed: ContactGraph)
    requires graph.Keys <= recomputed.Keys
    ensures graph + recomputed == recomputed
  {
  }

  /** The event for `id` depends only on the entry stored under `id`. */
  lemma EventIgnoresOtherEntries(graph: ContactGraph, current: ContactGraph, id: u32, updated: seq<Contact>)
    requires id in current <==> id in graph
    requires id in graph ==> current[id] == graph[id]
    ensures EventFor(current, id, updated) == EventFor(graph, id, updated)
  {
  }

  lemma OverwriteFromPointwise(graph: ContactGraph, recomputed: ContactGraph, updated: ContactGraph)
    requires updated.Keys == graph.Keys + recomputed.Keys
    requires forall k :: k in updated ==> updated[k] == if k in recomputed then recomputed[k] else graph[k]
    ensures updated == graph + recomputed
  {
  }

  lemma EventsFromPointwise(graph: ContactGraph, recomputed: ContactGraph, events: map<u32, UpdateEvent>)
    requires events.Keys == recomputed.Keys
    requires forall k :: k in events ==> events[k] == EventFor(graph, k, recomputed[k])
    ensures events == map id | id in recomputed :: EventFor(graph, id, recomputed[id])
  {
  }

  /** One satellite's step: overwrite its entry or insert it, and report the diff or the join. */
  method ApplyOne(graph: ContactGraph, id: u32, newContacts: seq<Contact>) returns (updated: ContactGraph, event: UpdateEvent)
    ensures updated == graph[id := newContacts]
    ensures event == EventFor(graph, id, newContacts)
  {
    if id in graph {
      var previousContacts := graph[id];
      event := Changed(ComputeDiff(previousContacts, newContacts));
      updated := graph[id := newContacts];
    } else {
      event := Joined(DestinationList(newContacts));
      updated := graph[id := newContacts];
    }
  }

  /**
   * Applies the freshly computed contact lists to `graph`, one satellite at a
   * time in an unspecified order: an existing entry is overwritten, a new one
   * inserted, and no entry is removed.
   */
  method ApplyUpdate(graph: ContactGraph, recomputed: ContactGraph) returns (updated: ContactGraph, events: map<u32, UpdateEvent>)
    ensures updated == graph + recomputed
    ensures events == map id | id in recomputed :: EventFor(graph, id, recomputed[id])
  {
    updated, events := graph, map[];
    var pending := recomputed.Keys;
    ghost var done: set<u32> := {};
    while pending != {}
      invariant pending <= recomputed.Keys && done == recomputed.Keys - pending
      invariant updated.Keys == graph.Keys + done
      invariant forall k :: k in done ==> updated[k] == recomputed[k]
      invariant forall k :: k in graph && k !in done ==> updated[k] == graph[k]
      invariant events.Keys == done
      invariant forall k :: k in events ==> events[k] == EventFor(graph, k, recomputed[k])
      decreases pending
    {
      var id :| id in pending;
      var newContacts := recomputed[id];
      EventIgnoresOtherEntries(graph, updated, id, newContacts);
      var event;
      updated, event := ApplyOne(updated, id, newContacts);
      events := events[id := event];
      pending := pending - {id};
      done := done + {id};
    }
    assert done == recomputed.Keys;
    OverwriteFromPointwise(graph, recomputed, updated);
    EventsFromPointwise(graph, recomputed, events);
  }
}
