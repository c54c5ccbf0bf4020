/**
 * The contact-graph router's core: the packet delivery state machine, the
 * per-sender grouping of communication links, and the ordering of route
 * nodes that turns a max-heap into an earliest-arrival-first queue.
 */
module Cgr {
  import opened Common

  datatype CommunicationLink = CommunicationLink(
    from: nat, to: nat, startTime: real, endTime: real, latency: real, bandwidth: real)

  datatype RouteNode = RouteNode(id: nat, arrivalTime: real, path: seq<nat>)

  datatype Ordering = Less | Equal | Greater

  function Reverse(o: Ordering): Ordering {
    match o
    case Less => Greater
    case Equal => Equal
    case Greater => Less
  }

  /** The total order on arrival times (`OrderedFloat::cmp` on non-NaN values). */
  function CompareArrival(x: real, y: real): Ordering {
    if x < y then Less else if x == y then Equal else Greater
  }

  /** A route node is "greater" when it arrives earlier; path and id take no part. */
  function Cmp(self: RouteNode, other: RouteNode): (o: Ordering)
    ensures o == Greater <==> self.arrivalTime < other.arrivalTime
    ensures o == Less <==> self.arrivalTime > other.arrivalTime
    ensures o == Equal <==> self.arrivalTime == other.arrivalTime
  {
    CompareArrival(other.arrivalTime, self.arrivalTime)
  }

  /** Always defined: an earlier arrival is greater, a later one less, an equal one equal. */
  function PartialCmp(self: RouteNode, other: RouteNode): (o: Option<Ordering>)
    ensures o.Some?
    ensures o == Some(Greater) <==> self.arrivalTime < other.arrivalTime
    ensures o == Some(Less) <==> self.arrivalTime > other.arrivalTime
    ensures o == Some(Equal) <==> self.arrivalTime == other.arrivalTime
  {
    Some(Cmp(self, other))
  }

  /** `Cmp` is antisymmetric and transitive, so a total preorder. */
  lemma CmpIsTotalPreorder(a: RouteNode, b: RouteNode, c: RouteNode)
    ensures Cmp(a, b) == Reverse(Cmp(b, a))
    ensures Cmp(a, a) == Equal
    ensures Cmp(a, b) != Less && Cmp(b, c) != Less ==> Cmp(a, c) != Less
  {
  }

  /** A node that no other node exceeds (a max-heap's top) has the earliest arrival time. */
  lemma GreatestIsEarliest(nodes: seq<RouteNode>, top: RouteNode)
    requires forall n :: n in nodes ==> Cmp(top, n) != Less
    ensures forall n :: n in nodes ==> top.arrivalTime <= n.arrivalTime
  {
  }

  /** A node of `nodes` that no other node exceeds: what a max-heap ordered by `Cmp` yields first. */
  function Greatest(nodes: seq<RouteNode>): (top: RouteNode)
    requires nodes != []
    ensures top in nodes
    ensures forall n :: n in nodes ==> Cmp(top, n) != Less
    ensures forall n :: n in nodes ==> top.arrivalTime <= n.arrivalTime
  {
    if |nodes| == 1 then nodes[0]
    else
      var rest := Greatest(nodes[1..]);
      assert forall n :: n in nodes ==> n == nodes[0] || n in nodes[1..];
      if Cmp(nodes[0], rest) != Less then nodes[0] else rest
  }

  datatype CgrState =
    | Idle
    | DiscoverCommunicationLinks
    | SelectRoute
    | TransmitData
    | HoldData
    | Retransmit
    | Delivered
    | Failed

  datatype CgrEvent =
    | NewPacketArrived
    | CommunicationLinksAvailable
    | NoCommunicationLinksAvailable
    | RouteComputed
    | CommunicationLinkLost
    | CommunicationLinkRestored
    | Timeout
    | DataSent

  /** The listed transitions, as a table of (state, event) pairs. */
  const TransitionTable: map<(CgrState, CgrEvent), CgrState> := map[
    (Idle, NewPacketArrived) := DiscoverCommunicationLinks,
    (DiscoverCommunicationLinks, CommunicationLinksAvailable) := SelectRoute,
    (DiscoverCommunicationLinks, NoCommunicationLinksAvailable) := HoldData,
    (SelectRoute, RouteComputed) := TransmitData,
    (TransmitData, DataSent) := Delivered,
    (TransmitData, CommunicationLinkLost) := HoldData,
    (HoldData, Timeout) := Failed,
    (HoldData, CommunicationLinkRestored) := Retransmit,
    (Retransmit, DataSent) := Delivered
  ]

  /** One step of the state machine; a pair the table does not list keeps the state. */
  function Next(state: CgrState, event: CgrEvent): (next: CgrState)
    ensures (state, event) in TransitionTable ==> next == TransitionTable[(state, event)]
    ensures (state, event) !in TransitionTable ==> next == state
  {
    match (state, event)
    case (Idle, NewPacketArrived) => DiscoverCommunicationLinks
    case (DiscoverCommunicationLinks, CommunicationLinksAvailable) => SelectRoute
    case (DiscoverCommunicationLinks, NoCommunicationLinksAvailable) => HoldData
    case (SelectRoute, RouteComputed) => TransmitData
    case (TransmitData, DataSent) => Delivered
    case (TransmitData, CommunicationLinkLost) => HoldData
    case (HoldData, Timeout) => Failed
    case (HoldData, CommunicationLinkRestored) => Retransmit
    case (Retransmit, DataSent) => Delivered
    case _ => state
  }

  /** The state after a sequence of events. */
  function Run(state: CgrState, events: seq<CgrEvent>): CgrState
    decreases |events|
  {
    if events == [] then state else Run(Next(state, events[0]), events[1..])
  }

  predicate Terminal(state: CgrState) {
    state == Delivered || state == Failed
  }

  /** No event leaves `Delivered` or `Failed`. */
  lemma {:induction false} TerminalIsAbsorbing(state: CgrState, events: seq<CgrEvent>)
    requires Terminal(state)
    ensures Run(state, events) == state
    decreases |events|
  {
    if events != [] {
      assert Next(state, events[0]) == state;
      TerminalIsAbsorbing(state, events[1..]);
    }
  }

  /** A lost link during retransmission does not interrupt it. */
  lemma RetransmitIgnoresLinkLoss()
    ensures Next(Retransmit, CommunicationLinkLost) == Retransmit
  {
  }

  /** The only steps into `Delivered` are `DataSent` from `TransmitData` or `Retransmit`. */
  lemma IntoDelivered(state: CgrState, event: CgrEvent)
    requires state != Delivered && Next(state, event) == Delivered
    ensures event == DataSent && (state == TransmitData || state == Retransmit)
  {
  }

  /** The only step into `Failed` is `Timeout` from `HoldData`. */
  lemma IntoFailed(state: CgrState, event: CgrEvent)
    requires state != Failed && Next(state, event) == Failed
    ensures event == Timeout && state == HoldData
  {
  }

  /**
   * A run that ends in `Delivered` without starting there passes a
   * `DataSent` step from `TransmitData` or `Retransmit`.
   */
  lemma {:induction false} DeliveredOnlyViaTransmission(state: CgrState, events: seq<CgrEvent>)
    requires state != Delivered && Run(state, events) == Delivered
    ensures exists i :: 0 <= i < |events| && events[i] == DataSent
              && (Run(state, events[..i]) == TransmitData || Run(state, events[..i]) == Retransmit)
    decreases |events|
  {
    assert events != [];
    var next := Next(state, events[0]);
    assert events[..0] == [];
    if next == Delivered {
      IntoDelivered(state, events[0]);
    } else {
      DeliveredOnlyViaTransmission(next, events[1..]);
      var i :| 0 <= i < |events[1..]| && events[1..][i] == DataSent
               && (Run(next, events[1..][..i]) == TransmitData || Run(next, events[1..][..i]) == Retransmit);
      assert events[..i + 1][0] == events[0] && events[..i + 1][1..] == events[1..][..i];
    }
  }

  /** Every state can be reached from `Idle`. */
  lemma EveryStateReachable(target: CgrState)
    ensures exists events :: Run(Idle, events) == target
  {
    match target
    case Idle => assert Run(Idle, []) == Idle;
    case DiscoverCommunicationLinks => assert Run(Idle, [NewPacketArrived]) == target;
    case SelectRoute => assert Run(Idle, [NewPacketArrived, CommunicationLinksAvailable]) == target;
    case TransmitData => assert Run(Idle, [NewPacketArrived, CommunicationLinksAvailable, RouteComputed]) == target;
    case HoldData => assert Run(Idle, [NewPacketArrived, NoCommunicationLinksAvailable]) == target;
    case Retransmit =>
      assert Run(Idle, [NewPacketArrived, NoCommunicationLinksAvailable, CommunicationLinkRestored]) == target;
    case Delivered =>
      assert Run(Idle, [NewPacketArrived, CommunicationLinksAvailable, RouteComputed, DataSent]) == target;
    case Failed => assert Run(Idle, [NewPacketArrived, NoCommunicationLinksAvailable, Timeout]) == target;
  }

  /** The links of `links` sent by `sender`, in input order. */
  function LinksFrom(links: seq<CommunicationLink>, sender: nat): (r: seq<CommunicationLink>)
    decreases |links|
  {
    if links == [] then []
    else LinksFrom(links[..|links| - 1], sender)
         + (if links[|links| - 1].from == sender then [links[|links| - 1]] else [])
  }

  /** The adjacency list built one link at a time, as `CGR::new` does. */
  function Group(links: seq<CommunicationLink>): map<nat, seq<CommunicationLink>>
    decreases |links|
  {
    if links == [] then map[]
    else
      var adjacency := Group(links[..|links| - 1]);
      var link := links[|links| - 1];
      adjacency[link.from := (if link.from in adjacency then adjacency[link.from] else []) + [link]]
  }

  /** Each bucket of the grouping is the sender's links in input order, and no bucket is empty. */
  lemma {:induction false} GroupIsPerSenderFilter(links: seq<CommunicationLink>, sender: nat)
    ensures sender in Group(links) <==> LinksFrom(links, sender) != []
    ensures sender in Group(links) ==> Group(links)[sender] == LinksFrom(links, sender)
    decreases |links|
  {
    if links != [] {
      GroupIsPerSenderFilter(links[..|links| - 1], sender);
    }
  }

  /** A sender's links all have that sender, and every link of that sender is among them. */
  lemma {:induction false} LinksFromMembership(links: seq<CommunicationLink>, sender: nat, link: CommunicationLink)
    ensures link in LinksFrom(links, sender) <==> link in links && link.from == sender
    decreases |links|
  {
    if links != [] {
      var init, last := links[..|links| - 1], links[|links| - 1];
      assert links == init + [last];
      LinksFromMembership(init, sender, link);
    }
  }

  /** Every link lies in exactly one bucket: its sender's. */
  lemma LinkInExactlyOneBucket(links: seq<CommunicationLink>, i: nat, sender: nat)
    requires i < |links|
    ensures links[i].from in Group(links) && links[i] in Group(links)[links[i].from]
    ensures sender in Group(links) && links[i] in Group(links)[sender] ==> sender == links[i].from
  {
    GroupIsPerSenderFilter(links, links[i].from);
    LinksFromMembership(links, links[i].from, links[i]);
    GroupIsPerSenderFilter(links, sender);
    LinksFromMembership(links, sender, links[i]);
  }

  class CGR {
    var communicationLinks: seq<CommunicationLink>
    var adjacencyList: map<nat, seq<CommunicationLink>>
    var state: CgrState

    constructor (communicationLinks: seq<CommunicationLink>)
      ensures this.communicationLinks == communicationLinks
      ensures adjacencyList == Group(communicationLinks)
      ensures state == Idle
    {
      var adjacency: map<nat, seq<CommunicationLink>> := map[];
      for i := 0 to |communicationLinks|
        invariant adjacency == Group(communicationLinks[..i])
      {
        var link := communicationLinks[i];
        assert communicationLinks[..i + 1][..i] == communicationLinks[..i];
        adjacency := adjacency[link.from := (if link.from in adjacency then adjacency[link.from] else []) + [link]];
      }
      assert communicationLinks[..|communicationLinks|] == communicationLinks;
      this.communicationLinks := communicationLinks;
      adjacencyList := adjacency;
      state := Idle;
    }

    method Transition(event: CgrEvent)
      modifies this`state
      ensures state == Next(old(state), event)
    {
      state := Next(state, event);
    }
  }
}
