/**
  What the network of src/main.py satisfies once it is built: the nodes and
  their demands, the train edges, the station lists, and the cycle the
  transfer and overnight edges close at every station; and when the build
  fails.
 */
module MainFacts {

  import opened Wrappers
  import opened Timetable
  import opened StableSort
  import opened Sequences
  import opened DiGraph
  import opened MainNetwork
  import opened MainSteps
  import opened MainLinks

  /** The graph after the service loop. */
  function ServicesGraph(services: seq<Service>, rs: RsInfo): Graph<string>
    requires rs.capacity > 0 && AllTrips(services)
  {
    Run(Empty(), ServicesOps(services, rs))
  }

  /** The nodes as the grouping loop reads them. */
  function Events(services: seq<Service>, rs: RsInfo): seq<Event>
    requires rs.capacity > 0 && AllTrips(services)
  {
    ServicesReadable(services, rs);
    NodeEvents(ServicesGraph(services, rs))
  }

  /** Some service's departure or arrival stop is at `st`. */
  predicate Visits(services: seq<Service>, st: string)
  {
    exists k, j :: 0 <= k < |services| && 0 <= j < 2 && j < |services[k].stops| && services[k].stops[j].station == st
  }

  /** The grouping loop reads the nodes in order, each with its own station. */
  lemma {:induction false} NodeEventsRead(g: Graph<string>)
    requires AllReadable(g)
    ensures forall i :: 0 <= i < |g.order| ==> NodeEvents(g)[i].node == g.order[i] && NodeAt(g, g.order[i], NodeEvents(g)[i].station)
  {
  }

  /** The service graph's basic shape: valid, its nodes in service order, each service's nodes present. */
  lemma {:induction false} ServicesGraphBasics(services: seq<Service>, rs: RsInfo)
    requires rs.capacity > 0 && AllTrips(services) && DistinctIds(services)
    ensures Valid(ServicesGraph(services, rs)) && ServicesGraph(services, rs).order == EventNames(services)
    ensures AllServicesPresent(ServicesGraph(services, rs), services, rs)
  {
    ServicesGraphShape(services, rs);
  }

  /** Each event is a distinct node of the service graph, read with that node's station. */
  lemma {:induction false} EventsAreNodes(services: seq<Service>, rs: RsInfo)
    requires rs.capacity > 0 && AllTrips(services) && DistinctIds(services)
    ensures |Events(services, rs)| == |EventNames(services)|
    ensures forall i :: 0 <= i < |Events(services, rs)| ==>
      Events(services, rs)[i].node == EventNames(services)[i] && NodeAt(ServicesGraph(services, rs), EventNames(services)[i], Events(services, rs)[i].station)
    ensures forall i, j :: 0 <= i < j < |Events(services, rs)| ==> Events(services, rs)[i].node != Events(services, rs)[j].node
  {
    var g := ServicesGraph(services, rs);
    ServicesGraphBasics(services, rs);
    ServicesReadable(services, rs);
    NodeEventsRead(g);
  }

  /** Each service's departure node is at its first stop's station and its arrival node at its second's. */
  lemma {:induction false} ServiceNodeStations(services: seq<Service>, rs: RsInfo, k: nat)
    requires rs.capacity > 0 && AllTrips(services) && DistinctIds(services) && k < |services|
    ensures NodeAt(ServicesGraph(services, rs), DepartureName(services[k]), services[k].stops[0].station)
    ensures NodeAt(ServicesGraph(services, rs), ArrivalName(services[k]), services[k].stops[1].station)
  {
    ServicesGraphBasics(services, rs);
    assert HasServiceNodes(ServicesGraph(services, rs), services[k], rs);
  }

  /** Every event's station is visited by some service. */
  lemma {:induction false} EventVisits(services: seq<Service>, rs: RsInfo, i: nat)
    requires rs.capacity > 0 && AllTrips(services) && DistinctIds(services) && i < |Events(services, rs)|
    ensures Visits(services, Events(services, rs)[i].station)
  {
    var g, events := ServicesGraph(services, rs), Events(services, rs);
    EventsAreNodes(services, rs);
    var n := EventNames(services)[i];
    EventNamesMembers(services, n);
    var k :| 0 <= k < |services| && (n == DepartureName(services[k]) || n == ArrivalName(services[k]));
    ServiceNodeStations(services, rs, k);
    var j := if n == DepartureName(services[k]) then 0 else 1;
    assert services[k].stops[j].station == events[i].station;
  }

  /** The node named `n` of the service graph is an event with the node's station. */
  lemma {:induction false} NamedEvent(services: seq<Service>, rs: RsInfo, n: string, st: string)
    requires rs.capacity > 0 && AllTrips(services) && DistinctIds(services)
    requires n in EventNames(services) && NodeAt(ServicesGraph(services, rs), n, st)
    ensures exists i :: 0 <= i < |Events(services, rs)| && Events(services, rs)[i].station == st && Events(services, rs)[i].node == n
  {
    var g, events := ServicesGraph(services, rs), Events(services, rs);
    EventsAreNodes(services, rs);
    var i :| 0 <= i < |EventNames(services)| && EventNames(services)[i] == n;
    assert NodeAt(g, n, events[i].station);
    assert Text(events[i].station) == Text(st);
  }

  /** The departure and the arrival stop of each service have events at their stations. */
  lemma {:induction false} ServiceEvent(services: seq<Service>, rs: RsInfo, k: nat, j: nat)
    requires rs.capacity > 0 && AllTrips(services) && DistinctIds(services) && k < |services| && j < 2
    ensures exists i :: 0 <= i < |Events(services, rs)| && Events(services, rs)[i].station == services[k].stops[j].station
  {
    ServiceNodeStations(services, rs, k);
    var n := if j == 0 then DepartureName(services[k]) else ArrivalName(services[k]);
    EventNamesMembers(services, n);
    NamedEvent(services, rs, n, services[k].stops[j].station);
  }

  /** Every visited station has an event. */
  lemma {:induction false} VisitHasEvent(services: seq<Service>, rs: RsInfo, st: string)
    requires rs.capacity > 0 && AllTrips(services) && DistinctIds(services) && Visits(services, st)
    ensures exists i :: 0 <= i < |Events(services, rs)| && Events(services, rs)[i].station == st
  {
    var k, j :| 0 <= k < |services| && 0 <= j < 2 && j < |services[k].stops| && services[k].stops[j].station == st;
    ServiceEvent(services, rs, k, j);
  }

  // ---------------------------------------------------------------------------
  // The station lists

  /** Every listed station's list after the sort of step 3. */
  function Lists(services: seq<Service>, rs: RsInfo, stations: seq<string>): map<string, seq<Entry>>
    requires rs.capacity > 0 && AllTrips(services)
  {
    map st | st in stations :: StationList(Events(services, rs), st)
  }

  /** A station's sorted list holds distinct nodes of the service graph, each at that station. */
  lemma {:induction false} StationListPlaced(services: seq<Service>, rs: RsInfo, st: string)
    requires rs.capacity > 0 && AllTrips(services) && DistinctIds(services)
    ensures DistinctNodes(StationList(Events(services, rs), st))
    ensures forall e :: e in StationList(Events(services, rs), st) ==> NodeAt(ServicesGraph(services, rs), e.node, st)
  {
    var g, events := ServicesGraph(services, rs), Events(services, rs);
    EventsAreNodes(services, rs);
    AtStationDistinct(events, st);
    StationListFacts(events, st);
    DistinctNodesPermutation(AtStation(events, st), StationList(events, st));
    forall e | e in StationList(events, st)
      ensures NodeAt(g, e.node, st)
    {
      var i :| 0 <= i < |events| && events[i].station == st && e == Entry(events[i].node, events[i].time);
    }
  }

  /** The lists of the listed stations are placed in the service graph. */
  lemma {:induction false} ListsPlaced(services: seq<Service>, rs: RsInfo, stations: seq<string>)
    requires rs.capacity > 0 && AllTrips(services) && DistinctIds(services)
    ensures Placed(ServicesGraph(services, rs), Dedup(stations), Lists(services, rs, stations))
  {
    var lists: map<string, seq<Entry>> := Lists(services, rs, stations);
    DedupFacts(stations);
    forall k | k in Dedup(stations)
      ensures k in lists && DistinctNodes(lists[k])
      ensures forall e :: e in lists[k] ==> NodeAt(ServicesGraph(services, rs), e.node, k)
    {
      StationListPlaced(services, rs, k);
    }
  }

  /** When every event's station is listed, the grouping loop and the sort give `Lists`. */
  lemma {:induction false} SortedGroups(services: seq<Service>, rs: RsInfo, stations: seq<string>)
    requires rs.capacity > 0 && AllTrips(services)
    requires Group(Events(services, rs), stations).Ok?
    ensures SortGroups(Group(Events(services, rs), stations).value) == Lists(services, rs, stations)
  {
    var events := Events(services, rs);
    GroupOk(events, stations);
    GroupLists(events, stations);
  }

  // ---------------------------------------------------------------------------
  // The built network

  /** A built network is the service graph with the transfer and overnight calls made on it. */
  lemma {:induction false} MainGraphUnfold(services: seq<Service>, rs: RsInfo, stations: seq<string>, costs: map<string, Value>)
    requires rs.capacity > 0 && MainGraph(services, rs, stations, costs).Ok?
    ensures AllTrips(services)
    ensures Group(Events(services, rs), stations).Ok?
    ensures forall k :: k in Dedup(stations) ==> k in Lists(services, rs, stations)
    ensures OvernightCalls(Dedup(stations), Lists(services, rs, stations), costs).Ok?
    ensures MainGraph(services, rs, stations, costs).value
         == Run(ServicesGraph(services, rs), Links(Dedup(stations), Lists(services, rs, stations), costs))
  {
    assert FirstShort(services).None?;
    assert Group(Events(services, rs), stations).Ok?;
    SortedGroups(services, rs, stations);
    DedupFacts(stations);
  }

  /** The built network has exactly the service graph's nodes: two per service, with their stations, times and demands. */
  lemma {:induction false} MainNodes(services: seq<Service>, rs: RsInfo, stations: seq<string>, costs: map<string, Value>, g: Graph<string>)
    requires rs.capacity > 0 && DistinctIds(services) && MainGraph(services, rs, stations, costs) == Ok(g)
    ensures AllTrips(services)
    ensures Valid(g) && g.order == EventNames(services)
    ensures forall k :: 0 <= k < |services| ==> HasServiceNodes(g, services[k], rs)
    ensures g.nodes == ServicesGraph(services, rs).nodes
  {
    MainGraphUnfold(services, rs, stations, costs);
    var g1 := ServicesGraph(services, rs);
    ListsPlaced(services, rs, stations);
    LinksKeepNodes(g1, Dedup(stations), Lists(services, rs, stations), costs);
    ServicesGraphBasics(services, rs);
    RunValid(g1, Links(Dedup(stations), Lists(services, rs, stations), costs));
  }

  /** The demands of the built network cancel: every unit a departure supplies, its arrival absorbs. */
  lemma {:induction false} MainBalanced(services: seq<Service>, rs: RsInfo, stations: seq<string>, costs: map<string, Value>, g: Graph<string>)
    requires rs.capacity > 0 && DistinctIds(services) && MainGraph(services, rs, stations, costs) == Ok(g)
    ensures TotalDemand(g) == 0
  {
    MainNodes(services, rs, stations, costs, g);
    ServiceDemandsCancel(g, services, rs);
  }

  /**
    Every service keeps its train edge; when its two stops are at different
    stations the edge keeps exactly the train attributes.
   */
  lemma {:induction false} MainTrainEdge(services: seq<Service>, rs: RsInfo, stations: seq<string>, costs: map<string, Value>, g: Graph<string>,
                                         k: nat)
    requires rs.capacity > 0 && DistinctIds(services) && MainGraph(services, rs, stations, costs) == Ok(g) && k < |services|
    ensures |services[k].stops| >= 2
    ensures (DepartureName(services[k]), ArrivalName(services[k])) in g.edges
    ensures services[k].stops[0].station != services[k].stops[1].station ==>
      g.edges[(DepartureName(services[k]), ArrivalName(services[k]))] == TrainAttrs(services[k], rs)
  {
    MainGraphUnfold(services, rs, stations, costs);
    var g1 := ServicesGraph(services, rs);
    var keys, lists := Dedup(stations), Lists(services, rs, stations);
    var p := (DepartureName(services[k]), ArrivalName(services[k]));
    ServicesGraphBasics(services, rs);
    assert HasTrainEdge(g1, services[k], rs);
    RunEdgeKeys(g1, Links(keys, lists, costs));
    if services[k].stops[0].station != services[k].stops[1].station {
      ListsPlaced(services, rs, stations);
      ServiceNodeStations(services, rs, k);
      LinksSpareCrossing(g1, keys, lists, costs, p, services[k].stops[0].station, services[k].stops[1].station);
    }
  }

  /** Every edge of the built network is a train edge or joins two nodes at one station. */
  lemma {:induction false} MainEdges(services: seq<Service>, rs: RsInfo, stations: seq<string>, costs: map<string, Value>, g: Graph<string>)
    requires rs.capacity > 0 && DistinctIds(services) && MainGraph(services, rs, stations, costs) == Ok(g)
    ensures forall p :: p in g.edges ==>
      || (exists k :: 0 <= k < |services| && p == (DepartureName(services[k]), ArrivalName(services[k])))
      || (exists st :: NodeAt(g, p.0, st) && NodeAt(g, p.1, st))
  {
    MainGraphUnfold(services, rs, stations, costs);
    MainNodes(services, rs, stations, costs, g);
    var g1 := ServicesGraph(services, rs);
    ServicesGraphShape(services, rs);
    ListsPlaced(services, rs, stations);
    LinksEdgesAt(g1, Dedup(stations), Lists(services, rs, stations), costs);
    assert forall n, st :: NodeAt(g1, n, st) ==> NodeAt(g, n, st);
  }

  /**
    The edges of the built network are exactly accounted for: besides the
    train edges there are, for each listed station, only the edges from an
    event of its time-ordered list to the next one and the edge from its
    last event back to its first, and every one of those is there.
   */
  lemma {:induction false} MainStationEdges(services: seq<Service>, rs: RsInfo, stations: seq<string>, costs: map<string, Value>, g: Graph<string>)
    requires rs.capacity > 0 && DistinctIds(services) && MainGraph(services, rs, stations, costs) == Ok(g)
    ensures AllTrips(services)
    ensures forall p :: p in g.edges ==>
      || (exists k :: 0 <= k < |services| && p == (DepartureName(services[k]), ArrivalName(services[k])))
      || (exists st :: st in stations && CyclePair(StationList(Events(services, rs), st), p))
    ensures forall st, p :: st in stations && CyclePair(StationList(Events(services, rs), st), p) ==> p in g.edges
  {
    MainGraphUnfold(services, rs, stations, costs);
    ServiceLinksCyclePairs(services, rs, stations, costs);
    forall st, p | st in stations && CyclePair(StationList(Events(services, rs), st), p)
      ensures p in g.edges
    {
      MainStationCycle(services, rs, stations, costs, g, st);
    }
  }

  /** The links add to the service graph only the cycle pairs of the listed stations' lists. */
  lemma {:induction false} ServiceLinksCyclePairs(services: seq<Service>, rs: RsInfo, stations: seq<string>, costs: map<string, Value>)
    requires rs.capacity > 0 && AllTrips(services) && DistinctIds(services)
    requires forall k :: k in Dedup(stations) ==> k in Lists(services, rs, stations)
    requires OvernightCalls(Dedup(stations), Lists(services, rs, stations), costs).Ok?
    ensures forall p :: p in Run(ServicesGraph(services, rs), Links(Dedup(stations), Lists(services, rs, stations), costs)).edges ==>
      || (exists k :: 0 <= k < |services| && p == (DepartureName(services[k]), ArrivalName(services[k])))
      || (exists st :: st in stations && CyclePair(StationList(Events(services, rs), st), p))
  {
    var g1 := ServicesGraph(services, rs);
    var keys, lists := Dedup(stations), Lists(services, rs, stations);
    ServicesGraphShape(services, rs);
    LinksCyclePairs(g1, keys, lists, costs);
    DedupFacts(stations);
    forall p | p in Run(g1, Links(keys, lists, costs)).edges && p !in g1.edges
      ensures exists st :: st in stations && CyclePair(StationList(Events(services, rs), st), p)
    {
      var st :| st in keys && CyclePair(lists[st], p);
      assert st in stations && lists[st] == StationList(Events(services, rs), st);
    }
  }

  /**
    At every listed station with events there is a cost, and the edges of
    the built network run through the station's events in time order:
    each to the next by a transfer edge, and the last back to the first by
    the overnight edge (a single event gets an overnight loop on itself).
   */
  lemma {:induction false} MainStationCycle(services: seq<Service>, rs: RsInfo, stations: seq<string>, costs: map<string, Value>, g: Graph<string>,
                                            st: string)
    requires rs.capacity > 0 && DistinctIds(services) && MainGraph(services, rs, stations, costs) == Ok(g) && st in stations
    ensures AllTrips(services)
    ensures var l := StationList(Events(services, rs), st);
      forall i :: 0 <= i < |l| - 1 ==> HasEdgeWith(g, l[i].node, l[i + 1].node, TransferAttrs)
    ensures var l := StationList(Events(services, rs), st);
      l != [] ==> st in costs && HasEdgeWith(g, l[|l| - 1].node, l[0].node, OvernightAttrs(costs[st]))
  {
    MainGraphUnfold(services, rs, stations, costs);
    var g1 := ServicesGraph(services, rs);
    var keys, lists := Dedup(stations), Lists(services, rs, stations);
    ListsPlaced(services, rs, stations);
    DedupFacts(stations);
    assert st in keys;
    var l := lists[st];
    forall i | 0 <= i < |l| - 1
      ensures HasEdgeWith(g, l[i].node, l[i + 1].node, TransferAttrs)
    {
      TransferEdge(g1, keys, lists, costs, st, i);
    }
    if l != [] {
      OvernightEdge(g1, keys, lists, costs, st);
    }
  }

  /** A node of the service graph at a station is in that station's sorted list. */
  lemma {:induction false} StationListComplete(services: seq<Service>, rs: RsInfo, st: string, n: string)
    requires rs.capacity > 0 && AllTrips(services) && DistinctIds(services)
    requires NodeAt(ServicesGraph(services, rs), n, st)
    ensures n in NodesOf(StationList(Events(services, rs), st))
  {
    var events := Events(services, rs);
    ServicesGraphBasics(services, rs);
    NamedEvent(services, rs, n, st);
    var i :| 0 <= i < |events| && events[i].station == st && events[i].node == n;
    StationListHas(events, st, i);
  }

  /**
    A station's sorted list holds exactly the nodes of the built network at
    that station, once each, in time order.
   */
  lemma {:induction false} MainStationList(services: seq<Service>, rs: RsInfo, stations: seq<string>, costs: map<string, Value>, g: Graph<string>,
                                           st: string)
    requires rs.capacity > 0 && DistinctIds(services) && MainGraph(services, rs, stations, costs) == Ok(g)
    ensures AllTrips(services)
    ensures SortedBy(StationList(Events(services, rs), st), EntryTime)
    ensures DistinctNodes(StationList(Events(services, rs), st))
    ensures forall n :: n in NodesOf(StationList(Events(services, rs), st)) <==> NodeAt(g, n, st)
  {
    MainNodes(services, rs, stations, costs, g);
    var g1, events := ServicesGraph(services, rs), Events(services, rs);
    var l := StationList(events, st);
    StationListPlaced(services, rs, st);
    StationListFacts(events, st);
    forall n | n in NodesOf(l)
      ensures NodeAt(g, n, st)
    {
      var e :| e in l && e.node == n;
    }
    forall n | NodeAt(g, n, st)
      ensures n in NodesOf(l)
    {
      StationListComplete(services, rs, st, n);
    }
  }

  /** A station's list has events exactly when some service departs from or arrives at it. */
  lemma {:induction false} StationListVisited(services: seq<Service>, rs: RsInfo, st: string)
    requires rs.capacity > 0 && AllTrips(services) && DistinctIds(services)
    ensures StationList(Events(services, rs), st) != [] <==> Visits(services, st)
  {
    var events := Events(services, rs);
    if Visits(services, st) {
      VisitHasEvent(services, rs, st);
      var i :| 0 <= i < |events| && events[i].station == st;
      StationListHas(events, st, i);
    }
    if StationList(events, st) != [] {
      StationListFacts(events, st);
      var e := StationList(events, st)[0];
      assert e in StationList(events, st);
      var i :| 0 <= i < |events| && events[i].station == st && e == Entry(events[i].node, events[i].time);
      EventVisits(services, rs, i);
    }
  }

  /** The stations of the events are exactly those of the first two stops. */
  lemma {:induction false} EventStationsListed(services: seq<Service>, rs: RsInfo, stations: seq<string>)
    requires rs.capacity > 0 && AllTrips(services) && DistinctIds(services)
    ensures (forall i :: 0 <= i < |Events(services, rs)| ==> Events(services, rs)[i].station in stations) <==>
      forall k, j :: 0 <= k < |services| && 0 <= j < 2 ==> services[k].stops[j].station in stations
  {
    var events := Events(services, rs);
    if forall i :: 0 <= i < |events| ==> events[i].station in stations {
      forall k, j | 0 <= k < |services| && 0 <= j < 2
        ensures services[k].stops[j].station in stations
      {
        ServiceEvent(services, rs, k, j);
      }
    }
    if forall k, j :: 0 <= k < |services| && 0 <= j < 2 ==> services[k].stops[j].station in stations {
      forall i | 0 <= i < |events|
        ensures events[i].station in stations
      {
        EventVisits(services, rs, i);
      }
    }
  }

  /** The overnight loop succeeds exactly when every listed station that a service visits has a cost. */
  lemma {:induction false} OvernightsListed(services: seq<Service>, rs: RsInfo, stations: seq<string>, costs: map<string, Value>)
    requires rs.capacity > 0 && AllTrips(services) && DistinctIds(services)
    ensures forall k :: k in Dedup(stations) ==> k in Lists(services, rs, stations)
    ensures OvernightCalls(Dedup(stations), Lists(services, rs, stations), costs).Ok? <==>
      forall st :: st in stations && Visits(services, st) ==> st in costs
  {
    var keys, lists := Dedup(stations), Lists(services, rs, stations);
    DedupFacts(stations);
    OvernightCallsOk(keys, lists, costs);
    forall st | st in stations
      ensures lists[st] != [] <==> Visits(services, st)
    {
      StationListVisited(services, rs, st);
    }
  }

  /**
    The network is built exactly when every service has two stops, every
    departure and arrival station is listed, and every listed station a
    service visits has a cost.
   */
  lemma {:induction false} MainGraphOk(services: seq<Service>, rs: RsInfo, stations: seq<string>, costs: map<string, Value>)
    requires rs.capacity > 0 && DistinctIds(services)
    ensures MainGraph(services, rs, stations, costs).Ok? <==>
      && AllTrips(services)
      && (forall k, j :: 0 <= k < |services| && 0 <= j < 2 ==> services[k].stops[j].station in stations)
      && (forall st :: st in stations && Visits(services, st) ==> st in costs)
  {
    if MainGraph(services, rs, stations, costs).Ok? {
      MainGraphUnfold(services, rs, stations, costs);
      GroupOk(Events(services, rs), stations);
      EventStationsListed(services, rs, stations);
      OvernightsListed(services, rs, stations, costs);
    }
    if AllTrips(services) {
      var events := Events(services, rs);
      GroupOk(events, stations);
      EventStationsListed(services, rs, stations);
      OvernightsListed(services, rs, stations, costs);
      if Group(events, stations).Ok? {
        SortedGroups(services, rs, stations);
      }
    }
  }
}
