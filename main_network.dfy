/**
  The network src/main.py builds at module level: one node per service event,
  named "<id>_D" and "<id>_A", a train edge per service, the events grouped by
  station and sorted by time, transfer edges between consecutive events of a
  station and one overnight edge per station from its last event to its first.
 */
module MainNetwork {

  import opened Wrappers
  import opened Timetable
  import opened StableSort
  import opened Sequences
  import opened DiGraph

  // ---------------------------------------------------------------------------
  // Step 1: event nodes and train edges

  function DepartureName(s: Service): string
  {
    s.id + "_D"
  }

  function ArrivalName(s: Service): string
  {
    s.id + "_A"
  }

  /** The attributes `add_node` gives an event: its stop's station and time, and its demand. */
  function EventAttrs(stop: Stop, demand: int): Attrs
  {
    map[Station := Text(stop.station), Time := Int(stop.time), Demand := Int(demand)]
  }

  /** The train edge's attributes: lower ceil(demand / capacity), upper max_rs, cost 0. */
  function TrainAttrs(s: Service, rs: RsInfo): Attrs
    requires rs.capacity > 0
  {
    map[Lower := Int(RequiredUnits(s, rs)), Upper := Int(rs.maxRs), Cost := Int(0)]
  }

  /** The three graph calls of one iteration of the service loop. */
  function ServiceOps(s: Service, rs: RsInfo): seq<Op<string>>
    requires rs.capacity > 0 && |s.stops| >= 2
  {
    [ NodeOp(DepartureName(s), EventAttrs(s.stops[0], RequiredUnits(s, rs))),
      NodeOp(ArrivalName(s), EventAttrs(s.stops[1], -RequiredUnits(s, rs))),
      EdgeOp(DepartureName(s), ArrivalName(s), TrainAttrs(s, rs)) ]
  }

  /** Every service has the two stops the loop reads. */
  predicate AllTrips(services: seq<Service>)
  {
    forall k :: 0 <= k < |services| ==> |services[k].stops| >= 2
  }

  /** The graph calls of the whole service loop. */
  function ServicesOps(services: seq<Service>, rs: RsInfo): (ops: seq<Op<string>>)
    requires rs.capacity > 0 && AllTrips(services)
    ensures |ops| == 3 * |services|
  {
    if services == [] then []
    else ServicesOps(services[..|services| - 1], rs) + ServiceOps(services[|services| - 1], rs)
  }

  // ---------------------------------------------------------------------------
  // Step 2: events grouped by station

  /** A node as the grouping loop reads it: its name with its "station" and "time" attributes. */
  datatype Event = Event(node: string, station: string, time: int)

  /** An entry `(node, time)` of a station's list in `events_by_station`. */
  datatype Entry = Entry(node: string, time: int)

  /** The sort key `lambda x: x[1]`. */
  function EntryTime(e: Entry): int
  {
    e.time
  }

  /** A node dictionary the grouping loop can read: a text "station" and an integer "time". */
  predicate Readable(a: Attrs)
  {
    Station in a && a[Station].Text? && Time in a && a[Time].Int?
  }

  predicate AllReadable(g: Graph<string>)
  {
    forall i :: 0 <= i < |g.order| ==> g.order[i] in g.nodes && Readable(g.nodes[g.order[i]])
  }

  /** `G.nodes(data=True)`, in node order. */
  function NodeEvents(g: Graph<string>): (r: seq<Event>)
    requires AllReadable(g)
    ensures |r| == |g.order|
  {
    seq(|g.order|, i requires 0 <= i < |g.order| && AllReadable(g) =>
      Event(g.order[i], g.nodes[g.order[i]][Station].s, g.nodes[g.order[i]][Time].i))
  }

  /** `{station: [] for station in stations}`. */
  function EmptyGroups(stations: seq<string>): map<string, seq<Entry>>
  {
    map st | st in stations :: []
  }

  /**
    The grouping loop: each event appended to its station's list, or the
    KeyError of the first event whose station is not listed.
   */
  function Group(events: seq<Event>, stations: seq<string>): Result<map<string, seq<Entry>>, BuildError>
  {
    if events == [] then Ok(EmptyGroups(stations))
    else
      match Group(events[..|events| - 1], stations)
      case Err(e) => Err(e)
      case Ok(m) =>
        var e := events[|events| - 1];
        if e.station in m then Ok(m[e.station := m[e.station] + [Entry(e.node, e.time)]])
        else Err(UnknownStation(e.station))
  }

  // ---------------------------------------------------------------------------
  // Steps 3 and 4: transfer and overnight edges

  /** A transfer edge's attributes: lower 0, no upper limit, cost 0. */
  const TransferAttrs: Attrs := map[Lower := Int(0), Upper := Infinity, Cost := Int(0)]

  /** An overnight edge's attributes: lower 0, upper 1e10, the station's cost per unit. */
  function OvernightAttrs(cost: Value): Attrs
  {
    map[Lower := Int(0), Upper := Float(BIG), Cost := cost]
  }

  /** The transfer edges of one sorted station list: each entry to the next. */
  function ChainOps(l: seq<Entry>): (ops: seq<Op<string>>)
    ensures |ops| == if l == [] then 0 else |l| - 1
  {
    seq(if l == [] then 0 else |l| - 1, i requires 0 <= i < |l| - 1 => EdgeOp(l[i].node, l[i + 1].node, TransferAttrs))
  }

  /** `events.sort(key=lambda x: x[1])` on every list. */
  function SortGroups(m: map<string, seq<Entry>>): map<string, seq<Entry>>
  {
    map st | st in m :: SortBy(m[st], EntryTime)
  }

  /** The transfer loop over the stations `keys`, in order. */
  function TransferCalls(keys: seq<string>, m: map<string, seq<Entry>>): seq<Op<string>>
    requires forall k :: k in keys ==> k in m
  {
    if keys == [] then []
    else TransferCalls(keys[..|keys| - 1], m) + ChainOps(m[keys[|keys| - 1]])
  }

  /** The overnight edge of a non-empty station list: from its last entry to its first. */
  function OvernightOp(l: seq<Entry>, cost: Value): Op<string>
    requires l != []
  {
    EdgeOp(l[|l| - 1].node, l[0].node, OvernightAttrs(cost))
  }

  /**
    The overnight loop over the stations `keys`, in order: a station without
    events is skipped, a station with events and no cost is a KeyError.
   */
  function OvernightCalls(keys: seq<string>, m: map<string, seq<Entry>>, costs: map<string, Value>)
    : Result<seq<Op<string>>, BuildError>
    requires forall k :: k in keys ==> k in m
  {
    if keys == [] then Ok([])
    else
      match OvernightCalls(keys[..|keys| - 1], m, costs)
      case Err(e) => Err(e)
      case Ok(ops) =>
        var k := keys[|keys| - 1];
        if m[k] == [] then Ok(ops)
        else if k !in costs then Err(UnknownCost(k))
        else Ok(ops + [OvernightOp(m[k], costs[k])])
  }

  /**
    The network src/main.py builds before solving, or the error that stops
    it: a service with fewer than two stops (IndexError), an event at a
    station missing from `stations`, or a station with events missing from
    `cost_per_unit` (KeyError).
   */
  function MainGraph(services: seq<Service>, rs: RsInfo, stations: seq<string>, costs: map<string, Value>)
    : Result<Graph<string>, BuildError>
    requires rs.capacity > 0
  {
    match FirstShort(services)
    case Some(id) => Err(MissingStop(id))
    case None =>
      var g1 := Run(Empty(), ServicesOps(services, rs));
      ServicesReadable(services, rs);
      match Group(NodeEvents(g1), stations)
      case Err(e) => Err(e)
      case Ok(m) =>
        GroupKeys(NodeEvents(g1), stations);
        DedupFacts(stations);
        var keys, sorted := Dedup(stations), SortGroups(m);
        match OvernightCalls(keys, sorted, costs)
        case Err(e) => Err(e)
        case Ok(nights) => Ok(Run(g1, TransferCalls(keys, sorted) + nights))
  }

  // ---------------------------------------------------------------------------
  // What the steps need of each other

  /** One iteration of the service loop: two `add_node` calls and one `add_edge`. */
  lemma {:induction false} RunServiceOps(g: Graph<string>, s: Service, rs: RsInfo)
    requires rs.capacity > 0 && |s.stops| >= 2
    ensures Run(g, ServiceOps(s, rs))
         == AddEdge(AddNode(AddNode(g, DepartureName(s), EventAttrs(s.stops[0], RequiredUnits(s, rs))),
                            ArrivalName(s), EventAttrs(s.stops[1], -RequiredUnits(s, rs))),
                    DepartureName(s), ArrivalName(s), TrainAttrs(s, rs))
  {
    var a := NodeOp(DepartureName(s), EventAttrs(s.stops[0], RequiredUnits(s, rs)));
    var b := NodeOp(ArrivalName(s), EventAttrs(s.stops[1], -RequiredUnits(s, rs)));
    var c := EdgeOp(DepartureName(s), ArrivalName(s), TrainAttrs(s, rs));
    assert ServiceOps(s, rs) == [a] + [b] + [c];
    RunSnoc(g, [], a);
    RunSnoc(g, [a], b);
    RunSnoc(g, [a] + [b], c);
    assert [] + [a] == [a];
  }

  /** A node call with readable attributes, or an edge call between existing nodes, keeps every node readable. */
  lemma {:induction false} ApplyReadable(g: Graph<string>, op: Op<string>)
    requires AllReadable(g)
    requires op.NodeOp? ==> Readable(op.attrs)
    requires op.EdgeOp? ==> op.u in g.nodes && op.v in g.nodes
    ensures AllReadable(Apply(g, op))
  {
    if op.EdgeOp? {
      AddEdgeFacts(g, op.u, op.v, op.attrs);
    }
  }

  /** After the service loop every node has a station and a time. */
  lemma {:induction false} ServicesReadable(services: seq<Service>, rs: RsInfo)
    requires rs.capacity > 0 && AllTrips(services)
    ensures AllReadable(Run(Empty(), ServicesOps(services, rs)))
  {
    if services != [] {
      var n := |services| - 1;
      var s := services[n];
      ServicesReadable(services[..n], rs);
      var g := Run(Empty(), ServicesOps(services[..n], rs));
      RunAppend(Empty(), ServicesOps(services[..n], rs), ServiceOps(s, rs));
      RunServiceOps(g, s, rs);
      var g1 := AddNode(g, DepartureName(s), EventAttrs(s.stops[0], RequiredUnits(s, rs)));
      ApplyReadable(g, NodeOp(DepartureName(s), EventAttrs(s.stops[0], RequiredUnits(s, rs))));
      var g2 := AddNode(g1, ArrivalName(s), EventAttrs(s.stops[1], -RequiredUnits(s, rs)));
      ApplyReadable(g1, NodeOp(ArrivalName(s), EventAttrs(s.stops[1], -RequiredUnits(s, rs))));
      AddNodeFacts(g, DepartureName(s), EventAttrs(s.stops[0], RequiredUnits(s, rs)));
      AddNodeFacts(g1, ArrivalName(s), EventAttrs(s.stops[1], -RequiredUnits(s, rs)));
      ApplyReadable(g2, EdgeOp(DepartureName(s), ArrivalName(s), TrainAttrs(s, rs)));
    }
  }

  /** The grouping keeps exactly the listed stations as keys. */
  lemma {:induction false} GroupKeys(events: seq<Event>, stations: seq<string>)
    ensures Group(events, stations).Ok? ==> forall st :: st in Group(events, stations).value <==> st in stations
  {
    if events != [] {
      GroupKeys(events[..|events| - 1], stations);
    }
  }

  /** Once the grouping loop has failed, later events do not change the error. */
  lemma {:induction false} GroupErrSticks(events: seq<Event>, stations: seq<string>, i: nat)
    requires i <= |events| && Group(events[..i], stations).Err?
    ensures Group(events, stations) == Group(events[..i], stations)
    decreases |events| - i
  {
    if i < |events| {
      var n := |events| - 1;
      assert events[..n][..i] == events[..i];
      GroupErrSticks(events[..n], stations, i);
    } else {
      assert events[..i] == events;
    }
  }

  /** Once the overnight loop has failed, later stations do not change the error. */
  lemma {:induction false} OvernightErrSticks(keys: seq<string>, m: map<string, seq<Entry>>, costs: map<string, Value>, i: nat)
    requires forall k :: k in keys ==> k in m
    requires i <= |keys| && OvernightCalls(keys[..i], m, costs).Err?
    ensures OvernightCalls(keys, m, costs) == OvernightCalls(keys[..i], m, costs)
    decreases |keys| - i
  {
    if i < |keys| {
      var n := |keys| - 1;
      assert keys[..n][..i] == keys[..i];
      OvernightErrSticks(keys[..n], m, costs, i);
    } else {
      assert keys[..i] == keys;
    }
  }

  // ---------------------------------------------------------------------------
  // The script

  /** The service loop's calls grow by one iteration's calls per service. */
  lemma {:induction false} ServicesOpsStep(services: seq<Service>, rs: RsInfo, k: nat)
    requires rs.capacity > 0 && k < |services|
    requires forall j :: 0 <= j <= k ==> |services[j].stops| >= 2
    ensures AllTrips(services[..k]) && AllTrips(services[..k + 1])
    ensures Run(Empty(), ServicesOps(services[..k + 1], rs))
         == Run(Run(Empty(), ServicesOps(services[..k], rs)), ServiceOps(services[k], rs))
  {
    assert services[..k + 1][..k] == services[..k];
    RunAppend(Empty(), ServicesOps(services[..k], rs), ServiceOps(services[k], rs));
  }

  /** One iteration of the service loop: the departure node, the arrival node and the train edge. */
  method AddService(g: Graph<string>, service: Service, rs: RsInfo) returns (h: Graph<string>)
    requires rs.capacity > 0 && |service.stops| >= 2
    ensures h == Run(g, ServiceOps(service, rs))
  {
    RunServiceOps(g, service, rs);
    var stops := service.stops;
    var units := RequiredUnits(service, rs);
    var departure, arrival := DepartureName(service), ArrivalName(service);
    h := AddNode(g, departure, EventAttrs(stops[0], units));
    h := AddNode(h, arrival, EventAttrs(stops[1], -units));
    h := AddEdge(h, departure, arrival, TrainAttrs(service, rs));
  }

  /** Step 1, the service loop; it aborts at the first service with fewer than two stops. */
  method AddServices(services: seq<Service>, rs: RsInfo) returns (r: Result<Graph<string>, BuildError>)
    requires rs.capacity > 0
    ensures FirstShort(services).Some? ==> r == Err(MissingStop(FirstShort(services).value))
    ensures FirstShort(services).None? ==> r == Ok(Run(Empty(), ServicesOps(services, rs)))
  {
    var g := Empty();
    for k := 0 to |services|
      invariant forall j :: 0 <= j < k ==> |services[j].stops| >= 2
      invariant AllTrips(services[..k]) && g == Run(Empty(), ServicesOps(services[..k], rs))
    {
      var service := services[k];
      var stops := service.stops;
      if |stops| < 2 {
        FirstShortAt(services, k);
        return Err(MissingStop(service.id));
      }
      ServicesOpsStep(services, rs, k);
      g := AddService(g, service, rs);
    }
    assert services[..|services|] == services;
    r := Ok(g);
  }

  /**
    Step 2: `events_by_station = {station: [] for station in stations}`, whose
    keys come in first-seen order, then each node appended to its station's list.
   */
  method GroupByStation(g: Graph<string>, stations: seq<string>)
    returns (keys: seq<string>, r: Result<map<string, seq<Entry>>, BuildError>)
    requires AllReadable(g)
    ensures keys == Dedup(stations)
    ensures r == Group(NodeEvents(g), stations)
  {
    var groups: map<string, seq<Entry>> := map[];
    keys := [];
    for i := 0 to |stations|
      invariant keys == Dedup(stations[..i]) && groups == EmptyGroups(stations[..i])
    {
      assert stations[..i + 1][..i] == stations[..i];
      DedupFacts(stations[..i]);
      if stations[i] !in groups {
        keys := keys + [stations[i]];
      }
      groups := groups[stations[i] := []];
    }
    assert stations[..|stations|] == stations;
    ghost var events := NodeEvents(g);
    for i := 0 to |g.order|
      invariant Group(events[..i], stations) == Ok(groups)
    {
      var node := g.order[i];
      var station := g.nodes[node][Station].s;
      assert events[..i + 1][..i] == events[..i];
      if station !in groups {
        GroupErrSticks(events, stations, i + 1);
        return keys, Err(UnknownStation(station));
      }
      groups := groups[station := groups[station] + [Entry(node, g.nodes[node][Time].i)]];
    }
    assert events[..|g.order|] == events;
    r := Ok(groups);
  }

  /** The transfer loop's calls grow by one station's chain per station. */
  lemma {:induction false} TransferCallsStep(g: Graph<string>, keys: seq<string>, m: map<string, seq<Entry>>, i: nat)
    requires i < |keys| && forall k :: k in keys ==> k in m
    ensures forall k :: k in keys[..i + 1] ==> k in m
    ensures Run(g, TransferCalls(keys[..i + 1], m)) == Run(Run(g, TransferCalls(keys[..i], m)), ChainOps(m[keys[i]]))
  {
    assert keys[..i + 1][..i] == keys[..i];
    RunAppend(g, TransferCalls(keys[..i], m), ChainOps(m[keys[i]]));
  }

  /** The lists of the stations in `done` are sorted and the others untouched. */
  predicate SortedThrough(sorted: map<string, seq<Entry>>, groups: map<string, seq<Entry>>, done: seq<string>)
  {
    && sorted.Keys == groups.Keys
    && forall k :: k in sorted ==> sorted[k] == if k in done then SortBy(groups[k], EntryTime) else groups[k]
  }

  /** Sorting the next station's list extends the sorted stations by one. */
  lemma {:induction false} SortedThroughStep(sorted: map<string, seq<Entry>>, groups: map<string, seq<Entry>>, keys: seq<string>, i: nat)
    requires Distinct(keys) && i < |keys| && keys[i] in sorted
    requires SortedThrough(sorted, groups, keys[..i])
    ensures SortedThrough(sorted[keys[i] := SortBy(sorted[keys[i]], EntryTime)], groups, keys[..i + 1])
  {
    assert keys[i] !in keys[..i];
    assert forall k :: k in keys[..i + 1] <==> k in keys[..i] || k == keys[i];
  }

  /** Once every station is sorted, the map is `SortGroups` of the original. */
  lemma {:induction false} SortedThroughAll(sorted: map<string, seq<Entry>>, groups: map<string, seq<Entry>>, keys: seq<string>)
    requires SortedThrough(sorted, groups, keys) && forall k :: k in groups <==> k in keys
    ensures sorted == SortGroups(groups)
  {
  }

  /** The inner transfer loop over one sorted station list. */
  method AddChain(g: Graph<string>, l: seq<Entry>) returns (h: Graph<string>)
    ensures h == Run(g, ChainOps(l))
  {
    h := g;
    if l == [] {
      return;
    }
    for i := 0 to |l| - 1
      invariant h == Run(g, ChainOps(l)[..i])
    {
      var op := EdgeOp(l[i].node, l[i + 1].node, TransferAttrs);
      assert ChainOps(l)[i] == op;
      RunStep(g, ChainOps(l), i);
      h := AddEdge(h, l[i].node, l[i + 1].node, map[Lower := Int(0), Upper := Infinity, Cost := Int(0)]);
    }
    assert ChainOps(l)[..|l| - 1] == ChainOps(l);
  }

  /** Step 3: every station's list sorted in place by time, then its transfer edges. */
  method SortAndAddTransfers(g: Graph<string>, keys: seq<string>, groups: map<string, seq<Entry>>)
    returns (h: Graph<string>, sorted: map<string, seq<Entry>>)
    requires Distinct(keys) && forall k :: k in groups <==> k in keys
    ensures sorted == SortGroups(groups)
    ensures h == Run(g, TransferCalls(keys, sorted))
  {
    h, sorted := g, groups;
    for i := 0 to |keys|
      invariant SortedThrough(sorted, groups, keys[..i])
      invariant h == Run(g, TransferCalls(keys[..i], SortGroups(groups)))
    {
      var station := keys[i];
      var events := SortBy(sorted[station], EntryTime);
      SortedThroughStep(sorted, groups, keys, i);
      sorted := sorted[station := events];
      TransferCallsStep(g, keys, SortGroups(groups), i);
      h := AddChain(h, events);
    }
    assert keys[..|keys|] == keys;
    SortedThroughAll(sorted, groups, keys);
  }

  /** Step 4, the overnight loop; it aborts at the first station with events and no cost. */
  method AddOvernights(g: Graph<string>, keys: seq<string>, sorted: map<string, seq<Entry>>, costs: map<string, Value>)
    returns (r: Result<Graph<string>, BuildError>)
    requires forall k :: k in keys ==> k in sorted
    ensures OvernightCalls(keys, sorted, costs).Err? ==> r == Err(OvernightCalls(keys, sorted, costs).error)
    ensures OvernightCalls(keys, sorted, costs).Ok? ==> r == Ok(Run(g, OvernightCalls(keys, sorted, costs).value))
  {
    var h := g;
    ghost var ops: seq<Op<string>> := [];
    for i := 0 to |keys|
      invariant OvernightCalls(keys[..i], sorted, costs) == Ok(ops) && h == Run(g, ops)
    {
      var station := keys[i];
      var events := sorted[station];
      assert keys[..i + 1][..i] == keys[..i];
      if events != [] {
        if station !in costs {
          OvernightErrSticks(keys, sorted, costs, i + 1);
          return Err(UnknownCost(station));
        }
        var op := OvernightOp(events, costs[station]);
        RunSnoc(g, ops, op);
        h := AddEdge(h, events[|events| - 1].node, events[0].node,
                     map[Lower := Int(0), Upper := Float(BIG), Cost := costs[station]]);
        ops := ops + [op];
      }
    }
    assert keys[..|keys|] == keys;
    r := Ok(h);
  }

  /** src/main.py up to the solver call. */
  method BuildMainNetwork(services: seq<Service>, rs: RsInfo, stations: seq<string>, costs: map<string, Value>)
    returns (r: Result<Graph<string>, BuildError>)
    requires rs.capacity > 0
    ensures r == MainGraph(services, rs, stations, costs)
  {
    var built := AddServices(services, rs);
    if built.Err? {
      return built;
    }
    var g1 := built.value;
    ServicesReadable(services, rs);
    var keys, groups := GroupByStation(g1, stations);
    if groups.Err? {
      return Err(groups.error);
    }
    GroupKeys(NodeEvents(g1), stations);
    DedupFacts(stations);
    var g2, sorted := SortAndAddTransfers(g1, keys, groups.value);
    var nights := AddOvernights(g2, keys, sorted, costs);
    if nights.Err? {
      return nights;
    }
    RunAppend(g1, TransferCalls(keys, sorted), OvernightCalls(keys, sorted, costs).value);
    r := nights;
  }
}
