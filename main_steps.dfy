/**
  What each step of the src/main.py script produces on its own: the service
  loop's nodes and train edges, the station lists of the grouping loop, and
  the calls of the transfer and overnight loops.
 */
module MainSteps {

  import opened Wrappers
  import opened Timetable
  import opened StableSort
  import opened Sequences
  import opened DiGraph
  import opened MainNetwork

  // ---------------------------------------------------------------------------
  // Node names

  /** A departure name is never an arrival name, and each name determines its service's identifier. */
  lemma {:induction false} NamesDiffer(s: Service, t: Service)
    ensures DepartureName(s) != ArrivalName(t)
    ensures DepartureName(s) == DepartureName(t) ==> s.id == t.id
    ensures ArrivalName(s) == ArrivalName(t) ==> s.id == t.id
  {
    var d, a := DepartureName(s), ArrivalName(t);
    assert d[|d| - 1] == 'D' && a[|a| - 1] == 'A';
    if d == DepartureName(t) {
      SuffixCancels(s.id, t.id, "_D");
    }
    if ArrivalName(s) == a {
      SuffixCancels(s.id, t.id, "_A");
    }
  }

  /** The node names of the services, in the order the service loop adds them. */
  function EventNames(services: seq<Service>): (r: seq<string>)
    ensures |r| == 2 * |services|
  {
    if services == [] then []
    else
      var s := services[|services| - 1];
      EventNames(services[..|services| - 1]) + [DepartureName(s), ArrivalName(s)]
  }

  /** A name is listed exactly when it is the departure or the arrival of some service. */
  lemma {:induction false} EventNamesMembers(services: seq<Service>, n: string)
    ensures n in EventNames(services) <==>
      exists k :: 0 <= k < |services| && (n == DepartureName(services[k]) || n == ArrivalName(services[k]))
  {
    if services != [] {
      var p := services[..|services| - 1];
      EventNamesMembers(p, n);
      if n in EventNames(p) {
        var k :| 0 <= k < |p| && (n == DepartureName(p[k]) || n == ArrivalName(p[k]));
        assert p[k] == services[k];
      }
      if exists k :: 0 <= k < |services| && (n == DepartureName(services[k]) || n == ArrivalName(services[k])) {
        var k :| 0 <= k < |services| && (n == DepartureName(services[k]) || n == ArrivalName(services[k]));
        if k < |p| {
          assert p[k] == services[k];
        }
      }
    }
  }

  /** A new service's names are not among the names of services with other identifiers. */
  lemma {:induction false} NamesFresh(services: seq<Service>, s: Service)
    requires forall k :: 0 <= k < |services| ==> services[k].id != s.id
    ensures DepartureName(s) !in EventNames(services) && ArrivalName(s) !in EventNames(services)
  {
    EventNamesMembers(services, DepartureName(s));
    EventNamesMembers(services, ArrivalName(s));
    forall k | 0 <= k < |services|
      ensures DepartureName(s) != DepartureName(services[k]) && DepartureName(s) != ArrivalName(services[k])
      ensures ArrivalName(s) != DepartureName(services[k]) && ArrivalName(s) != ArrivalName(services[k])
    {
      NamesDiffer(s, services[k]);
      NamesDiffer(services[k], s);
    }
  }

  // ---------------------------------------------------------------------------
  // Step 1: the graph after the service loop

  /** Service `s`'s two nodes carry its stops' stations and times and its demand, positive then negative. */
  ghost predicate HasServiceNodes(g: Graph<string>, s: Service, rs: RsInfo)
    requires rs.capacity > 0 && |s.stops| >= 2
  {
    && DepartureName(s) in g.nodes && g.nodes[DepartureName(s)] == EventAttrs(s.stops[0], RequiredUnits(s, rs))
    && ArrivalName(s) in g.nodes && g.nodes[ArrivalName(s)] == EventAttrs(s.stops[1], -RequiredUnits(s, rs))
  }

  /** Service `s`'s train edge carries exactly the train attributes. */
  ghost predicate HasTrainEdge(g: Graph<string>, s: Service, rs: RsInfo)
    requires rs.capacity > 0
  {
    (DepartureName(s), ArrivalName(s)) in g.edges && g.edges[(DepartureName(s), ArrivalName(s))] == TrainAttrs(s, rs)
  }

  /** Every service has its two nodes and its train edge. */
  ghost predicate AllServicesPresent(g: Graph<string>, services: seq<Service>, rs: RsInfo)
    requires rs.capacity > 0 && AllTrips(services)
  {
    forall k :: 0 <= k < |services| ==> HasServiceNodes(g, services[k], rs) && HasTrainEdge(g, services[k], rs)
  }

  /** Every edge is some service's train edge. */
  ghost predicate OnlyTrainEdges(g: Graph<string>, services: seq<Service>)
  {
    forall p :: p in g.edges ==> exists k :: 0 <= k < |services| && p == (DepartureName(services[k]), ArrivalName(services[k]))
  }

  /**
    The graph the service loop leaves: two nodes per service, in service
    order, and one train edge per service and no other edge.
   */
  ghost predicate ServiceGraph(g: Graph<string>, services: seq<Service>, rs: RsInfo)
    requires rs.capacity > 0 && AllTrips(services)
  {
    && Valid(g)
    && g.order == EventNames(services)
    && AllServicesPresent(g, services, rs)
    && OnlyTrainEdges(g, services)
  }

  /** One iteration of the service loop on names not yet in the graph, in closed form. */
  function WithService(g: Graph<string>, s: Service, rs: RsInfo): Graph<string>
    requires rs.capacity > 0 && |s.stops| >= 2
  {
    Graph(g.order + [DepartureName(s), ArrivalName(s)],
          g.nodes[DepartureName(s) := EventAttrs(s.stops[0], RequiredUnits(s, rs))]
                 [ArrivalName(s) := EventAttrs(s.stops[1], -RequiredUnits(s, rs))],
          g.edges[(DepartureName(s), ArrivalName(s)) := TrainAttrs(s, rs)])
  }

  /** On fresh names, one iteration appends the two nodes, sets their attributes and adds the train edge. */
  lemma {:induction false} FreshServiceOps(g: Graph<string>, s: Service, rs: RsInfo)
    requires rs.capacity > 0 && |s.stops| >= 2
    requires DepartureName(s) !in g.nodes && ArrivalName(s) !in g.nodes
    requires (DepartureName(s), ArrivalName(s)) !in g.edges
    ensures Run(g, ServiceOps(s, rs)) == WithService(g, s, rs)
  {
    NamesDiffer(s, s);
    RunServiceOps(g, s, rs);
    AddNewPair(g, DepartureName(s), ArrivalName(s), EventAttrs(s.stops[0], RequiredUnits(s, rs)),
               EventAttrs(s.stops[1], -RequiredUnits(s, rs)), TrainAttrs(s, rs));
  }

  /** Appending two fresh, different names keeps the representation invariant. */
  lemma {:induction false} ValidAppendTwo(g: Graph<string>, d: string, a: string, da: Attrs, aa: Attrs, p: (string, string), pa: Attrs)
    requires Valid(g) && d !in g.nodes && a !in g.nodes && d != a && p == (d, a)
    ensures Valid(Graph(g.order + [d, a], g.nodes[d := da][a := aa], g.edges[p := pa]))
  {
    var o := g.order + [d, a];
    assert d !in g.order && a !in g.order;
    forall i, j | 0 <= i < j < |o|
      ensures o[i] != o[j]
    {
      if j < |g.order| {
        assert o[i] == g.order[i] && o[j] == g.order[j];
      } else if i < |g.order| {
        assert o[i] == g.order[i];
      }
    }
  }

  /** Adding a service with a new identifier keeps the representation invariant. */
  lemma {:induction false} WithServiceValid(g: Graph<string>, services: seq<Service>, s: Service, rs: RsInfo)
    requires rs.capacity > 0 && |s.stops| >= 2
    requires Valid(g) && g.order == EventNames(services)
    requires forall k :: 0 <= k < |services| ==> services[k].id != s.id
    ensures Valid(WithService(g, s, rs))
  {
    NamesFresh(services, s);
    NamesDiffer(s, s);
    ValidAppendTwo(g, DepartureName(s), ArrivalName(s), EventAttrs(s.stops[0], RequiredUnits(s, rs)),
                   EventAttrs(s.stops[1], -RequiredUnits(s, rs)), (DepartureName(s), ArrivalName(s)), TrainAttrs(s, rs));
  }

  /** The services' nodes and train edges survive adding a service with a new identifier. */
  lemma {:induction false} ServiceGraphKeeps(g: Graph<string>, all: seq<Service>, rs: RsInfo)
    requires rs.capacity > 0 && AllTrips(all) && all != []
    requires forall k :: 0 <= k < |all| - 1 ==> all[k].id != all[|all| - 1].id
    requires forall k :: 0 <= k < |all| - 1 ==> HasServiceNodes(g, all[k], rs) && HasTrainEdge(g, all[k], rs)
    ensures AllServicesPresent(WithService(g, all[|all| - 1], rs), all, rs)
  {
    var s := all[|all| - 1];
    var h := WithService(g, s, rs);
    forall k | 0 <= k < |all|
      ensures HasServiceNodes(h, all[k], rs) && HasTrainEdge(h, all[k], rs)
    {
      NamesDiffer(s, all[k]);
      NamesDiffer(all[k], s);
    }
  }

  /** The only new edge is the new service's train edge. */
  lemma {:induction false} ServiceGraphEdges(g: Graph<string>, all: seq<Service>, rs: RsInfo)
    requires rs.capacity > 0 && all != [] && |all[|all| - 1].stops| >= 2
    requires OnlyTrainEdges(g, all[..|all| - 1])
    ensures OnlyTrainEdges(WithService(g, all[|all| - 1], rs), all)
  {
    var n := |all| - 1;
    forall p | p in WithService(g, all[n], rs).edges
      ensures exists k :: 0 <= k < |all| && p == (DepartureName(all[k]), ArrivalName(all[k]))
    {
      if p in g.edges {
        var k :| 0 <= k < n && p == (DepartureName(all[..n][k]), ArrivalName(all[..n][k]));
        assert all[..n][k] == all[k];
      }
    }
  }

  /** One more service with a new identifier adds its two nodes and its train edge and changes nothing else. */
  lemma {:induction false} ServiceGraphStep(g: Graph<string>, all: seq<Service>, rs: RsInfo)
    requires rs.capacity > 0 && AllTrips(all) && all != [] && AllTrips(all[..|all| - 1])
    requires forall k :: 0 <= k < |all| - 1 ==> all[k].id != all[|all| - 1].id
    requires ServiceGraph(g, all[..|all| - 1], rs)
    ensures ServiceGraph(WithService(g, all[|all| - 1], rs), all, rs)
  {
    var n := |all| - 1;
    var p, s := all[..n], all[n];
    assert forall k :: 0 <= k < n ==> p[k] == all[k];
    assert |s.stops| >= 2;
    WithServiceValid(g, p, s, rs);
    assert forall k :: 0 <= k < n ==> HasServiceNodes(g, all[k], rs) && HasTrainEdge(g, all[k], rs) by {
      assert AllServicesPresent(g, p, rs);
    }
    ServiceGraphKeeps(g, all, rs);
    ServiceGraphEdges(g, all, rs);
  }

  /** The service loop's graph in closed form, for services with distinct identifiers. */
  function BuiltServices(services: seq<Service>, rs: RsInfo): Graph<string>
    requires rs.capacity > 0 && AllTrips(services)
  {
    if services == [] then Empty()
    else WithService(BuiltServices(services[..|services| - 1], rs), services[|services| - 1], rs)
  }

  /** The closed form's nodes are the services' names, and its edges join its nodes. */
  lemma {:induction false} BuiltServicesKeys(services: seq<Service>, rs: RsInfo)
    requires rs.capacity > 0 && AllTrips(services)
    ensures forall n :: n in BuiltServices(services, rs).nodes <==> n in EventNames(services)
    ensures forall p :: p in BuiltServices(services, rs).edges ==> p.0 in BuiltServices(services, rs).nodes
  {
    if services != [] {
      var p := services[..|services| - 1];
      assert AllTrips(p);
      BuiltServicesKeys(p, rs);
    }
  }

  /** A service with a new identifier finds neither of its names nor its train edge in the closed form. */
  lemma {:induction false} BuiltServicesFresh(services: seq<Service>, s: Service, rs: RsInfo)
    requires rs.capacity > 0 && AllTrips(services)
    requires forall k :: 0 <= k < |services| ==> services[k].id != s.id
    ensures DepartureName(s) !in BuiltServices(services, rs).nodes && ArrivalName(s) !in BuiltServices(services, rs).nodes
    ensures (DepartureName(s), ArrivalName(s)) !in BuiltServices(services, rs).edges
  {
    BuiltServicesKeys(services, rs);
    NamesFresh(services, s);
  }

  /** With distinct identifiers every iteration adds new names, so the loop builds the closed form. */
  lemma {:induction false} RunServicesBuilt(services: seq<Service>, rs: RsInfo)
    requires rs.capacity > 0 && AllTrips(services) && DistinctIds(services)
    ensures Run(Empty(), ServicesOps(services, rs)) == BuiltServices(services, rs)
  {
    if services != [] {
      var n := |services| - 1;
      var p, s := services[..n], services[n];
      assert forall k :: 0 <= k < n ==> p[k] == services[k];
      assert AllTrips(p) && DistinctIds(p);
      RunServicesBuilt(p, rs);
      assert ServicesOps(services, rs) == ServicesOps(p, rs) + ServiceOps(s, rs);
      assert BuiltServices(services, rs) == WithService(BuiltServices(p, rs), s, rs);
      RunOneMore(p, s, rs);
    }
  }

  lemma {:induction false} RunOneMore(p: seq<Service>, s: Service, rs: RsInfo)
    requires rs.capacity > 0 && AllTrips(p) && |s.stops| >= 2
    requires forall k :: 0 <= k < |p| ==> p[k].id != s.id
    requires Run(Empty(), ServicesOps(p, rs)) == BuiltServices(p, rs)
    ensures Run(Empty(), ServicesOps(p, rs) + ServiceOps(s, rs)) == WithService(BuiltServices(p, rs), s, rs)
  {
    RunAppend(Empty(), ServicesOps(p, rs), ServiceOps(s, rs));
    BuiltServicesFresh(p, s, rs);
    FreshServiceOps(BuiltServices(p, rs), s, rs);
  }

  /** The closed form is a `ServiceGraph`. */
  lemma {:induction false} BuiltServicesShape(services: seq<Service>, rs: RsInfo)
    requires rs.capacity > 0 && AllTrips(services) && DistinctIds(services)
    ensures ServiceGraph(BuiltServices(services, rs), services, rs)
  {
    if services != [] {
      var p := services[..|services| - 1];
      assert forall k :: 0 <= k < |p| ==> p[k] == services[k];
      assert AllTrips(p) && DistinctIds(p);
      BuiltServicesShape(p, rs);
      ServiceGraphStep(BuiltServices(p, rs), services, rs);
    }
  }

  /** With distinct identifiers, the service loop builds a `ServiceGraph`. */
  lemma {:induction false} ServicesGraphShape(services: seq<Service>, rs: RsInfo)
    requires rs.capacity > 0 && AllTrips(services) && DistinctIds(services)
    ensures ServiceGraph(Run(Empty(), ServicesOps(services, rs)), services, rs)
  {
    RunServicesBuilt(services, rs);
    BuiltServicesShape(services, rs);
  }

  /** The demands of every service's two nodes cancel, so the listed nodes' demands sum to zero. */
  lemma {:induction false} ServiceDemandsCancel(g: Graph<string>, services: seq<Service>, rs: RsInfo)
    requires rs.capacity > 0 && AllTrips(services)
    requires forall k :: 0 <= k < |services| ==> HasServiceNodes(g, services[k], rs)
    ensures DemandSum(EventNames(services), g.nodes) == 0
  {
    if services != [] {
      var n := |services| - 1;
      var p, s := services[..n], services[n];
      assert forall k :: 0 <= k < |p| ==> p[k] == services[k];
      ServiceDemandsCancel(g, p, rs);
      assert HasServiceNodes(g, s, rs);
      var pair := [DepartureName(s), ArrivalName(s)];
      assert EventNames(services) == EventNames(p) + pair;
      DemandSumAppend(EventNames(p), pair, g.nodes);
      assert pair[1..] == [ArrivalName(s)] && pair[1..][1..] == [];
      assert DemandSum(pair, g.nodes) == RequiredUnits(s, rs) + -RequiredUnits(s, rs) + DemandSum(pair[1..][1..], g.nodes);
    }
  }

  // ---------------------------------------------------------------------------
  // Step 2: the station lists

  /** The entries of the events at station `st`, in event order. */
  function AtStation(events: seq<Event>, st: string): seq<Entry>
  {
    if events == [] then []
    else
      var e := events[|events| - 1];
      AtStation(events[..|events| - 1], st) + (if e.station == st then [Entry(e.node, e.time)] else [])
  }

  /** The grouping loop fails exactly when some event's station is not listed. */
  lemma {:induction false} GroupOk(events: seq<Event>, stations: seq<string>)
    ensures Group(events, stations).Ok? <==> forall i :: 0 <= i < |events| ==> events[i].station in stations
    ensures Group(events, stations).Ok? ==> forall st :: st in Group(events, stations).value <==> st in stations
  {
    if events != [] {
      var n := |events| - 1;
      var p := events[..n];
      GroupOk(p, stations);
      assert forall i :: 0 <= i < n ==> p[i] == events[i];
    }
  }

  /** When the grouping loop succeeds, each station's list holds that station's events, in node order. */
  lemma {:induction false} GroupLists(events: seq<Event>, stations: seq<string>)
    requires Group(events, stations).Ok?
    ensures forall st :: st in Group(events, stations).value ==> Group(events, stations).value[st] == AtStation(events, st)
  {
    if events != [] {
      var n := |events| - 1;
      var p := events[..n];
      GroupLists(p, stations);
    }
  }

  /** A list entry is exactly an event at that station. */
  lemma {:induction false} AtStationMembers(events: seq<Event>, st: string, x: Entry)
    ensures x in AtStation(events, st) <==>
      exists i :: 0 <= i < |events| && events[i].station == st && x == Entry(events[i].node, events[i].time)
  {
    if events != [] {
      var n := |events| - 1;
      var p := events[..n];
      AtStationMembers(p, st, x);
      assert forall i :: 0 <= i < n ==> p[i] == events[i];
    }
  }

  /** No node occurs twice in the list. */
  predicate DistinctNodes(l: seq<Entry>)
  {
    forall i, j :: 0 <= i < j < |l| ==> l[i].node != l[j].node
  }

  /** Events of distinct nodes give station lists of distinct nodes. */
  lemma {:induction false} AtStationDistinct(events: seq<Event>, st: string)
    requires forall i, j :: 0 <= i < j < |events| ==> events[i].node != events[j].node
    ensures DistinctNodes(AtStation(events, st))
  {
    if events != [] {
      var n := |events| - 1;
      var p := events[..n];
      assert forall i, j :: 0 <= i < j < |p| ==> p[i].node != p[j].node;
      AtStationDistinct(p, st);
      var l := AtStation(p, st);
      forall x | x in l
        ensures x.node != events[n].node
      {
        AtStationMembers(p, st, x);
      }
    }
  }

  /** A permutation of a list of distinct nodes is one too. */
  lemma {:induction false} DistinctNodesPermutation(l: seq<Entry>, s: seq<Entry>)
    requires DistinctNodes(l) && multiset(s) == multiset(l)
    ensures DistinctNodes(s)
  {
    assert Distinct(l);
    DistinctMultiset(l);
    DistinctMultiset(s);
    forall i, j | 0 <= i < j < |s|
      ensures s[i].node != s[j].node
    {
      assert s[i] != s[j];
      assert s[i] in multiset(l) && s[j] in multiset(l);
      var a :| 0 <= a < |l| && l[a] == s[i];
      var b :| 0 <= b < |l| && l[b] == s[j];
      assert a != b;
    }
  }

  /** Station `st`'s list after the sort of step 3. */
  function StationList(events: seq<Event>, st: string): seq<Entry>
  {
    SortBy(AtStation(events, st), EntryTime)
  }

  /** The sorted list is ordered by time, holds the station's events once each, and keeps equal times in node order. */
  lemma {:induction false} StationListFacts(events: seq<Event>, st: string)
    ensures SortedBy(StationList(events, st), EntryTime)
    ensures multiset(StationList(events, st)) == multiset(AtStation(events, st))
    ensures forall t :: WithKey(StationList(events, st), EntryTime, t) == WithKey(AtStation(events, st), EntryTime, t)
    ensures forall x :: x in StationList(events, st) <==>
      exists i :: 0 <= i < |events| && events[i].station == st && x == Entry(events[i].node, events[i].time)
  {
    SortByCorrect(AtStation(events, st), EntryTime);
    forall x
      ensures x in StationList(events, st) <==> x in AtStation(events, st)
    {
      assert x in StationList(events, st) <==> x in multiset(StationList(events, st));
    }
    forall x
      ensures x in AtStation(events, st) <==>
        exists i :: 0 <= i < |events| && events[i].station == st && x == Entry(events[i].node, events[i].time)
    {
      AtStationMembers(events, st, x);
    }
  }

  /** Each event at a station has its entry in the station's sorted list. */
  lemma {:induction false} StationListHas(events: seq<Event>, st: string, i: nat)
    requires i < |events| && events[i].station == st
    ensures Entry(events[i].node, events[i].time) in StationList(events, st)
  {
    StationListFacts(events, st);
  }

  // ---------------------------------------------------------------------------
  // Steps 3 and 4: the calls of the transfer and overnight loops

  /** The nodes of a station list. */
  function NodesOf(l: seq<Entry>): set<string>
  {
    set e | e in l :: e.node
  }

  /** Every transfer call is an edge with the transfer attributes between two nodes of one station's list. */
  lemma {:induction false} TransferCallsShape(keys: seq<string>, m: map<string, seq<Entry>>)
    requires forall k :: k in keys ==> k in m
    ensures forall j :: 0 <= j < |TransferCalls(keys, m)| ==>
      && TransferCalls(keys, m)[j].EdgeOp?
      && TransferCalls(keys, m)[j].attrs == TransferAttrs
      && exists k :: k in keys && TransferCalls(keys, m)[j].u in NodesOf(m[k]) && TransferCalls(keys, m)[j].v in NodesOf(m[k])
  {
    if keys != [] {
      var n := |keys| - 1;
      var p := keys[..n];
      TransferCallsShape(p, m);
      var a: seq<Op<string>>, c: seq<Op<string>> := TransferCalls(p, m), ChainOps(m[keys[n]]);
      forall j | 0 <= j < |a + c|
        ensures (a + c)[j].EdgeOp? && (a + c)[j].attrs == TransferAttrs
        ensures exists k :: k in keys && (a + c)[j].u in NodesOf(m[k]) && (a + c)[j].v in NodesOf(m[k])
      {
        if j < |a| {
          assert (a + c)[j] == a[j];
          var k :| k in p && a[j].u in NodesOf(m[k]) && a[j].v in NodesOf(m[k]);
          assert k in keys;
        } else {
          var l := m[keys[n]];
          var i := j - |a|;
          assert (a + c)[j] == c[i];
          assert l[i] in l && l[i + 1] in l;
        }
      }
    }
  }

  /** Each pair of consecutive entries of a listed station's list gets a transfer call. */
  lemma {:induction false} TransferCallsHas(keys: seq<string>, m: map<string, seq<Entry>>, st: string, i: nat)
    requires forall k :: k in keys ==> k in m
    requires st in keys && i + 1 < |m[st]|
    ensures exists j :: 0 <= j < |TransferCalls(keys, m)| && TransferCalls(keys, m)[j] == EdgeOp(m[st][i].node, m[st][i + 1].node, TransferAttrs)
  {
    var n := |keys| - 1;
    var p := keys[..n];
    var a: seq<Op<string>>, c: seq<Op<string>> := TransferCalls(p, m), ChainOps(m[keys[n]]);
    assert TransferCalls(keys, m) == a + c;
    if keys[n] == st {
      assert c[i] == EdgeOp(m[st][i].node, m[st][i + 1].node, TransferAttrs);
      assert (a + c)[|a| + i] == c[i];
    } else {
      assert st in p by {
        var q :| 0 <= q < |keys| && keys[q] == st;
        assert p[q] == st;
      }
      TransferCallsHas(p, m, st, i);
      var j :| 0 <= j < |a| && a[j] == EdgeOp(m[st][i].node, m[st][i + 1].node, TransferAttrs);
      assert (a + c)[j] == a[j];
    }
  }

  /** The overnight loop fails exactly when a listed station has events and no cost. */
  lemma {:induction false} OvernightCallsOk(keys: seq<string>, m: map<string, seq<Entry>>, costs: map<string, Value>)
    requires forall k :: k in keys ==> k in m
    ensures OvernightCalls(keys, m, costs).Ok? <==> forall k :: k in keys && m[k] != [] ==> k in costs
  {
    if keys != [] {
      var n := |keys| - 1;
      var p := keys[..n];
      OvernightCallsOk(p, m, costs);
      assert forall k :: k in keys <==> k in p || k == keys[n];
    }
  }

  /** Every overnight call is the overnight edge of a listed station with events. */
  lemma {:induction false} OvernightCallsShape(keys: seq<string>, m: map<string, seq<Entry>>, costs: map<string, Value>)
    requires forall k :: k in keys ==> k in m
    requires OvernightCalls(keys, m, costs).Ok?
    ensures forall j :: 0 <= j < |OvernightCalls(keys, m, costs).value| ==>
      exists k :: k in keys && m[k] != [] && k in costs && OvernightCalls(keys, m, costs).value[j] == OvernightOp(m[k], costs[k])
  {
    if keys != [] {
      var n := |keys| - 1;
      var p := keys[..n];
      OvernightCallsShape(p, m, costs);
      var ops, last := OvernightCalls(p, m, costs).value, keys[n];
      var all := OvernightCalls(keys, m, costs).value;
      forall j | 0 <= j < |all|
        ensures exists k :: k in keys && m[k] != [] && k in costs && all[j] == OvernightOp(m[k], costs[k])
      {
        if j < |ops| {
          assert all[j] == ops[j];
          var k :| k in p && m[k] != [] && k in costs && ops[j] == OvernightOp(m[k], costs[k]);
          assert k in keys;
        } else {
          assert all == ops + [OvernightOp(m[last], costs[last])];
          assert all[j] == OvernightOp(m[last], costs[last]);
        }
      }
    }
  }

  /** Every listed station with events gets its overnight call. */
  lemma {:induction false} OvernightCallsHas(keys: seq<string>, m: map<string, seq<Entry>>, costs: map<string, Value>, st: string)
    requires forall k :: k in keys ==> k in m
    requires OvernightCalls(keys, m, costs).Ok? && st in keys && m[st] != []
    ensures st in costs
    ensures exists j :: 0 <= j < |OvernightCalls(keys, m, costs).value| && OvernightCalls(keys, m, costs).value[j] == OvernightOp(m[st], costs[st])
  {
    OvernightCallsOk(keys, m, costs);
    var n := |keys| - 1;
    var p := keys[..n];
    var ops := OvernightCalls(p, m, costs).value;
    if keys[n] == st {
      var all := OvernightCalls(keys, m, costs).value;
      assert all == ops + [OvernightOp(m[st], costs[st])];
      assert all[|ops|] == OvernightOp(m[st], costs[st]);
    } else {
      assert st in p by {
        var q :| 0 <= q < |keys| && keys[q] == st;
        assert p[q] == st;
      }
      OvernightCallsHas(p, m, costs, st);
      var j :| 0 <= j < |ops| && ops[j] == OvernightOp(m[st], costs[st]);
      var all := OvernightCalls(keys, m, costs).value;
      assert all == ops || all == ops + [OvernightOp(m[keys[n]], costs[keys[n]])];
      assert all[j] == ops[j];
    }
  }
}
