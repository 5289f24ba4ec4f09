/**
  What the networks of src/prueba.py contain when they are built: their nodes
  and demands, their edge set, the attributes of the overnight and trip
  edges, and when the demands balance.
 */
module PruebaFacts {

  import opened Wrappers
  import opened Timetable
  import opened Sums
  import opened Sequences
  import opened DiGraph
  import opened PruebaEvents
  import opened PruebaNetwork

  // ---------------------------------------------------------------------------
  // The node calls

  /** `g` has exactly the nodes of `l`, in first-seen order, each with its tuple's demand and nothing else. */
  ghost predicate NodesOf(g: Graph<EventTuple>, l: seq<EventTuple>)
  {
    && g.order == Dedup(l)
    && (forall t :: t in g.nodes <==> t in l)
    && (forall t :: t in g.nodes ==> g.nodes[t] == DemandAttrs(t))
  }

  lemma {:induction false} NodeStepOrder(h: Graph<EventTuple>, p: seq<EventTuple>, t: EventTuple)
    requires h.order == Dedup(p) && (forall x :: x in h.nodes <==> x in p)
    ensures AddNode(h, t, DemandAttrs(t)).order == Dedup(p + [t])
  {
    assert (p + [t])[..|p|] == p;
    DedupFacts(p);
  }

  lemma {:induction false} NodeStepAttrs(h: Graph<EventTuple>, t: EventTuple)
    requires forall x :: x in h.nodes ==> h.nodes[x] == DemandAttrs(x)
    ensures forall x :: x in AddNode(h, t, DemandAttrs(t)).nodes ==> AddNode(h, t, DemandAttrs(t)).nodes[x] == DemandAttrs(x)
  {
    if t in h.nodes {
      assert h.nodes[t] + DemandAttrs(t) == DemandAttrs(t);
    }
  }

  lemma {:induction false} NodeStep(h: Graph<EventTuple>, p: seq<EventTuple>, t: EventTuple)
    requires NodesOf(h, p)
    ensures NodesOf(AddNode(h, t, DemandAttrs(t)), p + [t])
  {
    NodeStepOrder(h, p, t);
    NodeStepAttrs(h, t);
  }

  /** The node calls alone: one node per distinct tuple, in first-seen order, carrying its demand. */
  lemma {:induction false} NodeOpsRun(l: seq<EventTuple>)
    ensures NodesOf(Run(Empty(), NodeOps(l)), l)
    decreases |l|
  {
    if l != [] {
      var p, t := l[..|l| - 1], l[|l| - 1];
      assert l == p + [t];
      NodeOpsRun(p);
      NodeOpsSnoc(p, t);
      RunSnoc(Empty(), NodeOps(p), NodeOp(t, DemandAttrs(t)));
      NodeStep(Run(Empty(), NodeOps(p)), p, t);
    }
  }

  lemma {:induction false} NodeOpsSnoc(p: seq<EventTuple>, t: EventTuple)
    ensures NodeOps(p + [t]) == NodeOps(p) + [NodeOp(t, DemandAttrs(t))]
  {
    assert forall i :: 0 <= i < |p| ==> (p + [t])[i] == p[i];
  }

  // ---------------------------------------------------------------------------
  // The edge calls

  /** Only edge calls, each joining two tuples of `l`. */
  predicate EdgeCallsWithin(ops: seq<Op<EventTuple>>, l: seq<EventTuple>)
  {
    forall k :: 0 <= k < |ops| ==> ops[k].EdgeOp? && ops[k].u in l && ops[k].v in l
  }

  lemma {:induction false} EdgeCallsWithinAppend(a: seq<Op<EventTuple>>, b: seq<Op<EventTuple>>, l: seq<EventTuple>)
    requires EdgeCallsWithin(a, l) && EdgeCallsWithin(b, l)
    ensures EdgeCallsWithin(a + b, l)
  {
    forall k | 0 <= k < |a + b|
      ensures (a + b)[k].EdgeOp? && (a + b)[k].u in l && (a + b)[k].v in l
    {
      if k < |a| {
        assert (a + b)[k] == a[k];
      } else {
        assert (a + b)[k] == b[k - |a|];
      }
    }
  }

  /** The transfer, trip and overnight calls, which follow the node calls. */
  function EdgeCalls(r: seq<EventTuple>, t: seq<EventTuple>, trips: seq<Op<EventTuple>>, f: Formulation)
    : seq<Op<EventTuple>>
    requires r != [] && t != []
  {
    TransferOps(r, TransferAttrs(f)) + TransferOps(t, TransferAttrs(f)) + trips
    + [OvernightOp(r, OvernightAttrs(f, true)), OvernightOp(t, OvernightAttrs(f, false))]
  }

  lemma {:induction false} CallsSplit(r: seq<EventTuple>, t: seq<EventTuple>, trips: seq<Op<EventTuple>>, f: Formulation)
    requires r != [] && t != []
    ensures NetworkCalls(r, t, trips, f) == NodeOps(r + t) + EdgeCalls(r, t, trips, f)
  {
    assert NodeOps(r) + NodeOps(t) == NodeOps(r + t);
  }

  lemma {:induction false} TransfersWithin(l: seq<EventTuple>, all: seq<EventTuple>, attrs: Attrs)
    requires forall x :: x in l ==> x in all
    ensures EdgeCallsWithin(TransferOps(l, attrs), all)
  {
  }

  lemma {:induction false} EdgeCallsWithinNodes(r: seq<EventTuple>, t: seq<EventTuple>, trips: seq<Op<EventTuple>>, f: Formulation)
    requires r != [] && t != [] && EdgeCallsWithin(trips, r + t)
    ensures EdgeCallsWithin(EdgeCalls(r, t, trips, f), r + t)
  {
    var a, b := TransferOps(r, TransferAttrs(f)), TransferOps(t, TransferAttrs(f));
    var d := [OvernightOp(r, OvernightAttrs(f, true)), OvernightOp(t, OvernightAttrs(f, false))];
    TransfersWithin(r, r + t, TransferAttrs(f));
    TransfersWithin(t, r + t, TransferAttrs(f));
    assert EdgeCallsWithin(d, r + t);
    EdgeCallsWithinAppend(a, b, r + t);
    EdgeCallsWithinAppend(a + b, trips, r + t);
    EdgeCallsWithinAppend(a + b + trips, d, r + t);
  }

  /** The edge calls leave the nodes of the node calls as they are. */
  lemma {:induction false} CallsNodes(r: seq<EventTuple>, t: seq<EventTuple>, trips: seq<Op<EventTuple>>, f: Formulation)
    requires r != [] && t != [] && EdgeCallsWithin(trips, r + t)
    ensures NodesOf(Run(Empty(), NetworkCalls(r, t, trips, f)), r + t)
  {
    var e := EdgeCalls(r, t, trips, f);
    CallsSplit(r, t, trips, f);
    RunAppend(Empty(), NodeOps(r + t), e);
    NodeOpsRun(r + t);
    EdgeCallsWithinNodes(r, t, trips, f);
    EdgeCallsKeepNodes(Run(Empty(), NodeOps(r + t)), e, r + t);
  }

  lemma {:induction false} EdgeCallsKeepNodes(g: Graph<EventTuple>, e: seq<Op<EventTuple>>, l: seq<EventTuple>)
    requires NodesOf(g, l) && EdgeCallsWithin(e, l)
    ensures NodesOf(Run(g, e), l)
  {
    assert EdgesAmong(g, e);
    RunEdgesKeepNodes(g, e);
  }

  /** The event after the `i`-th of a list, wrapping round from the last to the first. */
  function Succ(l: seq<EventTuple>, i: nat): EventTuple
    requires i < |l|
  {
    l[(i + 1) % |l|]
  }

  /** The pairs of a list's transfer edges and of its overnight edge: a cycle through the list. */
  function CycleEdges(l: seq<EventTuple>): set<(EventTuple, EventTuple)>
  {
    set i | 0 <= i < |l| :: (l[i], Succ(l, i))
  }

  /** The transfer pairs of a list: each event to the next, without wrapping round. */
  function ChainEdges(l: seq<EventTuple>): set<(EventTuple, EventTuple)>
  {
    set i | 0 <= i < |l| - 1 :: (l[i], Succ(l, i))
  }

  lemma {:induction false} ChainInTransfers(l: seq<EventTuple>, attrs: Attrs)
    ensures ChainEdges(l) <= EdgePairs(TransferOps(l, attrs))
  {
    var ops := TransferOps(l, attrs);
    forall i | 0 <= i < |l| - 1
      ensures (l[i], Succ(l, i)) in EdgePairs(ops)
    {
      TransferAt(l, attrs, i);
    }
  }

  lemma {:induction false} TransferAt(l: seq<EventTuple>, attrs: Attrs, i: nat)
    requires i < |l| - 1
    ensures TransferOps(l, attrs)[i] == EdgeOp(l[i], Succ(l, i), attrs)
  {
    assert (i + 1) % |l| == i + 1;
  }

  lemma {:induction false} TransfersInChain(l: seq<EventTuple>, attrs: Attrs)
    ensures EdgePairs(TransferOps(l, attrs)) <= ChainEdges(l)
  {
    var ops := TransferOps(l, attrs);
    forall i | 0 <= i < |ops|
      ensures (ops[i].u, ops[i].v) in ChainEdges(l)
    {
      TransferAt(l, attrs, i);
    }
  }

  lemma {:induction false} CycleSplit(l: seq<EventTuple>)
    requires l != []
    ensures CycleEdges(l) == ChainEdges(l) + {(l[|l| - 1], l[0])}
  {
    var n := |l|;
    assert Succ(l, n - 1) == l[0] by {
      assert (n - 1 + 1) % n == 0;
    }
    assert (l[n - 1], Succ(l, n - 1)) in CycleEdges(l);
  }

  lemma {:induction false} OvernightPair(l: seq<EventTuple>, night: Attrs)
    requires l != []
    ensures EdgePairs([OvernightOp(l, night)]) == {(l[|l| - 1], l[0])}
  {
    assert [OvernightOp(l, night)][0] == EdgeOp(l[|l| - 1], l[0], night);
  }

  lemma {:induction false} CycleEdgePairs(l: seq<EventTuple>, attrs: Attrs, night: Attrs)
    requires l != []
    ensures EdgePairs(TransferOps(l, attrs)) + EdgePairs([OvernightOp(l, night)]) == CycleEdges(l)
  {
    ChainInTransfers(l, attrs);
    TransfersInChain(l, attrs);
    CycleSplit(l);
    OvernightPair(l, night);
  }

  lemma {:induction false} NodeOpsNoEdges(l: seq<EventTuple>)
    ensures EdgePairs(NodeOps(l)) == {}
  {
  }

  /** The edges are the two station cycles and the trip edges. */
  lemma {:induction false} CallsEdgeKeys(r: seq<EventTuple>, t: seq<EventTuple>, trips: seq<Op<EventTuple>>, f: Formulation)
    requires r != [] && t != []
    ensures Run(Empty(), NetworkCalls(r, t, trips, f)).edges.Keys == CycleEdges(r) + CycleEdges(t) + EdgePairs(trips)
  {
    var n1, n2 := NodeOps(r), NodeOps(t);
    var a, b := TransferOps(r, TransferAttrs(f)), TransferOps(t, TransferAttrs(f));
    var o1, o2 := [OvernightOp(r, OvernightAttrs(f, true))], [OvernightOp(t, OvernightAttrs(f, false))];
    assert NetworkCalls(r, t, trips, f) == n1 + n2 + a + b + trips + o1 + o2;
    RunEdgeKeys(Empty(), n1 + n2 + a + b + trips + o1 + o2);
    EdgePairsAppend(n1, n2);
    EdgePairsAppend(n1 + n2, a);
    EdgePairsAppend(n1 + n2 + a, b);
    EdgePairsAppend(n1 + n2 + a + b, trips);
    EdgePairsAppend(n1 + n2 + a + b + trips, o1);
    EdgePairsAppend(n1 + n2 + a + b + trips + o1, o2);
    NodeOpsNoEdges(r);
    NodeOpsNoEdges(t);
    CycleEdgePairs(r, TransferAttrs(f), OvernightAttrs(f, true));
    CycleEdgePairs(t, TransferAttrs(f), OvernightAttrs(f, false));
  }

  /** Each overnight edge carries its attributes when the two overnight edges differ. */
  lemma {:induction false} CallsOvernight(r: seq<EventTuple>, t: seq<EventTuple>, trips: seq<Op<EventTuple>>, f: Formulation)
    requires r != [] && t != [] && (r[|r| - 1], r[0]) != (t[|t| - 1], t[0])
    ensures HasEdgeWith(Run(Empty(), NetworkCalls(r, t, trips, f)), r[|r| - 1], r[0], OvernightAttrs(f, true))
    ensures HasEdgeWith(Run(Empty(), NetworkCalls(r, t, trips, f)), t[|t| - 1], t[0], OvernightAttrs(f, false))
  {
    var ops := NetworkCalls(r, t, trips, f);
    var n := |ops|;
    assert ops[n - 2] == OvernightOp(r, OvernightAttrs(f, true));
    assert ops[n - 1] == OvernightOp(t, OvernightAttrs(f, false));
    RunLastEdgeWins(Empty(), ops, n - 2);
    RunLastEdgeWins(Empty(), ops, n - 1);
  }

  /**
    The `k`-th trip call is the last call on its pair: no later trip call and
    neither overnight call names it.
   */
  predicate LastOnItsPair(r: seq<EventTuple>, t: seq<EventTuple>, trips: seq<Op<EventTuple>>, k: nat)
  {
    && r != [] && t != [] && k < |trips| && trips[k].EdgeOp?
    && (forall j :: k < j < |trips| && trips[j].EdgeOp? ==> (trips[j].u, trips[j].v) != (trips[k].u, trips[k].v))
    && (trips[k].u, trips[k].v) != (r[|r| - 1], r[0]) && (trips[k].u, trips[k].v) != (t[|t| - 1], t[0])
  }

  /** A trip call that no later call repeats leaves its attributes on its edge. */
  lemma {:induction false} CallsTrip(r: seq<EventTuple>, t: seq<EventTuple>, trips: seq<Op<EventTuple>>, f: Formulation, k: nat)
    requires LastOnItsPair(r, t, trips, k)
    ensures HasEdgeWith(Run(Empty(), NetworkCalls(r, t, trips, f)), trips[k].u, trips[k].v, trips[k].attrs)
  {
    var pre := NodeOps(r) + NodeOps(t) + TransferOps(r, TransferAttrs(f)) + TransferOps(t, TransferAttrs(f));
    var post := [OvernightOp(r, OvernightAttrs(f, true)), OvernightOp(t, OvernightAttrs(f, false))];
    var ops := NetworkCalls(r, t, trips, f);
    assert ops == pre + trips + post;
    var i := |pre| + k;
    assert ops[i] == trips[k];
    forall j | i < j < |ops| && ops[j].EdgeOp?
      ensures (ops[j].u, ops[j].v) != (ops[i].u, ops[i].v)
    {
      if j < |pre| + |trips| {
        assert ops[j] == trips[j - |pre|];
      } else {
        assert ops[j] == post[j - |pre| - |trips|];
      }
    }
    RunLastEdgeWins(Empty(), ops, i);
  }

  /**
    A transfer call whose pair no trip call and neither overnight call names
    leaves the transfer attributes on its edge.
   */
  lemma {:induction false} CallsTransfer(r: seq<EventTuple>, t: seq<EventTuple>, trips: seq<Op<EventTuple>>, f: Formulation,
                                         onRetiro: bool, i: nat)
    requires r != [] && t != []
    requires i + 1 < |if onRetiro then r else t|
    requires var l := if onRetiro then r else t;
      && (forall j :: 0 <= j < |trips| && trips[j].EdgeOp? ==> (trips[j].u, trips[j].v) != (l[i], l[i + 1]))
      && (l[i], l[i + 1]) != (r[|r| - 1], r[0]) && (l[i], l[i + 1]) != (t[|t| - 1], t[0])
    ensures var l := if onRetiro then r else t;
      HasEdgeWith(Run(Empty(), NetworkCalls(r, t, trips, f)), l[i], l[i + 1], TransferAttrs(f))
  {
    var l := if onRetiro then r else t;
    var attrs := TransferAttrs(f);
    var n1, n2 := NodeOps(r), NodeOps(t);
    var x, y := TransferOps(r, attrs), TransferOps(t, attrs);
    var a := n1 + n2 + x + y;
    var c := trips + [OvernightOp(r, OvernightAttrs(f, true)), OvernightOp(t, OvernightAttrs(f, false))];
    assert NetworkCalls(r, t, trips, f) == a + c;
    var k := if onRetiro then |n1| + |n2| + i else |n1| + |n2| + |x| + i;
    assert a[k] == EdgeOp(l[i], l[i + 1], attrs);
    forall j | k < j < |a| && a[j].EdgeOp?
      ensures a[j].attrs == attrs
    {
      if j < |n1| + |n2| + |x| {
        assert a[j] == x[j - |n1| - |n2|];
      } else {
        assert a[j] == y[j - |n1| - |n2| - |x|];
      }
    }
    forall j | 0 <= j < |c| && c[j].EdgeOp?
      ensures (c[j].u, c[j].v) != (a[k].u, a[k].v)
    {
      if j < |trips| {
        assert c[j] == trips[j];
      }
    }
    FirstBatchEdgeWins(Empty(), a, c, k);
  }

  /** A network built from the sorted station lists `r`, `t` and the trip calls `trips`. */
  ghost predicate BuiltFrom(g: Graph<EventTuple>, r: seq<EventTuple>, t: seq<EventTuple>,
                            trips: seq<Op<EventTuple>>, f: Formulation)
  {
    r != [] && t != [] && g == Run(Empty(), NetworkCalls(r, t, trips, f))
  }

  // ---------------------------------------------------------------------------
  // The built networks

  /** A successful build ran every call, so both station lists are non-empty and no service is short. */
  lemma {:induction false} PruebaBuilt(services: seq<Service>, rs: RsInfo, f: Formulation, g: Graph<EventTuple>)
    requires rs.capacity > 0 && PruebaGraph(services, rs, f) == Ok(g)
    ensures FirstShort(services).None?
    ensures BuiltFrom(g, RetiroList(services, rs, f), TigreList(services, rs, f), TripOps(services, rs, f), f)
  {
  }

  /** The sorted lists split `nodos` by station, losing and adding nothing. */
  lemma {:induction false} ListsSplitTuples(services: seq<Service>, rs: RsInfo, f: Formulation)
    requires rs.capacity > 0
    ensures var all := AllTuples(services, rs, UsesDemand(f));
      && multiset(RetiroList(services, rs, f) + TigreList(services, rs, f)) == multiset(all)
      && (forall t :: t in RetiroList(services, rs, f) <==> t in all && t.station == "Retiro")
      && (forall t :: t in TigreList(services, rs, f) <==> t in all && t.station != "Retiro")
  {
    var all := AllTuples(services, rs, UsesDemand(f));
    StationPartition(all);
    var r, t := RetiroList(services, rs, f), TigreList(services, rs, f);
    OrderByTimeSorts(AtRetiro(all));
    OrderByTimeSorts(NotRetiro(all));
    assert multiset(r) == multiset(AtRetiro(all));
    assert multiset(t) == multiset(NotRetiro(all));
    forall x
      ensures (x in r <==> x in AtRetiro(all)) && (x in t <==> x in NotRetiro(all))
    {
      assert x in r <==> x in multiset(r);
      assert x in t <==> x in multiset(t);
    }
  }

  lemma {:induction false} ListsMembers(services: seq<Service>, rs: RsInfo, f: Formulation)
    requires rs.capacity > 0
    ensures forall x :: x in RetiroList(services, rs, f) + TigreList(services, rs, f)
                    <==> x in AllTuples(services, rs, UsesDemand(f))
  {
    ListsSplitTuples(services, rs, f);
  }

  /** The tuples of a service's first two stops: the ends of its trip edge. */
  function TripPair(s: Service, rs: RsInfo, f: Formulation): (EventTuple, EventTuple)
    requires rs.capacity > 0 && |s.stops| >= 2
  {
    (TupleOf(s.stops[0], s, rs, UsesDemand(f)), TupleOf(s.stops[1], s, rs, UsesDemand(f)))
  }

  /** The endpoint pairs of every trip edge, one per service. */
  function TripPairs(services: seq<Service>, rs: RsInfo, f: Formulation): set<(EventTuple, EventTuple)>
    requires rs.capacity > 0 && forall k :: 0 <= k < |services| ==> |services[k].stops| >= 2
  {
    set k | 0 <= k < |services| :: TripPair(services[k], rs, f)
  }

  /** Each trip edge joins two tuples of the sorted lists. */
  lemma {:induction false} TripsWithin(services: seq<Service>, rs: RsInfo, f: Formulation)
    requires rs.capacity > 0 && FirstShort(services).None?
    ensures EdgeCallsWithin(TripOps(services, rs, f), RetiroList(services, rs, f) + TigreList(services, rs, f))
  {
    var ops := TripOps(services, rs, f);
    ListsMembers(services, rs, f);
    forall k | 0 <= k < |ops|
      ensures ops[k].u in AllTuples(services, rs, UsesDemand(f)) && ops[k].v in AllTuples(services, rs, UsesDemand(f))
    {
      AllTuplesMembers(services, rs, UsesDemand(f), ops[k].u);
      AllTuplesMembers(services, rs, UsesDemand(f), ops[k].v);
    }
  }

  lemma {:induction false} EdgePairsTrips(services: seq<Service>, rs: RsInfo, f: Formulation)
    requires rs.capacity > 0 && FirstShort(services).None?
    ensures EdgePairs(TripOps(services, rs, f)) == TripPairs(services, rs, f)
  {
    var ops := TripOps(services, rs, f);
    forall p | p in TripPairs(services, rs, f)
      ensures p in EdgePairs(ops)
    {
      var k :| 0 <= k < |services| && p == TripPair(services[k], rs, f);
      assert ops[k] == TripOp(services[k], rs, f);
    }
  }

  /**
    A built network has one node per distinct tuple of `nodos`, in the order
    the node loops first add them, each carrying exactly its tuple's demand.
   */
  lemma {:induction false} PruebaNodes(services: seq<Service>, rs: RsInfo, f: Formulation, g: Graph<EventTuple>)
    requires rs.capacity > 0 && PruebaGraph(services, rs, f) == Ok(g)
    ensures g.order == Dedup(RetiroList(services, rs, f) + TigreList(services, rs, f))
    ensures forall t :: t in g.nodes <==> t in AllTuples(services, rs, UsesDemand(f))
    ensures forall t :: t in g.nodes ==> g.nodes[t] == DemandAttrs(t)
  {
    TripsWithin(services, rs, f);
    CallsNodes(RetiroList(services, rs, f), TigreList(services, rs, f), TripOps(services, rs, f), f);
    ListsMembers(services, rs, f);
  }

  /**
    The edges of a built network are the cycle of transfers closed by the
    overnight edge at "Retiro", the same cycle over the other stations, and one
    trip edge per service.
   */
  lemma {:induction false} PruebaEdges(services: seq<Service>, rs: RsInfo, f: Formulation, g: Graph<EventTuple>)
    requires rs.capacity > 0 && PruebaGraph(services, rs, f) == Ok(g)
    ensures g.edges.Keys == CycleEdges(RetiroList(services, rs, f)) + CycleEdges(TigreList(services, rs, f))
                            + TripPairs(services, rs, f)
  {
    CallsEdgeKeys(RetiroList(services, rs, f), TigreList(services, rs, f), TripOps(services, rs, f), f);
    EdgePairsTrips(services, rs, f);
  }

  /** The "Retiro" list holds only "Retiro" tuples and the other list none. */
  lemma {:induction false} ListsStations(services: seq<Service>, rs: RsInfo, f: Formulation)
    requires rs.capacity > 0
    ensures forall x :: x in RetiroList(services, rs, f) ==> x.station == "Retiro"
    ensures forall x :: x in TigreList(services, rs, f) ==> x.station != "Retiro"
  {
    ListsSplitTuples(services, rs, f);
  }

  /**
    Each overnight edge of a built network, from the latest event of a list back
    to its earliest, carries weight 1 and the capacity its formulation gives it.
   */
  lemma {:induction false} PruebaOvernight(services: seq<Service>, rs: RsInfo, f: Formulation, g: Graph<EventTuple>)
    requires rs.capacity > 0 && PruebaGraph(services, rs, f) == Ok(g)
    ensures var r, t := RetiroList(services, rs, f), TigreList(services, rs, f);
      && HasEdgeWith(g, r[|r| - 1], r[0], OvernightAttrs(f, true))
      && HasEdgeWith(g, t[|t| - 1], t[0], OvernightAttrs(f, false))
  {
    var r, t := RetiroList(services, rs, f), TigreList(services, rs, f);
    ListsStations(services, rs, f);
    assert r[0].station == "Retiro" && t[0].station != "Retiro";
    CallsOvernight(r, t, TripOps(services, rs, f), f);
  }

  /**
    `main_modelado_cost_min_restricciones`: the overnight edge of the chosen
    depot's list has capacity `restriccion` and the other one 1e10; both cost 1.
   */
  lemma {:induction false} RestrictedOvernight(services: seq<Service>, rs: RsInfo, sede: string, restriccion: Value, g: Graph<EventTuple>)
    requires rs.capacity > 0 && PruebaGraph(services, rs, CostMinRestricted(sede, restriccion)) == Ok(g)
    ensures var f := CostMinRestricted(sede, restriccion);
      var r, t := RetiroList(services, rs, f), TigreList(services, rs, f);
      var retiroCap := if sede == "Retiro" then restriccion else Float(BIG);
      var tigreCap := if sede == "Retiro" then Float(BIG) else restriccion;
      && HasEdgeWith(g, r[|r| - 1], r[0], map[Capacity := retiroCap, Weight := Int(1)])
      && HasEdgeWith(g, t[|t| - 1], t[0], map[Capacity := tigreCap, Weight := Int(1)])
  {
    var f := CostMinRestricted(sede, restriccion);
    var r, t := RetiroList(services, rs, f), TigreList(services, rs, f);
    PruebaOvernight(services, rs, f, g);
    OvernightEdgeCap(g, r[|r| - 1], r[0], sede, restriccion, true);
    OvernightEdgeCap(g, t[|t| - 1], t[0], sede, restriccion, false);
  }

  /** The capacity and cost an edge with the restricted overnight attributes carries. */
  lemma {:induction false} OvernightEdgeCap(g: Graph<EventTuple>, u: EventTuple, v: EventTuple, sede: string, restriccion: Value, retiroList: bool)
    requires HasEdgeWith(g, u, v, OvernightAttrs(CostMinRestricted(sede, restriccion), retiroList))
    ensures var capped := if sede == "Retiro" then retiroList else !retiroList;
      HasEdgeWith(g, u, v, map[Capacity := if capped then restriccion else Float(BIG), Weight := Int(1)])
  {
    var capped := if sede == "Retiro" then retiroList else !retiroList;
    HasEdgeWithSub(g, u, v, OvernightAttrs(CostMinRestricted(sede, restriccion), retiroList),
      map[Capacity := if capped then restriccion else Float(BIG), Weight := Int(1)]);
  }

  /**
    The transfer edge between consecutive events of a sorted station list
    carries weight 0 and capacity 1e10 (and lower bound 0 in the
    circulation), unless a trip call or the list's own overnight call also
    names that pair.
   */
  lemma {:induction false} PruebaTransfer(services: seq<Service>, rs: RsInfo, f: Formulation, g: Graph<EventTuple>,
                                          onRetiro: bool, i: nat)
    requires rs.capacity > 0 && PruebaGraph(services, rs, f) == Ok(g)
    requires i + 1 < |if onRetiro then RetiroList(services, rs, f) else TigreList(services, rs, f)|
    requires var l := if onRetiro then RetiroList(services, rs, f) else TigreList(services, rs, f);
      && (forall k :: 0 <= k < |services| && |services[k].stops| >= 2 ==> TripPair(services[k], rs, f) != (l[i], l[i + 1]))
      && (l[i], l[i + 1]) != (l[|l| - 1], l[0])
    ensures var l := if onRetiro then RetiroList(services, rs, f) else TigreList(services, rs, f);
      && HasEdgeWith(g, l[i], l[i + 1], TransferAttrs(f))
      && HasEdgeWith(g, l[i], l[i + 1], map[Weight := Int(0), Capacity := Float(BIG)])
  {
    var r, t := RetiroList(services, rs, f), TigreList(services, rs, f);
    var l := if onRetiro then r else t;
    PruebaBuilt(services, rs, f, g);
    TripsAvoid(services, rs, f, (l[i], l[i + 1]));
    OtherOvernightDiffers(services, rs, f, onRetiro, i);
    BuiltTransfer(g, r, t, TripOps(services, rs, f), f, onRetiro, i);
  }

  /** `CallsTransfer` for a graph built from the calls, with the attributes read out. */
  lemma {:induction false} BuiltTransfer(g: Graph<EventTuple>, r: seq<EventTuple>, t: seq<EventTuple>,
                                         trips: seq<Op<EventTuple>>, f: Formulation, onRetiro: bool, i: nat)
    requires BuiltFrom(g, r, t, trips, f)
    requires i + 1 < |if onRetiro then r else t|
    requires var l := if onRetiro then r else t;
      && (forall j :: 0 <= j < |trips| && trips[j].EdgeOp? ==> (trips[j].u, trips[j].v) != (l[i], l[i + 1]))
      && (l[i], l[i + 1]) != (r[|r| - 1], r[0]) && (l[i], l[i + 1]) != (t[|t| - 1], t[0])
    ensures var l := if onRetiro then r else t;
      && HasEdgeWith(g, l[i], l[i + 1], TransferAttrs(f))
      && HasEdgeWith(g, l[i], l[i + 1], map[Weight := Int(0), Capacity := Float(BIG)])
  {
    var l := if onRetiro then r else t;
    CallsTransfer(r, t, trips, f, onRetiro, i);
    HasEdgeWithSub(g, l[i], l[i + 1], TransferAttrs(f), map[Weight := Int(0), Capacity := Float(BIG)]);
  }

  /** A pair that is no service's trip pair is named by no trip call. */
  lemma {:induction false} TripsAvoid(services: seq<Service>, rs: RsInfo, f: Formulation, p: (EventTuple, EventTuple))
    requires rs.capacity > 0 && FirstShort(services).None?
    requires forall k :: 0 <= k < |services| && |services[k].stops| >= 2 ==> TripPair(services[k], rs, f) != p
    ensures forall j :: 0 <= j < |TripOps(services, rs, f)| && TripOps(services, rs, f)[j].EdgeOp? ==>
      (TripOps(services, rs, f)[j].u, TripOps(services, rs, f)[j].v) != p
  {
    var trips := TripOps(services, rs, f);
    forall j | 0 <= j < |trips| && trips[j].EdgeOp?
      ensures (trips[j].u, trips[j].v) != p
    {
      assert trips[j] == TripOp(services[j], rs, f);
    }
  }

  /** A consecutive pair of one station list is never the other list's overnight pair: the stations differ. */
  lemma {:induction false} OtherOvernightDiffers(services: seq<Service>, rs: RsInfo, f: Formulation, onRetiro: bool, i: nat)
    requires rs.capacity > 0 && RetiroList(services, rs, f) != [] && TigreList(services, rs, f) != []
    requires i + 1 < |if onRetiro then RetiroList(services, rs, f) else TigreList(services, rs, f)|
    ensures var r, t := RetiroList(services, rs, f), TigreList(services, rs, f);
      var l := if onRetiro then r else t;
      && (onRetiro ==> (l[i], l[i + 1]) != (t[|t| - 1], t[0]))
      && (!onRetiro ==> (l[i], l[i + 1]) != (r[|r| - 1], r[0]))
  {
    var r, t := RetiroList(services, rs, f), TigreList(services, rs, f);
    var l := if onRetiro then r else t;
    ListsStations(services, rs, f);
    assert l[i] in l && r[|r| - 1] in r && t[|t| - 1] in t;
  }

  /** A service goes from "Retiro" to another station or back. */
  predicate Crosses(s: Service)
  {
    |s.stops| >= 2 && (s.stops[0].station == "Retiro" <==> s.stops[1].station != "Retiro")
  }

  /** The trip call of a crossing service that no later service repeats is the last call on its pair. */
  lemma {:induction false} CrossingTripIsLast(services: seq<Service>, rs: RsInfo, f: Formulation, k: nat)
    requires rs.capacity > 0 && FirstShort(services).None?
    requires RetiroList(services, rs, f) != [] && TigreList(services, rs, f) != []
    requires k < |services| && Crosses(services[k])
    requires forall j :: k < j < |services| ==> TripPair(services[j], rs, f) != TripPair(services[k], rs, f)
    ensures LastOnItsPair(RetiroList(services, rs, f), TigreList(services, rs, f), TripOps(services, rs, f), k)
  {
    var r, t := RetiroList(services, rs, f), TigreList(services, rs, f);
    var trips := TripOps(services, rs, f);
    var p := TripPair(services[k], rs, f);
    ListsStations(services, rs, f);
    assert r[|r| - 1].station == "Retiro" && r[0].station == "Retiro";
    assert t[|t| - 1].station != "Retiro" && t[0].station != "Retiro";
    assert p.0.station == services[k].stops[0].station && p.1.station == services[k].stops[1].station;
    assert (trips[k].u, trips[k].v) == p;
  }

  /**
    The trip edge of a service that crosses between the two sides, and whose
    pair of tuples no later service repeats, carries the trip attributes.
   */
  lemma {:induction false} PruebaTripAttrs(services: seq<Service>, rs: RsInfo, f: Formulation, g: Graph<EventTuple>, k: nat)
    requires rs.capacity > 0 && PruebaGraph(services, rs, f) == Ok(g)
    requires k < |services| && Crosses(services[k])
    requires forall j :: k < j < |services| ==> TripPair(services[j], rs, f) != TripPair(services[k], rs, f)
    ensures HasEdgeWith(g, TripPair(services[k], rs, f).0, TripPair(services[k], rs, f).1, TripAttrs(services[k], rs, f))
  {
    PruebaBuilt(services, rs, f, g);
    CrossingTripIsLast(services, rs, f, k);
    CallsTrip(RetiroList(services, rs, f), TigreList(services, rs, f), TripOps(services, rs, f), f, k);
  }

  /**
    The bounds on such a trip edge: in the circulation the lower bound
    ceil(demand / capacity) and the upper bound max_rs, otherwise the capacity
    max_rs - demand / capacity; the cost is 0 in every formulation.
   */
  lemma {:induction false} PruebaTrip(services: seq<Service>, rs: RsInfo, f: Formulation, g: Graph<EventTuple>, k: nat)
    requires rs.capacity > 0 && PruebaGraph(services, rs, f) == Ok(g)
    requires k < |services| && Crosses(services[k])
    requires forall j :: k < j < |services| ==> TripPair(services[j], rs, f) != TripPair(services[k], rs, f)
    ensures var p, s := TripPair(services[k], rs, f), services[k];
      && (f.Circulation? ==>
            HasEdgeWith(g, p.0, p.1, map[LowerBound := Int(CeilDiv(s.demand, rs.capacity)),
                                         UpperBound := Int(rs.maxRs), Weight := Int(0)]))
      && (!f.Circulation? ==>
            HasEdgeWith(g, p.0, p.1, map[Capacity := Float(rs.maxRs as real - s.demand as real / rs.capacity as real),
                                         Weight := Int(0)]))
  {
    PruebaTripAttrs(services, rs, f, g, k);
    TripEdgeBounds(g, TripPair(services[k], rs, f).0, TripPair(services[k], rs, f).1, services[k], rs, f);
  }

  /** The bounds an edge with the trip attributes carries. */
  lemma {:induction false} TripEdgeBounds(g: Graph<EventTuple>, u: EventTuple, v: EventTuple, s: Service, rs: RsInfo, f: Formulation)
    requires rs.capacity > 0 && HasEdgeWith(g, u, v, TripAttrs(s, rs, f))
    ensures f.Circulation? ==>
      HasEdgeWith(g, u, v, map[LowerBound := Int(CeilDiv(s.demand, rs.capacity)), UpperBound := Int(rs.maxRs), Weight := Int(0)])
    ensures !f.Circulation? ==>
      HasEdgeWith(g, u, v, map[Capacity := Float(rs.maxRs as real - s.demand as real / rs.capacity as real), Weight := Int(0)])
  {
    if f.Circulation? {
      HasEdgeWithSub(g, u, v, TripAttrs(s, rs, f),
        map[LowerBound := Int(CeilDiv(s.demand, rs.capacity)), UpperBound := Int(rs.maxRs), Weight := Int(0)]);
    } else {
      HasEdgeWithSub(g, u, v, TripAttrs(s, rs, f),
        map[Capacity := Float(rs.maxRs as real - s.demand as real / rs.capacity as real), Weight := Int(0)]);
    }
  }

  /**
    The lower-bound reduction loses nothing for whole train units: an integer
    extra flow `x` fits under the cost-min trip capacity max_rs - d/cap exactly
    when ceil(d/cap) + x units stay within max_rs.
   */
  lemma {:induction false} TripSlackExact(s: Service, rs: RsInfo, f: Formulation, x: int)
    requires rs.capacity > 0 && !f.Circulation?
    ensures Capacity in TripAttrs(s, rs, f) && TripAttrs(s, rs, f)[Capacity].Float?
    ensures x as real <= TripAttrs(s, rs, f)[Capacity].x <==> RequiredUnits(s, rs) + x <= rs.maxRs
  {
    var q := s.demand as real / rs.capacity as real;
    var c := RequiredUnits(s, rs);
    CeilDivIsCeiling(s.demand, rs.capacity);
    assert TripAttrs(s, rs, f)[Capacity].x == rs.maxRs as real - q;
    if x as real <= rs.maxRs as real - q {
      assert (c - 1) as real < (rs.maxRs - x) as real;
    }
  }

  // ---------------------------------------------------------------------------
  // Demands

  lemma {:induction false} DemandSumOfTuples(s: seq<EventTuple>, nodes: map<EventTuple, Attrs>)
    requires forall t :: t in s ==> t in nodes && nodes[t] == DemandAttrs(t)
    ensures DemandSum(s, nodes) == SumBy(s, NodeDemand)
  {
    if s != [] {
      DemandSumOfTuples(s[1..], nodes);
    }
  }

  /** The total demand of a built network is that of its distinct tuples. */
  lemma {:induction false} PruebaTotalDemand(services: seq<Service>, rs: RsInfo, f: Formulation, g: Graph<EventTuple>)
    requires rs.capacity > 0 && PruebaGraph(services, rs, f) == Ok(g)
    ensures TotalDemand(g) == SumBy(Dedup(RetiroList(services, rs, f) + TigreList(services, rs, f)), NodeDemand)
  {
    var l := RetiroList(services, rs, f) + TigreList(services, rs, f);
    PruebaNodes(services, rs, f, g);
    DedupFacts(l);
    ListsMembers(services, rs, f);
    DemandSumOfTuples(g.order, g.nodes);
  }

  /**
    When every service is a departure followed by an arrival and no two stops
    give the same tuple, the demands of a built network add up to zero, as a
    minimum-cost flow needs.
   */
  lemma {:induction false} PruebaBalanced(services: seq<Service>, rs: RsInfo, f: Formulation, g: Graph<EventTuple>)
    requires rs.capacity > 0 && PruebaGraph(services, rs, f) == Ok(g)
    requires forall k :: 0 <= k < |services| ==> DepartureThenArrival(services[k])
    requires Distinct(AllTuples(services, rs, UsesDemand(f)))
    ensures TotalDemand(g) == 0
  {
    var all := AllTuples(services, rs, UsesDemand(f));
    var l := RetiroList(services, rs, f) + TigreList(services, rs, f);
    PruebaTotalDemand(services, rs, f, g);
    ListsSplitTuples(services, rs, f);
    DistinctMultiset(all);
    DistinctMultiset(l);
    DedupDistinct(l);
    SumByPermutation(l, all, NodeDemand);
    AllTuplesDemandZero(services, rs, UsesDemand(f));
  }
}
