/**
  The three networks src/prueba.py builds from the same event tuples:
  `main_modelado_circulacion` (bounds kept on the trip edges, every demand 0),
  `main_modelado_cost_min` (the lower bound moved into the node demands) and
  `main_modelado_cost_min_restricciones` (the same, with one station's
  overnight edge capped).
 */
module PruebaNetwork {

  import opened Wrappers
  import opened Timetable
  import opened StableSort
  import opened Sums
  import opened DiGraph
  import opened PruebaEvents

  /** Which of the three functions builds the network; `restriction` is stored as given, int or float. */
  datatype Formulation =
    | Circulation
    | CostMin
    | CostMinRestricted(sede: string, restriction: Value)

  /** The cost-min variants key nodes by `crear_tupla`, with units; circulation by `crear_tupla_circ`. */
  predicate UsesDemand(f: Formulation)
  {
    !f.Circulation?
  }

  /** Attributes of a transfer ("traspaso") edge. */
  function TransferAttrs(f: Formulation): Attrs
  {
    if f.Circulation? then map[LowerBound := Int(0), Weight := Int(0), Capacity := Float(BIG), Color := Text("blue")]
    else map[Weight := Int(0), Capacity := Float(BIG), Color := Text("blue")]
  }

  /**
    Attributes of a service's trip ("tren") edge: bounds [ceil(d/cap), max_rs]
    in the circulation, the slack max_rs - d/cap as capacity otherwise.
   */
  function TripAttrs(s: Service, rs: RsInfo, f: Formulation): Attrs
    requires rs.capacity > 0
  {
    if f.Circulation? then
      map[LowerBound := Int(CeilDiv(s.demand, rs.capacity)), Weight := Int(0),
          UpperBound := Int(rs.maxRs), Color := Text("green")]
    else
      map[Weight := Int(0), Capacity := Float(rs.maxRs as real - s.demand as real / rs.capacity as real),
          Color := Text("green")]
  }

  /**
    Attributes of the overnight ("trasnoche") edge of the `retiro` list (when
    `retiroList`) or of the `tigre` list. The circulation passes the misspelt
    keyword `capicity`, so its overnight edges get no capacity.
   */
  function OvernightAttrs(f: Formulation, retiroList: bool): Attrs
  {
    match f
    case Circulation =>
      map[LowerBound := Int(0), Weight := Int(1), Capicity := Float(BIG), Color := Text("red")]
    case CostMin =>
      map[Weight := Int(1), Capacity := Float(BIG), Color := Text("red")]
    case CostMinRestricted(sede, restriction) =>
      var capped := if sede == "Retiro" then retiroList else !retiroList;
      map[Weight := Int(1), Capacity := if capped then restriction else Float(BIG), Color := Text("red")]
  }

  /** The attributes `add_node` gives a tuple's node: only its demand. */
  function DemandAttrs(t: EventTuple): Attrs
  {
    map[Demand := Int(NodeDemand(t))]
  }

  /** One `add_node` per tuple of a sorted station list. */
  function NodeOps(l: seq<EventTuple>): (ops: seq<Op<EventTuple>>)
    ensures |ops| == |l|
  {
    seq(|l|, i requires 0 <= i < |l| => NodeOp(l[i], DemandAttrs(l[i])))
  }

  /** One `add_edge` from each tuple of a sorted station list to the next. */
  function TransferOps(l: seq<EventTuple>, attrs: Attrs): (ops: seq<Op<EventTuple>>)
    ensures |ops| == if l == [] then 0 else |l| - 1
  {
    seq(if l == [] then 0 else |l| - 1, i requires 0 <= i < |l| - 1 => EdgeOp(l[i], l[i + 1], attrs))
  }

  /** The trip edge of one service: from its first stop's tuple to its second's. */
  function TripOp(s: Service, rs: RsInfo, f: Formulation): Op<EventTuple>
    requires rs.capacity > 0 && |s.stops| >= 2
  {
    EdgeOp(TupleOf(s.stops[0], s, rs, UsesDemand(f)), TupleOf(s.stops[1], s, rs, UsesDemand(f)), TripAttrs(s, rs, f))
  }

  function TripOps(services: seq<Service>, rs: RsInfo, f: Formulation): (ops: seq<Op<EventTuple>>)
    requires rs.capacity > 0 && forall k :: 0 <= k < |services| ==> |services[k].stops| >= 2
    ensures |ops| == |services|
  {
    seq(|services|, k requires 0 <= k < |services| => TripOp(services[k], rs, f))
  }

  lemma {:induction false} TripOpsSnoc(services: seq<Service>, rs: RsInfo, f: Formulation, k: nat)
    requires rs.capacity > 0 && k < |services|
    requires forall j :: 0 <= j <= k ==> |services[j].stops| >= 2
    ensures TripOps(services[..k + 1], rs, f) == TripOps(services[..k], rs, f) + [TripOp(services[k], rs, f)]
  {
  }

  /** The overnight edge of a station list: from its latest tuple back to its earliest. */
  function OvernightOp(l: seq<EventTuple>, attrs: Attrs): Op<EventTuple>
    requires l != []
  {
    EdgeOp(l[|l| - 1], l[0], attrs)
  }

  /** `retiro` after sorting. */
  function RetiroList(services: seq<Service>, rs: RsInfo, f: Formulation): seq<EventTuple>
    requires rs.capacity > 0
  {
    OrderByTime(AtRetiro(AllTuples(services, rs, UsesDemand(f))))
  }

  /** `tigre` after sorting. */
  function TigreList(services: seq<Service>, rs: RsInfo, f: Formulation): seq<EventTuple>
    requires rs.capacity > 0
  {
    OrderByTime(NotRetiro(AllTuples(services, rs, UsesDemand(f))))
  }

  /**
    The graph calls of a modelling function, in order, given its two sorted
    station lists and its trip calls: nodes, transfers, trips, overnight edges.
   */
  function NetworkCalls(retiro: seq<EventTuple>, tigre: seq<EventTuple>, trips: seq<Op<EventTuple>>, f: Formulation)
    : seq<Op<EventTuple>>
    requires retiro != [] && tigre != []
  {
    NodeOps(retiro) + NodeOps(tigre)
    + TransferOps(retiro, TransferAttrs(f)) + TransferOps(tigre, TransferAttrs(f))
    + trips
    + [OvernightOp(retiro, OvernightAttrs(f, true)), OvernightOp(tigre, OvernightAttrs(f, false))]
  }

  /** Every graph call a modelling function makes, in order, when none of them fails. */
  function NetworkOps(services: seq<Service>, rs: RsInfo, f: Formulation): seq<Op<EventTuple>>
    requires rs.capacity > 0 && FirstShort(services).None?
    requires RetiroList(services, rs, f) != [] && TigreList(services, rs, f) != []
  {
    NetworkCalls(RetiroList(services, rs, f), TigreList(services, rs, f), TripOps(services, rs, f), f)
  }

  /**
    The network a modelling function builds, or the error that aborts it: a
    service with fewer than two stops fails in the trip loop, an empty
    `retiro` or `tigre` list when its overnight edge is added.
   */
  function PruebaGraph(services: seq<Service>, rs: RsInfo, f: Formulation): Result<Graph<EventTuple>, BuildError>
    requires rs.capacity > 0
  {
    match FirstShort(services)
    case Some(id) => Err(MissingStop(id))
    case None =>
      if RetiroList(services, rs, f) == [] then Err(EmptyStationList("retiro"))
      else if TigreList(services, rs, f) == [] then Err(EmptyStationList("tigre"))
      else Ok(Run(Empty(), NetworkOps(services, rs, f)))
  }

  /** The node loop over one station list. */
  method AddNodes(g: Graph<EventTuple>, l: seq<EventTuple>) returns (r: Graph<EventTuple>)
    ensures r == Run(g, NodeOps(l))
  {
    r := g;
    for i := 0 to |l|
      invariant r == Run(g, NodeOps(l)[..i])
    {
      var demand := if l[i].Circ? then 0 else if l[i].kind == "D" then l[i].units else -l[i].units;
      assert demand == NodeDemand(l[i]);
      var op := NodeOp(l[i], map[Demand := Int(demand)]);
      assert NodeOps(l)[i] == op;
      RunStep(g, NodeOps(l), i);
      r := Apply(r, op);
    }
    assert NodeOps(l)[..|l|] == NodeOps(l);
  }

  /** The transfer loop over one station list. */
  method AddTransfers(g: Graph<EventTuple>, l: seq<EventTuple>, attrs: Attrs) returns (r: Graph<EventTuple>)
    ensures r == Run(g, TransferOps(l, attrs))
  {
    r := g;
    if l == [] {
      return;
    }
    for i := 0 to |l| - 1
      invariant r == Run(g, TransferOps(l, attrs)[..i])
    {
      var op := EdgeOp(l[i], l[i + 1], attrs);
      assert TransferOps(l, attrs)[i] == op;
      RunStep(g, TransferOps(l, attrs), i);
      r := Apply(r, op);
    }
    assert TransferOps(l, attrs)[..|l| - 1] == TransferOps(l, attrs);
  }

  /** The trip loop; it aborts at the first service with fewer than two stops. */
  method AddTrips(g: Graph<EventTuple>, services: seq<Service>, rs: RsInfo, f: Formulation)
    returns (r: Result<Graph<EventTuple>, BuildError>)
    requires rs.capacity > 0
    ensures FirstShort(services).Some? ==> r == Err(MissingStop(FirstShort(services).value))
    ensures FirstShort(services).None? ==> r == Ok(Run(g, TripOps(services, rs, f)))
  {
    var h := g;
    for k := 0 to |services|
      invariant forall j :: 0 <= j < k ==> |services[j].stops| >= 2
      invariant h == Run(g, TripOps(services[..k], rs, f))
    {
      var service := services[k];
      var temp := StopTuples(service, rs, UsesDemand(f));
      if |temp| < 2 {
        FirstShortAt(services, k);
        return Err(MissingStop(service.id));
      }
      var op := EdgeOp(temp[0], temp[1], TripAttrs(service, rs, f));
      assert op == TripOp(service, rs, f);
      TripOpsSnoc(services, rs, f, k);
      RunSnoc(g, TripOps(services[..k], rs, f), op);
      h := Apply(h, op);
    }
    assert services[..|services|] == services;
    r := Ok(h);
  }

  /** The "limpieza" loop followed by the two calls of `ordenar_tuplas_por_numero`. */
  method SortedStationLists(services: seq<Service>, rs: RsInfo, f: Formulation)
    returns (retiro: seq<EventTuple>, tigre: seq<EventTuple>)
    requires rs.capacity > 0
    ensures retiro == RetiroList(services, rs, f) && tigre == TigreList(services, rs, f)
  {
    var nodos;
    retiro, tigre, nodos := CollectEvents(services, rs, UsesDemand(f));
    retiro := OrderByTime(retiro);
    tigre := OrderByTime(tigre);
  }

  /** The node loops and the transfer loops, which cannot fail. */
  method NodesAndTransfers(retiro: seq<EventTuple>, tigre: seq<EventTuple>, f: Formulation)
    returns (g: Graph<EventTuple>)
    ensures g == Run(Empty(), NodeOps(retiro) + NodeOps(tigre)
                              + TransferOps(retiro, TransferAttrs(f)) + TransferOps(tigre, TransferAttrs(f)))
  {
    var g0 := Empty();
    var g1 := AddNodes(g0, retiro);
    var g2 := AddNodes(g1, tigre);
    var g3 := AddTransfers(g2, retiro, TransferAttrs(f));
    g := AddTransfers(g3, tigre, TransferAttrs(f));
    RunAppend(g0, NodeOps(retiro), NodeOps(tigre));
    RunAppend(g0, NodeOps(retiro) + NodeOps(tigre), TransferOps(retiro, TransferAttrs(f)));
    RunAppend(g0, NodeOps(retiro) + NodeOps(tigre) + TransferOps(retiro, TransferAttrs(f)), TransferOps(tigre, TransferAttrs(f)));
  }

  /** The calls of a successful build, batch by batch. */
  lemma {:induction false} NetworkOpsInBatches(services: seq<Service>, rs: RsInfo, f: Formulation)
    requires rs.capacity > 0 && FirstShort(services).None?
    requires RetiroList(services, rs, f) != [] && TigreList(services, rs, f) != []
    ensures var retiro, tigre := RetiroList(services, rs, f), TigreList(services, rs, f);
      var g4 := Run(Empty(), NodeOps(retiro) + NodeOps(tigre)
                             + TransferOps(retiro, TransferAttrs(f)) + TransferOps(tigre, TransferAttrs(f)));
      Run(Empty(), NetworkOps(services, rs, f))
      == Apply(Apply(Run(g4, TripOps(services, rs, f)), OvernightOp(retiro, OvernightAttrs(f, true))),
               OvernightOp(tigre, OvernightAttrs(f, false)))
  {
    var retiro, tigre := RetiroList(services, rs, f), TigreList(services, rs, f);
    var a4 := NodeOps(retiro) + NodeOps(tigre) + TransferOps(retiro, TransferAttrs(f)) + TransferOps(tigre, TransferAttrs(f));
    var a5 := TripOps(services, rs, f);
    var o1, o2 := OvernightOp(retiro, OvernightAttrs(f, true)), OvernightOp(tigre, OvernightAttrs(f, false));
    assert NetworkOps(services, rs, f) == a4 + a5 + [o1, o2];
    RunAppend(Empty(), a4, a5);
    RunAppend(Empty(), a4 + a5, [o1, o2]);
    RunTwo(Run(Empty(), a4 + a5), o1, o2);
  }

  /** A modelling function of src/prueba.py, without its JSON loading, drawing and solver call. */
  method BuildNetwork(services: seq<Service>, rs: RsInfo, f: Formulation)
    returns (r: Result<Graph<EventTuple>, BuildError>)
    requires rs.capacity > 0
    ensures r == PruebaGraph(services, rs, f)
  {
    var retiro, tigre := SortedStationLists(services, rs, f);
    var g := NodesAndTransfers(retiro, tigre, f);
    var trips := AddTrips(g, services, rs, f);
    if trips.Err? {
      return trips;
    }
    if |retiro| == 0 {
      return Err(EmptyStationList("retiro"));
    }
    var o1 := OvernightOp(retiro, OvernightAttrs(f, true));
    g := Apply(trips.value, o1);
    if |tigre| == 0 {
      return Err(EmptyStationList("tigre"));
    }
    var o2 := OvernightOp(tigre, OvernightAttrs(f, false));
    g := Apply(g, o2);
    NetworkOpsInBatches(services, rs, f);
    r := Ok(g);
  }

  /** `main_modelado_circulacion`. */
  method ModelCirculation(services: seq<Service>, rs: RsInfo) returns (r: Result<Graph<EventTuple>, BuildError>)
    requires rs.capacity > 0
    ensures r == PruebaGraph(services, rs, Circulation)
  {
    r := BuildNetwork(services, rs, Circulation);
  }

  /** `main_modelado_cost_min`. */
  method ModelCostMin(services: seq<Service>, rs: RsInfo) returns (r: Result<Graph<EventTuple>, BuildError>)
    requires rs.capacity > 0
    ensures r == PruebaGraph(services, rs, CostMin)
  {
    r := BuildNetwork(services, rs, CostMin);
  }

  /** `main_modelado_cost_min_restricciones(filename, sede, restriccion)`. */
  method ModelCostMinRestricted(services: seq<Service>, rs: RsInfo, sede: string, restriccion: Value)
    returns (r: Result<Graph<EventTuple>, BuildError>)
    requires rs.capacity > 0
    ensures r == PruebaGraph(services, rs, CostMinRestricted(sede, restriccion))
  {
    r := BuildNetwork(services, rs, CostMinRestricted(sede, restriccion));
  }
}
