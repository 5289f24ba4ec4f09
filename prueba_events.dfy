/**
  The event tuples of src/prueba.py and how its three modelling functions
  gather them: every stop becomes a tuple, kept in `nodos`, and also in
  `retiro` when its station is "Retiro" or in `tigre` otherwise; each list is
  then sorted by time.
 */
module PruebaEvents {

  import opened Timetable
  import opened StableSort
  import opened Sums

  /**
    A node of the prueba.py networks: the 3-tuple (time, station, type) of
    `crear_tupla_circ`, or the 4-tuple (time, station, type, units) of
    `crear_tupla`. Equal tuples are the same networkx node.
   */
  datatype EventTuple =
    | Circ(time: int, station: string, kind: string)
    | Priced(time: int, station: string, kind: string, units: int)

  /** `crear_tupla(stop, demand / capacity)`: the units are the ceiling of the quotient. */
  function CreateTuple(stop: Stop, demand: int, capacity: int): (t: EventTuple)
    requires capacity > 0
    ensures t.Priced? && t.time == stop.time && t.station == stop.station && t.kind == stop.kind
    ensures demand as real / capacity as real <= t.units as real
    ensures (t.units - 1) as real < demand as real / capacity as real
  {
    CeilDivIsCeiling(demand, capacity);
    Priced(stop.time, stop.station, stop.kind, CeilDiv(demand, capacity))
  }

  /** `crear_tupla_circ(stop)`: two stops give the same node exactly when they are equal. */
  function CreateTupleCirc(stop: Stop): (t: EventTuple)
    ensures t.Circ? && t.time == stop.time && t.station == stop.station && t.kind == stop.kind
  {
    Circ(stop.time, stop.station, stop.kind)
  }

  /** The sort key `lambda x: x[0]`. */
  function TimeOf(t: EventTuple): int
  {
    t.time
  }

  /** `ordenar_tuplas_por_numero(lista)`: Python's stable `sorted` keyed on the time. */
  function OrderByTime(lista: seq<EventTuple>): seq<EventTuple>
  {
    SortBy(lista, TimeOf)
  }

  /** The sorted list is ordered by time, a permutation of the input, and keeps equal times in input order. */
  lemma {:induction false} OrderByTimeSorts(lista: seq<EventTuple>)
    ensures var r := OrderByTime(lista);
      && SortedBy(r, TimeOf)
      && multiset(r) == multiset(lista)
      && forall k :: WithKey(r, TimeOf, k) == WithKey(lista, TimeOf, k)
  {
    SortByCorrect(lista, TimeOf);
  }

  /** The tuple a stop of service `s` becomes: `crear_tupla` when `priced`, else `crear_tupla_circ`. */
  function TupleOf(stop: Stop, s: Service, rs: RsInfo, priced: bool): EventTuple
    requires priced ==> rs.capacity > 0
  {
    if priced then CreateTuple(stop, s.demand, rs.capacity) else CreateTupleCirc(stop)
  }

  /** The tuples of one service's stops, in stop order. */
  function StopTuples(s: Service, rs: RsInfo, priced: bool): (r: seq<EventTuple>)
    requires priced ==> rs.capacity > 0
    ensures |r| == |s.stops|
  {
    seq(|s.stops|, j requires 0 <= j < |s.stops| => TupleOf(s.stops[j], s, rs, priced))
  }

  /** `nodos`: the tuples of every stop of every service, in dictionary order. */
  function AllTuples(services: seq<Service>, rs: RsInfo, priced: bool): seq<EventTuple>
    requires priced ==> rs.capacity > 0
  {
    if services == [] then []
    else AllTuples(services[..|services| - 1], rs, priced) + StopTuples(services[|services| - 1], rs, priced)
  }

  /** The tuples at station "Retiro", in order. */
  function AtRetiro(l: seq<EventTuple>): seq<EventTuple>
  {
    if l == [] then []
    else AtRetiro(l[..|l| - 1]) + (if l[|l| - 1].station == "Retiro" then [l[|l| - 1]] else [])
  }

  /** The tuples at any other station, in order. */
  function NotRetiro(l: seq<EventTuple>): seq<EventTuple>
  {
    if l == [] then []
    else NotRetiro(l[..|l| - 1]) + (if l[|l| - 1].station != "Retiro" then [l[|l| - 1]] else [])
  }

  /** Appending a tuple appends it to exactly one of the two station lists. */
  lemma {:induction false} SplitSnoc(l: seq<EventTuple>, t: EventTuple)
    ensures AtRetiro(l + [t]) == AtRetiro(l) + (if t.station == "Retiro" then [t] else [])
    ensures NotRetiro(l + [t]) == NotRetiro(l) + (if t.station != "Retiro" then [t] else [])
  {
    assert (l + [t])[..|l|] == l;
  }

  lemma {:induction false} PrefixSnoc(ts: seq<EventTuple>, j: nat)
    requires j < |ts|
    ensures ts[..j + 1] == ts[..j] + [ts[j]]
  {
  }

  lemma {:induction false} AllTuplesStep(services: seq<Service>, rs: RsInfo, priced: bool, i: nat)
    requires priced ==> rs.capacity > 0
    requires i < |services|
    ensures AllTuples(services[..i + 1], rs, priced) == AllTuples(services[..i], rs, priced) + StopTuples(services[i], rs, priced)
  {
    assert services[..i + 1][..i] == services[..i];
  }

  /**
    The "limpieza" loop: `nodos` gets every stop's tuple, `retiro` those at
    "Retiro" and `tigre` all the others.
   */
  method CollectEvents(services: seq<Service>, rs: RsInfo, priced: bool)
    returns (retiro: seq<EventTuple>, tigre: seq<EventTuple>, nodos: seq<EventTuple>)
    requires priced ==> rs.capacity > 0
    ensures nodos == AllTuples(services, rs, priced)
    ensures retiro == AtRetiro(nodos) && tigre == NotRetiro(nodos)
  {
    retiro, tigre, nodos := [], [], [];
    var i := 0;
    while i < |services|
      invariant 0 <= i <= |services|
      invariant nodos == AllTuples(services[..i], rs, priced)
      invariant retiro == AtRetiro(nodos) && tigre == NotRetiro(nodos)
    {
      AllTuplesStep(services, rs, priced, i);
      retiro, tigre, nodos := CollectStops(services[i], rs, priced, retiro, tigre, nodos);
      i := i + 1;
    }
    assert services[..|services|] == services;
  }

  /** The inner loop of "limpieza": the stops of one service, appended in order. */
  method CollectStops(service: Service, rs: RsInfo, priced: bool, retiro0: seq<EventTuple>, tigre0: seq<EventTuple>, nodos0: seq<EventTuple>)
    returns (retiro: seq<EventTuple>, tigre: seq<EventTuple>, nodos: seq<EventTuple>)
    requires priced ==> rs.capacity > 0
    requires retiro0 == AtRetiro(nodos0) && tigre0 == NotRetiro(nodos0)
    ensures nodos == nodos0 + StopTuples(service, rs, priced)
    ensures retiro == AtRetiro(nodos) && tigre == NotRetiro(nodos)
  {
    ghost var ts := StopTuples(service, rs, priced);
    retiro, tigre, nodos := retiro0, tigre0, nodos0;
    var j := 0;
    while j < |service.stops|
      invariant 0 <= j <= |service.stops|
      invariant nodos == nodos0 + ts[..j]
      invariant retiro == AtRetiro(nodos) && tigre == NotRetiro(nodos)
    {
      var place := service.stops[j];
      var t := TupleOf(place, service, rs, priced);
      assert ts[j] == t;
      SplitSnoc(nodos, t);
      PrefixSnoc(ts, j);
      assert nodos0 + ts[..j + 1] == nodos + [t];
      nodos := nodos + [t];
      if place.station == "Retiro" {
        retiro := retiro + [t];
      } else {
        tigre := tigre + [t];
      }
      j := j + 1;
    }
    assert ts[..j] == ts;
  }

  /**
    No stop is lost or duplicated: `retiro` holds exactly the tuples at
    "Retiro", `tigre` exactly the others, and together they are `nodos`.
   */
  lemma {:induction false} StationPartition(l: seq<EventTuple>)
    ensures multiset(AtRetiro(l)) + multiset(NotRetiro(l)) == multiset(l)
    ensures forall t :: t in AtRetiro(l) <==> t in l && t.station == "Retiro"
    ensures forall t :: t in NotRetiro(l) <==> t in l && t.station != "Retiro"
  {
    StationCounts(l);
    StationMembers(l);
  }

  lemma {:induction false} StationCounts(l: seq<EventTuple>)
    ensures multiset(AtRetiro(l)) + multiset(NotRetiro(l)) == multiset(l)
  {
    if l != [] {
      var p, t := l[..|l| - 1], l[|l| - 1];
      assert l == p + [t];
      StationCounts(p);
      SplitSnoc(p, t);
    }
  }

  lemma {:induction false} StationMembers(l: seq<EventTuple>)
    ensures forall t :: t in AtRetiro(l) <==> t in l && t.station == "Retiro"
    ensures forall t :: t in NotRetiro(l) <==> t in l && t.station != "Retiro"
  {
    if l != [] {
      var p, t := l[..|l| - 1], l[|l| - 1];
      assert l == p + [t];
      StationMembers(p);
      SplitSnoc(p, t);
    }
  }

  /** `nodos` holds a tuple for every stop of every service, and nothing else. */
  lemma {:induction false} AllTuplesMembers(services: seq<Service>, rs: RsInfo, priced: bool, t: EventTuple)
    requires priced ==> rs.capacity > 0
    ensures t in AllTuples(services, rs, priced) <==>
      exists k, j :: 0 <= k < |services| && 0 <= j < |services[k].stops| && t == TupleOf(services[k].stops[j], services[k], rs, priced)
  {
    if services != [] {
      var n := |services| - 1;
      var p := services[..n];
      AllTuplesMembers(p, rs, priced, t);
      var st := StopTuples(services[n], rs, priced);
      if t in AllTuples(services, rs, priced) {
        if t in st {
          var j :| 0 <= j < |st| && st[j] == t;
          assert t == TupleOf(services[n].stops[j], services[n], rs, priced);
        } else {
          var k, j :| 0 <= k < |p| && 0 <= j < |p[k].stops| && t == TupleOf(p[k].stops[j], p[k], rs, priced);
          assert p[k] == services[k];
        }
      } else {
        forall k, j | 0 <= k < |services| && 0 <= j < |services[k].stops|
          ensures t != TupleOf(services[k].stops[j], services[k], rs, priced)
        {
          if k < n {
            assert p[k] == services[k];
          } else {
            assert st[j] == TupleOf(services[k].stops[j], services[k], rs, priced);
          }
        }
      }
    }
  }

  /** The signed demand a tuple's node gets: 0 in the circulation network, +units for a "D" stop and -units otherwise. */
  function NodeDemand(t: EventTuple): int
  {
    match t
    case Circ(_, _, _) => 0
    case Priced(_, _, kind, units) => if kind == "D" then units else -units
  }

  /**
    When every service is a "D" stop followed by an arrival stop, the demands
    of all the stops' tuples cancel service by service.
   */
  lemma {:induction false} AllTuplesDemandZero(services: seq<Service>, rs: RsInfo, priced: bool)
    requires priced ==> rs.capacity > 0
    requires forall k :: 0 <= k < |services| ==> DepartureThenArrival(services[k])
    ensures SumBy(AllTuples(services, rs, priced), NodeDemand) == 0
  {
    if services != [] {
      var n := |services| - 1;
      AllTuplesDemandZero(services[..n], rs, priced);
      var st := StopTuples(services[n], rs, priced);
      SumByAppend(AllTuples(services[..n], rs, priced), st, NodeDemand);
      assert st[1..] == [st[1]];
      assert st[1..][1..] == [];
      assert SumBy(st[1..], NodeDemand) == NodeDemand(st[1]) + SumBy(st[1..][1..], NodeDemand);
      assert SumBy(st, NodeDemand) == NodeDemand(st[0]) + NodeDemand(st[1]);
      assert NodeDemand(st[0]) + NodeDemand(st[1]) == 0 by {
        if priced {
          assert st[0].units == st[1].units;
        }
      }
    }
  }
}
