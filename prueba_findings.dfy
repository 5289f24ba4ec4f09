/**
  What keying nodes by event tuples costs in src/prueba.py: two services that
  leave the same station at the same time with the same number of units give
  one tuple, hence one node, and the demand of one of them is lost.
 */
module PruebaFindings {

  import opened Wrappers
  import opened Timetable
  import opened Sequences
  import opened Sums
  import opened StableSort
  import opened DiGraph
  import opened PruebaEvents
  import opened PruebaNetwork
  import opened PruebaFacts

  /** Two trains leave "Retiro" at time 0, one reaching "Tigre" at 10, the other at 20. */
  function SameDeparture(): seq<Service>
  {
    [ Service("1", [Stop("Retiro", 0, "D"), Stop("Tigre", 10, "A")], 100),
      Service("2", [Stop("Retiro", 0, "D"), Stop("Tigre", 20, "A")], 100) ]
  }

  const Rs := RsInfo(100, 5)
  const Departure := Priced(0, "Retiro", "D", 1)
  const Arrival10 := Priced(10, "Tigre", "A", 1)
  const Arrival20 := Priced(20, "Tigre", "A", 1)

  lemma {:induction false} SameDepartureStops(k: nat)
    requires k < 2
    ensures StopTuples(SameDeparture()[k], Rs, true) == [Departure, if k == 0 then Arrival10 else Arrival20]
  {
    assert CeilDiv(100, 100) == 1;
    var st := StopTuples(SameDeparture()[k], Rs, true);
    assert st[0] == TupleOf(SameDeparture()[k].stops[0], SameDeparture()[k], Rs, true);
    assert st[1] == TupleOf(SameDeparture()[k].stops[1], SameDeparture()[k], Rs, true);
  }

  lemma {:induction false} SameDepartureTuples()
    ensures AllTuples(SameDeparture(), Rs, true) == [Departure, Arrival10, Departure, Arrival20]
  {
    var s := SameDeparture();
    assert s[..1][..0] == [];
    assert AllTuples(s[..1], Rs, true) == StopTuples(s[0], Rs, true);
    SameDepartureStops(0);
    SameDepartureStops(1);
  }

  lemma {:induction false} SameDepartureSides()
    ensures AtRetiro([Departure, Arrival10, Departure, Arrival20]) == [Departure, Departure]
    ensures NotRetiro([Departure, Arrival10, Departure, Arrival20]) == [Arrival10, Arrival20]
  {
    var l := [Departure, Arrival10, Departure, Arrival20];
    assert l[..3] == [Departure, Arrival10, Departure];
    assert l[..3][..2] == [Departure, Arrival10];
    assert l[..3][..2][..1] == [Departure];
    assert l[..3][..2][..1][..0] == [];
    assert AtRetiro([Departure]) == [Departure];
    assert AtRetiro([Departure, Arrival10]) == [Departure];
    assert AtRetiro([Departure, Arrival10, Departure]) == [Departure, Departure];
    assert NotRetiro([Departure]) == [];
    assert NotRetiro([Departure, Arrival10]) == [Arrival10];
    assert NotRetiro([Departure, Arrival10, Departure]) == [Arrival10];
  }

  lemma {:induction false} SameDepartureTrips()
    ensures FirstShort(SameDeparture()).None?
  {
    var s := SameDeparture();
    assert |s[0].stops| >= 2 && |s[1].stops| >= 2;
  }

  /** Sorting two tuples already in time order keeps them. */
  lemma {:induction false} SortedPair(x: EventTuple, y: EventTuple)
    requires x.time <= y.time
    ensures OrderByTime([x, y]) == [x, y]
  {
    assert [x, y][1..] == [y] && [y][1..] == [];
    assert SortBy([y], TimeOf) == [y];
  }

  lemma {:induction false} SameDepartureLists()
    ensures RetiroList(SameDeparture(), Rs, CostMin) == [Departure, Departure]
    ensures TigreList(SameDeparture(), Rs, CostMin) == [Arrival10, Arrival20]
  {
    SameDepartureTuples();
    SameDepartureSides();
    SortedPair(Departure, Departure);
    SortedPair(Arrival10, Arrival20);
  }

  lemma {:induction false} SameDepartureDemand()
    ensures SumBy(Dedup([Departure, Departure, Arrival10, Arrival20]), NodeDemand) == -1
  {
    var l := [Departure, Departure, Arrival10, Arrival20];
    assert l[..3] == [Departure, Departure, Arrival10];
    assert l[..3][..2] == [Departure, Departure];
    assert l[..3][..2][..1] == [Departure];
    assert l[..3][..2][..1][..0] == [];
    assert Dedup([Departure]) == [Departure];
    assert Dedup([Departure, Departure]) == [Departure];
    assert Dedup([Departure, Departure, Arrival10]) == [Departure, Arrival10];
    assert Dedup(l) == [Departure, Arrival10, Arrival20];
    var d := [Departure, Arrival10, Arrival20];
    assert d[1..] == [Arrival10, Arrival20] && d[1..][1..] == [Arrival20] && d[1..][1..][1..] == [];
    assert NodeDemand(Departure) == 1 && NodeDemand(Arrival10) == -1 && NodeDemand(Arrival20) == -1;
    assert SumBy([Arrival20], NodeDemand) == -1;
    assert SumBy([Arrival10, Arrival20], NodeDemand) == -2;
  }

  /**
    The cost-min network of that timetable builds, yet its demands add up to
    -1: the shared departure node keeps +1 unit while both arrivals ask for -1.
   */
  lemma {:induction false} MergedDepartureUnbalanced()
    ensures PruebaGraph(SameDeparture(), Rs, CostMin).Ok?
    ensures TotalDemand(PruebaGraph(SameDeparture(), Rs, CostMin).value) == -1
  {
    SameDepartureLists();
    SameDepartureTrips();
    var g := PruebaGraph(SameDeparture(), Rs, CostMin).value;
    PruebaTotalDemand(SameDeparture(), Rs, CostMin, g);
    assert [Departure, Departure] + [Arrival10, Arrival20] == [Departure, Departure, Arrival10, Arrival20];
    SameDepartureDemand();
  }
}
