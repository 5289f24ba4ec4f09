/**
  The timetable as both scripts read it from their JSON instance: services with
  their stops and passenger demand, and the rolling-stock parameters "rs_info".
 */
module Timetable {

  import opened Wrappers

  /** One entry of a service's "stops" list; `kind` is its "type" field ("D" or "A"). */
  datatype Stop = Stop(station: string, time: int, kind: string)

  /**
    One entry of the "services" dictionary. `demand` is the first element of the
    service's "demand" list, the only one the scripts read.
   */
  datatype Service = Service(id: string, stops: seq<Stop>, demand: int)

  /**
    The ways building a network aborts in the scripts: an IndexError on a
    service with fewer than two stops or on an empty station list, a KeyError
    on a station missing from "stations" or from "cost_per_unit".
   */
  datatype BuildError =
    | MissingStop(service: string)
    | EmptyStationList(list: string)
    | UnknownStation(station: string)
    | UnknownCost(station: string)

  /** The "rs_info" record: passengers per unit and the most units a service may run with. */
  datatype RsInfo = RsInfo(capacity: int, maxRs: int)

  /** Services come from a dictionary, so no two share an identifier. */
  predicate DistinctIds(services: seq<Service>)
  {
    forall i, j :: 0 <= i < j < |services| ==> services[i].id != services[j].id
  }

  /** The identifier of the first service with fewer than two stops, if any. */
  function FirstShort(services: seq<Service>): (r: Option<string>)
    ensures r.None? <==> forall k :: 0 <= k < |services| ==> |services[k].stops| >= 2
  {
    if services == [] then None
    else
      var n := |services| - 1;
      var r := FirstShort(services[..n]);
      assert forall k :: 0 <= k < n ==> services[..n][k] == services[k];
      if r.Some? then r
      else if |services[n].stops| < 2 then Some(services[n].id)
      else None
  }

  /** When every service before `k` has two stops and `k` has fewer, `k` is the first short one. */
  lemma {:induction false} FirstShortAt(services: seq<Service>, k: nat)
    requires k < |services| && |services[k].stops| < 2
    requires forall j :: 0 <= j < k ==> |services[j].stops| >= 2
    ensures FirstShort(services) == Some(services[k].id)
  {
    var n := |services| - 1;
    if k < n {
      FirstShortAt(services[..n], k);
    } else {
      assert FirstShort(services[..n]).None? by {
        assert forall j :: 0 <= j < n ==> services[..n][j] == services[j];
      }
    }
  }

  /**
    A service as the timetable format intends it: a departure stop of type "D"
    followed by an arrival stop of another type.
   */
  predicate DepartureThenArrival(s: Service)
  {
    |s.stops| == 2 && s.stops[0].kind == "D" && s.stops[1].kind != "D"
  }

  /**
    `math.ceil(a / b)` for a positive divisor, on exact integers: the unique
    integer `r` with `(r - 1) * b < a <= r * b`.
   */
  function CeilDiv(a: int, b: int): (r: int)
    requires b > 0
    ensures (r - 1) * b < a <= r * b
  {
    var q := (-a) / b;
    assert -a == q * b + (-a) % b;
    -q
  }

  /** CeilDiv is the least integer not below the exact quotient a / b. */
  lemma {:induction false} CeilDivIsCeiling(a: int, b: int)
    requires b > 0
    ensures a as real / b as real <= CeilDiv(a, b) as real
    ensures (CeilDiv(a, b) - 1) as real < a as real / b as real
  {
    var r := CeilDiv(a, b);
    var br := b as real;
    assert a as real <= r as real * br;
    assert (r - 1) as real * br < a as real;
    assert a as real / br <= r as real by {
      assert (a as real / br) * br == a as real;
    }
    assert (r - 1) as real < a as real / br by {
      assert (a as real / br) * br == a as real;
    }
  }

  /** The units a service must run with: ceil(demand / capacity). */
  function RequiredUnits(s: Service, rs: RsInfo): (u: int)
    requires rs.capacity > 0
    ensures (u - 1) * rs.capacity < s.demand <= u * rs.capacity
  {
    CeilDiv(s.demand, rs.capacity)
  }
}
