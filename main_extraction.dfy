/**
  The read-back at the end of src/main.py: for every service, the stations
  its route passes through ("recorrido") and the station where it stays
  overnight ("trasnoche"), both read from the solver's flow dictionary and
  the node stations of the network.
 */
module MainExtraction {

  import opened Wrappers
  import opened Timetable
  import opened Sequences
  import opened DiGraph

  /** The solver's flow dictionary: each tail node, in order, with its heads and the flow on each edge. */
  type FlowMap = seq<(string, seq<(string, int)>)>

  /** `G.nodes[n]['station']` on a node the graph lacks, or one without a station: a KeyError. */
  datatype ExtractError = UnknownNode(node: string)

  /**
    Which tail nodes the route loop takes as a service's: as written, every
    name starting with the service id; as intended, the service's own two
    nodes.
   */
  datatype Selector = Prefix(id: string) | Own(id: string)

  /** `s.startswith(prefix)`. */
  predicate StartsWith(s: string, prefix: string)
  {
    |prefix| <= |s| && s[..|prefix|] == prefix
  }

  predicate Selects(sel: Selector, u: string)
  {
    match sel
    case Prefix(id) => StartsWith(u, id)
    case Own(id) => u == id + "_D" || u == id + "_A"
  }

  /** `G.nodes[n]['station']`, or nothing where it raises. */
  function StationOf(g: Graph<string>, n: string): Option<Value>
  {
    if n in g.nodes && Station in g.nodes[n] then Some(g.nodes[n][Station]) else None
  }

  // ---------------------------------------------------------------------------
  // The route

  /** The nodes whose stations the route loop reads for tail `u`: the tail, then the head, of each positive-flow edge. */
  function EdgeReads(u: string, dests: seq<(string, int)>): seq<string>
  {
    if dests == [] then []
    else EdgeReads(u, dests[..|dests| - 1]) + (if dests[|dests| - 1].1 > 0 then [u, dests[|dests| - 1].0] else [])
  }

  /** The nodes whose stations the route loop reads, in order. */
  function RouteReads(flow: FlowMap, sel: Selector): seq<string>
  {
    if flow == [] then []
    else
      var u := flow[|flow| - 1].0;
      RouteReads(flow[..|flow| - 1], sel) + (if Selects(sel, u) then EdgeReads(u, flow[|flow| - 1].1) else [])
  }

  /** Edge `j` of tail `i` carries flow and its tail is selected. */
  predicate Carries(flow: FlowMap, sel: Selector, i: int, j: int)
  {
    0 <= i < |flow| && 0 <= j < |flow[i].1| && Selects(sel, flow[i].0) && flow[i].1[j].1 > 0
  }

  /**
    `recorrido`, starting from `rec`, after reading the stations of `names`
    in order: a station not yet listed is appended; a node without a
    station raises.
   */
  function CollectFrom(g: Graph<string>, rec: seq<Value>, names: seq<string>): Result<seq<Value>, ExtractError>
  {
    if names == [] then Ok(rec)
    else
      match CollectFrom(g, rec, names[..|names| - 1])
      case Err(e) => Err(e)
      case Ok(r) =>
        var n := names[|names| - 1];
        match StationOf(g, n)
        case None => Err(UnknownNode(n))
        case Some(st) => Ok(if st in r then r else r + [st])
  }

  /** `recorrido` after reading the stations of `names` from the empty list. */
  function Collect(g: Graph<string>, names: seq<string>): Result<seq<Value>, ExtractError>
  {
    CollectFrom(g, [], names)
  }

  /** Every node has a station. */
  predicate AllStations(g: Graph<string>, names: seq<string>)
  {
    forall n :: n in names ==> StationOf(g, n).Some?
  }

  /** The stations of `names`, in order. */
  function Stations(g: Graph<string>, names: seq<string>): seq<Value>
    requires AllStations(g, names)
  {
    if names == [] then []
    else
      var p := names[..|names| - 1];
      assert forall n :: n in p ==> n in names;
      Stations(g, p) + [StationOf(g, names[|names| - 1]).value]
  }

  /** The route of the tails `sel` picks. */
  function RouteOf(g: Graph<string>, sel: Selector, flow: FlowMap): Result<seq<Value>, ExtractError>
  {
    Collect(g, RouteReads(flow, sel))
  }

  lemma {:induction false} ReadsSplit(names: seq<string>)
    requires names != []
    ensures forall n :: n in names <==> n in names[..|names| - 1] || n == names[|names| - 1]
  {
    assert names == names[..|names| - 1] + [names[|names| - 1]];
  }

  /** The route loop succeeds exactly when every node it reads has a station, and then lists each station once, in first-read order. */
  lemma {:induction false} CollectOk(g: Graph<string>, names: seq<string>)
    ensures Collect(g, names).Ok? <==> AllStations(g, names)
    ensures AllStations(g, names) ==> Collect(g, names) == Ok(Dedup(Stations(g, names)))
  {
    if names != [] {
      var p := names[..|names| - 1];
      CollectOk(g, p);
      ReadsSplit(names);
      if AllStations(g, names) {
        assert Stations(g, names) == Stations(g, p) + [StationOf(g, names[|names| - 1]).value];
        assert Stations(g, names)[..|Stations(g, names)| - 1] == Stations(g, p);
      }
    }
  }

  /** A station is in `Stations` exactly when some read node has it. */
  lemma {:induction false} StationsMembers(g: Graph<string>, names: seq<string>, st: Value)
    requires AllStations(g, names)
    ensures st in Stations(g, names) <==> exists n :: n in names && StationOf(g, n) == Some(st)
  {
    if names != [] {
      var p := names[..|names| - 1];
      assert forall n :: n in p ==> n in names;
      StationsMembers(g, p, st);
      ReadsSplit(names);
    }
  }

  /** A failed route names the first node read without a station. */
  lemma {:induction false} CollectErr(g: Graph<string>, names: seq<string>)
    requires Collect(g, names).Err?
    ensures exists i ::
      && 0 <= i < |names| && StationOf(g, names[i]).None? && AllStations(g, names[..i])
      && Collect(g, names).error == UnknownNode(names[i])
  {
    var n := |names| - 1;
    var p := names[..n];
    if Collect(g, p).Err? {
      CollectErr(g, p);
      var i :| 0 <= i < |p| && StationOf(g, p[i]).None? && AllStations(g, p[..i]) && Collect(g, p).error == UnknownNode(p[i]);
      assert p[..i] == names[..i];
    } else {
      CollectOk(g, p);
      assert names[..n] == p;
    }
  }

  /** Once a read fails, later reads change nothing: the exception ends the loop. */
  lemma {:induction false} CollectErrSticks(g: Graph<string>, rec: seq<Value>, s: seq<string>, t: seq<string>)
    requires s <= t && CollectFrom(g, rec, s).Err?
    ensures CollectFrom(g, rec, t) == CollectFrom(g, rec, s)
    decreases |t|
  {
    if |t| > |s| {
      var p := t[..|t| - 1];
      assert s <= p;
      CollectErrSticks(g, rec, s, p);
    } else {
      assert s == t;
    }
  }

  /** Reading `a` then `b` is reading `b` from where `a` left off. */
  lemma {:induction false} CollectAppend(g: Graph<string>, rec: seq<Value>, a: seq<string>, b: seq<string>)
    requires CollectFrom(g, rec, a).Ok?
    ensures CollectFrom(g, rec, a + b) == CollectFrom(g, CollectFrom(g, rec, a).value, b)
    decreases |b|
  {
    if b == [] {
      assert a + b == a;
    } else {
      var p := b[..|b| - 1];
      CollectAppend(g, rec, a, p);
      assert (a + b)[..|a + b| - 1] == a + p;
    }
  }

  lemma {:induction false} EdgeReadsMembers(u: string, dests: seq<(string, int)>, n: string)
    ensures n in EdgeReads(u, dests) <==> exists j :: 0 <= j < |dests| && dests[j].1 > 0 && (n == u || n == dests[j].0)
  {
    if dests != [] {
      var p := dests[..|dests| - 1];
      EdgeReadsMembers(u, p, n);
      assert forall j :: 0 <= j < |p| ==> p[j] == dests[j];
    }
  }

  /** The route loop reads exactly the two ends of every positive-flow edge from a selected tail. */
  lemma {:induction false} RouteReadsMembers(flow: FlowMap, sel: Selector, n: string)
    ensures n in RouteReads(flow, sel) <==> exists i, j :: Carries(flow, sel, i, j) && (n == flow[i].0 || n == flow[i].1[j].0)
  {
    if flow != [] {
      var k := |flow| - 1;
      var p := flow[..k];
      RouteReadsMembers(p, sel, n);
      EdgeReadsMembers(flow[k].0, flow[k].1, n);
      assert forall i, j :: Carries(p, sel, i, j) <==> i < k && Carries(flow, sel, i, j);
    }
  }

  /**
    The route lists no station twice, and lists exactly the stations at
    either end of a positive-flow edge from a selected tail; it fails exactly
    when one of those ends has no station.
   */
  lemma {:induction false} RouteStations(g: Graph<string>, sel: Selector, flow: FlowMap)
    ensures RouteOf(g, sel, flow).Ok? <==> forall i, j :: Carries(flow, sel, i, j) ==>
      StationOf(g, flow[i].0).Some? && StationOf(g, flow[i].1[j].0).Some?
    ensures RouteOf(g, sel, flow).Ok? ==> Distinct(RouteOf(g, sel, flow).value)
    ensures RouteOf(g, sel, flow).Ok? ==> forall st :: st in RouteOf(g, sel, flow).value <==>
      exists i, j :: Carries(flow, sel, i, j) && (StationOf(g, flow[i].0) == Some(st) || StationOf(g, flow[i].1[j].0) == Some(st))
  {
    var names := RouteReads(flow, sel);
    CollectOk(g, names);
    forall n
      ensures n in names <==> exists i, j :: Carries(flow, sel, i, j) && (n == flow[i].0 || n == flow[i].1[j].0)
    {
      RouteReadsMembers(flow, sel, n);
    }
    if AllStations(g, names) {
      DedupFacts(Stations(g, names));
      forall st
        ensures st in Stations(g, names) <==> exists n :: n in names && StationOf(g, n) == Some(st)
      {
        StationsMembers(g, names, st);
      }
    }
  }

  lemma {:induction false} EdgeReadsStep(u: string, dests: seq<(string, int)>, j: nat)
    requires j < |dests|
    ensures EdgeReads(u, dests[..j + 1]) == EdgeReads(u, dests[..j]) + (if dests[j].1 > 0 then [u, dests[j].0] else [])
  {
    assert dests[..j + 1][..j] == dests[..j];
  }

  lemma {:induction false} EdgeReadsPrefix(u: string, dests: seq<(string, int)>, j: nat)
    requires j <= |dests|
    ensures EdgeReads(u, dests[..j]) <= EdgeReads(u, dests)
    decreases |dests|
  {
    if j < |dests| {
      var p := dests[..|dests| - 1];
      assert dests[..j] == p[..j];
      EdgeReadsPrefix(u, p, j);
    } else {
      assert dests[..j] == dests;
    }
  }

  lemma {:induction false} RouteReadsStep(flow: FlowMap, sel: Selector, i: nat)
    requires i < |flow|
    ensures RouteReads(flow[..i + 1], sel) == RouteReads(flow[..i], sel) + (if Selects(sel, flow[i].0) then EdgeReads(flow[i].0, flow[i].1) else [])
  {
    assert flow[..i + 1][..i] == flow[..i];
  }

  lemma {:induction false} RouteReadsPrefix(flow: FlowMap, sel: Selector, i: nat)
    requires i <= |flow|
    ensures RouteReads(flow[..i], sel) <= RouteReads(flow, sel)
    decreases |flow|
  {
    if i < |flow| {
      var p := flow[..|flow| - 1];
      assert flow[..i] == p[..i];
      RouteReadsPrefix(p, sel, i);
    } else {
      assert flow[..i] == flow;
    }
  }

  /** The inner loop over the heads of tail `u`, continuing the route `rec`. */
  method ScanTail(g: Graph<string>, u: string, destinations: seq<(string, int)>, rec: seq<Value>) returns (r: Result<seq<Value>, ExtractError>)
    ensures r == CollectFrom(g, rec, EdgeReads(u, destinations))
  {
    var recorrido := rec;
    var j := 0;
    while j < |destinations|
      invariant 0 <= j <= |destinations|
      invariant CollectFrom(g, rec, EdgeReads(u, destinations[..j])) == Ok(recorrido)
    {
      var v, flujo := destinations[j].0, destinations[j].1;
      ghost var before := EdgeReads(u, destinations[..j]);
      EdgeReadsStep(u, destinations, j);
      EdgeReadsPrefix(u, destinations, j + 1);
      if flujo > 0 {
        CollectAppend(g, rec, before, [u]);
        CollectAppend(g, rec, before, [u, v]);
        ghost var r0 := recorrido;
        assert [u][..0] == [] && [u, v][..1] == [u];
        var su := StationOf(g, u);
        if su.None? {
          assert CollectFrom(g, r0, [u]) == Err(UnknownNode(u));
          CollectErrSticks(g, rec, before + [u], EdgeReads(u, destinations));
          return Err(UnknownNode(u));
        }
        if su.value !in recorrido {
          recorrido := recorrido + [su.value];
        }
        assert CollectFrom(g, r0, [u]) == Ok(recorrido);
        var sv := StationOf(g, v);
        if sv.None? {
          assert CollectFrom(g, r0, [u, v]) == Err(UnknownNode(v));
          CollectErrSticks(g, rec, before + [u, v], EdgeReads(u, destinations));
          return Err(UnknownNode(v));
        }
        if sv.value !in recorrido {
          recorrido := recorrido + [sv.value];
        }
        assert CollectFrom(g, r0, [u, v]) == Ok(recorrido);
      } else {
        assert before + [] == before;
      }
      j := j + 1;
    }
    assert destinations[..j] == destinations;
    r := Ok(recorrido);
  }

  /** The route loop of src/main.py for one service. */
  method Route(g: Graph<string>, sel: Selector, flow: FlowMap) returns (r: Result<seq<Value>, ExtractError>)
    ensures r == RouteOf(g, sel, flow)
  {
    var recorrido: seq<Value> := [];
    var i := 0;
    while i < |flow|
      invariant 0 <= i <= |flow|
      invariant Collect(g, RouteReads(flow[..i], sel)) == Ok(recorrido)
    {
      var u, destinations := flow[i].0, flow[i].1;
      RouteReadsStep(flow, sel, i);
      if Selects(sel, u) {
        var res := ScanTail(g, u, destinations, recorrido);
        CollectAppend(g, [], RouteReads(flow[..i], sel), EdgeReads(u, destinations));
        if res.Err? {
          RouteReadsPrefix(flow, sel, i + 1);
          CollectErrSticks(g, [], RouteReads(flow[..i + 1], sel), RouteReads(flow, sel));
          return res;
        }
        recorrido := res.value;
        assert Collect(g, RouteReads(flow[..i + 1], sel)) == Ok(recorrido);
      } else {
        assert RouteReads(flow[..i], sel) + [] == RouteReads(flow[..i], sel);
      }
      i := i + 1;
    }
    assert flow[..i] == flow;
    r := Ok(recorrido);
  }

  // ---------------------------------------------------------------------------
  // The overnight station

  /** Edge `j` of tail `u` carries flow and joins the service's own nodes `d` and `a`, in either direction. */
  predicate OwnEdge(u: string, dests: seq<(string, int)>, d: string, a: string, j: int)
  {
    0 <= j < |dests| && dests[j].1 > 0 && ((u == a && dests[j].0 == d) || (u == d && dests[j].0 == a))
  }

  /** The head of the first own edge of tail `u`: the inner loop stops there (`break`). */
  function FirstOwnHead(u: string, dests: seq<(string, int)>, d: string, a: string): Option<string>
  {
    if dests == [] then None
    else if OwnEdge(u, dests, d, a, 0) then Some(dests[0].0)
    else FirstOwnHead(u, dests[1..], d, a)
  }

  /**
    `trasnoche_station` after the scan of `flow` for the service with nodes
    `d` and `a`: each tail with an own edge overwrites it with the station of
    that edge's head.
   */
  function NightOf(g: Graph<string>, flow: FlowMap, d: string, a: string): Result<Option<Value>, ExtractError>
  {
    if flow == [] then Ok(None)
    else
      match NightOf(g, flow[..|flow| - 1], d, a)
      case Err(e) => Err(e)
      case Ok(night) =>
        match FirstOwnHead(flow[|flow| - 1].0, flow[|flow| - 1].1, d, a)
        case None => Ok(night)
        case Some(v) =>
          match StationOf(g, v)
          case None => Err(UnknownNode(v))
          case Some(st) => Ok(Some(st))
  }

  /** The inner loop finds an edge exactly when there is an own edge, and then the first one. */
  lemma {:induction false} FirstOwnHeadFacts(u: string, dests: seq<(string, int)>, d: string, a: string)
    ensures FirstOwnHead(u, dests, d, a).None? <==> forall j :: 0 <= j < |dests| ==> !OwnEdge(u, dests, d, a, j)
    ensures FirstOwnHead(u, dests, d, a).Some? ==> exists j ::
      && OwnEdge(u, dests, d, a, j) && FirstOwnHead(u, dests, d, a).value == dests[j].0
      && forall k :: 0 <= k < j ==> !OwnEdge(u, dests, d, a, k)
  {
    if dests != [] && !OwnEdge(u, dests, d, a, 0) {
      var t := dests[1..];
      FirstOwnHeadFacts(u, t, d, a);
      assert forall j :: 0 <= j < |t| ==> (OwnEdge(u, t, d, a, j) <==> OwnEdge(u, dests, d, a, j + 1));
      if FirstOwnHead(u, t, d, a).Some? {
        var j :| OwnEdge(u, t, d, a, j) && FirstOwnHead(u, t, d, a).value == t[j].0 && forall k :: 0 <= k < j ==> !OwnEdge(u, t, d, a, k);
        assert OwnEdge(u, dests, d, a, j + 1);
        forall k | 0 <= k < j + 1
          ensures !OwnEdge(u, dests, d, a, k)
        {
          if k > 0 {
            assert !OwnEdge(u, t, d, a, k - 1);
          }
        }
      } else {
        forall j | 0 <= j < |dests|
          ensures !OwnEdge(u, dests, d, a, j)
        {
          if j > 0 {
            assert !OwnEdge(u, t, d, a, j - 1);
          }
        }
      }
    }
  }

  lemma {:induction false} NightStep(g: Graph<string>, flow: FlowMap, d: string, a: string, i: nat)
    requires i < |flow|
    ensures NightOf(g, flow[..i + 1], d, a) ==
      match NightOf(g, flow[..i], d, a)
      case Err(e) => Err(e)
      case Ok(night) =>
        match FirstOwnHead(flow[i].0, flow[i].1, d, a)
        case None => Ok(night)
        case Some(v) => (match StationOf(g, v) case None => Err(UnknownNode(v)) case Some(st) => Ok(Some(st)))
  {
    assert flow[..i + 1][..i] == flow[..i];
  }

  /** Once a station lookup fails, the later tails change nothing. */
  lemma {:induction false} NightErrSticks(g: Graph<string>, flow: FlowMap, d: string, a: string, i: nat)
    requires i <= |flow| && NightOf(g, flow[..i], d, a).Err?
    ensures NightOf(g, flow, d, a) == NightOf(g, flow[..i], d, a)
    decreases |flow| - i
  {
    if i < |flow| {
      NightStep(g, flow, d, a, i);
      NightErrSticks(g, flow, d, a, i + 1);
    } else {
      assert flow[..i] == flow;
    }
  }

  /** Tails without own edges leave the overnight station as it was. */
  lemma {:induction false} NightQuietTail(g: Graph<string>, flow: FlowMap, d: string, a: string, i: nat)
    requires i <= |flow|
    requires forall k :: i <= k < |flow| ==> FirstOwnHead(flow[k].0, flow[k].1, d, a).None?
    ensures NightOf(g, flow, d, a) == NightOf(g, flow[..i], d, a)
    decreases |flow| - i
  {
    if i < |flow| {
      NightStep(g, flow, d, a, i);
      NightQuietTail(g, flow, d, a, i + 1);
    } else {
      assert flow[..i] == flow;
    }
  }

  /**
    No overnight station is reported exactly when no positive-flow edge joins
    the service's own two nodes.
   */
  lemma {:induction false} NightNone(g: Graph<string>, flow: FlowMap, d: string, a: string)
    ensures NightOf(g, flow, d, a) == Ok(None) <==>
      forall i, j :: 0 <= i < |flow| ==> !OwnEdge(flow[i].0, flow[i].1, d, a, j)
  {
    if flow != [] {
      var n := |flow| - 1;
      var p := flow[..n];
      NightNone(g, p, d, a);
      FirstOwnHeadFacts(flow[n].0, flow[n].1, d, a);
      assert forall i :: 0 <= i < n ==> p[i] == flow[i];
      if NightOf(g, p, d, a).Err? {
        NightErrSticks(g, flow, d, a, n);
      }
      if FirstOwnHead(flow[n].0, flow[n].1, d, a).Some? {
        var j :| OwnEdge(flow[n].0, flow[n].1, d, a, j);
      }
    }
  }

  /**
    A reported overnight station is the station of the head of a
    positive-flow edge joining the service's own two nodes.
   */
  lemma {:induction false} NightSome(g: Graph<string>, flow: FlowMap, d: string, a: string)
    requires NightOf(g, flow, d, a).Ok? && NightOf(g, flow, d, a).value.Some?
    ensures exists i, j ::
      && 0 <= i < |flow| && OwnEdge(flow[i].0, flow[i].1, d, a, j)
      && StationOf(g, flow[i].1[j].0) == NightOf(g, flow, d, a).value
  {
    var n := |flow| - 1;
    var p := flow[..n];
    FirstOwnHeadFacts(flow[n].0, flow[n].1, d, a);
    if FirstOwnHead(flow[n].0, flow[n].1, d, a).None? {
      NightSome(g, p, d, a);
      var i, j :| 0 <= i < |p| && OwnEdge(p[i].0, p[i].1, d, a, j) && StationOf(g, p[i].1[j].0) == NightOf(g, p, d, a).value;
      assert p[i] == flow[i];
    }
  }

  /** The last tail with an own edge decides: a later match overwrites an earlier one. */
  lemma {:induction false} NightLastWins(g: Graph<string>, flow: FlowMap, d: string, a: string, i: nat)
    requires i < |flow| && FirstOwnHead(flow[i].0, flow[i].1, d, a).Some?
    requires forall k :: i < k < |flow| ==> FirstOwnHead(flow[k].0, flow[k].1, d, a).None?
    requires NightOf(g, flow, d, a).Ok?
    ensures NightOf(g, flow, d, a).value == StationOf(g, FirstOwnHead(flow[i].0, flow[i].1, d, a).value)
  {
    NightQuietTail(g, flow, d, a, i + 1);
    NightStep(g, flow, d, a, i);
  }

  /** The overnight loop of src/main.py for the service `id`. */
  method Overnight(g: Graph<string>, id: string, flow: FlowMap) returns (r: Result<Option<Value>, ExtractError>)
    ensures r == NightOf(g, flow, id + "_D", id + "_A")
  {
    var departure, arrival := id + "_D", id + "_A";
    var trasnoche: Option<Value> := None;
    var i := 0;
    while i < |flow|
      invariant 0 <= i <= |flow|
      invariant NightOf(g, flow[..i], departure, arrival) == Ok(trasnoche)
    {
      var u, destinations := flow[i].0, flow[i].1;
      NightStep(g, flow, departure, arrival, i);
      ghost var before := trasnoche;
      var j := 0;
      while j < |destinations|
        invariant 0 <= j <= |destinations|
        invariant trasnoche == before
        invariant FirstOwnHead(u, destinations[j..], departure, arrival) == FirstOwnHead(u, destinations, departure, arrival)
      {
        var v, flujo := destinations[j].0, destinations[j].1;
        if flujo > 0 && ((u == arrival && v == departure) || (u == departure && v == arrival)) {
          assert OwnEdge(u, destinations[j..], departure, arrival, 0);
          var sv := StationOf(g, v);
          if sv.None? {
            NightErrSticks(g, flow, departure, arrival, i + 1);
            return Err(UnknownNode(v));
          }
          trasnoche := Some(sv.value);
          break;
        }
        assert !OwnEdge(u, destinations[j..], departure, arrival, 0);
        assert destinations[j..][1..] == destinations[j + 1..];
        j := j + 1;
      }
      i := i + 1;
    }
    assert flow[..i] == flow;
    r := Ok(trasnoche);
  }

  // ---------------------------------------------------------------------------
  // Every service

  /** What the read-back finds for one service: its route and its overnight station. */
  datatype Report = Report(route: seq<Value>, night: Option<Value>)

  /**
    How the route loop decides that a tail is a service's: as written, by
    `u.startswith(service_id)`; as intended, by being one of its two nodes.
   */
  datatype TailTest = StartsWithId | OwnNodes

  function SelectorFor(test: TailTest, id: string): Selector
  {
    match test
    case StartsWithId => Prefix(id)
    case OwnNodes => Own(id)
  }

  /** The route of service `id` over the tails `test` picks, then its overnight station. */
  function ReportOf(g: Graph<string>, test: TailTest, id: string, flow: FlowMap): Result<Report, ExtractError>
  {
    match RouteOf(g, SelectorFor(test, id), flow)
    case Err(e) => Err(e)
    case Ok(route) =>
      match NightOf(g, flow, id + "_D", id + "_A")
      case Err(e) => Err(e)
      case Ok(night) => Ok(Report(route, night))
  }

  /** The read-back of each service, in order. */
  function Outcomes(g: Graph<string>, test: TailTest, services: seq<Service>, flow: FlowMap): (r: seq<Result<Report, ExtractError>>)
    ensures |r| == |services|
  {
    seq(|services|, k requires 0 <= k < |services| => ReportOf(g, test, services[k].id, flow))
  }

  /** Steps that may each raise, run in order: their values, or the error of the first that raises. */
  function AllOk<T>(results: seq<Result<T, ExtractError>>): Result<seq<T>, ExtractError>
  {
    if results == [] then Ok([])
    else
      match AllOk(results[..|results| - 1])
      case Err(e) => Err(e)
      case Ok(values) =>
        match results[|results| - 1]
        case Err(e) => Err(e)
        case Ok(v) => Ok(values + [v])
  }

  /**
    The loop over every service, stopped by the first lookup that raises;
    `ReportsOf(g, StartsWithId, services, flow)` is src/main.py as written.
   */
  function ReportsOf(g: Graph<string>, test: TailTest, services: seq<Service>, flow: FlowMap): Result<seq<Report>, ExtractError>
  {
    AllOk(Outcomes(g, test, services, flow))
  }

  /** The steps all succeed exactly when each does, and then their values are gathered in order. */
  lemma {:induction false} AllOkFacts<T>(results: seq<Result<T, ExtractError>>)
    ensures AllOk(results).Ok? <==> forall k :: 0 <= k < |results| ==> results[k].Ok?
    ensures AllOk(results).Ok? ==>
      && |AllOk(results).value| == |results|
      && forall k :: 0 <= k < |results| ==> results[k] == Ok(AllOk(results).value[k])
  {
    if results != [] {
      var n := |results| - 1;
      var p := results[..n];
      AllOkFacts(p);
      assert forall k :: 0 <= k < n ==> p[k] == results[k];
      if AllOk(results).Ok? {
        assert AllOk(results).value == AllOk(p).value + [results[n].value];
      }
    }
  }

  lemma {:induction false} AllOkStep<T>(results: seq<Result<T, ExtractError>>, k: nat)
    requires k < |results|
    ensures AllOk(results[..k + 1]) ==
      match AllOk(results[..k])
      case Err(e) => Err(e)
      case Ok(values) => (match results[k] case Err(e) => Err(e) case Ok(v) => Ok(values + [v]))
  {
    assert results[..k + 1][..k] == results[..k];
  }

  /** Once a step raises, the later steps change nothing. */
  lemma {:induction false} AllOkErrSticks<T>(results: seq<Result<T, ExtractError>>, i: nat)
    requires i <= |results| && AllOk(results[..i]).Err?
    ensures AllOk(results) == AllOk(results[..i])
    decreases |results| - i
  {
    if i < |results| {
      AllOkStep(results, i);
      AllOkErrSticks(results, i + 1);
    } else {
      assert results[..i] == results;
    }
  }

  /** The loop succeeds exactly when every service's read-back does. */
  lemma {:induction false} ReportsOk(g: Graph<string>, test: TailTest, services: seq<Service>, flow: FlowMap)
    ensures ReportsOf(g, test, services, flow).Ok? <==> forall k :: 0 <= k < |services| ==> ReportOf(g, test, services[k].id, flow).Ok?
  {
    var outcomes := Outcomes(g, test, services, flow);
    AllOkFacts(outcomes);
    assert forall k :: 0 <= k < |services| ==> outcomes[k] == ReportOf(g, test, services[k].id, flow);
  }

  /** A successful loop reports every service, in order. */
  lemma {:induction false} ReportsInOrder(g: Graph<string>, test: TailTest, services: seq<Service>, flow: FlowMap)
    requires ReportsOf(g, test, services, flow).Ok?
    ensures |ReportsOf(g, test, services, flow).value| == |services|
    ensures forall k :: 0 <= k < |services| ==> ReportOf(g, test, services[k].id, flow) == Ok(ReportsOf(g, test, services, flow).value[k])
  {
    var outcomes := Outcomes(g, test, services, flow);
    AllOkFacts(outcomes);
    assert forall k :: 0 <= k < |services| ==> outcomes[k] == ReportOf(g, test, services[k].id, flow);
  }

  /** A service's read-back succeeds exactly when both scans do, and then holds the route and the overnight station. */
  lemma {:induction false} ReportParts(g: Graph<string>, test: TailTest, id: string, flow: FlowMap)
    ensures ReportOf(g, test, id, flow).Ok? <==>
      RouteOf(g, SelectorFor(test, id), flow).Ok? && NightOf(g, flow, id + "_D", id + "_A").Ok?
    ensures ReportOf(g, test, id, flow).Ok? ==>
      && ReportOf(g, test, id, flow).value.route == RouteOf(g, SelectorFor(test, id), flow).value
      && ReportOf(g, test, id, flow).value.night == NightOf(g, flow, id + "_D", id + "_A").value
  {
  }

  /**
    The read-back loop of src/main.py over every service; with
    `StartsWithId` it selects tails by `startswith`, as written.
   */
  method ExtractReports(g: Graph<string>, test: TailTest, services: seq<Service>, flow: FlowMap)
    returns (r: Result<seq<Report>, ExtractError>)
    ensures r == ReportsOf(g, test, services, flow)
  {
    ghost var outcomes := Outcomes(g, test, services, flow);
    var reports: seq<Report> := [];
    var k := 0;
    while k < |services|
      invariant 0 <= k <= |services|
      invariant AllOk(outcomes[..k]) == Ok(reports)
    {
      var id := services[k].id;
      AllOkStep(outcomes, k);
      assert outcomes[k] == ReportOf(g, test, id, flow);
      var recorrido := Route(g, SelectorFor(test, id), flow);
      if recorrido.Err? {
        AllOkErrSticks(outcomes, k + 1);
        return Err(recorrido.error);
      }
      var trasnoche := Overnight(g, id, flow);
      if trasnoche.Err? {
        AllOkErrSticks(outcomes, k + 1);
        return Err(trasnoche.error);
      }
      reports := reports + [Report(recorrido.value, trasnoche.value)];
      k := k + 1;
    }
    assert outcomes[..k] == outcomes;
    r := Ok(reports);
  }

  // ---------------------------------------------------------------------------
  // Which tails belong to a service

  /** Appending a tail the selector does not pick leaves the route as it was. */
  lemma {:induction false} RouteSkipsUnselected(g: Graph<string>, sel: Selector, flow: FlowMap, u: string, dests: seq<(string, int)>)
    requires !Selects(sel, u)
    ensures RouteOf(g, sel, flow + [(u, dests)]) == RouteOf(g, sel, flow)
  {
    var f := flow + [(u, dests)];
    assert f[..|f| - 1] == flow;
    assert RouteReads(f, sel) == RouteReads(flow, sel) + [];
    assert RouteReads(flow, sel) + [] == RouteReads(flow, sel);
  }

  /** Tail names of two different services never coincide. */
  lemma {:induction false} OwnNodesDiffer(id: string, other: string, u: string)
    requires id != other && (u == other + "_D" || u == other + "_A")
    ensures !Selects(Own(id), u)
  {
    SuffixCancels(id, other, "_D");
    SuffixCancels(id, other, "_A");
    assert (other + "_D")[|other| + 1] == 'D' && (id + "_A")[|id| + 1] == 'A';
    assert (other + "_A")[|other| + 1] == 'A' && (id + "_D")[|id| + 1] == 'D';
  }

  /**
    As written, `u.startswith(service_id)` also picks the nodes of service
    "10" for service "1": a positive edge of service "10" adds its stations
    to the route of service "1".
   */
  lemma PrefixRouteLeaks()
    ensures var g := Graph(["10_D", "10_A"], map["10_D" := map[Station := Text("Tigre")], "10_A" := map[Station := Text("Retiro")]], map[]);
      && RouteOf(g, Prefix("1"), []) == Ok([])
      && RouteOf(g, Prefix("1"), [("10_D", [("10_A", 1)])]) == Ok([Text("Tigre"), Text("Retiro")])
  {
    var g := Graph(["10_D", "10_A"], map["10_D" := map[Station := Text("Tigre")], "10_A" := map[Station := Text("Retiro")]], map[]);
    var flow: FlowMap := [("10_D", [("10_A", 1)])];
    assert "10_D"[..1] == "1";
    assert flow[..0] == [];
    assert EdgeReads("10_D", [("10_A", 1)]) == ["10_D", "10_A"] by {
      assert [("10_A", 1)][..0] == [];
    }
    assert RouteReads(flow, Prefix("1")) == ["10_D", "10_A"];
    assert ["10_D", "10_A"][..1] == ["10_D"];
    assert ["10_D"][..0] == [];
    assert StationOf(g, "10_D") == Some(Text("Tigre")) && StationOf(g, "10_A") == Some(Text("Retiro"));
    var none: seq<Value> := [];
    assert CollectFrom(g, none, []) == Ok(none);
    assert Text("Tigre") !in none && none + [Text("Tigre")] == [Text("Tigre")];
    assert CollectFrom(g, none, ["10_D"]) == Ok([Text("Tigre")]);
    assert Text("Retiro") !in [Text("Tigre")] && [Text("Tigre")] + [Text("Retiro")] == [Text("Tigre"), Text("Retiro")];
    assert CollectFrom(g, none, ["10_D", "10_A"]) == Ok([Text("Tigre"), Text("Retiro")]);
  }

  /**
    Selecting only the service's own two nodes, the route of one service is
    unaffected by any edge leaving another service's nodes.
   */
  lemma {:induction false} OwnRouteIgnoresOthers(g: Graph<string>, id: string, other: string, flow: FlowMap, u: string, dests: seq<(string, int)>)
    requires id != other && (u == other + "_D" || u == other + "_A")
    ensures RouteOf(g, Own(id), flow + [(u, dests)]) == RouteOf(g, Own(id), flow)
  {
    OwnNodesDiffer(id, other, u);
    RouteSkipsUnselected(g, Own(id), flow, u, dests);
  }

  /**
    The same flow seen by the whole read-back of service "1": as written its
    report lists the stations of service "10"; with its own nodes only, its
    route is empty. Neither finds an overnight station.
   */
  lemma {:induction false} PrefixReportLeaks()
    ensures var g := Graph(["10_D", "10_A"], map["10_D" := map[Station := Text("Tigre")], "10_A" := map[Station := Text("Retiro")]], map[]);
      var flow: FlowMap := [("10_D", [("10_A", 1)])];
      && ReportOf(g, StartsWithId, "1", flow) == Ok(Report([Text("Tigre"), Text("Retiro")], None))
      && ReportOf(g, OwnNodes, "1", flow) == Ok(Report([], None))
  {
    var g := Graph(["10_D", "10_A"], map["10_D" := map[Station := Text("Tigre")], "10_A" := map[Station := Text("Retiro")]], map[]);
    var flow: FlowMap := [("10_D", [("10_A", 1)])];
    PrefixRouteLeaks();
    assert "10_D" != "1_D" && "10_D" != "1_A";
    assert forall i, j :: 0 <= i < |flow| ==> !OwnEdge(flow[i].0, flow[i].1, "1_D", "1_A", j);
    NightNone(g, flow, "1_D", "1_A");
    assert NightOf(g, flow, "1" + "_D", "1" + "_A") == Ok(None) by {
      assert "1" + "_D" == "1_D" && "1" + "_A" == "1_A";
    }
    var none: FlowMap := [];
    assert none + [("10_D", [("10_A", 1)])] == flow;
    assert "10_D" != "1" + "_D" && "10_D" != "1" + "_A";
    RouteSkipsUnselected(g, Own("1"), none, "10_D", [("10_A", 1)]);
    assert RouteOf(g, Own("1"), none) == Ok([]);
    assert RouteOf(g, Prefix("1"), flow) == Ok([Text("Tigre"), Text("Retiro")]);
  }
}
