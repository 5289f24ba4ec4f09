/**
  The transfer and overnight calls of src/main.py, run on any graph whose
  station lists are placed: every listed entry is a distinct node of the
  graph, at the station of its list. Each call then joins two nodes of one
  station, the last call on each consecutive pair of a list is its transfer
  edge, and the last call from a list's last entry to its first is its
  overnight edge.
 */
module MainLinks {

  import opened Wrappers
  import opened DiGraph
  import opened MainNetwork
  import opened MainSteps

  /** Node `n` of `g` has the station `st`. */
  ghost predicate NodeAt(g: Graph<string>, n: string, st: string)
  {
    n in g.nodes && Station in g.nodes[n] && g.nodes[n][Station] == Text(st)
  }

  /** Every list of a listed station holds distinct nodes of `g`, all at that station. */
  ghost predicate Placed(g: Graph<string>, keys: seq<string>, lists: map<string, seq<Entry>>)
  {
    forall k :: k in keys ==> k in lists && DistinctNodes(lists[k]) && forall e :: e in lists[k] ==> NodeAt(g, e.node, k)
  }

  /** `p` joins an entry of the non-empty list `l` to the next one, or its last entry to its first. */
  ghost predicate CyclePair(l: seq<Entry>, p: (string, string))
  {
    && l != []
    && ((exists i :: 0 <= i < |l| - 1 && p == (l[i].node, l[i + 1].node)) || p == (l[|l| - 1].node, l[0].node))
  }

  /** The transfer calls followed by the overnight calls. */
  function Links(keys: seq<string>, lists: map<string, seq<Entry>>, costs: map<string, Value>): seq<Op<string>>
    requires forall k :: k in keys ==> k in lists
    requires OvernightCalls(keys, lists, costs).Ok?
  {
    TransferCalls(keys, lists) + OvernightCalls(keys, lists, costs).value
  }

  /** A node of a placed list is at the list's station. */
  lemma {:induction false} PlacedNode(g: Graph<string>, keys: seq<string>, lists: map<string, seq<Entry>>, k: string, n: string)
    requires Placed(g, keys, lists) && k in keys && n in NodesOf(lists[k])
    ensures NodeAt(g, n, k)
  {
    var e :| e in lists[k] && e.node == n;
  }

  /** Every transfer or overnight call is an edge call between two nodes of one listed station. */
  lemma {:induction false} LinksWithinStations(keys: seq<string>, lists: map<string, seq<Entry>>, costs: map<string, Value>)
    requires forall k :: k in keys ==> k in lists
    requires OvernightCalls(keys, lists, costs).Ok?
    ensures forall j :: 0 <= j < |Links(keys, lists, costs)| ==>
      && Links(keys, lists, costs)[j].EdgeOp?
      && exists k :: k in keys && Links(keys, lists, costs)[j].u in NodesOf(lists[k]) && Links(keys, lists, costs)[j].v in NodesOf(lists[k])
  {
    var a: seq<Op<string>>, c: seq<Op<string>> := TransferCalls(keys, lists), OvernightCalls(keys, lists, costs).value;
    assert Links(keys, lists, costs) == a + c;
    TransferCallsShape(keys, lists);
    OvernightCallsShape(keys, lists, costs);
    forall j | 0 <= j < |a + c|
      ensures (a + c)[j].EdgeOp?
      ensures exists k :: k in keys && (a + c)[j].u in NodesOf(lists[k]) && (a + c)[j].v in NodesOf(lists[k])
    {
      if j < |a| {
        assert (a + c)[j] == a[j];
      } else {
        assert (a + c)[j] == c[j - |a|];
        var k :| k in keys && lists[k] != [] && k in costs && c[j - |a|] == OvernightOp(lists[k], costs[k]);
        var l := lists[k];
        assert l[|l| - 1] in l && l[0] in l;
      }
    }
  }

  /** The calls only join nodes the graph already has, so its nodes and their order stay. */
  lemma {:induction false} LinksKeepNodes(g: Graph<string>, keys: seq<string>, lists: map<string, seq<Entry>>, costs: map<string, Value>)
    requires Placed(g, keys, lists) && OvernightCalls(keys, lists, costs).Ok?
    ensures Run(g, Links(keys, lists, costs)).nodes == g.nodes && Run(g, Links(keys, lists, costs)).order == g.order
  {
    var ops := Links(keys, lists, costs);
    LinksWithinStations(keys, lists, costs);
    forall j | 0 <= j < |ops|
      ensures ops[j].EdgeOp? && ops[j].u in g.nodes && ops[j].v in g.nodes
    {
      var k :| k in keys && ops[j].u in NodesOf(lists[k]) && ops[j].v in NodesOf(lists[k]);
      PlacedNode(g, keys, lists, k, ops[j].u);
      PlacedNode(g, keys, lists, k, ops[j].v);
    }
    RunEdgesKeepNodes(g, ops);
  }

  /** A pair whose ends are at two different stations is neither added nor changed by the calls. */
  lemma {:induction false} LinksSpareCrossing(g: Graph<string>, keys: seq<string>, lists: map<string, seq<Entry>>, costs: map<string, Value>,
                                              p: (string, string), a: string, b: string)
    requires Placed(g, keys, lists) && OvernightCalls(keys, lists, costs).Ok?
    requires NodeAt(g, p.0, a) && NodeAt(g, p.1, b) && a != b
    ensures p in Run(g, Links(keys, lists, costs)).edges <==> p in g.edges
    ensures p in g.edges ==> Run(g, Links(keys, lists, costs)).edges[p] == g.edges[p]
  {
    var ops := Links(keys, lists, costs);
    LinksWithinStations(keys, lists, costs);
    forall j | 0 <= j < |ops| && ops[j].EdgeOp?
      ensures (ops[j].u, ops[j].v) != p
    {
      var k :| k in keys && ops[j].u in NodesOf(lists[k]) && ops[j].v in NodesOf(lists[k]);
      PlacedNode(g, keys, lists, k, ops[j].u);
      PlacedNode(g, keys, lists, k, ops[j].v);
    }
    RunUntouched(g, ops, p);
  }

  /** Every edge after the calls was there before, or joins two nodes of one listed station. */
  lemma {:induction false} LinksEdges(g: Graph<string>, keys: seq<string>, lists: map<string, seq<Entry>>, costs: map<string, Value>)
    requires forall k :: k in keys ==> k in lists
    requires OvernightCalls(keys, lists, costs).Ok?
    ensures forall p :: p in Run(g, Links(keys, lists, costs)).edges ==>
      p in g.edges || exists k :: k in keys && p.0 in NodesOf(lists[k]) && p.1 in NodesOf(lists[k])
  {
    var ops := Links(keys, lists, costs);
    RunEdgeKeys(g, ops);
    LinksWithinStations(keys, lists, costs);
    forall p | p in EdgePairs(ops)
      ensures exists k :: k in keys && p.0 in NodesOf(lists[k]) && p.1 in NodesOf(lists[k])
    {
      var j :| 0 <= j < |ops| && ops[j].EdgeOp? && p == (ops[j].u, ops[j].v);
    }
  }

  /** Every transfer call joins an entry of a listed station's list to the next one. */
  lemma {:induction false} TransferCallsPairs(keys: seq<string>, m: map<string, seq<Entry>>)
    requires forall k :: k in keys ==> k in m
    ensures forall j :: 0 <= j < |TransferCalls(keys, m)| ==>
      && TransferCalls(keys, m)[j].EdgeOp?
      && exists k :: k in keys && CyclePair(m[k], (TransferCalls(keys, m)[j].u, TransferCalls(keys, m)[j].v))
  {
    if keys != [] {
      var n := |keys| - 1;
      var p := keys[..n];
      TransferCallsPairs(p, m);
      var a: seq<Op<string>>, c: seq<Op<string>> := TransferCalls(p, m), ChainOps(m[keys[n]]);
      forall j | 0 <= j < |a + c|
        ensures (a + c)[j].EdgeOp?
        ensures exists k :: k in keys && CyclePair(m[k], ((a + c)[j].u, (a + c)[j].v))
      {
        if j < |a| {
          assert (a + c)[j] == a[j];
          var k :| k in p && CyclePair(m[k], (a[j].u, a[j].v));
          assert k in keys;
        } else {
          var i := j - |a|;
          assert (a + c)[j] == c[i];
          assert CyclePair(m[keys[n]], (c[i].u, c[i].v));
        }
      }
    }
  }

  /** Every edge after the calls was there before, or is a cycle pair of some listed station's list. */
  lemma {:induction false} LinksCyclePairs(g: Graph<string>, keys: seq<string>, lists: map<string, seq<Entry>>, costs: map<string, Value>)
    requires forall k :: k in keys ==> k in lists
    requires OvernightCalls(keys, lists, costs).Ok?
    ensures forall p :: p in Run(g, Links(keys, lists, costs)).edges ==>
      p in g.edges || exists k :: k in keys && CyclePair(lists[k], p)
  {
    var a: seq<Op<string>>, c: seq<Op<string>> := TransferCalls(keys, lists), OvernightCalls(keys, lists, costs).value;
    var ops := Links(keys, lists, costs);
    assert ops == a + c;
    RunEdgeKeys(g, ops);
    TransferCallsPairs(keys, lists);
    TransferCallsShape(keys, lists);
    OvernightCallsShape(keys, lists, costs);
    forall p | p in EdgePairs(ops)
      ensures exists k :: k in keys && CyclePair(lists[k], p)
    {
      var j :| 0 <= j < |ops| && ops[j].EdgeOp? && p == (ops[j].u, ops[j].v);
      if j < |a| {
        assert ops[j] == a[j];
      } else {
        assert ops[j] == c[j - |a|];
        var k :| k in keys && lists[k] != [] && k in costs && c[j - |a|] == OvernightOp(lists[k], costs[k]);
        assert CyclePair(lists[k], p);
      }
    }
  }

  /** Every edge after the calls was there before, or joins two nodes at one station. */
  lemma {:induction false} LinksEdgesAt(g: Graph<string>, keys: seq<string>, lists: map<string, seq<Entry>>, costs: map<string, Value>)
    requires Placed(g, keys, lists) && OvernightCalls(keys, lists, costs).Ok?
    ensures forall p :: p in Run(g, Links(keys, lists, costs)).edges ==> p in g.edges || exists st :: NodeAt(g, p.0, st) && NodeAt(g, p.1, st)
  {
    LinksEdges(g, keys, lists, costs);
    forall p | p in Run(g, Links(keys, lists, costs)).edges && p !in g.edges
      ensures exists st :: NodeAt(g, p.0, st) && NodeAt(g, p.1, st)
    {
      var st :| st in keys && p.0 in NodesOf(lists[st]) && p.1 in NodesOf(lists[st]);
      PlacedNode(g, keys, lists, st, p.0);
      PlacedNode(g, keys, lists, st, p.1);
    }
  }

  /** The only overnight call leaving the last entry of a listed station's list is that station's own. */
  lemma {:induction false} OvernightCallsFrom(g: Graph<string>, keys: seq<string>, lists: map<string, seq<Entry>>, costs: map<string, Value>,
                                              st: string, i: nat)
    requires Placed(g, keys, lists) && OvernightCalls(keys, lists, costs).Ok?
    requires st in keys && i < |lists[st]|
    ensures forall q ::
      (0 <= q < |OvernightCalls(keys, lists, costs).value| && OvernightCalls(keys, lists, costs).value[q].EdgeOp? &&
       OvernightCalls(keys, lists, costs).value[q].u == lists[st][i].node) ==>
      && i == |lists[st]| - 1 && st in costs
      && OvernightCalls(keys, lists, costs).value[q] == OvernightOp(lists[st], costs[st])
  {
    var l, c := lists[st], OvernightCalls(keys, lists, costs).value;
    OvernightCallsShape(keys, lists, costs);
    assert l[i] in l;
    PlacedNode(g, keys, lists, st, l[i].node);
    forall q | 0 <= q < |c| && c[q].EdgeOp? && c[q].u == l[i].node
      ensures i == |l| - 1 && st in costs && c[q] == OvernightOp(l, costs[st])
    {
      var k :| k in keys && lists[k] != [] && k in costs && c[q] == OvernightOp(lists[k], costs[k]);
      var last := lists[k][|lists[k]| - 1];
      assert last in lists[k];
      PlacedNode(g, keys, lists, k, last.node);
    }
  }

  /** Consecutive entries of a listed station's list end joined by an edge with the transfer attributes. */
  lemma {:induction false} TransferEdge(g: Graph<string>, keys: seq<string>, lists: map<string, seq<Entry>>, costs: map<string, Value>,
                                        st: string, i: nat)
    requires Placed(g, keys, lists) && OvernightCalls(keys, lists, costs).Ok?
    requires st in keys && i + 1 < |lists[st]|
    ensures HasEdgeWith(Run(g, Links(keys, lists, costs)), lists[st][i].node, lists[st][i + 1].node, TransferAttrs)
  {
    var l := lists[st];
    var a: seq<Op<string>>, c: seq<Op<string>> := TransferCalls(keys, lists), OvernightCalls(keys, lists, costs).value;
    TransferCallsHas(keys, lists, st, i);
    var j :| 0 <= j < |a| && a[j] == EdgeOp(l[i].node, l[i + 1].node, TransferAttrs);
    TransferCallsShape(keys, lists);
    OvernightCallsFrom(g, keys, lists, costs, st, i);
    FirstBatchEdgeWins(g, a, c, j);
  }

  /** A listed station with entries has a cost, and its last entry ends joined to its first by its overnight edge. */
  lemma {:induction false} OvernightEdge(g: Graph<string>, keys: seq<string>, lists: map<string, seq<Entry>>, costs: map<string, Value>,
                                         st: string)
    requires Placed(g, keys, lists) && OvernightCalls(keys, lists, costs).Ok?
    requires st in keys && lists[st] != []
    ensures st in costs
    ensures HasEdgeWith(Run(g, Links(keys, lists, costs)), lists[st][|lists[st]| - 1].node, lists[st][0].node, OvernightAttrs(costs[st]))
  {
    var l := lists[st];
    var a: seq<Op<string>>, c: seq<Op<string>> := TransferCalls(keys, lists), OvernightCalls(keys, lists, costs).value;
    OvernightCallsHas(keys, lists, costs, st);
    var j :| 0 <= j < |c| && c[j] == OvernightOp(l, costs[st]);
    OvernightCallsFrom(g, keys, lists, costs, st, |l| - 1);
    SecondBatchEdgeWins(g, a, c, j);
  }
}
