/**
  The part of a networkx `DiGraph` that the scripts use: nodes kept in insertion
  order with an attribute dictionary each, and directed edges keyed by their
  endpoint pair with an attribute dictionary each. `add_node` and `add_edge`
  insert a missing key or merge the new attributes into the existing dictionary
  (Python's `dict.update`: new values win, other keys are kept).
 */
module DiGraph {

  /**
    The attribute names the scripts pass. `Capicity` is the misspelt keyword one
    variant passes for its overnight edges; it is stored like any other key and
    is not a capacity.
   */
  datatype AttrKey =
    | Demand | Station | Time | Weight | Capacity | Capicity
    | LowerBound | UpperBound | Lower | Upper | Cost | Color

  /** An attribute value: a Python int, a float (kept as an exact rational), `inf`, or a string. */
  datatype Value = Int(i: int) | Float(x: real) | Infinity | Text(s: string)

  type Attrs = map<AttrKey, Value>

  /** `1e10`, the scripts' stand-in for an unbounded capacity. */
  const BIG: real := 10000000000.0

  datatype Graph<N> = Graph(order: seq<N>, nodes: map<N, Attrs>, edges: map<(N, N), Attrs>)

  /** The representation invariant: `order` lists every node once, edges join nodes. */
  ghost predicate Valid<N>(g: Graph<N>)
  {
    && (forall i, j :: 0 <= i < j < |g.order| ==> g.order[i] != g.order[j])
    && (forall n :: n in g.nodes ==> n in g.order)
    && (forall i :: 0 <= i < |g.order| ==> g.order[i] in g.nodes)
    && (forall e :: e in g.edges ==> e.0 in g.nodes && e.1 in g.nodes)
  }

  function Empty<N>(): (g: Graph<N>)
    ensures Valid(g) && g.nodes == map[] && g.edges == map[]
  {
    Graph([], map[], map[])
  }

  /** `G.add_node(n, **attrs)`. */
  function AddNode<N>(g: Graph<N>, n: N, attrs: Attrs): Graph<N>
  {
    if n in g.nodes then g.(nodes := g.nodes[n := g.nodes[n] + attrs])
    else Graph(g.order + [n], g.nodes[n := attrs], g.edges)
  }

  /** The node-creation half of `add_edge`: a missing endpoint gets no attributes. */
  function Touch<N>(g: Graph<N>, n: N): Graph<N>
  {
    if n in g.nodes then g else Graph(g.order + [n], g.nodes[n := map[]], g.edges)
  }

  /** `G.add_edge(u, v, **attrs)`. */
  function AddEdge<N>(g: Graph<N>, u: N, v: N, attrs: Attrs): Graph<N>
  {
    var h := Touch(Touch(g, u), v);
    var old_attrs := if (u, v) in h.edges then h.edges[(u, v)] else map[];
    h.(edges := h.edges[(u, v) := old_attrs + attrs])
  }

  /** `add_node` inserts or merges one node and touches no edge. */
  lemma {:induction false} AddNodeFacts<N>(g: Graph<N>, n: N, attrs: Attrs)
    ensures var r := AddNode(g, n, attrs);
      && (Valid(g) ==> Valid(r))
      && r.nodes.Keys == g.nodes.Keys + {n} && r.edges == g.edges
      && (forall a :: a in attrs ==> a in r.nodes[n] && r.nodes[n][a] == attrs[a])
      && (forall m :: m in g.nodes && m != n ==> r.nodes[m] == g.nodes[m])
  {
  }

  lemma {:induction false} TouchFacts<N>(g: Graph<N>, n: N)
    ensures var r := Touch(g, n);
      && (Valid(g) ==> Valid(r))
      && r.nodes.Keys == g.nodes.Keys + {n} && r.edges == g.edges
      && (forall m :: m in g.nodes ==> r.nodes[m] == g.nodes[m])
      && (n in g.nodes ==> r == g)
  {
  }

  /**
    `add_edge` inserts or merges one edge, creates its missing endpoints, and
    leaves existing nodes and other edges alone.
   */
  lemma {:induction false} AddEdgeFacts<N>(g: Graph<N>, u: N, v: N, attrs: Attrs)
    ensures var r := AddEdge(g, u, v, attrs);
      && (Valid(g) ==> Valid(r))
      && r.nodes.Keys == g.nodes.Keys + {u, v}
      && r.edges.Keys == g.edges.Keys + {(u, v)}
      && (forall a :: a in attrs ==> a in r.edges[(u, v)] && r.edges[(u, v)][a] == attrs[a])
      && (forall e :: e in g.edges && e != (u, v) ==> r.edges[e] == g.edges[e])
      && (forall m :: m in g.nodes ==> r.nodes[m] == g.nodes[m])
      && (u in g.nodes && v in g.nodes ==> r.order == g.order && r.nodes == g.nodes)
  {
    TouchFacts(g, u);
    TouchFacts(Touch(g, u), v);
    var h := Touch(Touch(g, u), v);
    var r := AddEdge(g, u, v, attrs);
    assert r.nodes == h.nodes && r.order == h.order;
    assert Valid(g) ==> Valid(r) by {
      if Valid(g) {
        assert Valid(h);
        assert forall e :: e in r.edges ==> e in h.edges || e == (u, v);
      }
    }
  }

  /** A node not yet in the graph is appended with exactly the given attributes. */
  lemma {:induction false} AddNewNode<N>(g: Graph<N>, n: N, attrs: Attrs)
    requires n !in g.nodes
    ensures AddNode(g, n, attrs) == Graph(g.order + [n], g.nodes[n := attrs], g.edges)
  {
  }

  /** A new edge between existing nodes gets exactly the given attributes and changes nothing else. */
  lemma {:induction false} AddNewEdge<N>(g: Graph<N>, u: N, v: N, attrs: Attrs)
    requires u in g.nodes && v in g.nodes && (u, v) !in g.edges
    ensures AddEdge(g, u, v, attrs) == g.(edges := g.edges[(u, v) := attrs])
  {
    assert map[] + attrs == attrs;
  }

  /** Two new nodes and a new edge between them, in closed form. */
  lemma {:induction false} AddNewPair<N>(g: Graph<N>, u: N, v: N, ua: Attrs, va: Attrs, ea: Attrs)
    requires u != v && u !in g.nodes && v !in g.nodes && (u, v) !in g.edges
    ensures AddEdge(AddNode(AddNode(g, u, ua), v, va), u, v, ea)
         == Graph(g.order + [u, v], g.nodes[u := ua][v := va], g.edges[(u, v) := ea])
  {
    var g1 := AddNode(g, u, ua);
    AddNewNode(g, u, ua);
    var g2 := AddNode(g1, v, va);
    AddNewNode(g1, v, va);
    assert g.order + [u] + [v] == g.order + [u, v];
    AddNewEdge(g2, u, v, ea);
  }

  /** `u -> v` is an edge of `g` and carries every attribute of `attrs` with its value. */
  ghost predicate HasEdgeWith<N>(g: Graph<N>, u: N, v: N, attrs: Attrs)
  {
    (u, v) in g.edges && forall a :: a in attrs ==> a in g.edges[(u, v)] && g.edges[(u, v)][a] == attrs[a]
  }

  lemma {:induction false} HasEdgeWithSub<N>(g: Graph<N>, u: N, v: N, attrs: Attrs, sub: Attrs)
    requires HasEdgeWith(g, u, v, attrs)
    requires forall a :: a in sub ==> a in attrs && attrs[a] == sub[a]
    ensures HasEdgeWith(g, u, v, sub)
  {
  }

  /** One call the scripts make on the graph. */
  datatype Op<N> = NodeOp(n: N, attrs: Attrs) | EdgeOp(u: N, v: N, attrs: Attrs)

  function Apply<N>(g: Graph<N>, op: Op<N>): Graph<N>
  {
    match op
    case NodeOp(n, a) => AddNode(g, n, a)
    case EdgeOp(u, v, a) => AddEdge(g, u, v, a)
  }

  /** The graph after making the calls `ops`, in order, on `g`. */
  function Run<N>(g: Graph<N>, ops: seq<Op<N>>): Graph<N>
  {
    if ops == [] then g else Apply(Run(g, ops[..|ops| - 1]), ops[|ops| - 1])
  }

  /** The endpoint pairs of the edge calls in `ops`. */
  function EdgePairs<N(==)>(ops: seq<Op<N>>): set<(N, N)>
  {
    set k | 0 <= k < |ops| && ops[k].EdgeOp? :: (ops[k].u, ops[k].v)
  }

  /** The nodes one call names. */
  function OpNodes<N(==)>(op: Op<N>): set<N>
  {
    if op.NodeOp? then {op.n} else {op.u, op.v}
  }

  /** Every node some call in `ops` names. */
  function Mentioned<N(==)>(ops: seq<Op<N>>): set<N>
  {
    if ops == [] then {} else Mentioned(ops[..|ops| - 1]) + OpNodes(ops[|ops| - 1])
  }

  /** Only edge calls, all of them between nodes of `g`. */
  predicate EdgesAmong<N>(g: Graph<N>, ops: seq<Op<N>>)
  {
    forall k :: 0 <= k < |ops| ==> ops[k].EdgeOp? && ops[k].u in g.nodes && ops[k].v in g.nodes
  }

  lemma {:induction false} RunAppend<N>(g: Graph<N>, a: seq<Op<N>>, b: seq<Op<N>>)
    ensures Run(g, a + b) == Run(Run(g, a), b)
    decreases |b|
  {
    if b == [] {
      assert a + b == a;
    } else {
      var b' := b[..|b| - 1];
      assert (a + b)[..|a + b| - 1] == a + b';
      RunAppend(g, a, b');
    }
  }

  lemma {:induction false} RunStep<N>(g: Graph<N>, ops: seq<Op<N>>, i: nat)
    requires i < |ops|
    ensures Run(g, ops[..i + 1]) == Apply(Run(g, ops[..i]), ops[i])
  {
    assert ops[..i + 1][..i] == ops[..i];
  }

  lemma {:induction false} RunSnoc<N>(g: Graph<N>, ops: seq<Op<N>>, op: Op<N>)
    ensures Run(g, ops + [op]) == Apply(Run(g, ops), op)
  {
    assert (ops + [op])[..|ops|] == ops;
  }

  lemma {:induction false} RunTwo<N>(g: Graph<N>, x: Op<N>, y: Op<N>)
    ensures Run(g, [x, y]) == Apply(Apply(g, x), y)
  {
    assert Run(g, [x]) == Apply(g, x) by {
      assert [x][..0] == [];
    }
    assert [x, y][..1] == [x];
  }

  /** Running six batches of calls one after the other is running their concatenation. */
  lemma {:induction false} RunPhases<N>(g: Graph<N>, a1: seq<Op<N>>, a2: seq<Op<N>>, a3: seq<Op<N>>,
                     a4: seq<Op<N>>, a5: seq<Op<N>>, a6: seq<Op<N>>)
    ensures Run(g, a1 + a2 + a3 + a4 + a5 + a6)
         == Run(Run(Run(Run(Run(Run(g, a1), a2), a3), a4), a5), a6)
  {
    RunAppend(g, a1, a2);
    RunAppend(g, a1 + a2, a3);
    RunAppend(g, a1 + a2 + a3, a4);
    RunAppend(g, a1 + a2 + a3 + a4, a5);
    RunAppend(g, a1 + a2 + a3 + a4 + a5, a6);
  }

  lemma {:induction false} MentionedAppend<N>(a: seq<Op<N>>, b: seq<Op<N>>)
    ensures Mentioned(a + b) == Mentioned(a) + Mentioned(b)
    decreases |b|
  {
    if b == [] {
      assert a + b == a;
    } else {
      var b' := b[..|b| - 1];
      assert (a + b)[..|a + b| - 1] == a + b';
      MentionedAppend(a, b');
    }
  }

  lemma {:induction false} EdgePairsAppend<N>(a: seq<Op<N>>, b: seq<Op<N>>)
    ensures EdgePairs(a + b) == EdgePairs(a) + EdgePairs(b)
  {
    var c := a + b;
    forall p | p in EdgePairs(c)
      ensures p in EdgePairs(a) + EdgePairs(b)
    {
      var k :| 0 <= k < |c| && c[k].EdgeOp? && p == (c[k].u, c[k].v);
      if k >= |a| {
        assert c[k] == b[k - |a|];
      }
    }
    forall p | p in EdgePairs(b)
      ensures p in EdgePairs(c)
    {
      var k :| 0 <= k < |b| && b[k].EdgeOp? && p == (b[k].u, b[k].v);
      assert c[|a| + k] == b[k];
    }
    forall p | p in EdgePairs(a)
      ensures p in EdgePairs(c)
    {
      var k :| 0 <= k < |a| && a[k].EdgeOp? && p == (a[k].u, a[k].v);
      assert c[k] == a[k];
    }
  }

  /** The calls keep the representation invariant. */
  lemma {:induction false} RunValid<N>(g: Graph<N>, ops: seq<Op<N>>)
    requires Valid(g)
    ensures Valid(Run(g, ops))
    decreases |ops|
  {
    if ops != [] {
      RunValid(g, ops[..|ops| - 1]);
      ApplyValid(Run(g, ops[..|ops| - 1]), ops[|ops| - 1]);
    }
  }

  lemma {:induction false} ApplyValid<N>(g: Graph<N>, op: Op<N>)
    requires Valid(g)
    ensures Valid(Apply(g, op))
  {
    match op
    case NodeOp(n, a) => AddNodeFacts(g, n, a);
    case EdgeOp(u, v, a) => AddEdgeFacts(g, u, v, a);
  }

  /** After the calls, the edges are the old ones plus one per distinct pair named. */
  lemma {:induction false} RunEdgeKeys<N>(g: Graph<N>, ops: seq<Op<N>>)
    ensures Run(g, ops).edges.Keys == g.edges.Keys + EdgePairs(ops)
    decreases |ops|
  {
    if ops != [] {
      var p := ops[..|ops| - 1];
      RunEdgeKeys(g, p);
      assert EdgePairs(ops) == EdgePairs(p) + (if ops[|ops| - 1].EdgeOp? then {(ops[|ops| - 1].u, ops[|ops| - 1].v)} else {}) by {
        assert forall k :: 0 <= k < |p| ==> p[k] == ops[k];
      }
    }
  }

  /** After the calls, the nodes are the old ones plus every node named. */
  lemma {:induction false} RunNodeKeys<N>(g: Graph<N>, ops: seq<Op<N>>)
    ensures Run(g, ops).nodes.Keys == g.nodes.Keys + Mentioned(ops)
    decreases |ops|
  {
    if ops != [] {
      var p := ops[..|ops| - 1];
      RunNodeKeys(g, p);
      ApplyNodeKeys(Run(g, p), ops[|ops| - 1]);
    }
  }

  lemma {:induction false} ApplyNodeKeys<N>(g: Graph<N>, op: Op<N>)
    ensures Apply(g, op).nodes.Keys == g.nodes.Keys + OpNodes(op)
  {
    match op
    case NodeOp(n, a) => AddNodeFacts(g, n, a);
    case EdgeOp(u, v, a) => AddEdgeFacts(g, u, v, a);
  }

  /** Edge calls between existing nodes leave the nodes, their order and their attributes alone. */
  lemma {:induction false} RunEdgesKeepNodes<N>(g: Graph<N>, ops: seq<Op<N>>)
    requires EdgesAmong(g, ops)
    ensures Run(g, ops).nodes == g.nodes && Run(g, ops).order == g.order
    decreases |ops|
  {
    if ops != [] {
      RunEdgesKeepNodes(g, ops[..|ops| - 1]);
    }
  }

  /**
    The attributes of the LAST edge call on a pair are present, with their
    values, on that edge after all the calls (later calls repeating the same
    attributes do not disturb them).
   */
  lemma {:induction false} RunLastEdgeWins<N>(g: Graph<N>, ops: seq<Op<N>>, k: nat)
    requires k < |ops| && ops[k].EdgeOp?
    requires forall j :: k < j < |ops| && ops[j].EdgeOp? && (ops[j].u, ops[j].v) == (ops[k].u, ops[k].v) ==> ops[j].attrs == ops[k].attrs
    ensures HasEdgeWith(Run(g, ops), ops[k].u, ops[k].v, ops[k].attrs)
    decreases |ops|
  {
    if k < |ops| - 1 {
      RunLastEdgeWins(g, ops[..|ops| - 1], k);
    }
  }

  /** A pair no edge call names keeps its edge, or its absence. */
  lemma {:induction false} RunUntouched<N>(g: Graph<N>, ops: seq<Op<N>>, p: (N, N))
    requires forall j :: 0 <= j < |ops| && ops[j].EdgeOp? ==> (ops[j].u, ops[j].v) != p
    ensures p in Run(g, ops).edges <==> p in g.edges
    ensures p in g.edges ==> Run(g, ops).edges[p] == g.edges[p]
    decreases |ops|
  {
    if ops != [] {
      RunUntouched(g, ops[..|ops| - 1], p);
      var last := ops[|ops| - 1];
      if last.EdgeOp? {
        AddEdgeFacts(Run(g, ops[..|ops| - 1]), last.u, last.v, last.attrs);
      }
    }
  }

  /** The last call on a pair in the first of two batches wins when the second batch leaves the pair alone. */
  lemma {:induction false} FirstBatchEdgeWins<N>(g: Graph<N>, a: seq<Op<N>>, c: seq<Op<N>>, k: nat)
    requires k < |a| && a[k].EdgeOp?
    requires forall j :: k < j < |a| && a[j].EdgeOp? && (a[j].u, a[j].v) == (a[k].u, a[k].v) ==> a[j].attrs == a[k].attrs
    requires forall j :: 0 <= j < |c| && c[j].EdgeOp? ==> (c[j].u, c[j].v) != (a[k].u, a[k].v)
    ensures HasEdgeWith(Run(g, a + c), a[k].u, a[k].v, a[k].attrs)
  {
    RunAppend(g, a, c);
    RunLastEdgeWins(g, a, k);
    RunUntouched(Run(g, a), c, (a[k].u, a[k].v));
  }

  /** The last call on a pair in the second of two batches wins. */
  lemma {:induction false} SecondBatchEdgeWins<N>(g: Graph<N>, a: seq<Op<N>>, c: seq<Op<N>>, k: nat)
    requires k < |c| && c[k].EdgeOp?
    requires forall j :: k < j < |c| && c[j].EdgeOp? && (c[j].u, c[j].v) == (c[k].u, c[k].v) ==> c[j].attrs == c[k].attrs
    ensures HasEdgeWith(Run(g, a + c), c[k].u, c[k].v, c[k].attrs)
  {
    RunAppend(g, a, c);
    RunLastEdgeWins(Run(g, a), c, k);
  }

  /**
    A pair that was not an edge, and that every edge call names with the same
    attributes `attrs`, ends with exactly `attrs`.
   */
  lemma {:induction false} RunUniformEdge<N>(g: Graph<N>, ops: seq<Op<N>>, p: (N, N), attrs: Attrs)
    requires p !in g.edges
    requires forall j :: 0 <= j < |ops| && ops[j].EdgeOp? && (ops[j].u, ops[j].v) == p ==> ops[j].attrs == attrs
    ensures p in Run(g, ops).edges ==> Run(g, ops).edges[p] == attrs
    decreases |ops|
  {
    if ops != [] {
      var q := ops[..|ops| - 1];
      assert forall j :: 0 <= j < |q| ==> q[j] == ops[j];
      RunUniformEdge(g, q, p, attrs);
      ApplyUniformEdge(Run(g, q), ops[|ops| - 1], p, attrs);
    }
  }

  lemma {:induction false} ApplyUniformEdge<N>(h: Graph<N>, op: Op<N>, p: (N, N), attrs: Attrs)
    requires p in h.edges ==> h.edges[p] == attrs
    requires op.EdgeOp? && (op.u, op.v) == p ==> op.attrs == attrs
    ensures p in Apply(h, op).edges ==> Apply(h, op).edges[p] == attrs
  {
    match op
    case NodeOp(n, a) =>
    case EdgeOp(u, v, a) =>
      assert Touch(Touch(h, u), v).edges == h.edges;
      if (u, v) == p {
        if p in h.edges {
          assert h.edges[p] + attrs == attrs;
        } else {
          assert map[] + attrs == attrs;
        }
      }
  }

  /** `networkx` reads a missing "demand" attribute as 0. */
  function DemandOf(a: Attrs): int
  {
    if Demand in a && a[Demand].Int? then a[Demand].i else 0
  }

  /** The sum of the demands of the nodes listed in `order`. */
  function DemandSum<N>(order: seq<N>, nodes: map<N, Attrs>): int
  {
    if order == [] then 0
    else (if order[0] in nodes then DemandOf(nodes[order[0]]) else 0) + DemandSum(order[1..], nodes)
  }

  /** The total node demand of a graph. */
  function TotalDemand<N>(g: Graph<N>): int
  {
    DemandSum(g.order, g.nodes)
  }

  lemma {:induction false} DemandSumAppend<N>(a: seq<N>, b: seq<N>, nodes: map<N, Attrs>)
    ensures DemandSum(a + b, nodes) == DemandSum(a, nodes) + DemandSum(b, nodes)
  {
    if a == [] {
      assert a + b == b;
    } else {
      DemandSumAppend(a[1..], b, nodes);
      assert (a + b)[1..] == a[1..] + b;
    }
  }
}
