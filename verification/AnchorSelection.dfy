// Solving the allocation graph and reading the selection off its saturated edges.
module AnchorSelection {
  import opened Options
  import opened Sums
  import opened Network
  import opened ShortestPaths
  import opened FlowGraphs
  import opened MinimumCostFlow
  import opened Anchors
  import opened AnchorNetwork
  import opened AnchorFlows
  import opened AnchorGraph
  import opened AnchorDecision
  import opened AnchorBuild

  // --- Reading the selection off the residual graph ---

  // The saturated candidate edges of one adjacency list.
  function Picked(edges: seq<FlowEdge<Candidate>>): seq<Candidate> {
    if |edges| == 0 then [] else
      var front, last := Picked(edges[..|edges| - 1]), edges[|edges| - 1];
      if last.candidate.Some? && last.capacity == 0 then front + [last.candidate.value] else front
  }

  lemma {:induction false} InPicked(edges: seq<FlowEdge<Candidate>>, x: Candidate)
    ensures x in Picked(edges) <==>
            exists i :: 0 <= i < |edges| && edges[i].candidate == Some(x) && edges[i].capacity == 0
  {
    if |edges| > 0 {
      InPicked(edges[..|edges| - 1], x);
    }
  }

  lemma {:induction false} PickedDistinct(edges: seq<FlowEdge<Candidate>>)
    requires forall i, j :: 0 <= i < j < |edges| && edges[i].candidate.Some? ==>
             edges[i].candidate != edges[j].candidate
    ensures Distinct(Picked(edges))
  {
    if |edges| > 0 {
      var front, last := edges[..|edges| - 1], edges[|edges| - 1];
      PickedDistinct(front);
      if last.candidate.Some? {
        InPicked(front, last.candidate.value);
      }
    }
  }

  // What the graph says about the choice links.
  ghost predicate Reads(P: Pools, r: Ranking, index: map<NodeKey, nat>, adj: Adjacency<Candidate>,
                        im: Image<Candidate>) {
    && Setting(P, index, |adj|) && Represents(adj, im) && im.arcs == Arcs(r, index, Links(P))
  }

  // A candidate edge is the forward edge of its choice link.
  lemma EdgeIsChoice(P: Pools, r: Ranking, index: map<NodeKey, nat>, adj: Adjacency<Candidate>, im: Image<Candidate>,
                     u: nat, i: nat)
    requires Reads(P, r, index, adj, im) && u < |adj| && i < |adj[u]| && adj[u][i].candidate.Some?
    ensures im.owner[u][i].arc < |Links(P)| && im.owner[u][i].forward
    ensures var k, x := im.owner[u][i].arc, adj[u][i].candidate.value;
            && Links(P)[k] == Choice(x) && u == index[BinNode(BinOf(x))] && adj[u][i].capacity == 1 - im.flow[k]
  {
    assert EdgeOwned(adj, im, u, i);
    var k := im.owner[u][i].arc;
    assert ArcStored(adj, im, k);
  }

  lemma ChoiceHasEdge(P: Pools, r: Ranking, index: map<NodeKey, nat>, adj: Adjacency<Candidate>, im: Image<Candidate>,
                      x: Candidate) returns (u: nat, i: nat)
    requires Reads(P, r, index, adj, im) && x in All(P)
    ensures BinNode(BinOf(x)) in index && u == index[BinNode(BinOf(x))]
    ensures u < |adj| && i < |adj[u]| && adj[u][i].candidate == Some(x)
  {
    InLinks(P, Choice(x));
    var k :| 0 <= k < |Links(P)| && Links(P)[k] == Choice(x);
    assert ArcStored(adj, im, k);
    u, i := im.arcs[k].tail, im.forwardAt[k];
  }

  lemma ChoiceFlow(P: Pools, flow: seq<int>, k: nat)
    requires PoolsOk(P) && |flow| == |Links(P)| && k < |Links(P)|
    ensures LinkFlow(Links(P), flow)(Links(P)[k]) == flow[k]
  {
    LinksDistinct(P);
    LinkFlowCarries(Links(P), flow);
  }

  lemma PickedOfBin(P: Pools, r: Ranking, index: map<NodeKey, nat>, adj: Adjacency<Candidate>, im: Image<Candidate>,
                    b: Bin)
    requires Reads(P, r, index, adj, im) && BinNode(b) in index && index[BinNode(b)] < |adj|
    ensures Distinct(Picked(adj[index[BinNode(b)]]))
    ensures forall x :: x in Picked(adj[index[BinNode(b)]]) <==>
                        x in All(P) && BinOf(x) == b && LinkFlow(Links(P), im.flow)(Choice(x)) == 1
  {
    var u := index[BinNode(b)];
    forall i, j | 0 <= i < j < |adj[u]| && adj[u][i].candidate.Some?
      ensures adj[u][i].candidate != adj[u][j].candidate
    {
      assert EdgeOwned(adj, im, u, i) && EdgeOwned(adj, im, u, j);
      LinksDistinct(P);
      EdgeIsChoice(P, r, index, adj, im, u, i);
      if adj[u][i].candidate == adj[u][j].candidate {
        EdgeIsChoice(P, r, index, adj, im, u, j);
      }
    }
    PickedDistinct(adj[u]);
    forall x
      ensures x in Picked(adj[u]) <==> x in All(P) && BinOf(x) == b && LinkFlow(Links(P), im.flow)(Choice(x)) == 1
    {
      PickedCandidate(P, r, index, adj, im, b, x);
    }
  }

  lemma PickedCandidate(P: Pools, r: Ranking, index: map<NodeKey, nat>, adj: Adjacency<Candidate>, im: Image<Candidate>,
                        b: Bin, x: Candidate)
    requires Reads(P, r, index, adj, im) && BinNode(b) in index && index[BinNode(b)] < |adj|
    ensures x in Picked(adj[index[BinNode(b)]]) <==>
            x in All(P) && BinOf(x) == b && LinkFlow(Links(P), im.flow)(Choice(x)) == 1
  {
    var u := index[BinNode(b)];
    InPicked(adj[u], x);
    if i :| 0 <= i < |adj[u]| && adj[u][i].candidate == Some(x) && adj[u][i].capacity == 0 {
      EdgeIsChoice(P, r, index, adj, im, u, i);
      var k := im.owner[u][i].arc;
      ChoiceFlow(P, im.flow, k);
      assert Links(P)[k] in Links(P);
      InLinks(P, Choice(x));
      BinOfPooled(P, x);
      KeyMembers(P);
      assert BinNode(BinOf(x)) in NodeKeys(P);
    }
    if x in All(P) && BinOf(x) == b && LinkFlow(Links(P), im.flow)(Choice(x)) == 1 {
      var v, i := ChoiceHasEdge(P, r, index, adj, im, x);
      EdgeIsChoice(P, r, index, adj, im, v, i);
      ChoiceFlow(P, im.flow, im.owner[v][i].arc);
    }
  }

  // The picked candidates of the bins in order.
  ghost function PickedFrom(adj: Adjacency<Candidate>, index: map<NodeKey, nat>, bins: seq<Bin>): seq<Candidate> {
    if |bins| == 0 then [] else
      var front, key := PickedFrom(adj, index, bins[..|bins| - 1]), BinNode(bins[|bins| - 1]);
      if key in index && index[key] < |adj| then front + Picked(adj[index[key]]) else front
  }

  // selected, before sorting.
  method Extract(graph: FlowGraph<Candidate>, P: Pools, index: map<NodeKey, nat>, ghost r: Ranking)
    returns (selected: seq<Candidate>)
    requires Reads(P, r, index, graph.adj, graph.image)
    ensures Chosen(P, LinkFlow(Links(P), graph.image.flow), selected)
    ensures selected == PickedFrom(graph.adj, index, Bins(P))
  {
    hide Represents, Setting, Links, Reads;
    selected := [];
    BinsIndexed(P, r, index, graph.adj, graph.image);
    var bins := Bins(P);
    var i := 0;
    while i < |bins|
      invariant i <= |bins|
      invariant Distinct(selected) && selected == PickedFrom(graph.adj, index, bins[..i])
      invariant forall x :: x in selected <==>
        x in All(P) && BinOf(x) in bins[..i] && LinkFlow(Links(P), graph.image.flow)(Choice(x)) == 1
    {
      var here := Picked(graph.adj[index[BinNode(bins[i])]]);
      PickedOfBin(P, r, index, graph.adj, graph.image, bins[i]);
      assert bins[..i + 1] == bins[..i] + [bins[i]] && bins[..i + 1][..i] == bins[..i];
      assert bins[i] !in bins[..i];
      DistinctAppend(selected, here);
      selected := selected + here;
      i := i + 1;
    }
    assert bins[..i] == bins;
    forall x | x in All(P)
      ensures BinOf(x) in bins
    {
      BinOfPooled(P, x);
    }
  }

  lemma BinsIndexed(P: Pools, r: Ranking, index: map<NodeKey, nat>, adj: Adjacency<Candidate>, im: Image<Candidate>)
    requires Reads(P, r, index, adj, im)
    ensures PoolsOk(P) && |im.flow| == |Links(P)| && Distinct(Bins(P))
    ensures forall b :: b in Bins(P) ==> BinNode(b) in index && index[BinNode(b)] < |adj|
  {
    BinsDistinct(P, |P.cells|);
    KeyMembers(P);
    forall b | b in Bins(P)
      ensures BinNode(b) in index && index[BinNode(b)] < |adj|
    {
      assert BinNode(b) in NodeKeys(P);
    }
  }

  // --- Solving ---

  // The largest link cost: three marginal steps of balance.
  const COST_BOUND: nat := 3 * BALANCE_WEIGHT

  lemma LinksWithin(P: Pools, r: Ranking, index: map<NodeKey, nat>, n: nat)
    requires Setting(P, index, n)
    ensures PricesWithin(Arcs(r, index, Links(P)), COST_BOUND)
    ensures forall k :: 0 <= k < |Links(P)| ==>
      Arcs(r, index, Links(P))[k].capacity >= 0 && Arcs(r, index, Links(P))[k].cost >= 0
  {
    var arcs := Arcs(r, index, Links(P));
    forall k | 0 <= k < |arcs|
      ensures 0 <= arcs[k].cost <= COST_BOUND && arcs[k].capacity >= 0
    {
      var l := Links(P)[k];
      assert l in Links(P);
      InLinks(P, l);
      LinkCostBound(r, l);
    }
  }

  lemma LinkCostBound(r: Ranking, l: Link)
    requires l.Marginal? ==> l.index < 4
    ensures LinkCost(r, l) <= COST_BOUND
  {
  }

  // xs is what the network of P, solved and read off, gives; index is the node numbering.
  ghost predicate SolvedAs(r: Ranking, P: Pools, index: map<NodeKey, nat>, xs: seq<Candidate>) {
    && PoolsOk(P) && Setting(P, index, |NodeKeys(P)|)
    && InNodes(Arcs(r, index, Links(P)), |NodeKeys(P)|)
    && index[SourceNode] < |NodeKeys(P)| && index[SinkNode] < |NodeKeys(P)|
    && var adj := AdjacencyOf(|NodeKeys(P)|, Arcs(r, index, Links(P)));
       xs == PickedFrom(Solved(adj, index[SourceNode], index[SinkNode], REQUIRED), index, Bins(P))
  }

  ghost predicate Allocated(r: Ranking, P: Pools, xs: seq<Candidate>) {
    exists index :: SolvedAs(r, P, index, xs)
  }

  lemma IndexUnique(keys: seq<NodeKey>, a: map<NodeKey, nat>, b: map<NodeKey, nat>)
    requires Indexes(keys, a) && Indexes(keys, b)
    ensures a == b
  {
    forall k
      ensures k in a <==> k in b
      ensures k in a ==> a[k] == b[k]
    {
      if k in a {
        assert keys[a[k]] == k;
      }
      if k in b {
        assert keys[b[k]] == k;
      }
    }
  }

  // The solver leaves no choice: the pools determine the selection.
  lemma AllocatedUnique(r: Ranking, P: Pools, xs: seq<Candidate>, ys: seq<Candidate>)
    requires Allocated(r, P, xs) && Allocated(r, P, ys)
    ensures xs == ys
  {
    var i :| SolvedAs(r, P, i, xs);
    var j :| SolvedAs(r, P, j, ys);
    IndexUnique(NodeKeys(P), i, j);
  }

  lemma PooledUnexchangeable(r: Ranking, P: Pools, xs: seq<Candidate>)
    requires PoolsOk(P) && PooledAllocation(P, xs)
    requires forall ys :: PooledAllocation(P, ys) ==> NoWorse(r, xs, ys)
    ensures NoBetterExchange(r, All(P), xs)
  {
    hide PoolsOk, All, NoWorse, NoBetterExchange, DistinctTraces, CountCell;
    forall ys | Allocation(All(P), P.cells, ys)
      ensures NoWorse(r, xs, ys)
    {
      assert PooledAllocation(P, ys);
    }
    BestUnexchangeable(r, All(P), P.cells, xs);
  }

  // The best allocation of the pools, or None when there is none.
  method Allocate(r: Ranking, P: Pools) returns (selected: Option<seq<Candidate>>)
    requires PoolsOk(P) && |P.cells| == 6
    requires PathsFit(|NodeKeys(P)|, COST_BOUND)
    ensures selected.None? <==> forall ys :: !PooledAllocation(P, ys)
    ensures selected.Some? ==> PooledAllocation(P, selected.value) && Allocated(r, P, selected.value)
    ensures selected.Some? ==> forall ys :: PooledAllocation(P, ys) ==> NoWorse(r, selected.value, ys)
    ensures selected.Some? ==> NoBetterExchange(r, All(P), selected.value)
  {
    var graph, index := BuildGraph(r, P);
    LinksWithin(P, r, index, |graph.adj|);
    hide PoolsOk, Links, PooledAllocation, PathsFit;
    var source, sink := index[SourceNode], index[SinkNode];
    ZeroFlowStarts(graph.adj, graph.image, source, sink);
    var sent := graph.MinimumCostFlow(source, sink, REQUIRED, seq(|graph.adj|, _ => 0), COST_BOUND);
    if sent != REQUIRED {
      forall ys
        ensures !PooledAllocation(P, ys)
      {
        ShortfallMeansNone(P, r, index, |graph.adj|, graph.image.flow, ys);
      }
      return None;
    }
    var xs := Extract(graph, P, index, r);
    assert SolvedAs(r, P, index, xs);
    CheapestSelectsBest(P, r, index, |graph.adj|, graph.image.flow, xs);
    PooledUnexchangeable(r, P, xs);
    return Some(xs);
  }
}
