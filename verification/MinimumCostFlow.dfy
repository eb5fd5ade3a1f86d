// _add_flow_edge and _minimum_cost_flow on a mutable residual graph.
module MinimumCostFlow {
  import opened Options
  import opened Network
  import opened ShortestPaths
  import opened BellmanFord
  import opened FlowGraphs

  class FlowGraph<T(!new)> {
    var adj: Adjacency<T>
    ghost var image: Image<T>

    ghost predicate Valid()
      reads this
    {
      Represents(adj, image)
    }

    constructor (nodeCount: nat)
      ensures Valid()
      ensures |adj| == nodeCount && adj == EmptyLists(nodeCount) && image.arcs == [] && image.flow == []
    {
      adj := seq(nodeCount, _ => []);
      image := Image([], [], [], [], seq(nodeCount, _ => []));
    }

    method AddFlowEdge(source: nat, target: nat, capacity: int, cost: int, candidate: Option<T>)
      requires Valid() && source < |adj| && target < |adj|
      modifies this
      ensures adj == WithEdge(old(adj), source, target, capacity, cost, candidate)
      ensures source != target ==>
        && Valid()
        && image.arcs == old(image).arcs + [Arc(source, target, capacity, cost, candidate)]
        && image.flow == old(image).flow + [0]
    {
      var forward := FlowEdge(target, |adj[target]|, capacity, cost, candidate);
      var backward := FlowEdge(source, |adj[source]|, 0, -cost, None);
      ghost var arc := Arc(source, target, capacity, cost, candidate);
      if source != target {
        ExtendedRepresents(adj, image, arc);
      }
      image := Extended(adj, image, arc);
      adj := adj[source := adj[source] + [forward]];
      adj := adj[target := adj[target] + [backward]];
    }

    // One step of the walk back from the sink: move a unit across edge (parent, edgeIndex).
    method MoveUnit(parent: nat, edgeIndex: nat)
      requires Valid() && parent < |adj| && edgeIndex < |adj[parent]|
      modifies this
      ensures old(adj)[parent][edgeIndex].to < |old(adj)|
      ensures old(adj)[parent][edgeIndex].reverse < |old(adj)[old(adj)[parent][edgeIndex].to]|
      ensures adj == Push(old(adj), parent, edgeIndex)
      ensures image == Pushed(old(adj), old(image), parent, edgeIndex)
      ensures Valid()
    {
      PushedRepresents(adj, image, parent, edgeIndex);
      image := Pushed(adj, image, parent, edgeIndex);
      var edge := adj[parent][edgeIndex];
      adj := adj[parent := adj[parent][edgeIndex := edge.(capacity := edge.capacity - 1)]];
      var back := adj[edge.to][edge.reverse];
      adj := adj[edge.to := adj[edge.to][edge.reverse := back.(capacity := back.capacity + 1)]];
    }

    // Follow the recorded predecessors from the sink, moving one unit across each edge.
    method Augment(source: nat, sink: nat, previousNode: array<int>, previousEdge: array<int>, ghost q: seq<int>,
                   ghost chain: seq<int>)
      requires Valid() && source < |adj|
      requires Bounded(image.arcs, image.flow) && NoLoss(adj, q)
      requires TightPath(adj, previousNode[..], previousEdge[..], q, source, sink, chain)
      modifies this
      ensures Valid() && |adj| == old(|adj|) && image.arcs == old(image.arcs)
      ensures Bounded(image.arcs, image.flow) && NoLoss(adj, q)
      ensures UnitMoved(image.arcs, old(image.flow), image.flow, source, sink)
      ensures adj == PushAlong(old(adj), previousEdge[..], chain, |chain| - 1)
    {
      hide Represents, Bounded, NoLoss, Push, Loaded, PushOrStay;
      ghost var start, before := image.flow, adj;
      LoadedAtSink(adj, image, q, sink);
      var node: int := sink;
      ghost var at := 0;
      while node != source
        invariant at < |chain| && node == chain[at]
        invariant 0 <= node < |adj| == |before|
        invariant image.arcs == old(image.arcs) && Loaded(adj, image, q, start, node, sink)
        invariant forall m :: at < m < |chain| ==> 0 <= chain[m] < |adj| && adj[chain[m]] == before[chain[m]]
        invariant adj == PushAlong(before, previousEdge[..], chain, at)
        decreases |chain| - at
      {
        var parent := previousNode[node];
        var edgeIndex := previousEdge[node];
        assert parent == chain[at + 1];
        assert Usable(before, chain[at + 1], previousEdge[..][chain[at]]);
        // The source raises a RuntimeError when either is negative.
        assert parent >= 0 && edgeIndex >= 0;
        assert adj[parent] == before[parent];
        LoadedPush(adj, image, q, start, parent, edgeIndex, sink);
        ghost var current := adj;
        MoveUnit(parent, edgeIndex);
        forall m | at + 1 < m < |chain|
          ensures adj[chain[m]] == before[chain[m]]
        {
          ChainSimple(previousNode[..], source, sink, chain, at, m);
          ChainSimple(previousNode[..], source, sink, chain, at + 1, m);
          PushElsewhere(current, parent, edgeIndex, chain[m]);
        }
        node := parent;
        at := at + 1;
      }
      assert at == |chain| - 1;
      LoadedDone(adj, image, q, start, source, sink);
    }

    // One pass of the outer loop: find a cheapest augmenting path and use it, or stop.
    method SendOne(source: nat, sink: nat, ghost p: seq<int>, ghost c: nat) returns (moved: bool, ghost q: seq<int>)
      requires Valid() && source < |adj| && sink < |adj|
      requires IsFlow(image.arcs, image.flow, |adj|, source, sink) && NoLoss(adj, p)
      requires PricesWithin(image.arcs, c) && PathsFit(|adj|, c)
      modifies this
      ensures Valid() && |adj| == old(|adj|) && image.arcs == old(image.arcs) && NoLoss(adj, q)
      ensures IsFlow(image.arcs, image.flow, |adj|, source, sink)
      ensures Net(image.arcs, image.flow, source) ==
              Net(image.arcs, old(image.flow), source) + (if moved && source != sink then 1 else 0)
      ensures source == sink ==> moved && adj == old(adj)
      ensures !moved ==> Largest(image.arcs, image.flow, |adj|, source, sink)
      ensures forall k :: k > 0 ==>
              Solved(old(adj), source, sink, k) == if moved then Solved(adj, source, sink, k - 1) else adj
    {
      hide Represents, NoLoss, Labelled, Settled, TightPath, Largest, PricesWithin, IsChain;
      WithinBelowInfinity(adj, image, c);
      var distances, previousNode, previousEdge := Distances(adj, source, p, c);
      LabelledShape(adj, source, p, c, distances[..], previousNode[..], previousEdge[..]);
      if distances[sink] == INFINITY {
        UnreachedIsLargest(adj, image, source, sink, p, c, distances[..], previousNode[..], previousEdge[..]);
        return false, p;
      }
      ghost var chain := ChainTo(previousNode[..], source, sink);
      q := Reprice(p, distances[..], source, sink);
      RepricedNoLoss(adj, source, sink, p, c, distances[..], previousNode[..], previousEdge[..]);
      RepricedTight(adj, source, sink, p, c, distances[..], previousNode[..], previousEdge[..], chain);
      ChainNonEmpty(previousNode[..], source, sink, chain);
      if source == sink {
        ChainToItself(previousNode[..], source, chain);
      }
      ghost var start := image;
      Augment(source, sink, previousNode, previousEdge, q, chain);
      MovedConserves(start.arcs, start.flow, image.flow, |adj|, source, sink);
      moved := true;
    }

    // Successive cheapest augmentations. prices certify that the starting flow is itself cheapest;
    // with zero flow and non-negative costs, all prices zero will do.
    method MinimumCostFlow(source: nat, sink: nat, required: int, ghost prices: seq<int>, ghost c: nat)
      returns (sent: int)
      requires Valid() && source < |adj| && sink < |adj|
      requires IsFlow(image.arcs, image.flow, |adj|, source, sink) && NoLoss(adj, prices)
      requires PricesWithin(image.arcs, c) && PathsFit(|adj|, c)
      modifies this
      ensures Valid() && |adj| == old(|adj|) && image.arcs == old(image.arcs)
      ensures IsFlow(image.arcs, image.flow, |adj|, source, sink)
      ensures Net(image.arcs, image.flow, source) ==
              Net(image.arcs, old(image.flow), source) + (if source == sink then 0 else sent)
      ensures source == sink ==> adj == old(adj) && (sent == required || sent == 0 > required)
      ensures 0 <= sent && (sent <= required || sent == 0)
      ensures Cheapest(image.arcs, image.flow, |adj|, source, sink)
      ensures sent < required ==> Largest(image.arcs, image.flow, |adj|, source, sink)
      ensures exists q :: NoLoss(adj, q)
      ensures adj == Solved(old(adj), source, sink, required)
    {
      hide Represents, NoLoss, Cheapest, Largest, Solved, PricesWithin, Conserves;
      sent := 0;
      ghost var p := prices;
      SolvedNothing(adj, source, sink, required);
      while sent < required
        invariant Valid() && |adj| == old(|adj|) && image.arcs == old(image.arcs)
        invariant IsFlow(image.arcs, image.flow, |adj|, source, sink)
        invariant |image.flow| == |image.arcs|
        invariant Net(image.arcs, image.flow, source) ==
                  Net(image.arcs, old(image.flow), source) + (if source == sink then 0 else sent)
        invariant source == sink ==> adj == old(adj)
        invariant 0 <= sent && (sent <= required || sent == 0)
        invariant NoLoss(adj, p)
        invariant Solved(old(adj), source, sink, required) == Solved(adj, source, sink, required - sent)
      {
        var moved;
        moved, p := SendOne(source, sink, p, c);
        if !moved {
          assert adj == Solved(old(adj), source, sink, required);
          break;
        }
        sent := sent + 1;
      }
      SolvedNothing(adj, source, sink, required - sent);
      CertifiedCheapest(adj, image, p, source, sink);
    }
  }

  lemma SolvedNothing<T>(adj: Adjacency<T>, s: nat, t: nat, required: int)
    requires s < |adj| && t < |adj|
    ensures required <= 0 ==> Solved(adj, s, t, required) == adj
  {
  }

  lemma CertifiedCheapest<T(!new)>(adj: Adjacency<T>, im: Image<T>, p: seq<int>, source: nat, sink: nat)
    requires Represents(adj, im) && NoLoss(adj, p) && IsFlow(im.arcs, im.flow, |adj|, source, sink)
    requires source < |adj| && sink < |adj|
    ensures Cheapest(im.arcs, im.flow, |adj|, source, sink)
  {
    SamePrices(adj, im, p);
    PricedOutIsCheapest(im.arcs, im.flow, p, source, sink);
  }

  lemma MovedConserves<T>(arcs: seq<Arc<T>>, before: seq<int>, after: seq<int>, n: nat, source: nat, sink: nat)
    requires IsFlow(arcs, before, n, source, sink) && Bounded(arcs, after)
             && UnitMoved(arcs, before, after, source, sink)
    ensures IsFlow(arcs, after, n, source, sink)
    ensures Net(arcs, after, source) == Net(arcs, before, source) + (if source == sink then 0 else 1)
  {
  }

  lemma ChainNonEmpty(pn: seq<int>, s: nat, v: int, c: seq<int>)
    requires IsChain(pn, s, v, c)
    ensures c != []
  {
  }

  lemma ChainToItself(pn: seq<int>, s: nat, c: seq<int>)
    requires IsChain(pn, s, s, c)
    ensures |c| == 1
  {
  }

  lemma LabelledShape<T>(adj: Adjacency<T>, s: nat, p: seq<int>, c: nat, d: seq<int>, pn: seq<int>, pe: seq<int>)
    requires NoLoss(adj, p) && Labelled(adj, s, p, c, d, pn, pe)
    ensures |p| == |d| == |pn| == |pe| == |adj| && s < |d| && d[s] == 0
    ensures forall v :: 0 <= v < |adj| && d[v] != INFINITY ==> IsChain(pn, s, v, ChainTo(pn, s, v))
  {
  }

  // The two flows differ by one unit sent from one node to another.
  ghost predicate UnitMoved<T>(arcs: seq<Arc<T>>, before: seq<int>, after: seq<int>, from: int, to: int)
  {
    && |before| == |after| == |arcs|
    && forall v: nat ::
      Net(arcs, after, v) == Net(arcs, before, v) + (if v == from then 1 else 0) - (if v == to then 1 else 0)
  }

  lemma PushedMoves<T>(adj: Adjacency<T>, im: Image<T>, u: nat, i: nat, start: seq<int>, sink: int)
    requires Represents(adj, im) && u < |adj| && i < |adj[u]|
    requires UnitMoved(im.arcs, start, im.flow, adj[u][i].to, sink)
    ensures UnitMoved(im.arcs, start, Pushed(adj, im, u, i).flow, u, sink)
  {
    forall v: nat
      ensures Net(im.arcs, Pushed(adj, im, u, i).flow, v) ==
              Net(im.arcs, start, v) + (if v == u then 1 else 0) - (if v == sink then 1 else 0)
    {
      PushedNet(adj, im, u, i, v);
    }
  }

  // Part of the way back: a unit has been sent from a node to the sink.
  ghost predicate Loaded<T>(adj: Adjacency<T>, im: Image<T>, q: seq<int>, start: seq<int>, from: int, sink: int) {
    Represents(adj, im) && Bounded(im.arcs, im.flow) && NoLoss(adj, q) && UnitMoved(im.arcs, start, im.flow, from, sink)
  }

  lemma LoadedAtSink<T>(adj: Adjacency<T>, im: Image<T>, q: seq<int>, sink: int)
    requires Represents(adj, im) && Bounded(im.arcs, im.flow) && NoLoss(adj, q)
    ensures Loaded(adj, im, q, im.flow, sink, sink)
  {
  }

  lemma LoadedDone<T>(adj: Adjacency<T>, im: Image<T>, q: seq<int>, start: seq<int>, source: int, sink: int)
    requires Loaded(adj, im, q, start, source, sink)
    ensures Represents(adj, im) && Bounded(im.arcs, im.flow) && NoLoss(adj, q)
            && UnitMoved(im.arcs, start, im.flow, source, sink)
  {
  }

  lemma LoadedPush<T>(adj: Adjacency<T>, im: Image<T>, q: seq<int>, start: seq<int>, parent: nat, i: nat, sink: int)
    requires parent < |adj| && i < |adj[parent]| && Loaded(adj, im, q, start, adj[parent][i].to, sink)
    requires Usable(adj, parent, i) && |q| == |adj| && adj[parent][i].to < |adj|
    requires adj[parent][i].cost + q[parent] - q[adj[parent][i].to] == 0
    ensures Represents(adj, im) && adj[parent][i].reverse < |adj[adj[parent][i].to]|
    ensures Loaded(Push(adj, parent, i), Pushed(adj, im, parent, i), q, start, parent, sink)
    ensures PushOrStay(adj, parent, i) == Push(adj, parent, i) && |Push(adj, parent, i)| == |adj|
  {
    hide UnitMoved, NoLoss, Bounded, Represents;
    PushedBounded(adj, im, parent, i);
    PushedNoLoss(adj, im, q, parent, i);
    PushedMoves(adj, im, parent, i, start, sink);
    PushedRepresents(adj, im, parent, i);
  }

  lemma PushElsewhere<T>(adj: Adjacency<T>, u: nat, i: nat, v: nat)
    requires u < |adj| && i < |adj[u]| && adj[u][i].to < |adj| && adj[u][i].reverse < |adj[adj[u][i].to]|
    requires v < |adj| && v != u && v != adj[u][i].to
    ensures Push(adj, u, i)[v] == adj[v]
  {
  }

  ghost predicate PricesWithin<T>(arcs: seq<Arc<T>>, c: nat) {
    forall k :: 0 <= k < |arcs| ==> -(c as int) <= arcs[k].cost <= c
  }

  lemma WithinBelowInfinity<T>(adj: Adjacency<T>, im: Image<T>, c: nat)
    requires Represents(adj, im) && PricesWithin(im.arcs, c) && PathsFit(|adj|, c)
    ensures BelowInfinity(adj, c)
  {
    forall u, i | 0 <= u < |adj| && 0 <= i < |adj[u]|
      ensures adj[u][i].cost <= c
    {
      assert EdgeOwned(adj, im, u, i);
      assert ArcStored(adj, im, im.owner[u][i].arc);
    }
  }

  lemma UnreachedIsLargest<T(!new)>(adj: Adjacency<T>, im: Image<T>, source: nat, sink: nat, p: seq<int>, c: nat,
                                    d: seq<int>, pn: seq<int>, pe: seq<int>)
    requires Represents(adj, im) && IsFlow(im.arcs, im.flow, |adj|, source, sink)
    requires BelowInfinity(adj, c) && Labelled(adj, source, p, c, d, pn, pe) && Settled(adj, d)
    requires source < |adj| && sink < |adj| && d[sink] == INFINITY
    ensures Largest(im.arcs, im.flow, |adj|, source, sink)
  {
    var reached: set<nat> := set v: nat | v < |d| && d[v] != INFINITY;
    forall u: nat, i: nat | u in reached && Usable(adj, u, i)
      ensures adj[u][i].to in reached
    {
      SettledReaches(adj, c, d, u, i);
    }
    RepresentsInNodes(adj, im);
    ClosedIsSaturated(adj, im, reached);
    SaturatedIsLargest(im.arcs, im.flow, reached, |adj|, source, sink);
  }

  // A fresh graph with non-negative capacities and costs starts from a cheapest flow at zero prices.
  lemma ZeroFlowStarts<T>(adj: Adjacency<T>, im: Image<T>, source: nat, sink: nat)
    requires Represents(adj, im)
    requires forall k :: 0 <= k < |im.arcs| ==> im.flow[k] == 0 && im.arcs[k].capacity >= 0 && im.arcs[k].cost >= 0
    ensures IsFlow(im.arcs, im.flow, |adj|, source, sink)
    ensures NoLoss(adj, seq(|adj|, _ => 0))
    ensures Net(im.arcs, im.flow, source) == 0
  {
    forall v: nat
      ensures Net(im.arcs, im.flow, v) == 0
    {
      ZeroNet(im.arcs, im.flow, v);
    }
    SamePrices(adj, im, seq(|adj|, _ => 0));
  }

  lemma {:induction false} ZeroNet<T>(arcs: seq<Arc<T>>, flow: seq<int>, v: nat)
    requires |flow| == |arcs| && forall k :: 0 <= k < |flow| ==> flow[k] == 0
    ensures Net(arcs, flow, v) == 0
  {
    if |arcs| > 0 {
      ZeroNet(arcs[..|arcs| - 1], flow[..|arcs| - 1], v);
    }
  }
}
