// How dear paths may become before the solver's sentinel for "unreached" gets in the way.
module SentinelLimit {
  import opened Options
  import opened Network
  import opened ShortestPaths
  import opened FlowGraphs
  import opened MinimumCostFlow

  // One arc of cost c from each node to the next.
  function Line(n: nat, c: nat): seq<Arc<int>>
    requires n > 0
  {
    seq(n - 1, i requires 0 <= i < n - 1 => Arc(i, i + 1, 1, c, None))
  }

  // Usable edges go to the next node and cost c.
  ghost predicate StepsAhead(adj: Adjacency<int>, c: nat) {
    forall u, i :: Usable(adj, u, i) ==> adj[u][i].to == u + 1 && adj[u][i].cost == c
  }

  lemma {:induction false} LineStepsAhead(n: nat, arcs: seq<Arc<int>>, c: nat)
    requires InNodes(arcs, n) && forall a :: a in arcs ==> a.head == a.tail + 1 && a.cost == c
    ensures StepsAhead(AdjacencyOf(n, arcs), c)
    decreases |arcs|
  {
    if |arcs| > 0 {
      var front, last := arcs[..|arcs| - 1], arcs[|arcs| - 1];
      LineStepsAhead(n, front, c);
      assert last in arcs;
      OneAhead(AdjacencyOf(n, front), last, c);
    }
  }

  lemma OneAhead(adj: Adjacency<int>, a: Arc<int>, c: nat)
    requires StepsAhead(adj, c) && a.tail < |adj| && a.head < |adj| && a.head == a.tail + 1 && a.cost == c
    ensures StepsAhead(WithEdge(adj, a.tail, a.head, a.capacity, a.cost, a.candidate), c)
  {
    var next: Adjacency<int> := WithEdge(adj, a.tail, a.head, a.capacity, a.cost, a.candidate);
    forall u, i | Usable(next, u, i)
      ensures next[u][i].to == u + 1 && next[u][i].cost == c
    {
      if i < |adj[u]| {
        assert next[u][i] == adj[u][i];
        assert Usable(adj, u, i);
      }
    }
  }

  // Each reached node carries the cost of the whole way from node 0, below the sentinel.
  ghost predicate OnTheLine(L: Labels, n: nat, c: nat) {
    && |L.distance| == n
    && forall v :: 0 <= v < n ==> L.distance[v] == INFINITY || L.distance[v] == v * c < INFINITY
  }

  lemma LineEdge(adj: Adjacency<int>, L: Labels, u: nat, i: nat, c: nat)
    requires StepsAhead(adj, c) && OnTheLine(L, |adj|, c) && u < |adj| && L.distance[u] != INFINITY
    ensures OnTheLine(RelaxEdge(adj, L, u, i), |adj|, c) && RelaxEdge(adj, L, u, i).distance[u] != INFINITY
  {
    assert (u + 1) * c == u * c + c;
  }

  lemma {:induction false} LineEdges(adj: Adjacency<int>, L: Labels, u: nat, k: nat, c: nat)
    requires StepsAhead(adj, c) && OnTheLine(L, |adj|, c) && u < |adj| && L.distance[u] != INFINITY
    ensures OnTheLine(RelaxEdges(adj, L, u, k), |adj|, c) && RelaxEdges(adj, L, u, k).distance[u] != INFINITY
  {
    hide RelaxEdge;
    if k > 0 {
      LineEdges(adj, L, u, k - 1, c);
      LineEdge(adj, RelaxEdges(adj, L, u, k - 1), u, k - 1, c);
    }
  }

  lemma {:induction false} LineNodes(adj: Adjacency<int>, L: Labels, k: nat, c: nat)
    requires StepsAhead(adj, c) && OnTheLine(L, |adj|, c) && k <= |adj|
    ensures OnTheLine(RelaxNodes(adj, L, k), |adj|, c)
  {
    hide RelaxEdges;
    if k > 0 {
      LineNodes(adj, L, k - 1, c);
      var before := RelaxNodes(adj, L, k - 1);
      if before.distance[k - 1] != INFINITY {
        LineEdges(adj, before, k - 1, |adj[k - 1]|, c);
      }
    }
  }

  lemma {:induction false} LineRounds(adj: Adjacency<int>, k: nat, c: nat)
    requires StepsAhead(adj, c)
    ensures OnTheLine(Rounds(adj, InitialLabels(|adj|, 0), k), |adj|, c)
  {
    hide RelaxNodes;
    if k > 0 {
      LineRounds(adj, k - 1, c);
      LineNodes(adj, Rounds(adj, InitialLabels(|adj|, 0), k - 1), |adj|, c);
    }
  }

  // What a flow of one unit along the first m arcs does to each node.
  lemma {:induction false} LineNet(arcs: seq<Arc<int>>, unit: int, v: nat)
    requires forall i :: 0 <= i < |arcs| ==> arcs[i].tail == i && arcs[i].head == i + 1
    ensures Net(arcs, seq(|arcs|, _ => unit), v) ==
            if |arcs| == 0 then 0 else (if v == 0 then unit else 0) - (if v == |arcs| then unit else 0)
    decreases |arcs|
  {
    if |arcs| > 0 {
      var flow := seq(|arcs|, _ => unit);
      LineNet(arcs[..|arcs| - 1], unit, v);
      assert flow[..|arcs| - 1] == seq(|arcs| - 1, _ => unit);
    }
  }

  // Once a way through all nodes can cost 10^100, a line of them is left unused although it can carry a unit: the bound
  // (n - 1) * c < 10^100 that the solver asks for is the least that serves all graphs of n nodes with costs up to c.
  lemma DearLineUnused(n: nat, c: nat, required: int)
    requires n >= 2 && !PathsFit(n, c)
    ensures InNodes(Line(n, c), n) && PricesWithin(Line(n, c), c)
    ensures var adj, none := AdjacencyOf(n, Line(n, c)), seq(n - 1, _ => 0);
            && Solved(adj, 0, n - 1, required) == adj
            && IsFlow(Line(n, c), none, n, 0, n - 1) && !Largest(Line(n, c), none, n, 0, n - 1)
  {
    var arcs := Line(n, c);
    var adj, none, ones := AdjacencyOf(n, arcs), seq(n - 1, _ => 0), seq(n - 1, _ => 1);
    LineStepsAhead(n, arcs, c);
    LineRounds(adj, n - 1, c);
    forall v: nat
      ensures Net(arcs, none, v) == 0
      ensures Net(arcs, ones, v) == (if v == 0 then 1 else 0) - (if v == n - 1 then 1 else 0)
    {
      LineNet(arcs, 0, v);
      LineNet(arcs, 1, v);
    }
    assert IsFlow(arcs, ones, n, 0, n - 1);
  }
}
