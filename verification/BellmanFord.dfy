// The deterministic Bellman-Ford pass of _minimum_cost_flow, on its three arrays.
module BellmanFord {
  import opened ShortestPaths

  method Record(distances: array<int>, previousNode: array<int>, previousEdge: array<int>, target: nat, distance: int,
                node: nat, edgeIndex: nat)
    requires distances != previousNode && distances != previousEdge && previousNode != previousEdge
    requires target < distances.Length == previousNode.Length == previousEdge.Length
    modifies distances, previousNode, previousEdge
    ensures distances[..] == old(distances[..])[target := distance]
    ensures previousNode[..] == old(previousNode[..])[target := node]
    ensures previousEdge[..] == old(previousEdge[..])[target := edgeIndex]
  {
    distances[target] := distance;
    previousNode[target] := node;
    previousEdge[target] := edgeIndex;
  }

  // The state of a pass: the arrays are a valid labelling and the edges before (u, i) have been relaxed.
  ghost predicate Passing<T>(adj: Adjacency<T>, s: nat, p: seq<int>, c: nat, d0: seq<int>, L: Labels, u: int, i: int) {
    Labelled(adj, s, p, c, L.distance, L.node, L.edge) && Swept(adj, d0, L.distance, u, i)
  }

  lemma PassShape<T>(adj: Adjacency<T>, s: nat, p: seq<int>, c: nat, d0: seq<int>, L: Labels, u: nat, i: nat)
    requires Passing(adj, s, p, c, d0, L, u, i)
    ensures |L.distance| == |L.node| == |L.edge| == |adj| && InRange(adj)
  {
  }

  // What relaxing one edge does to the arrays.
  lemma EdgeEffect<T>(adj: Adjacency<T>, c: nat, L: Labels, u: nat, i: nat)
    requires InRange(adj) && |L.distance| == |L.node| == |L.edge| == |adj| && u < |adj| && i < |adj[u]|
    requires forall v :: 0 <= v < |adj| ==> L.distance[v] <= INFINITY
    requires L.distance[u] != INFINITY
    ensures adj[u][i].to < |adj|
    ensures if adj[u][i].capacity > 0 && L.distance[u] + adj[u][i].cost < L.distance[adj[u][i].to] then
              var v := adj[u][i].to;
              RelaxEdge(adj, L, u, i) ==
                Labels(L.distance[v := L.distance[u] + adj[u][i].cost], L.node[v := u], L.edge[v := i])
            else RelaxEdge(adj, L, u, i) == L
    ensures RelaxEdge(adj, L, u, i).distance[u] != INFINITY
  {
  }

  lemma PassCapped<T>(adj: Adjacency<T>, s: nat, p: seq<int>, c: nat, d0: seq<int>, L: Labels, u: nat, i: nat)
    requires Passing(adj, s, p, c, d0, L, u, i)
    ensures |L.distance| == |adj| && forall v :: 0 <= v < |adj| ==> L.distance[v] <= INFINITY
  {
  }

  lemma SweepOne<T>(adj: Adjacency<T>, d0: seq<int>, d: seq<int>, u: nat, i: nat)
    requires Swept(adj, d0, d, u, i) && Usable(adj, u, i) && d[u] + adj[u][i].cost < d[adj[u][i].to]
    ensures Swept(adj, d0, d[adj[u][i].to := d[u] + adj[u][i].cost], u, i + 1)
  {
  }

  lemma SweepSkip<T>(adj: Adjacency<T>, d0: seq<int>, d: seq<int>, u: nat, i: nat)
    requires Swept(adj, d0, d, u, i) && u < |adj| && i < |adj[u]|
    requires adj[u][i].capacity <= 0 || d[u] + adj[u][i].cost >= d[adj[u][i].to]
    ensures Swept(adj, d0, d, u, i + 1)
  {
  }

  lemma PassImproved<T>(adj: Adjacency<T>, s: nat, p: seq<int>, c: nat, d0: seq<int>, L: Labels, u: nat, i: nat)
    requires NoLoss(adj, p) && BelowInfinity(adj, c) && Passing(adj, s, p, c, d0, L, u, i)
    requires |L.distance| == |L.node| == |L.edge| == |adj| && InRange(adj) && Usable(adj, u, i)
    requires L.distance[u] != INFINITY && L.distance[u] + adj[u][i].cost < L.distance[adj[u][i].to]
    ensures var v := adj[u][i].to;
            Passing(adj, s, p, c, d0,
                    Labels(L.distance[v := L.distance[u] + adj[u][i].cost], L.node[v := u], L.edge[v := i]), u, i + 1)
  {
    hide Labelled, Swept, NoLoss, BelowInfinity;
    Relax(adj, s, p, c, L.distance, L.node, L.edge, u, i);
    SweepOne(adj, d0, L.distance, u, i);
  }

  lemma PassEdge<T>(adj: Adjacency<T>, s: nat, p: seq<int>, c: nat, d0: seq<int>, L: Labels, u: nat, i: nat)
    requires NoLoss(adj, p) && BelowInfinity(adj, c) && Passing(adj, s, p, c, d0, L, u, i)
    requires |L.distance| == |L.node| == |L.edge| == |adj| && InRange(adj)
    requires u < |adj| && i < |adj[u]| && L.distance[u] != INFINITY
    requires forall v :: 0 <= v < |adj| ==> L.distance[v] <= INFINITY
    ensures Passing(adj, s, p, c, d0, RelaxEdge(adj, L, u, i), u, i + 1)
  {
    EdgeEffect(adj, c, L, u, i);
    if adj[u][i].capacity > 0 && L.distance[u] + adj[u][i].cost < L.distance[adj[u][i].to] {
      hide Passing, RelaxEdge, NoLoss, BelowInfinity;
      PassImproved(adj, s, p, c, d0, L, u, i);
    } else {
      hide Labelled, Swept, RelaxEdge, NoLoss, BelowInfinity;
      SweepSkip(adj, d0, L.distance, u, i);
    }
  }

  // One adjacency list: the inner loop over the edges of one node.
  method RelaxNode<T>(adj: Adjacency<T>, source: nat, node: nat, distances: array<int>, previousNode: array<int>,
                      previousEdge: array<int>, ghost p: seq<int>, ghost c: nat, ghost d0: seq<int>)
    returns (changed: bool)
    requires NoLoss(adj, p) && BelowInfinity(adj, c) && node < |adj|
    requires distances != previousNode && distances != previousEdge && previousNode != previousEdge
    requires distances.Length == previousNode.Length == previousEdge.Length == |adj|
    requires Passing(adj, source, p, c, d0, Labels(distances[..], previousNode[..], previousEdge[..]), node, 0)
    requires distances[node] != INFINITY
    modifies distances, previousNode, previousEdge
    ensures var L := Labels(distances[..], previousNode[..], previousEdge[..]);
            && Passing(adj, source, p, c, d0, L, node, |adj[node]|)
            && L == RelaxEdges(adj, old(Labels(distances[..], previousNode[..], previousEdge[..])), node, |adj[node]|)
            && (!changed ==> L == old(Labels(distances[..], previousNode[..], previousEdge[..])))
  {
    hide Passing, NoLoss, BelowInfinity, RelaxEdge, InRange;
    ghost var start := Labels(distances[..], previousNode[..], previousEdge[..]);
    ghost var L := start;
    changed := false;
    var edgeIndex := 0;
    while edgeIndex < |adj[node]|
      invariant edgeIndex <= |adj[node]|
      invariant L == Labels(distances[..], previousNode[..], previousEdge[..])
      invariant Passing(adj, source, p, c, d0, L, node, edgeIndex)
      invariant L == RelaxEdges(adj, start, node, edgeIndex)
      invariant distances[node] != INFINITY
      invariant !changed ==> L == start
    {
      PassShape(adj, source, p, c, d0, L, node, edgeIndex);
      PassCapped(adj, source, p, c, d0, L, node, edgeIndex);
      PassEdge(adj, source, p, c, d0, L, node, edgeIndex);
      EdgeEffect(adj, c, L, node, edgeIndex);
      var edge := adj[node][edgeIndex];
      if edge.capacity > 0 {
        var candidateDistance := distances[node] + edge.cost;
        if candidateDistance < distances[edge.to] {
          Record(distances, previousNode, previousEdge, edge.to, candidateDistance, node, edgeIndex);
          changed := true;
        }
      }
      L := RelaxEdge(adj, L, node, edgeIndex);
      edgeIndex := edgeIndex + 1;
    }
  }

  lemma PassNode<T>(adj: Adjacency<T>, s: nat, p: seq<int>, c: nat, d0: seq<int>, L: Labels, u: nat)
    requires u < |adj| && Passing(adj, s, p, c, d0, L, u, |adj[u]|)
    ensures Passing(adj, s, p, c, d0, L, u + 1, 0)
  {
  }

  lemma PassUnreached<T>(adj: Adjacency<T>, s: nat, p: seq<int>, c: nat, d0: seq<int>, L: Labels, u: nat)
    requires Passing(adj, s, p, c, d0, L, u, 0) && u < |adj| && L.distance[u] == INFINITY
    requires forall v :: 0 <= v < |d0| ==> d0[v] <= INFINITY
    ensures Passing(adj, s, p, c, d0, L, u + 1, 0)
  {
  }

  lemma PassStart<T>(adj: Adjacency<T>, s: nat, p: seq<int>, c: nat, L: Labels)
    requires NoLoss(adj, p) && Labelled(adj, s, p, c, L.distance, L.node, L.edge)
    ensures Passing(adj, s, p, c, L.distance, L, 0, 0)
    ensures |L.distance| == |L.node| == |L.edge| == |adj|
    ensures forall v :: 0 <= v < |L.distance| ==> L.distance[v] <= INFINITY
  {
  }

  lemma PassEnd<T>(adj: Adjacency<T>, s: nat, p: seq<int>, c: nat, d0: seq<int>, L: Labels)
    requires Passing(adj, s, p, c, d0, L, |adj|, 0)
    ensures Labelled(adj, s, p, c, L.distance, L.node, L.edge)
    ensures Swept(adj, d0, L.distance, |adj|, 0)
  {
  }

  // One round over all nodes.
  method RelaxAll<T>(adj: Adjacency<T>, source: nat, distances: array<int>, previousNode: array<int>,
                     previousEdge: array<int>, ghost p: seq<int>, ghost c: nat) returns (changed: bool)
    requires NoLoss(adj, p) && BelowInfinity(adj, c)
    requires distances != previousNode && distances != previousEdge && previousNode != previousEdge
    requires Labelled(adj, source, p, c, distances[..], previousNode[..], previousEdge[..])
    modifies distances, previousNode, previousEdge
    ensures Labelled(adj, source, p, c, distances[..], previousNode[..], previousEdge[..])
    ensures Swept(adj, old(distances[..]), distances[..], |adj|, 0)
    ensures var L, before := Labels(distances[..], previousNode[..], previousEdge[..]),
                             old(Labels(distances[..], previousNode[..], previousEdge[..]));
            L == RelaxNodes(adj, before, |adj|) && (!changed ==> L == before)
  {
    hide Passing, NoLoss, BelowInfinity, RelaxEdges, Labelled, Swept;
    ghost var start := Labels(distances[..], previousNode[..], previousEdge[..]);
    ghost var L := start;
    ghost var d0 := start.distance;
    changed := false;
    var node := 0;
    PassStart(adj, source, p, c, start);
    while node < |adj|
      invariant node <= |adj|
      invariant L == Labels(distances[..], previousNode[..], previousEdge[..])
      invariant Passing(adj, source, p, c, d0, L, node, 0)
      invariant L == RelaxNodes(adj, start, node)
      invariant !changed ==> L == start
    {
      if distances[node] != INFINITY {
        var improved := RelaxNode(adj, source, node, distances, previousNode, previousEdge, p, c, d0);
        changed := changed || improved;
        L := Labels(distances[..], previousNode[..], previousEdge[..]);
        PassNode(adj, source, p, c, d0, L, node);
      } else {
        PassUnreached(adj, source, p, c, d0, L, node);
      }
      node := node + 1;
    }
    PassEnd(adj, source, p, c, d0, L);
  }

  lemma UnchangedSettles<T>(adj: Adjacency<T>, d: seq<int>)
    requires Swept(adj, d, d, |adj|, 0)
    ensures Settled(adj, d)
  {
  }

  // Distances that can no longer be improved, with predecessors that explain them. Stopping after a
  // round without changes gives the same arrays as running all the rounds.
  method Distances<T>(adj: Adjacency<T>, source: nat, ghost p: seq<int>, ghost c: nat)
    returns (distances: array<int>, previousNode: array<int>, previousEdge: array<int>)
    requires NoLoss(adj, p) && BelowInfinity(adj, c) && source < |adj|
    ensures fresh(distances) && fresh(previousNode) && fresh(previousEdge)
    ensures Labelled(adj, source, p, c, distances[..], previousNode[..], previousEdge[..])
    ensures Settled(adj, distances[..])
    ensures Labels(distances[..], previousNode[..], previousEdge[..]) == AllRounds(adj, source)
  {
    hide Labelled, NoLoss, BelowInfinity, BeatsWalks, RelaxNodes, Settled, Swept;
    var nodeCount := |adj|;
    distances := new int[nodeCount](_ => INFINITY);
    previousNode := new int[nodeCount](_ => -1);
    previousEdge := new int[nodeCount](_ => -1);
    distances[source] := 0;
    Start(adj, source, p, c, distances[..], previousNode[..], previousEdge[..]);
    ghost var initial := InitialLabels(|adj|, source);
    assert Labels(distances[..], previousNode[..], previousEdge[..]) == initial;

    var round := 0;
    while round < nodeCount - 1
      invariant 0 <= round <= nodeCount - 1
      invariant fresh(distances) && fresh(previousNode) && fresh(previousEdge)
      invariant distances != previousNode && distances != previousEdge && previousNode != previousEdge
      invariant Labelled(adj, source, p, c, distances[..], previousNode[..], previousEdge[..])
      invariant BeatsWalks(adj, source, distances[..], round)
      invariant Labels(distances[..], previousNode[..], previousEdge[..]) == Rounds(adj, initial, round)
    {
      ghost var d0 := distances[..];
      var changed := RelaxAll(adj, source, distances, previousNode, previousEdge, p, c);
      if !changed {
        RoundsStay(adj, initial, round, nodeCount - 1);
        UnchangedSettles(adj, d0);
        return;
      }
      RoundDone(adj, source, p, c, d0, distances[..], round);
      round := round + 1;
    }
    LastRoundSettles(adj, source, p, c, distances[..], previousNode[..], previousEdge[..]);
  }

  lemma Start<T>(adj: Adjacency<T>, s: nat, p: seq<int>, c: nat, d: seq<int>, pn: seq<int>, pe: seq<int>)
    requires NoLoss(adj, p) && s < |adj| && Shaped(adj, d, pn, pe)
    requires d[s] == 0 && forall v :: 0 <= v < |d| && v != s ==> d[v] == INFINITY
    ensures Labelled(adj, s, p, c, d, pn, pe) && BeatsWalks(adj, s, d, 0)
  {
    assert IsChain(pn, s, s, [s]);
    assert Reached(d) == {s};
  }
}
