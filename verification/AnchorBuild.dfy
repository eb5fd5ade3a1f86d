// Building the allocation graph with _add_flow_edge, link by link.
module AnchorBuild {
  import opened Network
  import opened ShortestPaths
  import opened FlowGraphs
  import opened MinimumCostFlow
  import opened Anchors
  import opened AnchorNetwork
  import opened AnchorGraph
  import opened AnchorDecision

  // The graph holds exactly the arcs of the links added so far, and no flow.
  ghost predicate Holds(graph: FlowGraph<Candidate>, r: Ranking, index: map<NodeKey, nat>, links: seq<Link>)
    reads graph
  {
    && graph.Valid() && EndsKnown(index, links)
    && graph.image.arcs == Arcs(r, index, links)
    && graph.image.flow == seq(|links|, _ => 0)
    && Listed(graph.adj, Arcs(r, index, links))
  }

  ghost predicate Listed(adj: Adjacency<Candidate>, arcs: seq<Arc<Candidate>>) {
    InNodes(arcs, |adj|) && adj == AdjacencyOf(|adj|, arcs)
  }

  lemma ListedNext(adj: Adjacency<Candidate>, arcs: seq<Arc<Candidate>>, arc: Arc<Candidate>)
    requires Listed(adj, arcs) && arc.tail < |adj| && arc.head < |adj|
    ensures Listed(WithEdge(adj, arc.tail, arc.head, arc.capacity, arc.cost, arc.candidate), arcs + [arc])
  {
    assert (arcs + [arc])[..|arcs|] == arcs;
  }

  method AddLink(graph: FlowGraph<Candidate>, r: Ranking, index: map<NodeKey, nat>, ghost keys: seq<NodeKey>,
                 ghost links: seq<Link>, l: Link)
    requires Indexes(keys, index) && |graph.adj| == |keys| && Holds(graph, r, index, links)
    requires TailOf(l) in index && HeadOf(l) in index
    modifies graph
    ensures |graph.adj| == |keys| && Holds(graph, r, index, links + [l])
  {
    assert TailOf(l) != HeadOf(l);
    assert index[TailOf(l)] != index[HeadOf(l)];
    ListedNext(graph.adj, graph.image.arcs, ArcOf(r, index, l));
    graph.AddFlowEdge(index[TailOf(l)], index[HeadOf(l)], CapacityOf(l), LinkCost(r, l), CandidateOf(l));
    assert Arcs(r, index, links + [l]) == Arcs(r, index, links) + [ArcOf(r, index, l)];
    assert graph.image.flow == seq(|links + [l]|, _ => 0);
  }

  method AddStrata(graph: FlowGraph<Candidate>, r: Ranking, index: map<NodeKey, nat>, ghost keys: seq<NodeKey>,
                   ghost base: seq<Link>, cell: Cell, strata: seq<Stratum>)
    requires Indexes(keys, index) && |graph.adj| == |keys| && Holds(graph, r, index, base)
    requires forall j, m :: 0 <= j < |strata| && 0 <= m < 4 ==>
      TailOf(Marginal(Bin(cell, strata[j]), m)) in index && HeadOf(Marginal(Bin(cell, strata[j]), m)) in index
    modifies graph
    ensures |graph.adj| == |keys| && Holds(graph, r, index, base + StrataLinks(cell, strata))
  {
    hide Holds, Indexes, TailOf, HeadOf;
    assert base + StrataLinks(cell, strata[..0]) == base;
    for j := 0 to |strata|
      invariant |graph.adj| == |keys| && Holds(graph, r, index, base + StrataLinks(cell, strata[..j]))
    {
      var bin := Bin(cell, strata[j]);
      ghost var links := base + StrataLinks(cell, strata[..j]);
      assert links + BinLinks(bin)[..0] == links;
      for m := 0 to ANCHORS_PER_CELL
        invariant |graph.adj| == |keys| && Holds(graph, r, index, links + BinLinks(bin)[..m])
      {
        AddLink(graph, r, index, keys, links + BinLinks(bin)[..m], Marginal(bin, m));
        assert links + BinLinks(bin)[..m] + [Marginal(bin, m)] == links + BinLinks(bin)[..m + 1];
      }
      assert strata[..j + 1][..j] == strata[..j];
      assert links + BinLinks(bin)[..4] == base + StrataLinks(cell, strata[..j + 1]);
    }
    assert strata[..|strata|] == strata;
  }

  method AddChoices(graph: FlowGraph<Candidate>, r: Ranking, index: map<NodeKey, nat>, ghost keys: seq<NodeKey>,
                    ghost base: seq<Link>, pool: seq<Candidate>)
    requires Indexes(keys, index) && |graph.adj| == |keys| && Holds(graph, r, index, base)
    requires forall i :: 0 <= i < |pool| ==> TailOf(Choice(pool[i])) in index && HeadOf(Choice(pool[i])) in index
    modifies graph
    ensures |graph.adj| == |keys| && Holds(graph, r, index, base + ChoiceLinks(pool))
  {
    hide Holds, Indexes, TailOf, HeadOf;
    assert base + ChoiceLinks(pool)[..0] == base;
    for i := 0 to |pool|
      invariant |graph.adj| == |keys| && Holds(graph, r, index, base + ChoiceLinks(pool)[..i])
    {
      AddLink(graph, r, index, keys, base + ChoiceLinks(pool)[..i], Choice(pool[i]));
      assert base + ChoiceLinks(pool)[..i] + [Choice(pool[i])] == base + ChoiceLinks(pool)[..i + 1];
    }
    assert ChoiceLinks(pool)[..|pool|] == ChoiceLinks(pool);
  }

  method AddCell(graph: FlowGraph<Candidate>, r: Ranking, index: map<NodeKey, nat>, P: Pools, c: nat)
    requires PoolsOk(P) && c < |P.cells| && Indexes(NodeKeys(P), index)
    requires |graph.adj| == |NodeKeys(P)| && Holds(graph, r, index, LinksUpTo(P, c))
    modifies graph
    ensures |graph.adj| == |NodeKeys(P)| && Holds(graph, r, index, LinksUpTo(P, c + 1))
  {
    hide Holds, Indexes, NodeKeys, PoolsOk, StrataLinks, ChoiceLinks, TailOf, HeadOf;
    ghost var keys, base := NodeKeys(P), LinksUpTo(P, c);
    var cell := P.cells[c];
    CellEndsKnown(P, index, c);
    AddLink(graph, r, index, keys, base, Supply(cell));
    AddStrata(graph, r, index, keys, base + [Supply(cell)], cell, P.strata[c]);
    AddChoices(graph, r, index, keys, base + [Supply(cell)] + StrataLinks(cell, P.strata[c]), P.pool[c]);
    assert base + [Supply(cell)] + StrataLinks(cell, P.strata[c]) + ChoiceLinks(P.pool[c]) == LinksUpTo(P, c + 1);
  }

  lemma CellEndsKnown(P: Pools, index: map<NodeKey, nat>, c: nat)
    requires PoolsOk(P) && c < |P.cells| && Indexes(NodeKeys(P), index)
    ensures TailOf(Supply(P.cells[c])) in index && HeadOf(Supply(P.cells[c])) in index
    ensures |P.strata| == |P.pool| == |P.cells|
    ensures forall j, m :: 0 <= j < |P.strata[c]| && 0 <= m < 4 ==>
      var l := Marginal(Bin(P.cells[c], P.strata[c][j]), m); TailOf(l) in index && HeadOf(l) in index
    ensures forall i :: 0 <= i < |P.pool[c]| ==>
            TailOf(Choice(P.pool[c][i])) in index && HeadOf(Choice(P.pool[c][i])) in index
  {
    forall l | Fits(P, l)
      ensures TailOf(l) in index && HeadOf(l) in index
    {
      LinkEnds(P, l);
    }
    assert Fits(P, Supply(P.cells[c]));
    forall j, m | 0 <= j < |P.strata[c]| && 0 <= m < 4
      ensures Fits(P, Marginal(Bin(P.cells[c], P.strata[c][j]), m))
    {
      InBinsUpTo(P, |P.cells|, Bin(P.cells[c], P.strata[c][j]));
    }
    forall i | 0 <= i < |P.pool[c]|
      ensures Fits(P, Choice(P.pool[c][i]))
    {
      InAllUpTo(P, |P.cells|, P.pool[c][i]);
      assert P.pool[c][i] in P.pool[c];
    }
  }

  method AddTraces(graph: FlowGraph<Candidate>, r: Ranking, index: map<NodeKey, nat>, P: Pools)
    requires PoolsOk(P) && Indexes(NodeKeys(P), index)
    requires |graph.adj| == |NodeKeys(P)| && Holds(graph, r, index, LinksUpTo(P, |P.cells|))
    modifies graph
    ensures |graph.adj| == |NodeKeys(P)| && Holds(graph, r, index, Links(P))
  {
    hide Holds, Indexes, NodeKeys;
    ghost var keys := NodeKeys(P);
    ghost var base := LinksUpTo(P, |P.cells|);
    TraceEndsKnown(P, index);
    assert base + UseLinks(P.traces)[..0] == base;
    for i := 0 to |P.traces|
      invariant |graph.adj| == |keys| && Holds(graph, r, index, base + UseLinks(P.traces)[..i])
    {
      var l := Use(P.traces[i]);
      AddLink(graph, r, index, keys, base + UseLinks(P.traces)[..i], l);
      assert base + UseLinks(P.traces)[..i] + [l] == base + UseLinks(P.traces)[..i + 1];
    }
    assert base + UseLinks(P.traces)[..|P.traces|] == Links(P);
  }

  lemma TraceEndsKnown(P: Pools, index: map<NodeKey, nat>)
    requires PoolsOk(P) && Indexes(NodeKeys(P), index)
    ensures forall i :: 0 <= i < |P.traces| ==> TailOf(Use(P.traces[i])) in index && HeadOf(Use(P.traces[i])) in index
  {
    forall i | 0 <= i < |P.traces|
      ensures TailOf(Use(P.traces[i])) in index && HeadOf(Use(P.traces[i])) in index
    {
      LinkEnds(P, Use(P.traces[i]));
    }
  }

  method NodeIndex(P: Pools) returns (index: map<NodeKey, nat>)
    requires PoolsOk(P)
    ensures Indexes(NodeKeys(P), index)
    ensures Setting(P, index, |NodeKeys(P)|)
  {
    var nodeKeys := NodeKeys(P);
    KeysDistinct(P);
    index := map i | 0 <= i < |nodeKeys| :: nodeKeys[i] := i;
    LinksEndsKnown(P, index);
  }

  method EmptyGraph(r: Ranking, index: map<NodeKey, nat>, n: nat) returns (graph: FlowGraph<Candidate>)
    ensures fresh(graph) && |graph.adj| == n && Holds(graph, r, index, [])
  {
    graph := new FlowGraph<Candidate>(n);
  }

  method BuildGraph(r: Ranking, P: Pools) returns (graph: FlowGraph<Candidate>, index: map<NodeKey, nat>)
    requires PoolsOk(P)
    ensures fresh(graph) && Setting(P, index, |graph.adj|)
    ensures Holds(graph, r, index, Links(P))
  {
    hide Setting, NodeKeys, Holds, PoolsOk, Indexes;
    index := NodeIndex(P);
    graph := EmptyGraph(r, index, |NodeKeys(P)|);
    for c := 0 to |P.cells|
      invariant fresh(graph) && |graph.adj| == |NodeKeys(P)| && Holds(graph, r, index, LinksUpTo(P, c))
    {
      AddCell(graph, r, index, P, c);
    }
    AddTraces(graph, r, index, P);
  }
}
