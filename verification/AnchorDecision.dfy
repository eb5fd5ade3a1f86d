// What a cheapest flow, or a largest flow that falls short, decides about allocations.
module AnchorDecision {
  import opened Sums
  import opened Network
  import opened Anchors
  import opened AnchorNetwork
  import opened AnchorFlows
  import opened AnchorGraph

  function ArcOf(r: Ranking, index: map<NodeKey, nat>, l: Link): Arc<Candidate>
    requires TailOf(l) in index && HeadOf(l) in index
  {
    Arc(index[TailOf(l)], index[HeadOf(l)], CapacityOf(l), LinkCost(r, l), CandidateOf(l))
  }

  ghost predicate EndsKnown(index: map<NodeKey, nat>, links: seq<Link>) {
    forall k :: 0 <= k < |links| ==> TailOf(links[k]) in index && HeadOf(links[k]) in index
  }

  ghost function Arcs(r: Ranking, index: map<NodeKey, nat>, links: seq<Link>): seq<Arc<Candidate>>
    requires EndsKnown(index, links)
  {
    seq(|links|, k requires 0 <= k < |links| => ArcOf(r, index, links[k]))
  }

  lemma LinksEndsKnown(P: Pools, index: map<NodeKey, nat>)
    requires PoolsOk(P) && Indexes(NodeKeys(P), index)
    ensures EndsKnown(index, Links(P))
    ensures SourceNode in index && SinkNode in index
  {
    KeyMembers(P);
    forall k | 0 <= k < |Links(P)|
      ensures TailOf(Links(P)[k]) in index && HeadOf(Links(P)[k]) in index
    {
      var l := Links(P)[k];
      InLinks(P, l);
      LinkEnds(P, l);
      assert TailOf(l) in NodeKeys(P) && HeadOf(l) in NodeKeys(P);
    }
  }

  lemma LinkEnds(P: Pools, l: Link)
    requires PoolsOk(P) && Fits(P, l)
    ensures TailOf(l) in NodeKeys(P) && HeadOf(l) in NodeKeys(P)
  {
    KeyMembers(P);
    match l
    case Supply(_) =>
    case Marginal(b, _) => InBinsUpTo(P, |P.cells|, b);
    case Choice(x) => BinOfPooled(P, x);
    case Use(_) =>
  }

  // --- Numbered flows are flows on links ---

  ghost predicate Carries(links: seq<Link>, flow: seq<int>, F: Link -> int) {
    |flow| == |links| && forall k :: 0 <= k < |links| ==> flow[k] == F(links[k])
  }

  ghost function LinkFlow(links: seq<Link>, flow: seq<int>): Link -> int
    requires |flow| == |links|
  {
    (l: Link) => FlowAt(links, flow, l)
  }

  ghost function FlowAt(links: seq<Link>, flow: seq<int>, l: Link): int
    requires |flow| == |links|
  {
    if k :| 0 <= k < |links| && links[k] == l then flow[k] else 0
  }

  lemma LinkFlowCarries(links: seq<Link>, flow: seq<int>)
    requires |flow| == |links| && Distinct(links)
    ensures Carries(links, flow, LinkFlow(links, flow))
  {
    forall k | 0 <= k < |links|
      ensures flow[k] == LinkFlow(links, flow)(links[k])
    {
      assert LinkFlow(links, flow)(links[k]) == FlowAt(links, flow, links[k]);
    }
  }

  lemma {:induction false} NetByKey(r: Ranking, keys: seq<NodeKey>, index: map<NodeKey, nat>, links: seq<Link>,
                                    flow: seq<int>, F: Link -> int, key: NodeKey)
    requires Indexes(keys, index) && EndsKnown(index, links) && Carries(links, flow, F) && key in index
    ensures Net(Arcs(r, index, links), flow, index[key]) == Sum(links, Contribution(F, key))
  {
    if |links| > 0 {
      var front, last := links[..|links| - 1], links[|links| - 1];
      NetByKey(r, keys, index, front, flow[..|links| - 1], F, key);
      assert Arcs(r, index, links)[..|links| - 1] == Arcs(r, index, front);
      assert Contribution(F, key)(last) == NetAt(F, key, last);
    }
  }

  lemma {:induction false} CostByLink(r: Ranking, index: map<NodeKey, nat>, links: seq<Link>, flow: seq<int>,
                                      F: Link -> int)
    requires EndsKnown(index, links) && Carries(links, flow, F)
    ensures Cost(Arcs(r, index, links), flow) == Sum(links, Priced(r, F))
  {
    if |links| > 0 {
      var front, last := links[..|links| - 1], links[|links| - 1];
      CostByLink(r, index, front, flow[..|links| - 1], F);
      assert Arcs(r, index, links)[..|links| - 1] == Arcs(r, index, front);
      assert Priced(r, F)(last) == F(last) * LinkCost(r, last);
    }
  }

  // --- Both directions at once ---

  ghost predicate Setting(P: Pools, index: map<NodeKey, nat>, n: nat) {
    && PoolsOk(P) && Indexes(NodeKeys(P), index) && n == |NodeKeys(P)|
    && EndsKnown(index, Links(P)) && SourceNode in index && SinkNode in index
  }

  lemma BoundedFits(P: Pools, r: Ranking, index: map<NodeKey, nat>, n: nat, flow: seq<int>, F: Link -> int, l: Link)
    requires Setting(P, index, n) && Carries(Links(P), flow, F)
    requires Bounded(Arcs(r, index, Links(P)), flow) && Fits(P, l)
    ensures 0 <= F(l) <= CapacityOf(l)
  {
    InLinks(P, l);
    var k :| 0 <= k < |Links(P)| && Links(P)[k] == l;
    assert 0 <= flow[k] <= Arcs(r, index, Links(P))[k].capacity;
  }

  lemma CapacitiesOfLinks(P: Pools, r: Ranking, index: map<NodeKey, nat>, n: nat, flow: seq<int>, F: Link -> int)
    requires Setting(P, index, n) && Carries(Links(P), flow, F)
    ensures Bounded(Arcs(r, index, Links(P)), flow) <==> WithinCapacity(P, F)
  {
    var links, arcs := Links(P), Arcs(r, index, Links(P));
    hide Links, PoolsOk, Bins, All;
    if Bounded(arcs, flow) {
      forall c | c in P.cells { BoundedFits(P, r, index, n, flow, F, Supply(c)); }
      forall b, m: nat | b in Bins(P) && m < 4 { BoundedFits(P, r, index, n, flow, F, Marginal(b, m)); }
      forall x | x in All(P) { BoundedFits(P, r, index, n, flow, F, Choice(x)); }
      forall t | t in P.traces { BoundedFits(P, r, index, n, flow, F, Use(t)); }
    }
    if WithinCapacity(P, F) {
      forall k | 0 <= k < |arcs|
        ensures 0 <= flow[k] <= arcs[k].capacity
      {
        assert links[k] in links;
        InLinks(P, links[k]);
      }
    }
  }

  lemma FlowOfLinks(P: Pools, r: Ranking, index: map<NodeKey, nat>, n: nat, flow: seq<int>, F: Link -> int)
    requires Setting(P, index, n) && Carries(Links(P), flow, F)
    ensures IsFlow(Arcs(r, index, Links(P)), flow, n, index[SourceNode], index[SinkNode])
            <==> WithinCapacity(P, F) && Balanced(P, F)
    ensures Net(Arcs(r, index, Links(P)), flow, index[SourceNode]) == KeyNet(P, F, SourceNode)
    ensures Cost(Arcs(r, index, Links(P)), flow) == LinkTotal(P, r, F)
  {
    var links := Links(P);
    var keys := NodeKeys(P);
    CapacitiesOfLinks(P, r, index, n, flow, F);
    CostByLink(r, index, links, flow, F);
    KeyMembers(P);
    forall key | key in index
      ensures Net(Arcs(r, index, links), flow, index[key]) == KeyNet(P, F, key)
    {
      NetByKey(r, keys, index, links, flow, F, key);
    }
    NetsOfNodes(P, r, index, n, flow, F);
  }

  lemma IndexOfKey(P: Pools, index: map<NodeKey, nat>, n: nat, key: NodeKey)
    requires Setting(P, index, n) && key in NodeKeys(P)
    ensures key in index && index[key] < n && NodeKeys(P)[index[key]] == key
    ensures (index[key] == index[SourceNode] <==> key == SourceNode)
            && (index[key] == index[SinkNode] <==> key == SinkNode)
  {
    hide NodeKeys, PoolsOk, EndsKnown;
    var keys := NodeKeys(P);
    assert keys[index[key]] == key && keys[index[SourceNode]] == SourceNode && keys[index[SinkNode]] == SinkNode;
  }

  lemma KeyAtIndex(P: Pools, index: map<NodeKey, nat>, n: nat, v: nat)
    requires Setting(P, index, n) && v < n
    ensures v < |NodeKeys(P)| && NodeKeys(P)[v] in index && index[NodeKeys(P)[v]] == v && NodeKeys(P)[v] in NodeKeys(P)
  {
    hide NodeKeys, PoolsOk, EndsKnown;
  }

  // The keys where a balanced flow must have no net flow.
  ghost predicate Inner(P: Pools, F: Link -> int)
    requires PoolsOk(P)
  {
    forall key :: key in NodeKeys(P) && key != SourceNode && key != SinkNode ==> KeyNet(P, F, key) == 0
  }

  lemma BalancedInner(P: Pools, F: Link -> int)
    requires PoolsOk(P)
    ensures Balanced(P, F) <==> Inner(P, F)
  {
    hide KeyNet, NodeKeys, Bins;
    KeyMembers(P);
    if Balanced(P, F) {
      forall key | key in NodeKeys(P) && key != SourceNode && key != SinkNode
        ensures KeyNet(P, F, key) == 0
      {
        match key
        case SourceNode =>
        case SinkNode =>
        case CellNode(c) =>
        case BinNode(b) =>
        case TraceNode(t) =>
      }
    }
    if Inner(P, F) {
      forall c | c in P.cells ensures KeyNet(P, F, CellNode(c)) == 0 { assert CellNode(c) in NodeKeys(P); }
      forall b | b in Bins(P) ensures KeyNet(P, F, BinNode(b)) == 0 { assert BinNode(b) in NodeKeys(P); }
      forall t | t in P.traces ensures KeyNet(P, F, TraceNode(t)) == 0 { assert TraceNode(t) in NodeKeys(P); }
    }
  }

  lemma NetsOfNodes(P: Pools, r: Ranking, index: map<NodeKey, nat>, n: nat, flow: seq<int>, F: Link -> int)
    requires Setting(P, index, n) && Carries(Links(P), flow, F)
    requires forall key :: key in index ==> Net(Arcs(r, index, Links(P)), flow, index[key]) == KeyNet(P, F, key)
    ensures Conserves(Arcs(r, index, Links(P)), flow, n, index[SourceNode], index[SinkNode]) <==> Balanced(P, F)
  {
    var arcs, keys := Arcs(r, index, Links(P)), NodeKeys(P);
    BalancedInner(P, F);
    hide KeyNet, NodeKeys, Net, Balanced, Arcs, Links, Carries;
    if Conserves(arcs, flow, n, index[SourceNode], index[SinkNode]) {
      forall key | key in keys && key != SourceNode && key != SinkNode
        ensures KeyNet(P, F, key) == 0
      {
        IndexOfKey(P, index, n, key);
        assert Net(arcs, flow, index[key]) == 0;
      }
    }
    if Inner(P, F) {
      forall v | 0 <= v < n && v != index[SourceNode] && v != index[SinkNode]
        ensures Net(arcs, flow, v) == 0
      {
        KeyAtIndex(P, index, n, v);
        assert KeyNet(P, F, keys[v]) == 0;
      }
    }
  }

  ghost function FlowSeq(links: seq<Link>, F: Link -> int): seq<int> {
    seq(|links|, k requires 0 <= k < |links| => F(links[k]))
  }

  lemma {:induction false} TieTotalSmall(r: Ranking, xs: seq<Candidate>)
    ensures 0 <= TieTotal(r, xs) <= |xs| * MAX_TIE_COST
  {
    if |xs| > 0 {
      TieTotalSmall(r, xs[..|xs| - 1]);
      assert Tie(r)(xs[|xs| - 1]) == TieCost(r, xs[|xs| - 1]);
    }
  }

  // One unit of balance outweighs every possible tie total, so the weighted cost orders lexicographically.
  lemma WeightedIsLexicographic(r: Ranking, xs: seq<Candidate>, ys: seq<Candidate>)
    requires |xs| <= REQUIRED && |ys| <= REQUIRED
    ensures BALANCE_WEIGHT * SharedPairs(xs) + TieTotal(r, xs) <= BALANCE_WEIGHT * SharedPairs(ys) + TieTotal(r, ys)
            <==> NoWorse(r, xs, ys)
  {
    hide SharedPairs, TieTotal;
    TieTotalSmall(r, xs);
    TieTotalSmall(r, ys);
  }

  // Four per cell is 24 in six cells.
  lemma AllocationSize(cells: seq<Cell>, xs: seq<Candidate>)
    requires Distinct(cells) && forall x :: x in xs ==> CellOf(x) in cells
    requires forall c :: c in cells ==> CountCell(xs, c) == ANCHORS_PER_CELL
    ensures |xs| == ANCHORS_PER_CELL * |cells|
  {
    var w := (c: Cell, x: Candidate) => Ind(CellOf(x) == c);
    SumSwap(cells, xs, w);
    forall c | c in cells
      ensures RowSum(xs, w)(c) == ANCHORS_PER_CELL
    {
      SumExt(xs, Row(w, c), Ones(InCell(c)));
    }
    SumConstant(cells, ANCHORS_PER_CELL, RowSum(xs, w));
    forall x | x in xs
      ensures ColumnSum(cells, w)(x) == 1
    {
      SumPoint(cells, CellOf(x), Column(w, x));
    }
    SumConstant(xs, 1, ColumnSum(cells, w));
  }

  lemma PooledSize(P: Pools, xs: seq<Candidate>)
    requires PoolsOk(P) && PooledAllocation(P, xs)
    ensures |xs| == ANCHORS_PER_CELL * |P.cells|
  {
    forall x | x in xs
      ensures CellOf(x) in P.cells
    {
      BinOfPooled(P, x);
    }
    AllocationSize(P.cells, xs);
  }

  // A cheapest flow of full value selects a best allocation.
  lemma CheapestSelectsBest(P: Pools, r: Ranking, index: map<NodeKey, nat>, n: nat, flow: seq<int>, xs: seq<Candidate>)
    requires Setting(P, index, n) && |P.cells| == 6 && |flow| == |Links(P)|
    requires var arcs, s, t := Arcs(r, index, Links(P)), index[SourceNode], index[SinkNode];
             && IsFlow(arcs, flow, n, s, t) && Net(arcs, flow, s) == REQUIRED && Cheapest(arcs, flow, n, s, t)
    requires Chosen(P, LinkFlow(Links(P), flow), xs)
    ensures PooledAllocation(P, xs)
    ensures forall ys :: PooledAllocation(P, ys) ==> NoWorse(r, xs, ys)
  {
    var links, arcs := Links(P), Arcs(r, index, Links(P));
    var F := LinkFlow(links, flow);
    LinksDistinct(P);
    LinkFlowCarries(links, flow);
    FlowOfLinks(P, r, index, n, flow, F);
    FullValueAllocates(P, F, xs);
    forall ys | PooledAllocation(P, ys)
      ensures NoWorse(r, xs, ys)
    {
      var G := FlowOf(ys);
      var other := FlowSeq(links, G);
      FlowOfLinks(P, r, index, n, other, G);
      CarriedFlow(P, ys);
      CarriedValue(P, ys);
      assert Cost(arcs, flow) <= Cost(arcs, other);
      ChosenCost(P, r, F, xs);
      CarriedCost(P, r, ys);
      PooledSize(P, xs);
      PooledSize(P, ys);
      WeightedIsLexicographic(r, xs, ys);
    }
  }

  lemma FullValueAllocates(P: Pools, F: Link -> int, xs: seq<Candidate>)
    requires PoolsOk(P) && WithinCapacity(P, F) && Balanced(P, F) && Chosen(P, F, xs)
    requires KeyNet(P, F, SourceNode) == ANCHORS_PER_CELL * |P.cells|
    ensures PooledAllocation(P, xs)
  {
    ChosenTraces(P, F, xs);
    SourceNet(P, F);
    assert forall c :: OnSupplies(F)(c) == F(Supply(c));
    SumSaturated(P.cells, ANCHORS_PER_CELL, OnSupplies(F));
    forall c | c in P.cells
      ensures CountCell(xs, c) == ANCHORS_PER_CELL
    {
      ChosenCells(P, F, xs, c);
    }
  }

  // A largest flow below full value means there is no allocation at all.
  lemma ShortfallMeansNone(P: Pools, r: Ranking, index: map<NodeKey, nat>, n: nat, flow: seq<int>, ys: seq<Candidate>)
    requires Setting(P, index, n) && |P.cells| == 6 && |flow| == |Links(P)|
    requires var arcs, s, t := Arcs(r, index, Links(P)), index[SourceNode], index[SinkNode];
             Net(arcs, flow, s) < REQUIRED && Largest(arcs, flow, n, s, t)
    ensures !PooledAllocation(P, ys)
  {
    if PooledAllocation(P, ys) {
      var G := FlowOf(ys);
      FlowOfLinks(P, r, index, n, FlowSeq(Links(P), G), G);
      CarriedFlow(P, ys);
      CarriedValue(P, ys);
      assert false;
    }
  }
}
