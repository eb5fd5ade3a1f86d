// The solver's mutable residual graph and the list of arcs it stands for.
module FlowGraphs {
  import opened Options
  import opened Network
  import opened ShortestPaths

  // --- Adjacency lists as values ---

  // _add_flow_edge: both reverse indices are read before either edge is appended.
  ghost function WithEdge<T>(adj: Adjacency<T>, source: nat, target: nat, capacity: int, cost: int,
                             candidate: Option<T>): Adjacency<T>
    requires source < |adj| && target < |adj|
  {
    var forward := FlowEdge(target, |adj[target]|, capacity, cost, candidate);
    var backward := FlowEdge(source, |adj[source]|, 0, -cost, None);
    var appended := adj[source := adj[source] + [forward]];
    appended[target := appended[target] + [backward]]
  }

  // Each edge's reverse index leads to the edge whose reverse index leads back.
  ghost predicate Paired<T>(adj: Adjacency<T>) {
    forall u, i :: 0 <= u < |adj| && 0 <= i < |adj[u]| ==> PairedAt(adj, u, i)
  }

  ghost predicate PairedAt<T>(adj: Adjacency<T>, u: int, i: int)
    requires 0 <= u < |adj| && 0 <= i < |adj[u]|
  {
    var edge := adj[u][i];
    && edge.to < |adj| && edge.reverse < |adj[edge.to]|
    && adj[edge.to][edge.reverse].to == u && adj[edge.to][edge.reverse].reverse == i
  }

  // Adding an edge keeps the pairing exactly when it is not a loop: the two reverse indices of a
  // loop are both read before the first of its edges is appended, so they name the same slot.
  lemma PairingKeptUnlessLoop<T>(adj: Adjacency<T>, source: nat, target: nat, capacity: int, cost: int,
                                 candidate: Option<T>)
    requires source < |adj| && target < |adj| && Paired(adj)
    ensures Paired(WithEdge(adj, source, target, capacity, cost, candidate)) <==> source != target
  {
    var next: Adjacency<T> := WithEdge(adj, source, target, capacity, cost, candidate);
    if source == target {
      var n := |adj[source]|;
      assert |next[source]| == n + 2;
      assert !PairedAt(next, source, n + 1);
    } else {
      assert next[source] == adj[source] + [FlowEdge(target, |adj[target]|, capacity, cost, candidate)];
      assert next[target] == adj[target] + [FlowEdge(source, |adj[source]|, 0, -cost, None)];
      forall u, i | 0 <= u < |next| && 0 <= i < |next[u]|
        ensures PairedAt(next, u, i)
      {
        if i < |adj[u]| {
          assert PairedAt(adj, u, i);
          assert next[u][i] == adj[u][i];
        }
      }
    }
  }

  // One unit along edge (u, i): capacity moves to the paired edge.
  ghost function Push<T>(adj: Adjacency<T>, u: nat, i: nat): Adjacency<T>
    requires u < |adj| && i < |adj[u]|
    requires adj[u][i].to < |adj| && adj[u][i].reverse < |adj[adj[u][i].to]|
  {
    var edge := adj[u][i];
    var taken := adj[u := adj[u][i := edge.(capacity := edge.capacity - 1)]];
    var back := taken[edge.to][edge.reverse];
    taken[edge.to := taken[edge.to][edge.reverse := back.(capacity := back.capacity + 1)]]
  }

  // --- The arcs behind the lists ---

  datatype Owner = Owner(arc: nat, forward: bool)

  // The arcs added so far, the flow on each, and where their two edges sit.
  datatype Image<T> = Image(arcs: seq<Arc<T>>, flow: seq<int>, forwardAt: seq<nat>, backwardAt: seq<nat>,
                            owner: seq<seq<Owner>>)

  ghost predicate Shape<T>(adj: Adjacency<T>, im: Image<T>) {
    && |im.flow| == |im.arcs| == |im.forwardAt| == |im.backwardAt|
    && |im.owner| == |adj|
    && forall u :: 0 <= u < |adj| ==> |im.owner[u]| == |adj[u]|
  }

  ghost predicate ArcStored<T>(adj: Adjacency<T>, im: Image<T>, k: int)
    requires Shape(adj, im) && 0 <= k < |im.arcs|
  {
    var arc, f, b := im.arcs[k], im.forwardAt[k], im.backwardAt[k];
    && arc.tail < |adj| && arc.head < |adj| && arc.tail != arc.head
    && f < |adj[arc.tail]| && b < |adj[arc.head]|
    && adj[arc.tail][f] == FlowEdge(arc.head, b, arc.capacity - im.flow[k], arc.cost, arc.candidate)
    && adj[arc.head][b] == FlowEdge(arc.tail, f, im.flow[k], -arc.cost, None)
    && im.owner[arc.tail][f] == Owner(k, true)
    && im.owner[arc.head][b] == Owner(k, false)
  }

  ghost predicate EdgeOwned<T>(adj: Adjacency<T>, im: Image<T>, u: int, i: int)
    requires Shape(adj, im) && 0 <= u < |adj| && 0 <= i < |adj[u]|
  {
    var owner := im.owner[u][i];
    && owner.arc < |im.arcs|
    && u == (if owner.forward then im.arcs[owner.arc].tail else im.arcs[owner.arc].head)
    && i == (if owner.forward then im.forwardAt[owner.arc] else im.backwardAt[owner.arc])
  }

  // The lists hold one forward and one backward edge per arc, with the residual capacities of the flow, and nothing
  // else.
  ghost predicate Represents<T>(adj: Adjacency<T>, im: Image<T>) {
    && Shape(adj, im)
    && (forall k :: 0 <= k < |im.arcs| ==> ArcStored(adj, im, k))
    && (forall u, i :: 0 <= u < |adj| && 0 <= i < |adj[u]| ==> EdgeOwned(adj, im, u, i))
  }

  ghost function Extended<T>(adj: Adjacency<T>, im: Image<T>, arc: Arc<T>): Image<T>
    requires Shape(adj, im) && arc.tail < |adj| && arc.head < |adj|
  {
    var k := |im.arcs|;
    var owner := im.owner[arc.tail := im.owner[arc.tail] + [Owner(k, true)]];
    Image(im.arcs + [arc], im.flow + [0],
          im.forwardAt + [|adj[arc.tail]|], im.backwardAt + [|adj[arc.head]|],
          owner[arc.head := owner[arc.head] + [Owner(k, false)]])
  }

  lemma ExtendedRepresents<T>(adj: Adjacency<T>, im: Image<T>, arc: Arc<T>)
    requires Represents(adj, im) && arc.tail < |adj| && arc.head < |adj| && arc.tail != arc.head
    ensures Represents(WithEdge(adj, arc.tail, arc.head, arc.capacity, arc.cost, arc.candidate), Extended(adj, im, arc))
  {
    var next: Adjacency<T> := WithEdge(adj, arc.tail, arc.head, arc.capacity, arc.cost, arc.candidate);
    var im' := Extended(adj, im, arc);
    forall u | 0 <= u < |adj|
      ensures adj[u] <= next[u] && im.owner[u] <= im'.owner[u] && |im'.owner[u]| == |next[u]|
    {
    }
    forall k | 0 <= k < |im'.arcs|
      ensures ArcStored(next, im', k)
    {
      if k < |im.arcs| {
        assert ArcStored(adj, im, k);
      }
    }
    forall u, i | 0 <= u < |next| && 0 <= i < |next[u]|
      ensures EdgeOwned(next, im', u, i)
    {
      if i < |adj[u]| {
        assert EdgeOwned(adj, im, u, i);
      }
    }
  }

  ghost function Pushed<T>(adj: Adjacency<T>, im: Image<T>, u: nat, i: nat): (im': Image<T>)
    requires Represents(adj, im) && u < |adj| && i < |adj[u]|
    ensures im'.arcs == im.arcs && |im'.flow| == |im.arcs|
  {
    assert EdgeOwned(adj, im, u, i);
    var owner := im.owner[u][i];
    im.(flow := im.flow[owner.arc := im.flow[owner.arc] + (if owner.forward then 1 else -1)])
  }

  lemma EdgeEnds<T>(adj: Adjacency<T>, im: Image<T>, u: nat, i: nat)
    requires Represents(adj, im) && u < |adj| && i < |adj[u]|
    ensures adj[u][i].to < |adj| && adj[u][i].reverse < |adj[adj[u][i].to]| && adj[u][i].to != u
  {
    assert EdgeOwned(adj, im, u, i);
    assert ArcStored(adj, im, im.owner[u][i].arc);
  }

  lemma PushedRepresents<T>(adj: Adjacency<T>, im: Image<T>, u: nat, i: nat)
    requires Represents(adj, im) && u < |adj| && i < |adj[u]|
    ensures adj[u][i].to < |adj| && adj[u][i].reverse < |adj[adj[u][i].to]|
    ensures Represents(Push(adj, u, i), Pushed(adj, im, u, i))
  {
    EdgeEnds(adj, im, u, i);
    assert EdgeOwned(adj, im, u, i);
    var next: Adjacency<T> := Push(adj, u, i);
    var im' := Pushed(adj, im, u, i);
    var own := im.owner[u][i].arc;
    assert ArcStored(adj, im, own);
    forall k | 0 <= k < |im'.arcs|
      ensures ArcStored(next, im', k)
    {
      assert ArcStored(adj, im, k);
      if k != own {
        assert next[im.arcs[k].tail][im.forwardAt[k]] == adj[im.arcs[k].tail][im.forwardAt[k]];
        assert next[im.arcs[k].head][im.backwardAt[k]] == adj[im.arcs[k].head][im.backwardAt[k]];
      }
    }
    forall v, j | 0 <= v < |next| && 0 <= j < |next[v]|
      ensures EdgeOwned(next, im', v, j)
    {
      assert EdgeOwned(adj, im, v, j);
    }
  }

  // Pushing one unit moves one unit of net flow from u to the edge's end.
  lemma PushedNet<T>(adj: Adjacency<T>, im: Image<T>, u: nat, i: nat, v: nat)
    requires Represents(adj, im) && u < |adj| && i < |adj[u]|
    ensures Net(im.arcs, Pushed(adj, im, u, i).flow, v) ==
            Net(im.arcs, im.flow, v) + (if v == u then 1 else 0) - (if v == adj[u][i].to then 1 else 0)
  {
    assert EdgeOwned(adj, im, u, i);
    var owner := im.owner[u][i];
    assert ArcStored(adj, im, owner.arc);
    NetUpdate(im.arcs, im.flow, owner.arc, if owner.forward then 1 else -1, v);
  }

  lemma PushedBounded<T>(adj: Adjacency<T>, im: Image<T>, u: nat, i: nat)
    requires Represents(adj, im) && Usable(adj, u, i) && Bounded(im.arcs, im.flow)
    ensures Bounded(im.arcs, Pushed(adj, im, u, i).flow)
  {
    assert EdgeOwned(adj, im, u, i);
    assert ArcStored(adj, im, im.owner[u][i].arc);
  }

  // Pushing along an edge whose price is exact opens no loss-making edge.
  lemma PushedNoLoss<T>(adj: Adjacency<T>, im: Image<T>, p: seq<int>, u: nat, i: nat)
    requires Represents(adj, im) && NoLoss(adj, p) && Usable(adj, u, i)
    requires adj[u][i].cost + p[u] - p[adj[u][i].to] == 0
    ensures adj[u][i].reverse < |adj[adj[u][i].to]|
    ensures NoLoss(Push(adj, u, i), p)
  {
    EdgeEnds(adj, im, u, i);
    assert EdgeOwned(adj, im, u, i);
    assert ArcStored(adj, im, im.owner[u][i].arc);
    var next: Adjacency<T> := Push(adj, u, i);
    forall v, j | 0 <= v < |next| && 0 <= j < |next[v]|
      ensures next[v][j].to == adj[v][j].to && next[v][j].cost == adj[v][j].cost
      ensures (v, j) != (adj[u][i].to, adj[u][i].reverse) ==> next[v][j].capacity <= adj[v][j].capacity
    {
    }
    forall v, j | Usable(next, v, j)
      ensures next[v][j].cost + p[v] - p[next[v][j].to] >= 0
    {
      if (v, j) != (adj[u][i].to, adj[u][i].reverse) {
        assert Usable(adj, v, j);
      }
    }
  }

  lemma RepresentsInNodes<T>(adj: Adjacency<T>, im: Image<T>)
    requires Represents(adj, im)
    ensures InNodes(im.arcs, |adj|) && InRange(adj)
  {
    forall k | 0 <= k < |im.arcs|
      ensures im.arcs[k].tail < |adj| && im.arcs[k].head < |adj|
    {
      assert ArcStored(adj, im, k);
    }
    forall u, i | 0 <= u < |adj| && 0 <= i < |adj[u]|
      ensures adj[u][i].to < |adj|
    {
      EdgeEnds(adj, im, u, i);
    }
  }

  // Pricing the residual edges is pricing the arcs.
  lemma SamePrices<T>(adj: Adjacency<T>, im: Image<T>, p: seq<int>)
    requires Represents(adj, im) && Bounded(im.arcs, im.flow) && |p| == |adj|
    ensures InNodes(im.arcs, |p|)
    ensures NoLoss(adj, p) <==> PricedOut(im.arcs, im.flow, p)
  {
    RepresentsInNodes(adj, im);
    if NoLoss(adj, p) {
      forall k | 0 <= k < |im.arcs|
        ensures var reduced := im.arcs[k].cost + p[im.arcs[k].tail] - p[im.arcs[k].head];
                && (im.flow[k] < im.arcs[k].capacity ==> reduced >= 0)
                && (im.flow[k] > 0 ==> reduced <= 0)
      {
        assert ArcStored(adj, im, k);
        assert im.flow[k] < im.arcs[k].capacity ==> Usable(adj, im.arcs[k].tail, im.forwardAt[k]);
        assert im.flow[k] > 0 ==> Usable(adj, im.arcs[k].head, im.backwardAt[k]);
      }
    }
    if PricedOut(im.arcs, im.flow, p) {
      forall u, i | Usable(adj, u, i)
        ensures adj[u][i].cost + p[u] - p[adj[u][i].to] >= 0
      {
        assert EdgeOwned(adj, im, u, i);
        assert ArcStored(adj, im, im.owner[u][i].arc);
      }
    }
  }

  // A set no usable edge leaves is a saturated cut.
  lemma ClosedIsSaturated<T>(adj: Adjacency<T>, im: Image<T>, reached: set<nat>)
    requires Represents(adj, im) && Bounded(im.arcs, im.flow)
    requires forall u: nat, i: nat :: u in reached && Usable(adj, u, i) ==> adj[u][i].to in reached
    ensures Saturated(im.arcs, im.flow, reached)
  {
    forall k | 0 <= k < |im.arcs|
      ensures im.arcs[k].tail in reached && im.arcs[k].head !in reached ==> im.flow[k] == im.arcs[k].capacity
      ensures im.arcs[k].tail !in reached && im.arcs[k].head in reached ==> im.flow[k] == 0
    {
      assert ArcStored(adj, im, k);
      assert im.flow[k] < im.arcs[k].capacity ==> Usable(adj, im.arcs[k].tail, im.forwardAt[k]);
      assert im.flow[k] > 0 ==> Usable(adj, im.arcs[k].head, im.backwardAt[k]);
    }
  }

  ghost function Price(d: int, p: int, ps: int, reach: int): int {
    if d != INFINITY && d + ps <= reach + p then d + ps else reach + p
  }

  // The prices after an augmentation to t: distances, except that nothing is priced beyond t.
  ghost function Reprice(p: seq<int>, d: seq<int>, s: nat, t: nat): seq<int>
    requires |d| == |p| && s < |p| && t < |p|
  {
    seq(|p|, v requires 0 <= v < |p| => Price(d[v], p[v], p[s], d[t] + p[s] - p[t]))
  }

  // The recorded predecessor path to t, as usable edges that are exact at the prices q.
  ghost predicate TightPath<T>(adj: Adjacency<T>, pn: seq<int>, pe: seq<int>, q: seq<int>, s: nat, t: nat,
                               chain: seq<int>) {
    && |pn| == |pe| == |q| == |adj| && InRange(adj) && t < |adj|
    && IsChain(pn, s, t, chain)
    && forall m :: 0 <= m < |chain| - 1 ==>
      && 0 <= pe[chain[m]]
      && Usable(adj, chain[m + 1], pe[chain[m]])
      && adj[chain[m + 1]][pe[chain[m]]].to == chain[m]
      && adj[chain[m + 1]][pe[chain[m]]].cost + q[chain[m + 1]] - q[chain[m]] == 0
  }

  lemma RepriceEdge(cost: int, du: int, dv: int, pu: int, pv: int, ps: int, reach: int)
    requires cost + pu - pv >= 0
    requires du != INFINITY ==> dv != INFINITY && dv <= du + cost
    ensures cost + Price(du, pu, ps, reach) - Price(dv, pv, ps, reach) >= 0
  {
  }

  lemma RepricedNoLoss<T>(adj: Adjacency<T>, s: nat, t: nat, p: seq<int>, c: nat, d: seq<int>, pn: seq<int>,
                          pe: seq<int>)
    requires NoLoss(adj, p) && BelowInfinity(adj, c) && Labelled(adj, s, p, c, d, pn, pe) && Settled(adj, d)
    requires s < |adj| && t < |adj|
    ensures NoLoss(adj, Reprice(p, d, s, t))
  {
    var q := Reprice(p, d, s, t);
    forall u, i | Usable(adj, u, i)
      ensures adj[u][i].cost + q[u] - q[adj[u][i].to] >= 0
    {
      RepricedEdge(adj, s, t, p, c, d, u, i);
    }
  }

  lemma RepricedEdge<T>(adj: Adjacency<T>, s: nat, t: nat, p: seq<int>, c: nat, d: seq<int>, u: int, i: int)
    requires NoLoss(adj, p) && BelowInfinity(adj, c) && Capped(c, d) && Settled(adj, d)
    requires s < |adj| && t < |adj| && Usable(adj, u, i)
    ensures var q := Reprice(p, d, s, t); adj[u][i].cost + q[u] - q[adj[u][i].to] >= 0
  {
    var edge := adj[u][i];
    if d[u] != INFINITY {
      SettledReaches(adj, c, d, u, i);
      assert d[edge.to] <= d[u] + edge.cost;
    }
    RepriceEdge(edge.cost, d[u], d[edge.to], p[u], p[edge.to], p[s], d[t] + p[s] - p[t]);
  }

  // Along the recorded path to t the new prices are exact.
  lemma RepricedTight<T>(adj: Adjacency<T>, s: nat, t: nat, p: seq<int>, c: nat, d: seq<int>, pn: seq<int>,
                         pe: seq<int>, chain: seq<int>)
    requires NoLoss(adj, p) && BelowInfinity(adj, c) && Labelled(adj, s, p, c, d, pn, pe) && Settled(adj, d)
    requires s < |adj| && t < |adj| && d[t] != INFINITY && IsChain(pn, s, t, chain)
    ensures TightPath(adj, pn, pe, Reprice(p, d, s, t), s, t, chain)
  {
    var q := Reprice(p, d, s, t);
    forall m | 0 <= m < |chain| - 1
      ensures 0 <= pe[chain[m]] && Usable(adj, chain[m + 1], pe[chain[m]])
      ensures adj[chain[m + 1]][pe[chain[m]]].to == chain[m]
      ensures adj[chain[m + 1]][pe[chain[m]]].cost + q[chain[m + 1]] - q[chain[m]] == 0
    {
      ChainDescends(adj, s, p, d, pn, pe, t, chain, m);
      ChainDescends(adj, s, p, d, pn, pe, t, chain, m + 1);
      TightStep(adj, s, p, d, pn, pe, chain[m]);
    }
  }

  lemma TightStep<T>(adj: Adjacency<T>, s: nat, p: seq<int>, d: seq<int>, pn: seq<int>, pe: seq<int>, v: int)
    requires Shaped(adj, d, pn, pe) && Explained(adj, s, d, pn, pe) && Settled(adj, d)
    requires 0 <= v < |d| && v != s && d[v] != INFINITY
    ensures Usable(adj, pn[v], pe[v]) && adj[pn[v]][pe[v]].to == v
    ensures d[v] == d[pn[v]] + adj[pn[v]][pe[v]].cost
  {
  }

  // --- The solver as a function ---

  ghost function EmptyLists<T>(n: nat): Adjacency<T> {
    seq(n, _ => [])
  }

  // The adjacency lists after adding the arcs in order.
  ghost function AdjacencyOf<T>(n: nat, arcs: seq<Arc<T>>): Adjacency<T>
    requires InNodes(arcs, n)
    ensures |AdjacencyOf(n, arcs)| == n
  {
    if |arcs| == 0 then EmptyLists(n) else
      var last := arcs[|arcs| - 1];
      WithEdge(AdjacencyOf(n, arcs[..|arcs| - 1]), last.tail, last.head, last.capacity, last.cost, last.candidate)
  }

  ghost function PushOrStay<T>(adj: Adjacency<T>, u: int, i: int): Adjacency<T> {
    if 0 <= u < |adj| && 0 <= i < |adj[u]| && adj[u][i].to < |adj| && adj[u][i].reverse < |adj[adj[u][i].to]|
    then Push(adj, u, i) else adj
  }

  // One unit moved across the first n edges of a predecessor chain.
  ghost function PushAlong<T>(adj: Adjacency<T>, pe: seq<int>, chain: seq<int>, n: nat): Adjacency<T>
    requires n < |chain|
  {
    if n == 0 then adj else
      var v := chain[n - 1];
      PushOrStay(PushAlong(adj, pe, chain, n - 1), chain[n], if 0 <= v < |pe| then pe[v] else -1)
  }

  ghost function ChainTo(pn: seq<int>, s: nat, v: int): seq<int> {
    if c :| IsChain(pn, s, v, c) then c else []
  }

  // At most required augmentations along Bellman-Ford paths.
  ghost function Solved<T>(adj: Adjacency<T>, s: nat, t: nat, required: int): Adjacency<T>
    requires s < |adj| && t < |adj|
    decreases if required < 0 then 0 else required
  {
    var L := AllRounds(adj, s);
    if required <= 0 || t >= |L.distance| || L.distance[t] == INFINITY then adj else
      var chain := ChainTo(L.node, s, t);
      var next := if chain == [] then adj else PushAlong(adj, L.edge, chain, |chain| - 1);
      if |next| == |adj| then Solved(next, s, t, required - 1) else adj
  }
}
