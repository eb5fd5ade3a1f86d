// Bellman-Ford over an adjacency list with residual capacities. The hypothesis throughout is a
// price p per node at which no usable edge loses money; such prices exist exactly when no usable
// cycle is negative, and they are the witness the solver carries from one augmentation to the next.
module ShortestPaths {
  import opened Sums
  import opened Options

  datatype FlowEdge<T> = FlowEdge(to: nat, reverse: nat, capacity: int, cost: int, candidate: Option<T>)

  type Adjacency<T> = seq<seq<FlowEdge<T>>>

  const INFINITY: int :=
    10_0000000000_0000000000_0000000000_0000000000_0000000000_0000000000_0000000000_0000000000_0000000000_000000000

  ghost predicate Usable<T>(adj: Adjacency<T>, u: int, i: int) {
    0 <= u < |adj| && 0 <= i < |adj[u]| && adj[u][i].capacity > 0
  }

  ghost predicate InRange<T>(adj: Adjacency<T>) {
    forall u, i :: 0 <= u < |adj| && 0 <= i < |adj[u]| ==> adj[u][i].to < |adj|
  }

  ghost predicate NoLoss<T>(adj: Adjacency<T>, p: seq<int>) {
    && InRange(adj)
    && |p| == |adj|
    && forall u, i :: Usable(adj, u, i) ==> adj[u][i].cost + p[u] - p[adj[u][i].to] >= 0
  }

  // A simple path through n nodes whose edges cost at most c stays below the sentinel.
  ghost predicate PathsFit(n: nat, c: nat) {
    (n - 1) * c < INFINITY
  }

  // Every edge costs at most c, which keeps simple paths below the sentinel.
  ghost predicate BelowInfinity<T>(adj: Adjacency<T>, c: nat) {
    && (forall u, i :: 0 <= u < |adj| && 0 <= i < |adj[u]| ==> adj[u][i].cost <= c)
    && PathsFit(|adj|, c)
  }

  // --- Walks ---

  datatype Step = Step(node: nat, edge: nat)

  ghost function StepCost<T>(adj: Adjacency<T>, step: Step): int {
    if step.node < |adj| && step.edge < |adj[step.node]| then adj[step.node][step.edge].cost else 0
  }

  ghost function WalkCost<T>(adj: Adjacency<T>, w: seq<Step>): int {
    if |w| == 0 then 0 else WalkCost(adj, w[..|w| - 1]) + StepCost(adj, w[|w| - 1])
  }

  ghost predicate IsWalk<T>(adj: Adjacency<T>, s: nat, w: seq<Step>, v: nat) {
    if |w| == 0 then v == s else
      var last := w[|w| - 1];
      && Usable(adj, last.node, last.edge)
      && adj[last.node][last.edge].to == v
      && IsWalk(adj, s, w[..|w| - 1], last.node)
  }

  ghost function NodeAt(w: seq<Step>, v: nat, k: nat): nat
    requires k <= |w|
  {
    if k == |w| then v else w[k].node
  }

  lemma {:induction false} WalkFloor<T>(adj: Adjacency<T>, p: seq<int>, s: nat, w: seq<Step>, v: nat)
    requires NoLoss(adj, p) && s < |adj| && IsWalk(adj, s, w, v)
    ensures v < |adj| && WalkCost(adj, w) >= p[v] - p[s]
  {
    if |w| > 0 {
      WalkFloor(adj, p, s, w[..|w| - 1], w[|w| - 1].node);
    }
  }

  lemma {:induction false} WalkCeiling<T>(adj: Adjacency<T>, c: nat, s: nat, w: seq<Step>, v: nat)
    requires BelowInfinity(adj, c) && IsWalk(adj, s, w, v)
    ensures WalkCost(adj, w) <= |w| * c
  {
    if |w| > 0 {
      WalkCeiling(adj, c, s, w[..|w| - 1], w[|w| - 1].node);
      assert |w| * c == (|w| - 1) * c + c;
    }
  }

  lemma {:induction false} WalkJoin<T>(adj: Adjacency<T>, s: nat, a: seq<Step>, x: nat, b: seq<Step>, v: nat)
    requires IsWalk(adj, s, a, x) && IsWalk(adj, x, b, v)
    ensures IsWalk(adj, s, a + b, v)
    ensures WalkCost(adj, a + b) == WalkCost(adj, a) + WalkCost(adj, b)
    decreases |b|
  {
    if |b| == 0 {
      assert a + b == a;
    } else {
      WalkJoin(adj, s, a, x, b[..|b| - 1], b[|b| - 1].node);
      assert (a + b)[..|a + b| - 1] == a + b[..|b| - 1];
    }
  }

  lemma WalkExtend<T>(adj: Adjacency<T>, s: nat, w: seq<Step>, u: nat, i: nat)
    requires IsWalk(adj, s, w, u) && Usable(adj, u, i)
    ensures IsWalk(adj, s, w + [Step(u, i)], adj[u][i].to)
    ensures WalkCost(adj, w + [Step(u, i)]) == WalkCost(adj, w) + adj[u][i].cost
  {
    assert (w + [Step(u, i)])[..|w|] == w;
  }

  lemma {:induction false} WalkSplit<T>(adj: Adjacency<T>, s: nat, w: seq<Step>, v: nat, k: nat)
    requires IsWalk(adj, s, w, v) && k <= |w|
    ensures IsWalk(adj, s, w[..k], NodeAt(w, v, k))
    ensures IsWalk(adj, NodeAt(w, v, k), w[k..], v)
    ensures WalkCost(adj, w) == WalkCost(adj, w[..k]) + WalkCost(adj, w[k..])
  {
    if k == |w| {
      assert w[..k] == w;
    } else {
      var front := w[..|w| - 1];
      WalkSplit(adj, s, front, w[|w| - 1].node, k);
      assert front[..k] == w[..k];
      assert w[k..][..|w[k..]| - 1] == front[k..];
      assert NodeAt(front, w[|w| - 1].node, k) == NodeAt(w, v, k);
    }
  }

  // Cutting out cycles, which cost nothing or more, leaves a walk of fewer than |adj| steps.
  lemma {:induction false} Shorten<T>(adj: Adjacency<T>, p: seq<int>, s: nat, w: seq<Step>, v: nat)
    returns (short: seq<Step>)
    requires NoLoss(adj, p) && s < |adj| && IsWalk(adj, s, w, v)
    ensures IsWalk(adj, s, short, v) && |short| < |adj|
    ensures WalkCost(adj, short) <= WalkCost(adj, w)
    decreases |w|
  {
    if |w| < |adj| {
      short := w;
    } else {
      var nodes := seq(|w| + 1, k requires 0 <= k <= |w| => NodeAt(w, v, k));
      forall k | 0 <= k < |nodes|
        ensures nodes[k] < |adj|
      {
        WalkSplit(adj, s, w, v, k);
        WalkFloor(adj, p, s, w[..k], NodeAt(w, v, k));
      }
      var i, j := Pigeonhole(nodes, |adj|);
      short := CutCycle(adj, p, s, w, v, i, j);
      short := Shorten(adj, p, s, short, v);
    }
  }

  lemma CutCycle<T>(adj: Adjacency<T>, p: seq<int>, s: nat, w: seq<Step>, v: nat, i: nat, j: nat)
    returns (cut: seq<Step>)
    requires NoLoss(adj, p) && s < |adj| && IsWalk(adj, s, w, v)
    requires i < j <= |w| && NodeAt(w, v, i) == NodeAt(w, v, j)
    ensures IsWalk(adj, s, cut, v) && |cut| < |w|
    ensures WalkCost(adj, cut) <= WalkCost(adj, w)
  {
    var x := NodeAt(w, v, i);
    WalkSplit(adj, s, w, v, j);
    var front := w[..j];
    WalkSplit(adj, s, front, x, i);
    assert front[..i] == w[..i];
    WalkFloor(adj, p, s, front, x);
    WalkFloor(adj, p, x, front[i..], x);
    WalkJoin(adj, s, front[..i], x, w[j..], v);
    cut := front[..i] + w[j..];
  }

  // --- Predecessor chains ---

  // c follows recorded predecessors from v back to s, meeting s only at its end.
  ghost predicate IsChain(pn: seq<int>, s: nat, v: int, c: seq<int>) {
    && |c| > 0 && c[0] == v && c[|c| - 1] == s
    && forall i :: 0 <= i < |c| - 1 ==> 0 <= c[i] < |pn| && c[i] != s && pn[c[i]] == c[i + 1]
  }

  ghost predicate Shaped<T>(adj: Adjacency<T>, d: seq<int>, pn: seq<int>, pe: seq<int>) {
    |d| == |adj| && |pn| == |adj| && |pe| == |adj|
  }

  // Each reached node other than s has a usable predecessor edge that explains its distance.
  ghost predicate Explained<T>(adj: Adjacency<T>, s: nat, d: seq<int>, pn: seq<int>, pe: seq<int>)
    requires Shaped(adj, d, pn, pe)
  {
    forall v :: 0 <= v < |d| && v != s && d[v] != INFINITY ==>
      && Usable(adj, pn[v], pe[v])
      && adj[pn[v]][pe[v]].to == v
      && d[pn[v]] != INFINITY
      && d[v] >= d[pn[v]] + adj[pn[v]][pe[v]].cost
  }

  // Measured at the prices p, no reached node is closer than s itself.
  ghost predicate Grounded(s: nat, p: seq<int>, d: seq<int>) {
    && s < |d| == |p|
    && d[s] == 0
    && forall v :: 0 <= v < |d| && d[v] != INFINITY ==> d[v] - p[v] >= -p[s]
  }

  ghost predicate Chained(s: nat, d: seq<int>, pn: seq<int>) {
    forall v :: 0 <= v < |d| && d[v] != INFINITY ==> exists c :: IsChain(pn, s, v, c)
  }

  ghost function Reached(d: seq<int>): set<nat> {
    set v | 0 <= v < |d| && d[v] != INFINITY
  }

  ghost predicate Capped(c: nat, d: seq<int>) {
    forall v :: 0 <= v < |d| ==> d[v] <= INFINITY && (d[v] != INFINITY ==> d[v] <= (|Reached(d)| - 1) * c)
  }

  ghost predicate Labelled<T>(adj: Adjacency<T>, s: nat, p: seq<int>, c: nat, d: seq<int>, pn: seq<int>, pe: seq<int>) {
    && Shaped(adj, d, pn, pe)
    && Explained(adj, s, d, pn, pe)
    && Grounded(s, p, d)
    && Chained(s, d, pn)
    && Capped(c, d)
  }

  lemma {:induction false} ReachedCount(d: seq<int>)
    ensures |Reached(d)| <= |d|
  {
    if |d| == 0 {
      assert Reached(d) == {};
    } else {
      var front := d[..|d| - 1];
      ReachedCount(front);
      assert Reached(d) <= Reached(front) + {|d| - 1};
      CardinalityLe(Reached(d), Reached(front) + {|d| - 1});
    }
  }

  lemma UnreachedCount(d: seq<int>, v: nat)
    requires v < |d| && d[v] == INFINITY
    ensures |Reached(d)| <= |d| - 1
  {
    assert Reached(d[v := 0]) == Reached(d) + {v};
    ReachedCount(d[v := 0]);
  }

  lemma {:induction false} CardinalityLe<X>(a: set<X>, b: set<X>)
    requires a <= b
    ensures |a| <= |b|
  {
    if a != {} {
      var x :| x in a;
      CardinalityLe(a - {x}, b - {x});
    }
  }

  // Going back along a chain never gets further away, measured at the prices p.
  lemma {:induction false} ChainDescends<T>(adj: Adjacency<T>, s: nat, p: seq<int>, d: seq<int>, pn: seq<int>,
                                            pe: seq<int>, v: int, c: seq<int>, i: nat)
    requires NoLoss(adj, p) && Shaped(adj, d, pn, pe) && Explained(adj, s, d, pn, pe) && Grounded(s, p, d)
    requires 0 <= v < |d| && d[v] != INFINITY && IsChain(pn, s, v, c) && i < |c|
    ensures 0 <= c[i] < |d| && d[c[i]] != INFINITY
    ensures d[c[i]] - p[c[i]] <= d[v] - p[v]
  {
    if i > 0 {
      ChainDescends(adj, s, p, d, pn, pe, v, c, i - 1);
      assert pn[c[i - 1]] == c[i];
    }
  }

  lemma {:induction false} ChainWalk<T>(adj: Adjacency<T>, s: nat, d: seq<int>, pn: seq<int>, pe: seq<int>, v: nat,
                                        c: seq<int>) returns (w: seq<Step>)
    requires Shaped(adj, d, pn, pe) && Explained(adj, s, d, pn, pe) && s < |d| && d[s] == 0
    requires v < |d| && d[v] != INFINITY && IsChain(pn, s, v, c)
    ensures IsWalk(adj, s, w, v) && WalkCost(adj, w) <= d[v]
    decreases |c|
  {
    if |c| == 1 {
      w := [];
    } else {
      var u: nat := pn[v];
      assert IsChain(pn, s, u, c[1..]);
      w := ChainWalk(adj, s, d, pn, pe, u, c[1..]);
      WalkExtend(adj, s, w, u, pe[v]);
      w := w + [Step(u, pe[v])];
    }
  }

  // Predecessor chains are determined by where they start.
  lemma {:induction false} ChainUnique(pn: seq<int>, s: nat, v: int, a: seq<int>, b: seq<int>)
    requires IsChain(pn, s, v, a) && IsChain(pn, s, v, b)
    ensures a == b
    decreases |a|
  {
    if |a| > 1 && |b| > 1 {
      assert IsChain(pn, s, a[1], a[1..]);
      assert IsChain(pn, s, b[1], b[1..]);
      ChainUnique(pn, s, a[1], a[1..], b[1..]);
      assert a == [v] + a[1..] && b == [v] + b[1..];
    }
  }

  // A chain never visits a node twice.
  lemma ChainSimple(pn: seq<int>, s: nat, v: int, c: seq<int>, i: nat, j: nat)
    requires IsChain(pn, s, v, c) && i < j < |c|
    ensures c[i] != c[j]
  {
    if c[i] == c[j] {
      assert IsChain(pn, s, c[i], c[i..]);
      assert IsChain(pn, s, c[j], c[j..]);
      ChainUnique(pn, s, c[i], c[i..], c[j..]);
    }
  }

  // --- Relaxing one edge ---

  lemma RelaxTarget<T>(adj: Adjacency<T>, s: nat, p: seq<int>, d: seq<int>, u: nat, i: nat)
    requires NoLoss(adj, p) && |d| == |adj| && Grounded(s, p, d)
    requires Usable(adj, u, i) && d[u] != INFINITY
    requires d[u] + adj[u][i].cost < d[adj[u][i].to]
    ensures adj[u][i].to != s
    ensures d[u] + adj[u][i].cost - p[adj[u][i].to] >= d[u] - p[u] >= -p[s]
  {
  }

  lemma RelaxChains<T>(adj: Adjacency<T>, s: nat, p: seq<int>, d: seq<int>, pn: seq<int>, pe: seq<int>, u: nat, i: nat)
    requires NoLoss(adj, p) && Shaped(adj, d, pn, pe) && Explained(adj, s, d, pn, pe) && Grounded(s, p, d)
             && Chained(s, d, pn)
    requires Usable(adj, u, i) && d[u] != INFINITY && d[u] + adj[u][i].cost < d[adj[u][i].to] <= INFINITY
    ensures var v := adj[u][i].to; Chained(s, d[v := d[u] + adj[u][i].cost], pn[v := u])
  {
    var v := adj[u][i].to;
    RelaxTarget(adj, s, p, d, u, i);
    var cu :| IsChain(pn, s, u, cu);
    if k :| 0 <= k < |cu| && cu[k] == v {
      ChainDescends(adj, s, p, d, pn, pe, u, cu, k);
    }
    var pn' := pn[v := u];
    assert IsChain(pn', s, u, cu);
    forall w | 0 <= w < |d| && (w == v || d[w] != INFINITY)
      ensures exists c :: IsChain(pn', s, w, c)
    {
      if w == v {
        assert IsChain(pn', s, v, [v] + cu);
      } else {
        var cw :| IsChain(pn, s, w, cw);
        var c := Reroute(pn, s, u, v, w, cu, cw, |cw|);
      }
    }
  }

  // The chain cw, searched up to position k, with its part from v on replaced.
  lemma {:induction false} Reroute(pn: seq<int>, s: nat, u: int, v: int, w: int, cu: seq<int>, cw: seq<int>, k: nat)
    returns (c: seq<int>)
    requires 0 <= v < |pn| && v != s && 0 <= u < |pn|
    requires IsChain(pn[v := u], s, u, cu) && IsChain(pn, s, w, cw)
    requires k <= |cw| && forall j :: k <= j < |cw| ==> cw[j] != v
    ensures IsChain(pn[v := u], s, w, c)
    decreases k
  {
    if j :| 0 <= j < k && cw[j] == v {
      if i :| 0 <= i < j && cw[i] == v {
        ChainSimple(pn, s, w, cw, i, j);
      }
      c := cw[..j + 1] + cu;
      forall i | 0 <= i < |c| - 1
        ensures 0 <= c[i] < |pn| && c[i] != s && pn[v := u][c[i]] == c[i + 1]
      {
        if i < j {
          assert c[i] == cw[i] && c[i + 1] == cw[i + 1];
        } else if i > j {
          assert c[i] == cu[i - j - 1] && c[i + 1] == cu[i - j];
        }
      }
    } else {
      c := cw;
    }
  }

  lemma RelaxCapped<T>(adj: Adjacency<T>, c: nat, d: seq<int>, u: nat, i: nat)
    requires BelowInfinity(adj, c) && InRange(adj) && |d| == |adj| && Capped(c, d)
    requires Usable(adj, u, i) && d[u] != INFINITY && d[u] + adj[u][i].cost < d[adj[u][i].to]
    ensures var v := adj[u][i].to; Capped(c, d[v := d[u] + adj[u][i].cost])
  {
    var v := adj[u][i].to;
    var x := d[u] + adj[u][i].cost;
    var d' := d[v := x];
    var n, n' := |Reached(d)|, |Reached(d')|;
    if d[v] == INFINITY {
      assert Reached(d') == Reached(d) + {v};
      assert n' == n + 1;
      assert (n' - 1) * c == (n - 1) * c + c;
    } else {
      assert Reached(d') == Reached(d);
    }
  }

  lemma Relax<T>(adj: Adjacency<T>, s: nat, p: seq<int>, c: nat, d: seq<int>, pn: seq<int>, pe: seq<int>, u: nat,
                 i: nat)
    requires NoLoss(adj, p) && BelowInfinity(adj, c) && Labelled(adj, s, p, c, d, pn, pe)
    requires Usable(adj, u, i) && d[u] != INFINITY && d[u] + adj[u][i].cost < d[adj[u][i].to]
    ensures var v := adj[u][i].to;
            Labelled(adj, s, p, c, d[v := d[u] + adj[u][i].cost], pn[v := u], pe[v := i])
  {
    RelaxTarget(adj, s, p, d, u, i);
    RelaxChains(adj, s, p, d, pn, pe, u, i);
    RelaxCapped(adj, c, d, u, i);
  }

  // --- Rounds ---

  ghost predicate BeatsWalks<T>(adj: Adjacency<T>, s: nat, d: seq<int>, k: int) {
    forall w: seq<Step>, v: nat :: IsWalk(adj, s, w, v) && |w| <= k && v < |d| ==> d[v] <= WalkCost(adj, w)
  }

  // The edges before (u, i) have been relaxed since the distances were d0.
  ghost predicate Swept<T>(adj: Adjacency<T>, d0: seq<int>, d: seq<int>, u: int, i: int) {
    && |d0| == |d| == |adj| && InRange(adj)
    && (forall v :: 0 <= v < |d| ==> d[v] <= d0[v])
    && forall a, b :: Usable(adj, a, b) && (a < u || (a == u && b < i)) && d0[a] != INFINITY ==>
      d[adj[a][b].to] <= d0[a] + adj[a][b].cost
  }

  // No usable edge out of a reached node can improve anything.
  ghost predicate Settled<T>(adj: Adjacency<T>, d: seq<int>) {
    Swept(adj, d, d, |adj|, 0)
  }

  lemma ProductLe(a: nat, b: nat, c: nat)
    requires a <= b
    ensures a * c <= b * c
  {
  }

  lemma ShortWalkReaches<T>(adj: Adjacency<T>, c: nat, s: nat, w: seq<Step>, v: nat)
    requires BelowInfinity(adj, c) && IsWalk(adj, s, w, v) && |w| < |adj|
    ensures WalkCost(adj, w) < INFINITY
  {
    WalkCeiling(adj, c, s, w, v);
    ProductLe(|w|, |adj| - 1, c);
  }

  lemma RoundDone<T>(adj: Adjacency<T>, s: nat, p: seq<int>, c: nat, d0: seq<int>, d: seq<int>, k: nat)
    requires NoLoss(adj, p) && BelowInfinity(adj, c) && s < |adj| && k + 1 < |adj|
    requires Swept(adj, d0, d, |adj|, 0) && BeatsWalks(adj, s, d0, k)
    ensures BeatsWalks(adj, s, d, k + 1)
  {
    forall w: seq<Step>, v: nat | IsWalk(adj, s, w, v) && |w| <= k + 1 && v < |d|
      ensures d[v] <= WalkCost(adj, w)
    {
      if |w| <= k {
        assert d0[v] <= WalkCost(adj, w);
      } else {
        var front, last := w[..|w| - 1], w[|w| - 1];
        WalkFloor(adj, p, s, front, last.node);
        ShortWalkReaches(adj, c, s, front, last.node);
        assert Usable(adj, last.node, last.edge);
      }
    }
  }

  lemma LastRoundSettles<T>(adj: Adjacency<T>, s: nat, p: seq<int>, c: nat, d: seq<int>, pn: seq<int>, pe: seq<int>)
    requires NoLoss(adj, p) && Labelled(adj, s, p, c, d, pn, pe) && BeatsWalks(adj, s, d, |adj| - 1)
    ensures Settled(adj, d)
  {
    forall a, b | Usable(adj, a, b) && d[a] != INFINITY
      ensures d[adj[a][b].to] <= d[a] + adj[a][b].cost
    {
      var ca :| IsChain(pn, s, a, ca);
      var w := ChainWalk(adj, s, d, pn, pe, a, ca);
      WalkExtend(adj, s, w, a, b);
      var short := Shorten(adj, p, s, w + [Step(a, b)], adj[a][b].to);
    }
  }

  // The sentinel means what it says: a settled node next to a reached node is reached.
  lemma SettledReaches<T>(adj: Adjacency<T>, c: nat, d: seq<int>, u: int, i: int)
    requires BelowInfinity(adj, c) && Capped(c, d) && Settled(adj, d)
    requires Usable(adj, u, i) && d[u] != INFINITY
    ensures d[adj[u][i].to] != INFINITY
  {
    assert (|Reached(d)| - 1) * c + c == |Reached(d)| * c;
    if d[adj[u][i].to] == INFINITY {
      UnreachedCount(d, adj[u][i].to);
      ProductLe(|Reached(d)|, |adj| - 1, c);
    }
  }

  // Settled distances are the costs of cheapest walks, and the sentinel marks exactly the nodes without one.
  lemma {:induction false} SettledAreShortest<T>(adj: Adjacency<T>, s: nat, p: seq<int>, c: nat, d: seq<int>,
                                                 pn: seq<int>, pe: seq<int>, v: nat)
    requires BelowInfinity(adj, c) && Labelled(adj, s, p, c, d, pn, pe) && Settled(adj, d) && v < |adj|
    ensures d[v] != INFINITY ==> exists w :: IsWalk(adj, s, w, v) && WalkCost(adj, w) == d[v]
    ensures forall w :: IsWalk(adj, s, w, v) ==> d[v] != INFINITY && d[v] <= WalkCost(adj, w)
  {
    forall w | IsWalk(adj, s, w, v)
      ensures d[v] != INFINITY && d[v] <= WalkCost(adj, w)
    {
      SettledWalk(adj, s, p, c, d, w, v);
    }
    if d[v] != INFINITY {
      var cv :| IsChain(pn, s, v, cv);
      var w := ChainWalk(adj, s, d, pn, pe, v, cv);
      assert IsWalk(adj, s, w, v) && WalkCost(adj, w) == d[v];
    }
  }

  lemma {:induction false} SettledWalk<T>(adj: Adjacency<T>, s: nat, p: seq<int>, c: nat, d: seq<int>, w: seq<Step>,
                                          v: nat)
    requires BelowInfinity(adj, c) && Capped(c, d) && Settled(adj, d) && Grounded(s, p, d) && IsWalk(adj, s, w, v)
    ensures v < |d| && d[v] != INFINITY && d[v] <= WalkCost(adj, w)
  {
    if |w| > 0 {
      var last := w[|w| - 1];
      SettledWalk(adj, s, p, c, d, w[..|w| - 1], last.node);
      SettledReaches(adj, c, d, last.node, last.edge);
    }
  }

  // --- The pass as a function ---

  datatype Labels = Labels(distance: seq<int>, node: seq<int>, edge: seq<int>)

  ghost function RelaxEdge<T>(adj: Adjacency<T>, L: Labels, u: nat, i: nat): Labels {
    if Usable(adj, u, i) && u < |L.distance| && adj[u][i].to < |L.distance| == |L.node| == |L.edge|
       && L.distance[u] + adj[u][i].cost < L.distance[adj[u][i].to]
    then
      var v := adj[u][i].to;
      Labels(L.distance[v := L.distance[u] + adj[u][i].cost], L.node[v := u], L.edge[v := i])
    else L
  }

  ghost function RelaxEdges<T>(adj: Adjacency<T>, L: Labels, u: nat, n: nat): Labels {
    if n == 0 then L else RelaxEdge(adj, RelaxEdges(adj, L, u, n - 1), u, n - 1)
  }

  // The first n nodes in order; an unreached node is skipped when its turn comes.
  ghost function RelaxNodes<T>(adj: Adjacency<T>, L: Labels, n: nat): Labels
    requires n <= |adj|
  {
    if n == 0 then L else
      var before := RelaxNodes(adj, L, n - 1);
      if n <= |before.distance| && before.distance[n - 1] != INFINITY
      then RelaxEdges(adj, before, n - 1, |adj[n - 1]|) else before
  }

  ghost function Rounds<T>(adj: Adjacency<T>, L: Labels, k: nat): Labels {
    if k == 0 then L else RelaxNodes(adj, Rounds(adj, L, k - 1), |adj|)
  }

  ghost function InitialLabels(n: nat, s: nat): Labels {
    Labels(seq(n, v => if v == s then 0 else INFINITY), seq(n, _ => -1), seq(n, _ => -1))
  }

  // One fewer rounds than nodes, with no early exit.
  ghost function AllRounds<T>(adj: Adjacency<T>, s: nat): Labels
    requires |adj| > 0
  {
    Rounds(adj, InitialLabels(|adj|, s), |adj| - 1)
  }

  // Once a round changes nothing, neither do the rest.
  lemma {:induction false} RoundsStay<T>(adj: Adjacency<T>, L: Labels, j: nat, k: nat)
    requires j <= k && RelaxNodes(adj, Rounds(adj, L, j), |adj|) == Rounds(adj, L, j)
    ensures Rounds(adj, L, k) == Rounds(adj, L, j)
    decreases k
  {
    if j < k {
      RoundsStay(adj, L, j, k - 1);
    }
  }
}
