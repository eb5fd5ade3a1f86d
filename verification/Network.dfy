// Flows over a list of capacitated, priced arcs, and when a flow is cheapest or largest.
// Nothing here mentions residual adjacency lists: this is the yardstick the solver is held to.
module Network {
  import opened Options

  // One call of _add_flow_edge; an arc may carry the candidate it would select.
  datatype Arc<T> = Arc(tail: nat, head: nat, capacity: int, cost: int, candidate: Option<T>)

  ghost predicate InNodes<T>(arcs: seq<Arc<T>>, n: nat) {
    forall k :: 0 <= k < |arcs| ==> arcs[k].tail < n && arcs[k].head < n
  }

  ghost predicate Bounded<T>(arcs: seq<Arc<T>>, flow: seq<int>) {
    && |flow| == |arcs|
    && forall k :: 0 <= k < |arcs| ==> 0 <= flow[k] <= arcs[k].capacity
  }

  // What leaves v minus what enters v.
  ghost function Net<T>(arcs: seq<Arc<T>>, flow: seq<int>, v: nat): int
    requires |flow| == |arcs|
  {
    if |arcs| == 0 then 0 else
      var last := |arcs| - 1;
      Net(arcs[..last], flow[..last], v)
      + (if arcs[last].tail == v then flow[last] else 0)
      - (if arcs[last].head == v then flow[last] else 0)
  }

  ghost function Cost<T>(arcs: seq<Arc<T>>, flow: seq<int>): int
    requires |flow| == |arcs|
  {
    if |arcs| == 0 then 0 else
      var last := |arcs| - 1;
      Cost(arcs[..last], flow[..last]) + flow[last] * arcs[last].cost
  }

  ghost predicate Conserves<T>(arcs: seq<Arc<T>>, flow: seq<int>, n: nat, source: nat, sink: nat)
    requires |flow| == |arcs|
  {
    forall v :: 0 <= v < n && v != source && v != sink ==> Net(arcs, flow, v) == 0
  }

  // A flow from source to sink; Net at the source is its value.
  ghost predicate IsFlow<T>(arcs: seq<Arc<T>>, flow: seq<int>, n: nat, source: nat, sink: nat) {
    Bounded(arcs, flow) && Conserves(arcs, flow, n, source, sink)
  }

  ghost predicate Cheapest<T(!new)>(arcs: seq<Arc<T>>, flow: seq<int>, n: nat, source: nat, sink: nat)
    requires |flow| == |arcs|
  {
    forall other :: IsFlow(arcs, other, n, source, sink)
                    && Net(arcs, other, source) == Net(arcs, flow, source)
                    ==> Cost(arcs, flow) <= Cost(arcs, other)
  }

  ghost predicate Largest<T(!new)>(arcs: seq<Arc<T>>, flow: seq<int>, n: nat, source: nat, sink: nat)
    requires |flow| == |arcs|
  {
    forall other :: IsFlow(arcs, other, n, source, sink)
                    ==> Net(arcs, other, source) <= Net(arcs, flow, source)
  }

  // --- Potentials ---

  ghost function PotentialSum(p: seq<int>, net: int -> int, n: nat): int
    requires n <= |p|
  {
    if n == 0 then 0 else PotentialSum(p, net, n - 1) + p[n - 1] * net(n - 1)
  }

  // The flow-weighted drop of p along the arcs.
  ghost function Drop<T>(arcs: seq<Arc<T>>, flow: seq<int>, p: seq<int>): int
    requires |flow| == |arcs| && InNodes(arcs, |p|)
  {
    if |arcs| == 0 then 0 else
      var last := |arcs| - 1;
      Drop(arcs[..last], flow[..last], p) + flow[last] * (p[arcs[last].tail] - p[arcs[last].head])
  }

  lemma {:induction false} PotentialSumStep(p: seq<int>, old': int -> int, new': int -> int, n: nat, t: nat, h: nat,
                                            x: int)
    requires n <= |p| && t < |p| && h < |p|
    requires forall v: nat :: v < n ==>
      new'(v) == old'(v) + (if t == v then x else 0) - (if h == v then x else 0)
    ensures PotentialSum(p, new', n) ==
            PotentialSum(p, old', n) + (if t < n then x * p[t] else 0) - (if h < n then x * p[h] else 0)
  {
    if n > 0 {
      PotentialSumStep(p, old', new', n - 1, t, h, x);
      var a, d := p[n - 1], new'(n - 1) - old'(n - 1);
      assert a * new'(n - 1) == a * old'(n - 1) + a * d;
      assert t == n - 1 && h == n - 1 ==> a * d == 0;
      assert t == n - 1 && h != n - 1 ==> a * d == x * p[t];
      assert h == n - 1 && t != n - 1 ==> a * d == -(x * p[h]);
      assert t != n - 1 && h != n - 1 ==> a * d == 0;
    }
  }

  lemma {:induction false} PotentialSumZero(p: seq<int>, net: int -> int, n: nat)
    requires n <= |p|
    requires forall v: nat :: v < n ==> net(v) == 0
    ensures PotentialSum(p, net, n) == 0
  {
    if n > 0 {
      PotentialSumZero(p, net, n - 1);
    }
  }

  lemma {:induction false} PotentialSumExt(p: seq<int>, a: int -> int, b: int -> int, n: nat)
    requires n <= |p|
    requires forall v: nat :: v < n ==> p[v] * a(v) == p[v] * b(v)
    ensures PotentialSum(p, a, n) == PotentialSum(p, b, n)
  {
    if n > 0 {
      PotentialSumExt(p, a, b, n - 1);
    }
  }

  ghost function NetOf<T>(arcs: seq<Arc<T>>, flow: seq<int>): int -> int
    requires |flow| == |arcs|
  {
    (v: int) => if v < 0 then 0 else Net(arcs, flow, v)
  }

  // Summing by arc and summing by node agree.
  lemma {:induction false} DropByNode<T>(arcs: seq<Arc<T>>, flow: seq<int>, p: seq<int>)
    requires |flow| == |arcs| && InNodes(arcs, |p|)
    ensures Drop(arcs, flow, p) == PotentialSum(p, NetOf(arcs, flow), |p|)
  {
    if |arcs| == 0 {
      PotentialSumZero(p, NetOf(arcs, flow), |p|);
    } else {
      var last := |arcs| - 1;
      DropByNode(arcs[..last], flow[..last], p);
      var t, h, x := arcs[last].tail, arcs[last].head, flow[last];
      PotentialSumStep(p, NetOf(arcs[..last], flow[..last]), NetOf(arcs, flow), |p|, t, h, x);
      assert x * (p[t] - p[h]) == x * p[t] - x * p[h];
    }
  }

  lemma DropOfEqualNets<T>(arcs: seq<Arc<T>>, f: seq<int>, g: seq<int>, p: seq<int>)
    requires |f| == |arcs| == |g| && InNodes(arcs, |p|)
    requires forall v: nat :: v < |p| ==> Net(arcs, f, v) == Net(arcs, g, v)
    ensures Drop(arcs, f, p) == Drop(arcs, g, p)
  {
    DropByNode(arcs, f, p);
    DropByNode(arcs, g, p);
    PotentialSumExt(p, NetOf(arcs, f), NetOf(arcs, g), |p|);
  }

  // Everything that leaves a node enters another, so the nets of all nodes cancel.
  lemma NetsCancel<T>(arcs: seq<Arc<T>>, flow: seq<int>, n: nat, source: nat, sink: nat)
    requires IsFlow(arcs, flow, n, source, sink) && InNodes(arcs, n)
    requires source < n && sink < n && source != sink
    ensures Net(arcs, flow, sink) == -Net(arcs, flow, source)
  {
    var ones := seq(n, _ => 1);
    DropByNode(arcs, flow, ones);
    DropOfConstant(arcs, flow, ones, 1);
    PotentialSumTwo(ones, NetOf(arcs, flow), n, source, sink);
  }

  lemma {:induction false} DropOfConstant<T>(arcs: seq<Arc<T>>, flow: seq<int>, p: seq<int>, c: int)
    requires |flow| == |arcs| && InNodes(arcs, |p|)
    requires forall v :: 0 <= v < |p| ==> p[v] == c
    ensures Drop(arcs, flow, p) == 0
  {
    if |arcs| > 0 {
      DropOfConstant(arcs[..|arcs| - 1], flow[..|arcs| - 1], p, c);
    }
  }

  lemma {:induction false} PotentialSumTwo(p: seq<int>, net: int -> int, n: nat, s: nat, t: nat)
    requires n <= |p| && s != t
    requires forall v: nat :: v < n && v != s && v != t ==> p[v] * net(v) == 0
    ensures PotentialSum(p, net, n) ==
            (if s < n then p[s] * net(s) else 0) + (if t < n then p[t] * net(t) else 0)
  {
    if n > 0 {
      PotentialSumTwo(p, net, n - 1, s, t);
    }
  }

  // --- Optimality ---

  // No residual direction of any arc loses money at the prices p.
  ghost predicate PricedOut<T>(arcs: seq<Arc<T>>, flow: seq<int>, p: seq<int>)
    requires |flow| == |arcs| && InNodes(arcs, |p|)
  {
    forall k :: 0 <= k < |arcs| ==>
      var reduced := arcs[k].cost + p[arcs[k].tail] - p[arcs[k].head];
      && (flow[k] < arcs[k].capacity ==> reduced >= 0)
      && (flow[k] > 0 ==> reduced <= 0)
  }

  lemma ArcBeats(x: int, y: int, cost: int, drop: int)
    requires y > x ==> cost + drop >= 0
    requires y < x ==> cost + drop <= 0
    ensures x * cost + x * drop <= y * cost + y * drop
  {
    assert (y - x) * (cost + drop) >= 0;
    assert (y - x) * (cost + drop) == y * cost + y * drop - (x * cost + x * drop);
  }

  lemma {:induction false} PricedOutBeats<T>(arcs: seq<Arc<T>>, flow: seq<int>, other: seq<int>, p: seq<int>)
    requires InNodes(arcs, |p|) && Bounded(arcs, flow) && Bounded(arcs, other)
    requires PricedOut(arcs, flow, p)
    ensures Cost(arcs, flow) + Drop(arcs, flow, p) <= Cost(arcs, other) + Drop(arcs, other, p)
  {
    if |arcs| > 0 {
      var last := |arcs| - 1;
      PricedOutBeats(arcs[..last], flow[..last], other[..last], p);
      var a := arcs[last];
      ArcBeats(flow[last], other[last], a.cost, p[a.tail] - p[a.head]);
    }
  }

  // Prices at which no residual direction loses money certify a cheapest flow.
  lemma PricedOutIsCheapest<T(!new)>(arcs: seq<Arc<T>>, flow: seq<int>, p: seq<int>, source: nat, sink: nat)
    requires InNodes(arcs, |p|) && source < |p| && sink < |p|
    requires IsFlow(arcs, flow, |p|, source, sink) && PricedOut(arcs, flow, p)
    ensures Cheapest(arcs, flow, |p|, source, sink)
  {
    forall other | IsFlow(arcs, other, |p|, source, sink)
                   && Net(arcs, other, source) == Net(arcs, flow, source)
      ensures Cost(arcs, flow) <= Cost(arcs, other)
    {
      if source != sink {
        NetsCancel(arcs, flow, |p|, source, sink);
        NetsCancel(arcs, other, |p|, source, sink);
      }
      DropOfEqualNets(arcs, flow, other, p);
      PricedOutBeats(arcs, flow, other, p);
    }
  }

  // --- Maximality ---

  ghost function Side(reached: set<nat>, n: nat): seq<int> {
    seq(n, v => if v in reached then 1 else 0)
  }

  // Arcs leaving the set are full and arcs entering it are empty.
  ghost predicate Saturated<T>(arcs: seq<Arc<T>>, flow: seq<int>, reached: set<nat>)
    requires |flow| == |arcs|
  {
    forall k :: 0 <= k < |arcs| ==>
      && (arcs[k].tail in reached && arcs[k].head !in reached ==> flow[k] == arcs[k].capacity)
      && (arcs[k].tail !in reached && arcs[k].head in reached ==> flow[k] == 0)
  }

  lemma {:induction false} SaturatedDrop<T>(arcs: seq<Arc<T>>, flow: seq<int>, other: seq<int>, reached: set<nat>,
                                            n: nat)
    requires InNodes(arcs, n) && Bounded(arcs, flow) && Bounded(arcs, other)
    requires Saturated(arcs, flow, reached)
    ensures Drop(arcs, other, Side(reached, n)) <= Drop(arcs, flow, Side(reached, n))
  {
    if |arcs| > 0 {
      var last := |arcs| - 1;
      SaturatedDrop(arcs[..last], flow[..last], other[..last], reached, n);
    }
  }

  lemma ValueAcrossCut<T>(arcs: seq<Arc<T>>, flow: seq<int>, reached: set<nat>, n: nat, source: nat, sink: nat)
    requires InNodes(arcs, n) && IsFlow(arcs, flow, n, source, sink)
    requires source < n && source in reached && sink !in reached
    ensures Drop(arcs, flow, Side(reached, n)) == Net(arcs, flow, source)
  {
    DropByNode(arcs, flow, Side(reached, n));
    PotentialSumTwo(Side(reached, n), NetOf(arcs, flow), n, source, sink);
  }

  // A saturated cut certifies a largest flow.
  lemma SaturatedIsLargest<T(!new)>(arcs: seq<Arc<T>>, flow: seq<int>, reached: set<nat>, n: nat, source: nat,
                                    sink: nat)
    requires InNodes(arcs, n) && IsFlow(arcs, flow, n, source, sink)
    requires source < n && source in reached && sink !in reached
    requires Saturated(arcs, flow, reached)
    ensures Largest(arcs, flow, n, source, sink)
  {
    forall other | IsFlow(arcs, other, n, source, sink)
      ensures Net(arcs, other, source) <= Net(arcs, flow, source)
    {
      ValueAcrossCut(arcs, flow, reached, n, source, sink);
      ValueAcrossCut(arcs, other, reached, n, source, sink);
      SaturatedDrop(arcs, flow, other, reached, n);
    }
  }

  // --- Changing a flow on one arc ---

  lemma {:induction false} NetUpdate<T>(arcs: seq<Arc<T>>, flow: seq<int>, k: nat, x: int, v: nat)
    requires |flow| == |arcs| && k < |arcs|
    ensures Net(arcs, flow[k := flow[k] + x], v) ==
            Net(arcs, flow, v) + (if arcs[k].tail == v then x else 0) - (if arcs[k].head == v then x else 0)
  {
    var last := |arcs| - 1;
    if k < last {
      NetUpdate(arcs[..last], flow[..last], k, x, v);
      assert flow[k := flow[k] + x][..last] == flow[..last][k := flow[k] + x];
    } else {
      assert flow[k := flow[k] + x][..last] == flow[..last];
    }
  }
}
