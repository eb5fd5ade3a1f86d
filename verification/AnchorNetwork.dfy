// The allocation network of select_frozen_anchors: its pools, nodes, links and costs, and sums over its links by kind.
module AnchorNetwork {
  import opened Options
  import opened Sums
  import opened Anchors

  // The reduced candidates of each cell, the strata they fall in, and the traces they come from.
  datatype Pools = Pools(cells: seq<Cell>, pool: seq<seq<Candidate>>, strata: seq<seq<Stratum>>, traces: seq<string>)

  ghost predicate PoolsOk(P: Pools) {
    && |P.pool| == |P.strata| == |P.cells| && Distinct(P.cells) && Distinct(P.traces)
    && forall c :: 0 <= c < |P.cells| ==> PoolOk(P, c)
  }

  ghost predicate PoolOk(P: Pools, c: int)
    requires |P.pool| == |P.strata| == |P.cells| && 0 <= c < |P.cells|
  {
    && DistinctTraces(P.pool[c]) && Distinct(P.strata[c])
    && forall x :: x in P.pool[c] ==> CellOf(x) == P.cells[c] && StratumOf(x) in P.strata[c] && x.traceId in P.traces
  }

  // --- Nodes and links ---

  datatype NodeKey = SourceNode | SinkNode | CellNode(cell: Cell) | BinNode(bin: Bin) | TraceNode(traceId: string)

  datatype Link = Supply(cell: Cell) | Marginal(bin: Bin, index: nat) | Choice(x: Candidate) | Use(traceId: string)

  const REQUIRED := 24

  // max_tie_cost * (required + 1)
  const BALANCE_WEIGHT := MAX_TIE_COST * (REQUIRED + 1)

  function TailOf(l: Link): NodeKey {
    match l
    case Supply(_) => SourceNode
    case Marginal(b, _) => CellNode(b.cell)
    case Choice(x) => BinNode(BinOf(x))
    case Use(t) => TraceNode(t)
  }

  function HeadOf(l: Link): NodeKey {
    match l
    case Supply(cell) => CellNode(cell)
    case Marginal(b, _) => BinNode(b)
    case Choice(x) => TraceNode(x.traceId)
    case Use(_) => SinkNode
  }

  function CapacityOf(l: Link): nat {
    if l.Supply? then ANCHORS_PER_CELL else 1
  }

  function LinkCost(r: Ranking, l: Link): nat {
    match l
    case Supply(_) => 0
    case Marginal(_, m) => m * BALANCE_WEIGHT
    case Choice(x) => TieCost(r, x)
    case Use(_) => 0
  }

  function CandidateOf(l: Link): Option<Candidate> {
    if l.Choice? then Some(l.x) else None
  }

  // --- The links in the order they are added ---

  ghost function BinLinks(b: Bin): seq<Link> {
    [Marginal(b, 0), Marginal(b, 1), Marginal(b, 2), Marginal(b, 3)]
  }

  ghost function StrataLinks(cell: Cell, strata: seq<Stratum>): seq<Link> {
    if |strata| == 0 then [] else
      StrataLinks(cell, strata[..|strata| - 1]) + BinLinks(Bin(cell, strata[|strata| - 1]))
  }

  ghost function ChoiceLinks(pool: seq<Candidate>): seq<Link> {
    seq(|pool|, i requires 0 <= i < |pool| => Choice(pool[i]))
  }

  ghost function CellLinks(P: Pools, c: nat): seq<Link>
    requires PoolsOk(P) && c < |P.cells|
  {
    [Supply(P.cells[c])] + StrataLinks(P.cells[c], P.strata[c]) + ChoiceLinks(P.pool[c])
  }

  ghost function LinksUpTo(P: Pools, n: nat): seq<Link>
    requires PoolsOk(P) && n <= |P.cells|
  {
    if n == 0 then [] else LinksUpTo(P, n - 1) + CellLinks(P, n - 1)
  }

  ghost function UseLinks(traces: seq<string>): seq<Link> {
    seq(|traces|, i requires 0 <= i < |traces| => Use(traces[i]))
  }

  ghost function Links(P: Pools): seq<Link>
    requires PoolsOk(P)
  {
    LinksUpTo(P, |P.cells|) + UseLinks(P.traces)
  }

  // --- Everything in the pools, and every cell-stratum bin ---

  ghost function AllUpTo(P: Pools, n: nat): seq<Candidate>
    requires PoolsOk(P) && n <= |P.cells|
  {
    if n == 0 then [] else AllUpTo(P, n - 1) + P.pool[n - 1]
  }

  ghost function All(P: Pools): seq<Candidate>
    requires PoolsOk(P)
  {
    AllUpTo(P, |P.cells|)
  }

  function CellBins(cell: Cell, strata: seq<Stratum>): seq<Bin> {
    seq(|strata|, i requires 0 <= i < |strata| => Bin(cell, strata[i]))
  }

  function BinsUpTo(P: Pools, n: nat): seq<Bin>
    requires PoolsOk(P) && n <= |P.cells|
  {
    if n == 0 then [] else BinsUpTo(P, n - 1) + CellBins(P.cells[n - 1], P.strata[n - 1])
  }

  function Bins(P: Pools): seq<Bin>
    requires PoolsOk(P)
  {
    BinsUpTo(P, |P.cells|)
  }

  // --- Membership and distinctness ---

  lemma {:induction false} InAllUpTo(P: Pools, n: nat, x: Candidate)
    requires PoolsOk(P) && n <= |P.cells|
    ensures x in AllUpTo(P, n) <==> exists c :: 0 <= c < n && x in P.pool[c]
  {
    if n > 0 {
      InAllUpTo(P, n - 1, x);
    }
  }

  lemma {:induction false} InBinsUpTo(P: Pools, n: nat, b: Bin)
    requires PoolsOk(P) && n <= |P.cells|
    ensures b in BinsUpTo(P, n) <==> exists c :: 0 <= c < n && b.cell == P.cells[c] && b.stratum in P.strata[c]
  {
    if n > 0 {
      InBinsUpTo(P, n - 1, b);
      var here := CellBins(P.cells[n - 1], P.strata[n - 1]);
      if b.cell == P.cells[n - 1] && b.stratum in P.strata[n - 1] {
        var i :| 0 <= i < |P.strata[n - 1]| && P.strata[n - 1][i] == b.stratum;
        assert here[i] == b;
      }
    }
  }

  lemma DistinctAppend<T(!new)>(xs: seq<T>, ys: seq<T>)
    requires Distinct(xs) && Distinct(ys) && forall x :: x in xs ==> x !in ys
    ensures Distinct(xs + ys)
  {
    forall i, j | 0 <= i < j < |xs + ys|
      ensures (xs + ys)[i] != (xs + ys)[j]
    {
      if i < |xs| <= j {
        assert xs[i] in xs && ys[j - |xs|] in ys;
      }
    }
  }

  lemma {:induction false} AllDistinct(P: Pools, n: nat)
    requires PoolsOk(P) && n <= |P.cells|
    ensures Distinct(AllUpTo(P, n))
  {
    if n > 0 {
      AllDistinct(P, n - 1);
      assert PoolOk(P, n - 1);
      var before := AllUpTo(P, n - 1);
      forall x | x in before
        ensures x !in P.pool[n - 1]
      {
        InAllUpTo(P, n - 1, x);
        var c :| 0 <= c < n - 1 && x in P.pool[c];
        assert PoolOk(P, c);
      }
      DistinctAppend(AllUpTo(P, n - 1), P.pool[n - 1]);
    }
  }

  lemma {:induction false} BinsDistinct(P: Pools, n: nat)
    requires PoolsOk(P) && n <= |P.cells|
    ensures Distinct(BinsUpTo(P, n))
  {
    if n > 0 {
      BinsDistinct(P, n - 1);
      assert PoolOk(P, n - 1);
      var before := BinsUpTo(P, n - 1);
      forall b | b in before
        ensures b !in CellBins(P.cells[n - 1], P.strata[n - 1])
      {
        InBinsUpTo(P, n - 1, b);
      }
      DistinctAppend(BinsUpTo(P, n - 1), CellBins(P.cells[n - 1], P.strata[n - 1]));
    }
  }

  lemma BinOfPooled(P: Pools, x: Candidate)
    requires PoolsOk(P) && x in All(P)
    ensures BinOf(x) in Bins(P) && CellOf(x) in P.cells && x.traceId in P.traces
  {
    InAllUpTo(P, |P.cells|, x);
    var c :| 0 <= c < |P.cells| && x in P.pool[c];
    assert PoolOk(P, c);
    InBinsUpTo(P, |P.cells|, BinOf(x));
  }

  // --- Sums over links split by kind ---

  ghost function Marginals(g: Link -> int, b: Bin): int {
    g(Marginal(b, 0)) + g(Marginal(b, 1)) + g(Marginal(b, 2)) + g(Marginal(b, 3))
  }

  // A function on links, seen from the cells, bins, candidates and traces.
  ghost function OnSupplies(g: Link -> int): Cell -> int {
    (c: Cell) => g(Supply(c))
  }

  ghost function OnBins(g: Link -> int): Bin -> int {
    (b: Bin) => Marginals(g, b)
  }

  ghost function OnChoices(g: Link -> int): Candidate -> int {
    (x: Candidate) => g(Choice(x))
  }

  ghost function OnUses(g: Link -> int): string -> int {
    (t: string) => g(Use(t))
  }

  lemma {:induction false} SumStrataLinks(cell: Cell, strata: seq<Stratum>, g: Link -> int)
    ensures Sum(StrataLinks(cell, strata), g) == Sum(CellBins(cell, strata), OnBins(g))
  {
    if |strata| > 0 {
      var front, b := strata[..|strata| - 1], Bin(cell, strata[|strata| - 1]);
      SumStrataLinks(cell, front, g);
      assert CellBins(cell, strata) == CellBins(cell, front) + [b];
      SumAppend(StrataLinks(cell, front), BinLinks(b), g);
      SumFour(g, b);
      SumAppend(CellBins(cell, front), [b], OnBins(g));
      assert Sum([b], OnBins(g)) == Marginals(g, b);
    }
  }

  lemma SumFour(g: Link -> int, b: Bin)
    ensures Sum(BinLinks(b), g) == Marginals(g, b)
  {
    var one, two := [Marginal(b, 0)], [Marginal(b, 1)];
    var three, four := [Marginal(b, 2)], [Marginal(b, 3)];
    assert BinLinks(b) == one + two + three + four;
    SumAppend(one + two + three, four, g);
    SumAppend(one + two, three, g);
    SumAppend(one, two, g);
  }

  lemma {:induction false} SumChoiceLinks(pool: seq<Candidate>, g: Link -> int)
    ensures Sum(ChoiceLinks(pool), g) == Sum(pool, OnChoices(g))
  {
    if |pool| > 0 {
      SumChoiceLinks(pool[..|pool| - 1], g);
      assert ChoiceLinks(pool)[..|pool| - 1] == ChoiceLinks(pool[..|pool| - 1]);
    }
  }

  lemma {:induction false} SumUseLinks(traces: seq<string>, g: Link -> int)
    ensures Sum(UseLinks(traces), g) == Sum(traces, OnUses(g))
  {
    if |traces| > 0 {
      SumUseLinks(traces[..|traces| - 1], g);
      assert UseLinks(traces)[..|traces| - 1] == UseLinks(traces[..|traces| - 1]);
    }
  }

  lemma SumCellLinks(P: Pools, c: nat, g: Link -> int)
    requires PoolsOk(P) && c < |P.cells|
    ensures Sum(CellLinks(P, c), g) ==
            g(Supply(P.cells[c]))
            + Sum(CellBins(P.cells[c], P.strata[c]), OnBins(g))
            + Sum(P.pool[c], OnChoices(g))
  {
    var supply, strata := [Supply(P.cells[c])], StrataLinks(P.cells[c], P.strata[c]);
    SumAppend(supply + strata, ChoiceLinks(P.pool[c]), g);
    SumAppend(supply, strata, g);
    assert Sum(supply, g) == g(Supply(P.cells[c]));
    SumStrataLinks(P.cells[c], P.strata[c], g);
    SumChoiceLinks(P.pool[c], g);
  }

  lemma {:induction false} SumLinksUpTo(P: Pools, n: nat, g: Link -> int)
    requires PoolsOk(P) && n <= |P.cells|
    ensures Sum(LinksUpTo(P, n), g) ==
            Sum(P.cells[..n], OnSupplies(g))
            + Sum(BinsUpTo(P, n), OnBins(g))
            + Sum(AllUpTo(P, n), OnChoices(g))
  {
    hide CellLinks, Marginals;
    if n > 0 {
      var c := n - 1;
      SumLinksUpTo(P, c, g);
      SumAppend(LinksUpTo(P, c), CellLinks(P, c), g);
      SumCellLinks(P, c, g);
      assert P.cells[..n][..c] == P.cells[..c];
      SumAppend(BinsUpTo(P, c), CellBins(P.cells[c], P.strata[c]), OnBins(g));
      SumAppend(AllUpTo(P, c), P.pool[c], OnChoices(g));
    }
  }

  lemma SumLinks(P: Pools, g: Link -> int)
    requires PoolsOk(P)
    ensures Sum(Links(P), g) ==
            Sum(P.cells, OnSupplies(g))
            + Sum(Bins(P), OnBins(g))
            + Sum(All(P), OnChoices(g))
            + Sum(P.traces, OnUses(g))
  {
    SumLinksUpTo(P, |P.cells|, g);
    assert P.cells[..|P.cells|] == P.cells;
    SumAppend(LinksUpTo(P, |P.cells|), UseLinks(P.traces), g);
    SumUseLinks(P.traces, g);
  }
}
