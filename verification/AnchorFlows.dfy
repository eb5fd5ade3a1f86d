// Allocations and flows on the allocation network, in both directions.
module AnchorFlows {
  import opened Sums
  import opened Anchors
  import opened AnchorNetwork

  // What a link contributes to the net outflow of a node when it carries F(l).
  ghost function NetAt(F: Link -> int, key: NodeKey, l: Link): int {
    (if TailOf(l) == key then F(l) else 0) - (if HeadOf(l) == key then F(l) else 0)
  }

  ghost function Contribution(F: Link -> int, key: NodeKey): Link -> int {
    (l: Link) => NetAt(F, key, l)
  }

  ghost function KeyNet(P: Pools, F: Link -> int, key: NodeKey): int
    requires PoolsOk(P)
  {
    Sum(Links(P), Contribution(F, key))
  }

  ghost function Priced(r: Ranking, F: Link -> int): Link -> int {
    (l: Link) => F(l) * LinkCost(r, l)
  }

  ghost function LinkTotal(P: Pools, r: Ranking, F: Link -> int): int
    requires PoolsOk(P)
  {
    Sum(Links(P), Priced(r, F))
  }

  // --- The net outflow of each kind of node ---

  lemma ContributionByKind(F: Link -> int, key: NodeKey)
    ensures forall c :: OnSupplies(Contribution(F, key))(c) == NetAt(F, key, Supply(c))
    ensures forall b :: OnBins(Contribution(F, key))(b) ==
                        NetAt(F, key, Marginal(b, 0)) + NetAt(F, key, Marginal(b, 1))
                        + NetAt(F, key, Marginal(b, 2)) + NetAt(F, key, Marginal(b, 3))
    ensures forall x :: OnChoices(Contribution(F, key))(x) == NetAt(F, key, Choice(x))
    ensures forall t :: OnUses(Contribution(F, key))(t) == NetAt(F, key, Use(t))
  {
    var g := Contribution(F, key);
    assert forall l :: g(l) == NetAt(F, key, l);
  }

  lemma SourceNet(P: Pools, F: Link -> int)
    requires PoolsOk(P)
    ensures KeyNet(P, F, SourceNode) == Sum(P.cells, OnSupplies(F))
  {
    hide PoolsOk, Links, All;
    var g := Contribution(F, SourceNode);
    ContributionByKind(F, SourceNode);
    SumLinks(P, g);
    SumExt(P.cells, OnSupplies(g), OnSupplies(F));
    SumZero(Bins(P), OnBins(g));
    SumZero(All(P), OnChoices(g));
    SumZero(P.traces, OnUses(g));
  }

  lemma CellNet(P: Pools, F: Link -> int, cell: Cell)
    requires PoolsOk(P) && cell in P.cells
    ensures KeyNet(P, F, CellNode(cell)) == Sum(Bins(P), Only(OfCell(cell), OnBins(F))) - F(Supply(cell))
  {
    hide Links, Bins, All;
    var g := Contribution(F, CellNode(cell));
    ContributionByKind(F, CellNode(cell));
    SumLinks(P, g);
    SumPoint(P.cells, cell, OnSupplies(g));
    SumExt(Bins(P), OnBins(g), Only(OfCell(cell), OnBins(F)));
    SumZero(All(P), OnChoices(g));
    SumZero(P.traces, OnUses(g));
  }

  lemma BinsAreDistinct(P: Pools)
    requires PoolsOk(P)
    ensures Distinct(Bins(P))
  {
    BinsDistinct(P, |P.cells|);
  }

  // A bin's node takes in its marginal links and feeds its chosen candidates.
  lemma BinTerms(F: Link -> int, bin: Bin)
    ensures var g := Contribution(F, BinNode(bin));
            && (forall c :: OnSupplies(g)(c) == 0) && (forall t :: OnUses(g)(t) == 0)
            && (forall b :: OnBins(g)(b) == if b == bin then -Marginals(F, bin) else 0)
            && (forall x :: OnChoices(g)(x) == Only(InBin(bin), OnChoices(F))(x))
  {
    ContributionByKind(F, BinNode(bin));
  }

  lemma BinNet(P: Pools, F: Link -> int, bin: Bin)
    requires PoolsOk(P) && bin in Bins(P)
    ensures KeyNet(P, F, BinNode(bin)) == Sum(All(P), Only(InBin(bin), OnChoices(F))) - Marginals(F, bin)
  {
    hide PoolsOk, Links, All, Bins, NetAt, Contribution, OnSupplies, OnBins, OnChoices, OnUses, Only, Marginals;
    var g := Contribution(F, BinNode(bin));
    BinTerms(F, bin);
    SumLinks(P, g);
    SumZero(P.cells, OnSupplies(g));
    BinsAreDistinct(P);
    SumPoint(Bins(P), bin, OnBins(g));
    SumExt(All(P), OnChoices(g), Only(InBin(bin), OnChoices(F)));
    SumZero(P.traces, OnUses(g));
  }

  lemma TraceNet(P: Pools, F: Link -> int, trace: string)
    requires PoolsOk(P) && trace in P.traces
    ensures KeyNet(P, F, TraceNode(trace)) == F(Use(trace)) - Sum(All(P), Only(FromTrace(trace), OnChoices(F)))
  {
    hide Links, Bins, All;
    var g := Contribution(F, TraceNode(trace));
    ContributionByKind(F, TraceNode(trace));
    SumLinks(P, g);
    SumZero(P.cells, OnSupplies(g));
    SumZero(Bins(P), OnBins(g));
    SumScale(All(P), -1, Only(FromTrace(trace), OnChoices(F)), OnChoices(g));
    SumPoint(P.traces, trace, OnUses(g));
  }

  // --- Bins within cells ---

  ghost function OfCell(cell: Cell): Bin -> bool {
    (b: Bin) => b.cell == cell
  }

  ghost function PerBin(P: Pools, weight: Candidate -> int): Bin -> int
    requires PoolsOk(P)
  {
    (b: Bin) => Sum(All(P), Only(InBin(b), weight))
  }

  // Adding up the bins of a cell is adding up the cell.
  lemma BinsOfCell(P: Pools, weight: Candidate -> int, cell: Cell)
    requires PoolsOk(P)
    ensures Sum(Bins(P), Only(OfCell(cell), PerBin(P, weight))) == Sum(All(P), Only(InCell(cell), weight))
  {
    var w := (b: Bin, x: Candidate) => if b.cell == cell && BinOf(x) == b then weight(x) else 0;
    SumSwap(Bins(P), All(P), w);
    forall b | b in Bins(P)
      ensures RowSum(All(P), w)(b) == Only(OfCell(cell), PerBin(P, weight))(b)
    {
      if b.cell == cell {
        SumExt(All(P), Row(w, b), Only(InBin(b), weight));
      } else {
        SumZero(All(P), Row(w, b));
      }
    }
    SumExt(Bins(P), RowSum(All(P), w), Only(OfCell(cell), PerBin(P, weight)));
    BinsDistinct(P, |P.cells|);
    forall x | x in All(P)
      ensures ColumnSum(Bins(P), w)(x) == Only(InCell(cell), weight)(x)
    {
      BinOfPooled(P, x);
      SumPoint(Bins(P), BinOf(x), Column(w, x));
    }
    SumExt(All(P), ColumnSum(Bins(P), w), Only(InCell(cell), weight));
  }

  // --- From a flow to an allocation ---

  ghost predicate WithinCapacity(P: Pools, F: Link -> int)
    requires PoolsOk(P)
  {
    && (forall c :: c in P.cells ==> 0 <= F(Supply(c)) <= 4)
    && (forall b, m: nat :: b in Bins(P) && m < 4 ==> 0 <= F(Marginal(b, m)) <= 1)
    && (forall x :: x in All(P) ==> 0 <= F(Choice(x)) <= 1)
    && (forall t :: t in P.traces ==> 0 <= F(Use(t)) <= 1)
  }

  ghost predicate Balanced(P: Pools, F: Link -> int)
    requires PoolsOk(P)
  {
    && (forall c :: c in P.cells ==> KeyNet(P, F, CellNode(c)) == 0)
    && (forall b :: b in Bins(P) ==> KeyNet(P, F, BinNode(b)) == 0)
    && (forall t :: t in P.traces ==> KeyNet(P, F, TraceNode(t)) == 0)
  }

  // The candidates whose choice link is used.
  ghost predicate Chosen(P: Pools, F: Link -> int, xs: seq<Candidate>)
    requires PoolsOk(P)
  {
    Distinct(xs) && forall x :: x in xs <==> x in All(P) && F(Choice(x)) == 1
  }

  ghost function Weighted(F: Link -> int, w: Candidate -> int): Candidate -> int {
    (x: Candidate) => F(Choice(x)) * w(x)
  }

  lemma ChosenSum(P: Pools, F: Link -> int, xs: seq<Candidate>, w: Candidate -> int)
    requires PoolsOk(P) && WithinCapacity(P, F) && Chosen(P, F, xs)
    ensures Sum(xs, w) == Sum(All(P), Weighted(F, w))
  {
    AllDistinct(P, |P.cells|);
    SumCommon(All(P), xs, w);
    SumExt(xs, Only(Member(All(P)), w), w);
    SumExt(All(P), Only(Member(xs), w), Weighted(F, w));
  }

  lemma ChosenCount(P: Pools, F: Link -> int, xs: seq<Candidate>, p: Candidate -> bool)
    requires PoolsOk(P) && WithinCapacity(P, F) && Chosen(P, F, xs)
    ensures Count(xs, p) == Sum(All(P), Only(p, OnChoices(F)))
  {
    ChosenSum(P, F, xs, Ones(p));
    SumExt(All(P), Weighted(F, Ones(p)), Only(p, OnChoices(F)));
  }

  lemma ChosenBins(P: Pools, F: Link -> int, xs: seq<Candidate>, b: Bin)
    requires PoolsOk(P) && WithinCapacity(P, F) && Balanced(P, F) && Chosen(P, F, xs) && b in Bins(P)
    ensures CountBin(xs, b) == Marginals(F, b)
  {
    BinNet(P, F, b);
    ChosenCount(P, F, xs, InBin(b));
  }

  lemma ChosenCells(P: Pools, F: Link -> int, xs: seq<Candidate>, cell: Cell)
    requires PoolsOk(P) && WithinCapacity(P, F) && Balanced(P, F) && Chosen(P, F, xs) && cell in P.cells
    ensures CountCell(xs, cell) == F(Supply(cell))
  {
    CellNet(P, F, cell);
    BinsOfCell(P, OnChoices(F), cell);
    forall b | b in Bins(P)
      ensures OnBins(F)(b) == PerBin(P, OnChoices(F))(b)
    {
      BinNet(P, F, b);
    }
    SumExt(Bins(P), Only(OfCell(cell), OnBins(F)), Only(OfCell(cell), PerBin(P, OnChoices(F))));
    ChosenCount(P, F, xs, InCell(cell));
  }

  lemma {:induction false} CountPositive<T>(xs: seq<T>, p: T -> bool, i: nat)
    requires i < |xs| && p(xs[i])
    ensures Count(xs, p) >= 1
  {
    if i < |xs| - 1 {
      CountPositive(xs[..|xs| - 1], p, i);
    } else {
      CountNonNegative(xs[..|xs| - 1], p);
    }
  }

  lemma {:induction false} CountNonNegative<T>(xs: seq<T>, p: T -> bool)
    ensures Count(xs, p) >= 0
  {
    if |xs| > 0 {
      CountNonNegative(xs[..|xs| - 1], p);
    }
  }

  lemma {:induction false} CountTwo<T>(xs: seq<T>, p: T -> bool, i: nat, j: nat)
    requires i < j < |xs| && p(xs[i]) && p(xs[j])
    ensures Count(xs, p) >= 2
  {
    if j < |xs| - 1 {
      CountTwo(xs[..|xs| - 1], p, i, j);
    } else {
      CountPositive(xs[..|xs| - 1], p, i);
    }
  }

  lemma ChosenTraces(P: Pools, F: Link -> int, xs: seq<Candidate>)
    requires PoolsOk(P) && WithinCapacity(P, F) && Balanced(P, F) && Chosen(P, F, xs)
    ensures DistinctTraces(xs)
  {
    forall i, j | 0 <= i < j < |xs|
      ensures xs[i].traceId != xs[j].traceId
    {
      var t := xs[i].traceId;
      if xs[j].traceId == t {
        assert xs[i] in xs;
        BinOfPooled(P, xs[i]);
        TraceNet(P, F, t);
        CountTwo(xs, FromTrace(t), i, j);
        ChosenCount(P, F, xs, FromTrace(t));
      }
    }
  }

  // Parallel unit links at marginal costs 0, w, 2w, 3w never cost less than w per pair.
  lemma ConvexMarginals(a: int, b: int, c: int, d: int)
    requires 0 <= a <= 1 && 0 <= b <= 1 && 0 <= c <= 1 && 0 <= d <= 1
    ensures b + 2 * c + 3 * d >= Pairs(a + b + c + d)
  {
  }

  ghost function MarginalTotal(F: Link -> int, b: Bin): int {
    F(Marginal(b, 1)) + 2 * F(Marginal(b, 2)) + 3 * F(Marginal(b, 3))
  }

  ghost function MarginalTotals(F: Link -> int): Bin -> int {
    (b: Bin) => MarginalTotal(F, b)
  }

  lemma LinkTotalByKind(P: Pools, r: Ranking, F: Link -> int)
    requires PoolsOk(P)
    ensures LinkTotal(P, r, F) ==
            BALANCE_WEIGHT * Sum(Bins(P), MarginalTotals(F)) + Sum(All(P), Weighted(F, Tie(r)))
  {
    var g := Priced(r, F);
    assert forall l :: g(l) == F(l) * LinkCost(r, l);
    SumLinks(P, g);
    SumZero(P.cells, OnSupplies(g));
    SumZero(P.traces, OnUses(g));
    SumExt(All(P), OnChoices(g), Weighted(F, Tie(r)));
    forall b | b in Bins(P)
      ensures OnBins(g)(b) == BALANCE_WEIGHT * MarginalTotals(F)(b)
    {
      MarginalsPriced(r, F, b);
    }
    SumScale(Bins(P), BALANCE_WEIGHT, MarginalTotals(F), OnBins(g));
  }

  lemma MarginalsPriced(r: Ranking, F: Link -> int, b: Bin)
    ensures Marginals(Priced(r, F), b) == BALANCE_WEIGHT * MarginalTotal(F, b)
  {
    var g := Priced(r, F);
    assert forall l :: g(l) == F(l) * LinkCost(r, l);
    assert LinkCost(r, Marginal(b, 0)) == 0 && LinkCost(r, Marginal(b, 1)) == BALANCE_WEIGHT;
    assert LinkCost(r, Marginal(b, 2)) == 2 * BALANCE_WEIGHT && LinkCost(r, Marginal(b, 3)) == 3 * BALANCE_WEIGHT;
  }

  lemma BinsCover(P: Pools, xs: seq<Candidate>)
    requires PoolsOk(P) && forall x :: x in xs ==> x in All(P)
    ensures Distinct(Bins(P)) && forall x :: x in xs ==> BinOf(x) in Bins(P)
  {
    BinsDistinct(P, |P.cells|);
    forall x | x in xs
      ensures BinOf(x) in Bins(P)
    {
      BinOfPooled(P, x);
    }
  }

  lemma ChosenBalance(P: Pools, F: Link -> int, xs: seq<Candidate>)
    requires PoolsOk(P) && WithinCapacity(P, F) && Balanced(P, F) && Chosen(P, F, xs)
    ensures SharedPairs(xs) <= Sum(Bins(P), MarginalTotals(F))
  {
    forall b | b in Bins(P)
      ensures PairsPerBin(xs)(b) <= MarginalTotals(F)(b)
    {
      ChosenBins(P, F, xs, b);
      ConvexMarginals(F(Marginal(b, 0)), F(Marginal(b, 1)), F(Marginal(b, 2)), F(Marginal(b, 3)));
    }
    SumLe(Bins(P), PairsPerBin(xs), MarginalTotals(F));
    BinsCover(P, xs);
    SharedPairsByBin(xs, Bins(P));
  }

  // The cost of a flow is at least what its chosen candidates cost.
  lemma ChosenCost(P: Pools, r: Ranking, F: Link -> int, xs: seq<Candidate>)
    requires PoolsOk(P) && WithinCapacity(P, F) && Balanced(P, F) && Chosen(P, F, xs)
    ensures LinkTotal(P, r, F) >= BALANCE_WEIGHT * SharedPairs(xs) + TieTotal(r, xs)
  {
    hide PoolsOk, WithinCapacity, Balanced, Chosen, SharedPairs, LinkTotal;
    LinkTotalByKind(P, r, F);
    ChosenBalance(P, F, xs);
    ChosenSum(P, F, xs, Tie(r));
  }

  // --- From an allocation to a flow ---

  // Saturate the cheapest marginals of each bin and the chosen candidates.
  ghost function FlowOf(xs: seq<Candidate>): Link -> int {
    (l: Link) => Carried(xs, l)
  }

  ghost function Carried(xs: seq<Candidate>, l: Link): int {
    match l
    case Supply(_) => ANCHORS_PER_CELL
    case Marginal(b, m) => Ind(m < CountBin(xs, b))
    case Choice(x) => Ind(x in xs)
    case Use(t) => Count(xs, FromTrace(t))
  }

  ghost predicate PooledAllocation(P: Pools, xs: seq<Candidate>)
    requires PoolsOk(P)
  {
    && (forall x :: x in xs ==> x in All(P))
    && DistinctTraces(xs)
    && forall c :: c in P.cells ==> CountCell(xs, c) == ANCHORS_PER_CELL
  }

  lemma {:induction false} CountLe<T>(xs: seq<T>, p: T -> bool, q: T -> bool)
    requires forall x :: x in xs && p(x) ==> q(x)
    ensures Count(xs, p) <= Count(xs, q)
  {
    SumLe(xs, Ones(p), Ones(q));
  }

  lemma {:induction false} TraceOnce(xs: seq<Candidate>, t: string)
    requires DistinctTraces(xs)
    ensures 0 <= Count(xs, FromTrace(t)) <= 1
    ensures (exists x :: x in xs && x.traceId == t) ==> Count(xs, FromTrace(t)) == 1
  {
    if |xs| > 0 {
      var front, last := xs[..|xs| - 1], xs[|xs| - 1];
      TraceOnce(front, t);
      if last.traceId == t {
        SumZero(front, Ones(FromTrace(t)));
      }
    }
  }

  lemma CarriedChoices(P: Pools, xs: seq<Candidate>, p: Candidate -> bool)
    requires PoolsOk(P) && PooledAllocation(P, xs)
    ensures Sum(All(P), Only(p, OnChoices(FlowOf(xs)))) == Count(xs, p)
  {
    AllDistinct(P, |P.cells|);
    assert Distinct(xs);
    var F := FlowOf(xs);
    assert forall l :: F(l) == Carried(xs, l);
    SumCommon(All(P), xs, Ones(p));
    SumExt(xs, Only(Member(All(P)), Ones(p)), Ones(p));
    SumExt(All(P), Only(Member(xs), Ones(p)), Only(p, OnChoices(F)));
  }

  lemma BinCount(P: Pools, xs: seq<Candidate>, b: Bin)
    requires PoolsOk(P) && PooledAllocation(P, xs) && b in Bins(P)
    ensures 0 <= CountBin(xs, b) <= 4
  {
    InBinsUpTo(P, |P.cells|, b);
    assert b.cell in P.cells;
    CountLe(xs, InBin(b), InCell(b.cell));
    CountNonNegative(xs, InBin(b));
  }

  lemma CarriedBins(P: Pools, xs: seq<Candidate>, b: Bin)
    requires PoolsOk(P) && PooledAllocation(P, xs) && b in Bins(P)
    ensures Marginals(FlowOf(xs), b) == CountBin(xs, b)
    ensures MarginalTotal(FlowOf(xs), b) == Pairs(CountBin(xs, b))
  {
    BinCount(P, xs, b);
    var F := FlowOf(xs);
    assert forall l :: F(l) == Carried(xs, l);
  }

  lemma CarriedFlow(P: Pools, xs: seq<Candidate>)
    requires PoolsOk(P) && PooledAllocation(P, xs)
    ensures WithinCapacity(P, FlowOf(xs)) && Balanced(P, FlowOf(xs))
  {
    var F := FlowOf(xs);
    assert forall l :: F(l) == Carried(xs, l);
    forall t | t in P.traces
      ensures 0 <= F(Use(t)) <= 1 && KeyNet(P, F, TraceNode(t)) == 0
    {
      TraceOnce(xs, t);
      TraceNet(P, F, t);
      CarriedChoices(P, xs, FromTrace(t));
    }
    forall b | b in Bins(P)
      ensures KeyNet(P, F, BinNode(b)) == 0
    {
      BinNet(P, F, b);
      CarriedChoices(P, xs, InBin(b));
      CarriedBins(P, xs, b);
    }
    forall c | c in P.cells
      ensures KeyNet(P, F, CellNode(c)) == 0
    {
      CellNet(P, F, c);
      CarriedChoices(P, xs, InCell(c));
      BinsOfCell(P, OnChoices(F), c);
      forall b | b in Bins(P)
        ensures OnBins(F)(b) == PerBin(P, OnChoices(F))(b)
      {
        CarriedChoices(P, xs, InBin(b));
        CarriedBins(P, xs, b);
      }
      SumExt(Bins(P), Only(OfCell(c), OnBins(F)), Only(OfCell(c), PerBin(P, OnChoices(F))));
    }
  }

  lemma CarriedPairs(P: Pools, xs: seq<Candidate>)
    requires PoolsOk(P) && PooledAllocation(P, xs)
    ensures Sum(Bins(P), MarginalTotals(FlowOf(xs))) == SharedPairs(xs)
  {
    hide PoolsOk, SharedPairs, Bins, All, DistinctTraces, CountCell, FlowOf;
    forall b | b in Bins(P)
      ensures PairsPerBin(xs)(b) == MarginalTotals(FlowOf(xs))(b)
    {
      CarriedBins(P, xs, b);
    }
    SumExt(Bins(P), PairsPerBin(xs), MarginalTotals(FlowOf(xs)));
    BinsCover(P, xs);
    SharedPairsByBin(xs, Bins(P));
  }

  lemma CarriedChosen(P: Pools, xs: seq<Candidate>)
    requires PoolsOk(P) && PooledAllocation(P, xs)
    ensures Chosen(P, FlowOf(xs), xs)
  {
    hide PoolsOk, All;
    assert forall l :: FlowOf(xs)(l) == Carried(xs, l);
  }

  lemma CarriedCost(P: Pools, r: Ranking, xs: seq<Candidate>)
    requires PoolsOk(P) && PooledAllocation(P, xs)
    ensures LinkTotal(P, r, FlowOf(xs)) == BALANCE_WEIGHT * SharedPairs(xs) + TieTotal(r, xs)
    ensures BALANCE_WEIGHT == 25 * 0x1_0000_0000_0000
  {
    hide PoolsOk, PooledAllocation, WithinCapacity, Balanced, Chosen, SharedPairs, LinkTotal, Bins, All, FlowOf;
    LinkTotalByKind(P, r, FlowOf(xs));
    CarriedPairs(P, xs);
    CarriedFlow(P, xs);
    CarriedChosen(P, xs);
    ChosenSum(P, FlowOf(xs), xs, Tie(r));
  }

  lemma CarriedValue(P: Pools, xs: seq<Candidate>)
    requires PoolsOk(P)
    ensures KeyNet(P, FlowOf(xs), SourceNode) == ANCHORS_PER_CELL * |P.cells|
  {
    var F := FlowOf(xs);
    assert forall l :: F(l) == Carried(xs, l);
    SourceNet(P, F);
    SumConstant(P.cells, ANCHORS_PER_CELL, OnSupplies(F));
  }

  lemma {:induction false} SumConstant<T>(xs: seq<T>, a: int, w: T -> int)
    requires forall x :: x in xs ==> w(x) == a
    ensures Sum(xs, w) == a * |xs|
  {
    if |xs| > 0 {
      SumConstant(xs[..|xs| - 1], a, w);
      assert a * |xs| == a * (|xs| - 1) + a;
    }
  }

  // Terms of at most a that sum to a per term are all a.
  lemma {:induction false} SumSaturated<T>(xs: seq<T>, a: int, w: T -> int)
    requires forall x :: x in xs ==> w(x) <= a
    ensures Sum(xs, w) <= a * |xs|
    ensures Sum(xs, w) == a * |xs| ==> forall x :: x in xs ==> w(x) == a
  {
    if |xs| > 0 {
      SumSaturated(xs[..|xs| - 1], a, w);
      assert xs[|xs| - 1] in xs;
      assert a * |xs| == a * (|xs| - 1) + a;
    }
  }
}
