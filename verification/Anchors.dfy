// Candidates, cells and strata of the anchor design, and what a valid allocation of anchors is.
module Anchors {
  import opened Sums

  datatype Candidate = Candidate(
    traceId: string,
    sentenceClass: string,
    direction: string,
    sentenceIndex: nat,
    sentenceText: string,
    charStart: nat,
    charEnd: nat,
    initialSide: string,
    finalFlip: bool,
    eligible: bool,
    provenance: string)

  datatype Cell = Cell(sentenceClass: string, direction: string)

  datatype Stratum = Stratum(initialSide: string, finalFlip: bool)

  datatype Bin = Bin(cell: Cell, stratum: Stratum)

  function CellOf(x: Candidate): Cell {
    Cell(x.sentenceClass, x.direction)
  }

  function StratumOf(x: Candidate): Stratum {
    Stratum(x.initialSide, x.finalFlip)
  }

  function BinOf(x: Candidate): Bin {
    Bin(CellOf(x), StratumOf(x))
  }

  const ANCHORS_PER_CELL := 4

  // --- Ranks ---

  // A SHA-256 digest read as a number; hexadecimal digests of equal length compare the same way.
  type Digest = n: nat | n < 0x1_00000000_00000000_00000000_00000000_00000000_00000000_00000000_00000000

  // What _outcome_blind_rank hashes: neither outcome label is in it.
  datatype RankKey = RankKey(seed: string, traceId: string, sentenceClass: string, direction: string,
                             sentenceIndex: nat, sentenceText: string, charStart: nat, charEnd: nat)

  // The uninterpreted hash together with the selection seed.
  datatype Ranking = Ranking(hash: RankKey -> Digest, seed: string)

  function Rank(r: Ranking, x: Candidate): Digest {
    r.hash(RankKey(r.seed, x.traceId, x.sentenceClass, x.direction, x.sentenceIndex, x.sentenceText, x.charStart,
                   x.charEnd))
  }

  const MAX_TIE_COST := 0x1_0000_0000_0000

  // The first 12 of 64 hexadecimal digits.
  function TieCost(r: Ranking, x: Candidate): (cost: nat)
    ensures cost < MAX_TIE_COST
  {
    Rank(r, x) / 0x1_00000000_00000000_00000000_00000000_00000000_00000000_0000
  }

  const TIE_UNIT := 0x1_00000000_00000000_00000000_00000000_00000000_00000000_0000

  // The tie cost is the number of whole units in the rank, and a full rank has as many units as there are tie costs.
  lemma TieCostIs(r: Ranking, x: Candidate)
    ensures TieCost(r, x) * TIE_UNIT <= Rank(r, x) < (TieCost(r, x) + 1) * TIE_UNIT
    ensures MAX_TIE_COST * TIE_UNIT == 0x1_00000000_00000000_00000000_00000000_00000000_00000000_00000000_00000000
  {
  }

  // A rank is the hash of the seed and of the candidate's own fields, the outcome labels left out.
  lemma RankIs(r: Ranking, x: Candidate, key: RankKey)
    requires key.seed == r.seed && key.traceId == x.traceId && key.sentenceClass == x.sentenceClass
    requires key.direction == x.direction && key.sentenceIndex == x.sentenceIndex
    requires key.sentenceText == x.sentenceText && key.charStart == x.charStart && key.charEnd == x.charEnd
    ensures Rank(r, x) == r.hash(key)
  {
  }

  lemma TieCostMonotone(r: Ranking, x: Candidate, y: Candidate)
    requires Rank(r, x) <= Rank(r, y)
    ensures TieCost(r, x) <= TieCost(r, y)
  {
  }

  // --- Allocations ---

  ghost function InCell(cell: Cell): Candidate -> bool {
    x => CellOf(x) == cell
  }

  ghost function InBin(bin: Bin): Candidate -> bool {
    x => BinOf(x) == bin
  }

  ghost function FromTrace(traceId: string): Candidate -> bool {
    (x: Candidate) => x.traceId == traceId
  }

  ghost function CountCell(xs: seq<Candidate>, cell: Cell): int {
    Count(xs, InCell(cell))
  }

  ghost function CountBin(xs: seq<Candidate>, bin: Bin): int {
    Count(xs, InBin(bin))
  }

  ghost predicate DistinctTraces(xs: seq<Candidate>) {
    forall i, j :: 0 <= i < j < |xs| ==> xs[i].traceId != xs[j].traceId
  }

  // Four eligible sentences per cell, no base trace used twice.
  ghost predicate Allocation(eligible: seq<Candidate>, cells: seq<Cell>, xs: seq<Candidate>) {
    && (forall x :: x in xs ==> x in eligible)
    && DistinctTraces(xs)
    && forall c :: c in cells ==> CountCell(xs, c) == ANCHORS_PER_CELL
  }

  // The number of pairs of anchors that share a cell and a stratum.
  ghost function SharedPairs(xs: seq<Candidate>): int {
    if |xs| == 0 then 0 else
      var front, last := xs[..|xs| - 1], xs[|xs| - 1];
      SharedPairs(front) + CountBin(front, BinOf(last))
  }

  // Same class, direction, initial side and final flip.
  ghost function SameStratum(): (Candidate, Candidate) -> bool {
    (x: Candidate, y: Candidate) =>
      && x.sentenceClass == y.sentenceClass && x.direction == y.direction
      && x.initialSide == y.initialSide && x.finalFlip == y.finalFlip
  }

  // SharedPairs counts the pairs of positions whose candidates agree in all four fields.
  lemma {:induction false} SharedPairsAre(xs: seq<Candidate>)
    ensures SharedPairs(xs) == PairNumber(xs, SameStratum())
  {
    if |xs| == 0 {
      assert PairPositions(xs, SameStratum()) == {};
    } else {
      var front, last := xs[..|xs| - 1], xs[|xs| - 1];
      SharedPairsAre(front);
      PairNumberLast(xs, SameStratum(), InBin(BinOf(last)));
      CountIsNumber(front, InBin(BinOf(last)));
    }
  }

  // An allocation, on the fields of its candidates.
  lemma AllocationIs(eligible: seq<Candidate>, cells: seq<Cell>, xs: seq<Candidate>)
    ensures Allocation(eligible, cells, xs) <==>
            && (forall x :: x in xs ==> x in eligible)
            && (forall i, j :: 0 <= i < j < |xs| ==> xs[i].traceId != xs[j].traceId)
            && forall c :: c in cells ==>
                 |set i | 0 <= i < |xs| && xs[i].sentenceClass == c.sentenceClass && xs[i].direction == c.direction|
                 == 4
  {
    forall c
      ensures CountCell(xs, c) ==
              |set i | 0 <= i < |xs| && xs[i].sentenceClass == c.sentenceClass && xs[i].direction == c.direction|
    {
      CountIsNumber(xs, InCell(c));
      NumberIs(xs, InCell(c), set i |
          0 <= i < |xs| && xs[i].sentenceClass == c.sentenceClass && xs[i].direction == c.direction);
    }
  }

  ghost function Tie(r: Ranking): Candidate -> int {
    (x: Candidate) => TieCost(r, x)
  }

  ghost function TieTotal(r: Ranking, xs: seq<Candidate>): int {
    Sum(xs, Tie(r))
  }

  // Best balance first, then the lowest total tie cost.
  ghost predicate NoWorse(r: Ranking, xs: seq<Candidate>, ys: seq<Candidate>) {
    || SharedPairs(xs) < SharedPairs(ys)
    || (SharedPairs(xs) == SharedPairs(ys) && TieTotal(r, xs) <= TieTotal(r, ys))
  }

  // No chosen candidate can be exchanged for another of the same stratum and of an unused trace whose rank has a
  // smaller number as its first 12 digits.
  ghost predicate NoBetterExchange(r: Ranking, eligible: seq<Candidate>, xs: seq<Candidate>) {
    forall i: nat, y :: i < |xs| && y in eligible && SameStratum()(xs[i], y) && OnlyAt(xs, i, y.traceId) ==>
      Rank(r, xs[i]) / TIE_UNIT <= Rank(r, y) / TIE_UNIT
  }

  // No position but i holds the trace.
  ghost predicate OnlyAt(xs: seq<Candidate>, i: nat, traceId: string) {
    forall j :: 0 <= j < |xs| && j != i ==> xs[j].traceId != traceId
  }

  lemma ExchangedAllocation(eligible: seq<Candidate>, cells: seq<Cell>, xs: seq<Candidate>, i: nat, y: Candidate)
    requires Allocation(eligible, cells, xs) && i < |xs| && y in eligible && SameStratum()(xs[i], y)
    requires OnlyAt(xs, i, y.traceId)
    ensures Allocation(eligible, cells, xs[i := y]) && SharedPairs(xs[i := y]) == SharedPairs(xs)
  {
    var ys := xs[i := y];
    SharedPairsAre(xs);
    SharedPairsAre(ys);
    PairNumberSame(xs, ys, SameStratum());
    forall c | c in cells
      ensures CountCell(ys, c) == ANCHORS_PER_CELL
    {
      SumUpdate(xs, i, y, Ones(InCell(c)));
    }
    forall x | x in ys
      ensures x in eligible
    {
      assert x == y || x in xs;
    }
  }

  // A best allocation admits no better exchange.
  lemma BestUnexchangeable(r: Ranking, eligible: seq<Candidate>, cells: seq<Cell>, xs: seq<Candidate>)
    requires Allocation(eligible, cells, xs)
    requires forall ys :: Allocation(eligible, cells, ys) ==> NoWorse(r, xs, ys)
    ensures NoBetterExchange(r, eligible, xs)
  {
    hide Allocation, SameStratum, SharedPairs, OnlyAt, Rank;
    forall i: nat, y | i < |xs| && y in eligible && SameStratum()(xs[i], y) && OnlyAt(xs, i, y.traceId)
      ensures Rank(r, xs[i]) / TIE_UNIT <= Rank(r, y) / TIE_UNIT
    {
      ExchangedAllocation(eligible, cells, xs, i, y);
      SumUpdate(xs, i, y, Tie(r));
      assert NoWorse(r, xs, xs[i := y]);
      TieCostIs(r, xs[i]);
      TieCostIs(r, y);
    }
  }

  ghost function Pairs(k: int): int {
    k * (k - 1) / 2
  }

  lemma PairsStep(k: int)
    ensures Pairs(k + 1) == Pairs(k) + k
  {
    assert (k + 1) * k == k * (k - 1) + 2 * k;
  }

  ghost function PairsPerBin(xs: seq<Candidate>): Bin -> int {
    (b: Bin) => Pairs(CountBin(xs, b))
  }

  // SharedPairs is the sum of k(k-1)/2 over the bins, for any list of bins that names each once.
  lemma {:induction false} SharedPairsByBin(xs: seq<Candidate>, bins: seq<Bin>)
    requires Distinct(bins) && forall x :: x in xs ==> BinOf(x) in bins
    ensures Sum(bins, PairsPerBin(xs)) == SharedPairs(xs)
  {
    if |xs| == 0 {
      SumZero(bins, PairsPerBin(xs));
    } else {
      var front, last := xs[..|xs| - 1], xs[|xs| - 1];
      SharedPairsByBin(front, bins);
      var here := (b: Bin) => if b == BinOf(last) then CountBin(front, b) else 0;
      forall b | b in bins
        ensures Pairs(CountBin(xs, b)) == Pairs(CountBin(front, b)) + here(b)
      {
        PairsStep(CountBin(front, b));
        assert CountBin(xs, b) == CountBin(front, b) + Ind(BinOf(last) == b);
      }
      SumAdd(bins, PairsPerBin(front), here, PairsPerBin(xs));
      assert last in xs;
      SumPoint(bins, BinOf(last), here);
    }
  }

  lemma CountIgnoresOrder(xs: seq<Candidate>, ys: seq<Candidate>, p: Candidate -> bool)
    requires multiset(xs) == multiset(ys)
    ensures Count(xs, p) == Count(ys, p)
  {
    SumPermutation(xs, ys, Ones(p));
  }

  // The three measures ignore the order in which anchors are listed.
  lemma MeasuresIgnoreOrder(r: Ranking, xs: seq<Candidate>, ys: seq<Candidate>, bins: seq<Bin>)
    requires multiset(xs) == multiset(ys)
    requires Distinct(bins) && forall x :: x in xs ==> BinOf(x) in bins
    ensures SharedPairs(xs) == SharedPairs(ys) && TieTotal(r, xs) == TieTotal(r, ys)
    ensures forall cell :: CountCell(xs, cell) == CountCell(ys, cell)
  {
    assert forall y :: y in ys ==> y in multiset(ys);
    assert forall x :: x in multiset(xs) ==> x in xs;
    SharedPairsByBin(xs, bins);
    SharedPairsByBin(ys, bins);
    forall b
      ensures CountBin(xs, b) == CountBin(ys, b)
    {
      CountIgnoresOrder(xs, ys, InBin(b));
    }
    SumExt(bins, PairsPerBin(xs), PairsPerBin(ys));
    SumPermutation(xs, ys, Tie(r));
    forall cell
      ensures CountCell(xs, cell) == CountCell(ys, cell)
    {
      CountIgnoresOrder(xs, ys, InCell(cell));
    }
  }
}
