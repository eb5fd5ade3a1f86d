// select_frozen_anchors from end to end.
module FrozenAnchors {
  import opened Options
  import opened Sums
  import opened Ordering
  import opened ShortestPaths
  import opened Anchors
  import opened AnchorNetwork
  import opened AnchorFlows
  import opened AnchorGraph
  import opened AnchorDecision
  import opened AnchorPools
  import opened AnchorReduction
  import opened AnchorSelection
  import opened AnchorManifests

  datatype SelectionError =
    | BadDesign | BadSeed | NoCandidates
    | InconsistentStrata(traceId: string)
    | CellTooSmall(cell: Cell) | TooFewTraces | NotAllocatable

  predicate IsAllocationError(e: SelectionError) {
    e.CellTooSmall? || e.TooFewTraces? || e.NotAllocatable?
  }

  // --- The order of the manifest ---

  function CellIndex(cells: seq<Cell>, cell: Cell): (i: nat)
    ensures cell in cells ==> i < |cells| && cells[i] == cell
  {
    if |cells| == 0 || cells[0] == cell then 0 else 1 + CellIndex(cells[1..], cell)
  }

  function ManifestLess(r: Ranking, cells: seq<Cell>): (Candidate, Candidate) -> bool {
    (x: Candidate, y: Candidate) =>
      var a, b := CellIndex(cells, CellOf(x)), CellIndex(cells, CellOf(y));
      a < b || (a == b && (StratumLess()(StratumOf(x), StratumOf(y))
                           || (StratumOf(x) == StratumOf(y) && PoolLess(r)(x, y))))
  }

  lemma ManifestLessStrict(r: Ranking, cells: seq<Cell>)
    ensures StrictOrder(ManifestLess(r, cells))
  {
    hide StratumLess, PoolLess, CellIndex;
    StratumLessStrict();
    PoolLessStrict(r);
    var less, sl, pl := ManifestLess(r, cells), StratumLess(), PoolLess(r);
    forall x: Candidate
      ensures !less(x, x)
    {
      assert !sl(StratumOf(x), StratumOf(x)) && !pl(x, x);
    }
    forall x: Candidate, y: Candidate, z: Candidate | less(x, y) && less(y, z)
      ensures less(x, z)
    {
      assert sl(StratumOf(x), StratumOf(y)) && sl(StratumOf(y), StratumOf(z)) ==> sl(StratumOf(x), StratumOf(z));
      assert pl(x, y) && pl(y, z) ==> pl(x, z);
    }
  }

  lemma ManifestLessTotal(r: Ranking, cells: seq<Cell>, x: Candidate, y: Candidate)
    requires x.traceId != y.traceId
    ensures ManifestLess(r, cells)(x, y) || ManifestLess(r, cells)(y, x)
  {
    hide StratumLess, CellIndex, Rank;
    StratumLessStrict();
    StringLessTotal(x.traceId, y.traceId);
    assert PoolLess(r)(x, y) || PoolLess(r)(y, x);
    var sl := StratumLess();
    var s, t := StratumOf(x), StratumOf(y);
    assert s == t || sl(s, t) || sl(t, s);
  }

  lemma ManifestSorted(r: Ranking, cells: seq<Cell>, xs: seq<Candidate>)
    requires DistinctTraces(xs)
    ensures Ascending(Sorted(xs, ManifestLess(r, cells)), ManifestLess(r, cells))
  {
    var less := ManifestLess(r, cells);
    ManifestLessStrict(r, cells);
    hide ManifestLess;
    forall i, j | 0 <= i < j < |xs|
      ensures less(xs[i], xs[j]) || less(xs[j], xs[i])
    {
      ManifestLessTotal(r, cells, xs[i], xs[j]);
    }
    SortedAscending(xs, less);
  }

  // Sorting keeps an allocation an allocation of the same worth.
  lemma SortedAllocation(r: Ranking, P: Pools, xs: seq<Candidate>, ys: seq<Candidate>)
    requires PoolsOk(P) && PooledAllocation(P, xs) && multiset(xs) == multiset(ys)
    ensures PooledAllocation(P, ys) && SharedPairs(ys) == SharedPairs(xs) && TieTotal(r, ys) == TieTotal(r, xs)
  {
    BinsCover(P, xs);
    MeasuresIgnoreOrder(r, xs, ys, Bins(P));
    SameCounts(xs, ys);
    SameMembers(xs, ys);
  }

  // --- Graph size ---

  lemma {:induction false} BinsLength(P: Pools, n: nat, k: nat)
    requires PoolsOk(P) && n <= |P.cells|
    requires forall c :: 0 <= c < |P.cells| ==> |P.strata[c]| <= k
    ensures |BinsUpTo(P, n)| <= n * k
  {
    if n > 0 {
      BinsLength(P, n - 1, k);
      assert n * k == (n - 1) * k + k;
    }
  }

  lemma GraphFits(r: Ranking, cells: seq<Cell>, kept: seq<Candidate>)
    requires PoolsOk(PoolsOf(r, cells, kept)) && |cells| == 6 && |kept| < 0x8000_0000_0000_0000
    ensures PathsFit(|NodeKeys(PoolsOf(r, cells, kept))|, COST_BOUND)
  {
    var P := PoolsOf(r, cells, kept);
    BinsLength(P, 6, |kept|);
    CostFits(|NodeKeys(P)|);
  }

  lemma CostFits(n: nat)
    requires n <= 8 + 7 * 0x8000_0000_0000_0000
    ensures PathsFit(n, COST_BOUND)
  {
    ProductLe(n, 8 + 7 * 0x8000_0000_0000_0000, COST_BOUND);
  }

  // --- Selection ---

  // The best pooled allocation is best among all eligible sentences, and none pooled means none at all.
  lemma PooledIsBest(r: Ranking, cells: seq<Cell>, m: seq<Candidate>, kept: seq<Candidate>, xs: seq<Candidate>)
    requires Started(r, cells, m, kept) && PoolsOk(PoolsOf(r, cells, kept))
             && PooledAllocation(PoolsOf(r, cells, kept), xs)
    requires forall ys :: PooledAllocation(PoolsOf(r, cells, kept), ys) ==> NoWorse(r, xs, ys)
    ensures Allocation(m, cells, xs)
    ensures forall ys :: Allocation(m, cells, ys) ==> NoWorse(r, xs, ys)
  {
    PooledIsAllocation(r, cells, m, kept, xs);
    forall ys | Allocation(m, cells, ys)
      ensures NoWorse(r, xs, ys)
    {
      var ks := ReductionLosesNothing(r, cells, m, kept, ys);
      NoWorseTransitive(r, xs, ks, ys);
    }
  }

  lemma NonePooledMeansNone(r: Ranking, cells: seq<Cell>, m: seq<Candidate>, kept: seq<Candidate>)
    requires Started(r, cells, m, kept) && PoolsOk(PoolsOf(r, cells, kept))
    requires forall ys :: !PooledAllocation(PoolsOf(r, cells, kept), ys)
    ensures forall ys :: !Allocation(m, cells, ys)
  {
    forall ys
      ensures !Allocation(m, cells, ys)
    {
      if Allocation(m, cells, ys) {
        var ks := ReductionLosesNothing(r, cells, m, kept, ys);
      }
    }
  }

  // The first cell with fewer than four distinct traces.
  method FirstSmallCell(P: Pools) returns (cell: Option<Cell>)
    requires PoolsOk(P)
    ensures cell.Some? ==> exists c :: 0 <= c < |P.cells| && P.cells[c] == cell.value && |P.pool[c]| < ANCHORS_PER_CELL
    ensures cell.None? ==> forall c :: 0 <= c < |P.cells| ==> |P.pool[c]| >= ANCHORS_PER_CELL
  {
    for c := 0 to |P.cells|
      invariant forall d :: 0 <= d < c ==> |P.pool[d]| >= ANCHORS_PER_CELL
    {
      if |P.pool[c]| < ANCHORS_PER_CELL {
        return Some(P.cells[c]);
      }
    }
    return None;
  }

  // xs lists the allocation the solver reads off the pools of some reduction of m.
  ghost predicate SelectedFrom(r: Ranking, cells: seq<Cell>, m: seq<Candidate>, xs: seq<Candidate>) {
    exists kept, picked :: Reduced(r, m, kept) && Allocated(r, PoolsOf(r, cells, kept), picked)
                           && xs == Sorted(picked, ManifestLess(r, cells))
  }

  lemma SelectionIgnoresSupplyOrder(r: Ranking, cells: seq<Cell>, m: seq<Candidate>, m': seq<Candidate>,
                                    xs: seq<Candidate>, xs': seq<Candidate>)
    requires SelectedFrom(r, cells, m, xs) && SelectedFrom(r, cells, m', xs')
    requires CollisionFree(r, m) && forall x :: x in m <==> x in m'
    ensures xs == xs'
  {
    hide Reduced, Allocated, PoolsOf, ManifestLess, CollisionFree;
    var kept, picked :| Reduced(r, m, kept) && Allocated(r, PoolsOf(r, cells, kept), picked)
                        && xs == Sorted(picked, ManifestLess(r, cells));
    var kept', picked' :| Reduced(r, m', kept') && Allocated(r, PoolsOf(r, cells, kept'), picked')
                          && xs' == Sorted(picked', ManifestLess(r, cells));
    PoolsIgnoreSupplyOrder(r, cells, m, m', kept, kept');
    AllocatedUnique(r, PoolsOf(r, cells, kept), picked, picked');
  }

  // A listed best allocation, or the reason there is none.
  method SelectFrom(r: Ranking, cells: seq<Cell>, m: seq<Candidate>)
    returns (result: Result<seq<Candidate>, SelectionError>)
    requires |cells| == 6 && Distinct(cells) && Consistent(m) && |m| < 0x8000_0000_0000_0000
    requires forall x :: x in m ==> CellOf(x) in cells
    ensures result.Err? <==> forall ys :: !Allocation(m, cells, ys)
    ensures result.Err? ==> IsAllocationError(result.error)
    ensures result.Ok? ==> Allocation(m, cells, result.value) && Ascending(result.value, ManifestLess(r, cells))
    ensures result.Ok? ==> SelectedFrom(r, cells, m, result.value)
    ensures result.Ok? ==> forall ys :: Allocation(m, cells, ys) ==> NoWorse(r, result.value, ys)
    ensures result.Ok? ==> NoBetterExchange(r, m, result.value)
  {
    var kept := ReduceByCellTrace(r, m);
    StartedPools(r, cells, m, kept);
    hide PoolsOk, Reduced, Consistent, PooledAllocation, Allocation, ManifestLess, NoBetterExchange;
    var P := PoolsOf(r, cells, kept);
    var small := FirstSmallCell(P);
    if small.Some? {
      var c: nat :| c < |P.cells| && P.cells[c] == small.value && |P.pool[c]| < ANCHORS_PER_CELL;
      forall ys { SmallPoolMeansNone(P, c, ys); }
      NonePooledMeansNone(r, cells, m, kept);
      return Err(CellTooSmall(small.value));
    }
    if |P.traces| < REQUIRED {
      forall ys { FewTracesMeanNone(P, ys); }
      NonePooledMeansNone(r, cells, m, kept);
      return Err(TooFewTraces);
    }
    GraphFits(r, cells, kept);
    var selected := Allocate(r, P);
    if selected.None? {
      NonePooledMeansNone(r, cells, m, kept);
      return Err(NotAllocatable);
    }
    var xs := Sorted(selected.value, ManifestLess(r, cells));
    result := Ok(xs);
    SortedAllocation(r, P, selected.value, xs);
    SortIsBest(r, P, selected.value, xs);
    PooledIsBest(r, cells, m, kept, xs);
    AllocatedTraces(P, selected.value);
    ManifestSorted(r, cells, selected.value);
    BestUnexchangeable(r, m, cells, xs);
  }

  lemma AllocatedTraces(P: Pools, xs: seq<Candidate>)
    requires PoolsOk(P) && PooledAllocation(P, xs)
    ensures DistinctTraces(xs)
  {
  }

  lemma SortIsBest(r: Ranking, P: Pools, xs: seq<Candidate>, ys: seq<Candidate>)
    requires PoolsOk(P) && SharedPairs(ys) == SharedPairs(xs) && TieTotal(r, ys) == TieTotal(r, xs)
    requires forall zs :: PooledAllocation(P, zs) ==> NoWorse(r, xs, zs)
    ensures forall zs :: PooledAllocation(P, zs) ==> NoWorse(r, ys, zs)
  {
  }

  // An allocation, frozen and hashed, is a valid manifest.
  lemma FrozenIsValid(h: ContentHash, man: Manifest, m: seq<Candidate>, xs: seq<Candidate>)
    requires ValidDesign(man.classes, man.directions, man.perCell)
    requires var cells := CellsOf(man.classes, man.directions);
             Allocation(m, cells, xs) && forall x :: x in m ==> x.eligible && WellFormed(x) && CellOf(x) in cells
    requires man.anchors == FreezeAll(h, xs) && man.selectionHash == h.digest(man.(selectionHash := ""))
    ensures ManifestValid(h, man) && ThawAll(man.anchors) == xs
  {
    hide WellFormed, CellsOf;
    var cells := CellsOf(man.classes, man.directions);
    forall i | 0 <= i < |xs|
      ensures Thaw(man.anchors[i]) == xs[i]
    {
      assert xs[i] in xs;
    }
    assert ThawAll(man.anchors) == xs;
    CellsDistinct(man.classes, man.directions);
    AllocationSize(cells, xs);
  }

  lemma CellsDistinct(classes: seq<string>, directions: seq<string>)
    requires ValidDesign(classes, directions, ANCHORS_PER_CELL)
    ensures |CellsOf(classes, directions)| == 6 && Distinct(CellsOf(classes, directions))
  {
  }

  // A manifest frozen from the supplied candidates.
  ghost predicate FrozenFrom(hash: RankKey -> Digest, h: ContentHash, candidates: seq<Candidate>,
                             classes: seq<string>, directions: seq<string>, perCell: int, seed: string, man: Manifest) {
    && ValidDesign(classes, directions, perCell)
    && (var cells, xs := CellsOf(classes, directions), ThawAll(man.anchors);
        && SelectedFrom(Ranking(hash, seed), cells, Materialized(candidates, cells), xs)
        && man.anchors == FreezeAll(h, xs))
    && man == Manifest(man.anchors, classes, directions, perCell, seed, h.digest(man.(selectionHash := "")))
  }

  // With distinct, collision-free ranks the manifest depends on which candidates were supplied, not on their order.
  lemma ManifestIgnoresSupplyOrder(hash: RankKey -> Digest, h: ContentHash, candidates: seq<Candidate>,
                                   candidates': seq<Candidate>, classes: seq<string>, directions: seq<string>,
                                   perCell: int, seed: string, man: Manifest, man': Manifest)
    requires FrozenFrom(hash, h, candidates, classes, directions, perCell, seed, man)
    requires FrozenFrom(hash, h, candidates', classes, directions, perCell, seed, man')
    requires forall x :: x in candidates <==> x in candidates'
    requires CollisionFree(Ranking(hash, seed), Materialized(candidates, CellsOf(classes, directions)))
    ensures man == man'
  {
    var cells := CellsOf(classes, directions);
    hide CellsOf, SelectedFrom, CollisionFree;
    SelectionIgnoresSupplyOrder(Ranking(hash, seed), cells, Materialized(candidates, cells),
                                Materialized(candidates', cells), ThawAll(man.anchors), ThawAll(man'.anchors));
    assert man.(selectionHash := "") == man'.(selectionHash := "");
  }

  // A list holds at most 2^63 - 1 items, which keeps every path cost far below the solver's sentinel.
  method SelectFrozenAnchors(hash: RankKey -> Digest, h: ContentHash, candidates: seq<Candidate>,
                             classes: seq<string>, directions: seq<string>, perCell: int, seed: string)
    returns (result: Result<Manifest, SelectionError>)
    requires |candidates| < 0x8000_0000_0000_0000 && forall x :: x in candidates ==> WellFormed(x)
    ensures !ValidDesign(classes, directions, perCell) ==> result == Err(BadDesign)
    ensures ValidDesign(classes, directions, perCell) && seed == "" ==> result == Err(BadSeed)
    ensures ValidDesign(classes, directions, perCell) && seed != "" ==>
      var cells := CellsOf(classes, directions);
      var m := Materialized(candidates, cells);
      && (m == [] <==> result == Err(NoCandidates))
      && (m != [] && !Consistent(m) <==> result.Err? && result.error.InconsistentStrata?)
      && (m != [] && Consistent(m) ==>
            && (result.Err? <==> forall ys :: !Allocation(m, cells, ys))
            && (result.Err? ==> IsAllocationError(result.error)))
    ensures result.Ok? ==>
      var cells := CellsOf(classes, directions);
      var m := Materialized(candidates, cells);
      var xs := ThawAll(result.value.anchors);
      && ManifestValid(h, result.value)
      && Allocation(m, cells, xs) && Ascending(xs, ManifestLess(Ranking(hash, seed), cells))
      && NoBetterExchange(Ranking(hash, seed), m, xs)
      && forall ys :: Allocation(m, cells, ys) ==> NoWorse(Ranking(hash, seed), xs, ys)
    ensures result.Ok? ==> FrozenFrom(hash, h, candidates, classes, directions, perCell, seed, result.value)
  {
    if !ValidDesign(classes, directions, perCell) {
      return Err(BadDesign);
    }
    if seed == "" {
      return Err(BadSeed);
    }
    CellsDistinct(classes, directions);
    hide CellsOf, WellFormed, Consistent, Allocation, ManifestLess, SelectedFrom, ManifestValid, NoBetterExchange;
    var cells := CellsOf(classes, directions);
    var m := Materialized(candidates, cells);
    if m == [] {
      return Err(NoCandidates);
    }
    var trace := InconsistentTrace(m);
    if trace.Some? {
      return Err(InconsistentStrata(trace.value));
    }
    var selected := SelectFrom(Ranking(hash, seed), cells, m);
    if selected.Err? {
      return Err(selected.error);
    }
    var manifest := Manifest(FreezeAll(h, selected.value), classes, directions, perCell, seed, "");
    ghost var blank := manifest;
    manifest := manifest.(selectionHash := h.digest(manifest));
    assert manifest.(selectionHash := "") == blank;
    FrozenIsValid(h, manifest, m, selected.value);
    var refused := ValidateManifest(h, manifest);
    // The source would raise here if its own validator refused the manifest.
    assert refused.None?;
    return Ok(manifest);
  }
}
