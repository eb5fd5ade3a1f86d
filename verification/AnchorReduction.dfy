// The pools built from the reduced candidates, and why neither the reduction nor the early
// inventory checks lose an allocation.
module AnchorReduction {
  import opened Sums
  import opened Ordering
  import opened Anchors
  import opened AnchorNetwork
  import opened AnchorFlows
  import opened AnchorDecision
  import opened AnchorPools

  function InCellOnly(xs: seq<Candidate>, cell: Cell): (r: seq<Candidate>)
    ensures |r| <= |xs| && forall x :: x in r <==> x in xs && CellOf(x) == cell
  {
    if |xs| == 0 then [] else
      var front, last := InCellOnly(xs[..|xs| - 1], cell), xs[|xs| - 1];
      if CellOf(last) == cell then front + [last] else front
  }

  function StrataOf(xs: seq<Candidate>): (r: seq<Stratum>)
    ensures |r| == |xs| && forall i :: 0 <= i < |xs| ==> r[i] == StratumOf(xs[i])
  {
    seq(|xs|, i requires 0 <= i < |xs| => StratumOf(xs[i]))
  }

  function TracesOf(xs: seq<Candidate>): (r: seq<string>)
    ensures |r| == |xs| && forall i :: 0 <= i < |xs| ==> r[i] == xs[i].traceId
  {
    seq(|xs|, i requires 0 <= i < |xs| => xs[i].traceId)
  }

  function PoolOf(r: Ranking, kept: seq<Candidate>, cell: Cell): seq<Candidate> {
    Sorted(InCellOnly(kept, cell), PoolLess(r))
  }

  function SortedStrata(pool: seq<Candidate>): seq<Stratum> {
    Sorted(Unique(StrataOf(pool)), StratumLess())
  }

  function SortedTraces(kept: seq<Candidate>): seq<string> {
    Sorted(Unique(TracesOf(kept)), TraceLess())
  }

  function PoolsOf(r: Ranking, cells: seq<Cell>, kept: seq<Candidate>): Pools {
    Pools(cells,
          seq(|cells|, c requires 0 <= c < |cells| => PoolOf(r, kept, cells[c])),
          seq(|cells|, c requires 0 <= c < |cells| => SortedStrata(PoolOf(r, kept, cells[c]))),
          SortedTraces(kept))
  }

  ghost predicate SlotsDistinct(kept: seq<Candidate>) {
    forall i, j :: 0 <= i < j < |kept| ==> SlotOf(kept[i]) != SlotOf(kept[j])
  }

  lemma {:induction false} InCellOnlySlots(kept: seq<Candidate>, cell: Cell)
    requires SlotsDistinct(kept)
    ensures DistinctTraces(InCellOnly(kept, cell))
  {
    if |kept| > 0 {
      var front, last := kept[..|kept| - 1], kept[|kept| - 1];
      InCellOnlySlots(front, cell);
      var r := InCellOnly(front, cell);
      if CellOf(last) == cell {
        forall i | 0 <= i < |r|
          ensures r[i].traceId != last.traceId
        {
          assert r[i] in r;
          var k :| 0 <= k < |front| && front[k] == r[i];
          assert SlotOf(kept[k]) != SlotOf(kept[|kept| - 1]);
        }
      }
    }
  }

  lemma PoolSorted(r: Ranking, kept: seq<Candidate>, cell: Cell)
    requires SlotsDistinct(kept)
    ensures Ascending(PoolOf(r, kept, cell), PoolLess(r)) && DistinctTraces(PoolOf(r, kept, cell))
    ensures forall x :: x in PoolOf(r, kept, cell) <==> x in kept && CellOf(x) == cell
  {
    var xs, less := InCellOnly(kept, cell), PoolLess(r);
    InCellOnlySlots(kept, cell);
    PoolLessStrict(r);
    forall i, j | 0 <= i < j < |xs|
      ensures less(xs[i], xs[j]) || less(xs[j], xs[i])
    {
      StringLessTotal(xs[i].traceId, xs[j].traceId);
    }
    SortedAscending(xs, less);
    SameMembers(PoolOf(r, kept, cell), xs);
    SameCounts(xs, PoolOf(r, kept, cell));
  }

  // Distinct traces survive reordering.
  lemma SameCounts(xs: seq<Candidate>, ys: seq<Candidate>)
    requires multiset(xs) == multiset(ys) && DistinctTraces(xs)
    ensures DistinctTraces(ys)
  {
    forall i, j | 0 <= i < j < |ys|
      ensures ys[i].traceId != ys[j].traceId
    {
      var t := ys[i].traceId;
      if ys[j].traceId == t {
        CountTwo(ys, FromTrace(t), i, j);
        CountIgnoresOrder(xs, ys, FromTrace(t));
        TraceOnce(xs, t);
      }
    }
  }

  lemma StrataSorted(pool: seq<Candidate>)
    ensures Ascending(SortedStrata(pool), StratumLess())
    ensures forall s :: s in SortedStrata(pool) <==> exists x :: x in pool && StratumOf(x) == s
  {
    var xs := Unique(StrataOf(pool));
    StratumLessStrict();
    SortedAscending(xs, StratumLess());
    SameMembers(SortedStrata(pool), xs);
    forall s
      ensures s in StrataOf(pool) <==> exists x :: x in pool && StratumOf(x) == s
    {
      if x :| x in pool && StratumOf(x) == s {
        var i :| 0 <= i < |pool| && pool[i] == x;
        assert StrataOf(pool)[i] == s;
      }
    }
  }

  lemma TracesSorted(kept: seq<Candidate>)
    ensures Ascending(SortedTraces(kept), TraceLess())
    ensures forall t :: t in SortedTraces(kept) <==> exists x :: x in kept && x.traceId == t
  {
    var xs := Unique(TracesOf(kept));
    TraceLessStrict();
    SortedAscending(xs, TraceLess());
    SameMembers(SortedTraces(kept), xs);
    forall t
      ensures t in TracesOf(kept) <==> exists x :: x in kept && x.traceId == t
    {
      if x :| x in kept && x.traceId == t {
        var i :| 0 <= i < |kept| && kept[i] == x;
        assert TracesOf(kept)[i] == t;
      }
    }
  }

  lemma PoolWellFormed(r: Ranking, cells: seq<Cell>, kept: seq<Candidate>, c: nat)
    requires SlotsDistinct(kept) && c < |cells|
    ensures PoolOk(PoolsOf(r, cells, kept), c)
  {
    hide StratumLess, PoolLess, SortedTraces;
    var P := PoolsOf(r, cells, kept);
    TracesSorted(kept);
    PoolSorted(r, kept, cells[c]);
    StrataSorted(P.pool[c]);
    StratumLessStrict();
    AscendingDistinct(P.strata[c], StratumLess());
  }

  lemma PooledIsKept(r: Ranking, cells: seq<Cell>, kept: seq<Candidate>, x: Candidate)
    requires SlotsDistinct(kept) && PoolsOk(PoolsOf(r, cells, kept)) && forall x :: x in kept ==> CellOf(x) in cells
    ensures x in All(PoolsOf(r, cells, kept)) <==> x in kept
  {
    hide PoolLess, PoolOf;
    var P := PoolsOf(r, cells, kept);
    InAllUpTo(P, |cells|, x);
    if x in kept {
      var c :| 0 <= c < |cells| && cells[c] == CellOf(x);
      PoolSorted(r, kept, cells[c]);
      assert x in P.pool[c];
    }
    if c :| 0 <= c < |cells| && x in P.pool[c] {
      PoolSorted(r, kept, cells[c]);
    }
  }

  lemma PoolsWellFormed(r: Ranking, cells: seq<Cell>, kept: seq<Candidate>)
    requires SlotsDistinct(kept) && Distinct(cells) && forall x :: x in kept ==> CellOf(x) in cells
    ensures PoolsOk(PoolsOf(r, cells, kept))
    ensures forall x :: x in All(PoolsOf(r, cells, kept)) <==> x in kept
  {
    hide PoolOk, StratumLess, TraceLess, PoolLess;
    TracesSorted(kept);
    TraceLessStrict();
    AscendingDistinct(SortedTraces(kept), TraceLess());
    forall c | 0 <= c < |cells| { PoolWellFormed(r, cells, kept, c); }
    forall x { PooledIsKept(r, cells, kept, x); }
  }

  // --- Nothing is lost ---

  // What selection starts from, once its input checks have passed.
  ghost predicate Started(r: Ranking, cells: seq<Cell>, m: seq<Candidate>, kept: seq<Candidate>) {
    Distinct(cells) && Consistent(m) && Reduced(r, m, kept) && forall x :: x in m ==> CellOf(x) in cells
  }

  lemma StartedPools(r: Ranking, cells: seq<Cell>, m: seq<Candidate>, kept: seq<Candidate>)
    requires Started(r, cells, m, kept)
    ensures PoolsOk(PoolsOf(r, cells, kept))
    ensures forall x :: x in All(PoolsOf(r, cells, kept)) <==> x in kept
    ensures forall x :: x in kept ==> x in m
  {
    forall x | x in kept
      ensures x in m
    {
      var i :| 0 <= i < |kept| && kept[i] == x;
      assert First(r, m, kept[i]);
    }
    PoolsWellFormed(r, cells, kept);
  }

  // The representative of a sentence: same cell, trace and stratum, and no higher tie cost.
  lemma Representative(r: Ranking, m: seq<Candidate>, kept: seq<Candidate>, x: Candidate) returns (k: Candidate)
    requires Consistent(m) && Reduced(r, m, kept) && x in m
    ensures k in kept && k.traceId == x.traceId && BinOf(k) == BinOf(x)
    ensures TieCost(r, k) <= TieCost(r, x)
  {
    assert Occupied(kept, SlotOf(x));
    var i :| 0 <= i < |kept| && SlotOf(kept[i]) == SlotOf(x);
    k := kept[i];
    assert First(r, m, k);
    assert !Before(r, x, k);
    TieCostMonotone(r, k, x);
    assert Agree(k, x);
  }

  // The same selection, sentence by sentence.
  ghost predicate Mirrors(xs: seq<Candidate>, ys: seq<Candidate>) {
    |xs| == |ys| && forall i :: 0 <= i < |xs| ==> xs[i].traceId == ys[i].traceId && BinOf(xs[i]) == BinOf(ys[i])
  }

  lemma {:induction false} RepresentAll(r: Ranking, m: seq<Candidate>, kept: seq<Candidate>, xs: seq<Candidate>)
    returns (ks: seq<Candidate>)
    requires Consistent(m) && Reduced(r, m, kept) && forall x :: x in xs ==> x in m
    ensures Mirrors(ks, xs) && TieTotal(r, ks) <= TieTotal(r, xs)
    ensures forall k :: k in ks ==> k in kept
  {
    if |xs| == 0 {
      ks := [];
    } else {
      var front := RepresentAll(r, m, kept, xs[..|xs| - 1]);
      var k := Representative(r, m, kept, xs[|xs| - 1]);
      ks := front + [k];
      assert ks[..|ks| - 1] == front;
      assert forall x :: Tie(r)(x) == TieCost(r, x);
    }
  }

  lemma {:induction false} MirrorCounts(xs: seq<Candidate>, ys: seq<Candidate>, p: Candidate -> bool)
    requires |xs| == |ys| && forall i :: 0 <= i < |xs| ==> p(xs[i]) == p(ys[i])
    ensures Count(xs, p) == Count(ys, p)
  {
    if |xs| > 0 {
      MirrorCounts(xs[..|xs| - 1], ys[..|ys| - 1], p);
    }
  }

  lemma {:induction false} MirrorPairs(xs: seq<Candidate>, ys: seq<Candidate>)
    requires Mirrors(xs, ys)
    ensures SharedPairs(xs) == SharedPairs(ys)
  {
    if |xs| > 0 {
      var n := |xs| - 1;
      MirrorPairs(xs[..n], ys[..n]);
      assert BinOf(xs[n]) == BinOf(ys[n]);
      forall i | 0 <= i < n
        ensures InBin(BinOf(xs[n]))(xs[..n][i]) == InBin(BinOf(xs[n]))(ys[..n][i])
      {
        assert BinOf(xs[i]) == BinOf(ys[i]);
      }
      MirrorCounts(xs[..n], ys[..n], InBin(BinOf(xs[n])));
    }
  }

  lemma MirrorCells(xs: seq<Candidate>, ys: seq<Candidate>, c: Cell)
    requires Mirrors(xs, ys)
    ensures CountCell(xs, c) == CountCell(ys, c)
  {
    forall i | 0 <= i < |xs|
      ensures InCell(c)(xs[i]) == InCell(c)(ys[i])
    {
      assert BinOf(xs[i]) == BinOf(ys[i]);
    }
    MirrorCounts(xs, ys, InCell(c));
  }

  lemma MirrorTraces(xs: seq<Candidate>, ys: seq<Candidate>)
    requires Mirrors(xs, ys) && DistinctTraces(ys)
    ensures DistinctTraces(xs)
  {
  }

  lemma PoolsCells(r: Ranking, cells: seq<Cell>, kept: seq<Candidate>)
    ensures PoolsOf(r, cells, kept).cells == cells
  {
  }

  // Every allocation of eligible sentences has a pooled counterpart that is no worse.
  lemma ReductionLosesNothing(r: Ranking, cells: seq<Cell>, m: seq<Candidate>, kept: seq<Candidate>, xs: seq<Candidate>)
    returns (ks: seq<Candidate>)
    requires Started(r, cells, m, kept) && Allocation(m, cells, xs)
    ensures PoolsOk(PoolsOf(r, cells, kept)) && PooledAllocation(PoolsOf(r, cells, kept), ks)
    ensures NoWorse(r, ks, xs)
  {
    hide Mirrors, DistinctTraces, CountCell, PoolsOf, PoolsOk, All, SharedPairs, TieTotal, Consistent, Reduced,
      Distinct;
    StartedPools(r, cells, m, kept);
    PoolsCells(r, cells, kept);
    ks := RepresentAll(r, m, kept, xs);
    MirrorPairs(ks, xs);
    MirrorTraces(ks, xs);
    forall c | c in cells
      ensures CountCell(ks, c) == ANCHORS_PER_CELL
    {
      MirrorCells(ks, xs, c);
    }
  }

  lemma PooledIsAllocation(r: Ranking, cells: seq<Cell>, m: seq<Candidate>, kept: seq<Candidate>, ks: seq<Candidate>)
    requires Started(r, cells, m, kept) && PoolsOk(PoolsOf(r, cells, kept))
             && PooledAllocation(PoolsOf(r, cells, kept), ks)
    ensures Allocation(m, cells, ks)
  {
    StartedPools(r, cells, m, kept);
  }

  lemma NoWorseTransitive(r: Ranking, xs: seq<Candidate>, ys: seq<Candidate>, zs: seq<Candidate>)
    requires NoWorse(r, xs, ys) && NoWorse(r, ys, zs)
    ensures NoWorse(r, xs, zs)
  {
  }

  // --- The early inventory checks ---

  lemma {:induction false} CountAtMostLength<T>(xs: seq<T>, p: T -> bool)
    ensures Count(xs, p) <= |xs|
  {
    if |xs| > 0 {
      CountAtMostLength(xs[..|xs| - 1], p);
    }
  }

  // A cell with fewer than four distinct traces cannot be filled.
  lemma SmallPoolMeansNone(P: Pools, c: nat, ks: seq<Candidate>)
    requires PoolsOk(P) && c < |P.cells| && |P.pool[c]| < ANCHORS_PER_CELL
    ensures !PooledAllocation(P, ks)
  {
    if PooledAllocation(P, ks) {
      var cell, pool := P.cells[c], P.pool[c];
      assert CountCell(ks, cell) == ANCHORS_PER_CELL;
      assert PoolOk(P, c);
      assert Distinct(ks) && Distinct(pool);
      SumCommon(ks, pool, Ones(InCell(cell)));
      forall x | x in ks
        ensures Only(Member(pool), Ones(InCell(cell)))(x) == Ones(InCell(cell))(x)
      {
        if CellOf(x) == cell {
          InAllUpTo(P, |P.cells|, x);
          var d :| 0 <= d < |P.cells| && x in P.pool[d];
          assert PoolOk(P, d);
        }
      }
      SumExt(ks, Only(Member(pool), Ones(InCell(cell))), Ones(InCell(cell)));
      SumLe(pool, Only(Member(ks), Ones(InCell(cell))), Ones(_ => true));
      CountAtMostLength(pool, _ => true);
      assert false;
    }
  }

  // Fewer than 24 distinct traces cannot fill six cells.
  lemma FewTracesMeanNone(P: Pools, ks: seq<Candidate>)
    requires PoolsOk(P) && |P.cells| == 6 && |P.traces| < REQUIRED
    ensures !PooledAllocation(P, ks)
  {
    if PooledAllocation(P, ks) {
      PooledSize(P, ks);
      var w := (x: Candidate, t: string) => Ind(x.traceId == t);
      SumSwap(ks, P.traces, w);
      forall x | x in ks
        ensures RowSum(P.traces, w)(x) == 1
      {
        BinOfPooled(P, x);
        SumPoint(P.traces, x.traceId, Row(w, x));
      }
      SumConstant(ks, 1, RowSum(P.traces, w));
      forall t | t in P.traces
        ensures ColumnSum(ks, w)(t) <= 1
      {
        TraceOnce(ks, t);
        SumExt(ks, Column(w, t), Ones(FromTrace(t)));
      }
      SumSaturated(P.traces, 1, ColumnSum(ks, w));
      assert false;
    }
  }

  // --- The order of supply does not matter ---

  ghost predicate CollisionFree(r: Ranking, m: seq<Candidate>) {
    forall x, y :: x in m && y in m && Rank(r, x) == Rank(r, y) ==> x == y
  }

  lemma ReducedMember(r: Ranking, m: seq<Candidate>, kept: seq<Candidate>, x: Candidate)
    requires Reduced(r, m, kept) && CollisionFree(r, m)
    ensures x in kept <==> First(r, m, x)
  {
    if x in kept {
      var i :| 0 <= i < |kept| && kept[i] == x;
      assert First(r, m, kept[i]);
    }
    if First(r, m, x) {
      assert Occupied(kept, SlotOf(x));
      var i :| 0 <= i < |kept| && SlotOf(kept[i]) == SlotOf(x);
      assert First(r, m, kept[i]);
      assert !Before(r, x, kept[i]) && !Before(r, kept[i], x);
    }
  }

  lemma PoolByMembers(r: Ranking, kept: seq<Candidate>, kept': seq<Candidate>, cell: Cell)
    requires SlotsDistinct(kept) && SlotsDistinct(kept') && forall x :: x in kept <==> x in kept'
    ensures PoolOf(r, kept, cell) == PoolOf(r, kept', cell)
  {
    hide PoolLess, PoolOf;
    PoolLessStrict(r);
    PoolSorted(r, kept, cell);
    PoolSorted(r, kept', cell);
    AscendingUnique(PoolOf(r, kept, cell), PoolOf(r, kept', cell), PoolLess(r));
  }

  lemma TracesByMembers(kept: seq<Candidate>, kept': seq<Candidate>)
    requires forall x :: x in kept <==> x in kept'
    ensures SortedTraces(kept) == SortedTraces(kept')
  {
    hide TraceLess, SortedTraces;
    TraceLessStrict();
    TracesSorted(kept);
    TracesSorted(kept');
    AscendingUnique(SortedTraces(kept), SortedTraces(kept'), TraceLess());
  }

  lemma SameMembersKept(r: Ranking, m: seq<Candidate>, m': seq<Candidate>, kept: seq<Candidate>, kept': seq<Candidate>)
    requires Reduced(r, m, kept) && Reduced(r, m', kept') && CollisionFree(r, m)
    requires forall x :: x in m <==> x in m'
    ensures SlotsDistinct(kept) && SlotsDistinct(kept') && forall x :: x in kept <==> x in kept'
  {
    forall x
      ensures x in kept <==> x in kept'
    {
      ReducedMember(r, m, kept, x);
      ReducedMember(r, m', kept', x);
    }
  }

  // With a collision-free rank the pools, and so the whole allocation network, depend only on which
  // candidates were supplied.
  lemma PoolsIgnoreSupplyOrder(r: Ranking, cells: seq<Cell>, m: seq<Candidate>, m': seq<Candidate>,
                               kept: seq<Candidate>, kept': seq<Candidate>)
    requires Reduced(r, m, kept) && Reduced(r, m', kept') && CollisionFree(r, m)
    requires forall x :: x in m <==> x in m'
    ensures PoolsOf(r, cells, kept) == PoolsOf(r, cells, kept')
  {
    hide Reduced, CollisionFree, PoolOf, SortedTraces, SlotsDistinct;
    SameMembersKept(r, m, m', kept, kept');
    forall c | 0 <= c < |cells| { PoolByMembers(r, kept, kept', cells[c]); }
    TracesByMembers(kept, kept');
    SamePools(r, cells, kept, kept');
  }

  lemma SamePools(r: Ranking, cells: seq<Cell>, kept: seq<Candidate>, kept': seq<Candidate>)
    requires forall c :: 0 <= c < |cells| ==> PoolOf(r, kept, cells[c]) == PoolOf(r, kept', cells[c])
    requires SortedTraces(kept) == SortedTraces(kept')
    ensures PoolsOf(r, cells, kept) == PoolsOf(r, cells, kept')
  {
    hide PoolOf, SortedTraces, SortedStrata;
    var P, Q := PoolsOf(r, cells, kept), PoolsOf(r, cells, kept');
    assert P.pool == Q.pool;
    assert P.strata == Q.strata;
  }
}
