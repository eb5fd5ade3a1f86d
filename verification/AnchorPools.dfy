// From supplied candidates to sorted pools: filtering, the trace-consistency check, and the
// reduction to one sentence per cell and trace.
module AnchorPools {
  import opened Options
  import opened Ordering
  import opened Anchors

  function Materialized(candidates: seq<Candidate>, cells: seq<Cell>): (m: seq<Candidate>)
    ensures |m| <= |candidates|
    ensures forall x :: x in m <==> x in candidates && x.eligible && CellOf(x) in cells
  {
    if |candidates| == 0 then [] else
      var front, last := Materialized(candidates[..|candidates| - 1], cells), candidates[|candidates| - 1];
      if last.eligible && CellOf(last) in cells then front + [last] else front
  }

  // --- Trace properties ---

  datatype Properties = Properties(direction: string, initialSide: string, finalFlip: bool)

  function PropertiesOf(x: Candidate): Properties {
    Properties(x.direction, x.initialSide, x.finalFlip)
  }

  // Of one trace: the same direction, the same first side and the same final flip.
  ghost predicate Agree(x: Candidate, y: Candidate) {
    x.direction == y.direction && x.initialSide == y.initialSide && x.finalFlip == y.finalFlip
  }

  ghost predicate Consistent(m: seq<Candidate>) {
    forall x, y :: x in m && y in m && x.traceId == y.traceId ==> Agree(x, y)
  }

  method InconsistentTrace(m: seq<Candidate>) returns (trace: Option<string>)
    ensures trace.None? <==> Consistent(m)
    ensures trace.Some? ==> exists x, y :: x in m && y in m && x.traceId == trace.value == y.traceId
                                           && !Agree(x, y)
  {
    var known: map<string, Properties> := map[];
    var i := 0;
    while i < |m|
      invariant i <= |m|
      invariant forall k :: 0 <= k < i ==> m[k].traceId in known && known[m[k].traceId] == PropertiesOf(m[k])
      invariant forall t :: t in known ==> exists k :: 0 <= k < i && m[k].traceId == t && PropertiesOf(m[k]) == known[t]
    {
      var x := m[i];
      if x.traceId in known {
        if known[x.traceId] != PropertiesOf(x) {
          assert x in m;
          return Some(x.traceId);
        }
      } else {
        known := known[x.traceId := PropertiesOf(x)];
      }
      i := i + 1;
    }
    return None;
  }

  // --- One sentence per cell and trace ---

  datatype Slot = Slot(cell: Cell, traceId: string)

  function SlotOf(x: Candidate): Slot {
    Slot(CellOf(x), x.traceId)
  }

  // The order in which a slot's representative is chosen.
  predicate Before(r: Ranking, x: Candidate, y: Candidate) {
    || Rank(r, x) < Rank(r, y)
    || (Rank(r, x) == Rank(r, y)
        && (x.sentenceIndex < y.sentenceIndex
            || (x.sentenceIndex == y.sentenceIndex && x.charStart < y.charStart)))
  }

  // x is in m, and nothing else in m for its slot comes before it.
  ghost predicate First(r: Ranking, m: seq<Candidate>, x: Candidate) {
    x in m && forall y :: y in m && SlotOf(y) == SlotOf(x) ==> !Before(r, y, x)
  }

  ghost predicate Occupied(kept: seq<Candidate>, slot: Slot) {
    exists i :: 0 <= i < |kept| && SlotOf(kept[i]) == slot
  }

  // kept holds the first candidate of every slot that occurs in m, each slot once.
  ghost predicate Reduced(r: Ranking, m: seq<Candidate>, kept: seq<Candidate>) {
    && (forall i, j :: 0 <= i < j < |kept| ==> SlotOf(kept[i]) != SlotOf(kept[j]))
    && (forall i :: 0 <= i < |kept| ==> First(r, m, kept[i]))
    && (forall y :: y in m ==> Occupied(kept, SlotOf(y)))
  }

  ghost predicate Located(kept: seq<Candidate>, position: map<Slot, nat>) {
    && (forall j :: 0 <= j < |kept| ==> SlotOf(kept[j]) in position && position[SlotOf(kept[j])] == j)
    && (forall s :: s in position ==> position[s] < |kept| && SlotOf(kept[position[s]]) == s)
  }

  // One candidate offered to by_cell_trace, an insertion-ordered dictionary.
  method Offer(r: Ranking, ghost seen: seq<Candidate>, kept: seq<Candidate>, position: map<Slot, nat>, x: Candidate)
    returns (kept': seq<Candidate>, position': map<Slot, nat>)
    requires Reduced(r, seen, kept) && Located(kept, position)
    ensures Reduced(r, seen + [x], kept') && Located(kept', position') && |kept'| <= |kept| + 1
  {
    hide First, Occupied, Reduced, Before;
    kept', position' := kept, position;
    if SlotOf(x) !in position {
      ReduceAppend(r, seen, kept, x);
      position' := position[SlotOf(x) := |kept|];
      kept' := kept + [x];
    } else {
      var j := position[SlotOf(x)];
      ReduceCompare(r, seen, kept, x, j);
      if Before(r, x, kept[j]) {
        kept' := kept[j := x];
      }
    }
  }

  method ReduceByCellTrace(r: Ranking, m: seq<Candidate>) returns (kept: seq<Candidate>)
    ensures Reduced(r, m, kept) && |kept| <= |m|
  {
    kept := [];
    var position: map<Slot, nat> := map[];
    assert Reduced(r, m[..0], kept);
    for i := 0 to |m|
      invariant Reduced(r, m[..i], kept) && Located(kept, position) && |kept| <= i
    {
      hide Reduced, Located;
      kept, position := Offer(r, m[..i], kept, position, m[i]);
      assert m[..i + 1] == m[..i] + [m[i]];
    }
    assert m[..|m|] == m;
  }

  lemma FirstStays(r: Ranking, m: seq<Candidate>, x: Candidate, z: Candidate)
    requires First(r, m, z) && (SlotOf(x) == SlotOf(z) ==> !Before(r, x, z))
    ensures First(r, m + [x], z)
  {
  }

  lemma FirstReplaced(r: Ranking, m: seq<Candidate>, x: Candidate, z: Candidate)
    requires First(r, m, z) && SlotOf(x) == SlotOf(z) && Before(r, x, z)
    ensures First(r, m + [x], x)
  {
  }

  lemma FirstOfSlot(r: Ranking, m: seq<Candidate>, kept: seq<Candidate>, x: Candidate)
    requires Reduced(r, m, kept) && forall j :: 0 <= j < |kept| ==> SlotOf(kept[j]) != SlotOf(x)
    ensures First(r, m + [x], x)
  {
    forall y | y in m
      ensures SlotOf(y) != SlotOf(x)
    {
      assert Occupied(kept, SlotOf(y));
    }
  }

  lemma ReduceAppend(r: Ranking, m: seq<Candidate>, kept: seq<Candidate>, x: Candidate)
    requires Reduced(r, m, kept) && forall j :: 0 <= j < |kept| ==> SlotOf(kept[j]) != SlotOf(x)
    ensures Reduced(r, m + [x], kept + [x])
  {
    hide First, Before;
    FirstOfSlot(r, m, kept, x);
    forall i | 0 <= i < |kept| { FirstStays(r, m, x, kept[i]); }
    forall y | y in m + [x]
      ensures Occupied(kept + [x], SlotOf(y))
    {
      if y in m {
        var i :| 0 <= i < |kept| && SlotOf(kept[i]) == SlotOf(y);
        assert (kept + [x])[i] == kept[i];
      } else {
        assert (kept + [x])[|kept|] == x;
      }
    }
  }

  lemma ReduceCompare(r: Ranking, m: seq<Candidate>, kept: seq<Candidate>, x: Candidate, j: nat)
    requires Reduced(r, m, kept) && j < |kept| && SlotOf(kept[j]) == SlotOf(x)
    ensures Reduced(r, m + [x], if Before(r, x, kept[j]) then kept[j := x] else kept)
  {
    hide First, Before;
    var next := if Before(r, x, kept[j]) then kept[j := x] else kept;
    assert forall k :: 0 <= k < |kept| ==> SlotOf(next[k]) == SlotOf(kept[k]);
    forall i | 0 <= i < |next|
      ensures First(r, m + [x], next[i])
    {
      if i == j && Before(r, x, kept[j]) {
        FirstReplaced(r, m, x, kept[j]);
      } else {
        FirstStays(r, m, x, kept[i]);
      }
    }
    forall y | y in m + [x]
      ensures Occupied(next, SlotOf(y))
    {
      if y in m {
        var i :| 0 <= i < |kept| && SlotOf(kept[i]) == SlotOf(y);
        assert SlotOf(next[i]) == SlotOf(y);
      } else {
        assert SlotOf(next[j]) == SlotOf(y);
      }
    }
  }

  // --- Sorted pools ---

  function PoolLess(r: Ranking): (Candidate, Candidate) -> bool {
    (x: Candidate, y: Candidate) => Rank(r, x) < Rank(r, y)
      || (Rank(r, x) == Rank(r, y) && StringLess(x.traceId, y.traceId))
  }

  function StratumLess(): (Stratum, Stratum) -> bool {
    (a: Stratum, b: Stratum) =>
      StringLess(a.initialSide, b.initialSide) || (a.initialSide == b.initialSide && !a.finalFlip && b.finalFlip)
  }

  function TraceLess(): (string, string) -> bool {
    (a: string, b: string) => StringLess(a, b)
  }

  lemma PoolLessStrict(r: Ranking)
    ensures StrictOrder(PoolLess(r))
  {
    var less := PoolLess(r);
    forall x: Candidate ensures !less(x, x) { StringLessIrreflexive(x.traceId); }
    forall x: Candidate, y: Candidate, z: Candidate | less(x, y) && less(y, z)
      ensures less(x, z)
    {
      if StringLess(x.traceId, y.traceId) && StringLess(y.traceId, z.traceId) {
        StringLessTransitive(x.traceId, y.traceId, z.traceId);
      }
    }
  }

  lemma StratumLessStrict()
    ensures StrictOrder(StratumLess())
    ensures forall a, b :: a != b ==> StratumLess()(a, b) || StratumLess()(b, a)
  {
    var less := StratumLess();
    forall a: Stratum ensures !less(a, a) { StringLessIrreflexive(a.initialSide); }
    forall a: Stratum, b: Stratum, c: Stratum | less(a, b) && less(b, c)
      ensures less(a, c)
    {
      if StringLess(a.initialSide, b.initialSide) && StringLess(b.initialSide, c.initialSide) {
        StringLessTransitive(a.initialSide, b.initialSide, c.initialSide);
      }
    }
    forall a: Stratum, b: Stratum | a != b
      ensures less(a, b) || less(b, a)
    {
      StringLessTotal(a.initialSide, b.initialSide);
    }
  }

  lemma TraceLessStrict()
    ensures StrictOrder(TraceLess())
    ensures forall a, b :: a != b ==> TraceLess()(a, b) || TraceLess()(b, a)
  {
    var less := TraceLess();
    forall a: string ensures !less(a, a) { StringLessIrreflexive(a); }
    forall a: string, b: string, c: string | less(a, b) && less(b, c)
      ensures less(a, c)
    {
      StringLessTransitive(a, b, c);
    }
    forall a: string, b: string | a != b
      ensures less(a, b) || less(b, a)
    {
      StringLessTotal(a, b);
    }
  }
}
