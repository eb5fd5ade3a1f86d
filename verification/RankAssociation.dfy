// Kendall's tau-a within direction strata.
module RankAssociation {
  import opened Options
  import opened Sums

  // One value per trace, in trace order, for each direction.
  datatype Strata = Strata(above: seq<real>, below: seq<real>)

  predicate Aligned(a: Strata, b: Strata) {
    |a.above| == |b.above| && |a.below| == |b.below|
  }

  function Sign(x: real): int {
    if x > 0.0 then 1 else if x < 0.0 then -1 else 0
  }

  function PairScore(lens: seq<real>, effects: seq<real>, i: nat, j: nat): int
    requires i < |lens| == |effects| && j < |lens|
  {
    Sign((lens[i] - lens[j]) * (effects[i] - effects[j]))
  }

  // The scores of the pairs (i, i + 1), ..., (i, end - 1).
  function RowScore(lens: seq<real>, effects: seq<real>, i: nat, end: nat): int
    requires i < end <= |lens| == |effects|
    decreases end
  {
    if end == i + 1 then 0 else RowScore(lens, effects, i, end - 1) + PairScore(lens, effects, i, end - 1)
  }

  // The scores of the pairs whose left member comes before end.
  function Score(lens: seq<real>, effects: seq<real>, end: nat): int
    requires end <= |lens| == |effects|
  {
    if end == 0 then 0 else Score(lens, effects, end - 1) + RowScore(lens, effects, end - 1, |lens|)
  }

  // How many pairs have their left member before end.
  function Pairs(n: nat, end: nat): nat
    requires end <= n
  {
    if end == 0 then 0 else Pairs(n, end - 1) + (n - end)
  }

  function Numerator(lens: Strata, effects: Strata): int
    requires Aligned(lens, effects)
  {
    Score(lens.above, effects.above, |lens.above|) + Score(lens.below, effects.below, |lens.below|)
  }

  function Denominator(s: Strata): nat {
    Pairs(|s.above|, |s.above|) + Pairs(|s.below|, |s.below|)
  }

  function Tau(lens: Strata, effects: Strata): Option<real>
    requires Aligned(lens, effects)
  {
    if Denominator(lens) == 0 then None
    else Some(Numerator(lens, effects) as real / Denominator(lens) as real)
  }

  method ScoreStratum(lens: seq<real>, effects: seq<real>) returns (numerator: int, denominator: nat)
    requires |lens| == |effects|
    ensures numerator == Score(lens, effects, |lens|) && denominator == Pairs(|lens|, |lens|)
  {
    hide Sign;
    numerator, denominator := 0, 0;
    var n := |lens|;
    for left := 0 to n
      invariant numerator == Score(lens, effects, left) && denominator == Pairs(n, left)
    {
      for right := left + 1 to n
        invariant numerator == Score(lens, effects, left) + RowScore(lens, effects, left, right)
        invariant denominator == Pairs(n, left) + (right - left - 1)
      {
        var product := (lens[left] - lens[right]) * (effects[left] - effects[right]);
        numerator := numerator + Sign(product);
        denominator := denominator + 1;
      }
    }
  }

  method StratifiedTauA(lens: Strata, effects: Strata) returns (tau: Option<real>)
    requires Aligned(lens, effects)
    ensures tau == Tau(lens, effects)
  {
    var numerator, denominator := ScoreStratum(lens.above, effects.above);
    var below, pairs := ScoreStratum(lens.below, effects.below);
    if denominator + pairs == 0 {
      return None;
    }
    return Some((numerator + below) as real / (denominator + pairs) as real);
  }

  // --- Concordance ---

  // The two sequences order positions i and j alike, or oppositely.
  ghost predicate Alike(lens: seq<real>, effects: seq<real>, i: int, j: int)
    requires 0 <= i < |lens| == |effects| && 0 <= j < |lens|
  {
    (lens[i] < lens[j] && effects[i] < effects[j]) || (lens[j] < lens[i] && effects[j] < effects[i])
  }

  ghost predicate Opposed(lens: seq<real>, effects: seq<real>, i: int, j: int)
    requires 0 <= i < |lens| == |effects| && 0 <= j < |lens|
  {
    (lens[i] < lens[j] && effects[j] < effects[i]) || (lens[j] < lens[i] && effects[i] < effects[j])
  }

  // The pairs of positions i < j that are ordered alike, and those ordered oppositely.
  ghost function AlikePairs(lens: seq<real>, effects: seq<real>): set<(int, int)>
    requires |lens| == |effects|
  {
    set i, j | 0 <= i < j < |lens| && Alike(lens, effects, i, j) :: (i, j)
  }

  ghost function OpposedPairs(lens: seq<real>, effects: seq<real>): set<(int, int)>
    requires |lens| == |effects|
  {
    set i, j | 0 <= i < j < |lens| && Opposed(lens, effects, i, j) :: (i, j)
  }

  ghost function AllPairs(n: nat): set<(int, int)> {
    set i, j | 0 <= i < j < n :: (i, j)
  }

  // The pairs of a relation, row by row.
  ghost function InRow(q: (int, int) -> bool, i: int, end: int): set<int> {
    set j | i < j < end && q(i, j)
  }

  ghost function InRows(q: (int, int) -> bool, n: nat, end: int): (pairs: set<(int, int)>)
    ensures forall i, j :: (i, j) in pairs <==> 0 <= i < end && i < j < n && q(i, j)
  {
    set i, j | 0 <= i < end && i < j < n && q(i, j) :: (i, j)
  }

  lemma RowNext(q: (int, int) -> bool, i: int, end: int)
    requires i + 1 < end
    ensures |InRow(q, i, end)| == |InRow(q, i, end - 1)| + Ind(q(i, end - 1))
  {
    assert InRow(q, i, end) == InRow(q, i, end - 1) + (if q(i, end - 1) then {end - 1} else {});
  }

  lemma RowsNext(q: (int, int) -> bool, n: nat, end: int)
    requires 0 < end <= n
    ensures |InRows(q, n, end)| == |InRows(q, n, end - 1)| + |InRow(q, end - 1, n)|
  {
    var before, last := InRows(q, n, end - 1), AfterPartner(end - 1, InRow(q, end - 1, n));
    AfterPartnerSize(end - 1, InRow(q, end - 1, n));
    forall x: (int, int)
      ensures x in InRows(q, n, end) <==> x in before || x in last
      ensures !(x in before && x in last)
    {
      assert x == (x.0, x.1);
    }
    assert InRows(q, n, end) == before + last && before !! last;
  }

  ghost function AlikeAt(lens: seq<real>, effects: seq<real>): (int, int) -> bool
    requires |lens| == |effects|
  {
    (i: int, j: int) => 0 <= i < |lens| && 0 <= j < |lens| && Alike(lens, effects, i, j)
  }

  ghost function OpposedAt(lens: seq<real>, effects: seq<real>): (int, int) -> bool
    requires |lens| == |effects|
  {
    (i: int, j: int) => 0 <= i < |lens| && 0 <= j < |lens| && Opposed(lens, effects, i, j)
  }

  lemma PairScoreCounts(lens: seq<real>, effects: seq<real>, i: nat, j: nat)
    requires i < |lens| == |effects| && j < |lens|
    ensures PairScore(lens, effects, i, j) ==
            Ind(AlikeAt(lens, effects)(i, j)) - Ind(OpposedAt(lens, effects)(i, j))
  {
    ProductOrder(lens[i] - lens[j], effects[i] - effects[j]);
  }

  lemma ProductOrder(x: real, y: real)
    ensures x * y > 0.0 <==> (x > 0.0 && y > 0.0) || (x < 0.0 && y < 0.0)
    ensures x * y < 0.0 <==> (x > 0.0 && y < 0.0) || (x < 0.0 && y > 0.0)
  {
  }

  lemma {:induction false} RowCounts(lens: seq<real>, effects: seq<real>, i: nat, end: nat)
    requires i < end <= |lens| == |effects|
    ensures RowScore(lens, effects, i, end) ==
            |InRow(AlikeAt(lens, effects), i, end)| - |InRow(OpposedAt(lens, effects), i, end)|
    decreases end
  {
    hide PairScore, AlikeAt, OpposedAt;
    if end == i + 1 {
      assert InRow(AlikeAt(lens, effects), i, end) == {} == InRow(OpposedAt(lens, effects), i, end);
    } else {
      RowCounts(lens, effects, i, end - 1);
      RowNext(AlikeAt(lens, effects), i, end);
      RowNext(OpposedAt(lens, effects), i, end);
      PairScoreCounts(lens, effects, i, end - 1);
    }
  }

  lemma {:induction false} RowsCount(lens: seq<real>, effects: seq<real>, end: nat)
    requires end <= |lens| == |effects|
    ensures Score(lens, effects, end) ==
            |InRows(AlikeAt(lens, effects), |lens|, end)| - |InRows(OpposedAt(lens, effects), |lens|, end)|
  {
    hide RowScore, AlikeAt, OpposedAt, InRow;
    if end == 0 {
      NoRows(AlikeAt(lens, effects), |lens|);
      NoRows(OpposedAt(lens, effects), |lens|);
    } else {
      RowsCount(lens, effects, end - 1);
      RowsNext(AlikeAt(lens, effects), |lens|, end);
      RowsNext(OpposedAt(lens, effects), |lens|, end);
      RowCounts(lens, effects, end - 1, |lens|);
    }
  }

  lemma NoRows(q: (int, int) -> bool, n: nat)
    ensures InRows(q, n, 0) == {}
  {
    forall x: (int, int)
      ensures x !in InRows(q, n, 0)
    {
      assert x == (x.0, x.1);
    }
  }

  // The score of a stratum is the number of pairs ordered alike less the number ordered oppositely.
  lemma ScoreIsConcordance(lens: seq<real>, effects: seq<real>)
    requires |lens| == |effects|
    ensures Score(lens, effects, |lens|) == |AlikePairs(lens, effects)| - |OpposedPairs(lens, effects)|
  {
    RowsCount(lens, effects, |lens|);
    AllRows(AlikeAt(lens, effects), |lens|, AlikePairs(lens, effects));
    AllRows(OpposedAt(lens, effects), |lens|, OpposedPairs(lens, effects));
  }

  lemma AllRows(q: (int, int) -> bool, n: nat, pairs: set<(int, int)>)
    requires forall i, j :: (i, j) in pairs <==> 0 <= i < j < n && q(i, j)
    ensures InRows(q, n, n) == pairs
  {
    forall x: (int, int)
      ensures x in InRows(q, n, n) <==> x in pairs
    {
      assert x == (x.0, x.1);
    }
  }

  lemma {:induction false} PairsAreAll(n: nat, end: nat)
    requires end <= n
    ensures Pairs(n, end) == |InRows((i, j) => true, n, end)|
  {
    var q := (i: int, j: int) => true;
    if end == 0 {
      NoRows(q, n);
    } else {
      PairsAreAll(n, end - 1);
      RowsNext(q, n, end);
      RowSize(end - 1, n);
    }
  }

  lemma {:induction false} RowSize(i: int, end: int)
    requires i < end
    ensures |InRow((i, j) => true, i, end)| == end - i - 1
    decreases end - i
  {
    var q := (i: int, j: int) => true;
    if end == i + 1 {
      assert InRow(q, i, end) == {};
    } else {
      RowSize(i, end - 1);
      RowNext(q, i, end);
    }
  }

  // Tau-a is the number of pairs ordered alike less the number ordered oppositely, over the number of all pairs.
  lemma TauIsConcordance(lens: Strata, effects: Strata)
    requires Aligned(lens, effects)
    ensures var all := |AllPairs(|lens.above|)| + |AllPairs(|lens.below|)|;
            var alike := |AlikePairs(lens.above, effects.above)| + |AlikePairs(lens.below, effects.below)|;
            var opposed := |OpposedPairs(lens.above, effects.above)| + |OpposedPairs(lens.below, effects.below)|;
            Tau(lens, effects) == if all == 0 then None else Some((alike - opposed) as real / all as real)
  {
    hide Score, Pairs;
    ScoreIsConcordance(lens.above, effects.above);
    ScoreIsConcordance(lens.below, effects.below);
    PairsCounted(|lens.above|);
    PairsCounted(|lens.below|);
  }

  lemma PairsCounted(n: nat)
    ensures Pairs(n, n) == |AllPairs(n)|
  {
    PairsAreAll(n, n);
    AllRows((i, j) => true, n, AllPairs(n));
  }

  // Strictly opposite orders give exactly -1.
  lemma OpposedTau(lens: Strata, effects: Strata)
    requires Aligned(lens, effects) && Tau(lens, effects).Some?
    requires forall i, j :: 0 <= i < j < |lens.above| ==> Opposed(lens.above, effects.above, i, j)
    requires forall i, j :: 0 <= i < j < |lens.below| ==> Opposed(lens.below, effects.below, i, j)
    ensures Tau(lens, effects) == Some(-1.0)
  {
    TauIsConcordance(lens, effects);
    AllOpposed(lens.above, effects.above);
    AllOpposed(lens.below, effects.below);
    WholeQuotient(|AllPairs(|lens.above|)| + |AllPairs(|lens.below|)|);
  }

  // Strictly equal orders give exactly 1.
  lemma AlikeTau(lens: Strata, effects: Strata)
    requires Aligned(lens, effects) && Tau(lens, effects).Some?
    requires forall i, j :: 0 <= i < j < |lens.above| ==> Alike(lens.above, effects.above, i, j)
    requires forall i, j :: 0 <= i < j < |lens.below| ==> Alike(lens.below, effects.below, i, j)
    ensures Tau(lens, effects) == Some(1.0)
  {
    TauIsConcordance(lens, effects);
    AllAlike(lens.above, effects.above);
    AllAlike(lens.below, effects.below);
    WholeQuotient(|AllPairs(|lens.above|)| + |AllPairs(|lens.below|)|);
  }

  lemma WholeQuotient(n: nat)
    requires n > 0
    ensures n as real / n as real == 1.0 && (0 - n) as real / n as real == -1.0
  {
  }

  lemma AllOpposed(lens: seq<real>, effects: seq<real>)
    requires |lens| == |effects| && forall i, j :: 0 <= i < j < |lens| ==> Opposed(lens, effects, i, j)
    ensures OpposedPairs(lens, effects) == AllPairs(|lens|) && AlikePairs(lens, effects) == {}
  {
    forall x: (int, int)
      ensures x !in AlikePairs(lens, effects)
    {
      assert x == (x.0, x.1);
      assert 0 <= x.0 < x.1 < |lens| ==> Opposed(lens, effects, x.0, x.1);
    }
  }

  lemma AllAlike(lens: seq<real>, effects: seq<real>)
    requires |lens| == |effects| && forall i, j :: 0 <= i < j < |lens| ==> Alike(lens, effects, i, j)
    ensures AlikePairs(lens, effects) == AllPairs(|lens|) && OpposedPairs(lens, effects) == {}
  {
    forall x: (int, int)
      ensures x !in OpposedPairs(lens, effects)
    {
      assert x == (x.0, x.1);
      assert 0 <= x.0 < x.1 < |lens| ==> Alike(lens, effects, x.0, x.1);
    }
  }

  // --- Range ---

  lemma {:induction false} RowBounded(lens: seq<real>, effects: seq<real>, i: nat, end: nat)
    requires i < end <= |lens| == |effects|
    ensures i + 1 - end <= RowScore(lens, effects, i, end) <= end - i - 1
    decreases end
  {
    if end > i + 1 {
      RowBounded(lens, effects, i, end - 1);
    }
  }

  lemma {:induction false} ScoreBounded(lens: seq<real>, effects: seq<real>, end: nat)
    requires end <= |lens| == |effects|
    ensures 0 - Pairs(|lens|, end) <= Score(lens, effects, end) <= Pairs(|lens|, end)
  {
    if end > 0 {
      ScoreBounded(lens, effects, end - 1);
      RowBounded(lens, effects, end - 1, |lens|);
    }
  }

  lemma QuotientInUnit(k: int, n: nat)
    requires n > 0 && 0 - n <= k <= n
    ensures -1.0 <= k as real / n as real <= 1.0
  {
  }

  // n * (n - 1) / 2 pairs in a stratum of n traces.
  lemma {:induction false} PairCount(n: nat, end: nat)
    requires end <= n
    ensures 2 * Pairs(n, end) == end * (2 * n - end - 1)
  {
    if end > 0 {
      PairCount(n, end - 1);
    }
  }

  // Tau-a exists exactly when some stratum has two traces, and lies between -1 and 1.
  lemma TauInUnit(lens: Strata, effects: Strata)
    requires Aligned(lens, effects)
    ensures Tau(lens, effects).Some? <==> |lens.above| >= 2 || |lens.below| >= 2
    ensures Tau(lens, effects).Some? ==> -1.0 <= Tau(lens, effects).value <= 1.0
  {
    ScoreBounded(lens.above, effects.above, |lens.above|);
    ScoreBounded(lens.below, effects.below, |lens.below|);
    PairCount(|lens.above|, |lens.above|);
    PairCount(|lens.below|, |lens.below|);
    PairsPositive(|lens.above|);
    PairsPositive(|lens.below|);
    if Denominator(lens) > 0 {
      QuotientInUnit(Numerator(lens, effects), Denominator(lens));
    }
  }

  lemma PairsPositive(n: nat)
    ensures Pairs(n, n) > 0 <==> n >= 2
  {
    PairCount(n, n);
    if n >= 2 {
      assert n * (n - 1) > 0;
    } else {
      assert n * (n - 1) == 0;
    }
  }

  // --- Invariance ---

  lemma SignOfProduct(x: real, y: real)
    ensures Sign(x * y) == Sign(x) * Sign(y)
  {
  }

  // The lens values keep (flip 1) or reverse (flip -1) their order.
  ghost predicate Flipped(a: seq<real>, b: seq<real>, flip: int) {
    && |a| == |b| && (flip == 1 || flip == -1)
    && forall i, j :: 0 <= i < |a| && 0 <= j < |a| ==>
         (b[i] < b[j] <==> if flip == 1 then a[i] < a[j] else a[j] < a[i])
  }

  lemma PairFlipped(lens: seq<real>, lens': seq<real>, effects: seq<real>, i: nat, j: nat, flip: int)
    requires Flipped(lens, lens', flip) && i < |lens| == |effects| && j < |lens|
    ensures PairScore(lens', effects, i, j) == flip * PairScore(lens, effects, i, j)
  {
    PairScoreIs(lens, effects, i, j);
    PairScoreIs(lens', effects, i, j);
    var a, b := Sign(lens[i] - lens[j]), Sign(effects[i] - effects[j]);
    assert Sign(lens'[i] - lens'[j]) == flip * a by {
      assert lens'[i] < lens'[j] <==> if flip == 1 then lens[i] < lens[j] else lens[j] < lens[i];
      assert lens'[j] < lens'[i] <==> if flip == 1 then lens[j] < lens[i] else lens[i] < lens[j];
    }
    Regroup(flip, a, b);
  }

  lemma PairScoreIs(lens: seq<real>, effects: seq<real>, i: nat, j: nat)
    requires i < |lens| == |effects| && j < |lens|
    ensures PairScore(lens, effects, i, j) == Sign(lens[i] - lens[j]) * Sign(effects[i] - effects[j])
  {
    SignOfProduct(lens[i] - lens[j], effects[i] - effects[j]);
  }

  lemma Regroup(flip: int, a: int, b: int)
    ensures (flip * a) * b == flip * (a * b)
  {
  }

  lemma {:induction false} RowFlipped(lens: seq<real>, lens': seq<real>, effects: seq<real>, i: nat, end: nat,
                                      flip: int)
    requires Flipped(lens, lens', flip) && i < end <= |lens| == |effects|
    ensures RowScore(lens', effects, i, end) == flip * RowScore(lens, effects, i, end)
    decreases end
  {
    hide Sign, PairScore;
    if end > i + 1 {
      RowFlipped(lens, lens', effects, i, end - 1, flip);
      PairFlipped(lens, lens', effects, i, end - 1, flip);
    }
  }

  lemma {:induction false} ScoreFlipped(lens: seq<real>, lens': seq<real>, effects: seq<real>, end: nat, flip: int)
    requires Flipped(lens, lens', flip) && end <= |lens| == |effects|
    ensures Score(lens', effects, end) == flip * Score(lens, effects, end)
  {
    hide Sign, RowScore;
    if end > 0 {
      ScoreFlipped(lens, lens', effects, end - 1, flip);
      RowFlipped(lens, lens', effects, end - 1, |lens|, flip);
    }
  }

  // Only the order of the lens values matters: keeping it keeps tau-a, reversing it changes only the sign.
  lemma TauFlipped(lens: Strata, lens': Strata, effects: Strata, flip: int)
    requires Aligned(lens, effects) && Flipped(lens.above, lens'.above, flip) && Flipped(lens.below, lens'.below, flip)
    ensures match Tau(lens, effects)
            case None => Tau(lens', effects) == None
            case Some(t) => Tau(lens', effects) == Some(if flip == 1 then t else -t)
  {
    hide Sign;
    ScoreFlipped(lens.above, lens'.above, effects.above, |lens.above|, flip);
    ScoreFlipped(lens.below, lens'.below, effects.below, |lens.below|, flip);
    if Denominator(lens) > 0 {
      NegatedQuotient(Numerator(lens, effects), Denominator(lens));
    }
  }

  lemma NegatedQuotient(k: int, n: nat)
    requires n > 0
    ensures (-k) as real / n as real == -(k as real / n as real)
  {
  }

  ghost predicate StrictlyIncreasing(f: real -> real) {
    forall x, y :: x < y ==> f(x) < f(y)
  }

  function Mapped(f: real -> real, s: seq<real>): seq<real> {
    seq(|s|, i requires 0 <= i < |s| => f(s[i]))
  }

  function MappedStrata(f: real -> real, s: Strata): Strata {
    Strata(Mapped(f, s.above), Mapped(f, s.below))
  }

  lemma IncreasingKeepsOrder(f: real -> real, s: seq<real>)
    requires StrictlyIncreasing(f)
    ensures Flipped(s, Mapped(f, s), 1)
  {
    forall i, j | 0 <= i < |s| && 0 <= j < |s|
      ensures f(s[i]) < f(s[j]) <==> s[i] < s[j]
    {
      assert s[i] < s[j] ==> f(s[i]) < f(s[j]);
      assert s[j] < s[i] ==> f(s[j]) < f(s[i]);
    }
  }
}
