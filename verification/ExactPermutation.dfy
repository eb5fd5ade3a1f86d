// The exact permutation test over the stratified rank statistic.
module ExactPermutation {
  import opened Numbers
  import opened Options
  import opened RankAssociation

  // --- itertools.permutations ---

  function Without(s: seq<real>, k: nat): seq<real>
    requires k < |s|
  {
    s[..k] + s[k + 1..]
  }

  function Headed(x: real, ps: seq<seq<real>>): seq<seq<real>> {
    seq(|ps|, i requires 0 <= i < |ps| => [x] + ps[i])
  }

  // The permutations that start with one of the first k positions, in position order.
  function Leading(s: seq<real>, k: nat): seq<seq<real>>
    requires k <= |s|
    decreases |s|, k
  {
    if k == 0 then [] else Leading(s, k - 1) + Headed(s[k - 1], Permutations(Without(s, k - 1)))
  }

  function Permutations(s: seq<real>): seq<seq<real>>
    decreases |s|, |s| + 1
  {
    if |s| == 0 then [[]] else Leading(s, |s|)
  }

  function Factorial(n: nat): (f: nat)
    ensures f > 0
  {
    if n == 0 then 1 else n * Factorial(n - 1)
  }

  lemma {:induction false} LeadingCount(s: seq<real>, k: nat)
    requires k <= |s|
    ensures |s| > 0 ==> |Leading(s, k)| == k * Factorial(|s| - 1)
    decreases |s|, k
  {
    if k > 0 {
      LeadingCount(s, k - 1);
      PermutationCount(Without(s, k - 1));
      assert k * Factorial(|s| - 1) == (k - 1) * Factorial(|s| - 1) + Factorial(|s| - 1);
    }
  }

  // n values have n! permutations, repeated values counted by position.
  lemma {:induction false} PermutationCount(s: seq<real>)
    ensures |Permutations(s)| == Factorial(|s|)
    decreases |s|, |s| + 1
  {
    if |s| > 0 {
      LeadingCount(s, |s|);
    }
  }

  lemma {:induction false} LeadingStarts(s: seq<real>, k: nat)
    requires 0 < k <= |s|
    ensures |Leading(s, k)| > 0 && Leading(s, k)[0] == s
    decreases |s|, k
  {
    if k == 1 {
      StartsUnpermuted(Without(s, 0));
      assert Leading(s, 0) == [];
      assert Without(s, 0) == s[1..];
      assert Headed(s[0], Permutations(Without(s, 0)))[0] == [s[0]] + s[1..] == s;
    } else {
      LeadingStarts(s, k - 1);
    }
  }

  // The first permutation is the observed order itself.
  lemma {:induction false} StartsUnpermuted(s: seq<real>)
    ensures |Permutations(s)| > 0 && Permutations(s)[0] == s
    decreases |s|, |s| + 1
  {
    if |s| > 0 {
      LeadingStarts(s, |s|);
    }
  }

  // In how many position orders the values of q come out as q.
  function Orders(q: seq<real>): nat {
    if |q| == 0 then 1 else multiset(q)[q[0]] * Orders(q[1..])
  }

  function Occurrences(ps: seq<seq<real>>, q: seq<real>): nat {
    if |ps| == 0 then 0 else Occurrences(ps[..|ps| - 1], q) + (if ps[|ps| - 1] == q then 1 else 0)
  }

  lemma {:induction false} OccurrencesAppend(a: seq<seq<real>>, b: seq<seq<real>>, q: seq<real>)
    ensures Occurrences(a + b, q) == Occurrences(a, q) + Occurrences(b, q)
    decreases |b|
  {
    if |b| == 0 {
      assert a + b == a;
    } else {
      OccurrencesAppend(a, b[..|b| - 1], q);
      assert (a + b)[..|a + b| - 1] == a + b[..|b| - 1];
    }
  }

  lemma {:induction false} OccurrencesHeaded(x: real, ps: seq<seq<real>>, q: seq<real>)
    ensures Occurrences(Headed(x, ps), q) == if |q| > 0 && q[0] == x then Occurrences(ps, q[1..]) else 0
  {
    if |ps| > 0 {
      var front, last := ps[..|ps| - 1], ps[|ps| - 1];
      OccurrencesHeaded(x, front, q);
      assert Headed(x, ps)[..|ps| - 1] == Headed(x, front);
      if |q| > 0 && q[0] == x {
        assert [x] + q[1..] == q;
        assert ([x] + last)[1..] == last;
      } else {
        assert ([x] + last)[0] == x;
      }
    }
  }

  function CountValue(s: seq<real>, k: nat, x: real): nat
    requires k <= |s|
  {
    if k == 0 then 0 else CountValue(s, k - 1, x) + (if s[k - 1] == x then 1 else 0)
  }

  lemma {:induction false} CountIsMultiplicity(s: seq<real>, k: nat, x: real)
    requires k <= |s|
    ensures CountValue(s, k, x) == multiset(s[..k])[x]
  {
    if k > 0 {
      CountIsMultiplicity(s, k - 1, x);
      assert s[..k] == s[..k - 1] + [s[k - 1]];
    }
  }

  lemma WithoutMultiset(s: seq<real>, k: nat)
    requires k < |s|
    ensures multiset(s) == multiset(Without(s, k)) + multiset{s[k]}
  {
    assert s == s[..k] + [s[k]] + s[k + 1..];
  }

  lemma HeadMultiset(q: seq<real>)
    requires |q| > 0
    ensures multiset(q) == multiset(q[1..]) + multiset{q[0]}
  {
    assert q == [q[0]] + q[1..];
  }

  lemma LeadingStep(s: seq<real>, k: nat, q: seq<real>)
    requires 0 < k <= |s|
    ensures Occurrences(Leading(s, k), q) == Occurrences(Leading(s, k - 1), q)
            + (if |q| > 0 && q[0] == s[k - 1] then Occurrences(Permutations(Without(s, k - 1)), q[1..]) else 0)
  {
    hide Occurrences, Permutations;
    OccurrencesAppend(Leading(s, k - 1), Headed(s[k - 1], Permutations(Without(s, k - 1))), q);
    OccurrencesHeaded(s[k - 1], Permutations(Without(s, k - 1)), q);
  }

  lemma OneMore(c: nat, o: nat)
    ensures (c + 1) * o == c * o + o
  {
  }

  lemma RestMatches(s: seq<real>, k: nat, q: seq<real>)
    requires k < |s| && |q| > 0 && q[0] == s[k]
    ensures multiset(q[1..]) == multiset(Without(s, k)) <==> multiset(q) == multiset(s)
  {
    hide Without;
    WithoutMultiset(s, k);
    HeadMultiset(q);
    SameRemainder(multiset(q[1..]), multiset(Without(s, k)), s[k]);
  }

  lemma {:induction false} LeadingOccurrences(s: seq<real>, k: nat, q: seq<real>)
    requires k <= |s| && |s| > 0
    ensures Occurrences(Leading(s, k), q) ==
            if |q| > 0 && multiset(q) == multiset(s) then CountValue(s, k, q[0]) * Orders(q[1..]) else 0
    decreases |s|, k
  {
    hide Orders, Occurrences, Permutations, Without, Leading;
    if k > 0 {
      LeadingOccurrences(s, k - 1, q);
      LeadingStep(s, k, q);
      WithoutShorter(s, k - 1);
      if |q| > 0 && q[0] == s[k - 1] {
        VisitedOften(Without(s, k - 1), q[1..]);
        RestMatches(s, k - 1, q);
        OneMore(CountValue(s, k - 1, q[0]), Orders(q[1..]));
      }
    } else {
      NoOccurrences(s, q);
    }
  }

  lemma WithoutShorter(s: seq<real>, k: nat)
    requires k < |s|
    ensures |Without(s, k)| == |s| - 1
  {
  }

  lemma NoOccurrences(s: seq<real>, q: seq<real>)
    ensures Occurrences(Leading(s, 0), q) == 0
  {
  }

  lemma SameRemainder(a: multiset<real>, b: multiset<real>, x: real)
    ensures a + multiset{x} == b + multiset{x} <==> a == b
  {
    if a + multiset{x} == b + multiset{x} {
      assert a == (a + multiset{x}) - multiset{x} == (b + multiset{x}) - multiset{x} == b;
    }
  }

  // The loop visits exactly the rearrangements of the values, each as often as equal values can change places.
  lemma {:induction false} VisitedOften(s: seq<real>, q: seq<real>)
    ensures Occurrences(Permutations(s), q) == if multiset(q) == multiset(s) then Orders(q) else 0
    decreases |s|, |s| + 1
  {
    if |s| == 0 {
      assert multiset(s) == multiset{};
      assert Permutations(s) == [[]];
      assert Permutations(s)[..0] == [];
      if |q| > 0 {
        assert q[0] in multiset(q);
      } else {
        assert q == [];
      }
    } else {
      LeadingOccurrences(s, |s|, q);
      assert |multiset(q)| == |q| && |multiset(s)| == |s|;
      if multiset(q) == multiset(s) {
        CountIsMultiplicity(s, |s|, q[0]);
        assert s[..|s|] == s;
      }
    }
  }

  // With no equal values every rearrangement is visited exactly once.
  lemma {:induction false} DistinctOnce(q: seq<real>)
    requires forall i, j :: 0 <= i < j < |q| ==> q[i] != q[j]
    ensures Orders(q) == 1
  {
    if |q| > 0 {
      DistinctOnce(q[1..]);
      HeadMultiset(q);
      forall j | 0 <= j < |q[1..]|
        ensures q[1..][j] != q[0]
      {
        assert q[1..][j] == q[j + 1];
      }
      assert q[0] !in multiset(q[1..]);
    }
  }

  // --- The test ---

  const EPSILON := 0.000000000001

  // The size of the statistic for one labelling.
  function Statistic(lens: Strata, effects: Strata): real {
    if Aligned(lens, effects) && Tau(lens, effects).Some? then Abs(Tau(lens, effects).value) else 0.0
  }

  // How many labellings reach the cutoff.
  function AtLeast(lens: Strata, labels: seq<Strata>, cutoff: real): (n: nat)
    ensures n <= |labels|
  {
    if |labels| == 0 then 0 else
      AtLeast(lens, labels[..|labels| - 1], cutoff) + (if Statistic(lens, labels[|labels| - 1]) >= cutoff then 1 else 0)
  }

  // itertools.product of the two directions' permutations, in the order of the loop.
  function Beside(above: seq<real>, below: seq<seq<real>>): seq<Strata> {
    seq(|below|, i requires 0 <= i < |below| => Strata(above, below[i]))
  }

  function Product(above: seq<seq<real>>, below: seq<seq<real>>): seq<Strata> {
    if |above| == 0 then [] else Product(above[..|above| - 1], below) + Beside(above[|above| - 1], below)
  }

  function Labellings(effects: Strata): seq<Strata> {
    Product(Permutations(effects.above), Permutations(effects.below))
  }

  function Extreme(lens: Strata, effects: Strata): nat {
    AtLeast(lens, Labellings(effects), Statistic(lens, effects) - EPSILON)
  }

  function PValue(lens: Strata, effects: Strata): real
    requires |Labellings(effects)| > 0
  {
    Ratio(Extreme(lens, effects), |Labellings(effects)|)
  }

  // --- What the loop visits ---

  lemma {:induction false} OccursAt(ps: seq<seq<real>>, i: nat)
    requires i < |ps|
    ensures Occurrences(ps, ps[i]) > 0
  {
    if i < |ps| - 1 {
      OccursAt(ps[..|ps| - 1], i);
      assert ps[..|ps| - 1][i] == ps[i];
    }
  }

  lemma {:induction false} OccursSomewhere(ps: seq<seq<real>>, q: seq<real>)
    requires Occurrences(ps, q) > 0
    ensures q in ps
  {
    if ps[|ps| - 1] != q {
      OccursSomewhere(ps[..|ps| - 1], q);
    }
  }

  lemma {:induction false} OrdersPositive(q: seq<real>)
    ensures Orders(q) > 0
  {
    if |q| > 0 {
      OrdersPositive(q[1..]);
      HeadMultiset(q);
    }
  }

  lemma VisitedIff(s: seq<real>, q: seq<real>)
    ensures q in Permutations(s) <==> multiset(q) == multiset(s)
  {
    hide Permutations, Occurrences, Orders;
    VisitedOften(s, q);
    OrdersPositive(q);
    if q in Permutations(s) {
      var i :| 0 <= i < |Permutations(s)| && Permutations(s)[i] == q;
      OccursAt(Permutations(s), i);
    } else if multiset(q) == multiset(s) {
      OccursSomewhere(Permutations(s), q);
    }
  }

  lemma {:induction false} ProductCount(above: seq<seq<real>>, below: seq<seq<real>>)
    ensures |Product(above, below)| == |above| * |below|
    ensures |above| > 0 && |below| > 0 ==> Product(above, below)[0] == Strata(above[0], below[0])
  {
    if |above| > 0 {
      ProductCount(above[..|above| - 1], below);
      OneMore(|above| - 1, |below|);
      assert |above| == 1 ==> Product(above[..0], below) == [];
    }
  }

  lemma {:induction false} ProductMembers(above: seq<seq<real>>, below: seq<seq<real>>, l: Strata)
    ensures l in Product(above, below) <==> l.above in above && l.below in below
  {
    hide Beside;
    if |above| > 0 {
      var front, last := above[..|above| - 1], above[|above| - 1];
      ProductMembers(front, below, l);
      BesideMembers(last, below, l);
      assert l.above in above <==> l.above in front || l.above == last;
    }
  }

  lemma BesideMembers(above: seq<real>, below: seq<seq<real>>, l: Strata)
    ensures l in Beside(above, below) <==> l.above == above && l.below in below
  {
    if l.above == above && l.below in below {
      var i :| 0 <= i < |below| && below[i] == l.below;
      assert Beside(above, below)[i] == l;
    }
  }

  // The loop visits n_above! * n_below! labellings, the observed one first, and together they are
  // exactly the labellings that rearrange the values within each direction.
  lemma LoopVisits(effects: Strata)
    ensures |Labellings(effects)| == Factorial(|effects.above|) * Factorial(|effects.below|) > 0
    ensures Labellings(effects)[0] == effects
    ensures forall l: Strata :: l in Labellings(effects) <==>
              multiset(l.above) == multiset(effects.above) && multiset(l.below) == multiset(effects.below)
  {
    hide Permutations, Product;
    ProductCount(Permutations(effects.above), Permutations(effects.below));
    PermutationCount(effects.above);
    PermutationCount(effects.below);
    StartsUnpermuted(effects.above);
    StartsUnpermuted(effects.below);
    forall l: Strata
      ensures l in Labellings(effects) <==>
              multiset(l.above) == multiset(effects.above) && multiset(l.below) == multiset(effects.below)
    {
      ProductMembers(Permutations(effects.above), Permutations(effects.below), l);
      VisitedIff(effects.above, l.above);
      VisitedIff(effects.below, l.below);
    }
    assert Factorial(|effects.above|) * Factorial(|effects.below|) > 0;
  }

  lemma SameLengths(a: seq<real>, b: seq<real>)
    requires multiset(a) == multiset(b)
    ensures |a| == |b|
  {
    assert |multiset(a)| == |a| && |multiset(b)| == |b|;
  }

  lemma VisitedAligned(lens: Strata, effects: Strata, l: Strata)
    requires Aligned(lens, effects) && l in Labellings(effects)
    ensures Aligned(lens, l)
  {
    hide Labellings;
    LoopVisits(effects);
    SameLengths(l.above, effects.above);
    SameLengths(l.below, effects.below);
  }

  // A labelling whose tau-a lies at least as far from zero as the observed one, up to 10^-12.
  ghost predicate AsFar(lens: Strata, effects: Strata, l: Strata) {
    && Aligned(lens, effects) && Aligned(lens, l) && Tau(lens, effects).Some? && Tau(lens, l).Some?
    && var t, observed := Tau(lens, l).value, Tau(lens, effects).value;
       (t >= observed - 0.000000000001 && t >= -observed - 0.000000000001)
       || (-t >= observed - 0.000000000001 && -t >= -observed - 0.000000000001)
  }

  lemma {:induction false} AtLeastIs(lens: Strata, effects: Strata, labels: seq<Strata>)
    requires Aligned(lens, effects) && Tau(lens, effects).Some? && forall l :: l in labels ==> Aligned(lens, l)
    ensures AtLeast(lens, labels, Statistic(lens, effects) - EPSILON) ==
            |set k | 0 <= k < |labels| && AsFar(lens, effects, labels[k])|
  {
    hide Tau;
    var all := set k | 0 <= k < |labels| && AsFar(lens, effects, labels[k]);
    if |labels| == 0 {
      assert all == {};
    } else {
      var front, last := labels[..|labels| - 1], labels[|labels| - 1];
      AtLeastIs(lens, effects, front);
      var before := set k | 0 <= k < |front| && AsFar(lens, effects, front[k]);
      SameTaus(lens, effects, last);
      FarIff(lens, effects, last);
      assert all == if AsFar(lens, effects, last) then before + {|front|} else before;
    }
  }

  lemma SameTaus(lens: Strata, effects: Strata, l: Strata)
    requires Aligned(lens, effects) && Aligned(lens, l)
    ensures Tau(lens, l).Some? <==> Tau(lens, effects).Some?
  {
  }

  lemma FarIff(lens: Strata, effects: Strata, l: Strata)
    requires Aligned(lens, effects) && Aligned(lens, l) && Tau(lens, effects).Some? && Tau(lens, l).Some?
    ensures AsFar(lens, effects, l) <==> Statistic(lens, l) >= Statistic(lens, effects) - EPSILON
  {
    hide Tau;
  }

  // The p-value is the share of the visited labellings that lie at least as far from zero as the observed one.
  lemma PValueIs(lens: Strata, effects: Strata)
    requires Aligned(lens, effects) && Tau(lens, effects).Some?
    ensures var far := |set k | 0 <= k < |Labellings(effects)| && AsFar(lens, effects, Labellings(effects)[k])|;
            && Extreme(lens, effects) == far && |Labellings(effects)| > 0
            && PValue(lens, effects) * (Factorial(|effects.above|) * Factorial(|effects.below|)) as real == far as real
  {
    hide Labellings, AtLeast, AsFar, Statistic, Tau;
    LoopVisits(effects);
    forall l | l in Labellings(effects)
      ensures Aligned(lens, l)
    {
      VisitedAligned(lens, effects, l);
    }
    AtLeastIs(lens, effects, Labellings(effects));
  }

  // --- The loop ---

  datatype TestResult = TestResult(count: nat, extremeJ: nat, extremeR: nat)

  lemma OneMoreLabel(lens: Strata, labels: seq<Strata>, l: Strata, cutoff: real)
    ensures AtLeast(lens, labels + [l], cutoff) ==
            AtLeast(lens, labels, cutoff) + (if Statistic(lens, l) >= cutoff then 1 else 0)
  {
    assert (labels + [l])[..|labels|] == labels;
  }

  lemma BesideStep(above: seq<real>, below: seq<seq<real>>, j: nat)
    requires j < |below|
    ensures Beside(above, below[..j + 1]) == Beside(above, below[..j]) + [Strata(above, below[j])]
  {
  }

  lemma ProductStep(above: seq<seq<real>>, below: seq<seq<real>>, i: nat)
    requires i < |above|
    ensures Product(above[..i + 1], below) == Product(above[..i], below) + Beside(above[i], below)
  {
    assert above[..i + 1][..i] == above[..i];
  }

  method Size(lens: Strata, effects: Strata) returns (size: real)
    requires Aligned(lens, effects)
    ensures size == Statistic(lens, effects)
  {
    var tau := StratifiedTauA(lens, effects);
    size := if tau.Some? then Abs(tau.value) else 0.0;
  }

  // Counts, over every relabelling, how often each lens reaches its observed statistic.
  method ExactTest(lensJ: Strata, lensR: Strata, effects: Strata) returns (result: Option<TestResult>)
    requires Aligned(lensJ, effects) && Aligned(lensR, effects)
    ensures result == if Denominator(effects) == 0 then None
                      else Some(TestResult(|Labellings(effects)|, Extreme(lensJ, effects), Extreme(lensR, effects)))
  {
    hide Permutations, Product, Statistic, AtLeast, Beside;
    var observed := StratifiedTauA(lensJ, effects);
    if observed.None? {
      return None;
    }
    var sizeJ := Size(lensJ, effects);
    var sizeR := Size(lensR, effects);
    var above, below := Permutations(effects.above), Permutations(effects.below);
    var count, extremeJ, extremeR := 0, 0, 0;
    var i := 0;
    ghost var done: seq<Strata> := Product(above[..0], below);
    NothingYet(lensJ, above, below, sizeJ - EPSILON);
    NothingYet(lensR, above, below, sizeR - EPSILON);
    while i < |above|
      invariant i <= |above| && done == Product(above[..i], below)
      invariant count == |done|
      invariant extremeJ == AtLeast(lensJ, done, sizeJ - EPSILON) && extremeR == AtLeast(lensR, done, sizeR - EPSILON)
    {
      var j := 0;
      ghost var row := done;
      NoneBeside(above[i], below);
      while j < |below|
        invariant j <= |below| && done == row + Beside(above[i], below[..j])
        invariant count == |done|
        invariant extremeJ == AtLeast(lensJ, done, sizeJ - EPSILON) && extremeR == AtLeast(lensR, done, sizeR - EPSILON)
      {
        var labelling := Strata(above[i], below[j]);
        LabelVisited(effects, i, j);
        VisitedAligned(lensJ, effects, labelling);
        VisitedAligned(lensR, effects, labelling);
        BesideStep(above[i], below, j);
        count := count + 1;
        var size := Size(lensJ, labelling);
        OneMoreLabel(lensJ, done, labelling, sizeJ - EPSILON);
        if size >= sizeJ - EPSILON {
          extremeJ := extremeJ + 1;
        }
        size := Size(lensR, labelling);
        OneMoreLabel(lensR, done, labelling, sizeR - EPSILON);
        if size >= sizeR - EPSILON {
          extremeR := extremeR + 1;
        }
        assert done + [labelling] == row + Beside(above[i], below[..j + 1]);
        done := done + [labelling];
        j := j + 1;
      }
      assert below[..|below|] == below;
      ProductStep(above, below, i);
      i := i + 1;
    }
    assert above[..|above|] == above;
    return Some(TestResult(count, extremeJ, extremeR));
  }

  lemma NothingYet(lens: Strata, above: seq<seq<real>>, below: seq<seq<real>>, cutoff: real)
    ensures Product(above[..0], below) == [] && AtLeast(lens, [], cutoff) == 0
  {
  }

  lemma NoneBeside(above: seq<real>, below: seq<seq<real>>)
    ensures Beside(above, below[..0]) == []
  {
  }

  lemma LabelVisited(effects: Strata, i: nat, j: nat)
    requires i < |Permutations(effects.above)| && j < |Permutations(effects.below)|
    ensures Strata(Permutations(effects.above)[i], Permutations(effects.below)[j]) in Labellings(effects)
  {
    hide Permutations, Product;
    ProductMembers(Permutations(effects.above), Permutations(effects.below),
                   Strata(Permutations(effects.above)[i], Permutations(effects.below)[j]));
  }

  // --- Properties of the p-value ---

  lemma {:induction false} FirstCounts(lens: Strata, labels: seq<Strata>, cutoff: real)
    requires |labels| > 0 && Statistic(lens, labels[0]) >= cutoff
    ensures AtLeast(lens, labels, cutoff) >= 1
  {
    if |labels| > 1 {
      FirstCounts(lens, labels[..|labels| - 1], cutoff);
    }
  }

  // The observed labelling counts, so the p-value is at least one over the number of labellings and at most one.
  lemma PValueRange(lens: Strata, effects: Strata)
    ensures |Labellings(effects)| > 0
    ensures 1.0 / |Labellings(effects)| as real <= PValue(lens, effects) <= 1.0
  {
    hide Labellings, Statistic, AtLeast;
    LoopVisits(effects);
    FirstCounts(lens, Labellings(effects), Statistic(lens, effects) - EPSILON);
    ShareRange(Extreme(lens, effects), |Labellings(effects)|);
  }

  lemma ShareRange(k: nat, n: nat)
    requires 1 <= k <= n
    ensures 1.0 / n as real <= k as real / n as real <= 1.0
  {
    var unit := 1.0 / n as real;
    assert n as real * unit == 1.0;
    assert k as real / n as real == k as real * unit;
    assert unit > 0.0;
    assert 1.0 * unit <= k as real * unit <= n as real * unit;
  }

  lemma StatisticFlipped(lens: Strata, lens': Strata, effects: Strata, flip: int)
    requires Flipped(lens.above, lens'.above, flip) && Flipped(lens.below, lens'.below, flip)
    ensures Statistic(lens', effects) == Statistic(lens, effects)
  {
    hide Tau, Flipped;
    LengthsKept(lens.above, lens'.above, flip);
    LengthsKept(lens.below, lens'.below, flip);
    if Aligned(lens, effects) {
      TauFlipped(lens, lens', effects, flip);
    }
  }

  lemma LengthsKept(a: seq<real>, b: seq<real>, flip: int)
    requires Flipped(a, b, flip)
    ensures |a| == |b|
  {
  }

  lemma {:induction false} AtLeastFlipped(lens: Strata, lens': Strata, labels: seq<Strata>, cutoff: real, flip: int)
    requires Flipped(lens.above, lens'.above, flip) && Flipped(lens.below, lens'.below, flip)
    ensures AtLeast(lens', labels, cutoff) == AtLeast(lens, labels, cutoff)
  {
    hide Statistic, Flipped;
    if |labels| > 0 {
      AtLeastFlipped(lens, lens', labels[..|labels| - 1], cutoff, flip);
      StatisticFlipped(lens, lens', labels[|labels| - 1], flip);
    }
  }

  // Any strictly increasing change of the lens values leaves tau-a and the p-value as they are.
  lemma IncreasingInvariant(f: real -> real, lens: Strata, effects: Strata)
    requires StrictlyIncreasing(f) && Aligned(lens, effects)
    ensures Tau(MappedStrata(f, lens), effects) == Tau(lens, effects)
    ensures |Labellings(effects)| > 0 && PValue(MappedStrata(f, lens), effects) == PValue(lens, effects)
  {
    hide Tau, Labellings, AtLeast, Statistic, Flipped;
    IncreasingKeepsOrder(f, lens.above);
    IncreasingKeepsOrder(f, lens.below);
    TauFlipped(lens, MappedStrata(f, lens), effects, 1);
    LoopVisits(effects);
    StatisticFlipped(lens, MappedStrata(f, lens), effects, 1);
    AtLeastFlipped(lens, MappedStrata(f, lens), Labellings(effects), Statistic(lens, effects) - EPSILON, 1);
  }

  // Only the order of the lens values within each direction matters, and reversing it changes nothing: the test is
  // two-sided.
  lemma OrderInvariant(lens: Strata, lens': Strata, effects: Strata, flip: int)
    requires Flipped(lens.above, lens'.above, flip) && Flipped(lens.below, lens'.below, flip)
    ensures |Labellings(effects)| > 0 && PValue(lens', effects) == PValue(lens, effects)
  {
    hide Tau, Labellings, AtLeast, Statistic, Flipped;
    LoopVisits(effects);
    StatisticFlipped(lens, lens', effects, flip);
    AtLeastFlipped(lens, lens', Labellings(effects), Statistic(lens, effects) - EPSILON, flip);
  }

  // --- Validity ---

  // How many labellings would themselves be given at most k extreme labellings.
  function Rejected(lens: Strata, labels: seq<Strata>, some: seq<Strata>, k: nat): nat {
    if |some| == 0 then 0 else
      Rejected(lens, labels, some[..|some| - 1], k)
      + (if AtLeast(lens, labels, Statistic(lens, some[|some| - 1]) - EPSILON) <= k then 1 else 0)
  }

  lemma {:induction false} LowerCutoff(lens: Strata, labels: seq<Strata>, low: real, high: real)
    requires low <= high
    ensures AtLeast(lens, labels, low) >= AtLeast(lens, labels, high)
  {
    if |labels| > 0 {
      LowerCutoff(lens, labels[..|labels| - 1], low, high);
    }
  }

  // If every rejected labelling reaches the cutoff, there are no more of them than labellings that reach it.
  lemma {:induction false} RejectedReach(lens: Strata, labels: seq<Strata>, some: seq<Strata>, k: nat, cutoff: real)
    requires forall l :: l in some && AtLeast(lens, labels, Statistic(lens, l) - EPSILON) <= k ==>
             Statistic(lens, l) >= cutoff
    ensures Rejected(lens, labels, some, k) <= AtLeast(lens, some, cutoff)
  {
    hide Statistic;
    if |some| > 0 {
      RejectedReach(lens, labels, some[..|some| - 1], k, cutoff);
      assert some[|some| - 1] in some;
    }
  }

  // The rejected labelling with the least statistic, if any is rejected.
  lemma {:induction false} LeastRejected(lens: Strata, labels: seq<Strata>, some: seq<Strata>, k: nat)
    returns (least: Option<Strata>)
    ensures least.None? ==> Rejected(lens, labels, some, k) == 0
    ensures least.Some? ==>
              && least.value in some && AtLeast(lens, labels, Statistic(lens, least.value) - EPSILON) <= k
              && forall l :: l in some && AtLeast(lens, labels, Statistic(lens, l) - EPSILON) <= k ==>
                   Statistic(lens, least.value) <= Statistic(lens, l)
  {
    hide Statistic, AtLeast;
    least := None;
    if |some| > 0 {
      var last := some[|some| - 1];
      least := LeastRejected(lens, labels, some[..|some| - 1], k);
      assert forall l :: l in some <==> l in some[..|some| - 1] || l == last;
      if least.None? {
        NoneRejected(lens, labels, some[..|some| - 1], k);
      }
      if AtLeast(lens, labels, Statistic(lens, last) - EPSILON) <= k
         && (least.None? || Statistic(lens, last) <= Statistic(lens, least.value)) {
        least := Some(last);
      }
    }
  }

  lemma {:induction false} NoneRejected(lens: Strata, labels: seq<Strata>, some: seq<Strata>, k: nat)
    requires Rejected(lens, labels, some, k) == 0
    ensures forall l :: l in some ==> AtLeast(lens, labels, Statistic(lens, l) - EPSILON) > k
  {
    hide Statistic, AtLeast;
    if |some| > 0 {
      NoneRejected(lens, labels, some[..|some| - 1], k);
      assert forall l :: l in some <==> l in some[..|some| - 1] || l == some[|some| - 1];
    }
  }

  // The test is valid: of all relabellings at most k would be given a p-value of k out of the number of labellings or
  // less.
  lemma TestIsValid(lens: Strata, effects: Strata, k: nat)
    ensures Rejected(lens, Labellings(effects), Labellings(effects), k) <= k
  {
    hide Labellings, Statistic;
    var labels := Labellings(effects);
    var least := LeastRejected(lens, labels, labels, k);
    if least.Some? {
      var reached := Statistic(lens, least.value);
      RejectedReach(lens, labels, labels, k, reached);
      LowerCutoff(lens, labels, reached - EPSILON, reached);
    }
  }
}
