// Finite sums over sequences, and the counting facts the allocation and gate proofs share.
module Sums {

  function Sum<T>(xs: seq<T>, w: T -> int): int {
    if |xs| == 0 then 0 else Sum(xs[..|xs| - 1], w) + w(xs[|xs| - 1])
  }

  // One where b holds and zero elsewhere.
  function Ind(b: bool): nat {
    if b then 1 else 0
  }

  // w where p holds and zero elsewhere.
  ghost function Only<T>(p: T -> bool, w: T -> int): T -> int {
    (x: T) => if p(x) then w(x) else 0
  }

  ghost function Ones<T>(p: T -> bool): T -> int {
    (x: T) => Ind(p(x))
  }

  ghost function Member<T>(xs: seq<T>): T -> bool {
    (x: T) => x in xs
  }

  ghost function Count<T>(xs: seq<T>, p: T -> bool): int {
    Sum(xs, Ones(p))
  }

  // The sums of the rows and of the columns of a table.
  ghost function RowSum<S, T>(ys: seq<T>, w: (S, T) -> int): S -> int {
    (x: S) => Sum(ys, Row(w, x))
  }

  ghost function Row<S, T>(w: (S, T) -> int, x: S): T -> int {
    (y: T) => w(x, y)
  }

  ghost function ColumnSum<S, T>(xs: seq<S>, w: (S, T) -> int): T -> int {
    (y: T) => Sum(xs, Column(w, y))
  }

  ghost function Column<S, T>(w: (S, T) -> int, y: T): S -> int {
    (x: S) => w(x, y)
  }

  predicate Distinct<T(==)>(xs: seq<T>) {
    forall i, j :: 0 <= i < j < |xs| ==> xs[i] != xs[j]
  }

  lemma {:induction false} SumAppend<T>(xs: seq<T>, ys: seq<T>, w: T -> int)
    ensures Sum(xs + ys, w) == Sum(xs, w) + Sum(ys, w)
    decreases |ys|
  {
    if |ys| == 0 {
      assert xs + ys == xs;
    } else {
      var last := |ys| - 1;
      assert (xs + ys)[..|xs + ys| - 1] == xs + ys[..last];
      SumAppend(xs, ys[..last], w);
    }
  }

  lemma {:induction false} SumExt<T>(xs: seq<T>, v: T -> int, w: T -> int)
    requires forall x :: x in xs ==> v(x) == w(x)
    ensures Sum(xs, v) == Sum(xs, w)
  {
    if |xs| > 0 {
      SumExt(xs[..|xs| - 1], v, w);
    }
  }

  lemma {:induction false} SumLe<T>(xs: seq<T>, v: T -> int, w: T -> int)
    requires forall x :: x in xs ==> v(x) <= w(x)
    ensures Sum(xs, v) <= Sum(xs, w)
  {
    if |xs| > 0 {
      SumLe(xs[..|xs| - 1], v, w);
    }
  }

  lemma {:induction false} SumZero<T>(xs: seq<T>, w: T -> int)
    requires forall x :: x in xs ==> w(x) == 0
    ensures Sum(xs, w) == 0
  {
    if |xs| > 0 {
      SumZero(xs[..|xs| - 1], w);
    }
  }

  lemma {:induction false} SumAdd<T>(xs: seq<T>, u: T -> int, v: T -> int, w: T -> int)
    requires forall x :: x in xs ==> w(x) == u(x) + v(x)
    ensures Sum(xs, w) == Sum(xs, u) + Sum(xs, v)
  {
    if |xs| > 0 {
      SumAdd(xs[..|xs| - 1], u, v, w);
    }
  }

  lemma {:induction false} SumScale<T>(xs: seq<T>, a: int, v: T -> int, w: T -> int)
    requires forall x :: x in xs ==> w(x) == a * v(x)
    ensures Sum(xs, w) == a * Sum(xs, v)
  {
    if |xs| > 0 {
      var last := |xs| - 1;
      SumScale(xs[..last], a, v, w);
      assert xs[last] in xs;
      assert a * Sum(xs, v) == a * Sum(xs[..last], v) + a * v(xs[last]);
    }
  }

  // Summation order can be exchanged.
  lemma {:induction false} SumSwap<S, T>(xs: seq<S>, ys: seq<T>, w: (S, T) -> int)
    ensures Sum(xs, RowSum(ys, w)) == Sum(ys, ColumnSum(xs, w))
  {
    if |xs| == 0 {
      SumZero(ys, ColumnSum(xs, w));
    } else {
      var front, last := xs[..|xs| - 1], xs[|xs| - 1];
      SumSwap(front, ys, w);
      SumAdd(ys, ColumnSum(front, w), Row(w, last), ColumnSum(xs, w));
    }
  }

  // In a sequence without repetitions, a value that occurs is counted exactly once.
  lemma {:induction false} SumPoint<T(!new)>(xs: seq<T>, x: T, w: T -> int)
    requires Distinct(xs)
    requires forall y :: y in xs && y != x ==> w(y) == 0
    ensures Sum(xs, w) == if x in xs then w(x) else 0
  {
    if |xs| > 0 {
      var front, last := xs[..|xs| - 1], xs[|xs| - 1];
      assert xs == front + [last];
      SumPoint(front, x, w);
      if last == x {
        assert x !in front;
      }
    }
  }

  // Two repetition-free sequences agree on a sum over their common elements.
  lemma SumCommon<T(!new)>(xs: seq<T>, ys: seq<T>, w: T -> int)
    requires Distinct(xs) && Distinct(ys)
    ensures Sum(xs, Only(Member(ys), w)) == Sum(ys, Only(Member(xs), w))
  {
    var pair := (x: T, y: T) => if x == y then w(x) else 0;
    SumSwap(xs, ys, pair);
    forall x | x in xs
      ensures RowSum(ys, pair)(x) == Only(Member(ys), w)(x)
    {
      SumPoint(ys, x, Row(pair, x));
    }
    forall y | y in ys
      ensures ColumnSum(xs, pair)(y) == Only(Member(xs), w)(y)
    {
      SumPoint(xs, y, Column(pair, y));
    }
    SumExt(xs, RowSum(ys, pair), Only(Member(ys), w));
    SumExt(ys, ColumnSum(xs, pair), Only(Member(xs), w));
  }

  // A sum does not depend on the order of its terms.
  lemma {:induction false} SumPermutation<T>(xs: seq<T>, ys: seq<T>, w: T -> int)
    requires multiset(xs) == multiset(ys)
    ensures Sum(xs, w) == Sum(ys, w)
  {
    if |xs| == 0 {
      assert |multiset(ys)| == 0;
    } else {
      var front, last := xs[..|xs| - 1], xs[|xs| - 1];
      assert xs == front + [last];
      assert last in multiset(ys);
      var i :| 0 <= i < |ys| && ys[i] == last;
      var rest := ys[..i] + ys[i + 1..];
      assert ys == ys[..i] + [last] + ys[i + 1..];
      assert multiset(xs) == multiset(front) + multiset{last};
      assert multiset(rest) == multiset(ys[..i]) + multiset(ys[i + 1..]);
      assert multiset(ys) == multiset(ys[..i]) + multiset{last} + multiset(ys[i + 1..]);
      assert multiset(front) == multiset(xs) - multiset{last};
      assert multiset(rest) == multiset(ys) - multiset{last};
      SumPermutation(front, rest, w);
      SumAppend(ys[..i], ys[i + 1..], w);
      SumAppend(ys[..i] + [last], ys[i + 1..], w);
      SumAppend(ys[..i], [last], w);
      assert Sum([last], w) == w(last);
    }
  }

  lemma SumUpdate<T>(xs: seq<T>, i: nat, y: T, w: T -> int)
    requires i < |xs|
    ensures Sum(xs[i := y], w) == Sum(xs, w) - w(xs[i]) + w(y)
  {
    assert xs == xs[..i] + [xs[i]] + xs[i + 1..];
    assert xs[i := y] == xs[..i] + [y] + xs[i + 1..];
    SumAppend(xs[..i] + [xs[i]], xs[i + 1..], w);
    SumAppend(xs[..i] + [y], xs[i + 1..], w);
    assert (xs[..i] + [xs[i]])[..i] == xs[..i] == (xs[..i] + [y])[..i];
  }

  // Pigeonhole: more than n numbers below n repeat.
  lemma {:induction false} Pigeonhole(s: seq<nat>, n: nat) returns (i: nat, j: nat)
    requires forall k :: 0 <= k < |s| ==> s[k] < n
    requires |s| > n
    ensures i < j < |s| && s[i] == s[j]
    decreases n
  {
    var last := |s| - 1;
    if k :| 0 <= k < last && s[k] == s[last] {
      i, j := k, last;
    } else {
      // Rename n - 1 to the last value, which no earlier position holds.
      var t := seq(last, k requires 0 <= k < last => if s[k] == n - 1 then s[last] else s[k]);
      i, j := Pigeonhole(t, n - 1);
    }
  }

  // --- Numbers of positions and of pairs of positions ---

  // Where p holds.
  ghost function Positions<T>(xs: seq<T>, p: T -> bool): (positions: set<int>)
    ensures forall i :: i in positions <==> 0 <= i < |xs| && p(xs[i])
  {
    set i | 0 <= i < |xs| && p(xs[i])
  }

  // Where q holds of an earlier and a later position.
  ghost function PairPositions<T>(xs: seq<T>, q: (T, T) -> bool): (pairs: set<(int, int)>)
    ensures forall x :: x in pairs <==> 0 <= x.0 < x.1 < |xs| && q(xs[x.0], xs[x.1])
  {
    var pairs := set i, j | 0 <= i < j < |xs| && q(xs[i], xs[j]) :: (i, j);
    assert forall x: (int, int) :: x == (x.0, x.1);
    pairs
  }

  ghost function Number<T>(xs: seq<T>, p: T -> bool): nat {
    |Positions(xs, p)|
  }

  ghost function PairNumber<T>(xs: seq<T>, q: (T, T) -> bool): nat {
    |PairPositions(xs, q)|
  }

  lemma NumberIs<T>(xs: seq<T>, p: T -> bool, positions: set<int>)
    requires forall i :: i in positions <==> 0 <= i < |xs| && p(xs[i])
    ensures Number(xs, p) == |positions|
  {
    assert positions == Positions(xs, p);
  }

  lemma NumberLast<T>(xs: seq<T>, p: T -> bool)
    requires |xs| > 0
    ensures Number(xs, p) == Number(xs[..|xs| - 1], p) + Ind(p(xs[|xs| - 1]))
  {
    var before := Positions(xs[..|xs| - 1], p);
    NumberIs(xs, p, if p(xs[|xs| - 1]) then before + {|xs| - 1} else before);
  }

  lemma NumberPositive<T>(xs: seq<T>, p: T -> bool)
    ensures Number(xs, p) > 0 <==> exists i :: 0 <= i < |xs| && p(xs[i])
  {
    if i :| 0 <= i < |xs| && p(xs[i]) {
      assert i in Positions(xs, p);
    } else {
      NumberIs(xs, p, {});
    }
  }

  lemma {:induction false} CountIsNumber<T>(xs: seq<T>, p: T -> bool)
    ensures Count(xs, p) == Number(xs, p)
  {
    if |xs| == 0 {
      NumberIs(xs, p, {});
    } else {
      CountIsNumber(xs[..|xs| - 1], p);
      NumberLast(xs, p);
    }
  }

  lemma PairNumberSame<T>(xs: seq<T>, ys: seq<T>, q: (T, T) -> bool)
    requires |xs| == |ys| && forall i, j :: 0 <= i < j < |xs| ==> q(xs[i], xs[j]) == q(ys[i], ys[j])
    ensures PairNumber(xs, q) == PairNumber(ys, q)
  {
    assert PairPositions(xs, q) == PairPositions(ys, q);
  }

  // Pairing every member of a set with the same later partner keeps its size.
  ghost function WithPartner(a: set<int>, j: int): (pairs: set<(int, int)>)
    ensures forall i, k :: (i, k) in pairs <==> i in a && k == j
  {
    set i | i in a :: (i, j)
  }

  lemma {:induction false} WithPartnerSize(a: set<int>, j: int)
    ensures |WithPartner(a, j)| == |a|
  {
    if forall x :: x !in a {
      assert a == {} && WithPartner(a, j) == {};
    } else {
      var x :| x in a;
      WithPartnerSize(a - {x}, j);
      forall y: (int, int)
        ensures y in WithPartner(a, j) <==> y in WithPartner(a - {x}, j) + {(x, j)}
      {
        assert y == (y.0, y.1);
      }
      assert WithPartner(a, j) == WithPartner(a - {x}, j) + {(x, j)};
    }
  }

  // The same with an earlier partner.
  ghost function AfterPartner(i: int, a: set<int>): (pairs: set<(int, int)>)
    ensures forall k, j :: (k, j) in pairs <==> k == i && j in a
  {
    set j | j in a :: (i, j)
  }

  lemma {:induction false} AfterPartnerSize(i: int, a: set<int>)
    ensures |AfterPartner(i, a)| == |a|
  {
    if forall x :: x !in a {
      assert a == {} && AfterPartner(i, a) == {};
    } else {
      var x :| x in a;
      AfterPartnerSize(i, a - {x});
      forall y: (int, int)
        ensures y in AfterPartner(i, a) <==> y in AfterPartner(i, a - {x}) + {(i, x)}
      {
        assert y == (y.0, y.1);
      }
      assert AfterPartner(i, a) == AfterPartner(i, a - {x}) + {(i, x)};
    }
  }

  lemma PairNumberLast<T>(xs: seq<T>, q: (T, T) -> bool, p: T -> bool)
    requires |xs| > 0 && forall i :: 0 <= i < |xs| - 1 ==> p(xs[i]) == q(xs[i], xs[|xs| - 1])
    ensures PairNumber(xs, q) == PairNumber(xs[..|xs| - 1], q) + Number(xs[..|xs| - 1], p)
  {
    var front, n := xs[..|xs| - 1], |xs| - 1;
    var before, ends := PairPositions(front, q), WithPartner(Positions(front, p), n);
    WithPartnerSize(Positions(front, p), n);
    forall x: (int, int)
      ensures x in PairPositions(xs, q) <==> x in before || x in ends
    {
      hide PairPositions, WithPartner, Positions;
      assert x == (x.0, x.1);
    }
    assert PairPositions(xs, q) == before + ends;
    assert before !! ends;
  }
}
