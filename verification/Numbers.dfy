// Small arithmetic shared by several modules.
module Numbers {

  function Min(a: int, b: int): int {
    if a <= b then a else b
  }

  function Max(a: int, b: int): int {
    if a >= b then a else b
  }

  function MinReal(a: real, b: real): real {
    if a <= b then a else b
  }

  function MaxReal(a: real, b: real): real {
    if a >= b then a else b
  }

  function Abs(x: real): real {
    if x < 0.0 then -x else x
  }

  function Ratio(k: int, n: nat): real
    requires n > 0
  {
    k as real / n as real
  }

  lemma RatiosOrdered(a: int, b: int, n: nat)
    requires n > 0 && a <= b
    ensures Ratio(a, n) <= Ratio(b, n)
  {
  }

  // A share of n, zero when there is nothing to share.
  function Rate(k: nat, n: nat): real {
    if n == 0 then 0.0 else Ratio(k, n)
  }

  // A rate reaches a minimum exactly when the count reaches that share of the total.
  lemma RateReaches(k: nat, n: nat, minimum: real)
    requires n > 0
    ensures Rate(k, n) >= minimum <==> k as real >= minimum * n as real
  {
    var x, d := Rate(k, n), n as real;
    assert x * d == k as real;
    if x >= minimum {
      assert (x - minimum) * d >= 0.0;
    } else {
      assert (minimum - x) * d > 0.0;
    }
  }

  ghost predicate Near(a: int, b: int, slack: nat) {
    b - slack <= a <= b + slack
  }

  // What lies under a whole floor lies under the number itself.
  lemma FloorIff(m: int, x: real, n: int)
    requires m as real <= x < (m + 1) as real
    ensures n <= m <==> n as real <= x
  {
  }
}
