/**
 Exact decimal rounding of the final rating. Python's `round(x, 1)` rounds the
 exact value of `x` to the nearest tenth and breaks ties to the even tenth.
 The mean of eight integer ratings is a multiple of 1/8, which a binary float
 holds exactly, so the float arithmetic of the source can be replaced by
 integers: the final rating is kept as a whole number of tenths.
 */
module Rounding {

  function Abs(x: int): nat {
    if x < 0 then -x else x
  }

  /** `q` is a nearest integer to `n / d`, and the even one when `n / d` lies halfway. */
  predicate NearestEven(n: int, d: int, q: int)
    requires d > 0
  {
    && 2 * Abs(n - q * d) <= d
    && (2 * Abs(n - q * d) == d ==> q % 2 == 0)
  }

  /** `n / d` rounded to an integer, ties to even. */
  function RoundHalfEven(n: int, d: int): (q: int)
    requires d > 0
    ensures NearestEven(n, d, q)
  {
    var k, r := n / d, n % d;
    assert n - k * d == r;
    assert n - (k + 1) * d == r - d;
    if 2 * r < d then k
    else if 2 * r > d then k + 1
    else if k % 2 == 0 then k
    else k + 1
  }

  /** There is only one nearest-even integer, so RoundHalfEven is fully characterised by NearestEven. */
  lemma {:induction false} NearestEvenUnique(n: int, d: int, q: int, q': int)
    requires d > 0
    requires NearestEven(n, d, q) && NearestEven(n, d, q')
    ensures q == q'
  {
    if q < q' {
      NearestAreAdjacentTies(n, d, q, q');
      assert false;
    } else if q' < q {
      NearestAreAdjacentTies(n, d, q', q);
      assert false;
    }
  }

  /** Two distinct integers within half a step of `n / d` are neighbours, and both lie exactly halfway. */
  lemma {:induction false} NearestAreAdjacentTies(n: int, d: int, q: int, q': int)
    requires d > 0 && q < q'
    requires 2 * Abs(n - q * d) <= d && 2 * Abs(n - q' * d) <= d
    ensures q' == q + 1
    ensures 2 * Abs(n - q * d) == d && 2 * Abs(n - q' * d) == d
  {
    var e, e' := n - q * d, n - q' * d;
    DistributeDifference(n, d, q, q');
    assert (q' - q) * d == e - e';
    if q' - q >= 2 {
      AtLeastTwice(q' - q, d);
      assert false;
    }
  }

  lemma DistributeDifference(n: int, d: int, q: int, q': int)
    ensures (q' - q) * d == (n - q * d) - (n - q' * d)
  {
  }

  lemma AtLeastTwice(m: int, d: int)
    requires m >= 2 && d > 0
    ensures m * d >= 2 * d
  {
  }

  /** The number of ratings the final rating averages. */
  const RatingCount: nat := 8

  /** `round(sum / 8, 1)` as a whole number of tenths: the nearest tenth to the mean, ties to even. */
  function FinalTenths(sum: int): (t: int)
    ensures NearestEven(10 * sum, RatingCount, t)
  {
    RoundHalfEven(10 * sum, RatingCount)
  }

  /** The value `round(sum / 8, 1)` takes for every sum the rule table allows, ties included. */
  lemma FinalTenthsTable()
    ensures FinalTenths(20) == 25
    ensures FinalTenths(21) == 26
    ensures FinalTenths(22) == 28
    ensures FinalTenths(23) == 29
    ensures FinalTenths(24) == 30
    ensures FinalTenths(25) == 31
    ensures FinalTenths(26) == 32
    ensures FinalTenths(27) == 34
  {
  }

  /** Sums in [20, 27] give a final rating in [2.5, 3.4]. */
  lemma {:induction false} FinalTenthsRange(sum: int)
    requires 20 <= sum <= 27
    ensures 25 <= FinalTenths(sum) <= 34
  {
    FinalTenthsTable();
  }
}
