/** The aggregates the column engine computes for a channel, over reals: sum, minimum, maximum,
    and the fact that the mean lies between the minimum and the maximum. */
module Aggregates {

  function Sum(xs: seq<real>): real
  {
    if xs == [] then 0.0 else xs[0] + Sum(xs[1..])
  }

  function Min(xs: seq<real>): (m: real)
    requires xs != []
    ensures m in xs && forall x :: x in xs ==> m <= x
  {
    if |xs| == 1 then xs[0]
    else
      var rest := Min(xs[1..]);
      assert xs == [xs[0]] + xs[1..];
      if xs[0] <= rest then xs[0] else rest
  }

  function Max(xs: seq<real>): (m: real)
    requires xs != []
    ensures m in xs && forall x :: x in xs ==> x <= m
  {
    if |xs| == 1 then xs[0]
    else
      var rest := Max(xs[1..]);
      assert xs == [xs[0]] + xs[1..];
      if rest <= xs[0] then xs[0] else rest
  }

  /** `v` added up `n` times. */
  function Copies(n: nat, v: real): real
  {
    if n == 0 then 0.0 else v + Copies(n - 1, v)
  }

  lemma {:induction false} CopiesMonotone(n: nat, a: real, b: real)
    requires a <= b
    ensures Copies(n, a) <= Copies(n, b)
  {
    if n > 0 {
      CopiesMonotone(n - 1, a, b);
    }
  }

  lemma {:induction false} CopiesIsProduct(n: nat, v: real)
    ensures Copies(n, v) == (n as real) * v
  {
    if n > 0 {
      CopiesIsProduct(n - 1, v);
      assert (n as real) * v == ((n - 1) as real) * v + v;
    }
  }

  /** Between `n` copies of the minimum and `n` copies of the maximum lies the sum. */
  lemma {:induction false} SumBetween(xs: seq<real>)
    requires xs != []
    ensures Copies(|xs|, Min(xs)) <= Sum(xs) <= Copies(|xs|, Max(xs))
  {
    if |xs| == 1 {
      assert Sum(xs) == xs[0] + Sum([]) by { assert xs[1..] == []; }
    } else {
      var t := xs[1..];
      SumBetween(t);
      assert Min(t) in xs && Max(t) in xs && xs[0] in xs by { assert xs == [xs[0]] + t; }
      CopiesMonotone(|t|, Min(xs), Min(t));
      CopiesMonotone(|t|, Max(t), Max(xs));
    }
  }

  lemma ScaleMonotone(n: real, a: real, b: real)
    requires n >= 0.0 && a <= b
    ensures n * a <= n * b
  {
    assert n * b - n * a == n * (b - a);
  }

  /** The mean of values lies between their minimum and their maximum. */
  lemma MeanBetween(sum: real, n: real, lo: real, hi: real)
    requires n > 0.0 && n * lo <= sum <= n * hi
    ensures lo <= sum / n <= hi && (sum / n) * n == sum
  {
    var mean := sum / n;
    assert mean * n == sum;
    if mean < lo {
      ScaleMonotone(n, mean, lo);
    }
    if hi < mean {
      ScaleMonotone(n, hi, mean);
    }
  }

  lemma CopiesMean(k: nat, lo: real, sum: real, hi: real)
    requires k > 0 && Copies(k, lo) <= sum <= Copies(k, hi)
    ensures lo <= sum / (k as real) <= hi
  {
    CopiesIsProduct(k, lo);
    CopiesIsProduct(k, hi);
    MeanBetween(sum, k as real, lo, hi);
  }

  /** The mean of non-empty values lies between their minimum and their maximum. */
  lemma MeanOfValues(xs: seq<real>)
    requires xs != []
    ensures Min(xs) <= Sum(xs) / (|xs| as real) <= Max(xs)
  {
    SumBetween(xs);
    CopiesMean(|xs|, Min(xs), Sum(xs), Max(xs));
  }
}
