// Integer sums over per-district sequences, the building blocks of the
// accumulating `for` loops of epidemic.c.

module Sums {

  /** Sum of all elements, peeled from the end so that a loop running
      upwards extends the prefix sum by one element per step. */
  function Sum(xs: seq<int>): int
  {
    if xs == [] then 0 else Sum(xs[..|xs| - 1]) + xs[|xs| - 1]
  }

  /** Sum of all elements except the one at index `d` (the diagonal skip
      `if (i != district)` of the commuter loops). */
  function SumExcept(xs: seq<int>, d: int): int
  {
    if xs == [] then 0
    else SumExcept(xs[..|xs| - 1], d) + (if |xs| - 1 != d then xs[|xs| - 1] else 0)
  }

  /** Extending a prefix by one element adds that element. */
  lemma SumPrefixStep(xs: seq<int>, i: nat)
    requires i < |xs|
    ensures Sum(xs[..i + 1]) == Sum(xs[..i]) + xs[i]
  {
    assert xs[..i + 1][..i] == xs[..i];
  }

  lemma SumExceptPrefixStep(xs: seq<int>, d: int, i: nat)
    requires i < |xs|
    ensures SumExcept(xs[..i + 1], d) == SumExcept(xs[..i], d) + (if i != d then xs[i] else 0)
  {
    assert xs[..i + 1][..i] == xs[..i];
  }

  /** Overwriting one element changes the sum by the difference. */
  lemma {:induction false} SumUpdate(xs: seq<int>, j: nat, v: int)
    requires j < |xs|
    ensures Sum(xs[j := v]) == Sum(xs) - xs[j] + v
    decreases |xs|
  {
    var k := |xs| - 1;
    var ys := xs[j := v];
    assert ys[..k] == if j == k then xs[..k] else xs[..k][j := v];
    if j < k {
      SumUpdate(xs[..k], j, v);
    }
  }

  /** Skipping index `d` is the full sum minus the element at `d`. */
  lemma {:induction false} SumExceptIsSumMinus(xs: seq<int>, d: int)
    requires 0 <= d < |xs|
    ensures SumExcept(xs, d) == Sum(xs) - xs[d]
    decreases |xs|
  {
    var k := |xs| - 1;
    if d < k {
      SumExceptIsSumMinus(xs[..k], d);
    } else {
      SumExceptOutside(xs[..k], d);
    }
  }

  /** An index beyond the sequence skips nothing. */
  lemma {:induction false} SumExceptOutside(xs: seq<int>, d: int)
    requires d < 0 || |xs| <= d
    ensures SumExcept(xs, d) == Sum(xs)
    decreases |xs|
  {
    if xs != [] {
      SumExceptOutside(xs[..|xs| - 1], d);
    }
  }

  /** Non-negative elements give a non-negative sum. */
  lemma {:induction false} SumExceptNonNegative(xs: seq<int>, d: int)
    requires forall i :: 0 <= i < |xs| ==> 0 <= xs[i]
    ensures 0 <= SumExcept(xs, d)
    decreases |xs|
  {
    if xs != [] {
      SumExceptNonNegative(xs[..|xs| - 1], d);
    }
  }

  /** All elements other than `d` zero gives a zero sum. */
  lemma {:induction false} SumExceptZero(xs: seq<int>, d: int)
    requires forall i :: 0 <= i < |xs| && i != d ==> xs[i] == 0
    ensures SumExcept(xs, d) == 0
    decreases |xs|
  {
    if xs != [] {
      SumExceptZero(xs[..|xs| - 1], d);
    }
  }

  /** Each skipped-in element at most `b` bounds the sum by `b` per element
      other than the skipped one. */
  lemma {:induction false} SumExceptBounded(xs: seq<int>, d: int, b: int)
    requires 0 <= d < |xs|
    requires forall i :: 0 <= i < |xs| ==> xs[i] <= b
    ensures SumExcept(xs, d) <= (|xs| - 1) * b
    decreases |xs|
  {
    var k := |xs| - 1;
    if d < k {
      SumExceptBounded(xs[..k], d, b);
      assert (|xs| - 1) * b == (k - 1) * b + b;
    } else {
      SumBounded(xs[..k], b);
      SumExceptOutside(xs[..k], d);
    }
  }

  /** With non-negative elements a prefix never sums to more than the whole. */
  lemma {:induction false} SumExceptPrefixAtMost(xs: seq<int>, d: int, k: nat)
    requires k <= |xs|
    requires forall i :: 0 <= i < |xs| ==> 0 <= xs[i]
    ensures SumExcept(xs[..k], d) <= SumExcept(xs, d)
    decreases |xs| - k
  {
    if k < |xs| {
      SumExceptPrefixStep(xs, d, k);
      SumExceptPrefixAtMost(xs, d, k + 1);
    } else {
      assert xs[..k] == xs;
    }
  }

  lemma {:induction false} SumBounded(xs: seq<int>, b: int)
    requires forall i :: 0 <= i < |xs| ==> xs[i] <= b
    ensures Sum(xs) <= |xs| * b
    decreases |xs|
  {
    if xs != [] {
      var k := |xs| - 1;
      SumBounded(xs[..k], b);
      assert |xs| * b == k * b + b;
    }
  }

  /** Sum is additive over three pointwise-related sequences. */
  lemma {:induction false} SumOfPointwiseTotal(a: seq<int>, b: seq<int>, c: seq<int>, t: seq<int>)
    requires |a| == |b| == |c| == |t|
    requires forall i :: 0 <= i < |t| ==> a[i] + b[i] + c[i] == t[i]
    ensures Sum(a) + Sum(b) + Sum(c) == Sum(t)
    decreases |t|
  {
    if t != [] {
      var k := |t| - 1;
      SumOfPointwiseTotal(a[..k], b[..k], c[..k], t[..k]);
    }
  }
}
