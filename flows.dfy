// The ratio helpers and commuter-flow sums of epidemic.c (getX, getY,
// sumMlj, sumMjl, sumMXBETA). The C globals they read are passed in: the
// commuting matrix `m`, the populations `n`, and a snapshot of the infected
// counts `I` or susceptible counts `s`.

module Flows {
  import opened Sums
  import opened CInt

  /** DISTRICT_NUMBER: the eight self-governing regions BA, TT, TN, NR, ZA,
      BB, PO, KE, indexed 0..7. */
  const DistrictNumber := 8

  /** `m[i][j]` people commute from district i to district j every day. */
  predicate IsMatrix(m: seq<seq<int>>)
  {
    |m| == DistrictNumber && forall i :: 0 <= i < |m| ==> |m[i]| == DistrictNumber
  }

  predicate NonNegative(m: seq<seq<int>>)
    requires IsMatrix(m)
  {
    forall i, j :: 0 <= i < DistrictNumber && 0 <= j < DistrictNumber ==> 0 <= m[i][j]
  }

  predicate IsZero(m: seq<seq<int>>)
    requires IsMatrix(m)
  {
    forall i, j :: 0 <= i < DistrictNumber && 0 <= j < DistrictNumber ==> m[i][j] == 0
  }

  /** Column `d`: how many people arrive in `d` from each district. */
  function Column(m: seq<seq<int>>, d: nat): (c: seq<int>)
    requires IsMatrix(m) && d < DistrictNumber
    ensures |c| == DistrictNumber
    ensures forall i :: 0 <= i < DistrictNumber ==> c[i] == m[i][d]
  {
    seq(DistrictNumber, i requires 0 <= i < DistrictNumber => m[i][d])
  }

  /** People commuting into `d` from every other district. */
  function Inflow(m: seq<seq<int>>, d: nat): int
    requires IsMatrix(m) && d < DistrictNumber
  {
    SumExcept(Column(m, d), d)
  }

  /** People commuting out of `d` to every other district. */
  function Outflow(m: seq<seq<int>>, d: nat): int
    requires IsMatrix(m) && d < DistrictNumber
  {
    SumExcept(m[d], d)
  }

  /** getX and getY: a count over the district's population in C integer
      division; getX(d) is `Ratio(I, n, d)` and getY(d) is `Ratio(s, n, d)`.
      The result is the truncated quotient: the remainder is smaller than
      the population in magnitude and has the sign of the count. */
  function Ratio(counts: seq<int>, n: seq<int>, d: nat): (x: int)
    requires d < |counts| && d < |n| && n[d] != 0
    ensures Abs(counts[d] - x * n[d]) < Abs(n[d])
    ensures counts[d] >= 0 ==> counts[d] - x * n[d] >= 0
    ensures counts[d] <= 0 ==> counts[d] - x * n[d] <= 0
    ensures x == 0 <==> Abs(counts[d]) < Abs(n[d])
    ensures counts[d] == n[d] ==> x == 1
  {
    CDivZeroIff(counts[d], n[d]);
    CDiv(counts[d], n[d])
  }

  /** Every district other than `d` has a non-zero population, so getX is
      defined wherever sumMXBETA(d) calls it. */
  predicate PopulatedExcept(n: seq<int>, d: nat)
  {
    forall i :: 0 <= i < |n| && i != d ==> n[i] != 0
  }

  /** The terms `m[d][i] * getX(i)` of sumMXBETA(d), zero on the diagonal. */
  function MixingTerms(m: seq<seq<int>>, I: seq<int>, n: seq<int>, d: nat): (t: seq<int>)
    requires IsMatrix(m) && |I| == |n| == DistrictNumber && d < DistrictNumber
    requires PopulatedExcept(n, d)
    ensures |t| == DistrictNumber
  {
    seq(DistrictNumber, i requires 0 <= i < DistrictNumber =>
      if i == d then 0 else m[d][i] * Ratio(I, n, i))
  }

  /** sumMXBETA(d) before its scaling by BETA: the integer weight
      Σ_{i≠d} m[d][i]·getX(i). */
  function MixingWeight(m: seq<seq<int>>, I: seq<int>, n: seq<int>, d: nat): int
    requires IsMatrix(m) && |I| == |n| == DistrictNumber && d < DistrictNumber
    requires PopulatedExcept(n, d)
  {
    SumExcept(MixingTerms(m, I, n, d), d)
  }

  /** sumMlj: the loop over all districts accumulating column `d`. */
  method SumMlj(m: seq<seq<int>>, d: nat) returns (result: int)
    requires IsMatrix(m) && d < DistrictNumber
    ensures result == Inflow(m, d)
  {
    ghost var col := Column(m, d);
    result := 0;
    var i := 0;
    while i < DistrictNumber
      invariant 0 <= i <= DistrictNumber
      invariant result == SumExcept(col[..i], d)
    {
      SumExceptPrefixStep(col, d, i);
      if i != d {
        result := result + m[i][d];
      }
      i := i + 1;
    }
    assert col[..i] == col;
  }

  /** sumMjl: the loop over all districts accumulating row `d`. */
  method SumMjl(m: seq<seq<int>>, d: nat) returns (result: int)
    requires IsMatrix(m) && d < DistrictNumber
    ensures result == Outflow(m, d)
  {
    result := 0;
    var i := 0;
    while i < DistrictNumber
      invariant 0 <= i <= DistrictNumber
      invariant result == SumExcept(m[d][..i], d)
    {
      SumExceptPrefixStep(m[d], d, i);
      if i != d {
        result := result + m[d][i];
      }
      i := i + 1;
    }
    assert m[d][..i] == m[d];
  }

  /** sumMXBETA: the loop accumulating `m[d][i] * getX(i)`. */
  method SumMXBeta(m: seq<seq<int>>, I: seq<int>, n: seq<int>, d: nat) returns (result: int)
    requires IsMatrix(m) && |I| == |n| == DistrictNumber && d < DistrictNumber
    requires PopulatedExcept(n, d)
    ensures result == MixingWeight(m, I, n, d)
  {
    ghost var terms := MixingTerms(m, I, n, d);
    result := 0;
    var i := 0;
    while i < DistrictNumber
      invariant 0 <= i <= DistrictNumber
      invariant result == SumExcept(terms[..i], d)
    {
      SumExceptPrefixStep(terms, d, i);
      if i != d {
        result := result + m[d][i] * Ratio(I, n, i);
      }
      i := i + 1;
    }
    assert terms[..i] == terms;
  }

  /** The inflow is the whole column minus its diagonal entry. */
  lemma InflowIsColumnSum(m: seq<seq<int>>, d: nat)
    requires IsMatrix(m) && d < DistrictNumber
    ensures Inflow(m, d) == Sum(Column(m, d)) - m[d][d]
  {
    SumExceptIsSumMinus(Column(m, d), d);
  }

  /** The outflow is the whole row minus its diagonal entry. */
  lemma OutflowIsRowSum(m: seq<seq<int>>, d: nat)
    requires IsMatrix(m) && d < DistrictNumber
    ensures Outflow(m, d) == Sum(m[d]) - m[d][d]
  {
    SumExceptIsSumMinus(m[d], d);
  }

  /** A non-negative matrix gives non-negative flows. */
  lemma FlowsNonNegative(m: seq<seq<int>>, d: nat)
    requires IsMatrix(m) && NonNegative(m) && d < DistrictNumber
    ensures 0 <= Inflow(m, d) && 0 <= Outflow(m, d)
  {
    SumExceptNonNegative(Column(m, d), d);
    SumExceptNonNegative(m[d], d);
  }

  /** With nobody commuting, no district has inflow, outflow or mixing weight. */
  lemma ZeroMatrixNoFlow(m: seq<seq<int>>, I: seq<int>, n: seq<int>, d: nat)
    requires IsMatrix(m) && IsZero(m) && d < DistrictNumber
    requires |I| == |n| == DistrictNumber && PopulatedExcept(n, d)
    ensures Inflow(m, d) == 0 && Outflow(m, d) == 0 && MixingWeight(m, I, n, d) == 0
  {
    SumExceptZero(Column(m, d), d);
    SumExceptZero(m[d], d);
    SumExceptZero(MixingTerms(m, I, n, d), d);
  }

  /** Entries in [0, b] keep every value the accumulators of sumMlj and
      sumMjl take (the partial sums over the first k districts) within
      [0, 7·b]: with b = INT_MAX / 7 the C `int` accumulators cannot overflow. */
  lemma FlowsBounded(m: seq<seq<int>>, d: nat, b: int)
    requires IsMatrix(m) && NonNegative(m) && d < DistrictNumber
    requires forall i, j :: 0 <= i < DistrictNumber && 0 <= j < DistrictNumber ==> m[i][j] <= b
    ensures forall k :: 0 <= k <= DistrictNumber ==>
      0 <= SumExcept(Column(m, d)[..k], d) <= (DistrictNumber - 1) * b
    ensures forall k :: 0 <= k <= DistrictNumber ==>
      0 <= SumExcept(m[d][..k], d) <= (DistrictNumber - 1) * b
  {
    var col := Column(m, d);
    SumExceptBounded(col, d, b);
    SumExceptBounded(m[d], d, b);
    forall k | 0 <= k <= DistrictNumber
      ensures 0 <= SumExcept(col[..k], d) <= SumExcept(col, d)
      ensures 0 <= SumExcept(m[d][..k], d) <= SumExcept(m[d], d)
    {
      SumExceptNonNegative(col[..k], d);
      SumExceptPrefixAtMost(col, d, k);
      SumExceptNonNegative(m[d][..k], d);
      SumExceptPrefixAtMost(m[d], d, k);
    }
  }

  /** Integer-division collapse: when every other district has fewer infected
      than inhabitants, every getX(i) is 0 and so is sumMXBETA(d). */
  lemma MixingWeightCollapses(m: seq<seq<int>>, I: seq<int>, n: seq<int>, d: nat)
    requires IsMatrix(m) && |I| == |n| == DistrictNumber && d < DistrictNumber
    requires PopulatedExcept(n, d)
    requires forall i :: 0 <= i < DistrictNumber && i != d ==> Abs(I[i]) < Abs(n[i])
    ensures MixingWeight(m, I, n, d) == 0
  {
    var t := MixingTerms(m, I, n, d);
    forall i | 0 <= i < DistrictNumber && i != d
      ensures t[i] == 0
    {
      assert Ratio(I, n, i) == 0;
    }
    SumExceptZero(t, d);
  }
}
