// The reference data of epidemic.c: eight Slovak self-governing regions
// (BA, TT, TN, NR, ZA, BB, PO, KE), their populations, seed infected and
// recovered counts, and the daily commuting matrix.

module Scenario {
  import opened Sums
  import opened CInt
  import opened Flows
  import opened Simulation

  /** The largest value of a 32-bit C `int`. */
  const IntMax := 0x7fff_ffff

  const Commuting: seq<seq<int>> := [
    [0, 43100, 12500, 27300, 13400, 15500, 11600, 10900],
    [8600, 0, 8700, 29100, 3400, 2900, 2500, 3800],
    [3900, 15400, 0, 12700, 10300, 4500, 4500, 3000],
    [3200, 16100, 11000, 0, 3600, 11400, 2000, 7300],
    [3200, 2300, 20800, 5200, 0, 9300, 10000, 6300],
    [5900, 2400, 6300, 10700, 10900, 0, 7000, 9000],
    [2500, 1200, 700, 1700, 9200, 2700, 0, 39100],
    [2800, 1400, 3400, 2400, 4600, 9800, 83400, 0]
  ]

  const Population: seq<int> := [669592, 564917, 584569, 674306, 691509, 645276, 826244, 801460]
  const SeedInfected: seq<int> := [305, 315, 444, 292, 585, 274, 598, 333]
  const SeedRecovered: seq<int> := [346, 357, 504, 332, 664, 311, 678, 379]

  /** The reference matrix is an 8×8 non-negative matrix with an empty
      diagonal, and its flows fit comfortably in a C `int`. */
  lemma CommutingWellFormed(d: nat)
    requires d < DistrictNumber
    ensures IsMatrix(Commuting) && NonNegative(Commuting)
    ensures Commuting[d][d] == 0
    ensures 0 <= Inflow(Commuting, d) <= IntMax && 0 <= Outflow(Commuting, d) <= IntMax
  {
    assert IsMatrix(Commuting);
    FlowsNonNegative(Commuting, d);
    FlowsBounded(Commuting, d, 83400);
  }

  /** Seeding the reference data leaves every susceptible count positive
      and every count below its population, the states on which the
      in-place order of the day loop makes no difference. */
  lemma SeedLeavesSusceptible(st: State)
    requires Seeded(Population, st) && st.I == SeedInfected && st.r == SeedRecovered
    ensures forall i :: 0 <= i < DistrictNumber ==> st.s[i] > 0
    ensures BelowPopulations(Population, st.s, st.I)
  {
    forall i | 0 <= i < DistrictNumber
      ensures 0 < st.s[i] < Population[i]
    {
      assert st.s[i] == Population[i] - SeedInfected[i] - SeedRecovered[i];
    }
  }

  /** For the reference seed every getX is 0, so sumMXBETA is 0 for every
      district: the integer division hides the infected ratios entirely. */
  lemma SeedMixingCollapses(d: nat)
    requires d < DistrictNumber
    ensures PopulatedExcept(Population, d)
    ensures MixingWeight(Commuting, SeedInfected, Population, d) == 0
  {
    assert IsMatrix(Commuting);
    assert forall i :: 0 <= i < DistrictNumber ==> Abs(SeedInfected[i]) < Abs(Population[i]);
    MixingWeightCollapses(Commuting, SeedInfected, Population, d);
  }

  /** Bratislava (BA): 30100 people commute in and 134300 commute out daily. */
  lemma BratislavaFlows()
    ensures IsMatrix(Commuting)
    ensures Inflow(Commuting, 0) == 30100 && Outflow(Commuting, 0) == 134300
  {
    assert IsMatrix(Commuting);
    var col := Column(Commuting, 0);
    assert col == [0, 8600, 3900, 3200, 3200, 5900, 2500, 2800];
    SumExceptIsSumMinus(col, 0);
    SumExceptIsSumMinus(Commuting[0], 0);
    assert Sum(col) == 30100 by { SumOfEight(col); }
    assert Sum(Commuting[0]) == 134300 by { SumOfEight(Commuting[0]); }
  }

  lemma SumOfEight(xs: seq<int>)
    requires |xs| == 8
    ensures Sum(xs) == xs[0] + xs[1] + xs[2] + xs[3] + xs[4] + xs[5] + xs[6] + xs[7]
  {
    SumPrefixStep(xs, 0);
    SumPrefixStep(xs, 1);
    SumPrefixStep(xs, 2);
    SumPrefixStep(xs, 3);
    SumPrefixStep(xs, 4);
    SumPrefixStep(xs, 5);
    SumPrefixStep(xs, 6);
    SumPrefixStep(xs, 7);
    assert xs[..8] == xs;
    assert xs[..0] == [];
  }
}
