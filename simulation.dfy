// The driver of epidemic.c (`main`): seeding the susceptible counts, the
// daily totals, and the per-day loop that overwrites the global arrays
// s, I and r district by district, in place.
//
// The update formulas suspectNumber, infectionNumber and the recovery
// increment `r[j] += GAMMA * I[j]` are floating-point arithmetic; they are
// carried as uninterpreted function values in `Formulas`.

module Simulation {
  import opened Sums
  import opened CInt
  import opened Flows

  /** The three per-district update formulas, given the current state.
      suspectNumber(d) and infectionNumber(d) read the susceptible and
      infected counts of all districts (through sumMXBETA and sumInfectOut)
      and the static populations and commuting matrix, which the function
      values capture; neither reads the recovered counts. The recovery
      step maps the old `r[d]` and `I[d]` to the new `r[d]`. */
  datatype Formulas = Formulas(
    suspect: (seq<int>, seq<int>, int) -> int,
    infection: (seq<int>, seq<int>, int) -> int,
    recover: (int, int) -> int)

  /** The global arrays: susceptible `s`, infected `I`, recovered `r`. */
  datatype State = State(s: seq<int>, I: seq<int>, r: seq<int>)

  predicate Valid(st: State)
  {
    |st.s| == DistrictNumber && |st.I| == DistrictNumber && |st.r| == DistrictNumber
  }

  function Current(s: array<int>, I: array<int>, r: array<int>): State
    reads s, I, r
  {
    State(s[..], I[..], r[..])
  }

  /** New cases reported for day 0, before any update (`int newCases = 56`). */
  const FirstDayNewCases := 56

  /** Seeding identity of the initialisation loop: s[i] + I[i] + r[i] == n[i]. */
  predicate Seeded(n: seq<int>, st: State)
  {
    Valid(st) && |n| == DistrictNumber &&
    forall i :: 0 <= i < DistrictNumber ==> st.s[i] + st.I[i] + st.r[i] == n[i]
  }

  /** One iteration of the update loop for district `j`: newS and the new
      I[j] are both computed from the state before s[j] and I[j] change,
      and the recovery step uses the old I[j]. */
  function UpdateDistrict(f: Formulas, st: State, j: nat): (next: State)
    requires Valid(st) && j < DistrictNumber
    ensures Valid(next)
    ensures forall i :: 0 <= i < DistrictNumber && i != j ==>
      next.s[i] == st.s[i] && next.I[i] == st.I[i] && next.r[i] == st.r[i]
  {
    State(st.s[j := f.suspect(st.s, st.I, j)],
          st.I[j := f.infection(st.s, st.I, j)],
          st.r[j := f.recover(st.r[j], st.I[j])])
  }

  /** The state after the loop has handled districts 0 .. k-1 in order,
      each one seeing the districts before it already overwritten. */
  function Sweep(f: Formulas, st: State, k: nat): (after: State)
    requires Valid(st) && k <= DistrictNumber
    ensures Valid(after)
  {
    if k == 0 then st else UpdateDistrict(f, Sweep(f, st, k - 1), k - 1)
  }

  /** One simulated day. */
  function NextDay(f: Formulas, st: State): (next: State)
    requires Valid(st)
    ensures Valid(next)
  {
    Sweep(f, st, DistrictNumber)
  }

  /** The state after `d` simulated days. */
  function Days(f: Formulas, st: State, d: nat): (after: State)
    requires Valid(st)
    ensures Valid(after)
  {
    if d == 0 then st else NextDay(f, Days(f, st, d - 1))
  }

  /** The running value of `newCases` after the loop has handled districts
      0 .. k-1: each district subtracts its old and adds its new infected
      count. The counter telescopes to the change in total infected over
      the districts handled so far. */
  function Increments(f: Formulas, st: State, k: nat): (c: int)
    requires Valid(st) && k <= DistrictNumber
    ensures c == Sum(Sweep(f, st, k).I) - Sum(st.I)
  {
    if k == 0 then 0
    else
      var before := Sweep(f, st, k - 1);
      SweepFrame(f, st, k - 1, k - 1);
      SumUpdate(before.I, k - 1, f.infection(before.s, before.I, k - 1));
      Increments(f, st, k - 1) + (Sweep(f, st, k).I[k - 1] - st.I[k - 1])
  }

  /** The simultaneous update: every district computed from the same
      start-of-day state, as if the new values went to a scratch copy. */
  function Snapshot(f: Formulas, st: State): (next: State)
    requires Valid(st)
    ensures Valid(next)
  {
    State(seq(DistrictNumber, d => f.suspect(st.s, st.I, d)),
          seq(DistrictNumber, d => f.infection(st.s, st.I, d)),
          seq(DistrictNumber, d requires 0 <= d < DistrictNumber => f.recover(st.r[d], st.I[d])))
  }

  /** Formulas whose values for district `d` depend only on `s[d]`, `I[d]`
      and `d`: the shape suspectNumber and infectionNumber take with an
      all-zero commuting matrix, where sumMlj, sumMjl, sumMXBETA and
      sumInfectOut all vanish. */
  function LocalFormulas(suspect: (int, int, int) -> int, infection: (int, int, int) -> int,
                         recover: (int, int) -> int): Formulas
  {
    Formulas((s, I, d) => if 0 <= d < |s| && d < |I| then suspect(s[d], I[d], d) else 0,
             (s, I, d) => if 0 <= d < |s| && d < |I| then infection(s[d], I[d], d) else 0,
             recover)
  }

  /** Totals printed on the DAY line. */
  datatype Report = Report(infected: int, healthy: int, cured: int, newCases: int)

  /** The line printed for day `d`, starting from `st`: that day's totals,
      and after day 0 the new cases are the growth of the printed infected
      total since the day before, which is the value the previous day's
      update loop left in its running counter. */
  function ReportOf(f: Formulas, st: State, d: nat): (rep: Report)
    requires Valid(st)
    ensures d > 0 ==> rep.newCases == Increments(f, Days(f, st, d - 1), DistrictNumber)
  {
    var today := Days(f, st, d);
    Report(Sum(today.I), Sum(today.s), Sum(today.r),
           if d == 0 then FirstDayNewCases else Sum(today.I) - Sum(Days(f, st, d - 1).I))
  }

  // ---------------------------------------------------------------------
  // Properties of the in-place sweep

  /** Districts the loop has not reached yet still hold the previous day's values. */
  lemma {:induction false} SweepFrame(f: Formulas, st: State, k: nat, i: nat)
    requires Valid(st) && k <= i < DistrictNumber
    ensures Sweep(f, st, k).s[i] == st.s[i]
    ensures Sweep(f, st, k).I[i] == st.I[i]
    ensures Sweep(f, st, k).r[i] == st.r[i]
  {
    if k > 0 {
      SweepFrame(f, st, k - 1, i);
    }
  }

  /** Once district j is handled, it holds the formulas' values on the state
      the loop saw at j: districts before j new, j and after old. Later
      iterations leave it alone. */
  lemma {:induction false} SweepDone(f: Formulas, st: State, k: nat, j: nat)
    requires Valid(st) && j < k <= DistrictNumber
    ensures var seen := Sweep(f, st, j);
      && Sweep(f, st, k).s[j] == f.suspect(seen.s, seen.I, j)
      && Sweep(f, st, k).I[j] == f.infection(seen.s, seen.I, j)
      && Sweep(f, st, k).r[j] == f.recover(st.r[j], st.I[j])
  {
    if k - 1 == j {
      SweepFrame(f, st, j, j);
    } else {
      SweepDone(f, st, k - 1, j);
    }
  }

  /** When the formulas are district-local, the in-place sweep computes the
      same day as a snapshot update. */
  lemma SweepIsSnapshotWhenLocal(suspect: (int, int, int) -> int, infection: (int, int, int) -> int,
                                 recover: (int, int) -> int, st: State)
    requires Valid(st)
    ensures var f := LocalFormulas(suspect, infection, recover);
      NextDay(f, st) == Snapshot(f, st)
  {
    var f := LocalFormulas(suspect, infection, recover);
    var next, snap := NextDay(f, st), Snapshot(f, st);
    forall j | 0 <= j < DistrictNumber
      ensures next.s[j] == snap.s[j] && next.I[j] == snap.I[j] && next.r[j] == snap.r[j]
    {
      SweepDone(f, st, DistrictNumber, j);
      SweepFrame(f, st, j, j);
    }
    assert next.s == snap.s && next.I == snap.I && next.r == snap.r;
  }

  /** Made-up formulas under which district 1's infected count copies
      district 0's. */
  function CopyFromFirst(): Formulas
  {
    Formulas((s, I, d) => 0,
             (s, I, d) => if d == 0 then 1 else if |I| > 0 then I[0] else 0,
             (r, i) => r)
  }

  function Zeros(): (z: seq<int>)
    ensures |z| == DistrictNumber
  {
    seq(DistrictNumber, _ => 0)
  }

  /** For formulas that read another district, the in-place sweep need not
      be the simultaneous update: with the made-up formulas above and all
      counts zero, district 1 sees district 0's new infected count. */
  lemma SweepDiffersFromSnapshot()
    ensures NextDay(CopyFromFirst(), State(Zeros(), Zeros(), Zeros())).I[1] == 1
    ensures Snapshot(CopyFromFirst(), State(Zeros(), Zeros(), Zeros())).I[1] == 0
  {
    var f, st := CopyFromFirst(), State(Zeros(), Zeros(), Zeros());
    SweepDone(f, st, DistrictNumber, 1);
    SweepDone(f, st, 1, 0);
  }

  // ---------------------------------------------------------------------
  // The in-place order under the integer-division collapse

  predicate Populated(n: seq<int>)
  {
    forall i :: 0 <= i < |n| ==> n[i] != 0
  }

  /** Every infected count is smaller than its district's population in
      magnitude, so getX is 0 in every district. */
  predicate InfectedBelow(n: seq<int>, I: seq<int>)
  {
    |n| == DistrictNumber && |I| == DistrictNumber && Populated(n) &&
    forall i :: 0 <= i < DistrictNumber ==> Abs(I[i]) < Abs(n[i])
  }

  /** Every count is smaller than its district's population in magnitude,
      so getX and getY are 0 in every district. */
  predicate BelowPopulations(n: seq<int>, s: seq<int>, I: seq<int>)
  {
    InfectedBelow(n, I) && |s| == DistrictNumber &&
    forall i :: 0 <= i < DistrictNumber ==> Abs(s[i]) < Abs(n[i])
  }

  /** The arguments on which suspectNumber(d) and infectionNumber(d) are
      defined: the 8×8 matrix, non-zero populations and 8 counts each. */
  predicate CommuterInputs(m: seq<seq<int>>, n: seq<int>, s: seq<int>, I: seq<int>, d: int)
  {
    IsMatrix(m) && |n| == DistrictNumber && Populated(n) &&
    |s| == DistrictNumber && |I| == DistrictNumber && 0 <= d < DistrictNumber
  }

  /** How suspectNumber(d) and infectionNumber(d) see other districts: only
      through the sumMXBETA(d) weight and through sumInfectOut(d) (`away`),
      which enters multiplied by getY(d). `own` combines these with the
      district's own counts, its index and the static data. Two states that
      agree on district d's counts and on those two terms give the same
      value. */
  function CommuterFormula(m: seq<seq<int>>, n: seq<int>, own: (int, int, int, int, int) -> int,
                           away: (seq<int>, seq<int>, int) -> int): (g: (seq<int>, seq<int>, int) -> int)
    ensures forall s1, I1, s2, I2, d {:trigger g(s1, I1, d), g(s2, I2, d)} ::
      && CommuterInputs(m, n, s1, I1, d) && CommuterInputs(m, n, s2, I2, d)
      && s1[d] == s2[d] && I1[d] == I2[d]
      && MixingWeight(m, I1, n, d) == MixingWeight(m, I2, n, d)
      && Ratio(s1, n, d) * away(s1, I1, d) == Ratio(s2, n, d) * away(s2, I2, d)
      ==> g(s1, I1, d) == g(s2, I2, d)
  {
    (s: seq<int>, I: seq<int>, d: int) =>
      if CommuterInputs(m, n, s, I, d)
      then own(s[d], I[d], d, MixingWeight(m, I, n, d), Ratio(s, n, d) * away(s, I, d))
      else 0
  }

  function CommuterFormulas(m: seq<seq<int>>, n: seq<int>,
                            ownS: (int, int, int, int, int) -> int, awayS: (seq<int>, seq<int>, int) -> int,
                            ownI: (int, int, int, int, int) -> int, awayI: (seq<int>, seq<int>, int) -> int,
                            recover: (int, int) -> int): Formulas
  {
    Formulas(CommuterFormula(m, n, ownS, awayS), CommuterFormula(m, n, ownI, awayI), recover)
  }

  /** While every infected count and d's susceptible count are below the
      populations, the commuter terms vanish: the formula of district d sees
      only d's own counts. */
  lemma CommuterFormulaCollapses(m: seq<seq<int>>, n: seq<int>, own: (int, int, int, int, int) -> int,
                                 away: (seq<int>, seq<int>, int) -> int, s: seq<int>, I: seq<int>, d: nat)
    requires IsMatrix(m) && InfectedBelow(n, I) && |s| == DistrictNumber && d < DistrictNumber
    requires Abs(s[d]) < Abs(n[d])
    ensures CommuterFormula(m, n, own, away)(s, I, d) == own(s[d], I[d], d, 0, 0)
  {
    MixingWeightCollapses(m, I, n, d);
    assert Ratio(s, n, d) == 0;
  }

  /** Districts 0 .. k-1 of the sweep hold the simultaneous update's values,
      provided the start-of-day counts and the new infected counts stay below
      the populations. District j reads the new infected counts of the
      districts before it and its own old susceptible count; the new
      susceptible counts it never reads through getY. */
  lemma {:induction false} SweepPrefixUnderCollapse(m: seq<seq<int>>, n: seq<int>,
      ownS: (int, int, int, int, int) -> int, awayS: (seq<int>, seq<int>, int) -> int,
      ownI: (int, int, int, int, int) -> int, awayI: (seq<int>, seq<int>, int) -> int,
      recover: (int, int) -> int, st: State, k: nat)
    requires IsMatrix(m) && Valid(st) && k <= DistrictNumber
    requires var f := CommuterFormulas(m, n, ownS, awayS, ownI, awayI, recover);
      BelowPopulations(n, st.s, st.I) && InfectedBelow(n, Snapshot(f, st).I)
    ensures var f := CommuterFormulas(m, n, ownS, awayS, ownI, awayI, recover);
      forall i :: 0 <= i < k ==>
        && Sweep(f, st, k).s[i] == Snapshot(f, st).s[i]
        && Sweep(f, st, k).I[i] == Snapshot(f, st).I[i]
        && Sweep(f, st, k).r[i] == Snapshot(f, st).r[i]
  {
    var f := CommuterFormulas(m, n, ownS, awayS, ownI, awayI, recover);
    var snap := Snapshot(f, st);
    if k > 0 {
      var j := k - 1;
      SweepPrefixUnderCollapse(m, n, ownS, awayS, ownI, awayI, recover, st, j);
      var seen := Sweep(f, st, j);
      // the loop sees new values before j and old ones from j on
      forall i | 0 <= i < DistrictNumber
        ensures Abs(seen.I[i]) < Abs(n[i])
      {
        if i >= j { SweepFrame(f, st, j, i); }
      }
      assert InfectedBelow(n, seen.I);
      SweepFrame(f, st, j, j);
      CommuterFormulaCollapses(m, n, ownS, awayS, seen.s, seen.I, j);
      CommuterFormulaCollapses(m, n, ownS, awayS, st.s, st.I, j);
      CommuterFormulaCollapses(m, n, ownI, awayI, seen.s, seen.I, j);
      CommuterFormulaCollapses(m, n, ownI, awayI, st.s, st.I, j);
    }
  }

  /** Integer division makes the order irrelevant while every count stays
      below its population: when the start-of-day state is below, as for the
      reference seed, and the day's new infected counts also stay below, the
      in-place sweep computes the same day as the simultaneous update. */
  lemma SweepIsSnapshotUnderCollapse(m: seq<seq<int>>, n: seq<int>,
      ownS: (int, int, int, int, int) -> int, awayS: (seq<int>, seq<int>, int) -> int,
      ownI: (int, int, int, int, int) -> int, awayI: (seq<int>, seq<int>, int) -> int,
      recover: (int, int) -> int, st: State)
    requires IsMatrix(m) && Valid(st)
    requires var f := CommuterFormulas(m, n, ownS, awayS, ownI, awayI, recover);
      BelowPopulations(n, st.s, st.I) && InfectedBelow(n, Snapshot(f, st).I)
    ensures var f := CommuterFormulas(m, n, ownS, awayS, ownI, awayI, recover);
      NextDay(f, st) == Snapshot(f, st)
  {
    var f := CommuterFormulas(m, n, ownS, awayS, ownI, awayI, recover);
    var next, snap := NextDay(f, st), Snapshot(f, st);
    SweepPrefixUnderCollapse(m, n, ownS, awayS, ownI, awayI, recover, st, DistrictNumber);
    assert next.s == snap.s && next.I == snap.I && next.r == snap.r;
  }

  /** The seeding identity fixes the total head count. */
  lemma SeededPopulation(n: seq<int>, st: State)
    requires Seeded(n, st)
    ensures Sum(st.s) + Sum(st.I) + Sum(st.r) == Sum(n)
  {
    SumOfPointwiseTotal(st.s, st.I, st.r, n);
  }

  /** Running a + b days is running b days from the state after a days. */
  lemma {:induction false} DaysCompose(f: Formulas, st: State, a: nat, b: nat)
    requires Valid(st)
    ensures Days(f, st, a + b) == Days(f, Days(f, st, a), b)
    decreases b
  {
    if b > 0 {
      DaysCompose(f, st, a, b - 1);
    }
  }

  // ---------------------------------------------------------------------
  // The loops of main

  /** Initialisation loop: s[i] = n[i] - I[i] - r[i]. Only `s` is written. */
  method InitSusceptible(n: seq<int>, s: array<int>, I: array<int>, r: array<int>)
    requires |n| == DistrictNumber
    requires s.Length == DistrictNumber && I.Length == DistrictNumber && r.Length == DistrictNumber
    requires s != I && s != r
    modifies s
    ensures Seeded(n, Current(s, I, r))
    ensures I[..] == old(I[..]) && r[..] == old(r[..])
  {
    var i := 0;
    while i < DistrictNumber
      invariant 0 <= i <= DistrictNumber
      invariant forall k :: 0 <= k < i ==> s[k] + I[k] + r[k] == n[k]
    {
      s[i] := n[i] - I[i] - r[i];
      i := i + 1;
    }
  }

  /** Daily totals: curretlyInfected, currentlyHealthy and curedCases. */
  method DailyTotals(s: array<int>, I: array<int>, r: array<int>) returns (infected: int, healthy: int, cured: int)
    requires s.Length == DistrictNumber && I.Length == DistrictNumber && r.Length == DistrictNumber
    ensures infected == Sum(I[..]) && healthy == Sum(s[..]) && cured == Sum(r[..])
  {
    infected, healthy, cured := 0, 0, 0;
    var j := 0;
    while j < DistrictNumber
      invariant 0 <= j <= DistrictNumber
      invariant infected == Sum(I[..j]) && healthy == Sum(s[..j]) && cured == Sum(r[..j])
    {
      SumPrefixStep(I[..], j);
      SumPrefixStep(s[..], j);
      SumPrefixStep(r[..], j);
      infected := infected + I[j];
      healthy := healthy + s[j];
      cured := cured + r[j];
      j := j + 1;
    }
    assert I[..j] == I[..] && s[..j] == s[..] && r[..j] == r[..];
  }

  /** One day's update loop, in place, returning the day's new cases. */
  method AdvanceDay(f: Formulas, s: array<int>, I: array<int>, r: array<int>) returns (newCases: int)
    requires s.Length == DistrictNumber && I.Length == DistrictNumber && r.Length == DistrictNumber
    requires s != I && s != r && I != r
    modifies s, I, r
    ensures Current(s, I, r) == NextDay(f, old(Current(s, I, r)))
    ensures newCases == Sum(I[..]) - Sum(old(I[..]))
  {
    ghost var st := Current(s, I, r);
    newCases := 0;
    var j := 0;
    while j < DistrictNumber
      invariant 0 <= j <= DistrictNumber
      invariant Current(s, I, r) == Sweep(f, st, j)
      invariant newCases == Increments(f, st, j)
    {
      SweepFrame(f, st, j, j);
      var newS := f.suspect(s[..], I[..], j);
      newCases := newCases - I[j];
      r[j] := f.recover(r[j], I[j]);
      I[j] := f.infection(s[..], I[..], j);
      s[j] := newS;
      newCases := newCases + I[j];
      j := j + 1;
    }
  }

  /** One iteration of the day loop: print the day's totals and new cases,
      then update every district in place. */
  method ReportAndAdvance(f: Formulas, s: array<int>, I: array<int>, r: array<int>,
                          ghost st: State, ghost day: nat, newCases: int)
    returns (rep: Report, nextNewCases: int)
    requires s.Length == DistrictNumber && I.Length == DistrictNumber && r.Length == DistrictNumber
    requires s != I && s != r && I != r
    requires Valid(st) && Current(s, I, r) == Days(f, st, day)
    requires newCases == if day == 0 then FirstDayNewCases
                         else Sum(Days(f, st, day).I) - Sum(Days(f, st, day - 1).I)
    modifies s, I, r
    ensures rep == ReportOf(f, st, day)
    ensures Current(s, I, r) == Days(f, st, day + 1)
    ensures nextNewCases == Sum(Days(f, st, day + 1).I) - Sum(Days(f, st, day).I)
  {
    var infected, healthy, cured := DailyTotals(s, I, r);
    rep := Report(infected, healthy, cured, newCases);
    nextNewCases := AdvanceDay(f, s, I, r);
  }

  /** The reports of the first `d` days, in order. */
  function Reports(f: Formulas, st: State, d: nat): (reps: seq<Report>)
    requires Valid(st)
    ensures |reps| == d
  {
    if d == 0 then [] else Reports(f, st, d - 1) + [ReportOf(f, st, d - 1)]
  }

  /** Entry `d` of the first `n` reports is the report of day `d`. */
  lemma {:induction false} ReportsAt(f: Formulas, st: State, n: nat)
    requires Valid(st)
    ensures forall d :: 0 <= d < n ==> Reports(f, st, n)[d] == ReportOf(f, st, d)
  {
    if n > 0 {
      ReportsAt(f, st, n - 1);
    }
  }

  /** The day loop of main: report the totals, then advance, `days` times. */
  method Run(f: Formulas, s: array<int>, I: array<int>, r: array<int>, days: nat) returns (reports: seq<Report>)
    requires s.Length == DistrictNumber && I.Length == DistrictNumber && r.Length == DistrictNumber
    requires s != I && s != r && I != r
    modifies s, I, r
    ensures Current(s, I, r) == Days(f, old(Current(s, I, r)), days)
    ensures |reports| == days
    ensures forall d :: 0 <= d < days ==> reports[d] == ReportOf(f, old(Current(s, I, r)), d)
  {
    ghost var st := Current(s, I, r);
    var newCases := FirstDayNewCases;
    reports := [];
    var day := 0;
    while day < days
      invariant 0 <= day <= days
      invariant Current(s, I, r) == Days(f, st, day)
      invariant reports == Reports(f, st, day)
      invariant newCases == if day == 0 then FirstDayNewCases
                            else Sum(Days(f, st, day).I) - Sum(Days(f, st, day - 1).I)
    {
      var rep;
      rep, newCases := ReportAndAdvance(f, s, I, r, st, day, newCases);
      reports := reports + [rep];
      day := day + 1;
    }
    ReportsAt(f, st, days);
  }
}
