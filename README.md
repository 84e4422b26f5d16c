# Regional epidemic simulation: the integer bookkeeping of `epidemic.c`

`epidemic.c` simulates an epidemic day by day across eight Slovak regions
(BA, TT, TN, NR, ZA, BB, PO, KE). Each region has three compartments:
susceptible `s`, infected `I` and recovered `r`. A static matrix `m` counts
the people who commute from one region to another every day. The program
keeps its state in global `int` arrays. It seeds `s` from the populations
`n`, then on each day it prints totals and overwrites `s`, `I` and `r`
region by region.

This Dafny project models the exact integer layer of that program:

- `CInt` (cint.dfy): C's `int / int`, which truncates toward zero.
- `Sums` (sums.dfy): the prefix sums that the accumulating `for` loops build.
- `Flows` (flows.dfy): the ratio helpers `getX` and `getY`, and the
  commuter sums `sumMlj` (inflow), `sumMjl` (outflow) and `sumMXBETA`. Each
  loop is a method proved equal to a sum function. Lemmas cover the column
  and row sums, signs, bounds, the all-zero matrix, and the collapse of
  `sumMXBETA` to 0 under integer division.
- `Simulation` (simulation.dfy): the loops of `main` over the arrays `s`, `I`
  and `r`. These are the seeding loop, the daily totals and the per-day
  in-place update, which carries its telescoping `newCases` counter. It also
  covers the day driver. The floating-point formulas `suspectNumber`,
  `infectionNumber` and the recovery increment are fields of `Formulas`,
  which holds uninterpreted function values. The proofs of the loop
  structure therefore hold for any formulas.
- `Scenario` (scenario.dfy): the reference data, and facts about that data.

The day loop updates the arrays in place. While it handles region `j`,
regions before `j` already hold their new values. A simultaneous update
would instead compute every region from the same start-of-day state, as if
the new values went to a scratch copy. The model follows the code (`Sweep`)
and relates it to the simultaneous update (`Snapshot`):

- `SweepIsSnapshotWhenLocal`: the two agree whenever each region's formulas
  depend only on that region's own counts, as with an all-zero commuting
  matrix.
- `SweepIsSnapshotUnderCollapse`: the two also agree for the real shape of
  `suspectNumber` and `infectionNumber` (`CommuterFormula`), provided the
  start-of-day counts and the day's new infected counts stay below their
  populations in magnitude. Those formulas reach other
  regions only through the `sumMXBETA(d)` weight, whose terms carry
  `getX(i)`, and through `sumInfectOut(d)`, which is multiplied by `getY(d)`.
  Integer division makes both factors 0 on such states, so the formulas are
  region-local there. The reference seed is such a start-of-day state
  (`SeedLeavesSusceptible`). Whether the new counts stay below depends on
  the floating-point formulas, which the model leaves uninterpreted.
- `SweepDiffersFromSnapshot`: with made-up formulas that copy region 0's
  infected count into region 1, the two differ. For the real formulas, a
  difference can only show once some `|I[i]| >= n[i]` or `|s[d]| >= n[d]`.

The ratio helpers use integer division. `getX` returns `I[d] / n[d]` and
`getY` returns `s[d] / n[d]`, both computed on `int`s. The result is 0
whenever a count is smaller in magnitude than its population. For the
reference seed this makes `sumMXBETA` exactly 0 in every region
(`SeedMixingCollapses`).

## Model

| member | source | states |
|---|---|---|
| `CInt.CDiv` | epidemic.c:65 | C `int` division: the remainder `a - q*b` is smaller than `b` in magnitude and never has the opposite sign of `a` |
| `CInt.CDivNegate` | epidemic.c:65 | truncation is symmetric: negating the dividend or the divisor negates the quotient |
| `CInt.CDivZeroIff` | epidemic.c:65 | the quotient is 0 if and only if the dividend is smaller than the divisor in magnitude |
| `Flows.Ratio` | epidemic.c:64-75 | `getX(d)` (on `I`) and `getY(d)` (on `s`) are the truncated quotient of the count by `n[d]`. The remainder is smaller than `n[d]` in magnitude and has the sign of the count. The quotient is 0 iff the count is smaller than `n[d]` in magnitude, and 1 when the count equals `n[d]` |
| `Flows.SumMlj` | epidemic.c:82-90 | the loop returns the inflow: column `d` of `m` summed over every `i != d` |
| `Flows.SumMjl` | epidemic.c:97-105 | the loop returns the outflow: row `d` of `m` summed over every `i != d` |
| `Flows.SumMXBeta` | epidemic.c:112-120 | the loop returns the weight `Σ_{i≠d} m[d][i]·getX(i)` that sumMXBETA scales by BETA |
| `Flows.InflowIsColumnSum` | epidemic.c:82-90 | the inflow equals the full column sum minus the diagonal entry `m[d][d]` |
| `Flows.OutflowIsRowSum` | epidemic.c:97-105 | the outflow equals the full row sum minus the diagonal entry `m[d][d]` |
| `Flows.FlowsNonNegative` | epidemic.c:82-105 | a non-negative matrix gives non-negative inflow and outflow |
| `Flows.ZeroMatrixNoFlow` | epidemic.c:82-120 | with an all-zero matrix, the inflow, outflow and sumMXBETA weight of every region are 0 |
| `Flows.FlowsBounded` | epidemic.c:82-105 | for a non-negative matrix with entries at most `b`, every partial sum the sumMlj and sumMjl accumulators take lies in `[0, 7·b]`, so they stay in range when `b ≤ INT_MAX / 7` |
| `Flows.MixingWeightCollapses` | epidemic.c:112-120 | if every other region has fewer infected than inhabitants, every `getX(i)` is 0 and sumMXBETA(d) is 0 |
| `Simulation.InitSusceptible` | epidemic.c:169-171 | after the seeding loop, `s[i] + I[i] + r[i] == n[i]` in every region; only `s` is written, and `I` and `r` keep their values |
| `Simulation.SeededPopulation` | epidemic.c:169-171 | after seeding, the totals of `s`, `I` and `r` add up to the total population |
| `Simulation.DailyTotals` | epidemic.c:177-185 | curretlyInfected, currentlyHealthy and curedCases are the sums of `I`, `s` and `r` over all regions; no array is modified |
| `Simulation.UpdateDistrict` | epidemic.c:209-214 | one iteration for region `j`: only entry `j` of `s`, `I` and `r` changes; `suspectNumber` and `infectionNumber` both see the state before `s[j]` and `I[j]` change, and the recovery step uses the old `r[j]` and `I[j]`; the arrays keep their 8 entries |
| `Simulation.Sweep` | epidemic.c:208-215 | the state after the loop has handled regions `0..k-1` in order, each one seeing the regions before it already overwritten; the arrays keep their 8 entries (`SweepFrame` and `SweepDone` state what each entry holds) |
| `Simulation.NextDay` | epidemic.c:208-215 | one day's update is the sweep over all 8 regions; the arrays keep their 8 entries |
| `Simulation.Days` | epidemic.c:176-216 | the state after `d` iterations of the day loop, each applying one day's update; the arrays keep their 8 entries |
| `Simulation.ReportOf` | epidemic.c:177-202 | the values printed on the DAY line for day `d`; after day 0 the printed new cases are the value the previous day's update loop left in its running counter |
| `Simulation.AdvanceDay` | epidemic.c:206-215 | the day's loop leaves the arrays in the state of the in-place sweep over regions 0..7, and `newCases` equals `Σ I_after − Σ I_before` |
| `Simulation.SweepFrame` | epidemic.c:208-215 | while region `j` is handled, regions `k ≥ j` still hold the previous day's `s`, `I` and `r` |
| `Simulation.SweepDone` | epidemic.c:208-215 | region `j` ends with `suspectNumber` and `infectionNumber` evaluated on the state the loop saw at `j`, where regions before `j` are new and `s[j]`, `I[j]` are old; the recovery step uses the old `r[j]` and `I[j]`; later iterations leave it unchanged |
| `Simulation.Increments` | epidemic.c:206-214 | the running `newCases` counter after regions `0..k-1`, which subtracts each old `I[j]` and adds each new one, equals the change in total infected over those regions |
| `Simulation.SweepIsSnapshotWhenLocal` | epidemic.c:208-215 | when each region's formulas depend only on its own counts, the in-place sweep gives the same day as the simultaneous update |
| `Simulation.CommuterFormula` | epidemic.c:144-165 | the shape of `suspectNumber(d)` and `infectionNumber(d)` (both carried by `CommuterFormulas`): other regions enter only through the sumMXBETA(d) weight and through `getY(d)·sumInfectOut(d)`, so two states that agree on region `d`'s counts and on those two terms give the same value |
| `Simulation.CommuterFormulaCollapses` | epidemic.c:144-165 | while every infected count and `s[d]` are below their populations, both commuter terms are 0, so the formula sees only region `d`'s own counts |
| `Simulation.SweepPrefixUnderCollapse` | epidemic.c:208-215 | if the start-of-day counts and the new infected counts stay below the populations, regions `0..k-1` of the in-place sweep hold the simultaneous update's values |
| `Simulation.SweepIsSnapshotUnderCollapse` | epidemic.c:208-215 | under the same condition, the whole day of the in-place sweep equals the simultaneous update |
| `Simulation.SweepDiffersFromSnapshot` | epidemic.c:208-215 | one example with made-up formulas, copying region 0's infected count into region 1, on the all-zero state: there the in-place sweep and the simultaneous update disagree on region 1 |
| `Simulation.ReportAndAdvance` | epidemic.c:177-215 | one iteration of the day loop: the report holds the day's totals and the new-cases counter carried in, and afterwards the arrays hold the next day's state and the counter holds the growth of the infected total over that day |
| `Simulation.ReportsAt` | epidemic.c:176-202 | the list of the first `n` daily reports holds, at index `d`, the report of day `d` |
| `Simulation.Run` | epidemic.c:174-216 | after `days` iterations the arrays hold the state after `days` sweeps. The report for day `d` holds that day's totals. Its new cases are 56 on day 0 and otherwise the change in total infected since the day before |
| `Simulation.DaysCompose` | epidemic.c:176-216 | simulating `a + b` days is simulating `b` days from the state after `a` days |
| `Scenario.CommutingWellFormed` | epidemic.c:36-45 | the reference matrix is 8×8, non-negative, has a zero diagonal, and each flow fits in a C `int` |
| `Scenario.SeedLeavesSusceptible` | epidemic.c:48-57 | seeding the reference data leaves every susceptible count positive and every count below its population |
| `Scenario.SeedMixingCollapses` | epidemic.c:48-57 | for the reference seed, sumMXBETA is 0 in every region |
| `Scenario.BratislavaFlows` | epidemic.c:36-45 | in the reference data, 30100 people commute into Bratislava and 134300 commute out |

## Left out

- `suspectNumber`, `infectionNumber` and `sumInfectOut` (epidemic.c:127-165) compute in `double` and finish with `round()`. They are the `suspect` and `infection` fields of `Simulation.Formulas`, uninterpreted functions that take `s`, `I` and the region. Neither reads `r`, so evaluating `infectionNumber` after `r[j]` is written is modelled faithfully.
- The recovery increment `r[j] += GAMMA * I[j]` (epidemic.c:211) truncates a `double` back to `int`. It is the uninterpreted `recover` field, which maps the old `r[j]` and `I[j]` to the new `r[j]`.
- The constants `BETA`, `THETA`, `ALFA` and `GAMMA` (epidemic.c:23-26) feed only the floating-point formulas, so they are not modelled.
- Flows.SumMXBeta: returns the integer weight `Σ m[d][i]·getX(i)`. The multiplication of each term by `BETA` in `double` is not modelled. When the weight's terms are all 0, as `MixingWeightCollapses` gives, each `double` term is exactly 0.0 as well.
- `CommuterFormula` treats `getY(d) * sumInfectOut(d)` as an integer product, so a zero `getY(d)` cancels the term. In `double` arithmetic that holds unless `sumInfectOut(d)` is infinite or NaN, which needs an effective denominator `n[i] - sumMlj(i) + sumMjl(i)` of 0.
- `getX` and `getY` return `double` in C. The value they return is the integer quotient converted to `double`, which the model keeps as an `int`.
- A zero population is a division by zero in C. `Ratio` requires `n[d] != 0`. `SumMXBeta` requires it for every region that it divides by.
- The table and the `DAY` line are not printed (epidemic.c:188-205). `Run` returns the printed totals and new cases as `Report` values. The `i % 5` table cadence is formatting. The 61-day count (epidemic.c:176) becomes the `days` parameter.
- C `int` overflow is not modelled, because Dafny integers are unbounded. `FlowsBounded` and `CommutingWellFormed` show that the reference flows are far below `INT_MAX`.
- The arrays `s`, `I` and `r` are distinct globals in C, so the methods require them to be distinct arrays.
- The code does not detect invalid seeds, degenerate regions or negative compartments. The model does not either: seeding with `I[i] + r[i] > n[i]` yields a negative `s[i]`, just as the C code does.
