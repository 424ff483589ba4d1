# Stochastic inventory simulation — a Dafny model

This project models the inventory-simulation engine of two Python scripts. It
has four parts:

- **The pseudo-random generator of `stochastic.py`.** It is a linear
  congruential generator `state := (state * 17 + 43) % 100` that starts from
  seed 7. `next()` returns the new state.
- **The rule-based demand of `stochastic.py`.** A draw below 20 gives one unit
  less than the product's mean demand. A draw from 20 to 69 gives the mean. A
  draw of 70 or more gives one unit more.
- **The Monte Carlo demand table of `monte_poisson.py`.** Five inclusive
  ranges cover the draws 0..99. The first row that contains the draw gives a
  demand of 1..5.
- **The inventory update and the day loop of both scripts.** Each day's demand
  is taken from stock. In `monte_poisson.py` the new stock is also appended to
  the product's `history`. The loop runs once per simulated day and collects the
  demands.

The Python objects change their own fields. In the model they are immutable
values, and every operation returns the next value. `next()` returns
`(generator, draw)`. `update_inventory` returns `(product, demand)`. A
simulation run is a recursive fold over the days.

Files:

| file | module | models |
|---|---|---|
| `wrappers.dfy` | `Wrappers` | `Option`, used where the Python code yields `None` |
| `ledger.dfy` | `Ledger` | sum of demands and the running stock level of each day |
| `pseudo_random.dfy` | `PseudoRandom` | `PseudoRandom` in `stochastic.py`, with Python's floor `%` |
| `stochastic.dfy` | `Stochastic` | `StochasticProduct` in `stochastic.py` and its day loop |
| `monte_carlo.dfy` | `MonteCarlo` | `MC_TABLE` and the lookup in `MonteCarloProduct` |
| `monte_poisson.dfy` | `MontePoisson` | the products of `monte_poisson.py`, their `history`, and the day loop |

Edge cases the code handles, and how the model follows them:

- **Rule-based demand is not clamped.** A mean of 1 and a draw below 20 give a
  demand of 0 (`Stochastic.RuleDemandExamples`).
- **The generator from seed 7.** Line 7 of `stochastic.py` gives
  `7*17+43 = 162 → 62`, then 97, then 92 (`PseudoRandom.DefaultSeedDraws`).
  The run of product 1 over three days therefore has demands 3, 4, 4 and stock
  levels 47, 43, 39.
- **A draw outside 0..99.** The lookup falls off the loop and returns `None`.
  `self.stock -= None` then raises. The model returns `None` for the lookup,
  and `MonteCarloUpdate`/`MonteCarloRun` return `None` for the update and the
  run.
- **A non-positive `days`.** `range(days)` runs no day (`Stochastic.Simulate`
  with `days <= 0`).

Each product owns a `PseudoRandom` object that `next()` updates in place
(stochastic.py:7,18). In the model the generator is a value passed from step
to step.

The outputs of the random libraries are inputs of the model:

- `np.random.poisson(mean)` becomes a sequence of `nat` samples.
- `random.randint(0, 99)` becomes a sequence of integer draws.

A draw outside 0..99 is allowed as an input so that the lookup's fall-through
path is modelled.

## Model

| member | source | states |
|---|---|---|
| PseudoRandom.FloorDiv | stochastic.py:7 | Python's floor quotient for a positive modulus: q*m <= a < q*m + m |
| PseudoRandom.FloorMod | stochastic.py:7 | Python `%` with a positive modulus: the remainder is in [0, m) and a = q*m + r with the floor quotient q, for negative a as well |
| PseudoRandom.Step | stochastic.py:7 | the new state is in [0, 100) for any integer state and is congruent to state*17+43 modulo 100 |
| PseudoRandom.Next | stochastic.py:6-8 | `next()` stores the new state and returns that same value, which lies in [0, 100) |
| PseudoRandom.NextN | stochastic.py:6-8 | n successive `next()` calls return n values in [0, 100), and the generator ends in the state of the last value |
| PseudoRandom.NextNIterates | stochastic.py:2-8 | determinism: the i-th draw is the (i+1)-fold iterate of the recurrence from the starting state, and the final state is the n-fold iterate |
| PseudoRandom.SameStateSameDraws | stochastic.py:2-8 | two generators with equal state produce the same n draws and end in equal states |
| PseudoRandom.ResumeWhereStopped | stochastic.py:6-8 | m draws followed by n more from where the generator stopped equal m + n draws at once, with the same final generator |
| PseudoRandom.DefaultSeedDraws | stochastic.py:3-7 | from the default seed 7 the first three draws are 62, 97, 92 |
| PseudoRandom.NegativeStateDraw | stochastic.py:7 | a negative state uses floor modulo: state -10 gives 73, not -27 |
| Stochastic.RuleDemand | stochastic.py:23-28 | the demand lies in [mean-1, mean+1]. It is mean-1 iff draw < 20, mean iff 20 <= draw < 70, and mean+1 iff draw >= 70, with no clamping |
| Stochastic.RuleDemandMonotone | stochastic.py:23-28 | a larger draw never gives a smaller demand |
| Stochastic.RuleDemandExamples | stochastic.py:23-28 | mean 3: draw 15 gives 2, 50 gives 3 and 85 gives 4, with the boundaries 19/20 and 69/70. Mean 1 with draw 0 gives 0 |
| Stochastic.Create | stochastic.py:13-18 | a new product has the given name, stock, mean demand and lead time, and its generator starts from the default seed 7 |
| Stochastic.GenerateDemand | stochastic.py:20-28 | the generator advances exactly once and nothing else changes. The demand is the rule applied to the new state and lies in [mean-1, mean+1] |
| Stochastic.UpdateInventory | stochastic.py:30-33 | the returned demand is the rule applied to the generator's next draw, and it is subtracted from stock. The generator advances once. Name, mean demand and lead time are unchanged |
| Stochastic.Simulate | stochastic.py:63-65 | after the loop the demand list has max(days, 0) entries and the final stock is the initial stock minus their sum. Name, mean and lead time are unchanged |
| Stochastic.SimulateSnoc | stochastic.py:63-65 | one more day appends exactly one demand to the list and keeps the earlier ones |
| Stochastic.SimulateFollowsDraws | stochastic.py:63-65 | day i's demand is the rule applied to the i-th draw of the product's generator. After the run the generator has advanced once per day |
| Stochastic.SimulatePrefix | stochastic.py:63-66 | stopping after k days gives the first k demands of a longer run |
| Stochastic.DailyStock | stochastic.py:63-66 | the stock printed on day k is the initial stock minus the demands of days 1..k |
| Stochastic.GoldenRun | stochastic.py:54-66 | product 1 (stock 50, mean 3) over 3 days gives demands 3, 4, 4, stock levels 47, 43, 39 and a final stock of 39 |
| MonteCarlo.TableShape | monte_poisson.py:34-40 | `MC_TABLE` rows are non-empty, contiguous and ascending. They cover exactly 0..99, and row i has demand i+1 |
| MonteCarlo.RowsAscend | monte_poisson.py:34-40 | in a contiguous table every row ends before any later row starts |
| MonteCarlo.RowsDisjoint | monte_poisson.py:34-40 | no draw lies in two rows of a contiguous table |
| MonteCarlo.RowsCover | monte_poisson.py:34-40 | every draw between the first start and the last end lies in some row |
| MonteCarlo.Lookup | monte_poisson.py:45-47 | the loop yields None iff no row contains the draw. Otherwise it yields the demand of the first row that contains it |
| MonteCarlo.LookupFindsRow | monte_poisson.py:45-47 | the loop returns the demand of the row that contains the draw |
| MonteCarlo.LookupInSpan | monte_poisson.py:45-47 | a draw inside the table's span gets the demand of a row that contains it |
| MonteCarlo.LookupMisses | monte_poisson.py:45-47 | a draw outside the table's span matches no row, and the loop falls through to `None` |
| MonteCarlo.Demand | monte_poisson.py:43-47 | a demand exists iff the draw is in 0..99. It is then in 1..5 and is the demand of a row containing the draw |
| MonteCarlo.DemandMatchesBands | monte_poisson.py:34-47 | for every integer draw the lookup equals the thresholds 0-9→1, 10-29→2, 30-69→3, 70-89→4, 90-99→5, and is None otherwise |
| MonteCarlo.DemandMonotone | monte_poisson.py:34-47 | over 0..99 a larger draw never gives a smaller demand |
| MonteCarlo.DemandExamples | monte_poisson.py:34-47 | 0→1, 9→1, 10→2, 45→3, 89→4, 90→5 and 99→5. Draws -1 and 100 give None |
| MontePoisson.Create | monte_poisson.py:7-12 | a new product has the given name, stock, mean demand and lead time, and an empty history |
| MontePoisson.Apply | monte_poisson.py:29-30 | stock decreases by the demand and exactly one entry, the new stock, is appended to `history`. Earlier entries, name, mean and lead time are unchanged |
| MontePoisson.PoissonUpdate | monte_poisson.py:27-31 | the base product's demand is the Poisson sample, returned as is. The stock never rises |
| MontePoisson.MonteCarloUpdate | monte_poisson.py:27-31 | the update succeeds iff the draw is in 0..99. The demand is then the table's, in 1..5, and the stock strictly falls |
| MontePoisson.Run | monte_poisson.py:77-79 | after the loop the stock is the initial stock minus the sum of the demands. The history gains the daily levels in order. Name, mean and lead time are unchanged |
| MontePoisson.PoissonRun | monte_poisson.py:77-79 | the collected demands are the samples, and the product is the day loop's result for them |
| MontePoisson.MonteCarloRun | monte_poisson.py:77-79 | the run completes iff every draw is in 0..99. Demand i is then the table's demand for draw i |
| MontePoisson.MonteCarloRunIsRun | monte_poisson.py:77-79 | a completed Monte Carlo run leaves the product the day loop gives for its demands |
| MontePoisson.FreshRunHistory | monte_poisson.py:27-31 | from a new product (empty history), n days leave n history entries. Entry i is the initial stock minus the demands of days 0..i, and the last entry equals the stock |
| MontePoisson.MonteCarloHistoryDecreasing | monte_poisson.py:27-47 | under the Monte Carlo product the appended history is strictly decreasing and below the starting stock |
| MontePoisson.PoissonHistoryNonIncreasing | monte_poisson.py:14-31 | under the base product the appended history never increases and never exceeds the starting stock |
| MontePoisson.MonteCarloRunExample | monte_poisson.py:34-47 | draws 9, 10, 45 from stock 50 give demands 1, 2, 3 and history 49, 47, 44 |
| MontePoisson.MonteCarloRunAborts | monte_poisson.py:45-47 | a draw of 100 on day 2 leaves the run without a final state |
| Ledger.LevelsClosedForm | stochastic.py:63-66 | the stock at the end of day i is the initial stock minus the demands of days 0..i |
| Ledger.LevelsSnoc | monte_poisson.py:29-30 | one more day appends one level and leaves the earlier levels unchanged |
| Ledger.LevelsDescend | monte_poisson.py:29-30 | if every demand is at least lo >= 0, each level is at least lo below the starting stock and at least lo below every earlier level |

## Left out

- `calculate_safety_stock` (monte_poisson.py:18-25) is left out. It uses floating-point `np.sqrt`, multiplication and `round`.
- The average daily demand (stochastic.py:68-71, monte_poisson.py:85) is left out. It uses float division and rounding. For `days = 0` the division at stochastic.py:68 also raises.
- The distributions of `np.random.poisson` (monte_poisson.py:16) and `random.randint` (monte_poisson.py:44) are not modelled. Their outputs are inputs: `nat` samples and integer draws.
- Console prompts and printing are left out (stochastic.py:43-71). This includes the `int(input())` parsing and the `KeyError` on an unknown product number.
- The Streamlit widgets, plots and tables are left out (monte_poisson.py:55-99). They only feed parameters in and render the results.
- The product catalogues (stochastic.py:37-41, monte_poisson.py:49-53) are not modelled as data. Only product 1, the Gaming Laptop (stock 50, mean 3, lead time 5), is used in the worked runs.
- currencyC.py (an HTTP rate lookup and one float multiplication) is not part of this model.
- popularity_prog_langs/proglangs.py (CSV loading, a dashboard and GitHub API calls) is not part of this model.
- MontePoisson.MonteCarloUpdate: when the lookup yields `None`, Python raises a `TypeError` at `self.stock -= None` (monte_poisson.py:29) before changing `stock` or `history`. The model returns `None`. `MonteCarloRun` likewise returns `None` for the whole run, dropping the earlier days that Python had already applied before the exception stopped the script.
- Python integers are unbounded, and `np.random.poisson(mean)` with a scalar mean returns a Python `int`, so `stock` has no fixed width; the model's unbounded `int` matches.
