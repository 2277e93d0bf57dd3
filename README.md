# Ophthalmologist compensation calculator — Dafny model

This project models the compensation engine of the ophthalmologist
compensation calculator. The model has three parts:

- **The formula.** Each of the three formula slots pays a base salary plus a
  bonus. The bonus is a percentage of the net collections above a threshold,
  and the threshold is the base salary times a multiplier.
- **The comparison sweep.** The same evaluation runs at every sample of an
  ordered range of collections values, giving one chart row per sample.
- **The highlighted point.** The chart marks the sample nearest to the current
  collections value.

Every amount is a mathematical `real`, so the model has no rounding.

- `engine.dfy` (module `Engine`) holds the parameter set `Params` and the
  widget bounds on it (`ValidParams`). It also holds the per-formula record
  `FormulaResult`: base component, threshold, collections above the threshold,
  bonus and total. `Compute` evaluates one formula and `ComputeAll` evaluates
  all three slots the way `calculate_compensation` does. The lemmas state what
  the formula promises.
- `comparison.dfy` (module `Comparison`) holds the chart row `Row` and the
  `Sweep` method, which builds the rows with a loop. It also holds
  `NearestIndex`, which models `argmin(|range - net_collections|)`, and
  `SelectRows`, which models the row filter on the chosen sample. Lemmas
  connect these to the engine.

The source triplicates lines 42-44 of `app.py`. Here they are written once as
`Compute` and applied to each slot. The source computes the thresholds again
at lines 215-217 for display; they are shown to agree with the record's
threshold. The engine is total: the source does no validation, so `Compute`
has no precondition. The widget bounds appear only as premises of the lemmas
that need them.

## Model

| member | source | states |
|---|---|---|
| Engine.ClampAtZero | app.py:43 | `max(0, x)` is non-negative, at least `x`, and equal to either 0 or `x` |
| Engine.Threshold | app.py:215-217 | when the base salary is non-negative and the multiplier is at least 1, as the widgets guarantee, the threshold is at least the base salary and never negative |
| Engine.Compute | app.py:42-44 | the threshold is base × multiplier; the excess is the least value that is both non-negative and at least collections − threshold; the bonus is excess × percentage / 100; the total is base + bonus; the base component is the base salary |
| Engine.ComputeAll | app.py:23-90 | each of the three records is the same formula applied to that slot's own parameter set and the shared collections value |
| Engine.DisplayedThresholdAgrees | app.py:215-217 | the threshold shown for display equals the record's threshold at every collections value |
| Engine.BonusNonNegative | app.py:43-44 | with a non-negative percentage the bonus is never negative, so the total is never below the base salary |
| Engine.NoBonusUpToThreshold | app.py:43-44 | at or below the threshold, the excess and the bonus are 0 and the total is the base salary |
| Engine.NoBonusAtZeroRate | app.py:43-44 | with a 0 % bonus the bonus is 0 and the total is the base salary, whatever the collections |
| Engine.BonusPaidIff | app.py:43 | a positive bonus is paid if and only if collections exceed the threshold and the percentage is positive |
| Engine.TotalBounds | app.py:43-44 | with a percentage in [0, 100], base ≤ total ≤ base + max(0, collections − threshold) |
| Engine.TotalMonotone | app.py:43-44 | for fixed parameters with a non-negative percentage, the total never decreases as collections grow |
| Engine.AffineAboveThreshold | app.py:43-44 | at or above the threshold, total = base + (collections − threshold) × percentage / 100 |
| Engine.SlopeAboveThreshold | app.py:43-44 | between two collections values at or above the threshold, the total changes by percentage / 100 times the change in collections |
| Engine.FormulasIndependent | app.py:41-54 | each slot's record depends only on its own parameter set and the shared collections: changing the other two slots leaves it unchanged |
| Engine.SlotsInterchangeable | app.py:41-54 | all slots apply the same formula: swapping two parameter sets swaps their records |
| Engine.Examples | app.py:56-66 | the default parameters (300000, 3.0, 30 %) give threshold 900000; at 1000000 collections they give excess 100000, bonus 30000 and total 330000; at 500000 they give total 300000; base 0 with multiplier 1 and 100 % turns 200000 of collections into a total of 200000 |
| Comparison.RowAt | app.py:255-261 | a row holds its sample and the totals of formulas 1, 2 and 3 evaluated at that sample |
| Comparison.Sweep | app.py:251-261 | it returns exactly one row per sample, in sample order; row i holds sample i and the three totals computed at sample i |
| Comparison.CurvesNonDecreasing | app.py:251-261 | over ascending samples with non-negative percentages, each of the three total columns is non-decreasing |
| Comparison.CurvesBounded | app.py:251-261 | under the widget bounds, every total in the sweep lies between its base salary and that base plus the collections above its threshold |
| Comparison.Distance | app.py:337 | `abs(a - b)` is non-negative and equals a − b or b − a |
| Comparison.NearestIndex | app.py:337 | for a non-empty range, the index is in bounds, no sample is strictly closer to the target, and every earlier sample is strictly farther (argmin returns the first of tied minima) |
| Comparison.NearestIndexUnique | app.py:337 | any index meeting the minimal-distance and first-of-ties conditions is the one `NearestIndex` returns |
| Comparison.NearestOfGridValue | app.py:337 | over strictly ascending samples, a current value equal to sample k selects index k |
| Comparison.SelectRows | app.py:337 | the selection holds only rows of the table whose collections equal the given value, and it holds every such row; each matching row occurs in it exactly as often as in the table, and non-matching rows do not occur at all |
| Comparison.SelectConcat | app.py:337 | the selection keeps table order: selecting from two tables laid end to end gives the first table's selection followed by the second's |
| Comparison.SelectNone | app.py:337 | if no row has the given collections value, the selection is empty |
| Comparison.SelectUnique | app.py:337 | if row k's collections value appears in no other row, the selection on it is exactly row k |
| Comparison.CurrentPoint | app.py:336-337 | over strictly ascending samples, the highlighted selection is the single row of the nearest sample, holding the three totals the engine computes there |

## Left out

- Streamlit page setup, sidebar widgets, columns, metrics, expanders and text (app.py:9-20, 93-190, 220-245, 366-397): these are presentation. The widget bounds become `ValidParams` and the lemma premises.
- Plotly figure, threshold lines, annotations, traces and layout (app.py:266-363): these are charting. Only the row selection at line 337 is modelled.
- The pandas DataFrame (app.py:263): the model uses the sequence of rows directly. The `.loc[... == x]` filter is modelled as `SelectRows`.
- `np.linspace(100000, 3000000, 100)` (app.py:251): the samples are any given `seq<real>`. Lemmas that need order assume ascending or strictly ascending samples.
- The `description` string and the formatted `details` strings of each record (app.py:58, 62-66): currency and percent formatting has no effect on the arithmetic. The record keeps the threshold and the excess as numbers instead.
- IEEE floating point and Python's mixing of int and float inputs: every quantity is a mathematical real.
- The loop at app.py:336 recomputes the same selection once for each of the three formula names. The model computes it once.
