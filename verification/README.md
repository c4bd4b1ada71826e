# Vega P&L risk engine — a Dafny model

The vega risk engine projects the P&L of an equity-index options book under a
spot move. It works in four stages:

- **Surfaces.** It reads vega surfaces: matrices of vega by moneyness (rows) and
  expiry (columns), one per spot-shift level. The shift level comes from the file
  name (`FILE_SHIFT_MAP`, `detect_shift_from_filename`).
- **Interpolation.** It interpolates a surface at the requested move
  (`interpolate_vega_grid`). The move is clamped to the available shift range. An
  exact level returns a copy of that surface; otherwise each cell is blended
  linearly between the two bracketing levels and the totals are recomputed.
- **Vol change.** It turns the move into a per-cell vol change and a
  second-order (volga) P&L. Either the calibrated beta model (`beta_vol_change`)
  or a manual shock (`manual_vol_change`) is used, over the whole grid
  (`compute_vol_change_grid`).
- **Aggregation.** It multiplies vega by the vol effect and aggregates: the
  total, by expiry, by tenor bucket (`classify_expiry`) and by moneyness
  (`compute_pnl`). The same pipeline runs over a list of spot moves, and in
  manual mode over a list of parallel vol shocks (`compute_scenario_matrix`). The
  export keeps only moneyness rows whose P&L exceeds 1.0 in size
  (`pnl_result_to_dict`).

Floats are modelled as `real`. Numpy arrays are sequences. A Python dict is the
sequence of its entries in insertion order, where assigning to an existing key
updates that entry in place.

- `np.exp`, `np.log` and `np.sqrt` are arrow-valued fields of a `Numerics`
  parameter. Nothing is assumed about their values.
- The date parsing `classify_expiry` does is a `DaysTo` parameter that maps an
  expiry string to a day count.
- A raised exception is a `Failure` of a `Result`: `NoSurfaces` for the
  `ValueError`, `ShapeMismatch` for the `IndexError` of a surface smaller than
  the reference grid.

Modules, one file each:

| module | file | source |
|---|---|---|
| `Wrappers` | wrappers.dfy | `Option` and `Result` |
| `Numbers` | numbers.dfy | min, max, abs, sign, clip and sums over rectangular matrices |
| `OrderedDicts` | ordered_dicts.dfy | the insertion-ordered dicts of the breakdowns |
| `ShiftNaming` | shift_naming.dfy | shift detection from file names |
| `VegaGrids` | vega_grids.dfy | the `VegaGrid` record |
| `Interpolation` | interpolation.dfy | the linear interpolation engine |
| `VolModels` | vol_models.dfy | the two vol models and the vol change grid |
| `Buckets` | buckets.dfy | tenor buckets |
| `PnL` | pnl.dfy | `compute_pnl` and the export's moneyness filter |
| `ScenarioMatrix` | scenario_matrix.dfy | `compute_scenario_matrix` |

The imperative parts of the source are Dafny methods, each proved equal to a
specification function:

- `Interpolation.BlendCells` and `VolModels.ComputeVolChangeGrid` fill `array2`
  buffers in nested loops.
- `PnL.PnLByExpiry`, `PnL.PnLByBucket` and `PnL.PnLByMoneyness` build their
  dicts in loops.
- `ScenarioMatrix.ComputeScenarioMatrix` appends one row per spot move.

The properties are then proved about those functions.

Where the code and its design notes disagree, the model follows the code:

- The exact-level test is plain equality of the clamped move with a stored
  level, with no tolerance (vega_risk_engine.py:218).
- A returned grid reports the *unclamped* request as its spot shift
  (vega_risk_engine.py:221, 255).
- Totals of a blended grid are recomputed from the blended cells, not blended
  themselves (vega_risk_engine.py:250-252).
- There is no bucket for expired options: a day count of 30 or less, negative
  included, lands in "0-1M" (vega_risk_engine.py:366-385).
- A surface smaller than the lowest-shift grid makes the blend raise an
  `IndexError` (vega_risk_engine.py:233, 241). It is not passed through.
- The P&L result has no separate volga field: the volga P&L is folded into each
  cell (vega_risk_engine.py:431).
- In manual scenario mode each column rebuilds `ManualParams` without the user's
  `volga_scale`, so the default 0.15 applies (vega_risk_engine.py:523-527).
- Every mode string other than "beta" selects the manual model
  (vega_risk_engine.py:350, 453, 508).
- Repeated expiry labels, moneyness levels or vol-column labels overwrite each
  other: the last one wins (vega_risk_engine.py:439, 450, 529).

## Model

| member | source | states |
|---|---|---|
| ShiftNaming.FinalComponent | vega_risk_engine.py:96 | the final path component holds no '/', is no longer than the path, and is empty exactly when the path is only slashes |
| ShiftNaming.FinalComponentOf | vega_risk_engine.py:96 | for a path `pre + name + post`, where `name` is a non-empty run without '/', `pre` is empty or ends in '/', and `post` is only trailing slashes, the final component is `name` |
| ShiftNaming.Stem | vega_risk_engine.py:96 | the stem is a prefix of the name. When it is shorter, the cut is at the last dot, and that dot is neither the first nor the last character. The name is kept whole only when it has no such inner suffix |
| ShiftNaming.Lower | vega_risk_engine.py:96 | lower-casing keeps the length and maps each character through `LowerChar` |
| ShiftNaming.LowerChar | vega_risk_engine.py:96 | an ASCII capital becomes the lower-case letter at the same alphabet position; any other character is unchanged |
| ShiftNaming.DetectShiftFromFilename | vega_risk_engine.py:94-100 | any shift detected is one of the seven table values; its first-match behaviour is stated in DetectShiftFirstMatch and DetectShiftNone |
| ShiftNaming.FirstShift | vega_risk_engine.py:97-100 | the scan returns None exactly when no key of the table occurs in the name; otherwise it returns the shift of a key that occurs, and no earlier key occurs |
| ShiftNaming.DetectShiftFirstMatch | vega_risk_engine.py:83-100 | if key k occurs in the lower-cased stem and no earlier key does, the result is k's shift |
| ShiftNaming.DetectShiftNone | vega_risk_engine.py:83-100 | the result is None exactly when no key occurs in the lower-cased stem; any shift returned is one of the seven table values |
| ShiftNaming.TableShifts | vega_risk_engine.py:83-91 | a shift found by scanning the table is one of -7.5%, -5%, -2.5%, 0, 2.5%, 5%, 7.5% |
| ShiftNaming.DetectShiftExampleUpperCase | vega_risk_engine.py:94-100 | "data/SPX_UP_25.csv" is detected as +2.5%: case and directory do not matter |
| ShiftNaming.DetectShiftExampleDirectory | vega_risk_engine.py:96-100 | a key in the directory part ("down_50/SPX.csv") is not seen |
| ShiftNaming.DetectShiftExampleSuffix | vega_risk_engine.py:96-100 | a key in the suffix ("SPX.atm") is not seen |
| Numbers.Clip | vega_risk_engine.py:215 | `np.clip` lies within [lo, hi], is the identity inside it, and returns the nearer bound outside it |
| Numbers.Sign | vega_risk_engine.py:290 | `np.sign` is -1, 0 or 1 and `sign(x) * x == abs(x)` |
| Numbers.RowSums | vega_risk_engine.py:250 | `sum(axis=1)` has one entry per row, each the sum of that row |
| Numbers.ColSums | vega_risk_engine.py:251 | `sum(axis=0)` has one entry per column, each the sum of that column |
| Numbers.ColumnSumsTotal | vega_risk_engine.py:250-252 | the column sums add up to the same grand total as the row sums |
| Interpolation.GridAt | vega_risk_engine.py:219 | `surfaces[shift]` is the grid stored under that shift |
| Interpolation.GridAtEntry | vega_risk_engine.py:219 | with distinct shifts, looking up an entry's shift returns that entry's grid |
| Interpolation.MinShift | vega_risk_engine.py:207-215 | `sorted(shifts)[0]` is a stored shift and no stored shift is smaller |
| Interpolation.MaxShift | vega_risk_engine.py:207-215 | `sorted(shifts)[-1]` is a stored shift and no stored shift is larger |
| Interpolation.GreatestBelow | vega_risk_engine.py:246-248 | the lower bracket of `interp1d` is the greatest stored shift below the point; it is absent only when no stored shift is below it |
| Interpolation.LeastAbove | vega_risk_engine.py:246-248 | the upper bracket of `interp1d` is the least stored shift above the point; it is absent only when no stored shift is above it |
| Interpolation.ClampedMove | vega_risk_engine.py:215 | the effective level is the request clipped to [min shift, max shift] |
| Interpolation.Cell | vega_risk_engine.py:241 | the cell read is the grid's value at (i, j) whenever that cell exists |
| Interpolation.Blend | vega_risk_engine.py:237-248 | the blended matrix is n x m |
| Interpolation.Summarise | vega_risk_engine.py:250-263 | the returned grid holds the given cells and the requested move on the reference grid's moneyness, expiries and expiry years. Its row totals, column totals and total are recomputed from those cells, and the row totals and the column totals each add up to the total |
| Interpolation.Interpolate | vega_risk_engine.py:207-263 | it fails with NoSurfaces exactly on an empty set; one surface is returned unchanged whatever the move; with two or more, a result carries the requested move; every result is well-formed and takes its expiry axis from one of the surfaces |
| Interpolation.BlendAt | vega_risk_engine.py:231-263 | the blending path fails only with ShapeMismatch; its result carries the requested move and the lowest-shift grid's expiry axis |
| Interpolation.InterpolateVegaGrid | vega_risk_engine.py:189-263 | the method, with its nested fill loop, returns exactly `Interpolate` |
| Interpolation.BlendCells | vega_risk_engine.py:236-248 | the nested loop over an n x m buffer yields exactly `Blend` |
| Interpolation.Lowest | vega_risk_engine.py:232 | the reference grid is the one stored at the minimum shift |
| Interpolation.ClampEquivalence | vega_risk_engine.py:215-248 | any request gives the result of its clamped request, relabelled with the requested move; below the minimum (above the maximum) it gives the result at the minimum (maximum) |
| Interpolation.ExactMatch | vega_risk_engine.py:218-229 | when the clamped move is a stored level, the result is that grid (values, totals, moneyness, expiries) with the requested move as its spot shift |
| Interpolation.ExactLevel | vega_risk_engine.py:218-229 | requesting a stored level, interior or boundary, returns that grid |
| Interpolation.BlendShape | vega_risk_engine.py:232-241 | away from the stored levels, interpolation fails exactly when some surface is smaller than the lowest-shift grid |
| Interpolation.BlendStep | vega_risk_engine.py:231-263 | with `lo` and `hi` the adjacent levels around the clamped move, the result is the blend of those two grids at fraction `Fraction(c, s0, s1)`, summarised on the lowest grid's axes |
| Interpolation.BlendAtBrackets | vega_risk_engine.py:244-248 | the blending path uses the grids stored at the two bracketing levels |
| Interpolation.BlendAtLevels | vega_risk_engine.py:231-263 | the blending path, given the two levels it finds and the grids stored there |
| Interpolation.InterpolateBlends | vega_risk_engine.py:215-231 | when the clamped move is no stored level, it lies strictly inside the range and the blending path is taken |
| Interpolation.BracketLevels | vega_risk_engine.py:244-248 | adjacent levels around a point are the greatest below and the least above it, and the point is not itself a level |
| Interpolation.FractionInside | vega_risk_engine.py:246-248 | for s0 < c < s1 the fraction t lies in (0, 1) and s0 + t * (s1 - s0) == c |
| Interpolation.BlendCellBetween | vega_risk_engine.py:246-248 | a blend at t in (0, 1) lies between its two ends |
| Interpolation.BlendIsBetween | vega_risk_engine.py:239-248 | every blended cell is v0 + t * (v1 - v0) and lies between v0 and v1 |
| Interpolation.BlendedCells | vega_risk_engine.py:236-248 | on the blending path every cell is v0 + t * (v1 - v0) for ONE shared t = (c - s0)/(s1 - s0) in (0, 1), and lies between v0 and v1 |
| Interpolation.BlendedTotals | vega_risk_engine.py:232-262 | a blended grid's row totals, column totals and total are the sums of its cells; row and column totals both add up to the total; moneyness and expiries are the lowest-shift grid's |
| Interpolation.MidpointExample | vega_risk_engine.py:236-252 | two 1 x 1 surfaces at -5% and +5% give, at 0, the average vega as cell and as total |
| VolModels.SpotPoints | vega_risk_engine.py:283 | the move in points is zero exactly when the move is, and has its sign |
| VolModels.AtmChange | vega_risk_engine.py:286 | the ATM change vanishes without a move; with non-negative convexity it is at least the linear beta term |
| VolModels.SkewFactor | vega_risk_engine.py:289-290 | the skew factor lies in [0.5, 2.0], and is 1 at the money or without a move |
| VolModels.BetaTermFactor | vega_risk_engine.py:293 | the term factor is at least the floor and at least the decay, and equals one of them |
| VolModels.VolgaFactor | vega_risk_engine.py:298-300 | the volga factor lies in [0, 10] |
| VolModels.VolgaPnL | vega_risk_engine.py:301 | the volga P&L is zero without a vol change, has the sign of volga_scale, and is at most 5 * dSigma^2 * abs(volga_scale) in size |
| VolModels.BetaVolChange | vega_risk_engine.py:268-303 | a zero move gives (0, 0); with a positive floor dSigma has the sign of the ATM change; abs(dSigma) is at most twice abs(ATM change) * term factor; the volga term is `VolgaPnL` of dSigma |
| VolModels.ProductBounds | vega_risk_engine.py:295 | a skew factor in [0.5, 2] at most doubles the size, and positive skew and term factors keep the sign |
| VolModels.ManualTermFactor | vega_risk_engine.py:316 | the factor is the reciprocal of 1 + tm * sqrt(T), and lies in (0, 1] when tm and the root are non-negative |
| VolModels.ManualVolChange | vega_risk_engine.py:306-324 | with a non-negative multiplier and root, dSigma is the shock damped in size and of the shock's sign; the volga term is `VolgaPnL` of dSigma |
| VolModels.CellVolChange | vega_risk_engine.py:350-357 | "beta" selects the beta model; every other mode selects the manual model |
| VolModels.DSigmaMatrix | vega_risk_engine.py:344-361 | the vol change matrix is n x m |
| VolModels.VolgaMatrix | vega_risk_engine.py:344-361 | the volga matrix is n x m |
| VolModels.MatrixCell | vega_risk_engine.py:348-359 | cell (i, j) of both matrices is the selected model at moneyness i and expiry j |
| VolModels.ComputeVolChangeGrid | vega_risk_engine.py:327-361 | the nested loop fills two n x m buffers with exactly `DSigmaMatrix` and `VolgaMatrix` |
| VolModels.FillRow | vega_risk_engine.py:349-359 | the inner loop writes row i with the model's values and changes no other row |
| VolModels.ManualIgnoresSpot | vega_risk_engine.py:306-324 | in manual mode both matrices are the same for any two spot moves |
| VolModels.BetaFlatAtZero | vega_risk_engine.py:283-303 | in beta mode a zero move gives zero vol change and zero volga everywhere |
| VolModels.BetaDefaultDownFive | vega_risk_engine.py:283-301 | with the default beta inputs, an ATM node after a 5% fall gets 2.5 points times the floored term factor, and no volga when log(1) is 0 |
| Buckets.FirstBucket | vega_risk_engine.py:382-385 | the scan returns a label of the table, or the fallback "2Y+" |
| Buckets.ClassifyDays | vega_risk_engine.py:376-385 | `classify_expiry` returns one of the six bucket labels; which one is stated in ClassifyDaysIntervals |
| Buckets.FirstBucketFirst | vega_risk_engine.py:382-385 | the scan returns the label of the first threshold the day count is within |
| Buckets.ClassifyDaysIntervals | vega_risk_engine.py:366-385 | each label covers exactly one interval: (-inf, 30], (30, 90], (90, 180], (180, 365], (365, 730], (730, inf) |
| Buckets.LabelRank | vega_risk_engine.py:366-373 | a label's rank is its own position in the threshold table |
| Buckets.ClassifyMonotone | vega_risk_engine.py:366-385 | a later expiry never lands in an earlier bucket, and the rank is the position of the returned label |
| OrderedDicts.Values | vega_risk_engine.py:434-450 | `d.values()` lists the entries' values in order |
| OrderedDicts.Overwrite | vega_risk_engine.py:439 | the entry for the key takes the new value where it stands; every other entry is unchanged |
| OrderedDicts.Put | vega_risk_engine.py:439 | `d[k] = v` updates an existing entry in place, or else appends (k, v) at the end |
| OrderedDicts.PutKeys | vega_risk_engine.py:439 | `d[k] = v` adds k to the keys and no other key |
| OrderedDicts.PutDistinct | vega_risk_engine.py:439 | `d[k] = v` keeps the keys distinct |
| OrderedDicts.GetAfterPut | vega_risk_engine.py:439 | after `d[k] = v`, `d.get(k)` is v |
| OrderedDicts.GetOtherAfterPut | vega_risk_engine.py:439 | `d[k] = v` leaves every other key's value alone |
| OrderedDicts.PutSum | vega_risk_engine.py:439 | `d[k] = v` changes the sum of the values by v minus k's old value (0 when absent) |
| OrderedDicts.Get | vega_risk_engine.py:445 | `d.get(k, default)` is the default for an absent key, and otherwise a value stored under `k` |
| OrderedDicts.GetAt | vega_risk_engine.py:445 | with distinct keys, looking up a stored key yields its value |
| OrderedDicts.GetAbsent | vega_risk_engine.py:445 | looking up an absent key yields the default |
| OrderedDicts.AddTo | vega_risk_engine.py:445 | the entry for the key grows by x where it stands; every other entry is unchanged |
| OrderedDicts.Accumulate | vega_risk_engine.py:445 | an existing entry grows by x in place, or else (k, x) is appended |
| OrderedDicts.AccumulateIsPut | vega_risk_engine.py:445 | accumulating is the assignment `d[k] = d.get(k, 0.0) + x` |
| OrderedDicts.AccumulateSum | vega_risk_engine.py:445 | accumulating keeps the keys distinct, raises the sum of the values by x, and raises k's value by x |
| OrderedDicts.AccumulateOther | vega_risk_engine.py:445 | accumulating under k leaves every other key's value alone |
| OrderedDicts.AccumulateKeys | vega_risk_engine.py:445 | accumulating under k adds k to the keys and no other key |
| OrderedDicts.PutAll | vega_risk_engine.py:437-439 | the dict built by the assignment loop has distinct keys, exactly the keys assigned |
| OrderedDicts.PutAllSnoc | vega_risk_engine.py:437-439 | one more iteration of the assignment loop is one more `d[k] = v` |
| OrderedDicts.PutAllDistinct | vega_risk_engine.py:437-439 | with distinct keys the values are exactly the assigned values, so they add up to their sum |
| OrderedDicts.PutAllLastWins | vega_risk_engine.py:437-439 | the value kept for a key is that of its last assignment |
| OrderedDicts.AccumulateAll | vega_risk_engine.py:442-445 | the dict built by the accumulation loop has distinct keys |
| OrderedDicts.AccumulateAllKeys | vega_risk_engine.py:442-445 | its keys are exactly the keys seen |
| OrderedDicts.AccumulateStep | vega_risk_engine.py:442-445 | one more iteration of the accumulation loop is one more `Accumulate` |
| OrderedDicts.AccumulateAllSum | vega_risk_engine.py:442-445 | accumulation loses nothing: the values add up to the sum of all the amounts |
| OrderedDicts.AccumulateAllGet | vega_risk_engine.py:442-445 | accumulation is a group-by sum: each key holds the total of the amounts seen under it |
| PnL.Report | vega_risk_engine.py:452-467 | `vol_params` is the beta report exactly in beta mode. A beta report carries the four beta parameters, a manual one the three manual parameters |
| PnL.PnLCells | vega_risk_engine.py:431 | the P&L grid is n x m |
| PnL.PnLCellAt | vega_risk_engine.py:431 | each P&L cell is vega * (dSigma + volga) |
| PnL.BucketKeys | vega_risk_engine.py:443-444 | one bucket per expiry, in expiry order: bucket j is `classify_expiry` of expiry j |
| PnL.PnLOf | vega_risk_engine.py:425-479 | the result carries the interpolated grid, the move and the `vol_params` report. The P&L and vol change grids have the grid's shape, the total is the sum of all P&L cells, and the expiry and moneyness breakdowns are keyed by exactly the grid's expiries and moneyness levels |
| PnL.PnLSpec | vega_risk_engine.py:388-479 | `compute_pnl` fails exactly when interpolation does, with the same error |
| PnL.ComputePnL | vega_risk_engine.py:388-479 | the method (interpolation loop, vol grid loop, three aggregation loops) returns exactly `PnLSpec` |
| PnL.PnLByExpiry | vega_risk_engine.py:437-439 | the expiry loop builds the assignment dict of column sums keyed by expiry |
| PnL.PnLByBucket | vega_risk_engine.py:441-445 | the bucket loop builds the accumulation of column sums keyed by bucket |
| PnL.PnLByMoneyness | vega_risk_engine.py:447-450 | the moneyness loop builds the assignment dict of row sums keyed by moneyness |
| PnL.PnLSpecSuccess | vega_risk_engine.py:423-479 | a successful `compute_pnl` is the aggregation of the interpolated grid, which is well-formed |
| PnL.PnLCellsExplained | vega_risk_engine.py:426-479 | the result carries the grid and the move, reports the selected model, and each P&L cell is vega * (dSigma + volga) of that model |
| PnL.ModelCells | vega_risk_engine.py:426-431 | the vol change grid and the P&L grid hold, at every node, the model's dSigma and vega * (dSigma + volga) |
| PnL.ModelCell | vega_risk_engine.py:426-431 | the same fact at one node (i, j) |
| PnL.BreakdownTotals | vega_risk_engine.py:434-450 | total_pnl is the sum of the row sums and of the column sums; the buckets always add up to it; the expiry (moneyness) breakdown does when no expiry (moneyness) repeats |
| PnL.BucketBreakdown | vega_risk_engine.py:441-445 | each bucket holds the total P&L of the expiries classified into it, and a bucket is present exactly when some expiry falls into it |
| PnL.ExpiryEntry | vega_risk_engine.py:437-439 | an expiry's entry is its column's P&L when no later column has the same label |
| PnL.MoneynessEntry | vega_risk_engine.py:447-450 | a moneyness entry is its row's P&L when no later row has the same level |
| PnL.FlatSpotNoPnL | vega_risk_engine.py:423-434 | in beta mode an unchanged spot gives a zero P&L grid and a zero total |
| PnL.SignificantMoneyness | vega_risk_engine.py:549-553 | the export keeps each entry whose P&L exceeds 1.0 in size, as often as it is listed, and nothing else |
| PnL.SignificantMembers | vega_risk_engine.py:549-553 | an entry is in the export exactly when it is listed and its P&L exceeds 1.0 in size |
| PnL.SignificantMoneynessAppend | vega_risk_engine.py:549-553 | the filter keeps the input order: filtering `a + b` is filtering `a`, then `b` |
| ScenarioMatrix.RoundHalfEven | vega_risk_engine.py:529 | the `.0f` rounding is within 0.5, and ties go to the even integer |
| ScenarioMatrix.RoundHalfEvenUnique | vega_risk_engine.py:529 | those two properties determine the rounding |
| ScenarioMatrix.LabelOf | vega_risk_engine.py:529 | a column label is negative exactly for a negative shock. Its points are within 0.5 of the shock's size, and a tie goes to the even number |
| ScenarioMatrix.IntegerLabels | vega_risk_engine.py:518-529 | a whole-number shock is labelled by its own sign and size, so whole-number shocks never share a column |
| ScenarioMatrix.SharedLabels | vega_risk_engine.py:529 | 0.4 and 0.5 share the "+0" column, -0.4 reads "-0", and 1.5, 2.0 and 2.5 share a column |
| ScenarioMatrix.Labels | vega_risk_engine.py:522-529 | one label per shock, in order |
| ScenarioMatrix.CollectSuccess | vega_risk_engine.py:508-531 | a run that raises nothing holds one result per input, in order |
| ScenarioMatrix.CollectFailure | vega_risk_engine.py:508-531 | a run raises exactly when some input does, and then raises the first input's error |
| ScenarioMatrix.CollectStep | vega_risk_engine.py:508-531 | one more iteration of a loop that may raise |
| ScenarioMatrix.CollectFailureExtends | vega_risk_engine.py:508-531 | an error raised early is the error of the whole loop |
| ScenarioMatrix.Shocked | vega_risk_engine.py:523-527 | a column's parameters are the shock as the ATM change, the user's skew and term inputs, and the default volga scale |
| ScenarioMatrix.ShockedReady | vega_risk_engine.py:523-528 | the manual model stays defined for every column |
| ScenarioMatrix.ColumnTotal | vega_risk_engine.py:528-529 | a manual cell fails exactly when the spot move cannot be interpolated |
| ScenarioMatrix.ManualRowSpec | vega_risk_engine.py:520-530 | a manual row fails exactly when there is a shock to price and the move cannot be interpolated |
| ScenarioMatrix.RowSpec | vega_risk_engine.py:508-531 | a row carries its spot move and the mode's shape; it fails exactly when the move cannot be interpolated and something is priced |
| ScenarioMatrix.ComputeScenarioMatrix | vega_risk_engine.py:484-531 | the method (defaults filled in, outer loop appending rows) returns exactly `ScenarioMatrixSpec` |
| ScenarioMatrix.RowAt | vega_risk_engine.py:508-531 | the outer loop body returns exactly `RowSpec` |
| ScenarioMatrix.ColumnTotalAt | vega_risk_engine.py:522-529 | the inner loop body returns exactly `ColumnTotal` |
| ScenarioMatrix.ManualRowStep | vega_risk_engine.py:522-529 | one more inner iteration extends the collected totals and assigns one more labelled column |
| ScenarioMatrix.ManualRowAt | vega_risk_engine.py:520-530 | the inner loop returns exactly `ManualRowSpec` |
| ScenarioMatrix.Rows | vega_risk_engine.py:508-531 | the rows fail exactly when some spot move's row fails. On success there is one row per move, and row k is that move's row |
| ScenarioMatrix.ScenarioMatrixSpec | vega_risk_engine.py:484-531 | with the defaults filled in, a result holds one row per spot move, in order, each with its move and the mode's row shape |
| ScenarioMatrix.RowsShape | vega_risk_engine.py:508-531 | one row per spot move, in order, each with its move and the mode's shape; the matrix fails exactly when some move cannot be interpolated (and, in manual mode, some shock is priced) |
| ScenarioMatrix.BetaRowContent | vega_risk_engine.py:510-514 | a beta row is `compute_pnl`'s total and bucket breakdown at its move, and its bucket columns add up to its total |
| ScenarioMatrix.ManualRowContent | vega_risk_engine.py:520-530 | a manual row has one column per distinct label; a shock's column is the total P&L under that shock unless a later shock shares its label |
| ScenarioMatrix.LabelledColumns | vega_risk_engine.py:522-529 | the same, for any per-shock computation |
| ScenarioMatrix.DefaultLabelsDistinct | vega_risk_engine.py:517-518 | the default shocks -5, -3, -1, 0, 1, 3, 5 get seven distinct columns |
| ScenarioMatrix.DefaultSpotMovesGrid | vega_risk_engine.py:500-501 | the default spot moves are the 31 points -7.5% + k * 0.5% |

## Left out

- `parse_csv` and `load_surfaces`: CSV reading, directory globbing and date parsing are I/O and library calls. A model grid is given as a `VegaGrid` value. Days to expiry come from a `DaysTo` parameter.
- The `"cubic"` interpolation branch: a scipy spline. Only the linear path is modelled, and `compute_pnl`'s `interp_method` argument is dropped. On the clamped range, linear `interp1d` is the bracketing blend.
- `np.exp`, `np.log` and `np.sqrt` are uninterpreted parameters (`Numerics`). Only the clip, floor, cap and sign structure around them is proved, never a numeric value.
- Floating point: rounding, NaN and infinity are not modelled; all arithmetic is on `real`.
- VolModels.ManualVolChange: requires the damping denominator 1 + tm * sqrt(T) to be non-zero. numpy would return an infinity there instead of raising. The requirement is carried up as `ManualDefinedOn`/`ManualReady`.
- ScenarioMatrix.DefaultSpotMoves: the `np.arange` float stepping and `round(s, 4)` are written out as the 31 exact decimals they produce.
- ScenarioMatrix.ComputeScenarioMatrix: returns its rows as `ScenarioRow` values, not a pandas DataFrame. Beta rows keep the bucket breakdown as a dict rather than `pnl_<bucket>` columns.
- ScenarioMatrix.LabelOf: the label is a sign and a rounded size. A negative shock that rounds to zero reads "-0", as Python prints it. The text formatting itself is not modelled.
- ShiftNaming.FinalComponent: models `PurePosixPath.name`. The '.' components that pathlib drops and Windows separators are not modelled.
- ShiftNaming.Lower: folds ASCII letters only. No non-ASCII character lower-cases to a letter of the seven keys, so detection is unaffected.
- `pnl_result_to_dict`: only the moneyness filter is modelled (`PnL.SignificantMoneyness`). The rest copies fields into JSON.
- The `__main__` command-line block, JSON file writing, and the HTTP server in server.py: I/O. server.py is not part of this model.
- `VegaGrid.n_strikes` and `n_expiries` are the lengths of the axes. They carry no contract.
