# Accuracy metrics for angular self-motion predictions

A Dafny model of `acc.py`, the module that scores a network's self-motion
predictions against ground truth. It covers these pieces:

- `_bring_preds_within_range` reflects out-of-range angle predictions back towards [-180, 180].
- `_circ_error_diff` folds differences larger than 180 degrees in magnitude.
- `circ_error` composes the two helpers.
- `mse` and `mae` return, per column, the mean over rows of the squared or absolute difference. Each takes an optional circular correction.

All values are exact `real`s in degrees. The two helpers overwrite masked
elements of a 2-D array. They are modelled as methods over `array2<real>`, with
one nested loop per masked assignment: `MaskAbove` for `x > 180 -> 360 - x` and
`MaskBelow` for `x < -180 -> -360 - x`. The second pass sees what the first
wrote, which is how numpy executes the two lines. Line 18 writes the first
update as `180 + (180 - x)`. Over exact reals this is `360 - x`, so both helpers
apply the same element map, `Fold`. `circ_error`, `mse` and `mae` are pure. They
are modelled as functions over a sequence of rows (`Matrix`). Each method's
contract ties its array to the pure model through `Rows`.

The comment at acc.py:24 says "wrap around", but the code does not compute the
modular wrap `((d + 180) mod 360) - 180` (`Wrap` in the model):

- It reflects values above 180 and then values below -180.
- On [-360, 360] the magnitude of the result equals the modular wrap's, min(|d|, 360 - |d|). The sign may differ: 359 folds to 1, where the wrap gives -1.
- A prediction above 540 is reflected twice (600 -> -240 -> -120). One below -540 is reflected only once (-600 -> 240). So predictions land in [-180, 180] exactly when they lie in [-540, 900].
- The code applies circular correction to every column whenever `circ_correction=True`, whether or not the column is an angle; so does the model.

## Model

| member | source | states |
|---|---|---|
| `Acc.FoldAbove` | acc.py:25 | after the update for values above 180, the value is at most 180; it is unchanged exactly when it was at most 180 |
| `Acc.FoldBelow` | acc.py:26 | after the update for values below -180, the value is at least -180; it is unchanged exactly when it was at least -180 |
| `Acc.Fold` | acc.py:23-27 | the composed element map fixes exactly the values in [-180, 180]; it maps [-540, 540] into [-180, 180]; on [-360, 360] its magnitude is min(abs(d), 360 - abs(d)) |
| `Acc.FoldOneReflection` | acc.py:17-20 | a prediction p in (180, 540] becomes 360 - p, in [-180, 180); p in [-540, -180) becomes -360 - p, in (-180, 180] |
| `Acc.FoldSequenced` | acc.py:18-20 | the second update sees the first: p > 540 is pushed below -180 and ends at p - 720 (600 -> -240 -> -120); p < -180 is reflected once (-600 -> 240) |
| `Acc.FoldInRangeExactly` | acc.py:17-20 | a prediction ends in [-180, 180] if and only if it lies in [-540, 900] |
| `Acc.Wrap` | acc.py:24 | the modular wrap that the comment names always lies in [-180, 180) |
| `Acc.FoldMagnitudeIsWrapMagnitude` | acc.py:23-27 | on [-360, 360] the fold equals the modular wrap or its negation, so both have the same magnitude |
| `Acc.FoldIsReflectionNotWrap` | acc.py:24-26 | on [-360, 360] the result is d, 360 - d or -360 - d; 359 folds to 1 where the modular wrap gives -1, and -1 stays -1 under both; 10 - 350 folds to -20 |
| `Acc.MaskAbove` | acc.py:18 | every element of the array is replaced by its image under the update for values above 180, in place |
| `Acc.MaskBelow` | acc.py:20 | every element of the array is replaced by its image under the update for values below -180, in place |
| `Acc.BringPredsWithinRange` | acc.py:15-21 | returns a fresh array of the same shape whose entries are the folded predictions; the caller's array is unchanged |
| `Acc.CircErrorDiff` | acc.py:23-27 | folds every element of `diff` in place and returns the same array |
| `Acc.Subtract` | acc.py:31 | the plain difference has the input's shape, and entry (i, k) is pred[i][k] - truth[i][k] |
| `Acc.CircError` | acc.py:9-13 | same shape as the input; entry (i, k) depends only on pred[i][k] and truth[i][k]: it is the folded difference of the folded prediction and the truth |
| `Acc.Difference` | acc.py:30-33 | same shape as the input; without circular correction, entry (i, k) is exactly pred[i][k] - truth[i][k] |
| `Acc.MeanAxis0` | acc.py:35 | one value per column; each value times the row count is that column's sum |
| `Acc.Mse` | acc.py:29-35 | one value per column, each non-negative |
| `Acc.Mae` | acc.py:38-44 | one value per column, each non-negative |
| `Acc.MeanNonNegative` | acc.py:44 | column means of non-negative entries are non-negative |
| `Acc.MeanAtMost` | acc.py:35 | column means of entries bounded by b are at most b |
| `Acc.MeanOfZeros` | acc.py:35 | column means of an all-zero array are zero |
| `Acc.CircErrorBounded` | acc.py:9-13 | with truth in [-180, 180] and predictions in [-540, 540], every entry of the circular error has magnitude at most 180; that magnitude is the shorter way round between the reflected prediction and the truth |
| `Acc.CircMetricsBounded` | acc.py:29-44 | under the same ranges, each column of mae with circular correction is at most 180, and each column of mse is at most 180 squared |
| `Acc.CircCorrectionInertInRange` | acc.py:29-44 | when predictions lie in [-180, 180] and no difference exceeds 180 in magnitude, mse and mae are the same with and without circular correction |
| `Acc.PerfectPredictionScoresZero` | acc.py:29-44 | if the predictions equal the truth and lie in [-180, 180], every column of mae and mse is zero, with or without circular correction |

## Left out

- Acc.Mse, Acc.Mae: their own contracts state only the shape and non-negativity; the bounds, the zero case and the effect of circular correction are stated by the lemmas about them.
- Floating-point rounding: arithmetic is over exact reals. So `180 + (180 - x)` and `360 - x` are the same value here.
- `np.mean` over zero rows, which yields NaN: the metrics require at least one row.
- Broadcasting and shape mismatches between predictions and truth: equal shape is a precondition.
- The array dtype and numpy's copy/view semantics beyond the one copy made by `_bring_preds_within_range`.
- The metrics are modelled on sequences of rows, not on arrays: the pure model does not capture in-place update or aliasing. The only in-place operations in the module are the two helpers, and those are modelled on arrays.
- losses.py (`CircularLoss`, `MSE`) and weight_initializers.py (`GlorotUniformNonNegative`) are left out. They are framework subclasses built on cosine, square roots, random sampling and framework reductions.
- Label normalisation and denormalisation, dataset loading, shuffling and splitting, model inference and display are not part of this model. They are I/O or framework calls and are not in acc.py.
