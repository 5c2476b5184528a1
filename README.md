# scilib series statistics and spherical coordinates, in Dafny

This project models two independent pieces of the scilib Rust library:

- **`Series`** (`series.dfy`) — the statistics over a slice of numbers in `src/math/series.rs`:
  `max_slice` and `min_slice` (scans that keep a running best and replace it only on a strict
  comparison), `mean` (a left-fold sum divided by the length), the population variance that
  `std_dev` takes the square root of, and `scale_min_max` (an affine map of every element driven
  by the slice's minimum and maximum).
- **`SphericalCoordinates`** (`spherical.dfy`) — the `Spherical` value type of
  `src/coordinate/spherical.rs` (radius `r`, angles `theta` and `phi`): `new`, `from`, scalar
  `*`, `/`, unary `-`, and the in-place `*=` and `/=`.

`f64` is modelled as Dafny's `real`, so every sum, quotient and scaling is exact.

The two scans are methods with `for` loops, as in the source. The Rust reference `current_max`
into the slice is modelled as a position `at`. Each method is proved against a recursive
specification function (`MaxIndex`, `MinIndex`) that performs the same left-to-right scan. Both
prove that the result is an element, that it bounds every element, and that it sits at the first
position holding that value, because the scan moves only on a strict `>` or `<`.

`mean`, the variance and `scale_min_max` are pure folds and maps in the source, so they are
functions here. `scale_min_max` follows the formula the code computes at
`src/math/series.rs:158`: `a + (x - min) * (b - a) / (max - min)`. The documentation at line
130 brackets it differently; see "## Findings".

`Spherical` is a datatype, and `Mul`, `Div` and `Neg` are functions. `*=` and `/=` change the
receiver in place, so they are methods of a small class `SphericalCell` that holds the three fields.
Their frame is `this`r`, so they can change nothing but `r`. The method `AssignExamples` uses
the class as a caller would: it replays the documented `*=` and `/=` examples and shows that `*=`
followed by `/=` with the same nonzero scalar restores the value held.

The code reports no errors. `max_slice`, `min_slice` and `scale_min_max` (through `max_slice`,
`src/math/series.rs:152`) panic on an empty slice when they read `val[0]`
(`src/math/series.rs:29`, `src/math/series.rs:60`). `mean` and `std_dev` return NaN on an empty
slice, because they divide `0.0` by `0.0`. `scale_min_max` and `/` divide without a guard. The
model makes these cases preconditions (see "## Left out").

## Model

| member | source | states |
|---|---|---|
| Series.MaxIndex | src/math/series.rs:29-37 | the position the `>` scan settles on is in range, holds a value no element exceeds, and every earlier element is strictly smaller (first occurrence of the maximum) |
| Series.MinIndex | src/math/series.rs:60-68 | the position the `<` scan settles on is in range, holds a value no element is below, and every earlier element is strictly larger (first occurrence of the minimum) |
| Series.Max | src/math/series.rs:26-38 | the maximum of a non-empty series is one of its elements and no element is greater |
| Series.Min | src/math/series.rs:57-69 | the minimum of a non-empty series is one of its elements and no element is smaller |
| Series.MaxSlice | src/math/series.rs:26-38 | `max_slice` needs a non-empty slice; it returns the element at the position its candidate points to, no element is greater, every earlier element is strictly smaller, and the result is `Max` at `MaxIndex` |
| Series.MinSlice | src/math/series.rs:57-69 | `min_slice` needs a non-empty slice; it returns the element at the position its candidate points to, no element is smaller, every earlier element is strictly larger, and the result is `Min` at `MinIndex` |
| Series.MaxExample | src/math/series.rs:22-24 | the maximum of `[0.0, 1.2, -0.1, 5.2, 0.254, 2.8]` is 5.2 |
| Series.MinExample | src/math/series.rs:53-55 | the minimum of the same series is -0.1 |
| Series.Sum | src/math/series.rs:94 | the left fold that adds each element to a running sum starting at 0.0; its properties are carried by `SumBounds` and `SumConstant` |
| Series.Mean | src/math/series.rs:92-95 | `mean`: the left-fold sum over the length, for a non-empty series; its properties are carried by `MeanBetweenMinMax`, `MeanOfConstant` and `MeanExample` |
| Series.SumBounds | src/math/series.rs:94 | the left-fold sum of n terms that each lie in [lo, hi] lies in [n * lo, n * hi] |
| Series.SumConstant | src/math/series.rs:94 | the left-fold sum of n copies of c is n * c |
| Series.MeanBetweenMinMax | src/math/series.rs:92-95 | the mean (sum over length) lies between the minimum and the maximum |
| Series.MeanOfConstant | src/math/series.rs:92-95 | the mean of a series whose elements all equal c is c |
| Series.MeanExample | src/math/series.rs:88-90 | the mean of 0, 1, 2, 3, 4, 5 is 2.5 |
| Series.SquaredDeviations | src/math/series.rs:122 | the left fold of `(v - m)^2` from 0.0, with `powi(2)` as `x * x`; its properties are carried by `SquaredDeviationsZero` |
| Series.Variance | src/math/series.rs:119-123 | the quantity under the square root of `std_dev`: the squared deviations from the mean over the length; its properties are carried by `VarianceNonNegative`, `VarianceZeroIffAllMean` and `VarianceZeroIffConstant` |
| Series.SquaredDeviationsZero | src/math/series.rs:122 | the fold of squared deviations from m is never negative, and is zero exactly when every element equals m |
| Series.VarianceNonNegative | src/math/series.rs:119-123 | the quantity under the square root of `std_dev` is never negative |
| Series.VarianceZeroIffAllMean | src/math/series.rs:119-123 | that quantity is zero exactly when every element equals the mean |
| Series.VarianceZeroIffConstant | src/math/series.rs:119-123 | that quantity is zero exactly when all elements are equal to each other |
| Series.ScaleMinMax | src/math/series.rs:150-160 | for a non-empty, non-constant series the result has the input's length, and element i is `val[i]` rescaled by the series' own minimum and maximum |
| Series.Rescale | src/math/series.rs:158 | the closure of `scale_min_max`, `a + (x - min) * (b - a) / (max - min)`; its properties are carried by the `Rescale*` lemmas below |
| Series.RescaleAsFraction | src/math/series.rs:158 | the scaled value is a + t * (b - a), where t is the input's relative position between min and max |
| Series.RescaleEnds | src/math/series.rs:158 | the formula maps min to a and max to b |
| Series.RescaleBetween | src/math/series.rs:158 | an input between min and max is mapped into the closed interval between a and b |
| Series.RescaleOrder | src/math/series.rs:158 | the formula keeps the order of two inputs when a <= b and reverses it when b <= a |
| Series.RescaleInverse | src/math/series.rs:158 | when a != b, the inverse affine map `Unscale` gives back the input |
| Series.RescaleSameRange | src/math/series.rs:158 | rescaling from [a, b] onto [a, b] is the identity; from [b, a] onto [a, b] it is the reflection y to a + b - y |
| Series.ScaleMinMaxEnds | src/math/series.rs:150-160 | the first minimum element becomes a, the first maximum element becomes b, and every output lies between a and b |
| Series.ScaleMinMaxOrder | src/math/series.rs:150-160 | two elements keep their order in the output when a <= b, and swap it when b <= a |
| Series.ScaleMinMaxInverse | src/math/series.rs:150-160 | when a != b, every input element is recovered from its output by the inverse affine map |
| Series.ScaledMinMax | src/math/series.rs:150-160 | the minimum and maximum of the output are the smaller and the larger of a and b |
| Series.ScaleMinMaxIdempotent | src/math/series.rs:150-160 | scaling an already scaled series again with the same a < b returns it unchanged |
| Series.ScaleMinMaxTwiceReflects | src/math/series.rs:150-160 | with b < a, scaling twice does not return the once-scaled series: every value y becomes a + b - y |
| Series.ScaleMinMaxExample | src/math/series.rs:144-148 | seven evenly spaced points from 1 to 6, scaled to a = 2 and b = -1, give 2 first, 0.5 in the middle and -1 last |
| Series.DocRescale | src/math/series.rs:130 | the documented formula `(a + (x - min)(b - a)) / (max - min)` as written; `DocRescaleMissesA` shows where it departs from the code |
| Series.DocRescaleMissesA | src/math/series.rs:130 | the documented formula sends the minimum 1 to 0.4 on the documented example, where the code sends it to 2 |
| SphericalCoordinates.Default | src/coordinate/spherical.rs:29 | the derived default value, all three fields 0.0; `New` is proved equal to it |
| SphericalCoordinates.New | src/coordinate/spherical.rs:63-65 | `new()` has all three fields 0 and equals the default value |
| SphericalCoordinates.From | src/coordinate/spherical.rs:78-85 | `from(r, theta, phi)` stores each argument unchanged in its field |
| SphericalCoordinates.Mul | src/coordinate/spherical.rs:102-111 | `s * k` has radius `s.r * k` and the angles of `s` |
| SphericalCoordinates.Div | src/coordinate/spherical.rs:143-152 | `s / k`, for k != 0, has radius `s.r / k` and the angles of `s` |
| SphericalCoordinates.Neg | src/coordinate/spherical.rs:172-177 | `-s` is `s * -1`: the radius is negated and the angles are unchanged |
| SphericalCoordinates.MulThenDiv | src/coordinate/spherical.rs:102-152 | `(s * k) / k == s` for every nonzero k |
| SphericalCoordinates.DivThenMul | src/coordinate/spherical.rs:102-152 | `(s / k) * k == s` for every nonzero k |
| SphericalCoordinates.MulTwice | src/coordinate/spherical.rs:102-111 | `(s * k1) * k2 == s * (k1 * k2)` |
| SphericalCoordinates.NegInvolutive | src/coordinate/spherical.rs:172-177 | `-(-s) == s` |
| SphericalCoordinates.NegFixedIffZeroRadius | src/coordinate/spherical.rs:172-177 | a point equals its negation exactly when r = 0 |
| SphericalCoordinates.DocExamples | src/coordinate/spherical.rs:54-141 | the documented examples of `new`, `from`, `*` and `/` hold, and `-(1, 0.2, 2.1) == (-1, 0.2, 2.1)` |
| SphericalCoordinates.SphericalCell.MulAssign | src/coordinate/spherical.rs:125-129 | `s *= k` changes only `r`, to `old(r) * k`, and leaves the value `s * k` |
| SphericalCoordinates.SphericalCell.DivAssign | src/coordinate/spherical.rs:166-170 | `s /= k`, for k != 0, changes only `r`, to `old(r) / k`, and leaves the value `s / k` |
| SphericalCoordinates.AssignExamples | src/coordinate/spherical.rs:117-165 | a caller's view of `SphericalCell`: the documented `s *= 2` and `s /= 2` examples hold, and `*=` then `/=` by the same nonzero k restores the value held |

## Left out

- IEEE-754 behaviour: rounding, NaN, infinities, and the partial order of `PartialOrd` once NaN is present. All values are `real`, which are exact and totally ordered.
- Series.MaxSlice: the source is generic over any `PartialOrd + Copy` element type; the model fixes the element type to `real`.
- Series.MinSlice: the same generic-type restriction as `max_slice`.
- Series.Mean: requires a non-empty series; on an empty slice the source returns NaN (0.0 / 0.0), which is IEEE behaviour that is not modelled.
- Series.Variance: only the quantity under the square root of `std_dev` is modelled; the `sqrt`, `powi` as a library call (modelled as `x * x`) and the example's `1e-10` tolerance are floating-point behaviour.
- Series.ScaleMinMax: requires max != min; on a constant series the source divides 0 by 0 and returns NaN elements, which is not modelled.
- SphericalCoordinates.Div: requires k != 0; the source divides without a guard and yields an infinite or NaN radius, which is not modelled.
- SphericalCoordinates.SphericalCell.DivAssign: the same k != 0 requirement as `Div`.
- The `Display` implementation of `Spherical` (float-to-text formatting is library behaviour).
- The generic `Into<f64>` conversions of `from`, `*` and `/`: the model takes `real` arguments.
- `Add`, `Sub`, `AddAssign` and `SubAssign` are imported in `spherical.rs` but never implemented, so there is nothing to model.
- `range::linear`, which the documentation examples use, is not part of this model; the example series are written out literally.

## Findings

| source | as written | input that shows it | evidently intended | confidence | as-written member | corrected member |
|---|---|---|---|---|---|---|
| src/math/series.rs:130 | the documented formula divides the whole of `a + (x - min)(b - a)` by `max - min` | min 1, max 6, a = 2, b = -1, x = 1: the formula gives 0.4, but the example at line 146 expects 2.0 | `a + (x - min)(b - a) / (max - min)`, which is what line 158 computes and what the example expects | high (not executed) | Series.DocRescaleMissesA | Series.ScaleMinMaxEnds |
