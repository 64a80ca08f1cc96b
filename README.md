# Vertical-axis labels of a squid chart

The squid gem draws bar and line charts into PDF documents. Along the
chart's vertical axis it prints one numeric label per horizontal gridline,
with the last label on the baseline. This project models how those label
values are computed and proves what the gem's axis-value examples
(`spec/graph/axis_value_spec.rb`) say about them.

The computation works as follows:

1. Collect every present (non-nil) value of every series.
2. With no present value at all, there are no labels.
3. The top of the scale is the largest value, raised to the gridline count
   when it is smaller. The bottom is the smallest value, lowered to zero
   when it is positive.
4. Both ends are rounded to 2 significant digits, each on its own.
5. `gridlines + 1` equally spaced labels run from the rounded top down to
   the rounded bottom. Label `i` belongs on gridline `i`, counting from the
   top.

The gridline count is 4 by default. A chart's own `gridlines:` option
overrides the configured count. A count of zero or below is a configuration error.

Modules:

- `Wrappers` (`wrappers.dfy`): `Option` and `Result`.
- `ChartData` (`chart_data.dfy`): series are sequences of optional
  integers; the module gathers present values and takes maximum and minimum.
- `Rounding` (`rounding.dfy`): rounding to 2 significant digits with
  integer digit counting.
- `AxisValues` (`axis_values.dfy`): the label computation and its
  properties, and how the gridline count is chosen.
- `AxisExamples` (`axis_examples.dfy`): the scenarios of the examples as
  lemmas.

Modelling decisions:

- Data points are `int`, as in every example. Labels are `real`, so
  the step `(top - bottom) / gridlines` is exact.
- The "unit" of a magnitude `n` is the place value of its second
  significant digit. For `n >= 100` it is `10^(floor(log10 n) - 1)`,
  computed by counting decimal digits, not with `log10`, and the result is
  the nearest whole number of units. Below 100 the model uses unit 1. That
  leaves every integer unchanged, just as the formula's unit would.
- Ties (a remainder of exactly half a unit) round away from zero. No
  example has a tie. `RoundSig2Unique` shows that this rule fixes the
  result completely.
- A series holds its values in key order. The keys (years in the examples)
  never affect the label values, so they are not modelled.
  `LabelsDependOnPresentValues` shows that only the set of present values
  matters.
- The library code that computes the labels is not part of this model. The
  model is built from the behaviour the examples assert, plus the design of
  the computation described above. In particular, a gridline count of zero or below
  returns an error from `ChartAxisLabels`. No example covers that case.
- The example title at spec/graph/axis_value_spec.rb:20, which has the
  labels begin at the series maximum, suggests that the top label is at
  least the largest value. With rounding to nearest that is false: the example at
  spec/graph/axis_value_spec.rb:63-69 draws the data 182 as 180
  (`TopLabelBelowMaximum`). The model follows the examples. In its place,
  `LabelEndsClose` proves that each end moves by at most 5% of its
  magnitude.
- With integer data the step between labels is never zero: the rounded top
  is at least 1 and the rounded bottom at most 0, so the labels strictly
  decrease (`LabelsDecreasing`).

## Model

| member | source | states |
|---|---|---|
| `ChartData.PresentValues` | spec/graph/axis_value_spec.rb:71-78 | the values kept from a series are, as a set, exactly its non-nil values, and there are no more of them than entries |
| `ChartData.PresentValuesCounts` | spec/graph/axis_value_spec.rb:71-78 | each non-nil value is kept exactly as often as the series holds it, and no other value is kept |
| `ChartData.AllPresent` | spec/graph/axis_value_spec.rb:71-78 | a value is gathered exactly when some series holds it as a non-nil entry |
| `ChartData.AllPresentOfOne` | spec/graph/axis_value_spec.rb:11-33 | a chart of one series gathers just that series' present values |
| `ChartData.AllPresentEmpty` | spec/graph/axis_value_spec.rb:6-9 | nothing is gathered if and only if no series has a present value |
| `ChartData.Max` | spec/graph/axis_value_spec.rb:20-23 | the series maximum is one of the values and no value exceeds it |
| `ChartData.Min` | spec/graph/axis_value_spec.rb:25-28 | the series minimum is one of the values and no value is below it |
| `Rounding.Digits` | spec/graph/axis_value_spec.rb:63-69 | the digit count d of a positive n satisfies 10^(d-1) <= n < 10^d |
| `Rounding.Unit` | spec/graph/axis_value_spec.rb:63-69 | the unit of the second significant digit is the power of ten 10^UnitExponent(n): 1 below 100, and otherwise p >= 10 with 10p <= n < 100p |
| `Rounding.Remainder` | spec/graph/axis_value_spec.rb:63-69 | the remainder is below the unit and no larger than n, and removing it leaves a whole number of units |
| `Rounding.RoundToMultiple` | spec/graph/axis_value_spec.rb:63-69 | the result is a whole number of units, within half a unit of n, and above n on a tie |
| `Rounding.RoundSig2` | spec/graph/axis_value_spec.rb:63-69 | the result is a whole number of units of x, within half a unit of x, past x on a tie, with the sign of x |
| `Rounding.RoundSig2Unique` | spec/graph/axis_value_spec.rb:63-69 | any value meeting that description is the rounded value, so the description fixes the rounding |
| `Rounding.RoundSig2Fixes` | spec/graph/axis_value_spec.rb:63-69 | rounding leaves x unchanged if and only if x already has at most 2 significant digits |
| `Rounding.SmallHasTwoSignificantDigits` | spec/graph/axis_value_spec.rb:20-28 | integers of magnitude below 100 have at most 2 significant digits |
| `Rounding.RoundSig2HasTwoSignificantDigits` | spec/graph/axis_value_spec.rb:63-69 | every rounded value has at most 2 significant digits, including when 95..99 units round up to the next power of ten |
| `Rounding.RoundSig2Idempotent` | spec/graph/axis_value_spec.rb:63-69 | rounding an already rounded value changes nothing |
| `Rounding.RoundSig2Close` | spec/graph/axis_value_spec.rb:63-69 | rounding moves a value by at most 5% of its magnitude |
| `Rounding.RoundSig2Odd` | spec/graph/axis_value_spec.rb:63-69 | rounding commutes with negation, so negative ends round like positive ones |
| `AxisValues.ScaleTop` | spec/graph/axis_value_spec.rb:55-61 | the unrounded top is at least the gridline count and every value, and is one of them |
| `AxisValues.ScaleBottom` | spec/graph/axis_value_spec.rb:47-53 | the unrounded bottom is at most zero and every value, and is one of them |
| `AxisValues.EvenlySpaced` | spec/graph/axis_value_spec.rb:30-33 | there are gridlines + 1 values, whose shape `EvenlySpacedShape` gives |
| `AxisValues.EvenlySpacedShape` | spec/graph/axis_value_spec.rb:30-33 | the spaced values start at the top, end at the bottom, and each is one step of (top - bottom) / gridlines below the previous one |
| `AxisValues.EvenlySpacedNonIncreasing` | spec/graph/axis_value_spec.rb:30-33 | running down to a bottom no higher than the top, the spaced values never increase |
| `AxisValues.EvenlySpacedDecreasing` | spec/graph/axis_value_spec.rb:30-33 | running down to a bottom strictly below the top, the spaced values strictly decrease |
| `AxisValues.AxisLabels` | spec/graph/axis_value_spec.rb:16-18 | there are gridlines + 1 labels when some value is present and none otherwise |
| `AxisValues.NoDataNoLabels` | spec/graph/axis_value_spec.rb:6-9 | the label list is empty if and only if no series has a present value |
| `AxisValues.LabelEnds` | spec/graph/axis_value_spec.rb:20-28 | the first label is the rounded top of the scale and the last label the rounded bottom |
| `AxisValues.LabelsEquidistant` | spec/graph/axis_value_spec.rb:30-33 | every pair of consecutive labels differs by the same amount as the first two |
| `AxisValues.EquallySpacedLabels` | spec/graph/axis_value_spec.rb:30-33 | evenly spaced values number gridlines + 1, and each consecutive pair differs by the same amount as the first two |
| `AxisValues.LabelsNonIncreasing` | spec/graph/axis_value_spec.rb:30-33 | a label nearer the top is never smaller than one nearer the baseline |
| `AxisValues.LabelsDecreasing` | spec/graph/axis_value_spec.rb:30-33 | labels strictly decrease from top to baseline, so no two labels coincide: the rounded top is at least 1 and the rounded bottom at most 0 |
| `AxisValues.TopLabelIsRoundedMaximum` | spec/graph/axis_value_spec.rb:20-23 | when the maximum reaches the gridline count, the first label is the maximum rounded |
| `AxisValues.TopLabelIsMaximum` | spec/graph/axis_value_spec.rb:20-23 | the first label is the series maximum when that reaches the gridline count and has at most 2 significant digits |
| `AxisValues.TopLabelIsGridlines` | spec/graph/axis_value_spec.rb:55-61 | when every value is below the gridline count and that count has at most 2 significant digits, the first label is the gridline count |
| `AxisValues.BottomLabelIsMinimum` | spec/graph/axis_value_spec.rb:25-28 | the last label is the series minimum when that is at most zero and has at most 2 significant digits |
| `AxisValues.BottomLabelIsZero` | spec/graph/axis_value_spec.rb:47-53 | when every value is positive, the last label is zero |
| `AxisValues.LabelEndsClose` | spec/graph/axis_value_spec.rb:63-69 | the first and last labels are each within 5% of the unrounded top and bottom |
| `AxisValues.LabelsDependOnPresentValues` | spec/graph/axis_value_spec.rb:71-78 | two inputs with the same present values get the same labels, whatever their order, repetition or nil entries |
| `AxisValues.NilEntryIgnored` | spec/graph/axis_value_spec.rb:71-78 | removing a nil entry from a series does not change the labels |
| `AxisValues.ChartAxisLabels` | spec/graph/axis_value_spec.rb:81-92 | with the count `EffectiveGridlines` picks (the option's, else the configured one), there is an error exactly when that count is zero or negative, and otherwise count + 1 labels (none without data) |
| `AxisValues.OptionOverridesConfig` | spec/graph/axis_value_spec.rb:81-84 | a gridline count given to the chart gives the same labels as configuring that count |
| `AxisExamples.NoSeriesNoLabels` | spec/graph/axis_value_spec.rb:6-9 | no series, or a series of nils only, gives no labels |
| `AxisExamples.MixedSignSeries` | spec/graph/axis_value_spec.rb:11-33 | {50, -30, 20} gives exactly 50, 30, 10, -10, -30 |
| `AxisExamples.PositiveSeriesEndsWithZero` | spec/graph/axis_value_spec.rb:47-53 | {50, 30, 20} gives 50, 37.5, 25, 12.5, 0 |
| `AxisExamples.SmallSeriesStartsWithGridlines` | spec/graph/axis_value_spec.rb:55-61 | {1, 2, 2} gives 4, 3, 2, 1, 0 |
| `AxisExamples.RoundedSeries` | spec/graph/axis_value_spec.rb:63-69 | {182, 46, 102} gives exactly 180, 135, 90, 45, 0 |
| `AxisExamples.Round182` | spec/graph/axis_value_spec.rb:63-69 | 182 rounds to 180 at 2 significant digits |
| `AxisExamples.RoundedSeriesValues` | spec/graph/axis_value_spec.rb:63-69 | the series {182, 46, 102} gathers exactly 182, 46, 102, and its maximum is 182 |
| `AxisExamples.TopLabelBelowMaximum` | spec/graph/axis_value_spec.rb:63-69 | for {182, 46, 102} the maximum is 182, yet the first label is 180, below it |
| `AxisExamples.SeriesWithNil` | spec/graph/axis_value_spec.rb:71-78 | {-50, nil, 20} starts at 20, ends at -50, and equals the labels of {-50, 20} |
| `AxisExamples.DefaultGridlinesGiveFiveLabels` | spec/graph/axis_value_spec.rb:16-18 | with the default configuration, any chart with data gets 5 labels |
| `AxisExamples.GridlinesOptionGivesNineLabels` | spec/graph/axis_value_spec.rb:81-84 | the option gridlines: 8 gives 9 labels, whatever is configured |
| `AxisExamples.ConfiguredGridlinesGiveSevenLabels` | spec/graph/axis_value_spec.rb:86-92 | a configured gridline count of 6 gives 7 labels |

## Left out

- Drawing into the PDF and reading the drawn text back are left out. They are rendering and I/O, not the computation.
- The vertical and horizontal text positions of the labels (spec/graph/axis_value_spec.rb:35-45) are left out. They are layout owned by the renderer. The model only fixes that label `i` belongs on gridline `i` from the top.
- The `legend` and `baseline` options are left out. They do not affect the label values.
- Global configuration through `Squid.configure` is left out as mutable state. It is an explicit `Config` value, and a chart's `Options` take precedence over it.
- Formatting labels as strings such as `"180.0"` is left out. The model compares the numeric values.
- Floating-point `log10` and `round` are left out. The model uses exact integer and rational arithmetic, so it has no float rounding effects.
- Fractional data points are not modelled. Every value in the examples is an integer.
- The one-series fixture used with the gridline options (spec/graph/axis_value_spec.rb:82, 88) is defined in the test helpers, which are not part of this model. The label-count lemmas hold for any series with data.
