/**
 * The values printed along a chart's vertical axis, top to bottom.
 *
 * All present values of all series are gathered; the top of the scale is
 * the largest of them but never less than the gridline count, the bottom is
 * the smallest of them but never more than zero. Both ends are rounded to 2
 * significant digits independently, and `gridlines + 1` equally spaced
 * labels run from the rounded top down to the rounded bottom. Label `i`
 * belongs on gridline `i`, counting from the top; the last one sits on the
 * baseline. Without any present value there are no labels.
 */
module AxisValues {
  import opened Wrappers
  import opened ChartData
  import opened Rounding

  /** The gridline count used when neither the chart nor the configuration sets one. */
  const DefaultGridlines: nat := 4

  /** The top of the scale before rounding: the largest value, at least the gridline count. */
  function ScaleTop(values: seq<int>, gridlines: nat): (top: int)
    requires |values| > 0
    ensures top >= gridlines
    ensures forall x :: x in values ==> x <= top
    ensures top == gridlines || top in values
  {
    var m := Max(values);
    if m >= gridlines then m else gridlines
  }

  /** The bottom of the scale before rounding: the smallest value, at most zero. */
  function ScaleBottom(values: seq<int>): (bottom: int)
    requires |values| > 0
    ensures bottom <= 0
    ensures forall x :: x in values ==> bottom <= x
    ensures bottom == 0 || bottom in values
  {
    var m := Min(values);
    if m <= 0 then m else 0
  }

  /**
   * `gridlines + 1` values running from `top` down to `bottom` in equal
   * steps; value `i` belongs on gridline `i`, counting from the top.
   */
  function EvenlySpaced(top: real, bottom: real, gridlines: nat): (values: seq<real>)
    requires gridlines >= 1
    ensures |values| == gridlines + 1
  {
    var step := (top - bottom) / gridlines as real;
    seq(gridlines + 1, i requires 0 <= i <= gridlines => top - i as real * step)
  }

  /** The spaced values start at `top`, end at `bottom`, and are one equal step apart. */
  lemma EvenlySpacedShape(top: real, bottom: real, gridlines: nat)
    requires gridlines >= 1
    ensures var v := EvenlySpaced(top, bottom, gridlines);
      v[0] == top && v[gridlines] == bottom &&
      forall i :: 0 <= i < gridlines ==> v[i] - v[i + 1] == (v[0] - v[gridlines]) / gridlines as real
  {
    var v, g := EvenlySpaced(top, bottom, gridlines), gridlines as real;
    var step := (top - bottom) / g;
    assert g * step == top - bottom;
    assert v[0] == top;
    assert v[gridlines] == top - gridlines as real * step;
    forall i | 0 <= i < gridlines
      ensures v[i] - v[i + 1] == step
    {
      assert v[i] == top - i as real * step;
      assert v[i + 1] == top - (i as real + 1.0) * step;
    }
  }

  /** Going from `top` down to a `bottom` no higher, the spaced values never increase. */
  lemma EvenlySpacedNonIncreasing(top: real, bottom: real, gridlines: nat, i: nat, j: nat)
    requires gridlines >= 1 && bottom <= top
    requires i <= j <= gridlines
    ensures EvenlySpaced(top, bottom, gridlines)[i] >= EvenlySpaced(top, bottom, gridlines)[j]
  {
    var v, step := EvenlySpaced(top, bottom, gridlines), (top - bottom) / gridlines as real;
    assert step >= 0.0;
    assert v[j] - v[i] == - ((j - i) as real * step);
    assert (j - i) as real * step >= 0.0;
  }

  /** Going from `top` down to a strictly lower `bottom`, the spaced values strictly decrease. */
  lemma EvenlySpacedDecreasing(top: real, bottom: real, gridlines: nat, i: nat, j: nat)
    requires gridlines >= 1 && bottom < top
    requires i < j <= gridlines
    ensures EvenlySpaced(top, bottom, gridlines)[i] > EvenlySpaced(top, bottom, gridlines)[j]
  {
    var v, step := EvenlySpaced(top, bottom, gridlines), (top - bottom) / gridlines as real;
    assert step > 0.0;
    assert v[i] - v[j] == (j - i) as real * step;
    assert (j - i) as real * step >= step;
  }

  /** The axis labels for `series` with `gridlines` gridlines, top to bottom. */
  function AxisLabels(series: seq<Series>, gridlines: nat): (labels: seq<real>)
    requires gridlines >= 1
    ensures |labels| == if HasData(series) then gridlines + 1 else 0
  {
    var values := AllPresent(series);
    AllPresentEmpty(series);
    if |values| == 0 then []
    else
      EvenlySpaced(RoundSig2(ScaleTop(values, gridlines)) as real,
                   RoundSig2(ScaleBottom(values)) as real, gridlines)
  }

  // ----- the shape of the label sequence -----

  /** No labels exactly when no series holds a present value. */
  lemma NoDataNoLabels(series: seq<Series>, gridlines: nat)
    requires gridlines >= 1
    ensures AxisLabels(series, gridlines) == [] <==> !HasData(series)
  {
  }

  /**
   * Unfolds `AxisLabels` for a chart with data: the values spaced evenly
   * between the rounded ends of the scale. A proof step, not a property.
   */
  lemma LabelsAreSpacedEnds(series: seq<Series>, gridlines: nat)
    requires gridlines >= 1 && |AllPresent(series)| > 0
    ensures var values := AllPresent(series);
      AxisLabels(series, gridlines)
      == EvenlySpaced(RoundSig2(ScaleTop(values, gridlines)) as real,
                      RoundSig2(ScaleBottom(values)) as real, gridlines)
  {
  }

  /** The first label is the rounded top of the scale and the last the rounded bottom. */
  lemma LabelEnds(series: seq<Series>, gridlines: nat)
    requires gridlines >= 1 && HasData(series)
    ensures AxisLabels(series, gridlines)[0]
         == RoundSig2(ScaleTop(AllPresent(series), gridlines)) as real
    ensures AxisLabels(series, gridlines)[gridlines]
         == RoundSig2(ScaleBottom(AllPresent(series))) as real
  {
    AllPresentEmpty(series);
    LabelsAreSpacedEnds(series, gridlines);
    var values := AllPresent(series);
    EvenlySpacedShape(RoundSig2(ScaleTop(values, gridlines)) as real,
                      RoundSig2(ScaleBottom(values)) as real, gridlines);
  }

  /** Consecutive labels are all the same distance apart. */
  lemma LabelsEquidistant(series: seq<Series>, gridlines: nat)
    requires gridlines >= 1 && HasData(series)
    ensures var labels := AxisLabels(series, gridlines);
      forall i :: 0 <= i < gridlines ==> labels[i] - labels[i + 1] == labels[0] - labels[1]
  {
    AllPresentEmpty(series);
    LabelsAreSpacedEnds(series, gridlines);
    var values := AllPresent(series);
    var top := RoundSig2(ScaleTop(values, gridlines)) as real;
    var bottom := RoundSig2(ScaleBottom(values)) as real;
    EquallySpacedLabels(AxisLabels(series, gridlines), top, bottom, gridlines);
  }

  /** Any sequence that is `EvenlySpaced` has one common difference between neighbours. */
  lemma EquallySpacedLabels(labels: seq<real>, top: real, bottom: real, gridlines: nat)
    requires gridlines >= 1 && labels == EvenlySpaced(top, bottom, gridlines)
    ensures |labels| == gridlines + 1
    ensures forall i :: 0 <= i < gridlines ==> labels[i] - labels[i + 1] == labels[0] - labels[1]
  {
    EvenlySpacedShape(top, bottom, gridlines);
  }

  /** The labels never increase from top to bottom. */
  lemma LabelsNonIncreasing(series: seq<Series>, gridlines: nat, i: nat, j: nat)
    requires gridlines >= 1 && HasData(series)
    requires i <= j <= gridlines
    ensures AxisLabels(series, gridlines)[i] >= AxisLabels(series, gridlines)[j]
  {
    AllPresentEmpty(series);
    LabelsAreSpacedEnds(series, gridlines);
    var values := AllPresent(series);
    var top, bottom := ScaleTop(values, gridlines), ScaleBottom(values);
    assert RoundSig2(bottom) <= 0 <= RoundSig2(top);
    EvenlySpacedNonIncreasing(RoundSig2(top) as real, RoundSig2(bottom) as real, gridlines, i, j);
  }

  /**
   * The labels strictly decrease from top to bottom: the rounded top is at
   * least 1 and the rounded bottom at most 0, so no two labels are equal.
   */
  lemma LabelsDecreasing(series: seq<Series>, gridlines: nat, i: nat, j: nat)
    requires gridlines >= 1 && HasData(series)
    requires i < j <= gridlines
    ensures AxisLabels(series, gridlines)[i] > AxisLabels(series, gridlines)[j]
  {
    AllPresentEmpty(series);
    LabelsAreSpacedEnds(series, gridlines);
    var values := AllPresent(series);
    var top, bottom := ScaleTop(values, gridlines), ScaleBottom(values);
    RoundSig2Close(top);
    assert RoundSig2(bottom) <= 0 < RoundSig2(top);
    EvenlySpacedDecreasing(RoundSig2(top) as real, RoundSig2(bottom) as real, gridlines, i, j);
  }

  // ----- the ends of the scale -----

  /** When the largest value reaches the gridline count, the top label is that value rounded. */
  lemma TopLabelIsRoundedMaximum(series: seq<Series>, gridlines: nat)
    requires gridlines >= 1 && HasData(series)
    requires Max(AllPresent(series)) >= gridlines
    ensures AxisLabels(series, gridlines)[0] == RoundSig2(Max(AllPresent(series))) as real
  {
    LabelEnds(series, gridlines);
  }

  /** The top label is the largest value when that has at most 2 significant digits and reaches the gridline count. */
  lemma TopLabelIsMaximum(series: seq<Series>, gridlines: nat)
    requires gridlines >= 1 && HasData(series)
    requires Max(AllPresent(series)) >= gridlines
    requires HasTwoSignificantDigits(Max(AllPresent(series)))
    ensures AxisLabels(series, gridlines)[0] == Max(AllPresent(series)) as real
  {
    TopLabelIsRoundedMaximum(series, gridlines);
    RoundSig2Fixes(Max(AllPresent(series)));
  }

  /** When every value is below the gridline count, the top label is the gridline count (with at most 2 significant digits). */
  lemma TopLabelIsGridlines(series: seq<Series>, gridlines: nat)
    requires gridlines >= 1 && HasData(series)
    requires Max(AllPresent(series)) < gridlines
    requires HasTwoSignificantDigits(gridlines)
    ensures AxisLabels(series, gridlines)[0] == gridlines as real
  {
    LabelEnds(series, gridlines);
    RoundSig2Fixes(gridlines);
  }

  /** The bottom label is the smallest value when that is at most zero and has at most 2 significant digits. */
  lemma BottomLabelIsMinimum(series: seq<Series>, gridlines: nat)
    requires gridlines >= 1 && HasData(series)
    requires Min(AllPresent(series)) <= 0
    requires HasTwoSignificantDigits(Min(AllPresent(series)))
    ensures AxisLabels(series, gridlines)[gridlines] == Min(AllPresent(series)) as real
  {
    LabelEnds(series, gridlines);
    RoundSig2Fixes(Min(AllPresent(series)));
  }

  /** When every value is positive, the bottom label is zero. */
  lemma BottomLabelIsZero(series: seq<Series>, gridlines: nat)
    requires gridlines >= 1 && HasData(series)
    requires Min(AllPresent(series)) > 0
    ensures AxisLabels(series, gridlines)[gridlines] == 0.0
  {
    LabelEnds(series, gridlines);
  }

  /**
   * Rounding moves each end of the scale by at most 5% of its magnitude.
   * The top label can therefore sit slightly below the largest value
   * (182 gives 180) and the bottom label slightly above the smallest.
   */
  lemma LabelEndsClose(series: seq<Series>, gridlines: nat)
    requires gridlines >= 1 && HasData(series)
    ensures var labels, values := AxisLabels(series, gridlines), AllPresent(series);
      var top, bottom := ScaleTop(values, gridlines), ScaleBottom(values);
      20.0 * (top as real - labels[0]) <= top as real &&
      20.0 * (labels[0] - top as real) <= top as real &&
      20.0 * (labels[gridlines] - bottom as real) <= -bottom as real &&
      20.0 * (bottom as real - labels[gridlines]) <= -bottom as real
  {
    LabelEnds(series, gridlines);
    AllPresentEmpty(series);
    var values := AllPresent(series);
    RoundSig2Close(ScaleTop(values, gridlines));
    RoundSig2Close(ScaleBottom(values));
  }

  // ----- what the labels depend on -----

  /** The labels depend only on which values are present, not on their order, repetition or missing entries. */
  lemma LabelsDependOnPresentValues(a: seq<Series>, b: seq<Series>, gridlines: nat)
    requires gridlines >= 1
    requires forall x :: x in AllPresent(a) <==> x in AllPresent(b)
    ensures AxisLabels(a, gridlines) == AxisLabels(b, gridlines)
  {
    var va, vb := AllPresent(a), AllPresent(b);
    if |vb| > 0 {
      var y := vb[0];
      assert y in vb;
    }
    if |va| > 0 {
      var x := va[0];
      assert x in va;
      MaxOfSameElements(va, vb);
      MinOfSameElements(va, vb);
    }
  }

  /** A nil entry counts for nothing: the labels are the same as with that entry removed. */
  lemma NilEntryIgnored(series: seq<Series>, j: nat, k: nat, gridlines: nat)
    requires gridlines >= 1
    requires j < |series| && k < |series[j]| && series[j][k] == None
    ensures AxisLabels(series[j := series[j][..k] + series[j][k + 1..]], gridlines)
         == AxisLabels(series, gridlines)
  {
    var s := series[j];
    var s' := s[..k] + s[k + 1..];
    assert s == s[..k] + [None] + s[k + 1..];
    var series' := series[j := s'];
    forall x
      ensures x in AllPresent(series') <==> x in AllPresent(series)
    {
      assert Some(x) in s' <==> Some(x) in s;
      assert forall i :: 0 <= i < |series| ==> (Some(x) in series'[i] <==> Some(x) in series[i]);
    }
    LabelsDependOnPresentValues(series', series, gridlines);
  }

  // ----- choosing the gridline count -----

  /** The process-wide configuration: the gridline count to use by default. */
  datatype Config = Config(gridlines: int)

  /** The configuration before anything is set. */
  const DefaultConfig := Config(DefaultGridlines)

  /** Options given to one chart; a gridline count here wins over the configuration. */
  datatype Options = Options(gridlines: Option<int>)

  datatype AxisError = NonPositiveGridlines

  /** The gridline count a chart uses: its own option if given, else the configured one. */
  function EffectiveGridlines(options: Options, config: Config): int {
    match options.gridlines
    case Some(g) => g
    case None => config.gridlines
  }

  /**
   * The axis labels of one chart, with the gridline count taken from its
   * options or the configuration; a gridline count of zero or below is a
   * configuration error.
   */
  function ChartAxisLabels(series: seq<Series>, options: Options, config: Config)
    : (r: Result<seq<real>, AxisError>)
    ensures r.Failure? <==> EffectiveGridlines(options, config) <= 0
    ensures r.Success? ==>
      |r.value| == if HasData(series) then EffectiveGridlines(options, config) + 1 else 0
  {
    var g := EffectiveGridlines(options, config);
    if g <= 0 then Failure(NonPositiveGridlines) else Success(AxisLabels(series, g))
  }

  /** A per-chart gridline count overrides whatever is configured. */
  lemma OptionOverridesConfig(series: seq<Series>, g: int, config: Config)
    ensures ChartAxisLabels(series, Options(Some(g)), config)
         == ChartAxisLabels(series, Options(None), Config(g))
  {
  }
}
