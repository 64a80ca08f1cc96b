/** The scenarios the chart's axis-value examples describe, stated on the model. */
module AxisExamples {
  import opened Wrappers
  import opened ChartData
  import opened Rounding
  import opened AxisValues

  /** Without any series there is no axis label. */
  lemma NoSeriesNoLabels()
    ensures AxisLabels([], DefaultGridlines) == []
    ensures AxisLabels([[None, None]], DefaultGridlines) == []
  {
    NoDataNoLabels([[None, None]], DefaultGridlines);
  }

  /** {2013 => 50, 2014 => -30, 2015 => 20}: five labels from the maximum down to the minimum. */
  lemma MixedSignSeries()
    ensures AxisLabels([[Some(50), Some(-30), Some(20)]], DefaultGridlines)
         == [50.0, 30.0, 10.0, -10.0, -30.0]
  {
    var values := [50, -30, 20];
    ThreePresent(50, -30, 20);
    ThreeExtremes(50, -30, 20);
    OneSeriesLabels([Some(50), Some(-30), Some(20)], values, 50, -30);
  }

  /** {2013 => 50, 2014 => 30, 2015 => 20}: all values positive, so the last label is zero. */
  lemma PositiveSeriesEndsWithZero()
    ensures AxisLabels([[Some(50), Some(30), Some(20)]], DefaultGridlines)
         == [50.0, 37.5, 25.0, 12.5, 0.0]
  {
    var values := [50, 30, 20];
    ThreePresent(50, 30, 20);
    ThreeExtremes(50, 30, 20);
    OneSeriesLabels([Some(50), Some(30), Some(20)], values, 50, 0);
  }

  /** {2013 => 1, 2014 => 2, 2015 => 2}: the maximum is below 4 gridlines, so the first label is 4. */
  lemma SmallSeriesStartsWithGridlines()
    ensures AxisLabels([[Some(1), Some(2), Some(2)]], DefaultGridlines)
         == [4.0, 3.0, 2.0, 1.0, 0.0]
  {
    var values := [1, 2, 2];
    ThreePresent(1, 2, 2);
    ThreeExtremes(1, 2, 2);
    OneSeriesLabels([Some(1), Some(2), Some(2)], values, 4, 0);
  }

  /** {2013 => 182, 2014 => 46, 2015 => 102}: the top 182 is rounded to 180 before spacing. */
  lemma RoundedSeries()
    ensures AxisLabels([[Some(182), Some(46), Some(102)]], DefaultGridlines)
         == [180.0, 135.0, 90.0, 45.0, 0.0]
  {
    var values := [182, 46, 102];
    ThreePresent(182, 46, 102);
    ThreeExtremes(182, 46, 102);
    Round182();
    OneSeriesLabels([Some(182), Some(46), Some(102)], values, 180, 0);
  }

  /** 182 rounds to 180: its unit is 10 and 180 is the nearest multiple. */
  lemma Round182()
    ensures RoundSig2(182) == 180
  {
    Pow10Step(1);
    UnitExponentUnique(182, 1);
    ScaledIsMultiple(18, 10);
    RoundSig2Unique(182, 180);
  }

  /** {2013 => -50, 2014 => nil, 2015 => 20}: the nil is ignored for both ends. */
  lemma SeriesWithNil()
    ensures var labels := AxisLabels([[Some(-50), None, Some(20)]], DefaultGridlines);
      |labels| == 5 && labels[0] == 20.0 && labels[4] == -50.0
    ensures AxisLabels([[Some(-50), None, Some(20)]], DefaultGridlines)
         == AxisLabels([[Some(-50), Some(20)]], DefaultGridlines)
  {
    var values := [-50, 20];
    assert PresentValues([Some(-50), None, Some(20)]) == values;
    assert PresentValues([Some(-50), Some(20)]) == values;
    assert Max(values) == 20 && Min(values) == -50;
    OneSeriesLabels([Some(-50), None, Some(20)], values, 20, -50);
    OneSeriesLabels([Some(-50), Some(20)], values, 20, -50);
  }

  /** The labels of a single series with 4 gridlines, once its present values and rounded ends are known. */
  lemma OneSeriesLabels(s: Series, values: seq<int>, top: int, bottom: int)
    requires PresentValues(s) == values && |values| > 0
    requires RoundSig2(ScaleTop(values, 4)) == top
    requires RoundSig2(ScaleBottom(values)) == bottom
    ensures var q := (top - bottom) as real / 4.0;
      AxisLabels([s], DefaultGridlines)
      == [top as real, top as real - q, top as real - 2.0 * q, top as real - 3.0 * q, bottom as real]
  {
    AllPresentOfOne(s);
    LabelsAreSpacedEnds([s], DefaultGridlines);
    SpacedByFour(top as real, bottom as real);
  }

  /** Four gridlines split the range into quarters. */
  lemma SpacedByFour(top: real, bottom: real)
    ensures var q := (top - bottom) / 4.0;
      EvenlySpaced(top, bottom, 4) == [top, top - q, top - 2.0 * q, top - 3.0 * q, bottom]
  {
    var v, q := EvenlySpaced(top, bottom, 4), (top - bottom) / 4.0;
    EvenlySpacedShape(top, bottom, 4);
    assert v[1] == top - q && v[2] == top - 2.0 * q && v[3] == top - 3.0 * q;
  }

  /** The default configuration gives five labels to any chart with data. */
  lemma DefaultGridlinesGiveFiveLabels(series: seq<Series>)
    requires HasData(series)
    ensures var r := ChartAxisLabels(series, Options(None), DefaultConfig);
      r.Success? && |r.value| == 5
  {
  }

  /** The :gridlines option set to 8 gives nine labels, whatever is configured. */
  lemma GridlinesOptionGivesNineLabels(series: seq<Series>, config: Config)
    requires HasData(series)
    ensures var r := ChartAxisLabels(series, Options(Some(8)), config);
      r.Success? && |r.value| == 9
  {
  }

  /** A configured gridline count of 6 gives seven labels. */
  lemma ConfiguredGridlinesGiveSevenLabels(series: seq<Series>)
    requires HasData(series)
    ensures var r := ChartAxisLabels(series, Options(None), Config(6));
      r.Success? && |r.value| == 7
  {
  }

  /** The present values of {2013 => 182, 2014 => 46, 2015 => 102}, and their maximum. */
  lemma RoundedSeriesValues()
    ensures AllPresent([[Some(182), Some(46), Some(102)]]) == [182, 46, 102]
    ensures Max([182, 46, 102]) == 182
  {
    ThreePresent(182, 46, 102);
    AllPresentOfOne([Some(182), Some(46), Some(102)]);
    ThreeExtremes(182, 46, 102);
  }

  /** A series of three present values has exactly those values, in order. */
  lemma ThreePresent(a: int, b: int, c: int)
    ensures PresentValues([Some(a), Some(b), Some(c)]) == [a, b, c]
  {
    var s := [Some(a), Some(b), Some(c)];
    assert s[1..] == [Some(b), Some(c)];
    assert s[1..][1..] == [Some(c)];
    assert s[1..][1..][1..] == [];
  }

  /** The largest and the smallest of three values. */
  lemma ThreeExtremes(a: int, b: int, c: int)
    ensures Max([a, b, c]) == if a >= b && a >= c then a else if b >= c then b else c
    ensures Min([a, b, c]) == if a <= b && a <= c then a else if b <= c then b else c
  {
    var s := [a, b, c];
    assert s[1..] == [b, c];
    assert s[1..][1..] == [c];
  }

  /** Rounding can put the top label below the largest value: 182 is drawn as 180. */
  lemma TopLabelBelowMaximum()
    ensures var values := AllPresent([[Some(182), Some(46), Some(102)]]);
      |values| > 0 && Max(values) == 182
    ensures var labels := AxisLabels([[Some(182), Some(46), Some(102)]], DefaultGridlines);
      |labels| == 5 && labels[0] == 180.0 && labels[0] < 182.0
  {
    RoundedSeriesValues();
    RoundedSeries();
  }
}
