/**
 * The data a chart is drawn from: one or more series, each an ordered
 * mapping from a category key (a year, say) to an optional number. The
 * keys never influence the vertical axis, so a series is modelled as the
 * sequence of its values in key order; a `nil` value is `None`.
 */
module ChartData {
  import opened Wrappers

  /** The values of one series, in key order; `None` is a missing value. */
  type Series = seq<Option<int>>

  /** Some series holds at least one present (non-nil) value. */
  predicate HasData(series: seq<Series>) {
    exists j, k :: 0 <= j < |series| && 0 <= k < |series[j]| && series[j][k].Some?
  }

  /** The present values of one series; missing values are dropped. */
  function PresentValues(s: Series): (r: seq<int>)
    ensures |r| <= |s|
    ensures forall x :: x in r <==> Some(x) in s
  {
    if s == [] then []
    else
      var rest := PresentValues(s[1..]);
      assert forall x :: Some(x) in s <==> s[0] == Some(x) || Some(x) in s[1..];
      match s[0]
      case None => rest
      case Some(v) => [v] + rest
  }

  /** Each present value is kept as often as the series holds it, and nothing else is kept. */
  lemma {:induction false} PresentValuesCounts(s: Series)
    ensures forall x :: multiset(PresentValues(s))[x] == multiset(s)[Some(x)]
  {
    if s != [] {
      PresentValuesCounts(s[1..]);
      assert s == [s[0]] + s[1..];
      assert PresentValues(s) == (if s[0].Some? then [s[0].value] else []) + PresentValues(s[1..]);
    }
  }

  /** The present values of all series together. */
  function AllPresent(series: seq<Series>): (r: seq<int>)
    ensures forall x :: x in r <==> exists j :: 0 <= j < |series| && Some(x) in series[j]
  {
    if series == [] then []
    else
      var rest := AllPresent(series[1..]);
      assert forall j :: 0 < j < |series| ==> series[j] == series[1..][j - 1];
      PresentValues(series[0]) + rest
  }

  /** A single series contributes exactly its own present values. */
  lemma AllPresentOfOne(s: Series)
    ensures AllPresent([s]) == PresentValues(s)
  {
    assert [s][1..] == [];
  }

  /** There is something to draw exactly when some value is present. */
  lemma {:induction false} AllPresentEmpty(series: seq<Series>)
    ensures AllPresent(series) == [] <==> !HasData(series)
  {
    if HasData(series) {
      var j, k :| 0 <= j < |series| && 0 <= k < |series[j]| && series[j][k].Some?;
      assert series[j][k].value in AllPresent(series);
    }
    if AllPresent(series) != [] {
      var x := AllPresent(series)[0];
      var j :| 0 <= j < |series| && Some(x) in series[j];
      var k :| 0 <= k < |series[j]| && series[j][k] == Some(x);
      assert series[j][k].Some?;
    }
  }

  /** The largest element of a non-empty sequence. */
  function Max(s: seq<int>): (r: int)
    requires |s| > 0
    ensures r in s
    ensures forall x :: x in s ==> x <= r
  {
    if |s| == 1 then s[0]
    else
      var m := Max(s[1..]);
      assert forall x :: x in s ==> x == s[0] || x in s[1..];
      if s[0] >= m then s[0] else m
  }

  /** The smallest element of a non-empty sequence. */
  function Min(s: seq<int>): (r: int)
    requires |s| > 0
    ensures r in s
    ensures forall x :: x in s ==> r <= x
  {
    if |s| == 1 then s[0]
    else
      var m := Min(s[1..]);
      assert forall x :: x in s ==> x == s[0] || x in s[1..];
      if s[0] <= m then s[0] else m
  }

  /** The maximum depends only on which values occur, not on their order or repetition. */
  lemma MaxOfSameElements(a: seq<int>, b: seq<int>)
    requires |a| > 0 && |b| > 0
    requires forall x :: x in a <==> x in b
    ensures Max(a) == Max(b)
  {
    assert Max(a) in b && Max(b) in a;
  }

  /** The minimum depends only on which values occur, not on their order or repetition. */
  lemma MinOfSameElements(a: seq<int>, b: seq<int>)
    requires |a| > 0 && |b| > 0
    requires forall x :: x in a <==> x in b
    ensures Min(a) == Min(b)
  {
    assert Min(a) in b && Min(b) in a;
  }
}
