/** Price bars, and the market upside down. */
module Bars {
  import opened Options

  datatype Bar = Bar(open: real, high: real, low: real, close: real)

  function Min(a: real, b: real): real {
    if b < a then b else a
  }

  function Max(a: real, b: real): real {
    if b > a then b else a
  }

  function Abs(a: real): real {
    if a < 0.0 then -a else a
  }

  /** Every price negated; the high becomes the low. */
  function MirrorBar(b: Bar): Bar {
    Bar(-b.open, -b.low, -b.high, -b.close)
  }

  function Mirror(bars: seq<Bar>): (r: seq<Bar>)
    ensures |r| == |bars| && forall i :: 0 <= i < |r| ==> r[i] == MirrorBar(bars[i])
  {
    seq(|bars|, i requires 0 <= i < |bars| => MirrorBar(bars[i]))
  }

  lemma MirrorSlice(bars: seq<Bar>, i: nat, j: nat)
    requires i <= j <= |bars|
    ensures Mirror(bars[i..j]) == Mirror(bars)[i..j]
  {
  }

  /** The highest high. */
  function Highest(bars: seq<Bar>): real
    requires bars != []
  {
    if |bars| == 1 then bars[0].high else Max(Highest(bars[..|bars| - 1]), bars[|bars| - 1].high)
  }

  function Lowest(bars: seq<Bar>): real
    requires bars != []
  {
    if |bars| == 1 then bars[0].low else Min(Lowest(bars[..|bars| - 1]), bars[|bars| - 1].low)
  }

  lemma {:induction false} HighestIs(bars: seq<Bar>)
    requires bars != []
    ensures forall i :: 0 <= i < |bars| ==> bars[i].high <= Highest(bars)
    ensures exists i :: 0 <= i < |bars| && bars[i].high == Highest(bars)
  {
    var n := |bars| - 1;
    assert n == 0 ==> bars[0].high == Highest(bars);
    if n > 0 {
      HighestIs(bars[..n]);
      var i :| 0 <= i < n && bars[..n][i].high == Highest(bars[..n]);
      assert bars[i].high == Highest(bars) || bars[n].high == Highest(bars);
      assert forall j :: 0 <= j < n ==> bars[j] == bars[..n][j];
    }
  }

  lemma {:induction false} LowestIs(bars: seq<Bar>)
    requires bars != []
    ensures forall i :: 0 <= i < |bars| ==> Lowest(bars) <= bars[i].low
    ensures exists i :: 0 <= i < |bars| && bars[i].low == Lowest(bars)
  {
    var n := |bars| - 1;
    assert n == 0 ==> bars[0].low == Lowest(bars);
    if n > 0 {
      LowestIs(bars[..n]);
      var i :| 0 <= i < n && bars[..n][i].low == Lowest(bars[..n]);
      assert bars[i].low == Lowest(bars) || bars[n].low == Lowest(bars);
      assert forall j :: 0 <= j < n ==> bars[j] == bars[..n][j];
    }
  }

  lemma {:induction false} ExtremesMirror(bars: seq<Bar>)
    requires bars != []
    ensures Highest(Mirror(bars)) == -Lowest(bars) && Lowest(Mirror(bars)) == -Highest(bars)
  {
    var n := |bars| - 1;
    if n > 0 {
      MirrorSlice(bars, 0, n);
      assert Mirror(bars)[..n] == Mirror(bars[..n]);
      ExtremesMirror(bars[..n]);
    }
  }

  // ---------------------------------------------------------------- the average range

  const RANGE_PERIOD: nat := 14

  /** How far price went from one close to the end of the next bar. */
  function TrueRange(before: Bar, b: Bar): real {
    Max(b.high - b.low, Max(Abs(b.high - before.close), Abs(b.low - before.close)))
  }

  /** The true ranges of the bars from `from` up to but not including `to`. */
  function RangeSum(bars: seq<Bar>, from: nat, to: nat): real
    requires 1 <= from <= to <= |bars|
  {
    if from == to then 0.0 else RangeSum(bars, from, to - 1) + TrueRange(bars[to - 2], bars[to - 1])
  }

  function AverageRange(bars: seq<Bar>): Option<real> {
    if |bars| < RANGE_PERIOD + 1 then None
    else Some(RangeSum(bars, |bars| - RANGE_PERIOD, |bars|) / RANGE_PERIOD as real)
  }

  /** Every true range, the first bar having none. */
  method ListRanges(bars: seq<Bar>) returns (ranges: seq<real>)
    requires bars != []
    ensures |ranges| == |bars| - 1
    ensures forall k :: 0 <= k < |ranges| ==> ranges[k] == TrueRange(bars[k], bars[k + 1])
  {
    hide TrueRange;
    ranges := [];
    for i := 1 to |bars|
      invariant |ranges| == i - 1
      invariant forall k :: 0 <= k < i - 1 ==> ranges[k] == TrueRange(bars[k], bars[k + 1])
    {
      ranges := ranges + [TrueRange(bars[i - 1], bars[i])];
    }
  }

  lemma OneRangeMore(bars: seq<Bar>, from: nat, i: nat)
    requires 1 <= from <= i < |bars|
    ensures RangeSum(bars, from, i + 1) == RangeSum(bars, from, i) + TrueRange(bars[i - 1], bars[i])
    ensures RangeSum(bars, from, from) == 0.0
  {
    hide TrueRange;
  }

  /** All true ranges first, then the mean of the last of them. */
  method ComputeAtr(bars: seq<Bar>) returns (atr: Option<real>)
    ensures atr == AverageRange(bars)
  {
    if |bars| < RANGE_PERIOD + 1 {
      return None;
    }
    hide TrueRange, RangeSum;
    var ranges := ListRanges(bars);
    ghost var from := |bars| - RANGE_PERIOD;
    OneRangeMore(bars, from, from);
    var sum := 0.0;
    for i := |ranges| - RANGE_PERIOD to |ranges|
      invariant sum == RangeSum(bars, from, i + 1)
    {
      OneRangeMore(bars, from, i + 1);
      sum := sum + ranges[i];
    }
    atr := Some(sum / RANGE_PERIOD as real);
  }

  lemma {:induction false} RangeSumMirrors(bars: seq<Bar>, from: nat, to: nat)
    requires 1 <= from <= to <= |bars|
    ensures RangeSum(Mirror(bars), from, to) == RangeSum(bars, from, to)
  {
    if from < to { RangeSumMirrors(bars, from, to - 1); }
  }

  /** The market is as wide upside down. */
  lemma AverageRangeMirrors(bars: seq<Bar>)
    ensures AverageRange(Mirror(bars)) == AverageRange(bars)
  {
    hide RangeSum;
    if |bars| > RANGE_PERIOD { RangeSumMirrors(bars, |bars| - RANGE_PERIOD, |bars|); }
  }

  lemma {:induction false} SteadySum(bars: seq<Bar>, from: nat, to: nat, range: real)
    requires 1 <= from <= to <= |bars| && forall k :: from <= k < to ==> TrueRange(bars[k - 1], bars[k]) == range
    ensures RangeSum(bars, from, to) == (to - from) as real * range
  {
    hide TrueRange;
    if from < to {
      SteadySum(bars, from, to - 1, range);
      assert (to - from) as real * range == (to - 1 - from) as real * range + range;
    }
  }
}
