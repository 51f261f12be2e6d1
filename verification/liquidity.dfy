/** Liquidity sweeps, and clusters of equal levels. */
module Liquidity {
  import opened Bars
  import opened Options
  import opened Sequences

  const SWEEP_LOOKBACK: nat := 60

  datatype Side = BuySide | SellSide

  datatype Sweep = Sweep(side: Side, index: nat, level: real, extreme: real, penetration: real)

  // ---------------------------------------------------------------- sweeps

  /** What one bar raids: buy-side first, and possibly both. */
  function SweepsAt(window: seq<Bar>, i: nat): seq<Sweep>
    requires 0 < i < |window|
  {
    var bar, high, low := window[i], Highest(window[..i]), Lowest(window[..i]);
    var above := bar.high > high && bar.close < high;
    var below := bar.low < low && bar.close > low;
    (if above then [Sweep(BuySide, i, high, bar.high, bar.high - high)] else [])
    + (if below then [Sweep(SellSide, i, low, bar.low, low - bar.low)] else [])
  }

  function Sweeps(window: seq<Bar>, i: nat): seq<Sweep>
    requires i <= |window|
  {
    if i <= 1 then [] else Sweeps(window, i - 1) + SweepsAt(window, i - 1)
  }

  /** The last sweep of all. */
  function Recent(window: seq<Bar>): Option<Sweep> {
    var sweeps := Sweeps(window, |window|);
    if sweeps == [] then None else Some(sweeps[|sweeps| - 1])
  }

  method FindSweeps(window: seq<Bar>) returns (sweeps: seq<Sweep>)
    ensures sweeps == Sweeps(window, |window|)
  {
    hide Highest, Lowest;
    sweeps := [];
    if window == [] {
      return;
    }
    for i := 1 to |window|
      invariant sweeps == Sweeps(window, i)
    {
      var bar := window[i];
      var priorHigh, priorLow := Highest(window[..i]), Lowest(window[..i]);
      ghost var before := sweeps;
      if bar.high > priorHigh && bar.close < priorHigh {
        sweeps := sweeps + [Sweep(BuySide, i, priorHigh, bar.high, bar.high - priorHigh)];
      }
      if bar.low < priorLow && bar.close > priorLow {
        sweeps := sweeps + [Sweep(SellSide, i, priorLow, bar.low, priorLow - bar.low)];
      }
      assert sweeps == before + SweepsAt(window, i);
    }
  }

  /** A bar takes the buy side exactly when it goes above every high before it and closes back below one
    of them; and then the level is that of the highest. */
  lemma SweepMeans(window: seq<Bar>, i: nat)
    requires 0 < i < |window|
    ensures (exists s :: s in SweepsAt(window, i) && s.side == BuySide)
      <==> (forall j :: 0 <= j < i ==> window[j].high < window[i].high)
           && (exists j :: 0 <= j < i && window[i].close < window[j].high)
    ensures (exists s :: s in SweepsAt(window, i) && s.side == SellSide)
      <==> (forall j :: 0 <= j < i ==> window[i].low < window[j].low)
           && (exists j :: 0 <= j < i && window[j].low < window[i].close)
  {
    var prior, bar := window[..i], window[i];
    HighestIs(prior);
    LowestIs(prior);
    var high, low := Highest(prior), Lowest(prior);
    hide Highest, Lowest;
    assert forall j :: 0 <= j < i ==> prior[j] == window[j];
    var h :| 0 <= h < |prior| && prior[h].high == high;
    var l :| 0 <= l < |prior| && prior[l].low == low;
    assert window[h].high == high && window[l].low == low;
    SweepSides(window, i);
  }

  lemma SweepSides(window: seq<Bar>, i: nat)
    requires 0 < i < |window|
    ensures var bar, high, low := window[i], Highest(window[..i]), Lowest(window[..i]);
            && ((exists s :: s in SweepsAt(window, i) && s.side == BuySide) <==> bar.high > high && bar.close < high)
            && ((exists s :: s in SweepsAt(window, i) && s.side == SellSide) <==> bar.low < low && bar.close > low)
  {
    hide Highest, Lowest;
    var bar, high, low := window[i], Highest(window[..i]), Lowest(window[..i]);
    if bar.high > high && bar.close < high {
      assert Sweep(BuySide, i, high, bar.high, bar.high - high) in SweepsAt(window, i);
    }
    if bar.low < low && bar.close > low {
      assert Sweep(SellSide, i, low, bar.low, low - bar.low) in SweepsAt(window, i);
    }
  }

  /** A sweep reports the level it raided, how far the bar went beyond it, and where it turned. */
  lemma SweepReports(window: seq<Bar>, i: nat, s: Sweep)
    requires 0 < i < |window| && s in SweepsAt(window, i)
    ensures s.index == i && s.penetration > 0.0
    ensures s.side.BuySide? ==>
              && s.extreme == window[i].high == s.level + s.penetration
              && (forall j :: 0 <= j < i ==> window[j].high <= s.level) && exists j :: 0 <= j < i && window[j].high == s.level
    ensures s.side.SellSide? ==>
              && s.extreme == window[i].low == s.level - s.penetration
              && (forall j :: 0 <= j < i ==> s.level <= window[j].low) && exists j :: 0 <= j < i && window[j].low == s.level
  {
    var prior := window[..i];
    HighestIs(prior);
    LowestIs(prior);
    hide Highest, Lowest;
    assert forall j :: 0 <= j < i ==> prior[j] == window[j];
    var h :| 0 <= h < |prior| && prior[h].high == Highest(prior);
    var l :| 0 <= l < |prior| && prior[l].low == Lowest(prior);
    assert window[h].high == Highest(prior) && window[l].low == Lowest(prior);
  }

  // ---------------------------------------------------------------- the mirror

  function MirrorSweep(s: Sweep): Sweep {
    Sweep(if s.side.BuySide? then SellSide else BuySide, s.index, -s.level, -s.extreme, s.penetration)
  }

  /** What a mirrored bar's sweeps are: each mirrored, and two of them in the other order. */
  function MirrorBlock(block: seq<Sweep>): seq<Sweep> {
    if |block| == 2 then [MirrorSweep(block[1]), MirrorSweep(block[0])]
    else if |block| == 1 then [MirrorSweep(block[0])]
    else []
  }

  lemma SweepsAtMirror(window: seq<Bar>, i: nat)
    requires 0 < i < |window|
    ensures |SweepsAt(window, i)| <= 2
    ensures SweepsAt(Mirror(window), i) == MirrorBlock(SweepsAt(window, i))
  {
    MirrorSlice(window, 0, i);
    assert Mirror(window)[..i] == Mirror(window[..i]);
    ExtremesMirror(window[..i]);
    hide Highest, Lowest, Mirror;
    assert Mirror(window)[i] == MirrorBar(window[i]);
  }

  /** The last bar that sweeps anything, or 0. */
  function LastSweeping(window: seq<Bar>, i: nat): (k: nat)
    requires i <= |window|
    ensures k == 0 || (k < i && SweepsAt(window, k) != [])
  {
    if i <= 1 then 0
    else if SweepsAt(window, i - 1) != [] then i - 1
    else LastSweeping(window, i - 1)
  }

  lemma {:induction false} RecentIs(window: seq<Bar>, i: nat)
    requires i <= |window|
    ensures var k, sweeps := LastSweeping(window, i), Sweeps(window, i);
            if k == 0 then sweeps == []
            else sweeps != [] && sweeps[|sweeps| - 1] == SweepsAt(window, k)[|SweepsAt(window, k)| - 1]
  {
    hide SweepsAt;
    if i > 1 {
      RecentIs(window, i - 1);
    }
  }

  lemma {:induction false} LastSweepingMirrors(window: seq<Bar>, i: nat)
    requires i <= |window|
    ensures LastSweeping(Mirror(window), i) == LastSweeping(window, i)
  {
    hide SweepsAt, Mirror;
    if i > 1 {
      SweepsAtMirror(window, i - 1);
      LastSweepingMirrors(window, i - 1);
    }
  }

  /** The most recent sweep is mirrored exactly when the last bar that swept took one side only: a bar that
    takes both always reports its sell side last. */
  lemma RecentMirrorsExactly(window: seq<Bar>)
    ensures var k, r := LastSweeping(window, |window|), Recent(window);
            Recent(Mirror(window)) == (if r.Some? then Some(MirrorSweep(r.value)) else None)
            <==> k == 0 || |SweepsAt(window, k)| == 1
  {
    hide SweepsAt, Mirror;
    var k := LastSweeping(window, |window|);
    RecentIs(window, |window|);
    RecentIs(Mirror(window), |window|);
    LastSweepingMirrors(window, |window|);
    if k > 0 {
      SweepsAtMirror(window, k);
      BothSides(window, k);
    }
  }

  lemma BothSides(window: seq<Bar>, i: nat)
    requires 0 < i < |window|
    ensures |SweepsAt(window, i)| == 2 ==> SweepsAt(window, i)[0].side == BuySide && SweepsAt(window, i)[1].side == SellSide
  {
    hide Highest, Lowest;
  }

  // ---------------------------------------------------------------- equal levels

  /** In order of price. */
  predicate Ascending(prices: seq<real>) {
    forall i, j :: 0 <= i < j < |prices| ==> prices[i] <= prices[j]
  }

  function InsertPrice(sorted: seq<real>, p: real): seq<real> {
    if sorted == [] || sorted[|sorted| - 1] <= p then sorted + [p]
    else InsertPrice(sorted[..|sorted| - 1], p) + [sorted[|sorted| - 1]]
  }

  function SortPrices(prices: seq<real>): seq<real> {
    if prices == [] then [] else InsertPrice(SortPrices(prices[..|prices| - 1]), prices[|prices| - 1])
  }

  lemma {:induction false} InsertPriceKeeps(sorted: seq<real>, p: real)
    ensures multiset(InsertPrice(sorted, p)) == multiset(sorted) + multiset{p}
  {
    if sorted != [] {
      assert sorted == sorted[..|sorted| - 1] + [sorted[|sorted| - 1]];
      InsertPriceKeeps(sorted[..|sorted| - 1], p);
    }
  }

  lemma {:induction false} InsertPriceAscends(sorted: seq<real>, p: real)
    requires Ascending(sorted)
    ensures Ascending(InsertPrice(sorted, p))
    ensures forall i :: 0 <= i < |InsertPrice(sorted, p)| ==>
              InsertPrice(sorted, p)[i] <= if sorted == [] || sorted[|sorted| - 1] <= p then p else sorted[|sorted| - 1]
  {
    if sorted != [] && sorted[|sorted| - 1] > p {
      InsertPriceAscends(sorted[..|sorted| - 1], p);
    }
  }

  lemma {:induction false} SortPricesSorts(prices: seq<real>)
    ensures Ascending(SortPrices(prices)) && multiset(SortPrices(prices)) == multiset(prices)
  {
    hide Ascending, InsertPrice;
    if prices == [] {
      assert Ascending([]) by { AscendingEmpty(); }
    } else {
      var init, last := prices[..|prices| - 1], prices[|prices| - 1];
      assert prices == init + [last];
      SortPricesSorts(init);
      InsertPriceKeeps(SortPrices(init), last);
      InsertPriceAscends(SortPrices(init), last);
    }
  }

  lemma AscendingEmpty()
    ensures Ascending([])
  {
  }

  function Close(a: real, b: real, tolerance: real): bool {
    Abs(a - b) <= tolerance
  }

  /** Grow the last cluster while the next price is near its last member. */
  function Clusters(sorted: seq<real>, tolerance: real): (r: seq<seq<real>>)
    ensures sorted == [] <==> r == []
    ensures r != [] ==> r[|r| - 1] != [] && r[|r| - 1][|r[|r| - 1]| - 1] == sorted[|sorted| - 1]
  {
    if sorted == [] then []
    else
      var before, p := Clusters(sorted[..|sorted| - 1], tolerance), sorted[|sorted| - 1];
      if before != [] && Close(before[|before| - 1][|before[|before| - 1]| - 1], p, tolerance) then
        before[..|before| - 1] + [before[|before| - 1] + [p]]
      else before + [[p]]
  }

  function Sum(group: seq<real>): real {
    if group == [] then 0.0 else Sum(group[..|group| - 1]) + group[|group| - 1]
  }

  datatype Level = Level(price: real, count: nat)

  function Mean(group: seq<real>): real
    requires group != []
  {
    Sum(group) / |group| as real
  }

  /** The clusters of two or more, each by its mean. */
  function Levels(clusters: seq<seq<real>>): seq<Level> {
    if clusters == [] then []
    else
      var before, group := Levels(clusters[..|clusters| - 1]), clusters[|clusters| - 1];
      if |group| >= 2 then before + [Level(Mean(group), |group|)] else before
  }

  function EqualLevels(prices: seq<real>, tolerance: real): seq<Level> {
    Levels(Clusters(SortPrices(prices), tolerance))
  }

  method EqualClusters(prices: seq<real>, tolerance: real) returns (levels: seq<Level>)
    ensures levels == EqualLevels(prices, tolerance)
  {
    hide Clusters, Levels, Mean, SortPrices;
    var sorted := SortPrices(prices);
    var clusters: seq<seq<real>> := [];
    NoClusters(sorted, tolerance);
    for i := 0 to |sorted|
      invariant clusters == Clusters(sorted[..i], tolerance)
    {
      OneMorePrice(sorted, tolerance, i);
      var last := |clusters| - 1;
      if last >= 0 && Close(clusters[last][|clusters[last]| - 1], sorted[i], tolerance) {
        clusters := clusters[..last] + [clusters[last] + [sorted[i]]];
      } else {
        clusters := clusters + [[sorted[i]]];
      }
    }
    assert sorted[..|sorted|] == sorted;
    levels := [];
    NoLevels(clusters);
    for i := 0 to |clusters|
      invariant levels == Levels(clusters[..i])
    {
      OneMoreGroup(clusters, i);
      if |clusters[i]| >= 2 {
        levels := levels + [Level(Mean(clusters[i]), |clusters[i]|)];
      }
    }
    assert clusters[..|clusters|] == clusters;
  }

  lemma NoClusters(sorted: seq<real>, tolerance: real)
    ensures Clusters(sorted[..0], tolerance) == []
  {
  }

  lemma OneMorePrice(sorted: seq<real>, tolerance: real, i: nat)
    requires i < |sorted|
    ensures var before, p := Clusters(sorted[..i], tolerance), sorted[i];
            var n := |before| - 1;
            Clusters(sorted[..i + 1], tolerance)
            == if n >= 0 && Close(before[n][|before[n]| - 1], p, tolerance) then before[..n] + [before[n] + [p]]
               else before + [[p]]
  {
    hide Close;
    assert sorted[..i + 1][..i] == sorted[..i];
  }

  lemma NoLevels(clusters: seq<seq<real>>)
    ensures Levels(clusters[..0]) == []
  {
  }

  lemma OneMoreGroup(clusters: seq<seq<real>>, i: nat)
    requires i < |clusters|
    ensures Levels(clusters[..i + 1])
         == if |clusters[i]| >= 2 then Levels(clusters[..i]) + [Level(Mean(clusters[i]), |clusters[i]|)]
            else Levels(clusters[..i])
  {
    hide Mean;
    assert clusters[..i + 1][..i] == clusters[..i];
  }

  // ---------------------------------------------------------------- connected components

  function Flat(clusters: seq<seq<real>>): seq<real> {
    if clusters == [] then [] else Flat(clusters[..|clusters| - 1]) + clusters[|clusters| - 1]
  }

  lemma {:induction false} FlatHas(clusters: seq<seq<real>>, x: real)
    ensures x in Flat(clusters) <==> exists c :: 0 <= c < |clusters| && x in clusters[c]
  {
    if clusters != [] {
      var n := |clusters| - 1;
      FlatHas(clusters[..n], x);
      assert forall c :: 0 <= c < n ==> clusters[..n][c] == clusters[c];
      if x in clusters[n] {
      } else if x in Flat(clusters[..n]) {
        var c :| 0 <= c < n && x in clusters[..n][c];
        assert x in clusters[c];
      }
    }
  }

  /** No cluster is empty, and inside one each price is near the one before it. */
  ghost predicate Chained(clusters: seq<seq<real>>, tolerance: real) {
    forall c :: 0 <= c < |clusters| ==> clusters[c] != [] && ChainedGroup(clusters[c], tolerance)
  }

  ghost predicate ChainedGroup(group: seq<real>, tolerance: real) {
    forall i :: 0 < i < |group| ==> group[i - 1] <= group[i] <= group[i - 1] + tolerance
  }

  /** Prices of different clusters are further apart than the tolerance. */
  ghost predicate Apart(clusters: seq<seq<real>>, tolerance: real) {
    forall c, d, i, j :: 0 <= c < d < |clusters| && 0 <= i < |clusters[c]| && 0 <= j < |clusters[d]|
      ==> clusters[c][i] + tolerance < clusters[d][j]
  }

  /** No price is above the last. */
  ghost predicate Topped(clusters: seq<seq<real>>, top: real) {
    forall c, i :: 0 <= c < |clusters| && 0 <= i < |clusters[c]| ==> clusters[c][i] <= top
  }

  lemma ExtendChain(group: seq<real>, p: real, tolerance: real)
    requires group != [] && ChainedGroup(group, tolerance) && group[|group| - 1] <= p <= group[|group| - 1] + tolerance
    ensures ChainedGroup(group + [p], tolerance)
  {
  }

  lemma ExtendApart(before: seq<seq<real>>, p: real, tolerance: real, after: seq<seq<real>>)
    requires before != [] && before[|before| - 1] != [] && Apart(before, tolerance)
    requires before[|before| - 1][|before[|before| - 1]| - 1] <= p
    requires |after| == |before| && after[..|before| - 1] == before[..|before| - 1]
    requires after[|before| - 1] == before[|before| - 1] + [p]
    ensures Apart(after, tolerance)
  {
    var n := |before| - 1;
    forall c, d, i, j | 0 <= c < d < |after| && 0 <= i < |after[c]| && 0 <= j < |after[d]|
      ensures after[c][i] + tolerance < after[d][j]
    {
      assert after[c] == after[..n][c] == before[..n][c] == before[c];
      if d < n {
        assert after[d] == after[..n][d] == before[..n][d] == before[d];
      } else {
        assert before[c][i] + tolerance < before[n][|before[n]| - 1];
        assert j < |before[n]| ==> before[c][i] + tolerance < before[n][j];
      }
    }
  }

  lemma ExtendLast(before: seq<seq<real>>, p: real, tolerance: real, after: seq<seq<real>>)
    requires before != [] && Chained(before, tolerance) && Apart(before, tolerance)
    requires var last := before[|before| - 1]; last != [] && last[|last| - 1] <= p <= last[|last| - 1] + tolerance
    requires after == before[..|before| - 1] + [before[|before| - 1] + [p]]
    ensures Chained(after, tolerance) && Apart(after, tolerance) && Flat(after) == Flat(before) + [p]
  {
    hide Apart, ChainedGroup;
    var n := |before| - 1;
    assert after[..n] == before[..n];
    assert forall c :: 0 <= c < n ==> after[c] == before[c];
    assert after[n] == before[n] + [p];
    ExtendChain(before[n], p, tolerance);
    ExtendApart(before, p, tolerance, after);
  }

  lemma OpenNew(before: seq<seq<real>>, p: real, tolerance: real, top: real, after: seq<seq<real>>)
    requires Chained(before, tolerance) && Apart(before, tolerance)
    requires before != [] ==> Topped(before, top) && top + tolerance < p
    requires after == before + [[p]]
    ensures Chained(after, tolerance) && Apart(after, tolerance) && Flat(after) == Flat(before) + [p]
  {
    assert after[..|before|] == before;
  }

  lemma ToppedStep(before: seq<seq<real>>, p: real, top: real, after: seq<seq<real>>)
    requires before != [] ==> Topped(before, top) && top <= p
    requires after == before + [[p]] || (before != [] && after == before[..|before| - 1] + [before[|before| - 1] + [p]])
    ensures Topped(after, p)
  {
  }

  /** The clusters, laid end to end, are the prices; they are chains; they are apart; and none goes above the last. */
  ghost predicate Partition(clusters: seq<seq<real>>, sorted: seq<real>, tolerance: real) {
    && Flat(clusters) == sorted && Chained(clusters, tolerance) && Apart(clusters, tolerance)
    && (sorted != [] ==> Topped(clusters, sorted[|sorted| - 1]))
  }

  lemma {:induction false} ClustersPartition(sorted: seq<real>, tolerance: real)
    requires Ascending(sorted) && 0.0 <= tolerance
    ensures Partition(Clusters(sorted, tolerance), sorted, tolerance)
  {
    hide Clusters, Partition;
    if sorted == [] {
      NothingParted(tolerance);
    } else {
      var init, p := sorted[..|sorted| - 1], sorted[|sorted| - 1];
      assert init + [p] == sorted;
      assert init == [] || init[|init| - 1] == sorted[|sorted| - 2] <= p;
      assert Ascending(init);
      ClustersPartition(init, tolerance);
      ClustersStep(sorted, tolerance);
      hide Ascending;
      OnePriceMore(init, p, Clusters(init, tolerance), Clusters(sorted, tolerance), tolerance);
    }
  }

  lemma NothingParted(tolerance: real)
    ensures Partition(Clusters([], tolerance), [], tolerance)
  {
  }

  lemma OnePriceMore(init: seq<real>, p: real, before: seq<seq<real>>, after: seq<seq<real>>, tolerance: real)
    requires Partition(before, init, tolerance) && 0.0 <= tolerance && (init != [] ==> init[|init| - 1] <= p)
    requires init == [] <==> before == []
    requires if init != [] && p <= init[|init| - 1] + tolerance
             then before != [] && before[|before| - 1] != [] && before[|before| - 1][|before[|before| - 1]| - 1] == init[|init| - 1]
                  && after == before[..|before| - 1] + [before[|before| - 1] + [p]]
             else after == before + [[p]]
    ensures Partition(after, init + [p], tolerance)
  {
    hide Flat, Chained, Apart, Topped;
    var top := if init == [] then p else init[|init| - 1];
    ToppedStep(before, p, top, after);
    if init != [] && p <= top + tolerance {
      ExtendLast(before, p, tolerance, after);
    } else {
      OpenNew(before, p, tolerance, top, after);
    }
  }

  lemma ClustersStep(sorted: seq<real>, tolerance: real)
    requires sorted != [] && Ascending(sorted)
    ensures var init, p := sorted[..|sorted| - 1], sorted[|sorted| - 1];
            var before, after := Clusters(init, tolerance), Clusters(sorted, tolerance);
            if init != [] && p <= init[|init| - 1] + tolerance
            then before != [] && after == before[..|before| - 1] + [before[|before| - 1] + [p]]
            else after == before + [[p]]
  {
  }

  /** A walk over the given prices in steps no longer than the tolerance. */
  ghost predicate Walk(prices: seq<real>, tolerance: real, walk: seq<real>) {
    walk != [] && (forall i :: 0 <= i < |walk| ==> walk[i] in prices)
    && forall i :: 0 < i < |walk| ==> Close(walk[i - 1], walk[i], tolerance)
  }

  ghost predicate Linked(prices: seq<real>, tolerance: real, a: real, b: real) {
    exists walk :: Walk(prices, tolerance, walk) && walk[0] == a && walk[|walk| - 1] == b
  }

  ghost predicate Together(clusters: seq<seq<real>>, a: real, b: real) {
    exists c :: 0 <= c < |clusters| && a in clusters[c] && b in clusters[c]
  }

  lemma NearIsTogether(clusters: seq<seq<real>>, tolerance: real, c: nat, a: real, b: real)
    requires Apart(clusters, tolerance) && c < |clusters| && a in clusters[c] && Close(a, b, tolerance)
    requires b in Flat(clusters)
    ensures b in clusters[c]
  {
    FlatHas(clusters, b);
    var d :| 0 <= d < |clusters| && b in clusters[d];
    var i :| 0 <= i < |clusters[c]| && clusters[c][i] == a;
    var j :| 0 <= j < |clusters[d]| && clusters[d][j] == b;
  }

  lemma {:induction false} WalkStays(clusters: seq<seq<real>>, prices: seq<real>, tolerance: real, walk: seq<real>,
                                     c: nat, k: nat)
    requires Apart(clusters, tolerance) && Walk(prices, tolerance, walk) && forall x :: x in prices ==> x in Flat(clusters)
    requires c < |clusters| && walk[0] in clusters[c] && k < |walk|
    ensures walk[k] in clusters[c]
  {
    hide Apart, Close;
    if k > 0 {
      WalkStays(clusters, prices, tolerance, walk, c, k - 1);
      assert Close(walk[k - 1], walk[k], tolerance) && walk[k] in prices;
      NearIsTogether(clusters, tolerance, c, walk[k - 1], walk[k]);
    }
  }

  lemma CloseBothWays(a: real, b: real, tolerance: real)
    ensures Close(a, b, tolerance) == Close(b, a, tolerance)
  {
  }

  lemma WalkBack(prices: seq<real>, tolerance: real, a: real, b: real)
    requires Linked(prices, tolerance, a, b)
    ensures Linked(prices, tolerance, b, a)
  {
    hide Close;
    var there :| Walk(prices, tolerance, there) && there[0] == a && there[|there| - 1] == b;
    var n := |there|;
    var back := seq(n, k requires 0 <= k < n => there[n - 1 - k]);
    forall k | 0 < k < n
      ensures Close(back[k - 1], back[k], tolerance)
    {
      assert back[k - 1] == there[n - k] && back[k] == there[n - k - 1];
      CloseBothWays(back[k - 1], back[k], tolerance);
    }
    assert Walk(prices, tolerance, back) && back[0] == b && back[n - 1] == a;
  }

  lemma StepIsClose(group: seq<real>, tolerance: real, k: nat)
    requires 0 < k < |group| && 0.0 <= tolerance && ChainedGroup(group, tolerance)
    ensures Close(group[k - 1], group[k], tolerance)
  {
  }

  /** Inside a cluster, walk straight from one price to the other. */
  lemma ClusterIsLinked(prices: seq<real>, tolerance: real, group: seq<real>, i: nat, j: nat)
    requires i <= j < |group| && 0.0 <= tolerance && ChainedGroup(group, tolerance) && forall x :: x in group ==> x in prices
    ensures Linked(prices, tolerance, group[i], group[j]) && Linked(prices, tolerance, group[j], group[i])
  {
    hide Close, ChainedGroup;
    var there := group[i..j + 1];
    assert forall k :: 0 <= k < |there| ==> there[k] == group[i + k] && group[i + k] in group;
    forall k | 0 < k < |there|
      ensures Close(there[k - 1], there[k], tolerance)
    {
      StepIsClose(group, tolerance, i + k);
    }
    assert Walk(prices, tolerance, there) && there[0] == group[i] && there[|there| - 1] == group[j];
    WalkBack(prices, tolerance, group[i], group[j]);
  }

  /** The clusters are the connected components of nearness: two prices share one exactly when a walk over
    the prices, in steps within the tolerance, joins them. */
  lemma ClustersAreComponents(prices: seq<real>, tolerance: real, a: real, b: real)
    requires 0.0 <= tolerance && a in prices && b in prices
    ensures Together(Clusters(SortPrices(prices), tolerance), a, b) <==> Linked(prices, tolerance, a, b)
  {
    hide Clusters, Close, ChainedGroup, Apart;
    var sorted := SortPrices(prices);
    SortPricesSorts(prices);
    hide SortPrices;
    SameMembers(prices, sorted);
    var clusters := Clusters(sorted, tolerance);
    ClustersPartition(sorted, tolerance);
    if Together(clusters, a, b) {
      var c :| 0 <= c < |clusters| && a in clusters[c] && b in clusters[c];
      var group := clusters[c];
      var i :| 0 <= i < |group| && group[i] == a;
      var j :| 0 <= j < |group| && group[j] == b;
      forall x | x in group
        ensures x in prices
      {
        FlatHas(clusters, x);
      }
      ClusterIsLinked(prices, tolerance, group, if i < j then i else j, if i < j then j else i);
    }
    if Linked(prices, tolerance, a, b) {
      var walk :| Walk(prices, tolerance, walk) && walk[0] == a && walk[|walk| - 1] == b;
      FlatHas(clusters, a);
      var c :| 0 <= c < |clusters| && a in clusters[c];
      WalkStays(clusters, prices, tolerance, walk, c, |walk| - 1);
    }
  }

  lemma SameMembers(prices: seq<real>, sorted: seq<real>)
    requires multiset(sorted) == multiset(prices)
    ensures forall x :: x in sorted <==> x in prices
  {
    forall x
      ensures x in sorted <==> x in prices
    {
      assert x in sorted <==> x in multiset(sorted);
      assert x in prices <==> x in multiset(prices);
    }
  }

  // ---------------------------------------------------------------- means

  lemma {:induction false} SumBounds(group: seq<real>, low: real, high: real)
    requires forall i :: 0 <= i < |group| ==> low <= group[i] <= high
    ensures |group| as real * low <= Sum(group) <= |group| as real * high
  {
    if group != [] {
      var n := |group| - 1;
      SumBounds(group[..n], low, high);
      assert |group| as real * low == n as real * low + low;
      assert |group| as real * high == n as real * high + high;
    }
  }

  lemma NotPositive(x: real, n: real)
    requires n > 0.0 && x * n <= 0.0
    ensures x <= 0.0
  {
  }

  lemma Average(sum: real, n: real, low: real, high: real)
    requires n > 0.0 && n * low <= sum <= n * high
    ensures low <= sum / n <= high
  {
    var q := sum / n;
    assert (low - q) * n == n * low - sum;
    assert (q - high) * n == sum - n * high;
    NotPositive(low - q, n);
    NotPositive(q - high, n);
  }

  lemma {:induction false} GroupBounds(group: seq<real>, tolerance: real, i: nat)
    requires i < |group| && ChainedGroup(group, tolerance)
    ensures group[0] <= group[i] <= group[|group| - 1]
  {
    ChainAscends(group, tolerance, 0, i);
    ChainAscends(group, tolerance, i, |group| - 1);
  }

  lemma {:induction false} ChainAscends(group: seq<real>, tolerance: real, i: nat, j: nat)
    requires i <= j < |group| && ChainedGroup(group, tolerance)
    ensures group[i] <= group[j]
  {
    if i < j { ChainAscends(group, tolerance, i, j - 1); }
  }

  /** The mean of a cluster lies inside it. */
  lemma MeanInside(group: seq<real>, tolerance: real)
    requires group != [] && ChainedGroup(group, tolerance)
    ensures group[0] <= Mean(group) <= group[|group| - 1]
  {
    forall i | 0 <= i < |group|
      ensures group[0] <= group[i] <= group[|group| - 1]
    {
      GroupBounds(group, tolerance, i);
    }
    SumBounds(group, group[0], group[|group| - 1]);
    Average(Sum(group), |group| as real, group[0], group[|group| - 1]);
  }

  lemma {:induction false} LevelFrom(clusters: seq<seq<real>>, l: Level)
    ensures l in Levels(clusters)
      <==> exists c :: 0 <= c < |clusters| && |clusters[c]| >= 2 && l == Level(Mean(clusters[c]), |clusters[c]|)
  {
    hide Mean;
    if clusters != [] {
      var n := |clusters| - 1;
      LevelFrom(clusters[..n], l);
      assert forall c :: 0 <= c < n ==> clusters[..n][c] == clusters[c];
      if l in Levels(clusters[..n]) {
        var c :| 0 <= c < n && |clusters[..n][c]| >= 2 && l == Level(Mean(clusters[..n][c]), |clusters[..n][c]|);
        assert |clusters[c]| >= 2 && l == Level(Mean(clusters[c]), |clusters[c]|);
      }
    }
  }

  ghost predicate Rising(levels: seq<Level>) {
    forall i, j :: 0 <= i < j < |levels| ==> levels[i].price < levels[j].price
  }

  lemma {:induction false} LevelsRise(clusters: seq<seq<real>>, tolerance: real)
    requires 0.0 <= tolerance && Chained(clusters, tolerance) && Apart(clusters, tolerance)
    ensures Rising(Levels(clusters))
  {
    hide Mean;
    if clusters != [] {
      var n := |clusters| - 1;
      var init := clusters[..n];
      assert forall c :: 0 <= c < n ==> init[c] == clusters[c];
      LevelsRise(init, tolerance);
      var before := Levels(init);
      MeanInside(clusters[n], tolerance);
      forall i | 0 <= i < |before|
        ensures before[i].price < Mean(clusters[n])
      {
        LevelFrom(init, before[i]);
        var c :| 0 <= c < n && |init[c]| >= 2 && before[i] == Level(Mean(init[c]), |init[c]|);
        MeanInside(init[c], tolerance);
        assert clusters[c][|clusters[c]| - 1] + tolerance < clusters[n][0];
      }
    }
  }

  /** The reported levels rise, and each is the mean of two or more prices that it lies among. */
  lemma EqualLevelsAre(prices: seq<real>, tolerance: real)
    requires 0.0 <= tolerance
    ensures Rising(EqualLevels(prices, tolerance))
    ensures forall l <- EqualLevels(prices, tolerance) :: l.count >= 2 && InsideOne(prices, tolerance, l)
  {
    hide Mean, Clusters, SortPrices, Levels, ChainedGroup, InsideOne;
    SortPricesSorts(prices);
    ClustersPartition(SortPrices(prices), tolerance);
    var clusters := Clusters(SortPrices(prices), tolerance);
    LevelsRise(clusters, tolerance);
    forall l | l in Levels(clusters)
      ensures l.count >= 2 && InsideOne(prices, tolerance, l)
    {
      LevelFrom(clusters, l);
      var c :| 0 <= c < |clusters| && |clusters[c]| >= 2 && l == Level(Mean(clusters[c]), |clusters[c]|);
      MeanInside(clusters[c], tolerance);
      Inside(prices, tolerance, l, c);
    }
  }

  lemma Inside(prices: seq<real>, tolerance: real, l: Level, c: nat)
    requires var clusters := Clusters(SortPrices(prices), tolerance);
             c < |clusters| && |clusters[c]| == l.count && clusters[c] != []
             && clusters[c][0] <= l.price <= clusters[c][|clusters[c]| - 1]
    ensures InsideOne(prices, tolerance, l)
  {
  }

  /** The level has a cluster's size, and lies between its lowest and highest price. */
  ghost predicate InsideOne(prices: seq<real>, tolerance: real, l: Level) {
    exists c :: 0 <= c < |Clusters(SortPrices(prices), tolerance)| && WithinGroup(Clusters(SortPrices(prices), tolerance)[c], l)
  }

  predicate WithinGroup(group: seq<real>, l: Level) {
    group != [] && |group| == l.count && group[0] <= l.price <= group[|group| - 1]
  }

  // ---------------------------------------------------------------- equal levels upside down

  function Negated(prices: seq<real>): (r: seq<real>)
    ensures |r| == |prices| && forall i :: 0 <= i < |r| ==> r[i] == -prices[i]
  {
    seq(|prices|, i requires 0 <= i < |prices| => -prices[i])
  }

  /** Negated, and the last first: what was in order of price still is. */
  function Upside(prices: seq<real>): (r: seq<real>)
    ensures |r| == |prices| && forall i :: 0 <= i < |r| ==> r[i] == -prices[|prices| - 1 - i]
  {
    if prices == [] then [] else [-prices[|prices| - 1]] + Upside(prices[..|prices| - 1])
  }

  function Turned(clusters: seq<seq<real>>): seq<seq<real>> {
    if clusters == [] then [] else [Upside(clusters[|clusters| - 1])] + Turned(clusters[..|clusters| - 1])
  }

  function TurnedLevels(levels: seq<Level>): (r: seq<Level>)
    ensures |r| == |levels|
    ensures forall i :: 0 <= i < |r| ==> r[i] == Level(-levels[|levels| - 1 - i].price, levels[|levels| - 1 - i].count)
  {
    if levels == [] then []
    else [Level(-levels[|levels| - 1].price, levels[|levels| - 1].count)] + TurnedLevels(levels[..|levels| - 1])
  }

  lemma CountAppended(prices: seq<real>, p: real, x: real)
    ensures multiset(prices + [p])[x] == multiset(prices)[x] + if p == x then 1 else 0
    ensures multiset([p] + prices)[x] == multiset(prices)[x] + if p == x then 1 else 0
  {
  }

  lemma OneMoreNegated(init: seq<real>, p: real)
    ensures Negated(init + [p]) == Negated(init) + [-p] && Upside(init + [p]) == [-p] + Upside(init)
  {
    assert (init + [p])[..|init|] == init;
  }

  lemma {:induction false} NegatedCounts(prices: seq<real>, x: real)
    ensures multiset(Negated(prices))[x] == multiset(prices)[-x]
    ensures multiset(Upside(prices))[x] == multiset(prices)[-x]
  {
    if prices == [] {
      assert Negated(prices) == [];
    } else {
      hide Negated, Upside;
      var init, p := prices[..|prices| - 1], prices[|prices| - 1];
      assert init + [p] == prices;
      NegatedCounts(init, x);
      OneMoreNegated(init, p);
      NegatedStep(init, p, Negated(init), Upside(init), x);
    }
  }

  lemma NegatedStep(init: seq<real>, p: real, a: seq<real>, b: seq<real>, x: real)
    requires multiset(a)[x] == multiset(init)[-x] == multiset(b)[x]
    ensures multiset(a + [-p])[x] == multiset(init + [p])[-x] == multiset([-p] + b)[x]
  {
    CountAppended(init, p, -x);
    CountAppended(a, -p, x);
    CountAppended(b, -p, x);
  }

  lemma Index(s: seq<real>, x: real) returns (i: nat)
    requires x in s
    ensures i < |s| && s[i] == x
  {
    i :| 0 <= i < |s| && s[i] == x;
  }

  lemma LastIsGreatest(a: seq<real>, b: seq<real>)
    requires a != [] && Ascending(a) && Ascending(b) && multiset(a) == multiset(b)
    ensures b != [] && a[|a| - 1] <= b[|b| - 1]
  {
    SameMembers(a, b);
    Holds(a, |a| - 1);
    var i := Index(b, a[|a| - 1]);
  }

  lemma SameInit(a: seq<real>, b: seq<real>, last: real)
    requires multiset(a + [last]) == multiset(b + [last])
    ensures multiset(a) == multiset(b)
  {
    forall x: real
      ensures multiset(a)[x] == multiset(b)[x]
    {
      CountAppended(a, last, x);
      CountAppended(b, last, x);
    }
  }

  /** There is one way to put prices in order. */
  lemma {:induction false} OrderIsUnique(a: seq<real>, b: seq<real>)
    requires Ascending(a) && Ascending(b) && multiset(a) == multiset(b)
    ensures a == b
  {
    if a != [] || b != [] {
      if a != [] { LastIsGreatest(a, b); }
      if b != [] { LastIsGreatest(b, a); }
      var x, y, last := a[..|a| - 1], b[..|b| - 1], a[|a| - 1];
      assert a == x + [last] && b == y + [last];
      SameInit(x, y, last);
      assert Ascending(x) && Ascending(y);
      hide Ascending;
      OrderIsUnique(x, y);
    }
  }

  lemma SortTurns(prices: seq<real>)
    ensures SortPrices(Negated(prices)) == Upside(SortPrices(prices))
  {
    hide SortPrices;
    var a, b := SortPrices(Negated(prices)), Upside(SortPrices(prices));
    SortPricesSorts(prices);
    SortPricesSorts(Negated(prices));
    assert Ascending(b);
    forall x: real
      ensures multiset(a)[x] == multiset(b)[x]
    {
      NegatedCounts(prices, x);
      NegatedCounts(SortPrices(prices), x);
    }
    OrderIsUnique(a, b);
  }

  /** One price more at the end. */
  function AddLast(clusters: seq<seq<real>>, last: real, p: real, tolerance: real): seq<seq<real>> {
    if clusters != [] && Close(last, p, tolerance) then
      clusters[..|clusters| - 1] + [clusters[|clusters| - 1] + [p]]
    else clusters + [[p]]
  }

  /** One price more at the front. */
  function AddFirst(p: real, first: real, clusters: seq<seq<real>>, tolerance: real): seq<seq<real>> {
    if clusters != [] && Close(p, first, tolerance) then [[p] + clusters[0]] + clusters[1..]
    else [[p]] + clusters
  }

  lemma AddLastIs(sorted: seq<real>, tolerance: real)
    requires sorted != []
    ensures var init, p := sorted[..|sorted| - 1], sorted[|sorted| - 1];
            Clusters(sorted, tolerance)
            == AddLast(Clusters(init, tolerance), if init == [] then p else init[|init| - 1], p, tolerance)
  {
    hide Close;
  }

  /** Growing from the left or from the right gives the same clusters. */
  lemma {:induction false} AddFirstIs(p: real, rest: seq<real>, tolerance: real)
    ensures Clusters([p] + rest, tolerance)
         == AddFirst(p, if rest == [] then p else rest[0], Clusters(rest, tolerance), tolerance)
  {
    hide Close, AddLast, AddFirst, Clusters;
    AddLastIs([p] + rest, tolerance);
    assert ([p] + rest)[..|rest|] == if rest == [] then [] else [p] + rest[..|rest| - 1];
    if rest == [] {
      assert Clusters([], tolerance) == [];
      NoneYet(p, tolerance);
    } else {
      var n := |rest| - 1;
      var init, q := rest[..n], rest[n];
      AddLastIs(rest, tolerance);
      AddFirstIs(p, init, tolerance);
      if init == [] {
        assert Clusters([], tolerance) == [];
        TwoPrices(p, q, tolerance);
      } else {
        BothEnds(Clusters(init, tolerance), p, rest[0], init[n - 1], q, tolerance);
      }
    }
  }

  lemma NoneYet(p: real, tolerance: real)
    ensures AddLast([], p, p, tolerance) == [[p]] == AddFirst(p, p, [], tolerance)
  {
  }

  lemma TwoPrices(p: real, q: real, tolerance: real)
    ensures AddLast(AddFirst(p, p, [], tolerance), p, q, tolerance) == AddFirst(p, q, AddLast([], q, q, tolerance), tolerance)
  {
    hide Close;
  }

  /** A price at either end can be added in either order. */
  lemma BothEnds(clusters: seq<seq<real>>, p: real, first: real, last: real, q: real, tolerance: real)
    requires clusters != []
    ensures AddLast(AddFirst(p, first, clusters, tolerance), last, q, tolerance)
         == AddFirst(p, first, AddLast(clusters, last, q, tolerance), tolerance)
  {
    if Close(p, first, tolerance) {
      JoinBothEnds(clusters, p, first, last, q, tolerance);
    } else {
      OpenFirst(clusters, p, first, last, q, tolerance);
    }
  }

  lemma OpenFirst(clusters: seq<seq<real>>, p: real, first: real, last: real, q: real, tolerance: real)
    requires clusters != [] && !Close(p, first, tolerance)
    ensures AddLast(AddFirst(p, first, clusters, tolerance), last, q, tolerance)
         == AddFirst(p, first, AddLast(clusters, last, q, tolerance), tolerance)
  {
    hide Close;
    var n := |clusters| - 1;
    assert ([[p]] + clusters)[..n + 1] == [[p]] + clusters[..n];
  }

  lemma JoinBothEnds(clusters: seq<seq<real>>, p: real, first: real, last: real, q: real, tolerance: real)
    requires clusters != [] && Close(p, first, tolerance)
    ensures AddLast(AddFirst(p, first, clusters, tolerance), last, q, tolerance)
         == AddFirst(p, first, AddLast(clusters, last, q, tolerance), tolerance)
  {
    hide Close;
    var n := |clusters| - 1;
    var joined := [[p] + clusters[0]] + clusters[1..];
    if !Close(last, q, tolerance) {
      assert (clusters + [[q]])[1..] == clusters[1..] + [[q]];
    } else if n == 0 {
      Regroup([p], clusters[0], [q]);
      assert clusters[..0] + [clusters[0] + [q]] == [clusters[0] + [q]];
      assert joined == [[p] + clusters[0]];
    } else {
      var after := clusters[..n] + [clusters[n] + [q]];
      assert after[1..] == clusters[1..n] + [clusters[n] + [q]];
      assert joined[..n] == [[p] + clusters[0]] + clusters[1..n];
    }
  }

  lemma AddTurns(clusters: seq<seq<real>>, last: real, p: real, tolerance: real)
    requires clusters != []
    ensures Turned(AddLast(clusters, last, p, tolerance)) == AddFirst(-p, -last, Turned(clusters), tolerance)
  {
    var n := |clusters| - 1;
    var after := AddLast(clusters, last, p, tolerance);
    assert Close(last, p, tolerance) == Close(-p, -last, tolerance);
    hide Close;
    if Close(last, p, tolerance) {
      assert after[..n] == clusters[..n];
      assert (clusters[n] + [p])[..|clusters[n]|] == clusters[n];
    } else {
      assert after[..n + 1] == clusters;
      assert Upside([p]) == [-p];
    }
  }

  lemma {:induction false} ClustersTurn(sorted: seq<real>, tolerance: real)
    ensures Clusters(Upside(sorted), tolerance) == Turned(Clusters(sorted, tolerance))
  {
    hide AddLast, AddFirst, Clusters, Turned;
    if sorted == [] {
      TurnNothing(tolerance);
    } else {
      var n := |sorted| - 1;
      var init, p := sorted[..n], sorted[n];
      ClustersTurn(init, tolerance);
      AddLastIs(sorted, tolerance);
      assert Upside(sorted) == [-p] + Upside(init);
      AddFirstIs(-p, Upside(init), tolerance);
      if init == [] {
        assert Upside(init) == [];
        TurnNothing(tolerance);
        NoneYet(p, tolerance);
        NoneYet(-p, tolerance);
        OneTurns(p);
      } else {
        assert Upside(init)[0] == -init[n - 1];
        AddTurns(Clusters(init, tolerance), init[n - 1], p, tolerance);
      }
    }
  }

  lemma TurnNothing(tolerance: real)
    ensures Clusters(Upside([]), tolerance) == Turned(Clusters([], tolerance)) == []
    ensures Clusters([], tolerance) == []
  {
  }

  lemma OneTurns(p: real)
    ensures Turned([[p]]) == [[-p]]
  {
    assert Upside([p]) == [-p];
    assert [[p]][..0] == [];
  }

  lemma {:induction false} SumFrom(x: real, group: seq<real>)
    ensures Sum([x] + group) == x + Sum(group)
  {
    if group == [] {
      assert [x] + group == [x] && [x][..0] == [];
    } else {
      var n := |group| - 1;
      assert ([x] + group)[..n + 1] == [x] + group[..n];
      SumFrom(x, group[..n]);
    }
  }

  lemma {:induction false} SumTurns(group: seq<real>)
    ensures Sum(Upside(group)) == -Sum(group)
  {
    if group != [] {
      SumFrom(-group[|group| - 1], Upside(group[..|group| - 1]));
      SumTurns(group[..|group| - 1]);
    }
  }

  lemma MeanTurns(group: seq<real>)
    requires group != []
    ensures Mean(Upside(group)) == -Mean(group)
  {
    SumTurns(group);
  }

  function LevelOf(group: seq<real>): seq<Level> {
    if |group| >= 2 then [Level(Mean(group), |group|)] else []
  }

  lemma {:induction false} LevelsFrom(group: seq<real>, clusters: seq<seq<real>>)
    ensures Levels([group] + clusters) == LevelOf(group) + Levels(clusters)
  {
    hide Mean;
    if clusters == [] {
      assert [group] + clusters == [group] && [group][..0] == [];
    } else {
      var n := |clusters| - 1;
      assert ([group] + clusters)[..n + 1] == [group] + clusters[..n];
      LevelsFrom(group, clusters[..n]);
    }
  }

  lemma {:induction false} LevelsTurn(clusters: seq<seq<real>>)
    ensures Levels(Turned(clusters)) == TurnedLevels(Levels(clusters))
  {
    hide Mean;
    if clusters != [] {
      var n := |clusters| - 1;
      LevelsTurn(clusters[..n]);
      LevelsFrom(Upside(clusters[n]), Turned(clusters[..n]));
      if |clusters[n]| >= 2 {
        MeanTurns(clusters[n]);
        var before := Levels(clusters[..n]);
        assert Levels(clusters)[..|before|] == before;
      }
    }
  }

  /** Neither side is favoured: negated prices give the negated levels, the last first, each with its count. */
  lemma EqualLevelsMirror(prices: seq<real>, tolerance: real)
    ensures EqualLevels(Negated(prices), tolerance) == TurnedLevels(EqualLevels(prices, tolerance))
  {
    hide SortPrices, Clusters, Levels, Upside, Turned;
    SortTurns(prices);
    ClustersTurn(SortPrices(prices), tolerance);
    LevelsTurn(Clusters(SortPrices(prices), tolerance));
  }
}
