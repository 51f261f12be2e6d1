/** Two copies of one candle series, patched by different code.

  The chart controller merges each patch into its own series; the adapter that feeds the
  drawing merges the same patch into another. Timestamps are milliseconds.
 */
module Candles {

  datatype Candle = Candle(timestamp: int, open: real, high: real, low: real, close: real, volume: real, complete: bool)

  datatype Kind = NewCandle | CandleUpdated | PriceUpdated

  predicate Increasing(series: seq<Candle>) {
    forall i, j :: 0 <= i < j < |series| ==> series[i].timestamp < series[j].timestamp
  }

  predicate Present(series: seq<Candle>, t: int) {
    exists i :: 0 <= i < |series| && series[i].timestamp == t
  }

  function Last(series: seq<Candle>): Candle
    requires series != []
  {
    series[|series| - 1]
  }

  // ---------------------------------------------------------------- the controller's merge

  /** The first bar at a time, or the length of the series. */
  function FirstAt(series: seq<Candle>, t: int): (i: nat)
    ensures i <= |series|
    ensures i < |series| ==> series[i].timestamp == t
    ensures forall j :: 0 <= j < i ==> series[j].timestamp != t
  {
    if series == [] || series[0].timestamp == t then 0 else 1 + FirstAt(series[1..], t)
  }

  /** Every field of a candle is present, so spreading a patch over a bar replaces it. */
  function Merge(series: seq<Candle>, patch: Candle): (seq<Candle>, Kind) {
    if series == [] then ([patch], NewCandle)
    else
      var last := Last(series);
      if patch.timestamp > last.timestamp then (series + [patch], NewCandle)
      else if patch.timestamp == last.timestamp then
        (series[..|series| - 1] + [patch],
         if !patch.complete && patch.close != last.close then PriceUpdated else CandleUpdated)
      else
        var i := FirstAt(series, patch.timestamp);
        if i < |series| then (series[i := patch], CandleUpdated)
        else (series + [patch], NewCandle)
  }

  // ---------------------------------------------------------------- the adapter's merge

  /** Every bar at the patch's time is replaced. */
  function Correct(series: seq<Candle>, patch: Candle): (r: seq<Candle>)
    ensures |r| == |series|
    ensures forall i :: 0 <= i < |series| ==>
              r[i] == if series[i].timestamp == patch.timestamp then patch else series[i]
  {
    seq(|series|, i requires 0 <= i < |series| => if series[i].timestamp == patch.timestamp then patch else series[i])
  }

  function Patched(series: seq<Candle>, patch: Candle): (seq<Candle>, Kind) {
    if series == [] || patch.timestamp > Last(series).timestamp then (series + [patch], NewCandle)
    else if patch.timestamp == Last(series).timestamp then (series[..|series| - 1] + [patch], CandleUpdated)
    else (Correct(series, patch), PriceUpdated)
  }

  // ---------------------------------------------------------------- the copies

  /** A patch both merges treat alike on a series without repeated times. */
  predicate Welcome(series: seq<Candle>, patch: Candle) {
    series == [] || patch.timestamp >= Last(series).timestamp || Present(series, patch.timestamp)
  }

  /** For any series, repeated times included: the copies agree exactly when the patch is not older than
    the last bar, or its time is present and every bar at that time but the first already is the patch. */
  lemma CopiesAgreeExactly(series: seq<Candle>, patch: Candle)
    ensures Merge(series, patch).0 == Patched(series, patch).0
      <==> || series == [] || patch.timestamp >= Last(series).timestamp
           || (var i := FirstAt(series, patch.timestamp);
               && i < |series|
               && forall j :: i < j < |series| && series[j].timestamp == patch.timestamp ==> series[j] == patch)
  {
    if series != [] && patch.timestamp < Last(series).timestamp {
      var i := FirstAt(series, patch.timestamp);
      var merged, corrected := Merge(series, patch).0, Patched(series, patch).0;
      if i == |series| {
        assert |merged| == |corrected| + 1;
      } else if merged == corrected {
        forall j | i < j < |series| && series[j].timestamp == patch.timestamp
          ensures series[j] == patch
        {
          assert merged[j] == corrected[j];
        }
      } else {
        var k :| 0 <= k < |series| && merged[k] != corrected[k];
      }
    }
  }

  /** What each copy reports of a patch. The controller says that the candle is new when the series, in order or not, had none
    at its time, and that a price moved when an unfinished last bar closes elsewhere; the adapter says that it is new when it
    is later than the last bar, and that a price moved whenever it is earlier. */
  lemma KindsExactly(series: seq<Candle>, patch: Candle)
    ensures var kind := Merge(series, patch).1;
            && (Increasing(series) ==> (kind == NewCandle <==> !Present(series, patch.timestamp)))
            && (kind == PriceUpdated <==> series != [] && Last(series).timestamp == patch.timestamp
                                          && !patch.complete && patch.close != Last(series).close)
    ensures var kind := Patched(series, patch).1;
            && (kind == NewCandle <==> series == [] || Last(series).timestamp < patch.timestamp)
            && (kind == PriceUpdated <==> series != [] && patch.timestamp < Last(series).timestamp)
  {
    if series != [] {
      var i := FirstAt(series, patch.timestamp);
      assert patch.timestamp == Last(series).timestamp ==> Present(series, patch.timestamp);
      assert i < |series| ==> Present(series, patch.timestamp);
    }
  }

  /** What one patch should leave: its bar at its time, and every other bar where it was. */
  function Placed(series: seq<Candle>, patch: Candle): seq<Candle> {
    if series == [] then [patch]
    else
      var last := Last(series);
      if last.timestamp < patch.timestamp then series + [patch]
      else if last.timestamp == patch.timestamp then series[..|series| - 1] + [patch]
      else Placed(series[..|series| - 1], patch) + [last]
  }

  lemma InitBelow(series: seq<Candle>, init: seq<Candle>, last: Candle)
    requires Increasing(series) && series == init + [last]
    ensures Increasing(init) && forall c :: c in init ==> c.timestamp < last.timestamp
    ensures forall t :: Present(series, t) <==> Present(init, t) || t == last.timestamp
  {
    assert forall i :: 0 <= i < |init| ==> init[i] == series[i];
    assert forall i :: 0 <= i < |init| ==> series[i].timestamp < series[|init|].timestamp;
    forall t
      ensures Present(series, t) <==> Present(init, t) || t == last.timestamp
    {
      assert series[|init|] == last;
      if Present(init, t) {
        var i :| 0 <= i < |init| && init[i].timestamp == t;
        assert series[i].timestamp == t;
      }
    }
  }

  lemma AppendNewer(series: seq<Candle>, c: Candle)
    requires Increasing(series) && forall b :: b in series ==> b.timestamp < c.timestamp
    ensures Increasing(series + [c])
  {
    forall i | 0 <= i < |series|
      ensures series[i].timestamp < c.timestamp
    {
      assert series[i] in series;
    }
  }

  lemma NotPresentAbove(series: seq<Candle>, t: int)
    requires forall c :: c in series ==> c.timestamp < t
    ensures !Present(series, t)
  {
  }

  lemma {:induction false} PlacedIs(series: seq<Candle>, patch: Candle)
    requires Increasing(series)
    ensures Increasing(Placed(series, patch))
    ensures forall c :: c in Placed(series, patch) <==> c == patch || (c in series && c.timestamp != patch.timestamp)
    ensures |Placed(series, patch)| == |series| + (if Present(series, patch.timestamp) then 0 else 1)
  {
    if series == [] {
    } else {
      hide Increasing, Present;
      var init, last := series[..|series| - 1], Last(series);
      assert series == init + [last];
      InitBelow(series, init, last);
      PlacedIs(init, patch);
      if patch.timestamp < last.timestamp {
        AppendNewer(Placed(init, patch), last);
      } else if patch.timestamp == last.timestamp {
        NotPresentAbove(init, patch.timestamp);
        AppendNewer(init, patch);
      } else {
        NotPresentAbove(init, patch.timestamp);
        AppendNewer(series, patch);
      }
    }
  }

  /** Two increasing series with the same bars are the same series. */
  lemma {:induction false} IncreasingUnique(a: seq<Candle>, b: seq<Candle>)
    requires Increasing(a) && Increasing(b) && forall c :: c in a <==> c in b
    ensures a == b
  {
    assert a != [] ==> a[0] in b;
    assert b != [] ==> b[0] in a;
    if a != [] && b != [] {
      hide Increasing;
      var x, y := a[..|a| - 1], b[..|b| - 1];
      assert a == x + [Last(a)] && b == y + [Last(b)];
      InitBelow(a, x, Last(a));
      InitBelow(b, y, Last(b));
      SameLast(x, Last(a), y, Last(b));
      IncreasingUnique(x, y);
    }
  }

  lemma SameLast(x: seq<Candle>, p: Candle, y: seq<Candle>, q: Candle)
    requires forall c :: c in x ==> c.timestamp < p.timestamp
    requires forall c :: c in y ==> c.timestamp < q.timestamp
    requires forall c :: c in x + [p] <==> c in y + [q]
    ensures p == q && forall c :: c in x <==> c in y
  {
    assert p in x + [p] && q in y + [q];
    assert p in y + [q] && q in x + [p];
    forall c
      ensures c in x <==> c in y
    {
      assert c in x ==> c in x + [p];
      assert c in y ==> c in y + [q];
    }
  }

  /** On a series in order, each merge does what it should exactly for a welcome patch. */
  lemma MergesPlaceExactly(series: seq<Candle>, patch: Candle)
    requires Increasing(series)
    ensures Merge(series, patch).0 == Placed(series, patch) <==> Welcome(series, patch)
    ensures Patched(series, patch).0 == Placed(series, patch) <==> Welcome(series, patch)
  {
    hide Placed;
    PlacedEnds(series, patch);
    PlacedIs(series, patch);
    if series != [] && patch.timestamp < Last(series).timestamp {
      var i := FirstAt(series, patch.timestamp);
      if i < |series| {
        CorrectOnce(series, patch, i);
      } else {
        assert !Present(series, patch.timestamp);
        assert !Increasing(series + [patch]) by {
          assert (series + [patch])[|series| - 1] == Last(series) && (series + [patch])[|series|] == patch;
        }
      }
    }
  }

  lemma PlacedEnds(series: seq<Candle>, patch: Candle)
    ensures series == [] ==> Placed(series, patch) == [patch]
    ensures series != [] && Last(series).timestamp < patch.timestamp ==> Placed(series, patch) == series + [patch]
    ensures series != [] && Last(series).timestamp == patch.timestamp ==>
              Placed(series, patch) == series[..|series| - 1] + [patch]
  {
  }

  lemma CorrectOnce(series: seq<Candle>, patch: Candle, i: nat)
    requires Increasing(series) && i < |series| && series[i].timestamp == patch.timestamp
    ensures series[i := patch] == Correct(series, patch) == Placed(series, patch)
  {
    hide Placed;
    var r := series[i := patch];
    assert r == Correct(series, patch);
    assert Increasing(r);
    PlacedIs(series, patch);
    forall c
      ensures c in r <==> c == patch || (c in series && c.timestamp != patch.timestamp)
    {
      assert r[i] == patch;
      if c in series && c.timestamp != patch.timestamp {
        var k :| 0 <= k < |series| && series[k] == c;
        assert r[k] == c;
      }
    }
    IncreasingUnique(r, Placed(series, patch));
  }

  // ---------------------------------------------------------------- deduplication

  /** The latest candle for each time, in order of time. */
  function Deduped(candles: seq<Candle>): seq<Candle> {
    if candles == [] then [] else Placed(Deduped(candles[..|candles| - 1]), candles[|candles| - 1])
  }

  /** The last candle of the input at its time. */
  ghost predicate LatestAt(candles: seq<Candle>, c: Candle) {
    exists i :: 0 <= i < |candles| && candles[i] == c
                && forall j :: i < j < |candles| ==> candles[j].timestamp != c.timestamp
  }

  /** What deduplication means, without saying how: in order of time, each time's latest candle, once. */
  lemma {:induction false} DedupedIs(candles: seq<Candle>)
    ensures Increasing(Deduped(candles))
    ensures forall c :: c in Deduped(candles) <==> LatestAt(candles, c)
  {
    hide Placed, Increasing;
    if candles == [] {
      assert Increasing([]) by { hide *; EmptyIncreases(); }
    } else {
      var init, last := candles[..|candles| - 1], candles[|candles| - 1];
      DedupedIs(init);
      PlacedIs(Deduped(init), last);
      forall c
        ensures c in Deduped(candles) <==> LatestAt(candles, c)
      {
        LatestStep(init, last, c);
        assert init + [last] == candles;
      }
    }
  }

  lemma EmptyIncreases()
    ensures Increasing([])
  {
  }

  lemma LatestStep(init: seq<Candle>, last: Candle, c: Candle)
    ensures LatestAt(init + [last], c) <==> c == last || (LatestAt(init, c) && c.timestamp != last.timestamp)
  {
    var all := init + [last];
    if c == last {
      assert all[|init|] == c;
    }
    if c != last && LatestAt(all, c) {
      var i :| 0 <= i < |all| && all[i] == c && forall j :: i < j < |all| ==> all[j].timestamp != c.timestamp;
      assert all[|init|].timestamp != c.timestamp;
      assert init[i] == c && forall j :: i < j < |init| ==> init[j] == all[j];
    }
    if LatestAt(init, c) && c.timestamp != last.timestamp {
      var i :| 0 <= i < |init| && init[i] == c && forall j :: i < j < |init| ==> init[j].timestamp != c.timestamp;
      assert all[i] == c;
      assert forall j :: i < j < |all| ==> all[j].timestamp != c.timestamp;
    }
  }

  /** Stable insertion by time: what sorting by timestamp does to values with distinct times. */
  function Insert(sorted: seq<Candle>, c: Candle): seq<Candle> {
    if sorted == [] || Last(sorted).timestamp <= c.timestamp then sorted + [c]
    else Insert(sorted[..|sorted| - 1], c) + [Last(sorted)]
  }

  function SortByTime(values: seq<Candle>): seq<Candle> {
    if values == [] then [] else Insert(SortByTime(values[..|values| - 1]), values[|values| - 1])
  }

  predicate DistinctTimes(values: seq<Candle>) {
    forall i, j :: 0 <= i < j < |values| ==> values[i].timestamp != values[j].timestamp
  }

  lemma {:induction false} InsertIsPlaced(sorted: seq<Candle>, c: Candle)
    requires !Present(sorted, c.timestamp)
    ensures Insert(sorted, c) == Placed(sorted, c)
  {
    if sorted != [] {
      assert sorted[|sorted| - 1] == Last(sorted);
      var init := sorted[..|sorted| - 1];
      assert forall i :: 0 <= i < |init| ==> init[i] == sorted[i];
      InsertIsPlaced(init, c);
    }
  }

  lemma {:induction false} SortByTimeSorts(values: seq<Candle>)
    requires DistinctTimes(values)
    ensures Increasing(SortByTime(values)) && forall c :: c in SortByTime(values) <==> c in values
  {
    hide Insert, Placed;
    if values != [] {
      var init, c := values[..|values| - 1], values[|values| - 1];
      SortByTimeSorts(init);
      var sorted := SortByTime(init);
      forall x | x in sorted
        ensures x.timestamp != c.timestamp
      {
        assert x in init;
      }
      assert forall i :: 0 <= i < |sorted| ==> sorted[i] in sorted;
      InsertIsPlaced(sorted, c);
      PlacedIs(sorted, c);
      assert values == init + [c];
    }
  }

  /** Setting a key of an insertion-ordered map: an existing key keeps its place. */
  function SetByTime(entries: seq<Candle>, c: Candle): seq<Candle> {
    var i := FirstAt(entries, c.timestamp);
    if i < |entries| then entries[i := c] else entries + [c]
  }

  lemma SetByTimeKeeps(entries: seq<Candle>, c: Candle)
    requires DistinctTimes(entries)
    ensures DistinctTimes(SetByTime(entries, c))
    ensures forall x :: x in SetByTime(entries, c) <==> x == c || (x in entries && x.timestamp != c.timestamp)
  {
    var i := FirstAt(entries, c.timestamp);
    var r := SetByTime(entries, c);
    forall x
      ensures x in r <==> x == c || (x in entries && x.timestamp != c.timestamp)
    {
      assert r[i] == c;
      if x in entries && x.timestamp != c.timestamp {
        var k :| 0 <= k < |entries| && entries[k] == x;
        assert r[k] == x;
      }
    }
  }

  /** Fill a map by timestamp, then sort its values. */
  method DedupeCandles(candles: seq<Candle>) returns (result: seq<Candle>)
    ensures result == Deduped(candles)
  {
    hide Placed, SetByTime, Increasing, LatestAt;
    var byTime: seq<Candle> := [];
    for i := 0 to |candles|
      invariant DistinctTimes(byTime)
      invariant forall c :: c in byTime <==> c in Deduped(candles[..i])
    {
      var next := candles[..i + 1];
      assert next[..i] == candles[..i];
      SetByTimeKeeps(byTime, candles[i]);
      DedupedIs(candles[..i]);
      PlacedIs(Deduped(candles[..i]), candles[i]);
      byTime := SetByTime(byTime, candles[i]);
    }
    assert candles[..|candles|] == candles;
    SortByTimeSorts(byTime);
    DedupedIs(candles);
    result := SortByTime(byTime);
    IncreasingUnique(result, Deduped(candles));
  }

  lemma {:induction false} DedupedOfIncreasing(series: seq<Candle>)
    requires Increasing(series)
    ensures Deduped(series) == series
  {
    if series != [] {
      var init := series[..|series| - 1];
      DedupedOfIncreasing(init);
      if init != [] { assert Last(init).timestamp < Last(series).timestamp; }
      assert series == init + [Last(series)];
    }
  }

  // ---------------------------------------------------------------- runs of patches

  function MergeAll(series: seq<Candle>, patches: seq<Candle>): seq<Candle> {
    if patches == [] then series
    else Merge(MergeAll(series, patches[..|patches| - 1]), patches[|patches| - 1]).0
  }

  function PatchAll(series: seq<Candle>, patches: seq<Candle>): seq<Candle> {
    if patches == [] then series
    else Patched(PatchAll(series, patches[..|patches| - 1]), patches[|patches| - 1]).0
  }

  /** Each patch is welcome when it arrives. */
  ghost predicate AllWelcome(series: seq<Candle>, patches: seq<Candle>) {
    forall k :: 0 <= k < |patches| ==> Welcome(MergeAll(series, patches[..k]), patches[k])
  }

  /** Any run of welcome patches: both copies stay equal and in order, and hold the latest candle for
    each time of everything that ever arrived. */
  lemma {:induction false} RunsStayInStep(series: seq<Candle>, patches: seq<Candle>)
    requires Increasing(series) && AllWelcome(series, patches)
    ensures Increasing(MergeAll(series, patches))
    ensures MergeAll(series, patches) == PatchAll(series, patches) == Deduped(series + patches)
  {
    hide Increasing, Merge, Patched, Placed, Welcome;
    if patches == [] {
      DedupedOfIncreasing(series);
      assert series + [] == series;
    } else {
      var init, p := patches[..|patches| - 1], patches[|patches| - 1];
      assert forall k :: 0 <= k < |init| ==> init[..k] == patches[..k] && init[k] == patches[k];
      assert patches[..|init|] == init;
      RunsStayInStep(series, init);
      MergesPlaceExactly(MergeAll(series, init), p);
      PlacedIs(MergeAll(series, init), p);
      assert (series + patches)[..|series + patches| - 1] == series + init;
    }
  }

  /** And the first patch that is not welcome separates them: the controller's copy is out of order,
    and the adapter's never hears of the candle. */
  lemma UnwelcomeSeparates(series: seq<Candle>, patch: Candle)
    requires Increasing(series) && !Welcome(series, patch)
    ensures !Increasing(Merge(series, patch).0) && Patched(series, patch).0 == series
    ensures patch in Merge(series, patch).0 && patch !in series
  {
    var i := FirstAt(series, patch.timestamp);
    assert i == |series|;
    var merged := Merge(series, patch).0;
    assert merged[|series|] == patch && merged[|series| - 1] == Last(series);
    assert Correct(series, patch) == series;
    assert forall k :: 0 <= k < |series| ==> series[k].timestamp != patch.timestamp;
  }

  /** The controller's copy is longer than the adapter's, which is in order, and holds nothing later. */
  ghost predicate Parted(merged: seq<Candle>, patched: seq<Candle>) {
    && patched != [] && Increasing(patched) && |patched| < |merged|
    && forall i :: 0 <= i < |merged| ==> merged[i].timestamp <= Last(patched).timestamp
  }

  /** No patch, welcome or not, brings parted copies back together. */
  lemma PartedStays(merged: seq<Candle>, patched: seq<Candle>, patch: Candle)
    requires Parted(merged, patched)
    ensures Parted(Merge(merged, patch).0, Patched(patched, patch).0)
  {
    var after := Patched(patched, patch).0;
    assert patch.timestamp <= Last(after).timestamp && Last(patched).timestamp <= Last(after).timestamp;
    assert Increasing(after);
  }

  lemma UnwelcomeParts(series: seq<Candle>, patch: Candle)
    requires Increasing(series) && !Welcome(series, patch)
    ensures Parted(Merge(series, patch).0, Patched(series, patch).0)
  {
    UnwelcomeSeparates(series, patch);
    assert forall i :: 0 <= i < |series| ==> series[i].timestamp <= Last(series).timestamp;
  }

  lemma WelcomeOneMore(series: seq<Candle>, patches: seq<Candle>)
    requires patches != []
    ensures var init := patches[..|patches| - 1];
            AllWelcome(series, patches)
            <==> AllWelcome(series, init) && Welcome(MergeAll(series, init), patches[|patches| - 1])
  {
    hide Welcome, MergeAll;
    var n := |patches| - 1;
    assert forall k :: 0 <= k <= n ==> patches[..n][..k] == patches[..k];
  }

  /** One patch that is not welcome parts the copies for good, whatever comes after it: they are equal after a
    run of patches exactly when each of them was welcome. */
  lemma {:induction false} RunsAgreeExactly(series: seq<Candle>, patches: seq<Candle>)
    requires Increasing(series)
    ensures MergeAll(series, patches) == PatchAll(series, patches) <==> AllWelcome(series, patches)
    ensures !AllWelcome(series, patches) ==> Parted(MergeAll(series, patches), PatchAll(series, patches))
  {
    hide Increasing, Merge, Patched, Welcome, AllWelcome;
    if patches == [] {
      assert AllWelcome(series, patches) by { NoneUnwelcome(series); }
    } else {
      var init, p := patches[..|patches| - 1], patches[|patches| - 1];
      WelcomeOneMore(series, patches);
      RunsAgreeExactly(series, init);
      var merged := MergeAll(series, init);
      if AllWelcome(series, patches) {
        RunsStayInStep(series, patches);
      } else if AllWelcome(series, init) {
        RunsStayInStep(series, init);
        UnwelcomeParts(merged, p);
      } else {
        PartedStays(merged, PatchAll(series, init), p);
      }
    }
  }

  lemma NoneUnwelcome(series: seq<Candle>)
    ensures AllWelcome(series, [])
  {
  }
}
