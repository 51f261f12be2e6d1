/** Supply and demand zones: where a decisive move left from, and price has not closed through since. */
module Zones {
  import opened Bars
  import opened Options
  import opened Rounding

  const MIN_CANDLES := 60
  const MIN_IMPULSE_ATR := 1.5
  const MAX_ZONES_PER_SIDE: nat := 3
  const MAX_ZONE_AGE_BARS := 240
  const UNITS := 10000.0

  datatype Side = Demand | Supply

  /** Strength and impulse are in units of 1/10000. */
  datatype Zone = Zone(side: Side, low: real, high: real, origin: nat, impulse: int, touches: nat, age: nat,
                       strength: int, distance: real)

  // ---------------------------------------------------------------- one bar

  /** Some later bar closes beyond the zone's far side. */
  predicate Consumed(side: Side, low: real, high: real, following: seq<Bar>) {
    exists i :: 0 <= i < |following| && if side.Demand? then following[i].close < low else following[i].close > high
  }

  function Touches(low: real, high: real, following: seq<Bar>): (n: nat)
    ensures n <= |following|
  {
    if following == [] then 0
    else
      var b := following[|following| - 1];
      Touches(low, high, following[..|following| - 1]) + if b.low <= high && b.high >= low then 1 else 0
  }

  /** Three components between 0 and 1, weighted to at most 1. */
  function Strength(impulse: real, touches: nat, age: nat): int {
    var impulseScore := Min(1.0, impulse / 3.0);
    var touchScore := Min(1.0, touches as real / 3.0);
    var recencyScore := Max(0.0, 1.0 - age as real / 240.0);
    RoundHalfEven((0.5 * impulseScore + 0.3 * touchScore + 0.2 * recencyScore) * UNITS)
  }

  /** The zone a bar leaves behind, if it does. */
  function ZoneAt(bars: seq<Bar>, atr: real, i: nat): Option<Zone>
    requires i < |bars| && atr > 0.0
  {
    var bar := bars[i];
    var body := Abs(bar.close - bar.open);
    if body < MIN_IMPULSE_ATR * atr then None
    else
      var side := if bar.close > bar.open then Demand else Supply;
      var low := if side.Demand? then bar.low else Max(bar.open, bar.close);
      var high := if side.Demand? then Min(bar.open, bar.close) else bar.high;
      var following := bars[i + 1..];
      if high <= low || Consumed(side, low, high, following) then None
      else
        var touches, age := Touches(low, high, following), |bars| - 1 - i;
        var last := bars[|bars| - 1].close;
        Some(Zone(side, low, high, i, RoundHalfEven(body / atr * UNITS), touches, age,
                  Strength(body / atr, touches, age), Abs((low + high) / 2.0 - last)))
  }

  function Start(n: nat): nat {
    if n > MAX_ZONE_AGE_BARS then n - MAX_ZONE_AGE_BARS else 1
  }

  /** The candidates up to bar `i`; the last bar leaves none. */
  function Candidates(bars: seq<Bar>, atr: real, i: nat): seq<Zone>
    requires i <= |bars| && atr > 0.0
  {
    if i <= Start(|bars|) then []
    else
      var before := Candidates(bars, atr, i - 1);
      var zone := ZoneAt(bars, atr, i - 1);
      if zone.Some? then before + [zone.value] else before
  }

  // ---------------------------------------------------------------- the strongest

  /** Strongest first, then nearest. */
  predicate Outranks(a: Zone, b: Zone) {
    a.strength > b.strength || (a.strength == b.strength && a.distance < b.distance)
  }

  function OnSide(zones: seq<Zone>, side: Side): seq<Zone> {
    if zones == [] then []
    else
      var before := OnSide(zones[..|zones| - 1], side);
      var z := zones[|zones| - 1];
      if z.side == side then before + [z] else before
  }

  /** Stable insertion: behind everything it does not outrank. */
  function Insert(ranked: seq<Zone>, z: Zone): seq<Zone> {
    if ranked == [] || !Outranks(z, ranked[|ranked| - 1]) then ranked + [z]
    else Insert(ranked[..|ranked| - 1], z) + [ranked[|ranked| - 1]]
  }

  function Rank(zones: seq<Zone>): seq<Zone> {
    if zones == [] then [] else Insert(Rank(zones[..|zones| - 1]), zones[|zones| - 1])
  }

  function Top(candidates: seq<Zone>, side: Side): seq<Zone> {
    var ranked := Rank(OnSide(candidates, side));
    if |ranked| > MAX_ZONES_PER_SIDE then ranked[..MAX_ZONES_PER_SIDE] else ranked
  }

  /** No zone outranks one before it. */
  predicate Ranked(zones: seq<Zone>) {
    forall i, j :: 0 <= i < j < |zones| ==> !Outranks(zones[j], zones[i])
  }

  lemma {:induction false} InsertKeeps(ranked: seq<Zone>, z: Zone)
    ensures multiset(Insert(ranked, z)) == multiset(ranked) + multiset{z}
  {
    hide Outranks;
    if ranked != [] {
      var init, last := ranked[..|ranked| - 1], ranked[|ranked| - 1];
      assert ranked == init + [last];
      InsertKeeps(init, z);
    }
  }

  lemma {:induction false} InsertRanks(ranked: seq<Zone>, z: Zone)
    requires Ranked(ranked)
    ensures Ranked(Insert(ranked, z))
  {
    if ranked != [] && Outranks(z, ranked[|ranked| - 1]) {
      var init, last := ranked[..|ranked| - 1], ranked[|ranked| - 1];
      InsertRanks(init, z);
      InsertKeeps(init, z);
      var longer := Insert(init, z);
      forall k | 0 <= k < |longer|
        ensures !Outranks(last, longer[k])
      {
        assert longer[k] in multiset(longer);
        if longer[k] != z {
          assert longer[k] in multiset(init);
          var i :| 0 <= i < |init| && init[i] == longer[k];
          assert ranked[i] == longer[k];
        }
      }
    }
  }

  lemma {:induction false} RankRanks(zones: seq<Zone>)
    ensures Ranked(Rank(zones)) && multiset(Rank(zones)) == multiset(zones)
  {
    if zones != [] {
      var init, last := zones[..|zones| - 1], zones[|zones| - 1];
      assert zones == init + [last];
      RankRanks(init);
      InsertRanks(Rank(init), last);
      InsertKeeps(Rank(init), last);
    }
  }

  /** What is reported for a side is the best of it: nothing left out outranks anything reported. */
  lemma TopIsStrongest(candidates: seq<Zone>, side: Side)
    ensures var top, all := Top(candidates, side), OnSide(candidates, side);
            && Ranked(top) && |top| == (if |all| < MAX_ZONES_PER_SIDE then |all| else MAX_ZONES_PER_SIDE)
            && multiset(top) <= multiset(all)
            && forall x, t :: x in multiset(all) - multiset(top) && t in top ==> !Outranks(x, t)
  {
    hide Rank, OnSide, Outranks;
    var top, all := Top(candidates, side), OnSide(candidates, side);
    RankRanks(all);
    var ranked := Rank(all);
    assert |ranked| == |multiset(ranked)| == |multiset(all)| == |all|;
    SplitRanked(ranked, |top|);
    var rest := ranked[|top|..];
    assert multiset(all) - multiset(top) == multiset(rest);
  }

  lemma SplitRanked(ranked: seq<Zone>, k: nat)
    requires Ranked(ranked) && k <= |ranked|
    ensures multiset(ranked) == multiset(ranked[..k]) + multiset(ranked[k..])
    ensures Ranked(ranked[..k]) && forall x, t :: x in multiset(ranked[k..]) && t in ranked[..k] ==> !Outranks(x, t)
  {
    hide Outranks;
    var top, rest := ranked[..k], ranked[k..];
    assert ranked == top + rest;
    forall x, t | x in multiset(rest) && t in top
      ensures !Outranks(x, t)
    {
      assert x in rest;
      var j :| 0 <= j < |rest| && rest[j] == x;
      var i :| 0 <= i < |top| && top[i] == t;
      assert ranked[k + j] == x && ranked[i] == t;
    }
  }

  // ---------------------------------------------------------------- the engine

  datatype Report = Unavailable | Report(demand: seq<Zone>, supply: seq<Zone>)

  function RunZones(bars: seq<Bar>, atr: Option<real>): Report {
    if |bars| < MIN_CANDLES || atr.None? || atr.value <= 0.0 then Unavailable
    else
      var candidates := Candidates(bars, atr.value, |bars| - 1);
      Report(Top(candidates, Demand), Top(candidates, Supply))
  }

  /** A stable sort in place of the list's own. */
  method SortSide(zones: seq<Zone>) returns (ranked: seq<Zone>)
    ensures ranked == Rank(zones)
  {
    ranked := [];
    for i := 0 to |zones|
      invariant ranked == Rank(zones[..i])
    {
      assert zones[..i + 1][..i] == zones[..i];
      ranked := Insert(ranked, zones[i]);
    }
    assert zones[..|zones|] == zones;
  }

  method TopOf(candidates: seq<Zone>, side: Side) returns (top: seq<Zone>)
    ensures top == Top(candidates, side)
  {
    var chosen: seq<Zone> := [];
    for i := 0 to |candidates|
      invariant chosen == OnSide(candidates[..i], side)
    {
      assert candidates[..i + 1][..i] == candidates[..i];
      if candidates[i].side == side {
        chosen := chosen + [candidates[i]];
      }
    }
    assert candidates[..|candidates|] == candidates;
    var ranked := SortSide(chosen);
    top := if |ranked| > MAX_ZONES_PER_SIDE then ranked[..MAX_ZONES_PER_SIDE] else ranked;
  }

  method RunZonesEngine(bars: seq<Bar>, atr: Option<real>) returns (report: Report)
    ensures report == RunZones(bars, atr)
  {
    hide ZoneAt, Top;
    if |bars| < MIN_CANDLES || atr.None? || atr.value <= 0.0 {
      return Unavailable;
    }
    var candidates: seq<Zone> := [];
    var start := Start(|bars|);
    for i := start to |bars| - 1
      invariant candidates == Candidates(bars, atr.value, i)
    {
      var zone := ZoneAt(bars, atr.value, i);
      if zone.Some? {
        candidates := candidates + [zone.value];
      }
    }
    var demand := TopOf(candidates, Demand);
    var supply := TopOf(candidates, Supply);
    report := Report(demand, supply);
  }

  // ---------------------------------------------------------------- what a zone means

  lemma {:induction false} CandidateIs(bars: seq<Bar>, atr: real, i: nat, z: Zone)
    requires i <= |bars| && atr > 0.0
    ensures z in Candidates(bars, atr, i) <==>
              Start(|bars|) <= z.origin < i && ZoneAt(bars, atr, z.origin) == Some(z)
  {
    hide ZoneAt;
    if i > Start(|bars|) {
      CandidateIs(bars, atr, i - 1, z);
      OriginIs(bars, atr, i - 1);
    }
  }

  lemma OriginIs(bars: seq<Bar>, atr: real, i: nat)
    requires i < |bars| && atr > 0.0
    ensures ZoneAt(bars, atr, i).Some? ==> ZoneAt(bars, atr, i).value.origin == i
  {
    hide Strength, Touches, Consumed, RoundHalfEven;
  }

  /** A stronger departure or another touch never makes a zone weaker, and age never makes it stronger. */
  lemma StrengthOrders(impulse: real, touches: nat, age: nat, more: real, often: nat, younger: nat)
    requires 0.0 <= impulse <= more && touches <= often && younger <= age
    ensures Strength(impulse, touches, age) <= Strength(more, often, younger)
  {
    hide RoundHalfEven;
    var x := (0.5 * Min(1.0, impulse / 3.0) + 0.3 * Min(1.0, touches as real / 3.0)
              + 0.2 * Max(0.0, 1.0 - age as real / 240.0)) * UNITS;
    var y := (0.5 * Min(1.0, more / 3.0) + 0.3 * Min(1.0, often as real / 3.0)
              + 0.2 * Max(0.0, 1.0 - younger as real / 240.0)) * UNITS;
    assert x <= y;
    RoundMonotone(x, y);
  }

  /** A bar that ran far enough. */
  predicate Decisive(b: Bar, atr: real) {
    Abs(b.close - b.open) >= 1.5 * atr
  }

  /** A bar leaves a zone exactly when it was decisive, left a base on the side it came from, and no later bar
    has closed beyond that base; the zone is the base, from the bar's extreme to where its body began. */
  lemma ZoneExactly(bars: seq<Bar>, atr: real, i: nat)
    requires i < |bars| && atr > 0.0
    ensures var bar, z := bars[i], ZoneAt(bars, atr, i);
            && (z.Some? <==>
                  Decisive(bar, atr)
                  && if bar.close > bar.open
                     then bar.low < bar.open && forall k :: i < k < |bars| ==> bars[k].close >= bar.low
                     else bar.open < bar.high && forall k :: i < k < |bars| ==> bars[k].close <= bar.high)
            && (z.Some? && bar.close > bar.open ==>
                  z.value.side == Demand && z.value.low == bar.low && z.value.high == bar.open)
            && (z.Some? && bar.close <= bar.open ==>
                  z.value.side == Supply && z.value.low == bar.open && z.value.high == bar.high)
  {
    hide Strength, Touches, RoundHalfEven, Consumed;
    var bar := bars[i];
    ConsumedExactly(bars, i, Demand, bar.low, bar.open);
    ConsumedExactly(bars, i, Supply, bar.open, bar.high);
  }

  lemma ConsumedExactly(bars: seq<Bar>, i: nat, side: Side, low: real, high: real)
    requires i < |bars|
    ensures Consumed(side, low, high, bars[i + 1..])
      <==> exists k :: i < k < |bars| && if side.Demand? then bars[k].close < low else bars[k].close > high
  {
    var following := bars[i + 1..];
    forall k | i < k < |bars|
      ensures bars[k] == following[k - i - 1]
    {
    }
    if Consumed(side, low, high, following) {
      var j :| 0 <= j < |following| && if side.Demand? then following[j].close < low else following[j].close > high;
      assert bars[i + 1 + j] == following[j];
    }
  }

  lemma StrengthBounded(impulse: real, touches: nat, age: nat)
    requires impulse >= 0.0
    ensures 0 <= Strength(impulse, touches, age) <= 10000
  {
    hide RoundHalfEven;
    var x := (0.5 * Min(1.0, impulse / 3.0) + 0.3 * Min(1.0, touches as real / 3.0)
              + 0.2 * Max(0.0, 1.0 - age as real / 240.0)) * UNITS;
    assert 0.0 <= x <= 10000.0;
    RoundMonotone(0.0, x);
    RoundMonotone(x, 10000.0);
    RoundWhole(0);
    RoundWhole(10000);
  }

  /** A reported zone has width, was left by a decisive bar no older than the window, still holds, and
    is as strong as it says: between 0 and 1. */
  lemma ZoneHolds(bars: seq<Bar>, atr: real, z: Zone)
    requires atr > 0.0 && bars != [] && z in Candidates(bars, atr, |bars| - 1)
    ensures z.low < z.high && 1 <= z.origin < |bars| - 1 && z.age == |bars| - 1 - z.origin < MAX_ZONE_AGE_BARS
    ensures forall k :: z.origin < k < |bars| ==>
              if z.side.Demand? then bars[k].close >= z.low else bars[k].close <= z.high
    ensures 0 <= z.strength <= 10000 && z.touches <= z.age
  {
    hide ZoneAt, Consumed, Strength;
    CandidateIs(bars, atr, |bars| - 1, z);
    ZoneExactly(bars, atr, z.origin);
    ZoneNumbers(bars, atr, z.origin);
  }

  lemma ZoneNumbers(bars: seq<Bar>, atr: real, i: nat)
    requires i < |bars| && atr > 0.0
    ensures var z := ZoneAt(bars, atr, i);
            z.Some? ==> z.value.age == |bars| - 1 - i && z.value.touches <= z.value.age && 0 <= z.value.strength <= 10000
  {
    hide Touches, Consumed, RoundHalfEven, Strength;
    var impulse := Abs(bars[i].close - bars[i].open) / atr;
    NotNegative(Abs(bars[i].close - bars[i].open), atr);
    var z := ZoneAt(bars, atr, i);
    if z.Some? { StrengthBounded(impulse, z.value.touches, z.value.age); }
  }

  lemma NotNegative(a: real, b: real)
    requires a >= 0.0 && b > 0.0
    ensures a / b >= 0.0
  {
  }

  // ---------------------------------------------------------------- what a report means

  predicate Meets(b: Bar, z: Zone) {
    b.low <= z.high && b.high >= z.low
  }

  /** What each part of a zone's strength is worth before rounding: half for the departure, in ranges up to three; three
    tenths for the touches, up to three; a fifth for being new, gone after 240 bars. */
  function Worth(impulse: real, touches: nat, age: nat): real {
    (if impulse < 3.0 then impulse / 6.0 else 0.5) + (if touches < 3 then touches as real / 10.0 else 0.3)
    + (if age < 240 then (240 - age) as real / 1200.0 else 0.0)
  }

  /** One more touch is worth a tenth up to three, one more range of impulse a sixth up to three, and one bar less of age
    the 1200th part up to 240. */
  lemma WorthSteps(impulse: real, touches: nat, age: nat)
    requires 0.0 <= impulse
    ensures Worth(impulse, touches + 1, age) - Worth(impulse, touches, age) == if touches < 3 then 0.1 else 0.0
    ensures impulse <= 2.0 ==> Worth(impulse + 1.0, touches, age) - Worth(impulse, touches, age) == 1.0 / 6.0
    ensures impulse >= 3.0 ==> Worth(impulse, touches, age) == Worth(3.0, touches, age)
    ensures Worth(impulse, touches, age) - Worth(impulse, touches, age + 1) == if age < 240 then 0.2 / 240.0 else 0.0
    ensures Worth(0.0, 0, 240) == 0.0
  {
  }

  lemma StrengthIsWorth(impulse: real, touches: nat, age: nat)
    requires 0.0 <= impulse
    ensures -1.0 <= 2.0 * (Strength(impulse, touches, age) as real - 10000.0 * Worth(impulse, touches, age)) <= 1.0
  {
    var exact := (0.5 * Min(1.0, impulse / 3.0) + 0.3 * Min(1.0, touches as real / 3.0)
                  + 0.2 * Max(0.0, 1.0 - age as real / 240.0)) * UNITS;
    assert exact == 10000.0 * Worth(impulse, touches, age) by { Parts(impulse, touches, age); }
    hide Worth, RoundHalfEven;
    assert Strength(impulse, touches, age) == RoundHalfEven(exact);
  }

  lemma Parts(impulse: real, touches: nat, age: nat)
    requires 0.0 <= impulse
    ensures (0.5 * Min(1.0, impulse / 3.0) + 0.3 * Min(1.0, touches as real / 3.0)
             + 0.2 * Max(0.0, 1.0 - age as real / 240.0)) * UNITS == 10000.0 * Worth(impulse, touches, age)
  {
    assert 0.5 * Min(1.0, impulse / 3.0) == if impulse < 3.0 then impulse / 6.0 else 0.5;
    assert 0.3 * Min(1.0, touches as real / 3.0) == if touches < 3 then touches as real / 10.0 else 0.3;
    assert 0.2 * Max(0.0, 1.0 - age as real / 240.0) == if age < 240 then (240 - age) as real / 1200.0 else 0.0;
  }

  /** Every number of a zone, from the bars: its touches are the later bars that meet it, counted; its impulse is the
    body in ranges; its distance is that of its middle from the last close; its strength is what these are worth. The
    impulse and the strength are rounded to four places. */
  lemma ZoneReports(bars: seq<Bar>, atr: real, k: nat, z: Zone)
    requires k < |bars| && atr > 0.0 && ZoneAt(bars, atr, k) == Some(z)
    ensures z.touches == |set j | k < j < |bars| && Meets(bars[j], z)|
    ensures z.age == |bars| - 1 - k && z.origin == k
    ensures var body := if bars[k].close > bars[k].open then bars[k].close - bars[k].open else bars[k].open - bars[k].close;
            var impulse := body / atr;
            && -1.0 <= 2.0 * (z.impulse as real - 10000.0 * impulse) <= 1.0
            && -1.0 <= 2.0 * (z.strength as real - 10000.0 * Worth(impulse, z.touches, z.age)) <= 1.0
    ensures z.distance >= 0.0 && (var last := bars[|bars| - 1].close;
              z.low + z.high == 2.0 * (last + z.distance) || z.low + z.high == 2.0 * (last - z.distance))
  {
    hide Consumed, Worth;
    var body := Abs(bars[k].close - bars[k].open);
    NotNegative(body, atr);
    StrengthIsWorth(body / atr, z.touches, z.age);
    assert z.impulse == RoundHalfEven(body / atr * UNITS);
    hide RoundHalfEven, Strength;
    assert z.touches == Touches(z.low, z.high, bars[k + 1..]);
    assert bars[k + 1..] == bars[k + 1..|bars|];
    TouchesCount(bars, k, |bars|, z);
  }

  /** The touches are the later bars that meet the zone, counted. */
  lemma {:induction false} TouchesCount(bars: seq<Bar>, k: nat, n: nat, z: Zone)
    requires k < n <= |bars|
    ensures Touches(z.low, z.high, bars[k + 1..n]) == |set j | k < j < n && Meets(bars[j], z)|
  {
    var all := set j | k < j < n && Meets(bars[j], z);
    hide Meets;
    if k + 1 < n {
      TouchesCount(bars, k, n - 1, z);
      OneMoreTouch(bars, k, n, z);
      OneMoreMeets(bars, k, n, z);
    } else {
      assert all == {};
    }
  }

  lemma OneMoreTouch(bars: seq<Bar>, k: nat, n: nat, z: Zone)
    requires k + 1 < n <= |bars|
    ensures Touches(z.low, z.high, bars[k + 1..n])
         == Touches(z.low, z.high, bars[k + 1..n - 1]) + if Meets(bars[n - 1], z) then 1 else 0
  {
    var later := bars[k + 1..n];
    assert later[..|later| - 1] == bars[k + 1..n - 1] && later[|later| - 1] == bars[n - 1];
  }

  lemma OneMoreMeets(bars: seq<Bar>, k: nat, n: nat, z: Zone)
    requires k + 1 < n <= |bars|
    ensures |set j | k < j < n && Meets(bars[j], z)|
         == |set j | k < j < n - 1 && Meets(bars[j], z)| + if Meets(bars[n - 1], z) then 1 else 0
  {
    hide Meets;
    var before := set j | k < j < n - 1 && Meets(bars[j], z);
    assert (set j | k < j < n && Meets(bars[j], z)) == if Meets(bars[n - 1], z) then before + {n - 1} else before;
  }

  /** The bars a zone can still come from: not the first, not the last, and none 240 bars old. */
  predicate Eligible(bars: seq<Bar>, k: int) {
    1 <= k < |bars| - 1 && |bars| - 1 - k < 240
  }

  /** A zone that one of the eligible bars leaves on this side. */
  predicate Offered(bars: seq<Bar>, atr: real, side: Side, z: Zone)
    requires atr > 0.0
  {
    z.side == side && z.origin < |bars| && Eligible(bars, z.origin) && ZoneAt(bars, atr, z.origin) == Some(z)
  }

  /** Stronger, or as strong and no further. */
  predicate NoWorse(a: Zone, b: Zone) {
    a.strength > b.strength || (a.strength == b.strength && a.distance <= b.distance)
  }

  /** Up to three of the zones offered on a side, none worse than one behind it, or than one that is left out; and one is
    left out only when there are three. */
  ghost predicate Shows(bars: seq<Bar>, atr: real, side: Side, shown: seq<Zone>)
    requires atr > 0.0
  {
    && |shown| <= 3 && (forall z <- shown :: Offered(bars, atr, side, z))
    && (forall i, j :: 0 <= i < j < |shown| ==> NoWorse(shown[i], shown[j]))
    && forall z :: Offered(bars, atr, side, z) && z !in shown ==> Crowded(shown, z)
  }

  /** A report exists for sixty bars and a positive range, and shows that for each side. */
  lemma ReportExactly(bars: seq<Bar>, atr: Option<real>)
    ensures RunZones(bars, atr).Report? <==> |bars| >= 60 && atr.Some? && atr.value > 0.0
    ensures RunZones(bars, atr).Report? ==>
              && Shows(bars, atr.value, Demand, RunZones(bars, atr).demand)
              && Shows(bars, atr.value, Supply, RunZones(bars, atr).supply)
  {
    hide Candidates, Top, Shows;
    if RunZones(bars, atr).Report? {
      TopShows(bars, atr.value, Demand);
      TopShows(bars, atr.value, Supply);
    }
  }

  lemma OfferedExactly(bars: seq<Bar>, atr: real, side: Side, z: Zone)
    requires atr > 0.0 && bars != []
    ensures Offered(bars, atr, side, z) <==> z in OnSide(Candidates(bars, atr, |bars| - 1), side)
  {
    hide ZoneAt, OnSide, Candidates;
    OnSideIs(Candidates(bars, atr, |bars| - 1), side, z);
    CandidateIs(bars, atr, |bars| - 1, z);
  }

  lemma TopShows(bars: seq<Bar>, atr: real, side: Side)
    requires atr > 0.0 && bars != []
    ensures Shows(bars, atr, side, Top(Candidates(bars, atr, |bars| - 1), side))
  {
    var candidates := Candidates(bars, atr, |bars| - 1);
    var shown := Top(candidates, side);
    hide ZoneAt, Top, Candidates, Offered, Crowded, OnSide;
    TopIsStrongest(candidates, side);
    forall z
      ensures z in shown ==> Offered(bars, atr, side, z)
      ensures Offered(bars, atr, side, z) && z !in shown ==> Crowded(shown, z)
    {
      OfferedExactly(bars, atr, side, z);
      assert z in shown ==> z in multiset(shown) && z in multiset(OnSide(candidates, side));
      if Offered(bars, atr, side, z) && z !in shown { LeftOut(candidates, side, z); }
    }
  }

  /** Three zones are shown, and each is stronger than this one, or as strong and no further. */
  predicate Crowded(shown: seq<Zone>, z: Zone) {
    |shown| == 3 && forall t <- shown :: NoWorse(t, z)
  }

  lemma LeftOut(candidates: seq<Zone>, side: Side, z: Zone)
    requires z in OnSide(candidates, side) && z !in Top(candidates, side)
    ensures Crowded(Top(candidates, side), z)
  {
    hide Top, OnSide;
    TopIsStrongest(candidates, side);
    var top, all := Top(candidates, side), OnSide(candidates, side);
    assert z in multiset(all) && z !in multiset(top);
    assert z in multiset(all) - multiset(top);
    assert |multiset(all) - multiset(top)| == |all| - |top|;
  }

  lemma {:induction false} OnSideIs(zones: seq<Zone>, side: Side, z: Zone)
    ensures z in OnSide(zones, side) <==> z in zones && z.side == side
  {
    if zones != [] {
      var init, last := zones[..|zones| - 1], zones[|zones| - 1];
      assert zones == init + [last];
      OnSideIs(init, side, z);
    }
  }

  // ---------------------------------------------------------------- the mirror

  function Other(side: Side): Side {
    if side.Demand? then Supply else Demand
  }

  function MirrorZone(z: Zone): Zone {
    z.(side := Other(z.side), low := -z.high, high := -z.low)
  }

  function MirrorZones(zones: seq<Zone>): (r: seq<Zone>)
    ensures |r| == |zones| && forall i :: 0 <= i < |r| ==> r[i] == MirrorZone(zones[i])
  {
    seq(|zones|, i requires 0 <= i < |zones| => MirrorZone(zones[i]))
  }

  lemma {:induction false} TouchesMirror(low: real, high: real, following: seq<Bar>)
    ensures Touches(-high, -low, Mirror(following)) == Touches(low, high, following)
  {
    if following != [] {
      var n := |following| - 1;
      MirrorSlice(following, 0, n);
      assert Mirror(following)[..n] == Mirror(following[..n]);
      TouchesMirror(low, high, following[..n]);
    }
  }

  lemma ConsumedMirrors(side: Side, low: real, high: real, following: seq<Bar>)
    ensures Consumed(Other(side), -high, -low, Mirror(following)) <==> Consumed(side, low, high, following)
  {
    var m := Mirror(following);
    if Consumed(side, low, high, following) {
      var i :| 0 <= i < |following| && if side.Demand? then following[i].close < low else following[i].close > high;
      assert m[i].close == -following[i].close;
    }
    if Consumed(Other(side), -high, -low, m) {
      var i :| 0 <= i < |m| && if Other(side).Demand? then m[i].close < -high else m[i].close > -low;
      assert m[i].close == -following[i].close;
    }
  }

  lemma ZoneAtMirrors(bars: seq<Bar>, atr: real, i: nat)
    requires i < |bars| && atr > 0.0
    ensures var z := ZoneAt(bars, atr, i);
            ZoneAt(Mirror(bars), atr, i) == if z.Some? then Some(MirrorZone(z.value)) else None
  {
    hide Strength, Touches, Consumed, RoundHalfEven;
    var bar := bars[i];
    var side := if bar.close > bar.open then Demand else Supply;
    var low := if side.Demand? then bar.low else Max(bar.open, bar.close);
    var high := if side.Demand? then Min(bar.open, bar.close) else bar.high;
    var following := bars[i + 1..];
    MirrorSlice(bars, i + 1, |bars|);
    assert Mirror(bars)[i + 1..] == Mirror(following);
    TouchesMirror(low, high, following);
    ConsumedMirrors(side, low, high, following);
  }

  lemma {:induction false} CandidatesMirror(bars: seq<Bar>, atr: real, i: nat)
    requires i <= |bars| && atr > 0.0
    ensures Candidates(Mirror(bars), atr, i) == MirrorZones(Candidates(bars, atr, i))
  {
    hide ZoneAt;
    if i > Start(|bars|) {
      CandidatesMirror(bars, atr, i - 1);
      ZoneAtMirrors(bars, atr, i - 1);
    }
  }

  lemma {:induction false} OnSideMirrors(zones: seq<Zone>, side: Side)
    ensures OnSide(MirrorZones(zones), Other(side)) == MirrorZones(OnSide(zones, side))
  {
    if zones != [] {
      var n := |zones| - 1;
      assert MirrorZones(zones)[..n] == MirrorZones(zones[..n]);
      OnSideMirrors(zones[..n], side);
    }
  }

  lemma {:induction false} InsertMirrors(ranked: seq<Zone>, z: Zone)
    ensures Insert(MirrorZones(ranked), MirrorZone(z)) == MirrorZones(Insert(ranked, z))
  {
    if ranked != [] {
      var n := |ranked| - 1;
      assert MirrorZones(ranked)[..n] == MirrorZones(ranked[..n]);
      InsertMirrors(ranked[..n], z);
    }
  }

  lemma {:induction false} RankMirrors(zones: seq<Zone>)
    ensures Rank(MirrorZones(zones)) == MirrorZones(Rank(zones))
  {
    if zones != [] {
      var n := |zones| - 1;
      assert MirrorZones(zones)[..n] == MirrorZones(zones[..n]);
      RankMirrors(zones[..n]);
      InsertMirrors(Rank(zones[..n]), zones[n]);
    }
  }

  lemma TopMirrors(candidates: seq<Zone>, side: Side)
    ensures Top(MirrorZones(candidates), Other(side)) == MirrorZones(Top(candidates, side))
  {
    OnSideMirrors(candidates, side);
    RankMirrors(OnSide(candidates, side));
  }

  /** Upside down, supply is demand: the same zones, as strong, as near and in the same order, on the
    other side. */
  lemma ZonesMirror(bars: seq<Bar>, atr: Option<real>)
    ensures var r := RunZones(bars, atr);
            RunZones(Mirror(bars), atr)
            == if r.Unavailable? then r else Report(MirrorZones(r.supply), MirrorZones(r.demand))
  {
    hide Candidates, Top;
    if |bars| >= MIN_CANDLES && atr.Some? && atr.value > 0.0 {
      CandidatesMirror(bars, atr.value, |bars| - 1);
      TopMirrors(Candidates(bars, atr.value, |bars| - 1), Demand);
      TopMirrors(Candidates(bars, atr.value, |bars| - 1), Supply);
    }
  }
}
