/** Whether a plan survives the market it was written for, and what it risks. */
module Plan {
  import opened Bars
  import opened Options
  import Liquidity

  const MIN_STOP_NOISE_MULTIPLE := 1.0
  const MIN_TARGET_ATR := 0.5
  const SPREAD_ATR_WARNING := 0.15

  datatype Context = Context(noise: real, atr: real, lastClose: real, bars: nat, spread: Option<real>)

  // ---------------------------------------------------------------- the noise floor

  /** What a bar gave back. */
  function Wick(b: Bar): real {
    (b.high - b.low) - Abs(b.close - b.open)
  }

  function Wicks(recent: seq<Bar>): seq<real> {
    if recent == [] then []
    else
      var before, b := Wicks(recent[..|recent| - 1]), recent[|recent| - 1];
      if b.high > b.low then before + [Wick(b)] else before
  }

  function Median(values: seq<real>): real
    requires values != []
  {
    Liquidity.SortPricesSorts(values);
    var sorted := Liquidity.SortPrices(values);
    assert |sorted| == |multiset(sorted)| == |values|;
    var half := |sorted| / 2;
    if |sorted| % 2 == 1 then sorted[half] else (sorted[half - 1] + sorted[half]) / 2.0
  }

  function Recent(bars: seq<Bar>, window: nat): seq<Bar> {
    if |bars| > window then bars[|bars| - window..] else bars
  }

  function MeasurePriceContext(bars: seq<Bar>, atr: real, spread: Option<real>, window: nat): Context
    requires window > 0
  {
    var recent := Recent(bars, window);
    var wicks := Wicks(recent);
    Context(if wicks == [] then 0.0 else Median(wicks), atr,
            if recent == [] then 0.0 else recent[|recent| - 1].close, |recent|, spread)
  }

  /** Half the values, in order, are no more than the median, and half are no less. */
  lemma MedianSplits(values: seq<real>, i: nat)
    requires i < |values|
    ensures var sorted := Liquidity.SortPrices(values);
            && |sorted| == |values|
            && (2 * i < |values| ==> sorted[i] <= Median(values))
            && (2 * i + 1 >= |values| ==> sorted[i] >= Median(values))
  {
    hide Liquidity.SortPrices;
    Liquidity.SortPricesSorts(values);
    var sorted := Liquidity.SortPrices(values);
    assert |sorted| == |multiset(sorted)| == |values|;
  }

  /** Of the last so many bars; and the middle of the values in order, or halfway between the two in the middle. */
  lemma RecentIs(bars: seq<Bar>, window: nat, i: nat)
    requires i < |Recent(bars, window)|
    ensures |Recent(bars, window)| == (if window < |bars| then window else |bars|)
    ensures Recent(bars, window)[|Recent(bars, window)| - 1 - i] == bars[|bars| - 1 - i]
  {
  }

  lemma MedianIs(values: seq<real>)
    requires values != []
    ensures var sorted, n := Liquidity.SortPrices(values), |values|;
            && |sorted| == n
            && (n % 2 == 1 ==> Median(values) == sorted[n / 2])
            && (n % 2 == 0 ==> 2.0 * Median(values) == sorted[n / 2 - 1] + sorted[n / 2])
  {
    hide Liquidity.SortPrices;
    Liquidity.SortPricesSorts(values);
    assert |multiset(Liquidity.SortPrices(values))| == |values|;
  }

  /** What is measured for a plan: the median of what the recent bars gave back, or nothing when none of them has a range;
    their number, and the last close. */
  lemma ContextIs(bars: seq<Bar>, atr: real, spread: Option<real>, window: nat)
    requires window > 0
    ensures var c, recent := MeasurePriceContext(bars, atr, spread, window), Recent(bars, window);
            && c.atr == atr && c.spread == spread && c.bars == (if window < |bars| then window else |bars|)
            && c.lastClose == (if bars == [] then 0.0 else bars[|bars| - 1].close)
            && (Wicks(recent) != [] ==> c.noise == Median(Wicks(recent)))
            && (Wicks(recent) == [] ==> c.noise == 0.0)
  {
    hide Median, Wicks;
  }

  /** A bar with any range counts, by what it gave back: its range less its body. */
  lemma {:induction false} WicksAre(recent: seq<Bar>, x: real)
    ensures x in Wicks(recent) <==>
              exists i :: 0 <= i < |recent| && recent[i].high > recent[i].low && x == recent[i].high - recent[i].low
                          - (if recent[i].close > recent[i].open then recent[i].close - recent[i].open
                             else recent[i].open - recent[i].close)
  {
    if recent != [] {
      var n := |recent| - 1;
      WicksAre(recent[..n], x);
      assert forall i :: 0 <= i < n ==> recent[..n][i] == recent[i];
    }
  }

  lemma {:induction false} WicksCount(recent: seq<Bar>)
    ensures |Wicks(recent)| == |set i | 0 <= i < |recent| && recent[i].high > recent[i].low|
  {
    hide Wick;
    if recent != [] {
      var n := |recent| - 1;
      WicksCount(recent[..n]);
      var before := set i | 0 <= i < n && recent[..n][i].high > recent[..n][i].low;
      var all := set i | 0 <= i < |recent| && recent[i].high > recent[i].low;
      assert all == if recent[n].high > recent[n].low then before + {n} else before;
    }
  }

  lemma MedianOfSame(values: seq<real>, x: real)
    requires values != [] && forall i :: 0 <= i < |values| ==> values[i] == x
    ensures Median(values) == x
  {
    hide Liquidity.SortPrices;
    Liquidity.SortPricesSorts(values);
    var sorted := Liquidity.SortPrices(values);
    assert |sorted| == |multiset(sorted)| == |values|;
    forall i | 0 <= i < |sorted|
      ensures sorted[i] == x
    {
      assert sorted[i] in multiset(sorted);
      assert sorted[i] in values;
    }
  }

  // ---------------------------------------------------------------- the checks

  datatype Failure = StopDistanceZero | NoPriceContext | StopInsideNoise | NoTarget | TargetInsideNoise
                   | RewardRiskUncomputable

  datatype Warning = RewardRiskBelowOne | SpreadWideRightNow

  datatype Verdict = Verdict(failures: seq<Failure>, warnings: seq<Warning>, rewardRisk: Option<real>)

  predicate Viable(v: Verdict) {
    v.failures == []
  }

  predicate Usable(c: Context) {
    c.bars > 0 && c.noise > 0.0 && c.atr > 0.0
  }

  function RewardRisk(entry: real, stop: real, target: Option<real>): Option<real> {
    if target.None? || !(Abs(entry - stop) > 0.0) then None
    else Some(Abs(target.value - entry) / Abs(entry - stop))
  }

  function FirstTarget(targets: seq<real>): Option<real> {
    if targets == [] then None else Some(targets[0])
  }

  method RunPlanSanityEngine(entry: real, stop: real, targets: seq<real>, context: Context) returns (verdict: Verdict)
    ensures verdict == Judged(entry, stop, targets, context)
  {
    hide Abs, RewardRisk, Usable;
    var stopDistance := Abs(entry - stop);
    if !(stopDistance > 0.0) {
      return Verdict([StopDistanceZero], [], None);
    }
    var failures: seq<Failure>, warnings: seq<Warning> := [], [];
    if !Usable(context) {
      failures := failures + [NoPriceContext];
    }
    assert failures == Keep(!Usable(context), NoPriceContext);
    ghost var sofar := failures;
    if context.noise > 0.0 {
      var required := context.noise * MIN_STOP_NOISE_MULTIPLE;
      if stopDistance < required {
        failures := failures + [StopInsideNoise];
      }
    }
    assert failures == sofar + Keep(context.noise > 0.0 && stopDistance < context.noise, StopInsideNoise);
    sofar := failures;
    var first := FirstTarget(targets);
    if first.None? {
      failures := failures + [NoTarget];
    } else if context.atr > 0.0 {
      var firstTargetAtr := Abs(first.value - entry) / context.atr;
      if firstTargetAtr < MIN_TARGET_ATR {
        failures := failures + [TargetInsideNoise];
      }
    }
    assert failures == sofar + Keep(first.None?, NoTarget) + Keep(TooNear(entry, first, context), TargetInsideNoise);
    sofar := failures;
    var rr := RewardRisk(entry, stop, first);
    if rr.None? {
      failures := failures + [RewardRiskUncomputable];
    } else if rr.value < 1.0 {
      warnings := warnings + [RewardRiskBelowOne];
    }
    assert failures == sofar + Keep(rr.None?, RewardRiskUncomputable);
    assert warnings == Keep(rr.Some? && rr.value < 1.0, RewardRiskBelowOne);
    ghost var warned := warnings;
    if context.spread.Some? && context.atr > 0.0 && context.spread.value > context.atr * SPREAD_ATR_WARNING {
      warnings := warnings + [SpreadWideRightNow];
    }
    assert warnings == warned + Keep(SpreadWide(context), SpreadWideRightNow);
    verdict := Verdict(failures, warnings, rr);
  }

  predicate TooNear(entry: real, first: Option<real>, context: Context) {
    first.Some? && context.atr > 0.0 && Abs(first.value - entry) / context.atr < MIN_TARGET_ATR
  }

  predicate SpreadWide(context: Context) {
    context.spread.Some? && context.atr > 0.0 && context.spread.value > context.atr * SPREAD_ATR_WARNING
  }

  function Keep<T>(condition: bool, x: T): seq<T> {
    if condition then [x] else []
  }

  function Judged(entry: real, stop: real, targets: seq<real>, context: Context): Verdict {
    var distance, first := Abs(entry - stop), FirstTarget(targets);
    var rr := RewardRisk(entry, stop, first);
    if distance <= 0.0 then Verdict([StopDistanceZero], [], None)
    else
      Verdict(Keep(!Usable(context), NoPriceContext)
              + Keep(context.noise > 0.0 && distance < context.noise, StopInsideNoise)
              + Keep(first.None?, NoTarget) + Keep(TooNear(entry, first, context), TargetInsideNoise)
              + Keep(rr.None?, RewardRiskUncomputable),
              Keep(rr.Some? && rr.value < 1.0, RewardRiskBelowOne) + Keep(SpreadWide(context), SpreadWideRightNow),
              rr)
  }

  lemma KeepHas<T>(condition: bool, x: T, y: T)
    ensures y in Keep(condition, x) <==> condition && y == x
  {
  }

  /** Every finding, on a plan whose stop is somewhere else than its entry, with its exact condition; and on any other plan
    that alone. The findings come in the order in which they are checked. */
  lemma FailuresExactly(entry: real, stop: real, targets: seq<real>, context: Context, f: Failure)
    ensures entry == stop ==> Judged(entry, stop, targets, context) == Verdict([StopDistanceZero], [], None)
    ensures entry != stop ==>
              (f in Judged(entry, stop, targets, context).failures
               <==> match f
                    case StopDistanceZero => false
                    case NoPriceContext => context.bars < 1 || context.noise <= 0.0 || context.atr <= 0.0
                    case StopInsideNoise => context.noise > 0.0 && Abs(entry - stop) < context.noise
                    case NoTarget => targets == []
                    case TargetInsideNoise => targets != [] && context.atr > 0.0 && 2.0 * Abs(targets[0] - entry) < context.atr
                    case RewardRiskUncomputable => targets == [])
  {
    if entry != stop {
      var first := FirstTarget(targets);
      KeepHas(!Usable(context), NoPriceContext, f);
      KeepHas(context.noise > 0.0 && Abs(entry - stop) < context.noise, StopInsideNoise, f);
      KeepHas(first.None?, NoTarget, f);
      KeepHas(TooNear(entry, first, context), TargetInsideNoise, f);
      KeepHas(RewardRisk(entry, stop, first).None?, RewardRiskUncomputable, f);
      if targets != [] && context.atr > 0.0 { Ratio(Abs(targets[0] - entry), context.atr, MIN_TARGET_ATR); }
      assert Abs(entry - stop) > 0.0;
      hide Keep, Abs;
    }
  }

  /** And the two warnings: a first target nearer than the stop, and a spread of more than 0.15 ranges. The reward to risk is
    the ratio of the two distances. */
  lemma WarningsExactly(entry: real, stop: real, targets: seq<real>, context: Context, w: Warning)
    requires entry != stop
    ensures var v := Judged(entry, stop, targets, context);
            && (w in v.warnings
                <==> match w
                     case RewardRiskBelowOne => targets != [] && Abs(targets[0] - entry) < Abs(entry - stop)
                     case SpreadWideRightNow =>
                       context.spread.Some? && context.atr > 0.0 && 20.0 * context.spread.value > 3.0 * context.atr)
            && (v.rewardRisk.Some? <==> targets != [])
            && (targets != [] ==> v.rewardRisk.value * Abs(entry - stop) == Abs(targets[0] - entry))
  {
    var rr := RewardRisk(entry, stop, FirstTarget(targets));
    KeepHas(rr.Some? && rr.value < 1.0, RewardRiskBelowOne, w);
    KeepHas(SpreadWide(context), SpreadWideRightNow, w);
    assert Abs(entry - stop) > 0.0;
    if targets != [] {
      Ratio(Abs(targets[0] - entry), Abs(entry - stop), 1.0);
      MultiplyBack(Abs(targets[0] - entry), Abs(entry - stop));
    }
    hide Keep, Abs;
  }

  lemma Ratio(a: real, b: real, k: real)
    requires b > 0.0
    ensures a / b < k <==> a < k * b
  {
    var q := a / b;
    assert q * b == a;
    if q < k { assert q * b < k * b; }
  }

  /** A plan passes exactly when the market was measured, the stop is no closer than the noise, and there
    is a first target no closer than half an average range. Spread and reward never decide it. */
  lemma ViableExactly(entry: real, stop: real, targets: seq<real>, context: Context)
    ensures Viable(Judged(entry, stop, targets, context))
      <==> && context.bars >= 1 && context.noise > 0.0 && context.atr > 0.0
           && Abs(entry - stop) >= context.noise
           && targets != [] && Abs(targets[0] - entry) >= 0.5 * context.atr
  {
    if targets != [] && context.atr > 0.0 {
      Ratio(Abs(targets[0] - entry), context.atr, MIN_TARGET_ATR);
    }
  }

  /** A viable plan's stop clears the wicks of half the bars it was measured on. */
  lemma ViableClearsHalf(bars: seq<Bar>, atr: real, spread: Option<real>, window: nat, entry: real, stop: real,
                         targets: seq<real>, i: nat)
    requires window > 0
    requires Viable(Judged(entry, stop, targets, MeasurePriceContext(bars, atr, spread, window)))
    requires 2 * i < |Wicks(Recent(bars, window))|
    ensures var sorted := Liquidity.SortPrices(Wicks(Recent(bars, window)));
            && multiset(sorted) == multiset(Wicks(Recent(bars, window)))
            && |sorted| == |Wicks(Recent(bars, window))| && sorted[i] <= Abs(entry - stop)
  {
    hide Judged, Median, Liquidity.SortPrices, Wicks;
    ViableExactly(entry, stop, targets, MeasurePriceContext(bars, atr, spread, window));
    MedianSplits(Wicks(Recent(bars, window)), i);
    Liquidity.SortPricesSorts(Wicks(Recent(bars, window)));
  }

  // ---------------------------------------------------------------- risk

  datatype Direction = Buy | Sell

  datatype Risk = InvalidStop
                | Sized(direction: Direction, units: real, distance: real, rewardRisk: Option<real>)

  function RunRisk(entry: real, stop: real, targets: seq<real>, riskPercent: real): Risk {
    var distance := Abs(entry - stop);
    if distance <= 0.0 then InvalidStop
    else
      var direction := if stop > entry then Sell else Buy;
      var ahead := targets != [] && if direction.Buy? then targets[0] > entry else targets[0] < entry;
      Sized(direction, riskPercent / 100.0 / distance, distance,
            if ahead then Some(Abs(targets[0] - entry) / distance) else None)
  }

  /** The sizer refuses exactly the plans that the plan check calls unpriceable. */
  lemma RefusalsAgree(entry: real, stop: real, targets: seq<real>, riskPercent: real, context: Context)
    ensures RunRisk(entry, stop, targets, riskPercent).InvalidStop?
      <==> StopDistanceZero in Judged(entry, stop, targets, context).failures
  {
    hide RewardRisk, Usable, TooNear, SpreadWide, Keep;
    forall condition, finding: Failure
      ensures StopDistanceZero in Keep(condition, finding) ==> finding == StopDistanceZero
    {
      KeepsOne(condition, finding);
    }
    hide Abs;
  }

  lemma KeepsOne<T>(condition: bool, x: T)
    ensures forall y :: y in Keep(condition, x) ==> y == x
  {
  }

  lemma MultiplyBack(x: real, d: real)
    requires d != 0.0
    ensures x / d * d == x
  {
  }

  /** A sized plan loses exactly its risk at its stop, on the side the stop says; a reward is stated only
    for a target on the other side of entry from the stop, it is then the plan's own, and positive. */
  lemma RiskMeans(entry: real, stop: real, targets: seq<real>, riskPercent: real)
    ensures var r := RunRisk(entry, stop, targets, riskPercent);
            r.Sized? ==>
              && r.units * Abs(entry - stop) == riskPercent / 100.0
              && (r.direction.Buy? <==> stop < entry)
              && (r.rewardRisk.Some? <==> targets != [] && (stop < entry < targets[0] || targets[0] < entry < stop))
              && (r.rewardRisk.Some? ==> r.rewardRisk == RewardRisk(entry, stop, FirstTarget(targets))
                                         && r.rewardRisk.value > 0.0)
  {
    var d := Abs(entry - stop);
    if d > 0.0 {
      MultiplyBack(riskPercent / 100.0, d);
      if targets != [] && targets[0] != entry { Positive(Abs(targets[0] - entry), d); }
    }
  }

  lemma Positive(a: real, b: real)
    requires a > 0.0 && b > 0.0
    ensures a / b > 0.0
  {
  }

  // ---------------------------------------------------------------- the mirror

  function MirrorPrices(prices: seq<real>): (r: seq<real>)
    ensures |r| == |prices| && forall i :: 0 <= i < |r| ==> r[i] == -prices[i]
  {
    seq(|prices|, i requires 0 <= i < |prices| => -prices[i])
  }

  lemma AbsNegate(a: real, b: real)
    ensures Abs(-a - -b) == Abs(a - b)
  {
  }

  lemma {:induction false} WicksMirror(recent: seq<Bar>)
    ensures Wicks(Mirror(recent)) == Wicks(recent)
  {
    if recent != [] {
      var n := |recent| - 1;
      MirrorSlice(recent, 0, n);
      assert Mirror(recent)[..n] == Mirror(recent[..n]);
      WicksMirror(recent[..n]);
      AbsNegate(recent[n].close, recent[n].open);
    }
  }

  lemma JudgedMirrors(entry: real, stop: real, targets: seq<real>, context: Context)
    ensures Judged(-entry, -stop, MirrorPrices(targets), context.(lastClose := -context.lastClose))
         == Judged(entry, stop, targets, context)
  {
    AbsNegate(entry, stop);
    if targets != [] { AbsNegate(targets[0], entry); }
    hide Abs, Keep;
  }

  lemma RiskMirrors(entry: real, stop: real, targets: seq<real>, riskPercent: real)
    ensures var r := RunRisk(entry, stop, targets, riskPercent);
            RunRisk(-entry, -stop, MirrorPrices(targets), riskPercent)
            == if r.InvalidStop? then r else r.(direction := if r.direction.Buy? then Sell else Buy)
  {
    AbsNegate(entry, stop);
    if targets != [] { AbsNegate(targets[0], entry); }
    DistanceZero(entry, stop);
    hide Abs;
  }

  lemma DistanceZero(entry: real, stop: real)
    ensures Abs(entry - stop) <= 0.0 <==> entry == stop
  {
  }

  /** Upside down, the market is as noisy. */
  lemma ContextMirrors(bars: seq<Bar>, atr: real, spread: Option<real>, window: nat)
    requires window > 0
    ensures var c := MeasurePriceContext(bars, atr, spread, window);
            MeasurePriceContext(Mirror(bars), atr, spread, window) == c.(lastClose := -c.lastClose)
  {
    hide Median, Wicks, Recent, Mirror;
    RecentMirrors(bars, window);
    WicksMirror(Recent(bars, window));
  }

  lemma RecentMirrors(bars: seq<Bar>, window: nat)
    ensures Recent(Mirror(bars), window) == Mirror(Recent(bars, window))
  {
    if |bars| > window { MirrorSlice(bars, |bars| - window, |bars|); }
  }

  /** And the plan is as viable, for the same reasons. */
  lemma PlanMirrors(bars: seq<Bar>, atr: real, spread: Option<real>, window: nat, entry: real, stop: real,
                    targets: seq<real>)
    requires window > 0
    ensures Judged(-entry, -stop, MirrorPrices(targets), MeasurePriceContext(Mirror(bars), atr, spread, window))
         == Judged(entry, stop, targets, MeasurePriceContext(bars, atr, spread, window))
  {
    hide Judged, MeasurePriceContext;
    ContextMirrors(bars, atr, spread, window);
    JudgedMirrors(entry, stop, targets, MeasurePriceContext(bars, atr, spread, window));
  }
}
