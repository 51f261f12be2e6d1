/** The gates between an analysis and a published direction, in order. */
module Orchestrator {
  import opened Bars
  import opened Decision
  import opened Options
  import Evidence
  import Liquidity
  import MarketMirror
  import Mtf
  import Plan
  import Scenario
  import Synthesizer
  import Zones

  const NOISE_WINDOW: nat := 50

  type DecisionFrame = f: Evidence.Frame | f.M1? || f.M5? || f.M15? witness Evidence.M1

  /** Stop in ranges, and the two targets in multiples of the stop. */
  datatype Policy = Policy(stopMultiple: real, firstTarget: real, secondTarget: real)

  function PolicyFor(frame: DecisionFrame): Policy {
    match frame
    case M1 => Policy(0.8, 1.2, 2.0)
    case M5 => Policy(0.8, 1.2, 2.0)
    case M15 => Policy(1.2, 1.5, 2.5)
  }

  function FrameName(frame: DecisionFrame): (name: string)
    ensures name != ""
  {
    match frame
    case M1 => "M1"
    case M5 => "M5"
    case M15 => "M15"
  }

  /** What a run is given: the bars with the time of the last, and what is read elsewhere. `regime` says whether the
    regime could be classified, `frame` is the one that was chosen, if any. */
  datatype Input = Input(bars: seq<Bar>, lastBar: int, structure: Scenario.Bias, support: Option<real>,
                         resistance: Option<real>, regime: bool, mtf: Mtf.Outlook, frame: Option<DecisionFrame>,
                         news: Evidence.News, open: bool, now: int, constitution: bool, provider: bool,
                         complete: (int, seq<Synthesizer.Message>) -> Synthesizer.Reply,
                         prompt: Option<seq<Synthesizer.Message>>, prices: Synthesizer.Measured)

  /** What the scenarios are drawn from; structure has an answer as soon as there are bars enough. */
  function EvidenceFor(i: Input): Scenario.Evidence {
    MarketMirror.EvidenceOf(i.bars, if |i.bars| < Zones.MIN_CANDLES then None else Some(i.structure), i.support,
                            i.resistance, MarketMirror.TradeBias(i.mtf))
  }

  /** The engines without an answer, by name. The volatility engine always has one. */
  function Missing(i: Input): seq<string> {
    Plan.Keep(|i.bars| < Zones.MIN_CANDLES, "geometry") + Plan.Keep(|i.bars| < Zones.MIN_CANDLES, "liquidity")
    + Plan.Keep(!i.regime, "market_intelligence") + Plan.Keep(i.mtf.NoOutlook?, "mtf")
    + Plan.Keep(Scenario.RunScenario(EvidenceFor(i)).Unavailable?, "scenarios")
    + Plan.Keep(|i.bars| < Zones.MIN_CANDLES, "structure")
    + Plan.Keep(Zones.RunZones(i.bars, AverageRange(i.bars)).Unavailable?, "zones")
  }

  /** The range that distances are measured in; none measured counts as zero. */
  function AtrOf(i: Input): real {
    if AverageRange(i.bars).Some? then AverageRange(i.bars).value else 0.0
  }

  /** Every place a price was measured, the zones being those of these bars. */
  function MeasuredBy(i: Input): Synthesizer.Measured {
    i.prices.(zones := Zones.RunZones(i.bars, AverageRange(i.bars)))
  }

  /** What the evidence gate is handed, once every engine has answered: their answers are there, the last bar is
    these bars', and the frame is the chosen one. */
  function ReadingsFor(i: Input, frame: DecisionFrame): Evidence.Readings {
    Evidence.Readings(true, true, true, true, EvidenceFor(i).sweep.Some? && EvidenceFor(i).sweep.value.Some?,
                      false, i.open, i.news, i.lastBar, i.now, frame)
  }

  /** The name of the check that blocks, if one does. */
  function BlockFor(i: Input): Option<string>
    requires i.frame.Some?
  {
    Evidence.BlockReason(Evidence.Assess(ReadingsFor(i, i.frame.value)))
  }

  const MAX_REPAIRS: nat := 2

  function FailClosed(reason: Reason): Decision {
    Decision(NoTrade, None, None, None, None, "", true, Some(reason), None, None)
  }

  /** The plan of the geometry alone: a long from the last close. */
  function GeometricPlan(entry: real, atr: real, p: Policy): Levels {
    var distance := atr * p.stopMultiple;
    Levels(entry, entry - distance, [entry + distance * p.firstTarget, entry + distance * p.secondTarget])
  }

  function ContextOf(i: Input): Plan.Context {
    Plan.MeasurePriceContext(i.bars, AtrOf(i), None, NOISE_WINDOW)
  }

  predicate PlanPasses(l: Levels, c: Plan.Context) {
    Plan.Viable(Plan.Judged(l.entry, l.stop, l.targets, c))
  }

  function SessionOf(i: Input, frame: DecisionFrame): Synthesizer.Session {
    Synthesizer.Session(i.complete, FrameName(frame), Synthesizer.Menu(MeasuredBy(i)), AtrOf(i), MAX_REPAIRS)
  }

  function Asked(i: Input): Synthesizer.Outcome
    requires i.frame.Some?
  {
    Synthesizer.Synthesized(SessionOf(i, i.frame.value), i.prompt)
  }

  /** The operational fact a failed synthesis reports. */
  function ReasonFor(o: Synthesizer.Outcome): DegradedReason {
    match o
    case ProviderFailed(code, _, _) =>
      if code == "rate_limit" || code == "provider_billing" then LlmRateLimited
      else if code == "provider_bad_request" then LlmBadRequest
      else if code == "timeout" then LlmTimeout
      else LlmUnavailable
    case Exhausted(LevelsUngrounded, _, _) => LevelsNotGrounded
    case Exhausted(RepairExhausted, _, _) => ModelOutputInvalid
    case _ => LlmUnavailable
  }

  /** The plan of the geometry alone survives the market. */
  predicate RoughPasses(i: Input)
    requires i.bars != [] && i.frame.Some?
  {
    PlanPasses(GeometricPlan(i.bars[|i.bars| - 1].close, AtrOf(i), PolicyFor(i.frame.value)), ContextOf(i))
  }

  /** Every gate before the evidence is assessed. */
  predicate Analyzed(i: Input) {
    i.bars != [] && Missing(i) == [] && i.frame.Some? && RoughPasses(i)
  }

  /** Every gate before the model is asked. */
  predicate Admitted(i: Input) {
    && Analyzed(i)
    && BlockFor(i).None?
    && i.constitution && i.provider
  }

  /** Every gate. */
  predicate Open(i: Input) {
    Admitted(i) && Asked(i).Decided? && Asked(i).decision.levels.Some?
    && PlanPasses(Asked(i).decision.levels.value, ContextOf(i))
  }

  /** The evidence gate gives the name of the check that blocked, which is none of the listed reasons. */
  function Blocked(check: string): Reason {
    Other("EVIDENCE_" + Upper(check))
  }

  /** The names of the checks are lower-case letters and underscores. */
  function Upper(name: string): string {
    seq(|name|, i requires 0 <= i < |name| =>
      if 'a' <= name[i] <= 'z' then (name[i] as int - 'a' as int + 'A' as int) as char else name[i])
  }

  /** The first gate that is shut. */
  function Shut(i: Input): Reason
    requires !Open(i)
  {
    if i.bars == [] then Listed(NoCandles)
    else if Missing(i) != [] then Listed(EngineUnavailable)
    else if i.frame.None? then Listed(NoViableTimeframe)
    else if !RoughPasses(i) then Listed(PlanNotViable)
    else if BlockFor(i).Some? then
      Blocked(BlockFor(i).value)
    else if !i.constitution then Listed(PromptUnavailable)
    else if !i.provider then Listed(LlmUnavailable)
    else if Asked(i).Decided? then Listed(PlanNotViable)
    else Listed(ReasonFor(Asked(i)))
  }

  /** With every gate open, the model's decision under the frame that was chosen; otherwise a refusal that
    names the first gate that was shut. */
  function Published(i: Input): Decision {
    if Open(i) then Asked(i).decision.(timeframe := FrameName(i.frame.value)) else FailClosed(Shut(i))
  }

  /** The gates in order, with an early way out at each. */
  method RunAnalysis(i: Input) returns (decision: Decision)
    ensures decision == Published(i)
  {
    hide Synthesizer.Synthesized, Plan.Judged, Plan.MeasurePriceContext, Evidence.Assess;
    hide Scenario.RunScenario, Zones.RunZones, AverageRange, MarketMirror.SweepSide, Synthesizer.Menu;
    if i.bars == [] {
      return FailClosed(Listed(NoCandles));
    }
    var atr := ComputeAtr(i.bars);
    var zones := Zones.RunZonesEngine(i.bars, atr);
    var sweep := MarketMirror.RunLiquidityEngine(i.bars);
    var few := |i.bars| < Zones.MIN_CANDLES;
    var scenarios := Scenario.RunScenarioEngine(
      Scenario.Evidence(if few then None else Some(i.structure), i.support, i.resistance, sweep, zones,
                        MarketMirror.TradeBias(i.mtf)));
    if few || !i.regime || i.mtf.NoOutlook? || scenarios.Unavailable? || zones.Unavailable? {
      return FailClosed(Listed(EngineUnavailable));
    }
    if i.frame.None? {
      return FailClosed(Listed(NoViableTimeframe));
    }
    var frame := i.frame.value;
    var context := ContextOf(i);
    var rough := GeometricPlan(i.bars[|i.bars| - 1].close, AtrOf(i), PolicyFor(frame));
    var sanity := Plan.RunPlanSanityEngine(rough.entry, rough.stop, rough.targets, context);
    if !Plan.Viable(sanity) {
      return FailClosed(Listed(PlanNotViable));
    }
    var block := BlockFor(i);
    if block.Some? {
      return FailClosed(Blocked(block.value));
    }
    if !i.constitution {
      return FailClosed(Listed(PromptUnavailable));
    }
    if !i.provider {
      return FailClosed(Listed(LlmUnavailable));
    }
    var levels := Synthesizer.EvidenceLevels(i.prices.(zones := zones));
    var session := Synthesizer.Session(i.complete, FrameName(frame), levels, AtrOf(i), MAX_REPAIRS);
    var outcome := Synthesizer.SynthesizeDecision(session, i.prompt);
    if !outcome.Decided? {
      return FailClosed(Listed(ReasonFor(outcome)));
    }
    DecidedIsSound(i);
    var plan := outcome.decision.levels.value;
    var again := Plan.RunPlanSanityEngine(plan.entry, plan.stop, plan.targets, context);
    if !Plan.Viable(again) {
      return FailClosed(Listed(PlanNotViable));
    }
    decision := outcome.decision.(timeframe := FrameName(frame));
  }

  /** What the model decided has passed the contract and is grounded. */
  lemma DecidedIsSound(i: Input)
    requires i.frame.Some? && Asked(i).Decided?
    ensures var d := Asked(i).decision;
            && Check(d).None? && (d.direction.Buy? || d.direction.Sell?) && d.levels.Some?
            && Synthesizer.Grounded(d.levels.value, Synthesizer.Menu(MeasuredBy(i)), AtrOf(i))
            && d.timeframe == FrameName(i.frame.value)
            && 1 <= Asked(i).attempts <= MAX_REPAIRS + 1 && |Asked(i).repairs| == Asked(i).attempts - 1
  {
    hide Synthesizer.Menu, Synthesizer.Judge, Synthesizer.Grounded, CheckFields, Synthesizer.Tolerance;
    var s := SessionOf(i, i.frame.value);
    Synthesizer.SessionsAreExplained(s, i.prompt.value);
    var n := Asked(i).attempts;
    var reply := s.complete(n, Synthesizer.Conversation(s, i.prompt.value, n - 1));
    Synthesizer.JudgedExactly(reply, s.timeframe, s.levels, s.atr);
    hide Synthesizer.Synthesized, Synthesizer.Conversation;
  }

  /** The run got as far as the evidence gate and was stopped there. */
  predicate StoppedByEvidence(i: Input) {
    Analyzed(i) && BlockFor(i).Some?
  }

  /** A direction leaves exactly when every gate is open, and every other way out is a degraded refusal that
    names the first gate that was shut. The contract accepts what is published, whatever the provider did,
    exactly when the run was not stopped by the evidence gate. */
  lemma DirectionMeansOpen(i: Input)
    ensures Published(i).direction.Buy? || Published(i).direction.Sell? <==> Open(i)
    ensures !Open(i) ==> Published(i).direction.NoTrade? && Published(i).degraded && Published(i).reason == Some(Shut(i))
                         && Published(i).confidence.None?
    ensures Check(Published(i)).None? <==> !StoppedByEvidence(i)
  {
    hide PlanPasses, CheckLevels, FrameName, Synthesizer.Grounded, Missing, BlockFor, AtrOf, MeasuredBy, ContextOf,
         GeometricPlan, Upper;
    if Open(i) { DecidedIsSound(i); }
    hide Asked;
  }

  /** Once the engines have answered, the gate can stop a run for three things only: a closed market, a high-impact
    event about now, and a last bar too old for the frame. */
  lemma EvidenceStopsExactly(i: Input)
    requires Analyzed(i)
    ensures StoppedByEvidence(i)
      <==> !i.open
           || (exists k :: 0 <= k < |i.news.events| && Evidence.InBlackout(i.news.events[k], i.now))
           || i.now - i.lastBar > Evidence.FrameMinutes(i.frame.value) * 3 * Evidence.MINUTE
  {
    assert i.frame.Some?;
    hide Analyzed, Evidence.Assess, Evidence.InBlackout, Evidence.FrameMinutes, EvidenceFor;
    Evidence.BlockedExactly(ReadingsFor(i, i.frame.value));
  }

  /** For example: everything before the gate passes, and the market is closed. */
  lemma ClosedMarketLeavesTheContract(i: Input)
    requires Analyzed(i) && !i.open
    ensures Published(i) == FailClosed(Other("EVIDENCE_" + Upper("trading_session")))
    ensures Check(Published(i)) == Some(UnknownReason)
  {
    hide PlanPasses, Asked, Missing, AtrOf, EvidenceFor, Upper;
    SeventhFails(Evidence.Assess(ReadingsFor(i, i.frame.value)));
    hide Evidence.BlockReason;
  }

  lemma SeventhFails(checks: seq<Evidence.Check>)
    requires |checks| >= 7 && checks[6].blocking && Evidence.Failed(checks[6])
    requires forall k :: 0 <= k < 6 ==> !(checks[k].blocking && Evidence.Failed(checks[k]))
    ensures Evidence.BlockReason(checks) == Some(checks[6].name)
  {
    hide Evidence.Failed;
    FirstPasses(checks, 6);
  }

  lemma {:induction false} FirstPasses(checks: seq<Evidence.Check>, n: nat)
    requires n < |checks| && checks[n].blocking && Evidence.Failed(checks[n])
    requires forall k :: 0 <= k < n ==> !(checks[k].blocking && Evidence.Failed(checks[k]))
    ensures Evidence.BlockReason(checks) == Some(checks[n].name)
  {
    hide Evidence.Failed;
    if n > 0 {
      assert forall k :: 0 <= k < n - 1 ==> checks[1..][k] == checks[k + 1];
      FirstPasses(checks[1..], n - 1);
    }
  }

  lemma {:induction false} SameWicks(recent: seq<Bar>, wick: real, n: nat)
    requires |recent| == n && forall k :: 0 <= k < n ==> recent[k].high > recent[k].low && Plan.Wick(recent[k]) == wick
    ensures |Plan.Wicks(recent)| == n && forall k :: 0 <= k < n ==> Plan.Wicks(recent)[k] == wick
  {
    hide Plan.Wick;
    if n > 0 { SameWicks(recent[..n - 1], wick, n - 1); }
  }

  const RISING := Bar(10.0, 11.0, 9.0, 10.5)
  const FALLING := Bar(10.5, 11.0, 9.0, 10.0)

  /** Sixty bars that go up and down by turns within one range. */
  function Seesaw(): (bars: seq<Bar>)
    ensures |bars| == Zones.MIN_CANDLES
    ensures forall k :: 0 <= k < |bars| ==> bars[k] == if k % 2 == 0 then RISING else FALLING
  {
    seq(Zones.MIN_CANDLES, k => if k % 2 == 0 then RISING else FALLING)
  }

  lemma SeesawRange(bars: seq<Bar>)
    requires bars == Seesaw()
    ensures AverageRange(bars) == Some(2.0)
  {
    var n := |bars|;
    assert forall k :: 0 < k < n ==> TrueRange(bars[k - 1], bars[k]) == 2.0;
    hide TrueRange, Seesaw, RangeSum;
    SteadySum(bars, n - RANGE_PERIOD, n, 2.0);
  }

  lemma SeesawNoise(bars: seq<Bar>, atr: real)
    requires bars == Seesaw()
    ensures var c := Plan.MeasurePriceContext(bars, atr, None, NOISE_WINDOW); c.noise == 1.5 && c.bars == NOISE_WINDOW
  {
    var recent := Plan.Recent(bars, NOISE_WINDOW);
    assert forall k :: 0 <= k < |recent| ==> recent[k] == RISING || recent[k] == FALLING;
    SameWicks(recent, 1.5, |recent|);
    hide Seesaw, Plan.Wicks;
    Plan.MedianOfSame(Plan.Wicks(recent), 1.5);
  }

  /** With those bars every engine answers that is modelled, as soon as the regime is classified and the timeframes
    lean one way. */
  lemma SeesawIsRead(i: Input)
    requires i.bars == Seesaw() && i.regime && i.mtf.Outlook? && Scenario.Directional(i.mtf.tradeBias)
    ensures Missing(i) == []
  {
    SeesawRange(i.bars);
    hide Seesaw, AverageRange, Zones.Candidates, Zones.Top, Liquidity.Recent, Scenario.Votes;
    Scenario.SilentExactly(EvidenceFor(i));
    hide Scenario.Weight, Scenario.Total, Scenario.Confidence;
  }

  lemma SeesawPasses(bars: seq<Bar>, entry: real, c: Plan.Context, atr: real)
    requires bars == Seesaw() && c == Plan.MeasurePriceContext(bars, atr, None, NOISE_WINDOW)
    ensures atr == 2.0 ==> PlanPasses(GeometricPlan(entry, atr, PolicyFor(Evidence.M15)), c)
  {
    hide Seesaw, PlanPasses, GeometricPlan;
    SeesawNoise(bars, atr);
    assert c.atr == atr;
    hide Plan.MeasurePriceContext;
    GeometricPlanPassesExactly(entry, atr, Evidence.M15, c);
  }

  /** And such a run exists: those bars on the fifteen-minute frame, with a stop of 1.2 ranges outside their wicks. */
  lemma ClosedMarketExists(i: Input)
    requires i.bars == Seesaw() && i.regime && i.mtf.Outlook? && i.mtf.tradeBias == Scenario.Bullish
    requires i.frame == Some(Evidence.M15)
    ensures Analyzed(i)
  {
    hide Seesaw, AverageRange, Missing, Plan.MeasurePriceContext, Plan.Judged, PlanPasses, GeometricPlan;
    SeesawIsRead(i);
    SeesawPasses(i.bars, i.bars[|i.bars| - 1].close, ContextOf(i), AtrOf(i));
    SeesawRange(i.bars);
  }

  /** What a reader of a published direction may rely on: the engines all answered; nothing was blocking; the
    stop is no closer than the noise, the first target at least half a range away; entry lies between stop
    and targets; and every price is within tolerance of one that some engine measured, when any did. */
  lemma PublishedMeans(i: Input)
    requires Open(i)
    ensures var l, c := Asked(i).decision.levels.value, ContextOf(i);
            && Missing(i) == [] && BlockFor(i).None?
            && Plan.Usable(c) && Abs(l.entry - l.stop) >= c.noise
            && l.targets != [] && Abs(l.targets[0] - l.entry) >= 0.5 * AtrOf(i) && Between(l)
    ensures var l := Asked(i).decision.levels.value;
            var tolerance := Synthesizer.Tolerance(AtrOf(i), l.entry);
            (exists x :: Synthesizer.HasPrice(MeasuredBy(i), x)) ==>
              && Synthesizer.NearMeasured(MeasuredBy(i), l.entry, tolerance)
              && Synthesizer.NearMeasured(MeasuredBy(i), l.stop, tolerance)
              && forall k :: 0 <= k < |l.targets| ==> Synthesizer.NearMeasured(MeasuredBy(i), l.targets[k], tolerance)
  {
    hide Missing, BlockFor, AtrOf, MeasuredBy, GeometricPlan;
    hide Plan.Judged, Plan.MeasurePriceContext, Evidence.Assess, Abs, Synthesizer.Tolerance, Asked, Synthesizer.Menu;
    hide Synthesizer.HasPrice, Synthesizer.NearMeasured, Synthesizer.Near;
    DecidedIsSound(i);
    var l, c := Asked(i).decision.levels.value, ContextOf(i);
    Plan.ViableExactly(l.entry, l.stop, l.targets, c);
    AcceptedExactly(Asked(i).decision);
    ContextAtr(i);
    var tolerance := Synthesizer.Tolerance(AtrOf(i), l.entry);
    Synthesizer.NearMenu(MeasuredBy(i), l.entry, tolerance);
    Synthesizer.NearMenu(MeasuredBy(i), l.stop, tolerance);
    forall k | 0 <= k < |l.targets|
      ensures Synthesizer.Near(l.targets[k], Synthesizer.Menu(MeasuredBy(i)), tolerance) ==>
                Synthesizer.NearMeasured(MeasuredBy(i), l.targets[k], tolerance)
    {
      Synthesizer.NearMenu(MeasuredBy(i), l.targets[k], tolerance);
    }
  }

  lemma ContextAtr(i: Input)
    ensures ContextOf(i).atr == AtrOf(i)
  {
  }

  /** The geometric plan can fail only for its stop: its target is always far enough, on every frame. */
  lemma GeometricPlanPassesExactly(entry: real, atr: real, frame: DecisionFrame, c: Plan.Context)
    requires c.atr == atr
    ensures PlanPasses(GeometricPlan(entry, atr, PolicyFor(frame)), c)
      <==> Plan.Usable(c) && atr * PolicyFor(frame).stopMultiple >= c.noise
  {
    hide Plan.Judged;
    var l := GeometricPlan(entry, atr, PolicyFor(frame));
    Plan.ViableExactly(l.entry, l.stop, l.targets, c);
  }

  // ---------------------------------------------------------------- which refusal, and which decision

  /** Some evidence points up or down. */
  ghost predicate Speaks(i: Input) {
    || Scenario.Directional(i.structure) || (i.mtf.Outlook? && Scenario.Directional(i.mtf.tradeBias))
    || MarketMirror.SweepSide(i.bars) == Some(Some(Liquidity.BuySide))
    || MarketMirror.SweepSide(i.bars) == Some(Some(Liquidity.SellSide))
    || (var zones := Zones.RunZones(i.bars, AverageRange(i.bars));
        zones.Report? && ((zones.demand != [] && zones.demand[0].strength > 0)
                          || (zones.supply != [] && zones.supply[0].strength > 0)))
  }

  /** Every engine has an answer: there are sixty bars with a range, the regime and some timeframe can be read, and some
    evidence points up or down. */
  ghost predicate Answered(i: Input) {
    && |i.bars| >= 60 && AverageRange(i.bars).Some? && AverageRange(i.bars).value > 0.0
    && i.regime && i.mtf.Outlook? && Speaks(i)
  }

  lemma MissingExactly(i: Input)
    ensures Missing(i) == [] <==> Answered(i)
    ensures Answered(i) ==> Zones.RunZones(i.bars, AverageRange(i.bars)).Report?
                            && Scenario.RunScenario(EvidenceFor(i)).Report?
  {
    hide Zones.RunZones, AverageRange, Scenario.RunScenario, EvidenceFor, Speaks;
    Zones.ReportExactly(i.bars, AverageRange(i.bars));
    if |i.bars| >= 60 && i.mtf.Outlook? { ScenariosAnswer(i); }
    hide Zones.Shows;
  }

  lemma ScenariosAnswer(i: Input)
    requires |i.bars| >= 60 && i.mtf.Outlook?
    ensures Scenario.RunScenario(EvidenceFor(i)).Report? <==> Speaks(i)
  {
    hide Zones.RunZones, AverageRange, Scenario.Votes, Scenario.Weight, Scenario.Total, Scenario.Confidence, MarketMirror.Window;
    hide Liquidity.Recent;
    Scenario.SilentExactly(EvidenceFor(i));
    assert Scenario.Silent(EvidenceFor(i)) <==> !Speaks(i) by { SilentlySpeaks(i); }
    hide Speaks, Scenario.Silent;
  }

  lemma SilentlySpeaks(i: Input)
    requires |i.bars| >= 60 && i.mtf.Outlook?
    ensures Scenario.Silent(EvidenceFor(i)) <==> !Speaks(i)
  {
    hide Zones.RunZones, AverageRange, MarketMirror.SweepSide;
    var side := MarketMirror.SweepSide(i.bars);
    assert side.Some? && side.value.Some? ==> side.value.value == Liquidity.BuySide || side.value.value == Liquidity.SellSide;
  }

  /** The noise of the last fifty bars, and the range. */
  function NoiseOf(i: Input): real {
    Plan.MeasurePriceContext(i.bars, AtrOf(i), None, 50).noise
  }

  /** A stop of 0.8 ranges clears the noise on one minute and on five, one of 1.2 on fifteen. */
  predicate GeometryClears(i: Input)
    requires i.frame.Some?
  {
    NoiseOf(i) > 0.0 && (if i.frame.value.M15? then 1.2 else 0.8) * AtrOf(i) >= NoiseOf(i)
  }

  lemma RoughExactly(i: Input)
    requires Answered(i) && i.frame.Some?
    ensures i.bars != [] && (RoughPasses(i) <==> GeometryClears(i))
  {
    hide PlanPasses, GeometricPlan, Plan.Wicks, Plan.Median, AverageRange, Speaks;
    ContextAtr(i);
    GeometricPlanPassesExactly(i.bars[|i.bars| - 1].close, AtrOf(i), i.frame.value, ContextOf(i));
  }

  /** The evidence gate lets the run pass. */
  ghost predicate Unblocked(i: Input)
    requires i.frame.Some?
  {
    && i.open && (forall k :: 0 <= k < |i.news.events| ==> !Evidence.InBlackout(i.news.events[k], i.now))
    && i.now - i.lastBar <= Evidence.FrameMinutes(i.frame.value) * 3 * Evidence.MINUTE
  }

  /** What the gate names when it does not. */
  ghost function BlockName(i: Input): string {
    if !i.open then "trading_session"
    else if exists k :: 0 <= k < |i.news.events| && Evidence.InBlackout(i.news.events[k], i.now) then "event_blackout"
    else "live_price"
  }

  lemma BlockExactly(i: Input)
    requires i.frame.Some?
    ensures BlockFor(i).None? <==> Unblocked(i)
    ensures BlockFor(i).Some? ==> BlockFor(i).value == BlockName(i)
  {
    hide Evidence.Assess, Evidence.InBlackout, Evidence.FrameMinutes, EvidenceFor, Evidence.BlockReason;
    Evidence.BlockNames(ReadingsFor(i, i.frame.value));
  }

  /** Every gate up to the model. */
  ghost predicate Reaches(i: Input) {
    Answered(i) && i.frame.Some? && GeometryClears(i) && Unblocked(i) && i.constitution && i.provider
  }

  /** The plan of the model clears the noise, and its first target half a range. */
  predicate Clears(i: Input, l: Levels) {
    Abs(l.entry - l.stop) >= NoiseOf(i) && l.targets != [] && Abs(l.targets[0] - l.entry) >= 0.5 * AtrOf(i)
  }

  /** The model decided, and its plan clears both. */
  predicate OwnPlanClears(i: Input)
    requires i.frame.Some?
  {
    Asked(i).Decided? && Asked(i).decision.levels.Some? && Clears(i, Asked(i).decision.levels.value)
  }

  lemma ClearsExactly(i: Input, l: Levels)
    requires Answered(i) && NoiseOf(i) > 0.0
    ensures PlanPasses(l, ContextOf(i)) <==> Clears(i, l)
  {
    hide Plan.Judged, Plan.Wicks, Plan.Median, AverageRange, Speaks, Abs;
    ContextAtr(i);
    Plan.ViableExactly(l.entry, l.stop, l.targets, ContextOf(i));
  }

  predicate RefusedFor(i: Input, reason: Reason) {
    Published(i).reason == Some(reason)
  }

  /** The gates one by one. */
  lemma OpenExactly(i: Input)
    ensures Open(i) <==> Reaches(i) && OwnPlanClears(i)
  {
    hide Answered, GeometryClears, Unblocked, Clears, PlanPasses, RoughPasses, BlockFor, Missing, Asked, ContextOf;
    MissingExactly(i);
    AnsweredHasBars(i);
    if Answered(i) && i.frame.Some? {
      RoughExactly(i);
      BlockExactly(i);
      if Asked(i).Decided? {
        DecidedLevels(i);
        if GeometryClears(i) { ClearsAt(i, Asked(i).decision.levels.value); }
      }
    }
  }

  lemma DecidedLevels(i: Input)
    requires i.frame.Some? && Asked(i).Decided?
    ensures Asked(i).decision.levels.Some?
  {
    DecidedIsSound(i);
  }

  lemma ShutExactly(i: Input)
    requires !Open(i)
    ensures Shut(i) == if i.bars == [] then Listed(NoCandles)
                       else if !Answered(i) then Listed(EngineUnavailable)
                       else if i.frame.None? then Listed(NoViableTimeframe)
                       else if !GeometryClears(i) then Listed(PlanNotViable)
                       else if !Unblocked(i) then Blocked(BlockName(i))
                       else if !i.constitution then Listed(PromptUnavailable)
                       else if !i.provider then Listed(LlmUnavailable)
                       else if Asked(i).Decided? then Listed(PlanNotViable)
                       else Listed(ReasonFor(Asked(i)))
  {
    hide Answered, GeometryClears, Unblocked, PlanPasses, RoughPasses, BlockFor, Missing, Asked, Blocked, BlockName, ReasonFor, Open;
    MissingExactly(i);
    AnsweredHasBars(i);
    if Answered(i) && i.frame.Some? {
      RoughExactly(i);
      BlockExactly(i);
    }
  }

  lemma AnsweredHasBars(i: Input)
    ensures Answered(i) ==> i.bars != []
  {
  }

  lemma ClearsAt(i: Input, l: Levels)
    requires Answered(i) && i.frame.Some? && GeometryClears(i)
    ensures PlanPasses(l, ContextOf(i)) <==> Clears(i, l)
  {
    hide PlanPasses, ContextOf, Clears, AtrOf, Answered, NoiseOf;
    ClearsExactly(i, l);
  }

  /** What the gates before the model refuse for, and nothing else does. */
  predicate Early(reason: Reason) {
    reason.Other? || reason == Listed(NoCandles) || reason == Listed(EngineUnavailable) || reason == Listed(NoViableTimeframe)
    || reason == Listed(PromptUnavailable) || reason == Listed(PlanNotViable)
  }

  lemma ReasonIs(i: Input)
    ensures Open(i) ==> Published(i).reason.None? && (Published(i).direction == Buy || Published(i).direction == Sell)
    ensures !Open(i) ==> Published(i).reason == Some(Shut(i)) && Published(i).direction == NoTrade
    ensures i.frame.Some? ==> !Early(Listed(ReasonFor(Asked(i))))
  {
    hide Open, Shut, Asked, Published, Check, ReasonFor, Early;
    DirectionMeansOpen(i);
    if Open(i) { OpenHasNoReason(i); }
    if i.frame.Some? { LateReason(Asked(i)); }
  }

  lemma LateReason(o: Synthesizer.Outcome)
    ensures !Early(Listed(ReasonFor(o)))
  {
  }

  /** Each refusal that does not come from the model, with its exact reason. */
  lemma RefusalsExactly(i: Input)
    ensures RefusedFor(i, Listed(NoCandles)) <==> i.bars == []
    ensures RefusedFor(i, Listed(EngineUnavailable)) <==> i.bars != [] && !Answered(i)
    ensures RefusedFor(i, Listed(NoViableTimeframe)) <==> Answered(i) && i.frame.None?
    ensures RefusedFor(i, Blocked(BlockName(i))) <==> Answered(i) && i.frame.Some? && GeometryClears(i) && !Unblocked(i)
    ensures RefusedFor(i, Listed(PromptUnavailable))
       <==> Answered(i) && i.frame.Some? && GeometryClears(i) && Unblocked(i) && !i.constitution
    ensures RefusedFor(i, Listed(PlanNotViable))
       <==> Answered(i) && i.frame.Some?
            && (!GeometryClears(i) || (Reaches(i) && Asked(i).Decided? && !OwnPlanClears(i)))
  {
    hide Open, Shut, Published, Answered, GeometryClears, Unblocked, OwnPlanClears, BlockFor, Asked, Upper, Check, ReasonFor,
         BlockName;
    OpenExactly(i);
    if !Open(i) { ShutExactly(i); }
    ReasonIs(i);
    AnsweredHasBars(i);
  }

  /** And a direction leaves exactly when the model's own plan clears the noise too. */
  lemma DirectionLeavesExactly(i: Input)
    ensures Published(i).direction == Buy || Published(i).direction == Sell
       <==> Reaches(i) && OwnPlanClears(i)
  {
    hide Open, Shut, Published, Answered, GeometryClears, Unblocked, OwnPlanClears, Asked, Reaches, Early, ReasonFor;
    OpenExactly(i);
    if !Open(i) { ShutExactly(i); }
    ReasonIs(i);
  }

  /** What the model's failures are published as, for a run that reaches it. */
  lemma ModelFailuresExactly(i: Input)
    requires Reaches(i) && !Asked(i).Decided?
    ensures var o, said := Asked(i), Published(i).reason;
            match o
            case ProviderFailed(code, _, _) =>
              && (said == Some(Listed(LlmRateLimited)) <==> code == "rate_limit" || code == "provider_billing")
              && (said == Some(Listed(LlmBadRequest)) <==> code == "provider_bad_request")
              && (said == Some(Listed(LlmTimeout)) <==> code == "timeout")
              && (said == Some(Listed(LlmUnavailable))
                  <==> code !in ["rate_limit", "provider_billing", "provider_bad_request", "timeout"])
            case Exhausted(kind, attempts, repairs) =>
              && attempts == 3 && |repairs| == 3
              && (said == Some(Listed(LevelsNotGrounded)) <==> repairs[2].Ungrounded?)
              && (said == Some(Listed(ModelOutputInvalid)) <==> !repairs[2].Ungrounded?)
            case NoPrompt => i.prompt.None? && said == Some(Listed(LlmUnavailable))
            case Decided(_, _, _) => false
  {
    hide Open, Shut, Published, Answered, GeometryClears, Unblocked, Clears, Asked, Early, BlockName, Upper;
    OpenExactly(i);
    if !Open(i) { ShutExactly(i); }
    ReasonIs(i);
    AnsweredHasBars(i);
    FailureReason(i);
  }

  lemma FailureReason(i: Input)
    requires i.frame.Some? && !Asked(i).Decided?
    ensures var o, said := Asked(i), ReasonFor(Asked(i));
            match o
            case ProviderFailed(code, _, _) =>
              && (said == LlmRateLimited <==> code == "rate_limit" || code == "provider_billing")
              && (said == LlmBadRequest <==> code == "provider_bad_request")
              && (said == LlmTimeout <==> code == "timeout")
              && (said == LlmUnavailable <==> code !in ["rate_limit", "provider_billing", "provider_bad_request", "timeout"])
            case Exhausted(kind, attempts, repairs) =>
              && attempts == 3 && |repairs| == 3
              && (said == LevelsNotGrounded <==> repairs[2].Ungrounded?)
              && (said == ModelOutputInvalid <==> !repairs[2].Ungrounded?)
            case NoPrompt => i.prompt.None? && said == LlmUnavailable
            case Decided(_, _, _) => false
  {
    hide Asked, SessionOf, Synthesizer.VerdictAt;
    CodesDiffer();
    AskedExplained(i);
  }

  lemma AskedExplained(i: Input)
    requires i.frame.Some?
    ensures if i.prompt.None? then Asked(i).NoPrompt?
            else Synthesizer.Explained(SessionOf(i, i.frame.value), i.prompt.value, Asked(i))
    ensures SessionOf(i, i.frame.value).maxRepairs == 2
  {
    hide Synthesizer.Explained, Synthesizer.Ask, Synthesizer.Menu;
    if i.prompt.Some? { Synthesizer.SessionsAreExplained(SessionOf(i, i.frame.value), i.prompt.value); }
  }

  lemma CodesDiffer()
    ensures |"rate_limit"| == 10 && |"provider_billing"| == 16 && |"provider_bad_request"| == 20 && |"timeout"| == 7
  {
  }

  lemma OpenHasNoReason(i: Input)
    requires Open(i)
    ensures Published(i).reason.None?
  {
    DecidedIsSound(i);
    AcceptedExactly(Asked(i).decision);
    hide Asked, Admitted, PlanPasses, Check;
  }

  /** The reasons the evidence gate gives, spelled out. */
  lemma BlockNames()
    ensures Blocked("trading_session") == Other("EVIDENCE_" + "TRADING_SESSION")
    ensures Blocked("event_blackout") == Other("EVIDENCE_" + "EVENT_BLACKOUT")
    ensures Blocked("live_price") == Other("EVIDENCE_" + "LIVE_PRICE")
  {
    hide Upper;
    SessionName();
    EventName();
    PriceName();
  }

  lemma SessionName()
    ensures Upper("trading_session") == "TRADING_SESSION"
  {
  }

  lemma EventName()
    ensures Upper("event_blackout") == "EVENT_BLACKOUT"
  {
  }

  lemma PriceName()
    ensures Upper("live_price") == "LIVE_PRICE"
  {
  }

  /** The reply to the last attempt. */
  function LastReply(i: Input): Synthesizer.Reply
    requires i.frame.Some? && i.prompt.Some? && Asked(i).Decided? && Asked(i).attempts >= 1
  {
    var n := Asked(i).attempts;
    i.complete(n, Synthesizer.Conversation(SessionOf(i, i.frame.value), i.prompt.value, n - 1))
  }

  /** A decision that says what a payload says. */
  ghost predicate Says(d: Decision, p: Synthesizer.Payload) {
    && d.direction == p.direction && d.confidence == p.confidence && d.levels == p.levels
    && d.condition == p.condition && d.validity == p.validity
    && (p.planType.Some? ==> d.planType == p.planType) && (p.planType.None? ==> d.planType == Some(Immediate))
    && (p.planType == Some(Conditional) ==> d.execution == Some(AwaitingActivation))
    && (p.planType != Some(Conditional) ==> d.execution == Some(ValidNow))
    && !d.degraded && d.reason.None?
  }

  /** A published direction is the model's own: direction, confidence, levels, condition, lifetime and plan type are those
    of the reply to the last attempt, which is one of three, and the frame is the one that was chosen. */
  lemma PublishedIsTheReply(i: Input)
    requires Published(i).direction == Buy || Published(i).direction == Sell
    ensures i.frame.Some? && i.prompt.Some? && Asked(i).Decided? && 1 <= Asked(i).attempts <= 3
    ensures LastReply(i).Said? && LastReply(i).payload.Some? && Says(Published(i), LastReply(i).payload.value)
    ensures Published(i).timeframe == if i.frame.value.M1? then "M1" else if i.frame.value.M5? then "M5" else "M15"
  {
    hide Asked, Shut, Check, Admitted, PlanPasses, ContextOf, Synthesizer.Grounded, Synthesizer.Menu, MeasuredBy, AtrOf,
         Synthesizer.Judge, Synthesizer.Conversation, Synthesizer.Whole, Published, Open;
    ReasonIs(i);
    OpenIsAsked(i);
    AskedAccepts(i);
    var s, n := SessionOf(i, i.frame.value), Asked(i).attempts;
    Synthesizer.AcceptedCarries(s.complete(n, Synthesizer.Conversation(s, i.prompt.value, n - 1)), s.timeframe, s.levels, s.atr);
  }

  lemma OpenIsAsked(i: Input)
    requires Open(i)
    ensures i.frame.Some? && Asked(i).Decided? && Published(i) == Asked(i).decision.(timeframe := FrameName(i.frame.value))
  {
    hide Asked, PlanPasses, ContextOf, Analyzed, BlockFor;
    assert Analyzed(i) ==> i.frame.Some? by { FrameOfAnalyzed(i); }
  }

  lemma FrameOfAnalyzed(i: Input)
    ensures Analyzed(i) ==> i.frame.Some?
  {
    hide PlanPasses, ContextOf, Missing, GeometricPlan;
  }

  lemma AskedAccepts(i: Input)
    requires i.frame.Some? && Asked(i).Decided?
    ensures i.prompt.Some? && 1 <= Asked(i).attempts <= 3
    ensures var s, n := SessionOf(i, i.frame.value), Asked(i).attempts;
            Synthesizer.Judge(s.complete(n, Synthesizer.Conversation(s, i.prompt.value, n - 1)), s.timeframe, s.levels, s.atr)
            == Synthesizer.Accept(Asked(i).decision)
  {
    hide Synthesizer.Judge, Synthesizer.Conversation, Synthesizer.Ask, Synthesizer.Menu;
    if i.prompt.Some? { Synthesizer.SessionsAreExplained(SessionOf(i, i.frame.value), i.prompt.value); }
  }

  /** The prices an engine measured: those of structure and geometry, the edges of the zones of these bars, and the means of
    the equal highs and lows. */
  lemma MeasuredExactly(i: Input, x: real)
    ensures Synthesizer.HasPrice(MeasuredBy(i), x)
       <==> || Some(x) in i.prices.structure || Some(x) in i.prices.levels || Some(x) in i.prices.geometry
            || (var zones := Zones.RunZones(i.bars, AverageRange(i.bars));
                zones.Report? && exists z :: z in zones.demand + zones.supply && (z.low == x || z.high == x))
            || exists l :: l in i.prices.equalHighs + i.prices.equalLows && l.price == x
  {
    hide Zones.RunZones, AverageRange;
  }

  /** What a published direction rests on: sixty bars with a range, and every engine read; a market that is open, no event
    about now, and a last bar young enough. */
  lemma PublishedRestsOn(i: Input)
    requires Published(i).direction == Buy || Published(i).direction == Sell
    ensures |i.bars| >= 60 && AverageRange(i.bars).Some? && AverageRange(i.bars).value > 0.0 && i.regime && i.mtf.Outlook?
    ensures Zones.RunZones(i.bars, AverageRange(i.bars)).Report? && Scenario.RunScenario(EvidenceFor(i)).Report?
    ensures i.frame.Some? && i.open && i.constitution && i.provider
    ensures i.now - i.lastBar <= 180000000 * (if i.frame.value.M1? then 1 else if i.frame.value.M5? then 5 else 15)
    ensures forall k :: 0 <= k < |i.news.events| ==> FarOff(i.news.events[k], i.now)
  {
    hide Published, Asked, Speaks, AverageRange, EvidenceFor, Zones.RunZones, Scenario.RunScenario, Evidence.InBlackout, Missing,
         OwnPlanClears, GeometryClears, FarOff;
    DirectionLeavesExactly(i);
    MissingExactly(i);
    forall k | 0 <= k < |i.news.events|
      ensures Evidence.InBlackout(i.news.events[k], i.now) || FarOff(i.news.events[k], i.now)
    {
      EventsFarOff(i.news.events[k], i.now);
    }
    FrameWindow(i);
    hide Evidence.FrameMinutes;
  }

  /** Of low impact, or more than five minutes ago, or more than fifteen ahead. */
  predicate FarOff(e: Evidence.Event, now: int) {
    e.impact != Evidence.High || e.at - now < -5 * 60000000 || 15 * 60000000 < e.at - now
  }

  lemma EventsFarOff(e: Evidence.Event, now: int)
    ensures Evidence.InBlackout(e, now) <==> !FarOff(e, now)
  {
  }

  /** And what its plan is: entry between the stop and the targets, the stop no closer than the noise, the first target no
    closer than half a range, and each price within 0.35 ranges of one that an engine measured, if any was. */
  lemma PublishedPlanIs(i: Input)
    requires Published(i).direction == Buy || Published(i).direction == Sell
    ensures Published(i).levels.Some? && Between(Published(i).levels.value) && Clears(i, Published(i).levels.value)
    ensures (exists x :: Synthesizer.HasPrice(MeasuredBy(i), x)) ==> Measured(i, Published(i).levels.value)
  {
    hide Published, Asked, AtrOf, MeasuredBy, Open, Clears, Between, Measured;
    hide Check, Synthesizer.Grounded, Synthesizer.HasPrice, Synthesizer.Menu;
    ReasonIs(i);
    OpenIsAsked(i);
    OpenExactly(i);
    DecidedIsSound(i);
    OwnPlanIs(i);
  }

  /** Every price is near one that was measured. */
  ghost predicate Measured(i: Input, l: Levels) {
    && Synthesizer.NearMeasured(MeasuredBy(i), l.entry, 0.35 * AtrOf(i))
    && Synthesizer.NearMeasured(MeasuredBy(i), l.stop, 0.35 * AtrOf(i))
    && forall k :: 0 <= k < |l.targets| ==> Synthesizer.NearMeasured(MeasuredBy(i), l.targets[k], 0.35 * AtrOf(i))
  }

  lemma OwnPlanIs(i: Input)
    requires Open(i) && i.frame.Some? && Asked(i).Decided? && Asked(i).decision.levels.Some?
    ensures Between(Asked(i).decision.levels.value)
    ensures (exists x :: Synthesizer.HasPrice(MeasuredBy(i), x)) ==> Measured(i, Asked(i).decision.levels.value)
  {
    hide Asked, AtrOf, MeasuredBy, Open, Between, Synthesizer.HasPrice, Synthesizer.NearMeasured, Synthesizer.Tolerance, Missing,
         BlockFor;
    PublishedMeans(i);
    assert AtrOf(i) > 0.0 by { OpenHasRange(i); }
    Synthesizer.ToleranceIs(AtrOf(i), Asked(i).decision.levels.value.entry);
    assert Synthesizer.Tolerance(AtrOf(i), Asked(i).decision.levels.value.entry) == 0.35 * AtrOf(i);
  }

  lemma OpenHasRange(i: Input)
    requires Open(i)
    ensures AtrOf(i) > 0.0
  {
    hide Asked, Speaks, Open, AverageRange;
    OpenExactly(i);
  }

  lemma FrameWindow(i: Input)
    requires i.frame.Some?
    ensures Evidence.FrameMinutes(i.frame.value) * 3 * Evidence.MINUTE
         == 180000000 * (if i.frame.value.M1? then 1 else if i.frame.value.M5? then 5 else 15)
  {
  }

  /** The plan of the geometry alone, in numbers: a long whose stop is 0.8 ranges away, or 1.2 on fifteen minutes, and whose
    targets pay 1.2 and 2 times the stop, or 1.5 and 2.5. */
  lemma GeometricPlanIs(entry: real, atr: real, frame: DecisionFrame)
    ensures var l, slow := GeometricPlan(entry, atr, PolicyFor(frame)), frame == Evidence.M15;
            var stop := atr * (if slow then 1.2 else 0.8);
            && l.entry == entry && l.entry - l.stop == stop && |l.targets| == 2
            && l.targets[0] - l.entry == stop * (if slow then 1.5 else 1.2)
            && l.targets[1] - l.entry == stop * (if slow then 2.5 else 2.0)
  {
  }
}
