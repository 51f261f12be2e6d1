/** The engines together, right way up and upside down. */
module MarketMirror {
  import opened Bars
  import opened Options
  import Liquidity
  import Mtf
  import Scenario
  import Zones

  /** The part of the window the sweeps are looked for in. */
  function Window(bars: seq<Bar>): seq<Bar> {
    if |bars| > Liquidity.SWEEP_LOOKBACK then bars[|bars| - Liquidity.SWEEP_LOOKBACK..] else bars
  }

  function SweepSide(bars: seq<Bar>): Option<Option<Liquidity.Side>> {
    if |bars| < Zones.MIN_CANDLES then None
    else
      var recent := Liquidity.Recent(Window(bars));
      Some(if recent.Some? then Some(recent.value.side) else None)
  }

  /** The engine's answer, from the sweeps it finds. */
  method RunLiquidityEngine(bars: seq<Bar>) returns (side: Option<Option<Liquidity.Side>>)
    ensures side == SweepSide(bars)
  {
    if |bars| < Zones.MIN_CANDLES {
      return None;
    }
    var sweeps := Liquidity.FindSweeps(Window(bars));
    side := Some(if sweeps == [] then None else Some(sweeps[|sweeps| - 1].side));
  }

  /** What the scenario engine is handed; structure and the timeframe biases are measured elsewhere. */
  function EvidenceOf(bars: seq<Bar>, structure: Option<Scenario.Bias>, support: Option<real>,
                      resistance: Option<real>, mtf: Option<Scenario.Bias>): Scenario.Evidence {
    Scenario.Evidence(structure, support, resistance, SweepSide(bars), Zones.RunZones(bars, AverageRange(bars)), mtf)
  }

  function Negate(level: Option<real>): Option<real> {
    if level.Some? then Some(-level.value) else None
  }

  function Flip(bias: Option<Scenario.Bias>): Option<Scenario.Bias> {
    if bias.Some? then Some(Scenario.Opposite(bias.value)) else None
  }

  /** No bar of the window swept anything, or the last that did took one side only. */
  predicate OneSided(bars: seq<Bar>) {
    var window := Window(bars);
    var k := Liquidity.LastSweeping(window, |window|);
    k == 0 || |Liquidity.SweepsAt(window, k)| == 1
  }

  lemma WindowMirrors(bars: seq<Bar>)
    ensures Window(Mirror(bars)) == Mirror(Window(bars))
  {
    if |bars| > Liquidity.SWEEP_LOOKBACK { MirrorSlice(bars, |bars| - Liquidity.SWEEP_LOOKBACK, |bars|); }
  }

  lemma TwoSidedStays(window: seq<Bar>)
    requires var k := Liquidity.LastSweeping(window, |window|); k > 0 && |Liquidity.SweepsAt(window, k)| != 1
    ensures var r, m := Liquidity.Recent(window), Liquidity.Recent(Mirror(window));
            r.Some? && m.Some? && r.value.side == m.value.side == Liquidity.SellSide
  {
    hide Liquidity.SweepsAt, Mirror;
    var k := Liquidity.LastSweeping(window, |window|);
    Liquidity.RecentIs(window, |window|);
    Liquidity.RecentIs(Mirror(window), |window|);
    Liquidity.LastSweepingMirrors(window, |window|);
    Liquidity.SweepsAtMirror(window, k);
    Liquidity.BothSides(window, k);
  }

  /** Turned upside down, the market is evidence for the opposite exactly when its last sweep took one
    side only. */
  lemma EvidenceMirrorsExactly(bars: seq<Bar>, structure: Option<Scenario.Bias>,
                               support: Option<real>, resistance: Option<real>, mtf: Option<Scenario.Bias>)
    requires |bars| >= Zones.MIN_CANDLES
    ensures EvidenceOf(Mirror(bars), Flip(structure), Negate(resistance), Negate(support), Flip(mtf))
         == Scenario.MirrorEvidence(EvidenceOf(bars, structure, support, resistance, mtf))
      <==> OneSided(bars)
  {
    hide Zones.RunZones, Liquidity.Recent, Liquidity.SweepsAt, Liquidity.LastSweeping, Mirror, Window, AverageRange;
    Zones.ZonesMirror(bars, AverageRange(bars));
    AverageRangeMirrors(bars);
    WindowMirrors(bars);
    MirrorKeepsLength(bars);
    var window := Window(bars);
    Liquidity.RecentMirrorsExactly(window);
    if !OneSided(bars) {
      TwoSidedStays(window);
    }
  }

  const QUIET := Bar(0.0, 1.0, -1.0, 0.0)
  const RAID := Bar(0.0, 2.0, -2.0, 0.0)

  /** A window the engine accepts: one bar repeated, and then one that goes past both ends and comes back. */
  function RaidedWindow(): (bars: seq<Bar>)
    ensures |bars| == Zones.MIN_CANDLES && Window(bars) == bars
  {
    seq(Zones.MIN_CANDLES - 1, i => QUIET) + [RAID]
  }

  lemma RaidTakesBoth(bars: seq<Bar>)
    requires bars == RaidedWindow()
    ensures |Liquidity.SweepsAt(bars, |bars| - 1)| == 2
  {
    var prior := bars[..|bars| - 1];
    assert forall i :: 0 <= i < |prior| ==> prior[i] == QUIET;
    HighestIs(prior);
    LowestIs(prior);
    hide Highest, Lowest;
  }

  /** One bar can take both sides of a full window. The market it ends looks the same upside down, and is
    evidence for the bulls both ways. */
  lemma BothSidesHappen(bars: seq<Bar>, structure: Option<Scenario.Bias>,
                        support: Option<real>, resistance: Option<real>, mtf: Option<Scenario.Bias>)
    requires bars == RaidedWindow()
    ensures |bars| >= Zones.MIN_CANDLES && Mirror(bars) == bars && !OneSided(bars)
    ensures SweepSide(bars) == SweepSide(Mirror(bars)) == Some(Some(Liquidity.SellSide))
    ensures EvidenceOf(Mirror(bars), Flip(structure), Negate(resistance), Negate(support), Flip(mtf))
         != Scenario.MirrorEvidence(EvidenceOf(bars, structure, support, resistance, mtf))
  {
    hide Zones.RunZones, Liquidity.Recent, Liquidity.SweepsAt, EvidenceOf, RaidedWindow, Window, AverageRange;
    assert Mirror(bars) == bars by { RaidMirrors(bars); }
    hide Mirror;
    RaidTakesBoth(bars);
    TwoSidedStays(bars);
    EvidenceMirrorsExactly(bars, structure, support, resistance, mtf);
  }

  lemma RaidMirrors(bars: seq<Bar>)
    requires bars == RaidedWindow()
    ensures Mirror(bars) == bars
  {
  }

  lemma MirrorKeepsLength(bars: seq<Bar>)
    ensures |Mirror(bars)| == |bars|
  {
  }

  /** From bars to confidences: the market upside down gives the bear the bull's confidence and the bull the
    bear's, with the bias of every timeframe and the structure upside down too. */
  lemma ConfidencesMirror(bars: seq<Bar>, structure: Option<Scenario.Bias>, support: Option<real>,
                          resistance: Option<real>, stack: seq<string>, measured: map<string, Scenario.Bias>,
                          decision: string)
    requires |bars| >= Zones.MIN_CANDLES && OneSided(bars)
    ensures var up := Scenario.RunScenario(EvidenceOf(bars, structure, support, resistance,
                                                      TradeBias(Mtf.RunMtf(stack, measured, decision))));
            var down := Scenario.RunScenario(EvidenceOf(Mirror(bars), Flip(structure), Negate(resistance),
                                                        Negate(support),
                                                        TradeBias(Mtf.RunMtf(stack, Mtf.MirrorBiases(measured), decision))));
            && (up.Report? <==> down.Report?)
            && (up.Report? ==> down.bullish == up.bearish && down.bearish == up.bullish)
  {
    hide EvidenceOf, Scenario.RunScenario, Mtf.RunMtf, OneSided;
    var outlook := Mtf.RunMtf(stack, measured, decision);
    Mtf.MtfMirrors(stack, measured, decision);
    EvidenceMirrorsExactly(bars, structure, support, resistance, TradeBias(outlook));
    Scenario.ConfidencesSwap(EvidenceOf(bars, structure, support, resistance, TradeBias(outlook)));
  }

  function TradeBias(o: Mtf.Outlook): Option<Scenario.Bias> {
    if o.Outlook? then Some(o.tradeBias) else None
  }
}
