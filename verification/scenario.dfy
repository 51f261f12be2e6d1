/** Scenario confidences, from votes; and the bias of several timeframes. */
module Scenario {
  import opened Options
  import opened Rounding
  import opened Sequences
  import Zones
  import Liquidity

  datatype Bias = Bullish | Bearish | Neutral | Unknown

  predicate Directional(b: Bias) {
    b.Bullish? || b.Bearish?
  }

  function Opposite(b: Bias): Bias {
    match b
    case Bullish => Bearish
    case Bearish => Bullish
    case Neutral => Neutral
    case Unknown => Unknown
  }

  datatype Vote = Vote(direction: Bias, weight: real)

  /** What the engines before this one found. A missing structure or liquidity answer is no answer. */
  datatype Evidence = Evidence(structure: Option<Bias>, support: Option<real>, resistance: Option<real>,
                               sweep: Option<Option<Liquidity.Side>>, zones: Zones.Report, mtf: Option<Bias>)

  /** Confidences in units of 1/10000. */
  datatype Report = Unavailable | Report(bullish: int, bearish: int, invalidated: Bias, level: Option<real>)

  // ---------------------------------------------------------------- votes

  function StructureVote(e: Evidence): seq<Vote> {
    if e.structure.Some? && Directional(e.structure.value) then [Vote(e.structure.value, 3.0)] else []
  }

  /** A sweep argues against the side that was taken. */
  function SweepVote(e: Evidence): seq<Vote> {
    if e.sweep.Some? && e.sweep.value.Some? then
      [Vote(if e.sweep.value.value.BuySide? then Bearish else Bullish, 2.0)]
    else []
  }

  function ZoneVote(zones: seq<Zones.Zone>, direction: Bias): seq<Vote> {
    if zones != [] && zones[0].strength > 0 then [Vote(direction, 1.5 * (zones[0].strength as real / 10000.0))] else []
  }

  function MtfVote(e: Evidence): seq<Vote> {
    if e.mtf.Some? && Directional(e.mtf.value) then [Vote(e.mtf.value, 4.0)] else []
  }

  /** One vote for each independent piece of evidence that has weight. */
  function Votes(e: Evidence): seq<Vote> {
    StructureVote(e) + SweepVote(e)
    + (if e.zones.Report? then ZoneVote(e.zones.demand, Bullish) + ZoneVote(e.zones.supply, Bearish) else [])
    + MtfVote(e)
  }

  function Weighty(votes: seq<Vote>): seq<Vote> {
    if votes == [] then []
    else
      var before, v := Weighty(votes[..|votes| - 1]), votes[|votes| - 1];
      if v.weight > 0.0 then before + [v] else before
  }

  lemma WeightyStep(votes: seq<Vote>, v: Vote)
    ensures Weighty(votes + [v]) == Weighty(votes) + if v.weight > 0.0 then [v] else []
  {
    assert (votes + [v])[..|votes|] == votes;
  }

  /** Every piece of evidence votes, and what has no weight is dropped at the end: each vote that is left takes a
    side and weighs something, and there is none exactly when no evidence points anywhere. */
  method CollectVotes(e: Evidence) returns (votes: seq<Vote>)
    ensures votes == Votes(e) && Sound(votes)
    ensures votes == [] <==> Silent(e)
  {
    hide *;
    VotesSound(e);
    SilentExactly(e);
    var raw := CastDirect(e);
    ghost var direct := raw;
    if e.zones.Report? {
      raw := AddZoneVote(raw, e.zones.demand, Bullish);
      raw := AddZoneVote(raw, e.zones.supply, Bearish);
    }
    ghost var before := raw;
    if e.mtf.Some? && Directional(e.mtf.value) {
      raw := raw + [Vote(e.mtf.value, 4.0)];
    }
    AllCast(e, direct, before, raw);
    votes := DropWeightless(raw);
  }

  /** What structure and the last sweep say. */
  method CastDirect(e: Evidence) returns (raw: seq<Vote>)
    ensures Weighty(raw) == StructureVote(e) + SweepVote(e)
  {
    hide Weighty;
    NoVotes();
    raw := [];
    if e.structure.Some? && Directional(e.structure.value) {
      WeightyStep(raw, Vote(e.structure.value, 3.0));
      raw := raw + [Vote(e.structure.value, 3.0)];
    }
    assert Weighty(raw) == StructureVote(e);
    if e.sweep.Some? && e.sweep.value.Some? {
      var direction := if e.sweep.value.value.BuySide? then Bearish else Bullish;
      WeightyStep(raw, Vote(direction, 2.0));
      raw := raw + [Vote(direction, 2.0)];
    }
  }

  lemma AllCast(e: Evidence, direct: seq<Vote>, before: seq<Vote>, raw: seq<Vote>)
    requires Weighty(direct) == StructureVote(e) + SweepVote(e)
    requires if e.zones.Report?
             then Weighty(before) == Weighty(direct) + ZoneVote(e.zones.demand, Bullish) + ZoneVote(e.zones.supply, Bearish)
             else before == direct
    requires raw == if e.mtf.Some? && Directional(e.mtf.value) then before + [Vote(e.mtf.value, 4.0)] else before
    ensures Weighty(raw) == Votes(e)
  {
    hide Weighty, StructureVote, SweepVote, ZoneVote;
    if e.mtf.Some? && Directional(e.mtf.value) { WeightyStep(before, Vote(e.mtf.value, 4.0)); }
    if e.zones.Report? {
      Regroup(Weighty(direct), ZoneVote(e.zones.demand, Bullish), ZoneVote(e.zones.supply, Bearish));
    }
  }

  method DropWeightless(raw: seq<Vote>) returns (votes: seq<Vote>)
    ensures votes == Weighty(raw)
  {
    hide Weighty;
    votes := [];
    NoVotes();
    for i := 0 to |raw|
      invariant votes == Weighty(raw[..i])
    {
      assert raw[..i + 1] == raw[..i] + [raw[i]];
      WeightyStep(raw[..i], raw[i]);
      if raw[i].weight > 0.0 {
        votes := votes + [raw[i]];
      }
    }
    assert raw[..|raw|] == raw;
  }

  lemma NoVotes()
    ensures Weighty([]) == []
  {
  }

  method AddZoneVote(raw: seq<Vote>, zones: seq<Zones.Zone>, direction: Bias) returns (votes: seq<Vote>)
    ensures Weighty(votes) == Weighty(raw) + ZoneVote(zones, direction)
  {
    votes := raw;
    if zones != [] {
      var vote := Vote(direction, 1.5 * (zones[0].strength as real / 10000.0));
      WeightyStep(raw, vote);
      votes := votes + [vote];
    }
  }

  /** Nothing takes a side: no structure, no sweep, no zone with any strength, no timeframe. */
  predicate Silent(e: Evidence) {
    && !(e.structure.Some? && Directional(e.structure.value))
    && !(e.sweep.Some? && e.sweep.value.Some?)
    && (e.zones.Report? ==> Leading(e.zones.demand) <= 0 && Leading(e.zones.supply) <= 0)
    && !(e.mtf.Some? && Directional(e.mtf.value))
  }

  lemma SilentExactly(e: Evidence)
    ensures Votes(e) == [] <==> Silent(e)
  {
  }

  function Weight(votes: seq<Vote>, direction: Bias): real {
    if votes == [] then 0.0
    else Weight(votes[..|votes| - 1], direction)
         + if votes[|votes| - 1].direction == direction then votes[|votes| - 1].weight else 0.0
  }

  function Total(votes: seq<Vote>): real {
    if votes == [] then 0.0 else Total(votes[..|votes| - 1]) + votes[|votes| - 1].weight
  }

  /** Every vote takes a side and weighs something. */
  predicate Sound(votes: seq<Vote>) {
    forall v <- votes :: Directional(v.direction) && v.weight > 0.0
  }

  lemma VotesSound(e: Evidence)
    ensures Sound(Votes(e))
  {
    assert forall v <- StructureVote(e) :: Directional(v.direction) && v.weight > 0.0;
    assert forall v <- SweepVote(e) :: Directional(v.direction) && v.weight > 0.0;
    assert forall v <- MtfVote(e) :: Directional(v.direction) && v.weight > 0.0;
    if e.zones.Report? {
      ZoneVoteSound(e.zones.demand, Bullish);
      ZoneVoteSound(e.zones.supply, Bearish);
    }
    hide StructureVote, SweepVote, MtfVote, ZoneVote;
  }

  lemma ZoneVoteSound(zones: seq<Zones.Zone>, direction: Bias)
    requires Directional(direction)
    ensures forall v <- ZoneVote(zones, direction) :: Directional(v.direction) && v.weight > 0.0
  {
  }

  /** The two sides are all there is. */
  lemma {:induction false} WeightsAddUp(votes: seq<Vote>)
    requires Sound(votes)
    ensures Weight(votes, Bullish) + Weight(votes, Bearish) == Total(votes)
    ensures 0.0 <= Weight(votes, Bullish) && 0.0 <= Weight(votes, Bearish) && (votes != [] ==> Total(votes) > 0.0)
  {
    if votes != [] {
      WeightsAddUp(votes[..|votes| - 1]);
      assert votes[|votes| - 1] in votes;
    }
  }

  // ---------------------------------------------------------------- confidence

  function Confidence(weight: real, total: real): int {
    if total <= 0.0 then 1000 else RoundHalfEven((0.10 + weight / total * 0.75) * 10000.0)
  }

  lemma Share(weight: real, other: real, total: real)
    requires total > 0.0 && weight + other == total
    ensures other / total == 1.0 - weight / total
  {
    var q := weight / total;
    assert (1.0 - q) * total == other;
    DivideOut(1.0 - q, total, other);
  }

  /** Rounded or not, the two confidences sum to 0.95. */
  lemma ConfidencesSum(weight: real, other: real, total: real)
    requires total > 0.0 && weight + other == total
    ensures Confidence(weight, total) + Confidence(other, total) == 9500
  {
    Share(weight, other, total);
    var x := (0.10 + weight / total * 0.75) * 10000.0;
    assert (0.10 + other / total * 0.75) * 10000.0 == 9500.0 - x;
    RoundReflects(x, 9500);
    hide RoundHalfEven;
  }

  lemma ShareOrder(a: real, b: real, total: real)
    requires total > 0.0 && a <= b
    ensures a / total <= b / total
  {
    assert b / total - a / total == (b - a) / total;
  }

  /** No confidence is below the floor or above the ceiling, and more weight never lowers one. */
  lemma ConfidenceBounded(weight: real, more: real, total: real)
    requires total > 0.0 && 0.0 <= weight <= more <= total
    ensures 1000 <= Confidence(weight, total) <= Confidence(more, total) <= 8500
  {
    ShareOrder(0.0, weight, total);
    ShareOrder(weight, more, total);
    ShareOrder(more, total, total);
    hide RoundHalfEven;
    var x, y := (0.10 + weight / total * 0.75) * 10000.0, (0.10 + more / total * 0.75) * 10000.0;
    RoundWhole(1000);
    RoundWhole(8500);
    assert 1000.0 <= x <= y <= 8500.0;
    RoundMonotone(1000.0, x);
    RoundMonotone(x, y);
    RoundMonotone(y, 8500.0);
  }

  // ---------------------------------------------------------------- the engine

  function RunScenario(e: Evidence): Report {
    var votes := Votes(e);
    if e.structure.None? || e.sweep.None? || votes == [] then Unavailable
    else
      var bullish := Confidence(Weight(votes, Bullish), Total(votes));
      var bearish := Confidence(Weight(votes, Bearish), Total(votes));
      if bullish >= bearish then Report(bullish, bearish, Bullish, e.support)
      else Report(bullish, bearish, Bearish, e.resistance)
  }

  lemma ReportIs(e: Evidence)
    ensures var r, votes := RunScenario(e), Votes(e);
            r.Report? ==>
              && votes != [] && Total(votes) > 0.0
              && r.bullish == Confidence(Weight(votes, Bullish), Total(votes))
              && r.bearish == Confidence(Weight(votes, Bearish), Total(votes))
              && Weight(votes, Bullish) + Weight(votes, Bearish) == Total(votes)
              && 0.0 <= Weight(votes, Bullish) && 0.0 <= Weight(votes, Bearish)
  {
    hide Votes, Confidence, Sound, Weight, Total;
    VotesSound(e);
    WeightsAddUp(Votes(e));
  }

  /** Every report: two confidences between the floor and the ceiling, summing to 0.95; and it leans
    bullish when the bulls have all but half, short by less than the rounding can see. */
  lemma ReportBalances(e: Evidence)
    ensures var r, votes := RunScenario(e), Votes(e);
            r.Report? ==>
              && r.bullish + r.bearish == 9500
              && 1000 <= r.bullish <= 8500 && 1000 <= r.bearish <= 8500
              && (r.invalidated.Bullish? <==> 15000.0 * Weight(votes, Bullish) >= 7499.0 * Total(votes))
  {
    hide Votes, Confidence, Weight, Total;
    ReportIs(e);
    var votes, r := Votes(e), RunScenario(e);
    if r.Report? {
      var b, s, t := Weight(votes, Bullish), Weight(votes, Bearish), Total(votes);
      ConfidencesSum(b, s, t);
      ConfidenceBounded(b, t, t);
      ConfidenceBounded(s, t, t);
      LeansExactly(b, t);
    }
  }

  /** No report exactly when an engine before it failed or nothing takes a side; otherwise two confidences that
    sum to 0.95, and the side that leads is the one whose invalidation is named. */
  method RunScenarioEngine(e: Evidence) returns (report: Report)
    ensures report == RunScenario(e)
    ensures report.Unavailable? <==> e.structure.None? || e.sweep.None? || Silent(e)
    ensures report.Report? ==>
              && report.bullish + report.bearish == 9500 && 1000 <= report.bullish <= 8500
              && (report.invalidated.Bullish? <==> report.bullish >= 4750)
              && report.level == if report.invalidated.Bullish? then e.support else e.resistance
  {
    hide Weight, Total, Confidence, Votes, Silent;
    ReportBalances(e);
    if e.structure.None? || e.sweep.None? {
      return Unavailable;
    }
    var votes := CollectVotes(e);
    if votes == [] {
      return Unavailable;
    }
    var bullish := Confidence(Weight(votes, Bullish), Total(votes));
    var bearish := Confidence(Weight(votes, Bearish), Total(votes));
    report := if bullish >= bearish then Report(bullish, bearish, Bullish, e.support)
              else Report(bullish, bearish, Bearish, e.resistance);
  }

  lemma LeansExactly(weight: real, total: real)
    requires total > 0.0
    ensures Confidence(weight, total) >= 4750 <==> 15000.0 * weight >= 7499.0 * total
  {
    var share := weight / total;
    assert weight == share * total;
    var x := (0.10 + share * 0.75) * 10000.0;
    if 15000.0 * weight >= 7499.0 * total {
      NotBelow(15000.0 * share - 7499.0, total);
      assert x >= 4749.5;
    } else {
      NotBelow(7499.0 - 15000.0 * share, total);
      NotEqual(15000.0 * share - 7499.0, total);
      assert x < 4749.5;
    }
    hide RoundHalfEven;
  }

  lemma NotBelow(x: real, n: real)
    requires n > 0.0 && x * n >= 0.0
    ensures x >= 0.0
  {
  }

  lemma NotEqual(x: real, n: real)
    requires x * n != 0.0
    ensures x != 0.0
  {
  }

  // ---------------------------------------------------------------- the mirror

  function MirrorEvidence(e: Evidence): Evidence {
    Evidence(if e.structure.Some? then Some(Opposite(e.structure.value)) else None,
             if e.resistance.Some? then Some(-e.resistance.value) else None,
             if e.support.Some? then Some(-e.support.value) else None,
             if e.sweep.Some? && e.sweep.value.Some?
             then Some(Some(if e.sweep.value.value.BuySide? then Liquidity.SellSide else Liquidity.BuySide)) else e.sweep,
             if e.zones.Report?
             then Zones.Report(Zones.MirrorZones(e.zones.supply), Zones.MirrorZones(e.zones.demand)) else e.zones,
             if e.mtf.Some? then Some(Opposite(e.mtf.value)) else None)
  }

  lemma {:induction false} WeightAppends(a: seq<Vote>, b: seq<Vote>, d: Bias)
    ensures Weight(a + b, d) == Weight(a, d) + Weight(b, d)
  {
    if b == [] {
      assert a + b == a;
    } else {
      var n := |b| - 1;
      assert (a + b)[..|a + b| - 1] == a + b[..n];
      WeightAppends(a, b[..n], d);
    }
  }

  /** The parts a side's weight is made of. */
  lemma WeightOfVotes(e: Evidence, d: Bias)
    ensures Weight(Votes(e), d)
         == Weight(StructureVote(e), d) + Weight(SweepVote(e), d)
            + (if e.zones.Report?
               then Weight(ZoneVote(e.zones.demand, Bullish), d) + Weight(ZoneVote(e.zones.supply, Bearish), d) else 0.0)
            + Weight(MtfVote(e), d)
  {
    hide StructureVote, SweepVote, MtfVote, ZoneVote;
    var z := if e.zones.Report? then ZoneVote(e.zones.demand, Bullish) + ZoneVote(e.zones.supply, Bearish) else [];
    if e.zones.Report? { WeightAppends(ZoneVote(e.zones.demand, Bullish), ZoneVote(e.zones.supply, Bearish), d); }
    WeightAppends(StructureVote(e), SweepVote(e), d);
    WeightAppends(StructureVote(e) + SweepVote(e), z, d);
    WeightAppends(StructureVote(e) + SweepVote(e) + z, MtfVote(e), d);
  }

  lemma OneVote(v: Vote, d: Bias)
    ensures Weight([v], d) == (if v.direction == d then v.weight else 0.0) && Weight([], d) == 0.0
  {
    assert [v][..0] == [];
  }

  /** The strength of the first zone, if any. */
  function Leading(zones: seq<Zones.Zone>): int {
    if zones != [] && zones[0].strength > 0 then zones[0].strength else 0
  }

  /** What speaks for the bull: a bullish structure, the lows having been swept, demand below, and the leading
    frame; each by its fixed weight. */
  lemma BullishWeightIs(e: Evidence)
    ensures Weight(Votes(e), Bullish)
         == (if e.structure == Some(Bullish) then 3.0 else 0.0)
            + (if e.sweep == Some(Some(Liquidity.SellSide)) then 2.0 else 0.0)
            + (if e.zones.Report? then 1.5 * (Leading(e.zones.demand) as real / 10000.0) else 0.0)
            + (if e.mtf == Some(Bullish) then 4.0 else 0.0)
  {
    hide Votes;
    WeightOfVotes(e, Bullish);
    forall v: Vote, c: Bias
      ensures Weight([v], c) == (if v.direction == c then v.weight else 0.0) && Weight([], c) == 0.0
    {
      OneVote(v, c);
    }
    hide Weight;
  }

  lemma PartsMirror(e: Evidence, d: Bias)
    requires Directional(d)
    ensures var m := MirrorEvidence(e);
            && Weight(StructureVote(m), d) == Weight(StructureVote(e), Opposite(d))
            && Weight(SweepVote(m), d) == Weight(SweepVote(e), Opposite(d))
            && Weight(MtfVote(m), d) == Weight(MtfVote(e), Opposite(d))
  {
    forall v: Vote, c: Bias
      ensures Weight([v], c) == (if v.direction == c then v.weight else 0.0) && Weight([], c) == 0.0
    {
      OneVote(v, c);
    }
    hide Weight;
  }

  lemma ZonePartMirrors(zones: seq<Zones.Zone>, side: Bias, d: Bias)
    requires Directional(d) && Directional(side)
    ensures Weight(ZoneVote(Zones.MirrorZones(zones), side), d) == Weight(ZoneVote(zones, Opposite(side)), Opposite(d))
  {
    forall v: Vote, c: Bias
      ensures Weight([v], c) == (if v.direction == c then v.weight else 0.0) && Weight([], c) == 0.0
    {
      OneVote(v, c);
    }
    hide Weight;
  }

  lemma WeightsMirror(e: Evidence, d: Bias)
    requires Directional(d)
    ensures Weight(Votes(MirrorEvidence(e)), d) == Weight(Votes(e), Opposite(d))
  {
    hide Weight, Votes, StructureVote, SweepVote, MtfVote, ZoneVote;
    WeightOfVotes(e, Opposite(d));
    WeightOfVotes(MirrorEvidence(e), d);
    PartsMirror(e, d);
    if e.zones.Report? {
      ZonePartMirrors(e.zones.supply, Bullish, d);
      ZonePartMirrors(e.zones.demand, Bearish, d);
    }
  }

  /** Mirrored evidence swaps the two confidences, and answers exactly when the evidence does. */
  lemma ConfidencesSwap(e: Evidence)
    ensures var r, m := RunScenario(e), RunScenario(MirrorEvidence(e));
            && (r.Report? <==> m.Report?)
            && (r.Report? ==> m.bullish == r.bearish && m.bearish == r.bullish)
  {
    hide Weight, Total, Votes, Confidence, Sound;
    var m := MirrorEvidence(e);
    VotesSound(e);
    VotesSound(m);
    WeightsAddUp(Votes(e));
    WeightsAddUp(Votes(m));
    WeightsMirror(e, Bullish);
    WeightsMirror(e, Bearish);
    NoVotesNoWeight();
  }

  lemma NoVotesNoWeight()
    ensures Total([]) == 0.0
  {
  }

  /** The invalidation scenario swaps too, exactly when the two are not tied: a tie leans bullish. */
  lemma InvalidationSwapsExactly(e: Evidence, r: Report, m: Report)
    requires r == RunScenario(e) && m == RunScenario(MirrorEvidence(e)) && r.Report? && m.Report?
    ensures m.invalidated == Opposite(r.invalidated) <==> r.bullish != r.bearish
    ensures r.bullish != r.bearish ==> m.level == if r.level.Some? then Some(-r.level.value) else None
  {
    ConfidencesSwap(e);
    hide Weight, Total, Votes, Confidence;
  }
}
