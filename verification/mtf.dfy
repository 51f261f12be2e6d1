/** The bias of several timeframes, slowest first. */
module Mtf {
  import opened Options
  import opened Scenario

  datatype Alignment = FullBullish | FullBearish | MixedBullish | MixedBearish | Balanced

  datatype Outlook = NoOutlook
                   | Outlook(alignment: Alignment, tradeBias: Bias, conflict: bool, leads: Option<string>,
                             context: seq<string>, ltf: Bias)

  /** A frame that was not measured reads as unknown. */
  function BiasOf(measured: map<string, Bias>, frame: string): Bias {
    if frame in measured then measured[frame] else Unknown
  }

  function Count(stack: seq<string>, measured: map<string, Bias>, b: Bias): nat {
    if stack == [] then 0
    else Count(stack[..|stack| - 1], measured, b) + if BiasOf(measured, stack[|stack| - 1]) == b then 1 else 0
  }

  /** The slowest frame that says something, or the length of the stack. */
  function Leader(stack: seq<string>, measured: map<string, Bias>): (i: nat)
    ensures i <= |stack|
    ensures i < |stack| ==> Directional(BiasOf(measured, stack[i]))
    ensures forall j :: 0 <= j < i ==> !Directional(BiasOf(measured, stack[j]))
  {
    if stack == [] || Directional(BiasOf(measured, stack[0])) then 0 else 1 + Leader(stack[1..], measured)
  }

  lemma {:induction false} LeaderIs(stack: seq<string>, measured: map<string, Bias>, i: nat)
    requires i <= |stack| && (i < |stack| ==> Directional(BiasOf(measured, stack[i])))
    requires forall j :: 0 <= j < i ==> !Directional(BiasOf(measured, stack[j]))
    ensures Leader(stack, measured) == i
  {
    if i > 0 {
      assert forall j :: 0 <= j < i - 1 ==> stack[1..][j] == stack[j + 1];
      LeaderIs(stack[1..], measured, i - 1);
    }
  }

  function Align(bullish: nat, bearish: nat): Alignment {
    if bullish > 0 && bearish == 0 then FullBullish
    else if bearish > 0 && bullish == 0 then FullBearish
    else if bullish > bearish then MixedBullish
    else if bearish > bullish then MixedBearish
    else Balanced
  }

  function Without(stack: seq<string>, leads: Option<string>): seq<string> {
    if stack == [] then []
    else
      var before, frame := Without(stack[..|stack| - 1], leads), stack[|stack| - 1];
      if leads == Some(frame) then before else before + [frame]
  }

  ghost predicate Readable(stack: seq<string>, measured: map<string, Bias>, decision: string) {
    BiasOf(measured, decision) != Unknown || exists i :: 0 <= i < |stack| && BiasOf(measured, stack[i]) != Unknown
  }

  lemma ReadableStep(stack: seq<string>, measured: map<string, Bias>, decision: string, i: nat)
    requires i < |stack|
    ensures Readable(stack[..i + 1], measured, decision)
      <==> Readable(stack[..i], measured, decision) || BiasOf(measured, stack[i]) != Unknown
  {
    assert stack[..i + 1][i] == stack[i];
    assert forall j :: 0 <= j < i ==> stack[..i + 1][j] == stack[..i][j];
  }

  ghost function RunMtf(stack: seq<string>, measured: map<string, Bias>, decision: string): Outlook {
    if measured == map[] || !Readable(stack, measured, decision) then NoOutlook
    else
      var i := Leader(stack, measured);
      var leads := if i < |stack| then Some(stack[i]) else None;
      var lead := if i < |stack| then BiasOf(measured, stack[i]) else Neutral;
      var ltf := BiasOf(measured, decision);
      Outlook(Align(Count(stack, measured, Bullish), Count(stack, measured, Bearish)), lead,
             Directional(ltf) && Directional(lead) && ltf != lead, leads, Without(stack, leads), ltf)
  }

  method RunMtfEngine(stack: seq<string>, measured: map<string, Bias>, decision: string) returns (report: Outlook)
    ensures report == RunMtf(stack, measured, decision)
  {
    if |measured| == 0 {
      return NoOutlook;
    }
    var readable := BiasOf(measured, decision) != Unknown;
    var bullish, bearish, directional := 0, 0, 0;
    var leads: Option<string> := None;
    ghost var first: nat := |stack|;
    for i := 0 to |stack|
      invariant readable <==> Readable(stack[..i], measured, decision)
      invariant bullish == Count(stack[..i], measured, Bullish) && bearish == Count(stack[..i], measured, Bearish)
      invariant directional == bullish + bearish
      invariant if leads.None? then forall j :: 0 <= j < i ==> !Directional(BiasOf(measured, stack[j]))
                else first < i && leads == Some(stack[first]) && Directional(BiasOf(measured, stack[first]))
                     && forall j :: 0 <= j < first ==> !Directional(BiasOf(measured, stack[j]))
    {
      assert stack[..i + 1][..i] == stack[..i];
      var bias := BiasOf(measured, stack[i]);
      ReadableStep(stack, measured, decision, i);
      readable := readable || bias != Unknown;
      bullish := if bias.Bullish? then bullish + 1 else bullish;
      bearish := if bias.Bearish? then bearish + 1 else bearish;
      directional := if Directional(bias) then directional + 1 else directional;
      if leads.None? && Directional(bias) {
        leads, first := Some(stack[i]), i;
      }
    }
    assert stack[..|stack|] == stack;
    LeaderIs(stack, measured, if leads.None? then |stack| else first);
    if !readable {
      return NoOutlook;
    }
    var lead := if leads.Some? then BiasOf(measured, leads.value) else Neutral;
    var ltf := BiasOf(measured, decision);
    var alignment := if directional > 0 && bullish == directional && bearish == 0 then FullBullish
                     else if directional > 0 && bearish == directional && bullish == 0 then FullBearish
                     else if bullish > bearish then MixedBullish
                     else if bearish > bullish then MixedBearish
                     else Balanced;
    report := Outlook(alignment, lead, Directional(ltf) && Directional(lead) && ltf != lead, leads,
                     Without(stack, leads), ltf);
  }

  lemma {:induction false} CountIsZero(stack: seq<string>, measured: map<string, Bias>, b: Bias)
    ensures Count(stack, measured, b) == 0 <==> forall i :: 0 <= i < |stack| ==> BiasOf(measured, stack[i]) != b
  {
    if stack != [] {
      var n := |stack| - 1;
      CountIsZero(stack[..n], measured, b);
      assert forall i :: 0 <= i < n ==> stack[..n][i] == stack[i];
    }
  }

  /** Full alignment is unanimity of the frames that say anything; the trade bias is the leader's, whatever
    the majority; and a decision frame in a unanimous stack never conflicts. */
  lemma AlignmentMeans(stack: seq<string>, measured: map<string, Bias>, decision: string)
    ensures var r := RunMtf(stack, measured, decision);
            r.Outlook? ==>
              && (r.alignment == FullBullish || r.alignment == FullBearish
                  <==> (exists i :: 0 <= i < |stack| && Directional(BiasOf(measured, stack[i])))
                       && forall i :: 0 <= i < |stack| && Directional(BiasOf(measured, stack[i]))
                            ==> BiasOf(measured, stack[i]) == r.tradeBias)
              && (r.alignment == FullBullish ==> r.tradeBias == Bullish)
              && (r.alignment == FullBearish ==> r.tradeBias == Bearish)
              && (r.leads.None? <==> r.tradeBias == Neutral)
              && (decision in stack && (r.alignment == FullBullish || r.alignment == FullBearish) ==> !r.conflict)
  {
    hide Count, Without;
    CountIsZero(stack, measured, Bullish);
    CountIsZero(stack, measured, Bearish);
    var r := RunMtf(stack, measured, decision);
    if r.Outlook? {
      var i := Leader(stack, measured);
      assert i < |stack| ==> r.tradeBias == BiasOf(measured, stack[i]);
    }
  }

  function BiasesOf(stack: seq<string>, measured: map<string, Bias>): (r: seq<Bias>)
    ensures |r| == |stack| && forall i :: 0 <= i < |r| ==> r[i] == BiasOf(measured, stack[i])
  {
    seq(|stack|, i requires 0 <= i < |stack| => BiasOf(measured, stack[i]))
  }

  lemma {:induction false} CountIs(stack: seq<string>, measured: map<string, Bias>, b: Bias, biases: seq<Bias>)
    requires |biases| == |stack| && forall i :: 0 <= i < |stack| ==> biases[i] == BiasOf(measured, stack[i])
    ensures Count(stack, measured, b) == |set i | 0 <= i < |biases| && biases[i] == b|
  {
    hide BiasOf;
    if stack != [] {
      var n := |stack| - 1;
      CountIs(stack[..n], measured, b, biases[..n]);
      OneMoreBias(biases, b, n);
    }
  }

  lemma OneMoreBias(biases: seq<Bias>, b: Bias, n: nat)
    requires |biases| == n + 1
    ensures |set i | 0 <= i < |biases| && biases[i] == b|
         == |set i | 0 <= i < |biases[..n]| && biases[..n][i] == b| + if biases[n] == b then 1 else 0
  {
    var before := set i | 0 <= i < |biases[..n]| && biases[..n][i] == b;
    var all := set i | 0 <= i < |biases| && biases[i] == b;
    assert all == if biases[n] == b then before + {n} else before;
  }

  lemma {:induction false} WithoutIs(stack: seq<string>, leads: Option<string>, frame: string)
    ensures frame in Without(stack, leads) <==> frame in stack && leads != Some(frame)
  {
    if stack != [] {
      var init, last := stack[..|stack| - 1], stack[|stack| - 1];
      assert stack == init + [last];
      WithoutIs(init, leads, frame);
    }
  }

  /** Every part of the answer, from the biases: when there is one; which way the frames lean and whether all do; whose bias
    is traded; whether the frame decided on goes against it; and who is left as context. */
  lemma OutlookExactly(stack: seq<string>, measured: map<string, Bias>, decision: string)
    ensures var r := RunMtf(stack, measured, decision);
            r.Outlook? <==> measured != map[]
                            && (BiasOf(measured, decision) != Unknown
                                || exists i :: 0 <= i < |stack| && BiasOf(measured, stack[i]) != Unknown)
    ensures var r := RunMtf(stack, measured, decision);
            var biases := BiasesOf(stack, measured);
            var up := |set i | 0 <= i < |biases| && biases[i] == Bullish|;
            var down := |set i | 0 <= i < |biases| && biases[i] == Bearish|;
            r.Outlook? ==>
              && (r.alignment == FullBullish <==> up > 0 && down == 0) && (r.alignment == FullBearish <==> down > 0 && up == 0)
              && (r.alignment == MixedBullish <==> up > down > 0) && (r.alignment == MixedBearish <==> down > up > 0)
              && r.ltf == BiasOf(measured, decision)
              && (r.conflict <==> (r.ltf == Bullish && r.tradeBias == Bearish) || (r.ltf == Bearish && r.tradeBias == Bullish))
              && (forall frame :: frame in r.context <==> frame in stack && r.leads != Some(frame))
              && if r.leads.None? then up == down == 0 && r.tradeBias == Neutral
                 else exists i :: 0 <= i < |stack| && r.leads == Some(stack[i]) && r.tradeBias == BiasOf(measured, stack[i])
                                  && Directional(r.tradeBias)
                                  && forall j :: 0 <= j < i ==> !Directional(BiasOf(measured, stack[j]))
  {
    var biases := BiasesOf(stack, measured);
    CountIs(stack, measured, Bullish, biases);
    CountIs(stack, measured, Bearish, biases);
    CountIsZero(stack, measured, Bullish);
    CountIsZero(stack, measured, Bearish);
    var r := RunMtf(stack, measured, decision);
    hide Count, BiasOf;
    forall frame
      ensures r.Outlook? ==> (frame in r.context <==> frame in stack && r.leads != Some(frame))
    {
      if r.Outlook? { WithoutIs(stack, r.leads, frame); }
    }
    hide Without;
    if r.Outlook? {
      var i := Leader(stack, measured);
      assert i < |stack| ==> r.leads == Some(stack[i]) && r.tradeBias == BiasOf(measured, stack[i]);
    }
  }

  // ---------------------------------------------------------------- the mirror

  function MirrorBiases(measured: map<string, Bias>): map<string, Bias> {
    map frame | frame in measured :: Opposite(measured[frame])
  }

  function MirrorAlignment(a: Alignment): Alignment {
    match a
    case FullBullish => FullBearish
    case FullBearish => FullBullish
    case MixedBullish => MixedBearish
    case MixedBearish => MixedBullish
    case Balanced => Balanced
  }

  lemma {:induction false} CountMirrors(stack: seq<string>, measured: map<string, Bias>, b: Bias)
    ensures Count(stack, MirrorBiases(measured), b) == Count(stack, measured, Opposite(b))
  {
    if stack != [] { CountMirrors(stack[..|stack| - 1], measured, b); }
  }

  /** Mirrored biases swap the alignment and the trade bias; who leads, and whether there is a conflict,
    stay. */
  lemma MtfMirrors(stack: seq<string>, measured: map<string, Bias>, decision: string)
    ensures var r := RunMtf(stack, measured, decision);
            RunMtf(stack, MirrorBiases(measured), decision)
            == if r.NoOutlook? then r
               else r.(alignment := MirrorAlignment(r.alignment), tradeBias := Opposite(r.tradeBias), ltf := Opposite(r.ltf))
  {
    hide Count, Without;
    var m := MirrorBiases(measured);
    assert forall frame :: BiasOf(m, frame) == Opposite(BiasOf(measured, frame));
    assert m == map[] <==> measured == map[] by {
      assert m.Keys == measured.Keys;
    }
    CountMirrors(stack, measured, Bullish);
    CountMirrors(stack, measured, Bearish);
    LeaderIs(stack, m, Leader(stack, measured));
  }
}
