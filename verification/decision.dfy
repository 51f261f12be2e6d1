/** The decision contract: what a published decision has to look like. */
module Decision {
  import opened Bars
  import opened Options
  import Plan
  import Text

  datatype Direction = Buy | Sell | Wait | NoTrade

  datatype PlanType = Immediate | Anticipatory | Conditional

  datatype Execution = ValidNow | AwaitingActivation | Expired | Invalidated

  datatype Levels = Levels(entry: real, stop: real, targets: seq<real>)

  /** The reasons for an unfinished analysis that the contract lists. */
  datatype DegradedReason =
    | EngineUnavailable | LlmUnavailable | LlmRateLimited | LlmTimeout | LlmBadRequest
    | ModelOutputInvalid | ModelPlanInvalid | LevelsNotGrounded
    | InsufficientData | NoCandles | NoViableTimeframe | PromptUnavailable | StaleData | MarketClosed | PlanNotViable

  /** A reason as a payload carries it: one of those, or some other text. */
  datatype Reason = Listed(reason: DegradedReason) | Other(text: string)

  datatype Decision = Decision(direction: Direction, confidence: Option<real>, planType: Option<PlanType>,
                               execution: Option<Execution>, levels: Option<Levels>, timeframe: string,
                               degraded: bool, reason: Option<Reason>, condition: Option<string>,
                               validity: Option<int>)

  /** What a validator raises. */
  datatype Problem =
    | UnknownReason | ConfidenceRange | ValidityRange | NoTargets | EntryIsStop | TargetBelowLong | TargetAboveShort
    | WaitIsNoOutcome | UnexplainedNoTrade | ConfidentFailure
    | DegradedDirection | NoConfidence | NoLevels | NoPlanType | UnstatedCondition

  // ---------------------------------------------------------------- the validators

  /** The first target on the wrong side. */
  function CheckTargets(long: bool, entry: real, targets: seq<real>): Option<Problem> {
    if targets == [] then None
    else if long && targets[0] <= entry then Some(TargetBelowLong)
    else if !long && targets[0] >= entry then Some(TargetAboveShort)
    else CheckTargets(long, entry, targets[1..])
  }

  function CheckLevels(l: Levels): Option<Problem> {
    if l.targets == [] then Some(NoTargets)
    else if l.entry == l.stop then Some(EntryIsStop)
    else CheckTargets(l.stop < l.entry, l.entry, l.targets)
  }

  function CheckFields(d: Decision): Option<Problem> {
    if d.reason.Some? && d.reason.value.Other? then Some(UnknownReason)
    else if d.confidence.Some? && !(0.0 <= d.confidence.value <= 1.0) then Some(ConfidenceRange)
    else if d.levels.Some? && CheckLevels(d.levels.value).Some? then CheckLevels(d.levels.value)
    else if d.validity.Some? && !(1 <= d.validity.value <= 96) then Some(ValidityRange)
    else None
  }

  predicate Stated(condition: Option<string>) {
    condition.Some? && Text.Trim(condition.value, Text.PythonSpace) != ""
  }

  function Check(d: Decision): Option<Problem> {
    if CheckFields(d).Some? then CheckFields(d)
    else if d.direction.Wait? then Some(WaitIsNoOutcome)
    else if d.direction.NoTrade? then
      if !d.degraded || d.reason.None? then Some(UnexplainedNoTrade)
      else if d.confidence.Some? then Some(ConfidentFailure)
      else None
    else if d.degraded || d.reason.Some? then Some(DegradedDirection)
    else if d.confidence.None? then Some(NoConfidence)
    else if d.levels.None? then Some(NoLevels)
    else if d.planType.None? || d.execution.None? then Some(NoPlanType)
    else if d.planType == Some(Conditional) && !Stated(d.condition) then Some(UnstatedCondition)
    else None
  }

  // ---------------------------------------------------------------- what they accept

  /** Entry strictly between the stop and every target. */
  predicate Between(l: Levels) {
    l.targets != []
    && ((forall i :: 0 <= i < |l.targets| ==> l.stop < l.entry < l.targets[i])
        || (forall i :: 0 <= i < |l.targets| ==> l.targets[i] < l.entry < l.stop))
  }

  lemma {:induction false} TargetsExactly(long: bool, entry: real, targets: seq<real>)
    ensures CheckTargets(long, entry, targets).None?
      <==> forall i :: 0 <= i < |targets| ==> if long then targets[i] > entry else targets[i] < entry
  {
    if targets != [] {
      TargetsExactly(long, entry, targets[1..]);
      assert forall i :: 0 < i < |targets| ==> targets[i] == targets[1..][i - 1];
    }
  }

  /** A plan's levels are accepted exactly when entry lies strictly between its stop and all its targets. */
  lemma LevelsExactly(l: Levels)
    ensures CheckLevels(l).None? <==> Between(l)
  {
    TargetsExactly(l.stop < l.entry, l.entry, l.targets);
    if l.targets != [] { assert l.targets[0] == l.targets[0]; }
  }

  /** A decision is accepted exactly when it is one of two things: a degraded refusal that names a listed
    reason and claims no confidence, or an undegraded BUY or SELL with a whole plan. */
  lemma AcceptedExactly(d: Decision)
    ensures Check(d).None?
      <==> && (d.reason.Some? ==> d.reason.value.Listed?)
           && (d.confidence.Some? ==> 0.0 <= d.confidence.value <= 1.0)
           && (d.validity.Some? ==> 1 <= d.validity.value <= 96)
           && (d.levels.Some? ==> Between(d.levels.value))
           && ((d.direction.NoTrade? && d.degraded && d.reason.Some? && d.confidence.None?)
               || ((d.direction.Buy? || d.direction.Sell?) && !d.degraded && d.reason.None? && d.confidence.Some?
                   && d.levels.Some? && d.planType.Some? && d.execution.Some?
                   && (d.planType == Some(Conditional) ==> Stated(d.condition))))
  {
    if d.levels.Some? { LevelsExactly(d.levels.value); }
    hide CheckLevels, Between, Stated;
  }

  /** Accepted levels can always be sized, and always have a positive reward. */
  lemma AcceptedLevelsAreSized(l: Levels, riskPercent: real)
    requires CheckLevels(l).None?
    ensures var r := Plan.RunRisk(l.entry, l.stop, l.targets, riskPercent);
            r.Sized? && r.rewardRisk.Some? && r.rewardRisk.value > 0.0
  {
    LevelsExactly(l);
    Plan.RiskMeans(l.entry, l.stop, l.targets, riskPercent);
    Plan.DistanceZero(l.entry, l.stop);
    assert l.targets[0] == l.targets[0];
    hide Abs;
  }

  /** The direction and the levels are checked apart: a BUY may carry a short's levels, and is accepted. */
  lemma DirectionIsNotTiedToLevels(l: Levels, confidence: real)
    requires CheckLevels(l).None? && 0.0 <= confidence <= 1.0
    ensures forall d | d == Buy || d == Sell ::
              Check(Decision(d, Some(confidence), Some(Immediate), Some(ValidNow), Some(l), "", false, None, None, None)).None?
  {
    hide CheckLevels, Stated;
  }

  /** What a problem says is wrong with levels. */
  ghost predicate TrueOfLevels(p: Problem, l: Levels) {
    match p
    case NoTargets => l.targets == []
    case EntryIsStop => l.entry == l.stop
    case TargetBelowLong => l.stop < l.entry && exists t :: t in l.targets && t <= l.entry
    case TargetAboveShort => l.entry < l.stop && exists t :: t in l.targets && t >= l.entry
    case _ => false
  }

  /** What a problem says is wrong with a decision. */
  ghost predicate TrueOf(p: Problem, d: Decision) {
    match p
    case UnknownReason => d.reason.Some? && d.reason.value.Other?
    case ConfidenceRange => d.confidence.Some? && (d.confidence.value < 0.0 || d.confidence.value > 1.0)
    case ValidityRange => d.validity.Some? && (d.validity.value < 1 || d.validity.value > 96)
    case WaitIsNoOutcome => d.direction == Wait
    case UnexplainedNoTrade => d.direction == NoTrade && (!d.degraded || d.reason.None?)
    case ConfidentFailure => d.direction == NoTrade && d.confidence.Some?
    case DegradedDirection => (d.direction == Buy || d.direction == Sell) && (d.degraded || d.reason.Some?)
    case NoConfidence => (d.direction == Buy || d.direction == Sell) && d.confidence.None?
    case NoLevels => (d.direction == Buy || d.direction == Sell) && d.levels.None?
    case NoPlanType => d.planType.None? || d.execution.None?
    case UnstatedCondition => d.planType == Some(Conditional) && !Stated(d.condition)
    case _ => d.levels.Some? && TrueOfLevels(p, d.levels.value)
  }

  lemma {:induction false} TargetsProblem(long: bool, entry: real, targets: seq<real>)
    ensures var p := CheckTargets(long, entry, targets);
            p.Some? ==> (p.value == if long then TargetBelowLong else TargetAboveShort)
                        && exists i :: 0 <= i < |targets| && if long then targets[i] <= entry else targets[i] >= entry
  {
    if targets != [] {
      TargetsProblem(long, entry, targets[1..]);
      assert forall i :: 0 < i < |targets| ==> targets[i] == targets[1..][i - 1];
      assert targets[0] == targets[0];
    }
  }

  lemma LevelsProblem(l: Levels)
    ensures CheckLevels(l).Some? ==> TrueOfLevels(CheckLevels(l).value, l)
  {
    TargetsProblem(l.stop < l.entry, l.entry, l.targets);
    var long := l.stop < l.entry;
    if i :| 0 <= i < |l.targets| && if long then l.targets[i] <= l.entry else l.targets[i] >= l.entry {
      TargetIn(l.targets, i);
    }
    hide CheckTargets;
  }

  lemma TargetIn(targets: seq<real>, i: nat)
    requires i < |targets|
    ensures targets[i] in targets
  {
  }

  /** Whatever is named as the problem with a decision is true of it. */
  lemma ProblemsAreTrue(d: Decision)
    ensures Check(d).Some? ==> TrueOf(Check(d).value, d)
  {
    if d.levels.Some? { LevelsProblem(d.levels.value); }
    hide CheckLevels, TrueOfLevels, Stated;
  }
}
