/** Asking a model for a decision: validate the reply, say what was wrong with it, ask again, give up.

  The provider is an arbitrary function of the attempt and of the conversation so far.
  Finding the JSON object in a reply is abstract: a reply carries what was found in it.
 */
module Synthesizer {
  import opened Bars
  import opened Decision
  import opened Options
  import Liquidity
  import Zones

  const LEVEL_TOLERANCE_ATR := 0.35
  const LEVEL_TOLERANCE_RELATIVE := 0.0015

  /** `typed` says that every field has the type asked for. */
  datatype Payload = Payload(typed: bool, direction: Direction, confidence: Option<real>, planType: Option<PlanType>,
                             levels: Option<Levels>, timeframe: string, condition: Option<string>, validity: Option<int>)

  datatype Reply = Raised(code: string) | Said(content: string, payload: Option<Payload>)

  datatype Rejection = NotJson | IllTyped | Invalid(problem: Problem) | Ungrounded(prices: seq<real>)

  datatype Message = Prompt(text: string) | Assistant(content: string) | Repair(rejection: Rejection)

  datatype Kind = LevelsUngrounded | RepairExhausted

  datatype Outcome =
    | Decided(decision: Decision, attempts: int, repairs: seq<Rejection>)
    | ProviderFailed(code: string, attempts: int, repairs: seq<Rejection>)
    | NoPrompt
    | Exhausted(kind: Kind, attempts: int, repairs: seq<Rejection>)

  // ---------------------------------------------------------------- measured levels

  /** Every place a price may have been measured. A sweep has no price of its own among these. */
  datatype Measured = Measured(structure: seq<Option<real>>, levels: seq<Option<real>>, zones: Zones.Report,
                               geometry: seq<Option<real>>, equalHighs: seq<Liquidity.Level>,
                               equalLows: seq<Liquidity.Level>)

  predicate HasPrice(m: Measured, x: real) {
    || Some(x) in m.structure || Some(x) in m.levels || Some(x) in m.geometry
    || (m.zones.Report? && exists z :: z in m.zones.demand + m.zones.supply && (z.low == x || z.high == x))
    || exists l :: l in m.equalHighs + m.equalLows && l.price == x
  }

  predicate StrictlyAscending(levels: seq<real>) {
    forall i, j :: 0 <= i < j < |levels| ==> levels[i] < levels[j]
  }

  lemma {:induction false} InsertStrictly(sorted: seq<real>, p: real)
    requires StrictlyAscending(sorted) && p !in sorted
    ensures var r := Liquidity.InsertPrice(sorted, p);
            StrictlyAscending(r) && forall x :: x in r <==> x == p || x in sorted
  {
    if sorted != [] {
      var init, last := sorted[..|sorted| - 1], sorted[|sorted| - 1];
      assert sorted == init + [last];
      if p < last {
        InsertStrictly(init, p);
        var r := Liquidity.InsertPrice(init, p);
        assert forall i :: 0 <= i < |init| ==> init[i] < last;
        assert forall i :: 0 <= i < |r| ==> r[i] in r;
      }
    }
  }

  predicate NoneTwice(found: seq<real>) {
    forall i, j :: 0 <= i < j < |found| ==> found[i] != found[j]
  }

  lemma {:induction false} SortsStrictly(found: seq<real>)
    requires NoneTwice(found)
    ensures var r := Liquidity.SortPrices(found);
            StrictlyAscending(r) && forall x :: x in r <==> x in found
  {
    hide Liquidity.InsertPrice;
    if found != [] {
      var init, last := found[..|found| - 1], found[|found| - 1];
      assert found == init + [last];
      SortsStrictly(init);
      InsertStrictly(Liquidity.SortPrices(init), last);
    }
  }

  /** Adding to a set, kept as a list without repeats. */
  function Add(found: seq<real>, x: real): (r: seq<real>)
    ensures forall y :: y in r <==> y in found || y == x
    ensures NoneTwice(found) ==> NoneTwice(r)
  {
    if x in found then found else found + [x]
  }

  method AddPrices(found: seq<real>, prices: seq<Option<real>>) returns (more: seq<real>)
    requires NoneTwice(found)
    ensures NoneTwice(more) && forall x :: x in more <==> x in found || Some(x) in prices
  {
    hide Add, NoneTwice;
    more := found;
    for i := 0 to |prices|
      invariant NoneTwice(more) && forall x :: x in more <==> x in found || Some(x) in prices[..i]
    {
      if prices[i].Some? {
        more := Add(more, prices[i].value);
      }
    }
  }

  method AddZones(found: seq<real>, zones: seq<Zones.Zone>) returns (more: seq<real>)
    requires NoneTwice(found)
    ensures NoneTwice(more) && forall x :: x in more <==> x in found || exists z :: z in zones && (z.low == x || z.high == x)
  {
    hide Add, NoneTwice;
    more := found;
    for i := 0 to |zones|
      invariant NoneTwice(more)
      invariant forall x :: x in more <==> x in found || exists z :: z in zones[..i] && (z.low == x || z.high == x)
    {
      assert zones[..i + 1] == zones[..i] + [zones[i]];
      more := Add(Add(more, zones[i].low), zones[i].high);
    }
    assert zones[..|zones|] == zones;
  }

  method AddLevels(found: seq<real>, levels: seq<Liquidity.Level>) returns (more: seq<real>)
    requires NoneTwice(found)
    ensures NoneTwice(more) && forall x :: x in more <==> x in found || exists l :: l in levels && l.price == x
  {
    hide Add, NoneTwice;
    more := found;
    for i := 0 to |levels|
      invariant NoneTwice(more)
      invariant forall x :: x in more <==> x in found || exists l :: l in levels[..i] && l.price == x
    {
      assert levels[..i + 1] == levels[..i] + [levels[i]];
      more := Add(more, levels[i].price);
    }
    assert levels[..|levels|] == levels;
  }

  function Known(prices: seq<Option<real>>): (r: seq<real>)
    ensures forall x :: x in r <==> Some(x) in prices
  {
    if prices == [] then []
    else
      var before, p := Known(prices[..|prices| - 1]), prices[|prices| - 1];
      assert prices == prices[..|prices| - 1] + [p];
      if p.Some? then before + [p.value] else before
  }

  function Edges(zones: seq<Zones.Zone>): (r: seq<real>)
    ensures forall x :: x in r <==> exists z :: z in zones && (z.low == x || z.high == x)
  {
    if zones == [] then []
    else
      var before, z := Edges(zones[..|zones| - 1]), zones[|zones| - 1];
      assert zones == zones[..|zones| - 1] + [z];
      before + [z.low, z.high]
  }

  function Means(levels: seq<Liquidity.Level>): (r: seq<real>)
    ensures forall x :: x in r <==> exists l :: l in levels && l.price == x
  {
    if levels == [] then []
    else
      var before, l := Means(levels[..|levels| - 1]), levels[|levels| - 1];
      assert levels == levels[..|levels| - 1] + [l];
      before + [l.price]
  }

  function Once(prices: seq<real>): (r: seq<real>)
    ensures NoneTwice(r) && forall x :: x in r <==> x in prices
  {
    if prices == [] then []
    else
      assert prices == prices[..|prices| - 1] + [prices[|prices| - 1]];
      Add(Once(prices[..|prices| - 1]), prices[|prices| - 1])
  }

  /** The menu: every measured price once, in order. */
  function Menu(m: Measured): seq<real> {
    var zones := if m.zones.Report? then m.zones.demand + m.zones.supply else [];
    Liquidity.SortPrices(Once(Known(m.structure) + Known(m.levels) + Edges(zones) + Known(m.geometry)
                              + Means(m.equalHighs + m.equalLows)))
  }

  /** The menu holds what was measured, and nothing else. */
  lemma MenuIs(m: Measured)
    ensures StrictlyAscending(Menu(m)) && forall x :: x in Menu(m) <==> HasPrice(m, x)
  {
    var zones := if m.zones.Report? then m.zones.demand + m.zones.supply else [];
    var prices := Known(m.structure) + Known(m.levels) + Edges(zones) + Known(m.geometry)
                  + Means(m.equalHighs + m.equalLows);
    assert forall x :: x in prices <==> HasPrice(m, x);
    hide HasPrice, Known, Edges, Means, Once;
    SortsStrictly(Once(prices));
  }

  lemma TopLast(a: seq<real>, init: seq<real>, last: real)
    requires StrictlyAscending(a) && a == init + [last]
    ensures StrictlyAscending(init) && forall x :: x in init ==> x < last
  {
    assert forall i :: 0 <= i < |init| ==> init[i] == a[i] && a[i] < a[|init|];
  }

  lemma SameTop(x: seq<real>, p: real, y: seq<real>, q: real)
    requires (forall z :: z in x ==> z < p) && forall z :: z in y ==> z < q
    requires forall z :: z in x + [p] <==> z in y + [q]
    ensures p == q && forall z :: z in x <==> z in y
  {
    assert p in x + [p] && q in y + [q];
    assert p in y + [q] && q in x + [p];
    forall z
      ensures z in x <==> z in y
    {
      assert z in x ==> z in x + [p];
      assert z in y ==> z in y + [q];
    }
  }

  lemma SomeMember(a: seq<real>, b: seq<real>)
    requires forall x :: x in a <==> x in b
    ensures a == [] <==> b == []
  {
    if a != [] {
      var p, rest := a[0], a[1..];
      assert a == [p] + rest && p in [p] + rest;
      assert p in b;
    }
    if b != [] {
      var p, rest := b[0], b[1..];
      assert b == [p] + rest && p in [p] + rest;
      assert p in a;
    }
  }

  /** Two strictly ascending lists of the same prices are one list. */
  lemma {:induction false} AscendingUnique(a: seq<real>, b: seq<real>)
    requires StrictlyAscending(a) && StrictlyAscending(b) && forall x :: x in a <==> x in b
    ensures a == b
  {
    hide StrictlyAscending;
    SomeMember(a, b);
    if a != [] {
      var x, y, p, q := a[..|a| - 1], b[..|b| - 1], a[|a| - 1], b[|b| - 1];
      assert a == x + [p] && b == y + [q];
      TopLast(a, x, p);
      TopLast(b, y, q);
      SameTop(x, p, y, q);
      AscendingUnique(x, y);
    }
  }

  method EvidenceLevels(m: Measured) returns (levels: seq<real>)
    ensures levels == Menu(m)
    ensures StrictlyAscending(levels) && forall x :: x in levels <==> HasPrice(m, x)
  {
    var found := AddPrices([], m.structure);
    found := AddPrices(found, m.levels);
    if m.zones.Report? {
      found := AddZones(found, m.zones.demand + m.zones.supply);
    }
    found := AddPrices(found, m.geometry);
    found := AddLevels(found, m.equalHighs + m.equalLows);
    assert forall x :: x in found <==> HasPrice(m, x);
    hide HasPrice, StrictlyAscending;
    SortsStrictly(found);
    MenuIs(m);
    levels := Liquidity.SortPrices(found);
    AscendingUnique(levels, Menu(m));
  }

  /** Some engine measured a price within the tolerance. */
  ghost predicate NearMeasured(m: Measured, price: real, tolerance: real) {
    exists x :: HasPrice(m, x) && Abs(price - x) <= tolerance
  }

  lemma NearMenu(m: Measured, price: real, tolerance: real)
    ensures Near(price, Menu(m), tolerance) <==> NearMeasured(m, price, tolerance)
    ensures Menu(m) != [] <==> exists x :: HasPrice(m, x)
  {
    hide HasPrice, Menu, Abs;
    MenuIs(m);
    var menu := Menu(m);
    if Near(price, menu, tolerance) {
      var i :| 0 <= i < |menu| && Abs(price - menu[i]) <= tolerance;
      assert menu[i] in menu;
    }
    if NearMeasured(m, price, tolerance) {
      var x :| HasPrice(m, x) && Abs(price - x) <= tolerance;
      var i :| 0 <= i < |menu| && menu[i] == x;
    }
    if menu != [] { assert menu[0] in menu; }
  }

  // ---------------------------------------------------------------- one reply

  function Tolerance(atr: real, reference: real): real {
    if atr > 0.0 then atr * LEVEL_TOLERANCE_ATR else Abs(reference) * LEVEL_TOLERANCE_RELATIVE
  }

  predicate Near(price: real, levels: seq<real>, tolerance: real) {
    exists i :: 0 <= i < |levels| && Abs(price - levels[i]) <= tolerance
  }

  function Far(prices: seq<real>, levels: seq<real>, tolerance: real): seq<real> {
    if prices == [] then []
    else
      var before, p := Far(prices[..|prices| - 1], levels, tolerance), prices[|prices| - 1];
      if Near(p, levels, tolerance) then before else before + [p]
  }

  /** No menu means the check cannot run, and rejects nothing. */
  function UngroundedPrices(prices: seq<real>, levels: seq<real>, atr: real, reference: real): seq<real> {
    if levels == [] then [] else Far(prices, levels, Tolerance(atr, reference))
  }

  /** Exactly the prices with no measured level near them are rejected. */
  lemma {:induction false} FarExactly(prices: seq<real>, levels: seq<real>, tolerance: real)
    ensures forall p :: p in Far(prices, levels, tolerance) <==> p in prices && !Near(p, levels, tolerance)
    ensures Far(prices, levels, tolerance) == []
      <==> forall i :: 0 <= i < |prices| ==> Near(prices[i], levels, tolerance)
  {
    hide Near;
    if prices != [] {
      var init, last := prices[..|prices| - 1], prices[|prices| - 1];
      assert prices == init + [last];
      FarExactly(init, levels, tolerance);
    }
  }

  /** Entry, stop and targets. */
  function Proposed(l: Levels): seq<real> {
    [l.entry, l.stop] + l.targets
  }

  /** The caller's frame wins; a missing plan type is an immediate one. */
  function ToDecision(p: Payload, timeframe: string): Decision {
    var planType := if p.planType.Some? then p.planType.value else Immediate;
    Decision(p.direction, p.confidence, Some(planType),
             Some(if planType.Conditional? then AwaitingActivation else ValidNow), p.levels,
             if timeframe != "" then timeframe else p.timeframe, false, None, p.condition, p.validity)
  }

  datatype Verdict = Accept(decision: Decision) | Reject(rejection: Rejection) | Fail(code: string)

  function Judge(reply: Reply, timeframe: string, levels: seq<real>, atr: real): (v: Verdict)
    ensures v.Reject? ==> reply.Said?
  {
    if reply.Raised? then Fail(reply.code)
    else if reply.payload.None? then Reject(NotJson)
    else if !reply.payload.value.typed then Reject(IllTyped)
    else
      var decision := ToDecision(reply.payload.value, timeframe);
      var problem := Check(decision);
      if problem.Some? then Reject(Invalid(problem.value))
      else if decision.levels.None? then Reject(Invalid(NoLevels))
      else
        var l := decision.levels.value;
        var far := UngroundedPrices(Proposed(l), levels, atr, l.entry);
        if far != [] then Reject(Ungrounded(far)) else Accept(decision)
  }

  /** Every proposed price is within tolerance of a measured one, when any was measured. */
  predicate Grounded(l: Levels, levels: seq<real>, atr: real) {
    levels != [] ==>
      && Near(l.entry, levels, Tolerance(atr, l.entry)) && Near(l.stop, levels, Tolerance(atr, l.entry))
      && forall i :: 0 <= i < |l.targets| ==> Near(l.targets[i], levels, Tolerance(atr, l.entry))
  }

  lemma GroundedExactly(l: Levels, levels: seq<real>, atr: real)
    ensures UngroundedPrices(Proposed(l), levels, atr, l.entry) == [] <==> Grounded(l, levels, atr)
  {
    hide Near, Tolerance;
    var prices := Proposed(l);
    FarExactly(prices, levels, Tolerance(atr, l.entry));
    assert forall i :: 0 <= i < |l.targets| ==> prices[i + 2] == l.targets[i];
    assert prices[0] == l.entry && prices[1] == l.stop;
  }

  /** An accepted reply is a BUY or a SELL that the contract accepts, grounded in what was measured; and a
    reply that is all that, and readable, is accepted. */
  lemma JudgedExactly(reply: Reply, timeframe: string, levels: seq<real>, atr: real)
    ensures Judge(reply, timeframe, levels, atr).Accept?
      <==> && reply.Said? && reply.payload.Some? && reply.payload.value.typed
           && var d := ToDecision(reply.payload.value, timeframe);
              Check(d).None? && (d.direction.Buy? || d.direction.Sell?) && d.levels.Some?
              && Grounded(d.levels.value, levels, atr)
    ensures Judge(reply, timeframe, levels, atr).Accept? ==>
              Judge(reply, timeframe, levels, atr).decision == ToDecision(reply.payload.value, timeframe)
  {
    hide CheckFields, Grounded, UngroundedPrices;
    if reply.Said? && reply.payload.Some? {
      var d := ToDecision(reply.payload.value, timeframe);
      if d.levels.Some? { GroundedExactly(d.levels.value, levels, atr); }
    }
  }

  /** A payload that is a plan: a BUY or a SELL with a confidence, levels that entry splits, a lifetime in range if it has
    one, and the condition of a conditional plan. */
  ghost predicate Whole(p: Payload) {
    && p.typed && (p.direction == Buy || p.direction == Sell)
    && p.confidence.Some? && 0.0 <= p.confidence.value <= 1.0
    && p.levels.Some? && Between(p.levels.value)
    && (p.validity.Some? ==> 1 <= p.validity.value <= 96)
    && (p.planType == Some(Conditional) ==> Stated(p.condition))
  }

  /** What an accepted reply is, and what it becomes: its own direction, confidence, levels, condition and lifetime; its
    own plan type, or an immediate plan when it names none; waiting exactly when it is conditional; under the caller's
    frame, or its own when the caller names none; and neither degraded nor with a reason. */
  lemma AcceptedCarries(reply: Reply, timeframe: string, levels: seq<real>, atr: real)
    ensures var v := Judge(reply, timeframe, levels, atr);
            v.Accept? <==> reply.Said? && reply.payload.Some? && Whole(reply.payload.value)
                           && Grounded(reply.payload.value.levels.value, levels, atr)
    ensures Judge(reply, timeframe, levels, atr).Accept? ==>
              var p, d := reply.payload.value, Judge(reply, timeframe, levels, atr).decision;
              && d.direction == p.direction && d.confidence == p.confidence && d.levels == p.levels
              && d.condition == p.condition && d.validity == p.validity
              && (p.planType.Some? ==> d.planType == p.planType) && (p.planType.None? ==> d.planType == Some(Immediate))
              && (p.planType == Some(Conditional) ==> d.execution == Some(AwaitingActivation))
              && (p.planType != Some(Conditional) ==> d.execution == Some(ValidNow))
              && (timeframe != "" ==> d.timeframe == timeframe) && (timeframe == "" ==> d.timeframe == p.timeframe)
              && !d.degraded && d.reason.None?
  {
    hide Grounded, UngroundedPrices, Check, Between, Stated;
    JudgedExactly(reply, timeframe, levels, atr);
    if reply.Said? && reply.payload.Some? && reply.payload.value.typed {
      AcceptedExactly(ToDecision(reply.payload.value, timeframe));
    }
  }

  /** And what a reply that is not accepted is told: that the provider failed, that there was no object or one of the wrong
    types, what the contract says of it, or exactly which prices are far from every measured level. */
  lemma RejectedExactly(reply: Reply, timeframe: string, levels: seq<real>, atr: real)
    ensures var v := Judge(reply, timeframe, levels, atr);
            && (v.Fail? <==> reply.Raised?) && (v.Fail? ==> v.code == reply.code)
            && (v == Reject(NotJson) <==> reply.Said? && reply.payload.None?)
            && (v == Reject(IllTyped) <==> reply.Said? && reply.payload.Some? && !reply.payload.value.typed)
            && (v.Reject? && v.rejection.Invalid? <==>
                  reply.Said? && reply.payload.Some? && reply.payload.value.typed && !Whole(reply.payload.value))
            && (v.Reject? && v.rejection.Ungrounded? ==>
                  && reply.Said? && reply.payload.Some? && Whole(reply.payload.value)
                  && var l := reply.payload.value.levels.value;
                     forall x :: x in v.rejection.prices
                       <==> (x == l.entry || x == l.stop || x in l.targets) && !Near(x, levels, Tolerance(atr, l.entry)))
  {
    hide Grounded, Between, Stated, Near, Check;
    JudgedExactly(reply, timeframe, levels, atr);
    if reply.Said? && reply.payload.Some? && reply.payload.value.typed {
      var p := reply.payload.value;
      AcceptedExactly(ToDecision(p, timeframe));
      if Whole(p) {
        var l := p.levels.value;
        FarExactly(Proposed(l), levels, Tolerance(atr, l.entry));
        ProposedAre(l);
      }
    }
  }

  lemma ProposedAre(l: Levels)
    ensures forall x :: x in Proposed(l) <==> x == l.entry || x == l.stop || x in l.targets
  {
    forall x
      ensures x in Proposed(l) <==> x == l.entry || x == l.stop || x in l.targets
    {
      var head: seq<real> := [l.entry, l.stop];
      assert x in head + l.targets <==> x in head || x in l.targets;
      assert head[0] == l.entry && head[1] == l.stop;
    }
  }

  /** Near is within 0.35 average ranges, or within 0.15 percent of the entry where no range was measured. */
  lemma ToleranceIs(atr: real, reference: real)
    ensures atr > 0.0 ==> 20.0 * Tolerance(atr, reference) == 7.0 * atr
    ensures atr <= 0.0 ==> 2000.0 * Tolerance(atr, reference) == if reference >= 0.0 then 3.0 * reference else -3.0 * reference
  {
  }

  // ---------------------------------------------------------------- the loop

  /** What a run depends on. The menu is `levels`. */
  datatype Session = Session(complete: (int, seq<Message>) -> Reply, timeframe: string, levels: seq<real>, atr: real,
                             maxRepairs: nat)

  /** How the session ends, from attempt `k` on. */
  function Ask(s: Session, k: int, conversation: seq<Message>, repairs: seq<Rejection>): Outcome
    decreases s.maxRepairs + 2 - k
  {
    if k > s.maxRepairs + 1 then
      Exhausted(if repairs != [] && repairs[|repairs| - 1].Ungrounded? then LevelsUngrounded else RepairExhausted,
                s.maxRepairs + 1, repairs)
    else
      var reply := s.complete(k, conversation);
      var verdict := Judge(reply, s.timeframe, s.levels, s.atr);
      match verdict
      case Fail(code) => ProviderFailed(code, k, repairs)
      case Accept(decision) => Decided(decision, k, repairs)
      case Reject(rejection) =>
        Ask(s, k + 1, conversation + [Assistant(reply.content), Repair(rejection)], repairs + [rejection])
  }

  function Synthesized(s: Session, prompt: Option<seq<Message>>): Outcome {
    if prompt.None? then NoPrompt else Ask(s, 1, prompt.value, [])
  }

  method SynthesizeDecision(s: Session, prompt: Option<seq<Message>>) returns (outcome: Outcome)
    ensures outcome == Synthesized(s, prompt)
  {
    hide Judge;
    if prompt.None? {
      return NoPrompt;
    }
    var conversation, repairs: seq<Rejection> := prompt.value, [];
    var attempt := 1;
    while attempt <= s.maxRepairs + 1
      invariant Ask(s, attempt, conversation, repairs) == Ask(s, 1, prompt.value, [])
      decreases s.maxRepairs + 2 - attempt
    {
      var response := s.complete(attempt, conversation);
      var verdict := Judge(response, s.timeframe, s.levels, s.atr);
      match verdict {
        case Fail(code) => return ProviderFailed(code, attempt, repairs);
        case Accept(decision) => return Decided(decision, attempt, repairs);
        case Reject(rejection) =>
          repairs := repairs + [rejection];
          conversation := conversation + [Assistant(response.content), Repair(rejection)];
      }
      attempt := attempt + 1;
    }
    outcome := Exhausted(if repairs != [] && repairs[|repairs| - 1].Ungrounded? then LevelsUngrounded else RepairExhausted,
                         s.maxRepairs + 1, repairs);
  }

  /** The conversation the `k`th attempt is made with, each reply followed by what was wrong with it. */
  function Conversation(s: Session, prompt: seq<Message>, k: nat): seq<Message> {
    if k == 0 then prompt
    else
      var before := Conversation(s, prompt, k - 1);
      var reply := s.complete(k, before);
      var verdict := Judge(reply, s.timeframe, s.levels, s.atr);
      if verdict.Reject? then before + [Assistant(reply.content), Repair(verdict.rejection)] else before
  }

  /** What is made of attempt `k`, counted from 1. */
  function VerdictAt(s: Session, prompt: seq<Message>, k: nat): Verdict
    requires k > 0
  {
    Judge(s.complete(k, Conversation(s, prompt, k - 1)), s.timeframe, s.levels, s.atr)
  }

  /** The run that makes `n` attempts, all rejected but perhaps the last. */
  ghost predicate Rejected(s: Session, prompt: seq<Message>, n: nat, repairs: seq<Rejection>) {
    |repairs| == n && forall k :: 0 < k <= n ==> VerdictAt(s, prompt, k) == Reject(repairs[k - 1])
  }

  lemma {:induction false} AskFrom(s: Session, prompt: seq<Message>, k: nat, repairs: seq<Rejection>)
    requires k > 0 && Rejected(s, prompt, k - 1, repairs) && k <= s.maxRepairs + 2
    ensures var o := Ask(s, k, Conversation(s, prompt, k - 1), repairs);
            Explained(s, prompt, o)
    decreases s.maxRepairs + 2 - k
  {
    hide Judge;
    if k <= s.maxRepairs + 1 {
      var verdict := VerdictAt(s, prompt, k);
      if verdict.Reject? {
        AskFrom(s, prompt, k + 1, repairs + [verdict.rejection]);
      }
    }
  }

  /** An outcome, explained by the attempts: one repair for every rejection, in order, and the last attempt
    is the one that ended it. */
  ghost predicate Explained(s: Session, prompt: seq<Message>, o: Outcome) {
    match o
    case NoPrompt => false
    case Decided(decision, n, repairs) =>
      1 <= n <= s.maxRepairs + 1 && Rejected(s, prompt, n - 1, repairs) && VerdictAt(s, prompt, n) == Accept(decision)
    case ProviderFailed(code, n, repairs) =>
      1 <= n <= s.maxRepairs + 1 && Rejected(s, prompt, n - 1, repairs) && VerdictAt(s, prompt, n) == Fail(code)
    case Exhausted(kind, n, repairs) =>
      n == s.maxRepairs + 1 && Rejected(s, prompt, n, repairs)
      && (kind == LevelsUngrounded <==> n > 0 && repairs[n - 1].Ungrounded?)
  }

  /** Every session with a prompt ends explained: at most one attempt more than the repairs allowed, one
    recorded repair for each rejection, and a decision only from the attempt that was accepted. */
  lemma SessionsAreExplained(s: Session, prompt: seq<Message>)
    ensures Explained(s, prompt, Synthesized(s, Some(prompt)))
  {
    hide Explained, Judge;
    AskFrom(s, prompt, 1, []);
  }

  /** Attempt `n` is the first that is not rejected, and it is accepted. */
  ghost predicate Succeeds(s: Session, prompt: seq<Message>, n: nat) {
    0 < n <= s.maxRepairs + 1 && VerdictAt(s, prompt, n).Accept?
    && forall k :: 0 < k < n ==> VerdictAt(s, prompt, k).Reject?
  }

  lemma OnlyOneEnd(s: Session, prompt: seq<Message>, o: Outcome, n: nat)
    requires Explained(s, prompt, o)
    ensures Succeeds(s, prompt, n) ==> o.Decided? && o.attempts == n
  {
    hide VerdictAt;
    if !o.NoPrompt? {
      assert 0 < n <= |o.repairs| ==> VerdictAt(s, prompt, n) == Reject(o.repairs[n - 1]);
    }
  }

  /** A decision is reached exactly when some allowed attempt is accepted and every one before it is
    rejected. */
  lemma DecidesExactly(s: Session, prompt: seq<Message>)
    ensures Synthesized(s, Some(prompt)).Decided? <==> exists n: nat :: Succeeds(s, prompt, n)
  {
    hide Synthesized, VerdictAt;
    SessionsAreExplained(s, prompt);
    var o := Synthesized(s, Some(prompt));
    forall n: nat
      ensures Succeeds(s, prompt, n) ==> o.Decided?
    {
      OnlyOneEnd(s, prompt, o, n);
    }
    if o.Decided? {
      assert Succeeds(s, prompt, o.attempts);
    }
  }

  /** At `at` stand the reply to all that is before it, and what was wrong with it. */
  predicate Heard(s: Session, c: seq<Message>, at: nat, k: nat, rejection: Rejection) {
    at + 1 < |c|
    && var reply := s.complete(k, c[..at]);
       reply.Said? && c[at] == Assistant(reply.content) && c[at + 1] == Repair(rejection)
  }

  /** The prompt is never lost: each rejection adds the reply and what was wrong with it, in that order. */
  lemma {:induction false} ConversationGrows(s: Session, prompt: seq<Message>, n: nat, repairs: seq<Rejection>)
    requires Rejected(s, prompt, n, repairs)
    ensures var c := Conversation(s, prompt, n);
            && prompt <= c && |c| == |prompt| + 2 * n
            && forall k :: 0 < k <= n ==> Heard(s, c, |prompt| + 2 * k - 2, k, repairs[k - 1])
  {
    hide Judge;
    if n > 0 {
      assert Rejected(s, prompt, n - 1, repairs[..n - 1]);
      ConversationGrows(s, prompt, n - 1, repairs[..n - 1]);
      assert VerdictAt(s, prompt, n) == Reject(repairs[n - 1]);
      OneMoreHeard(s, prompt, n, repairs, Conversation(s, prompt, n - 1), Conversation(s, prompt, n));
    }
  }

  lemma OneMoreHeard(s: Session, prompt: seq<Message>, n: nat, repairs: seq<Rejection>, before: seq<Message>, after: seq<Message>)
    requires n > 0 && |repairs| == n && |before| == |prompt| + 2 * (n - 1) && s.complete(n, before).Said?
    requires after == before + [Assistant(s.complete(n, before).content), Repair(repairs[n - 1])]
    requires forall k :: 0 < k <= n - 1 ==> Heard(s, before, |prompt| + 2 * k - 2, k, repairs[..n - 1][k - 1])
    ensures forall k :: 0 < k <= n ==> Heard(s, after, |prompt| + 2 * k - 2, k, repairs[k - 1])
  {
    forall k | 0 < k <= n
      ensures Heard(s, after, |prompt| + 2 * k - 2, k, repairs[k - 1])
    {
      var at := |prompt| + 2 * k - 2;
      if k < n {
        assert Heard(s, before, at, k, repairs[..n - 1][k - 1]);
        assert after[..at] == before[..at];
      } else {
        assert after[..at] == before;
      }
    }
  }
}
