/** The thesis monitor: what price does to a thesis and to the recommendation behind it.

  A broken thesis changes three rows in order: the thesis, the outcome the learning loop
  keeps for the recommendation, and the recommendation itself. Only the last is guarded.
 */
module ThesisMonitor {
  import opened Lifecycle
  import opened Options

  datatype Direction = Buy | Sell | Wait | NoTrade

  /** A thesis is open or over; it has none of a recommendation's statuses before activation. */
  type ThesisStatus = s: Status | Taken(s) || Terminal(s) witness Active

  /** One key of a JSON object: missing, null, or a number. */
  datatype Field = Absent | Null | Num(value: real)

  datatype Levels = Levels(swingLow: Field, swingHigh: Field, target: Field)

  datatype Reason = BelowSwingLow | AboveSwingHigh | AtTarget

  datatype Proposal = NoChange | Move(next: ThesisStatus, reason: Reason)

  // ---------------------------------------------------------------- the levels that count

  /** The recommendation's object over the thesis's: a key it has wins, even with null. */
  function Override(under: Field, over: Field): Field {
    if over.Absent? then under else over
  }

  function Merge(thesis: Levels, plan: Levels): Levels {
    Levels(Override(thesis.swingLow, plan.swingLow), Override(thesis.swingHigh, plan.swingHigh),
           Override(thesis.target, plan.target))
  }

  function Number(f: Field): Option<real> {
    if f.Num? then Some(f.value) else None
  }

  /** The stated level, or the structure's: a stated zero does not count as stated. */
  function Pick(stated: Field, structure: Field): Option<real> {
    if stated.Num? && stated.value != 0.0 then Some(stated.value) else Number(structure)
  }

  /** A level is the recommendation's when it states a number other than zero. When it says nothing, it is the
    thesis's by the same rule; and a zero or a null hides the thesis's level and leaves the structure's. */
  lemma StatedLevelCounts(thesis: Field, plan: Field, structure: Field)
    ensures var level := Pick(Override(thesis, plan), structure);
            && (plan.Num? && plan.value != 0.0 ==> level == Some(plan.value))
            && (plan.Absent? && thesis.Num? && thesis.value != 0.0 ==> level == Some(thesis.value))
            && (plan.Null? || plan == Num(0.0) ==> level == Number(structure))
            && (plan.Absent? && (!thesis.Num? || thesis.value == 0.0) ==> level == Number(structure))
  {
  }

  // ---------------------------------------------------------------- the proposal

  function Evaluate(status: ThesisStatus, direction: Direction, price: real, structure: Levels, stated: Levels): Proposal {
    if Terminal(status) then NoChange
    else
      var low := Pick(stated.swingLow, structure.swingLow);
      var high := Pick(stated.swingHigh, structure.swingHigh);
      var target := Number(stated.target);
      if direction.Buy? && low.Some? && price < low.value then Move(Invalidated, BelowSwingLow)
      else if direction.Sell? && high.Some? && price > high.value then Move(Invalidated, AboveSwingHigh)
      else if target.None? then NoChange
      else if direction.Buy? && price >= target.value then Move(TargetReached, AtTarget)
      else if direction.Sell? && price <= target.value then Move(TargetReached, AtTarget)
      else NoChange
  }

  /** Which way profit lies; a plan with no side is never judged. */
  function Side(d: Direction): real {
    match d
    case Buy => 1.0
    case Sell => -1.0
    case Wait => 0.0
    case NoTrade => 0.0
  }

  /** The swing behind the plan is broken: price is strictly on the losing side of it. */
  predicate Broken(d: Direction, price: real, structure: Levels, stated: Levels) {
    var swing := if d.Buy? then Pick(stated.swingLow, structure.swingLow) else Pick(stated.swingHigh, structure.swingHigh);
    swing.Some? && Side(d) * (price - swing.value) < 0.0
  }

  /** Price is at the target or past it. */
  predicate Reached(d: Direction, price: real, stated: Levels) {
    Side(d) != 0.0 && stated.target.Num? && Side(d) * (price - stated.target.value) >= 0.0
  }

  /** An open thesis is invalidated exactly when broken, and won exactly when reached and not broken. */
  lemma BreakingWinsOverTheTarget(status: ThesisStatus, d: Direction, price: real, structure: Levels, stated: Levels)
    ensures var p := Evaluate(status, d, price, structure, stated);
            && (p.Move? && p.next == Invalidated <==> !Terminal(status) && Broken(d, price, structure, stated))
            && (p.Move? && p.next == TargetReached
                <==> !Terminal(status) && Reached(d, price, stated) && !Broken(d, price, structure, stated))
            && (p.Move? ==> p.next == Invalidated || p.next == TargetReached)
  {
  }

  function Negate(f: Field): Field {
    if f.Num? then Num(-f.value) else f
  }

  /** Prices upside down: lows become highs. */
  function MirrorLevels(l: Levels): Levels {
    Levels(Negate(l.swingHigh), Negate(l.swingLow), Negate(l.target))
  }

  function MirrorDirection(d: Direction): Direction {
    match d
    case Buy => Sell
    case Sell => Buy
    case Wait => Wait
    case NoTrade => NoTrade
  }

  function MirrorProposal(p: Proposal): Proposal {
    match p
    case NoChange => NoChange
    case Move(next, BelowSwingLow) => Move(next, AboveSwingHigh)
    case Move(next, AboveSwingHigh) => Move(next, BelowSwingLow)
    case Move(next, AtTarget) => p
  }

  /** Neither side is favoured: the mirrored market closes the mirrored plan for the mirrored reason. */
  lemma MonitorMirrors(status: ThesisStatus, d: Direction, price: real, structure: Levels, stated: Levels)
    ensures Evaluate(status, MirrorDirection(d), -price, MirrorLevels(structure), MirrorLevels(stated))
         == MirrorProposal(Evaluate(status, d, price, structure, stated))
    ensures forall thesis, plan ::
              MirrorLevels(Merge(thesis, plan)) == Merge(MirrorLevels(thesis), MirrorLevels(plan))
  {
  }

  // ---------------------------------------------------------------- the rows it changes

  datatype Event = Event(reason: Reason, next: Status)

  /** What is stored: the two statuses, the outcome kept for the plan, and the thesis's events. */
  datatype Rows = Rows(thesis: Status, plan: Status, learned: Option<Status>, events: seq<Event>)

  datatype Report = Unchanged | Changed(next: Status) | Raised

  /** The plan's outcome is stored under a key of the plan alone: the first one stays. */
  function Once(learned: Option<Status>, outcome: Status): Option<Status> {
    if learned.Some? then learned else Some(outcome)
  }

  /** The whole call on stored values. `visible` says that the tenant's query finds the plan and
    its thesis, `refreshed` is the status the row holds once the lock is granted. */
  function Monitored(rows: Rows, proposal: Proposal, visible: bool, refreshed: Status): (Rows, Report) {
    match proposal
    case NoChange => (rows, Unchanged)
    case Move(next, reason) =>
      var noted := rows.(events := rows.events + [Event(reason, next)]);
      if !visible then (noted, Changed(next))
      else
        var voted := noted.(thesis := next, learned := Once(rows.learned, next), plan := refreshed);
        if Terminal(refreshed) then (voted, Changed(next))
        else if !MayMove(refreshed, next) then (voted, Raised)
        else (voted.(plan := next), Changed(next))
  }

  class Recommendation {
    const direction: Direction
    const stated: Levels
    var status: Status
    /** The outcome row kept for this plan. */
    var learned: Option<Status>

    constructor (direction: Direction, stated: Levels, status: Status)
      ensures this.direction == direction && this.stated == stated && this.status == status
      ensures learned == if Terminal(status) then Some(status) else None
    {
      this.direction, this.stated, this.status := direction, stated, status;
      learned := if Terminal(status) then Some(status) else None;
    }

    /** The learning hook: ignored unless terminal, and ignored when the plan is already counted. */
    method Learn(outcome: Status)
      modifies this`learned
      ensures learned == if Terminal(outcome) then Once(old(learned), outcome) else old(learned)
    {
      if Terminal(outcome) && learned.None? {
        learned := Some(outcome);
      }
    }

    /** Moves the plan under its lock; false when the transition is illegal, which the caller sees raised. */
    method Transition(visible: bool, refreshed: Status, next: Status) returns (ok: bool)
      modifies this
      ensures ok == (!visible || Terminal(refreshed) || MayMove(refreshed, next))
      ensures visible && !Terminal(refreshed) ==> (ok <==> refreshed == next || refreshed in Sources(next))
      ensures status == if !visible then old(status)
                        else if Terminal(refreshed) || !MayMove(refreshed, next) then refreshed
                        else next
      ensures learned == if visible && !Terminal(refreshed) && MayMove(refreshed, next) && Terminal(next)
                         then Once(old(learned), next) else old(learned)
    {
      SourcesExactly(refreshed, next);
      hide Transitions, Sources;
      if !visible {
        return true;
      }
      status := refreshed;
      if Terminal(status) {
        return true;
      }
      if !MayMove(status, next) {
        return false;
      }
      status := next;
      Learn(next);
      return true;
    }
  }

  class Thesis {
    const plan: Recommendation
    const stated: Levels
    var status: ThesisStatus
    var events: seq<Event>

    constructor (plan: Recommendation, stated: Levels)
      ensures this.plan == plan && this.stated == stated && status == Active && events == []
    {
      this.plan, this.stated, status, events := plan, stated, Active, [];
    }

    ghost function Stored(): Rows
      reads this, plan
    {
      Rows(status, plan.status, plan.learned, events)
    }

    /** Unguarded: whatever the thesis was, it becomes `next`, and the plan is counted. */
    method Transition(visible: bool, next: ThesisStatus)
      modifies this`status, plan`learned
      ensures status == if visible then next else old(status)
      ensures plan.learned == if visible && Terminal(next) then Once(old(plan.learned), next) else old(plan.learned)
    {
      if !visible {
        return;
      }
      status := next;
      plan.Learn(next);
    }

    method Monitor(price: real, structure: Levels, visible: bool, refreshed: Status) returns (report: Report)
      modifies this, plan
      ensures var proposal := Evaluate(old(status), plan.direction, price, structure, Merge(stated, plan.stated));
              (Stored(), report) == Monitored(old(Stored()), proposal, visible, refreshed)
    {
      hide Transitions;
      BreakingWinsOverTheTarget(status, plan.direction, price, structure, Merge(stated, plan.stated));
      hide Evaluate;
      var proposal := Evaluate(status, plan.direction, price, structure, Merge(stated, plan.stated));
      if proposal.NoChange? {
        return Unchanged;
      }
      events := events + [Event(proposal.reason, proposal.next)];
      Transition(visible, proposal.next);
      var ok := plan.Transition(visible, refreshed, proposal.next);
      report := if ok then Changed(proposal.next) else Raised;
    }
  }

  // ---------------------------------------------------------------- how thesis and plan end

  /** Every committed plan has been counted exactly when it is over, with the outcome it ended in. */
  predicate Counted(plan: Status, learned: Option<Status>) {
    learned == if Terminal(plan) then Some(plan) else None
  }

  predicate Proposed(p: Proposal) {
    p.Move? ==> p.next == Invalidated || p.next == TargetReached
  }

  /** The call fails exactly when a target is hit by a plan too early, or too weak, to win. */
  lemma RaisesExactly(rows: Rows, p: Proposal, visible: bool, refreshed: Status)
    requires Proposed(p)
    ensures Monitored(rows, p, visible, refreshed).1.Raised?
      <==> visible && p.Move? && p.next == TargetReached
           && refreshed in {Detected, Analyzing, Forming, Weakening}
  {
    OutcomesNeedNoTrade(refreshed);
  }

  /** After a reported change the two end alike exactly when the plan was open or had ended that way;
    when the rows are out of the tenant's sight, nothing but the event is written. */
  lemma EndTogetherExactly(rows: Rows, p: Proposal, visible: bool, refreshed: Status)
    requires Proposed(p)
    ensures var (after, report) := Monitored(rows, p, visible, refreshed);
            report.Changed? ==>
              && after.events == rows.events + [Event(p.reason, report.next)]
              && (visible ==> after.thesis == report.next)
              && (visible ==> (after.plan == report.next <==> !Terminal(refreshed) || refreshed == report.next))
              && (visible && Terminal(refreshed) ==> after.plan == refreshed)
              && (!visible ==> after == rows.(events := after.events))
  {
    hide Transitions;
  }

  /** The outcome that was learned is the one the plan ended in, though the thesis is counted first
    and without looking at the plan. */
  lemma CountedOnce(rows: Rows, p: Proposal, visible: bool, refreshed: Status)
    requires Proposed(p) && Counted(refreshed, rows.learned) && (!visible ==> rows.plan == refreshed)
    ensures var (after, report) := Monitored(rows, p, visible, refreshed);
            && (report.Changed? ==> Counted(after.plan, after.learned))
            && (rows.learned.Some? ==> after.learned == rows.learned)
  {
    hide Transitions;
  }

  /** The same with any number of other sessions before it: in every run in which no tracker decides on a stale
    status, the monitor that comes next finds the outcome and the plan in agreement, and leaves them so. */
  lemma CountedInEveryRun(row: Status, calls: seq<Call>, steps: seq<Step>, rows: Rows, p: Proposal)
    requires Startable(row, calls) && NeverStale(Start(row, calls), steps) && Proposed(p)
    requires rows.learned == Run(Start(row, calls), steps).recorded
    ensures var s := Run(Start(row, calls), steps);
            var (after, report) := Monitored(rows, p, true, s.row);
            && Counted(s.row, rows.learned)
            && (report.Changed? && p.Move? ==> Counted(after.plan, after.learned))
  {
    hide Transitions, Run, Do, Path, CallOk, Startable, NeverStale, Monitored;
    StartsSafe(row, calls);
    RunsAreSafe(Start(row, calls), steps);
    var s := Run(Start(row, calls), steps);
    assert Counted(s.row, rows.learned);
    CountedOnce(rows, p, true, s.row);
  }

  /** The handler is the steps of the monitor's call with no other session in between: what is committed is what
    the handler reports, and a call that raises commits nothing. */
  lemma AloneIsMonitored(s: State, i: nat, rows: Rows, p: Proposal)
    requires p.Move? && Proposed(p) && i < |s.calls| && s.planLock.None? && s.thesisLock.None? && s.keyLock.None?
    requires s.calls[i] == Fresh(Monitor, p.next).(phase := Loaded, seen := s.calls[i].seen)
    requires rows.thesis == s.thesis && rows.learned == s.recorded
    ensures var (after, report) := Monitored(rows, p, true, s.row);
            var t := Alone(s, i);
            if report.Raised? then (t.thesis, t.row, t.recorded) == (s.thesis, s.row, s.recorded)
            else (t.thesis, t.row, t.recorded) == (after.thesis, after.plan, after.learned)
  {
    hide Transitions, MayMove, Alone;
    AloneIs(s, i);
  }

  /** A thesis the monitor has closed is left alone, whatever price does next. One it could not see
    is reported as changed again on every pass that prices it the same way. */
  lemma ClosedIsLeftAlone(thesis: ThesisStatus, rows: Rows, d: Direction, price: real, structure: Levels,
                          stated: Levels, visible: bool, refreshed: Status, later: real, laterStructure: Levels)
    requires rows.thesis == thesis
    ensures var p := Evaluate(thesis, d, price, structure, stated);
            var (after, report) := Monitored(rows, p, visible, refreshed);
            report.Changed? ==>
              && (Taken(after.thesis) || Terminal(after.thesis))
              && (visible ==> Evaluate(after.thesis, d, later, laterStructure, stated) == NoChange)
              && (!visible ==> Evaluate(after.thesis, d, price, structure, stated) == p)
  {
    hide Transitions;
    BreakingWinsOverTheTarget(thesis, d, price, structure, stated);
  }

  // ---------------------------------------------------------------- one pass over every thesis

  /** One thesis of the pass: whose plan it is, whether the tenant's query finds them, and what price proposes. */
  datatype Watched = Watched(plan: nat, visible: bool, proposal: Proposal)

  /** What is stored, thesis by thesis and plan by plan; several theses can have one plan. */
  datatype Store = Store(theses: seq<Status>, events: seq<seq<Event>>, plans: seq<Status>, learned: seq<Option<Status>>)

  predicate Fits(store: Store, pass: seq<Watched>) {
    && |store.theses| == |store.events| == |pass| && |store.plans| == |store.learned|
    && forall k :: 0 <= k < |pass| ==> pass[k].plan < |store.plans| && Proposed(pass[k].proposal)
  }

  function RowsOf(store: Store, pass: seq<Watched>, k: nat): Rows
    requires Fits(store, pass) && k < |pass|
  {
    Rows(store.theses[k], store.plans[pass[k].plan], store.learned[pass[k].plan], store.events[k])
  }

  function Put(store: Store, pass: seq<Watched>, k: nat, rows: Rows): (r: Store)
    requires Fits(store, pass) && k < |pass|
    ensures Fits(r, pass)
  {
    Store(store.theses[k := rows.thesis], store.events[k := rows.events],
          store.plans[pass[k].plan := rows.plan], store.learned[pass[k].plan := rows.learned])
  }

  /** The first `n` theses, one after the other in one session; nothing once one has raised. */
  function PassOver(store: Store, pass: seq<Watched>, n: nat): (r: Option<Store>)
    requires Fits(store, pass) && n <= |pass|
    ensures r.Some? ==> Fits(r.value, pass) && |r.value.plans| == |store.plans|
  {
    if n == 0 then Some(store)
    else
      var before := PassOver(store, pass, n - 1);
      if before.None? then None
      else
        var w := pass[n - 1];
        var (rows, report) := Monitored(RowsOf(before.value, pass, n - 1), w.proposal, w.visible, before.value.plans[w.plan]);
        if report.Raised? then None else Some(Put(before.value, pass, n - 1, rows))
  }

  /** The job: every thesis in one session, and one commit; an exception leaves everything as it was. */
  method RunCycle(store: Store, pass: seq<Watched>) returns (stored: Store, committed: bool)
    requires Fits(store, pass)
    ensures committed == PassOver(store, pass, |pass|).Some?
    ensures stored == if committed then PassOver(store, pass, |pass|).value else store
  {
    hide Monitored, Put, Fits;
    var session := store;
    for k := 0 to |pass|
      invariant Fits(session, pass) && PassOver(store, pass, k) == Some(session)
    {
      FitsAt(session, pass, k);
      var (rows, report) := Monitored(RowsOf(session, pass, k), pass[k].proposal, pass[k].visible, session.plans[pass[k].plan]);
      if report.Raised? {
        NoneFromHere(store, pass, k + 1, |pass|);
        return store, false;
      }
      session := Put(session, pass, k, rows);
    }
    return session, true;
  }

  lemma FitsAt(store: Store, pass: seq<Watched>, k: nat)
    requires Fits(store, pass) && k < |pass|
    ensures pass[k].plan < |store.plans|
  {
  }

  lemma {:induction false} NoneFromHere(store: Store, pass: seq<Watched>, n: nat, m: nat)
    requires Fits(store, pass) && n <= m <= |pass| && PassOver(store, pass, n).None?
    ensures PassOver(store, pass, m).None?
  {
    if n < m { NoneFromHere(store, pass, n, m - 1); }
  }

  /** A target that is hit by a plan too early, or too weak, to win. */
  predicate TooWeak(store: Store, w: Watched)
    requires w.plan < |store.plans|
  {
    w.visible && w.proposal.Move? && w.proposal.next == TargetReached
    && store.plans[w.plan] in {Detected, Analyzing, Forming, Weakening}
  }

  /** An earlier thesis of the pass touches this plan. */
  predicate Touched(pass: seq<Watched>, p: nat, n: nat)
    requires n <= |pass|
  {
    exists j :: 0 <= j < n && pass[j].plan == p && pass[j].visible && pass[j].proposal.Move?
  }

  predicate Spared(pass: seq<Watched>, p: nat, n: nat)
    requires n <= |pass|
  {
    exists j :: 0 <= j < n && pass[j].plan == p && pass[j].visible && pass[j].proposal.Move? && pass[j].proposal.next == Invalidated
  }

  /** As long as nothing has raised, a plan is as it was at first until a thesis touches it, and is over from then on. */
  lemma {:induction false} PassEnds(store: Store, pass: seq<Watched>, n: nat, p: nat)
    requires Fits(store, pass) && n <= |pass| && PassOver(store, pass, n).Some? && p < |store.plans|
    ensures var now := PassOver(store, pass, n).value.plans[p];
            if Touched(pass, p, n) then Terminal(now) else now == store.plans[p]
  {
    hide Transitions, Fits;
    if n > 0 {
      PassEnds(store, pass, n - 1, p);
      FitsAt(store, pass, n - 1);
      ProposedAt(store, pass, n - 1);
    }
  }

  lemma ProposedAt(store: Store, pass: seq<Watched>, k: nat)
    requires Fits(store, pass) && k < |pass|
    ensures Proposed(pass[k].proposal)
  {
  }

  /** All are committed, or none: and none exactly when some target is hit by a plan too early or too weak to win that no
    earlier thesis of the same pass has invalidated. One such plan keeps every thesis of every workspace from closing. */
  lemma NoneExactlyWhenOneRaises(store: Store, pass: seq<Watched>)
    requires Fits(store, pass)
    ensures PassOver(store, pass, |pass|).None?
       <==> exists k :: 0 <= k < |pass| && TooWeak(store, pass[k]) && !Spared(pass, pass[k].plan, k)
  {
    hide PassOver, Fits, TooWeak, Spared;
    forall k | 0 <= k < |pass|
      ensures pass[k].plan < |store.plans|
    {
      FitsAt(store, pass, k);
    }
    if PassOver(store, pass, |pass|).None? {
      var k := FirstRaise(store, pass, |pass|);
      RaiseIsWeak(store, pass, k);
    }
    if k :| 0 <= k < |pass| && TooWeak(store, pass[k]) && !Spared(pass, pass[k].plan, k) {
      WeakRaises(store, pass, k);
      NoneFromHere(store, pass, k + 1, |pass|);
    }
  }

  lemma {:induction false} FirstRaise(store: Store, pass: seq<Watched>, n: nat) returns (k: nat)
    requires Fits(store, pass) && n <= |pass| && PassOver(store, pass, n).None?
    ensures k < n && PassOver(store, pass, k).Some? && PassOver(store, pass, k + 1).None?
  {
    hide Monitored, Put;
    if PassOver(store, pass, n - 1).None? { k := FirstRaise(store, pass, n - 1); } else { k := n - 1; }
  }

  lemma RaiseIsWeak(store: Store, pass: seq<Watched>, k: nat)
    requires Fits(store, pass) && k < |pass| && PassOver(store, pass, k).Some? && PassOver(store, pass, k + 1).None?
    ensures pass[k].plan < |store.plans| && TooWeak(store, pass[k]) && !Spared(pass, pass[k].plan, k)
  {
    hide Transitions;
    var s, w := PassOver(store, pass, k).value, pass[k];
    PassEnds(store, pass, k, w.plan);
    RaisesExactly(RowsOf(s, pass, k), w.proposal, w.visible, s.plans[w.plan]);
    hide Monitored;
  }

  lemma {:induction false} WeakRaises(store: Store, pass: seq<Watched>, k: nat)
    requires Fits(store, pass) && k < |pass| && pass[k].plan < |store.plans|
    requires TooWeak(store, pass[k]) && !Spared(pass, pass[k].plan, k)
    ensures PassOver(store, pass, k + 1).None?
    decreases k
  {
    hide Transitions, Monitored;
    if PassOver(store, pass, k).Some? {
      var s, w := PassOver(store, pass, k).value, pass[k];
      if Touched(pass, w.plan, k) {
        var j :| 0 <= j < k && pass[j].plan == w.plan && pass[j].visible && pass[j].proposal.Move?;
        assert Proposed(pass[j].proposal) && pass[j].proposal.next == TargetReached;
        assert !Spared(pass, w.plan, j);
        WeakRaises(store, pass, j);
        NoneFromHere(store, pass, j + 1, k);
      } else {
        PassEnds(store, pass, k, w.plan);
        RaisesExactly(RowsOf(s, pass, k), w.proposal, w.visible, s.plans[w.plan]);
      }
    }
  }
}
