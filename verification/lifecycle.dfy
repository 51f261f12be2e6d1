/** The lifecycle of one recommendation, and what concurrent writers do to it.

  A manual transition locks the row and reads it again before it decides. The tracker
  takes the same lock but decides on the status it loaded before. The thesis monitor
  writes the thesis and records the outcome before it asks for the lock. Every call is
  broken into the steps at which another session can run.
 */
module Lifecycle {
  import opened Options

  datatype Status =
    | Detected | Analyzing | Forming | WaitingConfirmation | Ready
    | Active | Strengthening | Weakening
    | TargetReached | Invalidated | Expired

  predicate Terminal(s: Status) {
    s.TargetReached? || s.Invalidated? || s.Expired?
  }

  /** The transition table. */
  function Transitions(s: Status): set<Status> {
    match s
    case Detected => {Analyzing, Invalidated, Expired}
    case Analyzing => {Forming, Invalidated, Expired}
    case Forming => {WaitingConfirmation, Ready, Invalidated, Expired}
    case WaitingConfirmation => {Ready, Invalidated, Expired, TargetReached}
    case Ready => {Active, TargetReached, Invalidated, Expired}
    case Active => {Strengthening, Weakening, TargetReached, Invalidated, Expired}
    case Strengthening => {Active, TargetReached, Weakening, Invalidated}
    case Weakening => {Active, Invalidated, Expired}
    case TargetReached => {}
    case Invalidated => {}
    case Expired => {}
  }

  /** The check that raises on an illegal transition; asking for the current status passes it. */
  predicate MayMove(current: Status, next: Status) {
    current == next || next in Transitions(current)
  }

  // ---------------------------------------------------------------- histories

  /** Every status follows the one before by a transition of the table. */
  ghost predicate Path(history: seq<Status>) {
    history != [] && forall i :: 0 < i < |history| ==> MayMove(history[i - 1], history[i])
  }

  /** The user has taken the plan, and it is still running. */
  predicate Taken(s: Status) {
    s.Active? || s.Strengthening? || s.Weakening?
  }

  /** Once active, a plan is active in one form or another until it ends: never ready again. */
  lemma {:induction false} NeverBackToReady(history: seq<Status>, i: nat, j: nat)
    requires Path(history) && i <= j < |history| && (Taken(history[i]) || Terminal(history[i]))
    ensures Taken(history[j]) || Terminal(history[j])
  {
    if i < j {
      NeverBackToReady(history, i, j - 1);
      assert MayMove(history[j - 1], history[j]);
    }
  }

  /** A terminal status is the last one: nothing different follows it. */
  lemma {:induction false} TerminalIsFinal(history: seq<Status>, i: nat, j: nat)
    requires Path(history) && i <= j < |history| && Terminal(history[i])
    ensures history[j] == history[i]
  {
    if i < j {
      TerminalIsFinal(history, i, j - 1);
      assert MayMove(history[j - 1], history[j]);
    }
  }

  /** Both outcomes are open to a plan nobody took, and every open plan can be invalidated. */
  lemma OutcomesNeedNoTrade(s: Status)
    ensures TargetReached in Transitions(Ready) && Invalidated in Transitions(Ready)
    ensures !Terminal(s) <==> Invalidated in Transitions(s)
    ensures Terminal(s) <==> Transitions(s) == {}
    ensures TargetReached in Transitions(s) <==> s in {WaitingConfirmation, Ready, Active, Strengthening}
  {
  }

  /** The table from the other side: where a plan can have come from. */
  function Sources(t: Status): set<Status> {
    match t
    case Detected => {}
    case Analyzing => {Detected}
    case Forming => {Analyzing}
    case WaitingConfirmation => {Forming}
    case Ready => {Forming, WaitingConfirmation}
    case Active => {Ready, Strengthening, Weakening}
    case Strengthening => {Active}
    case Weakening => {Active, Strengthening}
    case TargetReached => {WaitingConfirmation, Ready, Active, Strengthening}
    case Invalidated => {Detected, Analyzing, Forming, WaitingConfirmation, Ready, Active, Strengthening, Weakening}
    case Expired => {Detected, Analyzing, Forming, WaitingConfirmation, Ready, Active, Weakening}
  }

  /** Both sides say the same, edge by edge; so an open plan can be taken exactly when it is ready, or is taken already. */
  lemma SourcesExactly(s: Status, t: Status)
    ensures t in Transitions(s) <==> s in Sources(t)
    ensures MayMove(s, t) <==> s == t || s in Sources(t)
  {
  }

  /** How far an untaken plan has come; a taken one is past all of it, in whatever form. */
  function Stage(s: Status): nat {
    match s
    case Detected => 0
    case Analyzing => 1
    case Forming => 2
    case WaitingConfirmation => 3
    case Ready => 4
    case _ => 5
  }

  /** A plan can get from one status to the other: it is there, or it is open and the other is an end, or later, or
    another form of being taken. */
  predicate LeadsTo(s: Status, t: Status) {
    s == t || (!Terminal(s) && (Terminal(t) || Stage(s) < Stage(t) || (Taken(s) && Taken(t))))
  }

  /** Once through all that is open, and again through what is taken. */
  const TOUR := [Detected, Analyzing, Forming, WaitingConfirmation, Ready, Active, Strengthening, Weakening,
                 Active, Strengthening, Weakening]

  lemma TourIsPath(i: nat, j: nat)
    requires i <= j < |TOUR|
    ensures Path(TOUR[i..j + 1])
  {
    var slice := TOUR[i..j + 1];
    forall k | 0 < k < |slice|
      ensures MayMove(slice[k - 1], slice[k])
    {
      assert slice[k - 1] == TOUR[i + k - 1] && slice[k] == TOUR[i + k];
      TourGoesOn(i + k - 1);
    }
  }

  lemma TourGoesOn(k: nat)
    requires k + 1 < |TOUR|
    ensures TOUR[k + 1] in Transitions(TOUR[k])
  {
    if k <= 4 { TourOpens(k); }
  }

  lemma TourOpens(k: nat)
    requires k <= 4
    ensures TOUR[k + 1] in Transitions(TOUR[k])
  {
  }

  /** Some legal history goes from one status to the other. */
  ghost predicate Joined(s: Status, t: Status) {
    exists history :: Path(history) && history[0] == s && history[|history| - 1] == t
  }

  lemma TourJoins(i: nat, j: nat)
    requires i <= j < |TOUR|
    ensures Joined(TOUR[i], TOUR[j])
  {
    TourIsPath(i, j);
    var history := TOUR[i..j + 1];
    assert history[0] == TOUR[i] && history[|history| - 1] == TOUR[j];
  }

  lemma OneMove(s: Status, t: Status, u: Status)
    requires Joined(s, t) && u in Transitions(t)
    ensures Joined(s, u)
  {
    hide Transitions;
    var history :| Path(history) && history[0] == s && history[|history| - 1] == t;
    var longer := history + [u];
    assert Path(longer) && longer[0] == s && longer[|longer| - 1] == u;
  }

  function FirstOnTour(s: Status): (i: nat)
    requires !Terminal(s)
    ensures i < 8 && TOUR[i] == s && (i < 5 <==> !Taken(s)) && (i < 5 ==> i == Stage(s))
  {
    match s
    case Detected => 0
    case Analyzing => 1
    case Forming => 2
    case WaitingConfirmation => 3
    case Ready => 4
    case Active => 5
    case Strengthening => 6
    case Weakening => 7
  }

  /** Which statuses a plan can go through at all, by any number of moves: exactly the later ones, the forms of being
    taken among each other, and from every open one all three ends. Every status is reached from the first. */
  lemma LeadsToExactly(s: Status, t: Status)
    ensures Joined(s, t) <==> LeadsTo(s, t)
    ensures LeadsTo(Detected, t)
  {
    hide Transitions;
    if Joined(s, t) {
      var history :| Path(history) && history[0] == s && history[|history| - 1] == t;
      PathLeads(history, |history| - 1);
    }
    if s == t {
      assert Path([s]);
    } else if !Terminal(s) && !Terminal(t) && LeadsTo(s, t) {
      OpenJoined(s, t);
    } else if !Terminal(s) && Terminal(t) {
      EndsJoined(s, t);
    }
  }

  lemma OpenJoined(s: Status, t: Status)
    requires !Terminal(s) && !Terminal(t) && LeadsTo(s, t)
    ensures Joined(s, t)
  {
    hide Joined;
    var i, j := FirstOnTour(s), FirstOnTour(t);
    TourJoins(i, if i <= j then j else j + 3);
  }

  lemma EndsJoined(s: Status, t: Status)
    requires !Terminal(s) && Terminal(t)
    ensures Joined(s, t)
  {
    hide Joined;
    var i := FirstOnTour(s);
    TourJoins(i, i);
    TourJoins(i, 8);
    TourJoins(i, 10);
    if t == Invalidated {
      OneMove(s, s, t);
    } else if t == TargetReached {
      OneMove(s, Active, t);
    } else {
      OneMove(s, Weakening, t);
    }
  }

  lemma {:induction false} PathLeads(history: seq<Status>, k: nat)
    requires Path(history) && k < |history|
    ensures LeadsTo(history[0], history[k])
  {
    if k > 0 {
      PathLeads(history, k - 1);
      MoveLeads(history[0], history[k - 1], history[k]);
    }
  }

  lemma MoveLeads(s: Status, t: Status, u: Status)
    requires LeadsTo(s, t) && MayMove(t, u)
    ensures LeadsTo(s, u)
  {
    SourcesExactly(t, u);
    hide Transitions, MayMove;
  }

  // ---------------------------------------------------------------- concurrent calls

  datatype Writer = Manual | Tracker | Monitor

  /** How far a call has come. A monitor closes its thesis and votes on the outcome before it locks the plan. */
  datatype Phase = Idle | Loaded | Closed | Voted | Locked | Decided | Recorded | Over

  /** One call on the plan, and what its transaction does there. `seen` is the plan's status as its session loaded it; the last three are
    what it has written and not committed: the thesis, the outcome, the plan. */
  datatype Call = Call(writer: Writer, target: Status, phase: Phase, seen: Status,
                       thesis: Option<Status>, record: Option<Status>, write: Option<Status>)

  /** What is committed: the plan with its history and the hook calls made for it, its thesis, and the one outcome
    kept under the plan's key; then the locks, which are held until a transaction ends; and the calls. */
  datatype State = State(row: Status, history: seq<Status>, hooks: seq<Status>, thesis: Status, recorded: Option<Status>,
                         planLock: Option<nat>, thesisLock: Option<nat>, keyLock: Option<nat>, calls: seq<Call>)

  datatype Step = Load(call: nat) | Close(call: nat) | Vote(call: nat) | Lock(call: nat) | Decide(call: nat)
                | Record(call: nat) | Commit(call: nat) | Abort(call: nat)

  function Fresh(writer: Writer, target: Status): Call {
    Call(writer, target, Idle, Detected, None, None, None)
  }

  /** What a call that re-reads the row under the lock does with it. */
  function ManualWrite(current: Status, target: Status): Option<Status> {
    if Terminal(current) then None
    else if MayMove(current, target) then Some(target)
    else None
  }

  /** What the tracker does with the status it loaded before it asked for the lock. */
  function TrackerWrite(seen: Status, target: Status): Option<Status> {
    if MayMove(seen, target) then Some(target) else None
  }

  function With(s: State, i: nat, c: Call): State
    requires i < |s.calls|
  {
    s.(calls := s.calls[i := c])
  }

  function Free(held: Option<nat>, i: nat): Option<nat> {
    if held == Some(i) then None else held
  }

  /** The transaction of call `i` is over, and its locks with it. */
  function Released(s: State, i: nat): State
    requires i < |s.calls|
  {
    With(s, i, s.calls[i].(phase := Over, thesis := None, record := None, write := None))
    .(planLock := Free(s.planLock, i), thesisLock := Free(s.thesisLock, i), keyLock := Free(s.keyLock, i))
  }

  /** The outcome's key can be inserted, or is already there, without waiting for another session. */
  predicate KeyReady(s: State, i: nat) {
    s.recorded.Some? || s.keyLock.None? || s.keyLock == Some(i)
  }

  /** Insert the outcome unless the key is there: the first one stays. */
  function Inserted(s: State, i: nat, c: Call, outcome: Status): State
    requires i < |s.calls|
  {
    if s.recorded.Some? || c.record.Some? then With(s, i, c)
    else With(s, i, c.(record := Some(outcome))).(keyLock := Some(i))
  }

  /** A monitor looks for open theses only. */
  function DoLoad(s: State, i: nat, c: Call): State
    requires i < |s.calls|
  {
    if !c.phase.Idle? then s
    else if c.writer.Monitor? && Terminal(s.thesis) then With(s, i, c.(phase := Over))
    else With(s, i, c.(phase := Loaded, seen := s.row))
  }

  function DoClose(s: State, i: nat, c: Call): State
    requires i < |s.calls|
  {
    if c.writer.Monitor? && c.phase.Loaded? && s.thesisLock.None? then
      With(s, i, c.(phase := Closed, thesis := Some(c.target))).(thesisLock := Some(i))
    else s
  }

  function DoVote(s: State, i: nat, c: Call): State
    requires i < |s.calls|
  {
    if c.phase.Closed? && KeyReady(s, i) then Inserted(s, i, c.(phase := Voted), c.target) else s
  }

  function DoLock(s: State, i: nat, c: Call): State
    requires i < |s.calls|
  {
    if s.planLock.None? && (if c.writer.Monitor? then c.phase.Voted? else c.phase.Loaded?) then
      With(s, i, c.(phase := Locked)).(planLock := Some(i))
    else s
  }

  /** A re-read that finds the transition illegal raises, and the transaction is rolled back. */
  function DoDecide(s: State, i: nat, c: Call): State
    requires i < |s.calls|
  {
    if !c.phase.Locked? then s
    else if c.writer.Tracker? then With(s, i, c.(phase := Decided, write := TrackerWrite(c.seen, c.target)))
    else if Terminal(s.row) || MayMove(s.row, c.target) then
      With(s, i, c.(phase := Decided, write := ManualWrite(s.row, c.target)))
    else Released(s, i)
  }

  predicate Ends(write: Option<Status>) {
    write.Some? && Terminal(write.value)
  }

  function DoRecord(s: State, i: nat, c: Call): State
    requires i < |s.calls|
  {
    if c.phase.Decided? && Ends(c.write) && KeyReady(s, i) then Inserted(s, i, c.(phase := Recorded), c.write.value) else s
  }

  function Or(write: Option<Status>, otherwise: Status): Status {
    if write.Some? then write.value else otherwise
  }

  /** Everything a transaction wrote becomes visible at once. */
  function Applied(s: State, c: Call): State {
    s.(row := Or(c.write, s.row), history := if c.write.Some? then s.history + [c.write.value] else s.history,
       hooks := if Ends(c.write) then s.hooks + [c.write.value] else s.hooks,
       thesis := Or(c.thesis, s.thesis), recorded := if c.record.Some? then c.record else s.recorded)
  }

  function DoCommit(s: State, i: nat, c: Call): State
    requires i < |s.calls|
  {
    if c.phase.Recorded? || (c.phase.Decided? && !Ends(c.write)) then Released(Applied(s, c), i) else s
  }

  function DoAbort(s: State, i: nat, c: Call): State
    requires i < |s.calls|
  {
    if c.phase.Idle? || c.phase.Over? then s else Released(s, i)
  }

  /** One step of one call. A step that is not enabled, or would have to wait, changes nothing. */
  function Do(s: State, step: Step): State {
    var i := step.call;
    if i >= |s.calls| then s
    else
      var c := s.calls[i];
      match step
      case Load(_) => DoLoad(s, i, c)
      case Close(_) => DoClose(s, i, c)
      case Vote(_) => DoVote(s, i, c)
      case Lock(_) => DoLock(s, i, c)
      case Decide(_) => DoDecide(s, i, c)
      case Record(_) => DoRecord(s, i, c)
      case Commit(_) => DoCommit(s, i, c)
      case Abort(_) => DoAbort(s, i, c)
  }

  /** Every interleaving of the calls is a sequence of steps. */
  function Run(s: State, steps: seq<Step>): State {
    if steps == [] then s else Do(Run(s, steps[..|steps| - 1]), steps[|steps| - 1])
  }

  function Start(row: Status, calls: seq<Call>): State {
    State(row, [row], [], Active, None, None, None, None, calls)
  }

  /** A monitor proposes one of two ends; anyone else may ask for anything. */
  predicate Startable(row: Status, calls: seq<Call>) {
    !Terminal(row)
    && forall c <- calls :: c == Fresh(c.writer, c.target) && (c.writer.Monitor? ==> c.target.Invalidated? || c.target.TargetReached?)
  }

  /** What readers rely on: a legal history, the hook called once, when the plan ended, and the outcome that is
    kept being the plan's own. */
  ghost predicate Safe(s: State) {
    && Path(s.history) && s.history[|s.history| - 1] == s.row
    && s.hooks == (if Terminal(s.row) then [s.row] else [])
    && Agree(s)
  }

  /** The outcome that is kept is the status the plan ended in. */
  predicate Agree(s: State) {
    s.recorded == if Terminal(s.row) then Some(s.row) else None
  }

  predicate HoldsPlan(c: Call) {
    c.phase.Locked? || c.phase.Decided? || c.phase.Recorded?
  }

  predicate HoldsThesis(c: Call) {
    c.writer.Monitor? && (c.phase.Closed? || c.phase.Voted? || HoldsPlan(c))
  }

  /** What a call in flight has under its locks, and why committing it will be safe. */
  predicate CallOk(s: State, i: nat, c: Call) {
    && (HoldsPlan(c) ==> s.planLock == Some(i))
    && (if HoldsThesis(c) then c.thesis == Some(c.target) && s.thesisLock == Some(i) else c.thesis.None?)
    && (c.record.Some? ==> s.keyLock == Some(i) && s.recorded.None? && c.record == Some(c.target) && Terminal(c.target))
    && (c.write.Some? ==> HoldsPlan(c) && !Terminal(s.row) && MayMove(s.row, c.target) && c.write == Some(c.target))
    && (c.phase.Decided? && c.record.Some? ==> c.write.Some?)
    && (c.phase.Recorded? ==> c.write.Some? && c.record.Some?)
    && (if c.writer.Monitor? then Terminal(c.target) else !c.phase.Closed? && !c.phase.Voted?)
    && (c.phase.Idle? || c.phase.Loaded? || c.phase.Over? ==> c.record.None?)
    && (c.phase.Locked? && !c.writer.Monitor? ==> c.record.None?)
  }

  /** Safety, and why the next commit will keep it. */
  ghost predicate Inv(s: State) {
    Safe(s) && forall i :: 0 <= i < |s.calls| ==> CallOk(s, i, s.calls[i])
  }

  /** The tracker is about to decide on a status that is no longer the row's. */
  predicate Stale(s: State, step: Step) {
    step.Decide? && step.call < |s.calls|
    && s.calls[step.call].writer.Tracker? && s.calls[step.call].phase.Locked?
    && (s.calls[step.call].seen != s.row || Terminal(s.row))
  }

  // ---------------------------------------------------------------- every step keeps the invariant

  /** The lock is as it was, or was free and is now this call's, or was this call's and is now free. */
  predicate Mine(before: Option<nat>, after: Option<nat>, i: nat) {
    after == before || ((before.None? || before == Some(i)) && (after.None? || after == Some(i)))
  }

  /** A step that commits nothing and gives call `i` only locks that were free keeps the others as they were. */
  lemma StepOfOne(s: State, t: State, i: nat)
    requires Inv(s) && i < |s.calls| == |t.calls| && t.calls == s.calls[i := t.calls[i]]
    requires t == s.(calls := t.calls, planLock := t.planLock, thesisLock := t.thesisLock, keyLock := t.keyLock)
    requires Mine(s.planLock, t.planLock, i) && Mine(s.thesisLock, t.thesisLock, i) && Mine(s.keyLock, t.keyLock, i)
    requires CallOk(t, i, t.calls[i])
    ensures Inv(t)
  {
    hide Path, MayMove, Terminal;
    forall j | 0 <= j < |t.calls|
      ensures CallOk(t, j, t.calls[j])
    {
      if j != i { assert t.calls[j] == s.calls[j] && CallOk(s, j, s.calls[j]); }
    }
  }

  lemma LoadKeepsInv(s: State, i: nat)
    requires Inv(s) && i < |s.calls|
    ensures Inv(DoLoad(s, i, s.calls[i]))
  {
    hide Path, MayMove, Terminal;
    var t := DoLoad(s, i, s.calls[i]);
    assert CallOk(s, i, s.calls[i]);
    if t != s { StepOfOne(s, t, i); }
  }

  lemma CloseKeepsInv(s: State, i: nat)
    requires Inv(s) && i < |s.calls|
    ensures Inv(DoClose(s, i, s.calls[i]))
  {
    hide Path, MayMove, Terminal;
    var t := DoClose(s, i, s.calls[i]);
    assert CallOk(s, i, s.calls[i]);
    if t != s { StepOfOne(s, t, i); }
  }

  lemma VoteKeepsInv(s: State, i: nat)
    requires Inv(s) && i < |s.calls|
    ensures Inv(DoVote(s, i, s.calls[i]))
  {
    hide Path, MayMove, Terminal;
    var t := DoVote(s, i, s.calls[i]);
    assert CallOk(s, i, s.calls[i]);
    if t != s { StepOfOne(s, t, i); }
  }

  lemma LockKeepsInv(s: State, i: nat)
    requires Inv(s) && i < |s.calls|
    ensures Inv(DoLock(s, i, s.calls[i]))
  {
    hide Path, MayMove, Terminal;
    var t := DoLock(s, i, s.calls[i]);
    assert CallOk(s, i, s.calls[i]);
    if t != s { StepOfOne(s, t, i); }
  }

  lemma ReleaseKeepsInv(s: State, i: nat)
    requires Inv(s) && i < |s.calls|
    ensures Inv(Released(s, i))
  {
    hide Path, MayMove, Terminal;
    assert CallOk(s, i, s.calls[i]);
    StepOfOne(s, Released(s, i), i);
  }

  lemma DecideKeepsInv(s: State, i: nat)
    requires Inv(s) && i < |s.calls| && !Stale(s, Decide(i))
    ensures Inv(DoDecide(s, i, s.calls[i]))
  {
    hide Path, Transitions, Terminal, MayMove;
    var c := s.calls[i];
    var t := DoDecide(s, i, c);
    assert CallOk(s, i, c);
    if c.phase.Locked? {
      if c.writer.Tracker? || Terminal(s.row) || MayMove(s.row, c.target) {
        assert c.record.Some? ==> !Terminal(s.row);
        assert CallOk(t, i, t.calls[i]);
        StepOfOne(s, t, i);
      } else {
        ReleaseKeepsInv(s, i);
      }
    }
  }

  lemma RecordKeepsInv(s: State, i: nat)
    requires Inv(s) && i < |s.calls|
    ensures Inv(DoRecord(s, i, s.calls[i]))
  {
    hide Path, MayMove, Terminal;
    var t := DoRecord(s, i, s.calls[i]);
    assert CallOk(s, i, s.calls[i]);
    if t != s { StepOfOne(s, t, i); }
  }

  lemma HistoryGrows(s: State, next: Status)
    requires Path(s.history) && s.history[|s.history| - 1] == s.row && MayMove(s.row, next)
    ensures Path(s.history + [next])
  {
    hide Transitions, Terminal;
  }

  predicate Committing(c: Call) {
    c.phase.Recorded? || (c.phase.Decided? && !Ends(c.write))
  }

  lemma CommitIsSafe(s: State, i: nat)
    requires Safe(s) && i < |s.calls| && CallOk(s, i, s.calls[i]) && Committing(s.calls[i])
    ensures Safe(DoCommit(s, i, s.calls[i]))
  {
    hide Path, Transitions, Terminal, MayMove;
    if s.calls[i].write.Some? { HistoryGrows(s, s.calls[i].target); }
  }

  /** No other call in flight relied on what a commit changed. */
  lemma CommitLeavesOthers(s: State, i: nat, j: nat)
    requires i < |s.calls| && j < |s.calls| && Safe(s)
    requires CallOk(s, i, s.calls[i]) && CallOk(s, j, s.calls[j]) && Committing(s.calls[i])
    ensures CallOk(DoCommit(s, i, s.calls[i]), j, DoCommit(s, i, s.calls[i]).calls[j])
  {
    hide Terminal, MayMove, Path;
  }

  lemma CommitKeepsInv(s: State, i: nat)
    requires Inv(s) && i < |s.calls|
    ensures Inv(DoCommit(s, i, s.calls[i]))
  {
    hide Safe, CallOk;
    var c := s.calls[i];
    assert CallOk(s, i, c);
    if Committing(c) {
      CommitIsSafe(s, i);
      var t := DoCommit(s, i, c);
      forall j | 0 <= j < |t.calls|
        ensures CallOk(t, j, t.calls[j])
      {
        CommitLeavesOthers(s, i, j);
      }
    }
  }

  /** Every step of every call keeps the invariant, unless the tracker decides on a stale status. */
  lemma StepKeepsInv(s: State, step: Step)
    requires Inv(s) && !Stale(s, step)
    ensures Inv(Do(s, step))
  {
    hide Inv, DoLoad, DoClose, DoVote, DoLock, DoDecide, DoRecord, DoCommit, Released, Terminal;
    var i := step.call;
    if i < |s.calls| {
      match step
      case Load(_) => LoadKeepsInv(s, i);
      case Close(_) => CloseKeepsInv(s, i);
      case Vote(_) => VoteKeepsInv(s, i);
      case Lock(_) => LockKeepsInv(s, i);
      case Decide(_) => DecideKeepsInv(s, i);
      case Record(_) => RecordKeepsInv(s, i);
      case Commit(_) => CommitKeepsInv(s, i);
      case Abort(_) => ReleaseKeepsInv(s, i);
    }
  }

  lemma StartsSafe(row: Status, calls: seq<Call>)
    requires Startable(row, calls)
    ensures Inv(Start(row, calls))
  {
    hide Transitions;
    var s := Start(row, calls);
    forall i | 0 <= i < |calls|
      ensures CallOk(s, i, calls[i])
    {
      assert calls[i] in calls;
    }
  }

  ghost predicate NeverStale(s: State, steps: seq<Step>) {
    forall k :: 0 <= k < |steps| ==> !Stale(Run(s, steps[..k]), steps[k])
  }

  /** For any number of calls, interleaved in any way, with any of them aborted anywhere. */
  lemma {:induction false} RunsAreSafe(s: State, steps: seq<Step>)
    requires Inv(s) && NeverStale(s, steps)
    ensures Inv(Run(s, steps))
  {
    hide Inv, Do, Stale;
    if steps != [] {
      var before := steps[..|steps| - 1];
      StaleOneMore(s, steps);
      RunsAreSafe(s, before);
      StepKeepsInv(Run(s, before), steps[|steps| - 1]);
    }
  }

  lemma WriterStays(s: State, step: Step)
    ensures |Do(s, step).calls| == |s.calls|
    ensures forall i :: 0 <= i < |s.calls| ==> Do(s, step).calls[i].writer == s.calls[i].writer
  {
    hide ManualWrite, TrackerWrite, Terminal, MayMove, Ends;
  }

  /** The writers of a run never change. */
  lemma {:induction false} WritersStay(s: State, steps: seq<Step>)
    ensures |Run(s, steps).calls| == |s.calls|
    ensures forall i :: 0 <= i < |s.calls| ==> Run(s, steps).calls[i].writer == s.calls[i].writer
  {
    hide Do;
    if steps != [] {
      var before := steps[..|steps| - 1];
      WritersStay(s, before);
      WriterStays(Run(s, before), steps[|steps| - 1]);
    }
  }

  /** With manual transitions and monitors only, no run is ever stale: the re-read under the lock is enough. */
  lemma RereadRunsAreSafe(row: Status, calls: seq<Call>, steps: seq<Step>)
    requires Startable(row, calls) && forall c <- calls :: !c.writer.Tracker?
    ensures Safe(Run(Start(row, calls), steps))
  {
    hide Do, Transitions, Safe, CallOk, Startable;
    var s := Start(row, calls);
    StartsSafe(row, calls);
    forall k | 0 <= k < |steps|
      ensures !Stale(Run(s, steps[..k]), steps[k])
    {
      WritersStay(s, steps[..k]);
    }
    RunsAreSafe(s, steps);
  }

  // ---------------------------------------------------------------- thesis, plan and outcome

  /** A thesis that is over ended as its plan did; the outcome that is kept is then the same, too. */
  predicate EndAlike(s: State) {
    Terminal(s.thesis) ==> s.thesis == s.row
  }

  /** A monitor is about to commit a thesis for a plan that had ended another way before it could lock it. */
  predicate Crossed(s: State, step: Step) {
    step.Commit? && step.call < |s.calls|
    && var c := s.calls[step.call];
       c.writer.Monitor? && c.phase.Decided? && c.write.None? && c.target != s.row
  }

  /** Each step keeps thesis and plan alike, except that of a monitor that was crossed, which never does. */
  lemma StepEndsAlikeExactly(s: State, step: Step)
    requires Inv(s) && EndAlike(s)
    ensures EndAlike(Do(s, step)) <==> !Crossed(s, step)
  {
    hide Path, Transitions, MayMove, ManualWrite, TrackerWrite;
    var i := step.call;
    if i < |s.calls| {
      assert CallOk(s, i, s.calls[i]);
      hide Terminal;
    }
  }

  ghost predicate NeverCrossed(s: State, steps: seq<Step>) {
    forall k :: 0 <= k < |steps| ==> !Crossed(Run(s, steps[..k]), steps[k])
  }

  ghost predicate AlwaysAlike(s: State, steps: seq<Step>) {
    forall k :: 0 <= k <= |steps| ==> EndAlike(Run(s, steps[..k]))
  }

  lemma AlikeOneMore(s: State, steps: seq<Step>)
    requires steps != []
    ensures AlwaysAlike(s, steps) <==> AlwaysAlike(s, steps[..|steps| - 1]) && EndAlike(Run(s, steps))
  {
    hide Run, EndAlike;
    var n := |steps| - 1;
    var before := steps[..n];
    assert forall k :: 0 <= k <= n ==> before[..k] == steps[..k];
    assert steps[..n + 1] == steps;
    if AlwaysAlike(s, steps) {
      assert forall k :: 0 <= k <= n ==> EndAlike(Run(s, steps[..k]));
      assert EndAlike(Run(s, steps[..n + 1]));
    }
  }

  lemma CrossedOneMore(s: State, steps: seq<Step>)
    requires steps != []
    ensures NeverCrossed(s, steps)
       <==> NeverCrossed(s, steps[..|steps| - 1]) && !Crossed(Run(s, steps[..|steps| - 1]), steps[|steps| - 1])
  {
    hide Run, Crossed;
    var n := |steps| - 1;
    assert forall k :: 0 <= k <= n ==> steps[..n][..k] == steps[..k];
  }

  lemma StaleOneMore(s: State, steps: seq<Step>)
    requires steps != [] && NeverStale(s, steps)
    ensures NeverStale(s, steps[..|steps| - 1]) && !Stale(Run(s, steps[..|steps| - 1]), steps[|steps| - 1])
  {
    hide Run, Stale;
    var n := |steps| - 1;
    assert forall k :: 0 <= k <= n ==> steps[..n][..k] == steps[..k];
  }

  lemma NoSteps(s: State)
    requires EndAlike(s)
    ensures AlwaysAlike(s, []) && NeverCrossed(s, []) && Run(s, []) == s
  {
    hide EndAlike;
    var none: seq<Step> := [];
    assert none[..0] == none;
  }

  lemma RunOneMore(s: State, steps: seq<Step>)
    requires steps != []
    ensures Run(s, steps) == Do(Run(s, steps[..|steps| - 1]), steps[|steps| - 1])
  {
  }

  lemma LastIsAlike(s: State, steps: seq<Step>)
    requires AlwaysAlike(s, steps)
    ensures EndAlike(Run(s, steps))
  {
    hide Run, EndAlike;
    assert steps[..|steps|] == steps;
  }

  /** For every interleaving of manual transitions, monitors and trackers that are never stale: thesis, plan and
    kept outcome always end alike exactly when no monitor is ever crossed. */
  lemma {:induction false} RunsEndAlikeExactly(s: State, steps: seq<Step>)
    requires Inv(s) && EndAlike(s) && NeverStale(s, steps)
    ensures AlwaysAlike(s, steps) <==> NeverCrossed(s, steps)
    ensures AlwaysAlike(s, steps) && Terminal(Run(s, steps).thesis) ==>
              Run(s, steps).row == Run(s, steps).thesis && Run(s, steps).recorded == Some(Run(s, steps).thesis)
  {
    hide Inv, Do, Stale, EndAlike, Crossed, Safe, AlwaysAlike, NeverCrossed, NeverStale, Run;
    if steps == [] {
      NoSteps(s);
    } else {
      var n := |steps| - 1;
      var before := steps[..n];
      StaleOneMore(s, steps);
      AlikeOneMore(s, steps);
      CrossedOneMore(s, steps);
      RunsEndAlikeExactly(s, before);
      RunsAreSafe(s, before);
      if AlwaysAlike(s, before) {
        LastIsAlike(s, before);
        StepEndsAlikeExactly(Run(s, before), steps[n]);
        RunOneMore(s, steps);
      }
    }
    if AlwaysAlike(s, steps) { LastIsAlike(s, steps); }
    RunIsAlike(s, steps);
  }

  lemma RunIsAlike(s: State, steps: seq<Step>)
    requires Inv(s) && NeverStale(s, steps)
    ensures EndAlike(Run(s, steps)) && Terminal(Run(s, steps).thesis) ==>
              Run(s, steps).row == Run(s, steps).thesis && Run(s, steps).recorded == Some(Run(s, steps).thesis)
  {
    hide Do, Run, Path, Terminal, CallOk;
    RunsAreSafe(s, steps);
  }

  // ---------------------------------------------------------------- calls that wait for each other

  /** The lock that the next step of a call needs. */
  datatype Need = Nothing | ThesisRow | OutcomeKey | PlanRow

  function Needs(s: State, c: Call): Need {
    if c.phase.Loaded? then (if c.writer.Monitor? then ThesisRow else PlanRow)
    else if c.phase.Voted? then PlanRow
    else if c.phase.Closed? || (c.phase.Decided? && Ends(c.write)) then
      (if s.recorded.None? then OutcomeKey else Nothing)
    else Nothing
  }

  function Holder(s: State, need: Need): Option<nat> {
    match need
    case Nothing => None
    case ThesisRow => s.thesisLock
    case OutcomeKey => s.keyLock
    case PlanRow => s.planLock
  }

  predicate WaitsFor(s: State, i: nat, j: nat) {
    i < |s.calls| && j < |s.calls| && i != j && Holder(s, Needs(s, s.calls[i])) == Some(j)
  }

  /** A monitor has voted and wants the plan; another call has ended the plan and wants to vote. */
  predicate Crosswise(s: State, i: nat, j: nat) {
    && i < |s.calls| && j < |s.calls|
    && s.calls[i].writer.Monitor? && s.calls[i].phase.Voted? && s.keyLock == Some(i)
    && !s.calls[j].writer.Monitor? && s.calls[j].phase.Decided? && Ends(s.calls[j].write) && s.planLock == Some(j)
  }

  predicate HasLock(held: Option<nat>, i: nat, claims: bool) {
    claims <==> held == Some(i)
  }

  /** Each lock is held by exactly the call in flight that has used it. */
  predicate OwnedBy(s: State, i: nat, c: Call) {
    HasLock(s.planLock, i, HoldsPlan(c)) && HasLock(s.thesisLock, i, HoldsThesis(c)) && HasLock(s.keyLock, i, c.record.Some?)
  }

  predicate InRange(held: Option<nat>, n: nat) {
    held.Some? ==> held.value < n
  }

  ghost predicate Owned(s: State) {
    && InRange(s.planLock, |s.calls|) && InRange(s.thesisLock, |s.calls|) && InRange(s.keyLock, |s.calls|)
    && forall i :: 0 <= i < |s.calls| ==> OwnedBy(s, i, s.calls[i])
  }

  lemma OneKeepsOwned(s: State, t: State, i: nat)
    requires Owned(s) && i < |s.calls| == |t.calls| && t.calls == s.calls[i := t.calls[i]]
    requires Mine(s.planLock, t.planLock, i) && Mine(s.thesisLock, t.thesisLock, i) && Mine(s.keyLock, t.keyLock, i)
    requires OwnedBy(t, i, t.calls[i])
    ensures Owned(t)
  {
    hide HoldsPlan, HoldsThesis;
    forall j | 0 <= j < |t.calls|
      ensures OwnedBy(t, j, t.calls[j])
    {
      assert OwnedBy(s, j, s.calls[j]);
    }
  }

  /** No lock outlives the call that took it, whatever the step, stale or not. */
  lemma StepKeepsOwned(s: State, step: Step)
    requires Owned(s)
    ensures Owned(Do(s, step))
  {
    hide Owned, ManualWrite, TrackerWrite, Terminal, MayMove, Ends, Or;
    var i := step.call;
    var t := Do(s, step);
    if i < |s.calls| && t != s {
      OwnsOne(s, i);
      hide OwnedBy;
      assert Mine(s.planLock, t.planLock, i) && Mine(s.thesisLock, t.thesisLock, i) && Mine(s.keyLock, t.keyLock, i) by {
        hide HoldsPlan, HoldsThesis;
      }
      StepOwns(s, step);
      OneKeepsOwned(s, t, i);
    }
  }

  lemma OwnsOne(s: State, i: nat)
    requires Owned(s) && i < |s.calls|
    ensures OwnedBy(s, i, s.calls[i])
  {
  }

  lemma StepOwns(s: State, step: Step)
    requires step.call < |s.calls| && OwnedBy(s, step.call, s.calls[step.call])
    ensures |Do(s, step).calls| == |s.calls| && OwnedBy(Do(s, step), step.call, Do(s, step).calls[step.call])
  {
    if step.Load? || step.Close? || step.Vote? || step.Lock? {
      TakingOwns(s, step);
    } else {
      EndingOwns(s, step);
    }
  }

  lemma TakingOwns(s: State, step: Step)
    requires step.Load? || step.Close? || step.Vote? || step.Lock?
    requires step.call < |s.calls| && OwnedBy(s, step.call, s.calls[step.call])
    ensures |Do(s, step).calls| == |s.calls| && OwnedBy(Do(s, step), step.call, Do(s, step).calls[step.call])
  {
    hide DoDecide, DoRecord, DoCommit, DoAbort, Terminal;
  }

  lemma EndingOwns(s: State, step: Step)
    requires step.Decide? || step.Record? || step.Commit? || step.Abort?
    requires step.call < |s.calls| && OwnedBy(s, step.call, s.calls[step.call])
    ensures |Do(s, step).calls| == |s.calls| && OwnedBy(Do(s, step), step.call, Do(s, step).calls[step.call])
  {
    hide DoLoad, DoClose, DoVote, DoLock, ManualWrite, TrackerWrite, Terminal, MayMove, Ends, Or;
  }

  /** How a call can look in its phase: only monitors close and vote, a vote that is not there any more was not
    needed, and nobody has a vote pending once an outcome is kept. */
  predicate Shaped(s: State, c: Call) {
    && (!c.writer.Monitor? ==> !c.phase.Closed? && !c.phase.Voted?)
    && (c.record.Some? ==> s.recorded.None?)
    && (c.phase.Voted? || c.phase.Recorded? || (c.writer.Monitor? && HoldsPlan(c)) ==> c.record.Some? || s.recorded.Some?)
    && (c.phase.Idle? || c.phase.Loaded? || c.phase.Closed? || c.phase.Over? ==> c.record.None?)
    && (!c.writer.Monitor? && !c.phase.Recorded? ==> c.record.None?)
  }

  ghost predicate AllShaped(s: State) {
    forall i :: 0 <= i < |s.calls| ==> Shaped(s, s.calls[i])
  }

  /** What every run keeps, with stale decisions and without. */
  ghost predicate Orderly(s: State) {
    Owned(s) && AllShaped(s)
  }

  lemma StepShapesOwn(s: State, step: Step)
    requires step.call < |s.calls| && Shaped(s, s.calls[step.call])
    ensures Shaped(Do(s, step), Do(s, step).calls[step.call])
  {
    hide ManualWrite, TrackerWrite, Terminal, MayMove, Ends, Or;
  }

  /** A step leaves the other calls alone, and an outcome is kept only by committing the vote that holds the key. */
  lemma StepLeavesOthers(s: State, step: Step)
    ensures |Do(s, step).calls| == |s.calls|
    ensures forall j :: 0 <= j < |s.calls| && j != step.call ==> Do(s, step).calls[j] == s.calls[j]
    ensures Do(s, step).recorded == s.recorded
            || (step.call < |s.calls| && s.calls[step.call].record.Some? && Do(s, step).recorded.Some?)
  {
    hide ManualWrite, TrackerWrite, Terminal, MayMove, Ends, Or;
  }

  lemma StepKeepsOrderly(s: State, step: Step)
    requires Orderly(s)
    ensures Orderly(Do(s, step))
  {
    hide Owned, Do;
    StepKeepsOwned(s, step);
    StepLeavesOthers(s, step);
    var t := Do(s, step);
    forall j | 0 <= j < |t.calls|
      ensures Shaped(t, t.calls[j])
    {
      assert Shaped(s, s.calls[j]);
      if j == step.call {
        StepShapesOwn(s, step);
      } else if t.recorded != s.recorded {
        OwnsOne(s, j);
        OwnsOne(s, step.call);
      }
    }
  }

  lemma StartsOrderly(row: Status, calls: seq<Call>)
    requires Startable(row, calls)
    ensures Orderly(Start(row, calls))
  {
    forall i | 0 <= i < |calls|
      ensures OwnedBy(Start(row, calls), i, calls[i]) && Shaped(Start(row, calls), calls[i])
    {
      assert calls[i] in calls;
    }
  }

  lemma {:induction false} RunsAreOrderly(row: Status, calls: seq<Call>, steps: seq<Step>)
    requires Startable(row, calls)
    ensures Orderly(Run(Start(row, calls), steps))
  {
    hide Do, Orderly;
    if steps == [] {
      StartsOrderly(row, calls);
    } else {
      RunsAreOrderly(row, calls, steps[..|steps| - 1]);
      StepKeepsOrderly(Run(Start(row, calls), steps[..|steps| - 1]), steps[|steps| - 1]);
    }
  }

  /** What call `j` has done stands in the way of what call `i` does next, read off the two calls alone. */
  predicate InTheWay(s: State, c: Call, other: Call) {
    match Needs(s, c)
    case Nothing => false
    case ThesisRow => HoldsThesis(other)
    case OutcomeKey => other.record.Some?
    case PlanRow => HoldsPlan(other)
  }

  lemma WaitsInTheWay(s: State, i: nat, j: nat)
    requires Owned(s) && i < |s.calls| && j < |s.calls| && i != j
    ensures WaitsFor(s, i, j) <==> InTheWay(s, s.calls[i], s.calls[j])
  {
    assert OwnedBy(s, j, s.calls[j]);
    hide HoldsPlan, HoldsThesis, Ends;
  }

  /** Between calls on one plan alone: two wait for each other exactly when a monitor votes on the outcome before it
    locks the plan, while the plan's own writer has it locked and is about to vote. */
  lemma OnePlanDeadlockExactly(s: State, i: nat, j: nat)
    requires Orderly(s)
    ensures WaitsFor(s, i, j) && WaitsFor(s, j, i) <==> Crosswise(s, i, j) || Crosswise(s, j, i)
  {
    hide Ends;
    if i < |s.calls| && j < |s.calls| {
      assert Shaped(s, s.calls[i]) && Shaped(s, s.calls[j]);
      assert OwnedBy(s, i, s.calls[i]) && OwnedBy(s, j, s.calls[j]);
    }
  }

  // ---------------------------------------------------------------- the tracker's race

  /** The tracker's decision, vote and commit, back to back under the lock. */
  function TrackerFinishes(s: State, i: nat): State {
    Do(Do(Do(s, Decide(i)), Record(i)), Commit(i))
  }

  lemma TrackerFinishesAs(s: State, i: nat)
    requires i < |s.calls| && s.calls[i].writer.Tracker? && s.calls[i].phase.Locked?
    requires s.calls[i].thesis.None? && s.calls[i].record.None?
    requires MayMove(s.calls[i].seen, s.calls[i].target) && (Terminal(s.calls[i].target) ==> KeyReady(s, i))
    ensures var t := TrackerFinishes(s, i);
            var target := s.calls[i].target;
            && t.row == target && t.history == s.history + [target] && t.thesis == s.thesis
            && t.hooks == (if Terminal(target) then s.hooks + [target] else s.hooks)
            && t.recorded == if Terminal(target) && s.recorded.None? then Some(target) else s.recorded
  {
    hide Transitions, MayMove, Terminal;
    var c := s.calls[i];
    var decided := c.(phase := Decided, write := Some(c.target));
    assert Do(s, Decide(i)) == With(s, i, decided);
    hide Released;
  }

  /** The tracker's write is safe exactly when the check on the row as it now is would allow it. The outcome that
    is kept differs from the row afterwards exactly when the plan had already ended another way. */
  lemma TrackerSafeExactlyWhenReread(s: State, i: nat)
    requires Inv(s) && i < |s.calls| && s.calls[i].writer.Tracker? && s.calls[i].phase.Locked?
    requires MayMove(s.calls[i].seen, s.calls[i].target) && (Terminal(s.calls[i].target) ==> KeyReady(s, i))
    ensures var t := TrackerFinishes(s, i);
            && (Safe(t) <==> ManualWrite(s.row, s.calls[i].target).Some?)
            && (Agree(t) <==> !Terminal(s.row) || s.calls[i].target == s.row)
            && (Terminal(s.row) ==> t.row == s.calls[i].target && t.recorded == Some(s.row))
  {
    hide Transitions, TrackerFinishes;
    assert CallOk(s, i, s.calls[i]);
    hide CallOk;
    TrackerFinishesAs(s, i);
    var target := s.calls[i].target;
    var t := TrackerFinishes(s, i);
    assert t.history[|s.history| - 1] == s.row && t.history[|s.history|] == target;
    if ManualWrite(s.row, target).Some? {
      HistoryGrows(s, target);
    } else if Terminal(s.row) && target == s.row {
      assert |t.hooks| == 2;
    }
  }

  const INVALIDATING := Call(Manual, Invalidated, Over, Ready, None, None, None)
  const WINNING := Call(Tracker, TargetReached, Loaded, Ready, None, None, None)

  const ASKING := Call(Manual, Invalidated, Loaded, Ready, None, None, None)

  lemma UserLocks(s0: State, s3: State)
    requires s0 == Start(Ready, [Fresh(Manual, Invalidated), Fresh(Tracker, TargetReached)])
    requires s3 == Do(Do(Do(s0, Load(1)), Load(0)), Lock(0))
    ensures s3 == Start(Ready, [ASKING.(phase := Locked), WINNING]).(planLock := Some(0))
  {
    var s1 := Do(s0, Load(1));
    assert s1.calls == [Fresh(Manual, Invalidated), WINNING];
    var s2 := Do(s1, Load(0));
    assert s2.calls == [ASKING, WINNING];
    assert s3.calls == [ASKING.(phase := Locked), WINNING];
  }

  lemma UserCommits(s3: State, s6: State)
    requires s3 == Start(Ready, [ASKING.(phase := Locked), WINNING]).(planLock := Some(0))
    requires s6 == Do(Do(Do(s3, Decide(0)), Record(0)), Commit(0))
    ensures s6 == State(Invalidated, [Ready, Invalidated], [Invalidated], Active, Some(Invalidated), None, None, None,
                        [INVALIDATING, WINNING])
  {
    var s4 := Do(s3, Decide(0));
    assert s4.calls == [ASKING.(phase := Decided, write := Some(Invalidated)), WINNING];
    var s5 := Do(s4, Record(0));
    assert s5.calls == [ASKING.(phase := Recorded, write := Some(Invalidated), record := Some(Invalidated)), WINNING];
  }

  /** The user's half of the race: everything up to the tracker getting the lock. */
  lemma UserInvalidates(s0: State, s6: State)
    requires s0 == Start(Ready, [Fresh(Manual, Invalidated), Fresh(Tracker, TargetReached)])
    requires s6 == Do(Do(Do(Do(Do(Do(s0, Load(1)), Load(0)), Lock(0)), Decide(0)), Record(0)), Commit(0))
    ensures s6 == State(Invalidated, [Ready, Invalidated], [Invalidated], Active, Some(Invalidated), None, None, None,
                        [INVALIDATING, WINNING])
  {
    hide Do;
    UserLocks(s0, Do(Do(Do(s0, Load(1)), Load(0)), Lock(0)));
    UserCommits(Do(Do(Do(s0, Load(1)), Load(0)), Lock(0)), s6);
  }

  /** The tracker's half: it decides on the status it loaded. */
  lemma TrackerOverwrites(s6: State, s10: State)
    requires s6 == State(Invalidated, [Ready, Invalidated], [Invalidated], Active, Some(Invalidated), None, None, None,
                         [INVALIDATING, WINNING])
    requires s10 == TrackerFinishes(Do(s6, Lock(1)), 1)
    ensures s10.history == [Ready, Invalidated, TargetReached] && s10.hooks == [Invalidated, TargetReached]
    ensures s10.row == TargetReached && s10.recorded == Some(Invalidated)
  {
    hide TrackerFinishes;
    var s7 := Do(s6, Lock(1));
    assert s7.calls == [INVALIDATING, WINNING.(phase := Locked)];
    TrackerFinishesAs(s7, 1);
  }

  /** The race itself: the tracker loads a ready plan, a user invalidates it, and the tracker makes it a win,
    while the outcome that was learned stays the loss. */
  lemma TrackerRace()
    ensures var calls := [Fresh(Manual, Invalidated), Fresh(Tracker, TargetReached)];
            var steps := [Load(1), Load(0), Lock(0), Decide(0), Record(0), Commit(0),
                          Lock(1), Decide(1), Record(1), Commit(1)];
            var end := Run(Start(Ready, calls), steps);
            && end.row == TargetReached && end.recorded == Some(Invalidated)
            && end.history == [Ready, Invalidated, TargetReached]
            && end.hooks == [Invalidated, TargetReached] && !Safe(end)
  {
    hide Run, Do;
    var s0 := Start(Ready, [Fresh(Manual, Invalidated), Fresh(Tracker, TargetReached)]);
    var s6 := Do(Do(Do(Do(Do(Do(s0, Load(1)), Load(0)), Lock(0)), Decide(0)), Record(0)), Commit(0));
    UserInvalidates(s0, s6);
    TrackerOverwrites(s6, TrackerFinishes(Do(s6, Lock(1)), 1));
    var six := [Load(1), Load(0), Lock(0), Decide(0), Record(0), Commit(0)];
    SixSteps(s0, [], Load(1), Load(0), Lock(0), Decide(0), Record(0), Commit(0));
    NothingRun(s0);
    FourSteps(s0, six, Lock(1), Decide(1), Record(1), Commit(1));
    assert six + [Lock(1), Decide(1), Record(1), Commit(1)]
        == [Load(1), Load(0), Lock(0), Decide(0), Record(0), Commit(0), Lock(1), Decide(1), Record(1), Commit(1)];
    assert six == [] + six;
  }

  lemma NothingRun(s: State)
    ensures Run(s, []) == s
  {
  }

  lemma RunAppend(s: State, steps: seq<Step>, step: Step)
    ensures Run(s, steps + [step]) == Do(Run(s, steps), step)
  {
    hide Do;
    assert (steps + [step])[..|steps|] == steps;
  }

  lemma FourSteps(s: State, steps: seq<Step>, a: Step, b: Step, c: Step, d: Step)
    ensures Run(s, steps + [a, b, c, d]) == Do(Do(Do(Do(Run(s, steps), a), b), c), d)
  {
    hide Do;
    assert steps + [a, b, c, d] == steps + [a] + [b] + [c] + [d];
    RunAppend(s, steps, a);
    RunAppend(s, steps + [a], b);
    RunAppend(s, steps + [a] + [b], c);
    RunAppend(s, steps + [a] + [b] + [c], d);
  }

  lemma SixSteps(s: State, steps: seq<Step>, a: Step, b: Step, c: Step, d: Step, e: Step, f: Step)
    ensures Run(s, steps + [a, b, c, d, e, f]) == Do(Do(Do(Do(Do(Do(Run(s, steps), a), b), c), d), e), f)
  {
    hide Do;
    assert steps + [a, b, c, d, e, f] == steps + [a, b, c, d] + [e] + [f];
    FourSteps(s, steps, a, b, c, d);
    RunAppend(s, steps + [a, b, c, d], e);
    RunAppend(s, steps + [a, b, c, d] + [e], f);
  }

  // ---------------------------------------------------------------- a monitor that nothing interrupts

  /** The rest of a monitor's call, with no other session in between. */
  function Alone(s: State, i: nat): State {
    Do(Do(Do(Do(Do(Do(s, Close(i)), Vote(i)), Lock(i)), Decide(i)), Record(i)), Commit(i))
  }

  /** What the plan keeps of a monitor's proposal, and what it learns from it: the first outcome stays. */
  lemma AloneIs(s: State, i: nat)
    requires i < |s.calls| && s.planLock.None? && s.thesisLock.None? && s.keyLock.None?
    requires s.calls[i] == Fresh(Monitor, s.calls[i].target).(phase := Loaded, seen := s.calls[i].seen)
    requires Terminal(s.calls[i].target)
    ensures var t := Alone(s, i);
            var target := s.calls[i].target;
            && t.calls == s.calls[i := s.calls[i].(phase := Over)]
            && t.planLock.None? && t.thesisLock.None? && t.keyLock.None?
            && (if Terminal(s.row) || MayMove(s.row, target) then
                  && t.thesis == target && t.recorded == Some(if s.recorded.Some? then s.recorded.value else target)
                  && t.row == (if Terminal(s.row) then s.row else target)
                else t.thesis == s.thesis && t.recorded == s.recorded && t.row == s.row)
  {
    hide Transitions, MayMove, Terminal;
    var c := s.calls[i];
    var target := c.target;
    var closed := c.(phase := Closed, thesis := Some(target));
    var s1 := Do(s, Close(i));
    assert s1 == s.(calls := s.calls[i := closed], thesisLock := Some(i));
    var voted := closed.(phase := Voted, record := if s.recorded.Some? then None else Some(target));
    var s2 := Do(s1, Vote(i));
    assert s2 == s1.(calls := s.calls[i := voted], keyLock := if s.recorded.Some? then None else Some(i));
    var s3 := Do(s2, Lock(i));
    assert s3 == s2.(calls := s.calls[i := voted.(phase := Locked)], planLock := Some(i));
    LockedMonitorEnds(s, s3, i, voted.(phase := Locked));
  }

  lemma LockedMonitorEnds(s: State, s3: State, i: nat, locked: Call)
    requires i < |s.calls| && s.planLock.None? && s.thesisLock.None? && s.keyLock.None?
    requires locked == Call(Monitor, locked.target, Locked, locked.seen, Some(locked.target), locked.record, None)
    requires locked.record == (if s.recorded.Some? then None else Some(locked.target)) && Terminal(locked.target)
    requires s3 == s.(calls := s.calls[i := locked], planLock := Some(i), thesisLock := Some(i),
                      keyLock := if s.recorded.Some? then None else Some(i))
    ensures var t := Do(Do(Do(s3, Decide(i)), Record(i)), Commit(i));
            var target := locked.target;
            && t.calls == s.calls[i := locked.(phase := Over, thesis := None, record := None)]
            && t.planLock.None? && t.thesisLock.None? && t.keyLock.None?
            && (if Terminal(s.row) || MayMove(s.row, target) then
                  && t.thesis == target && t.recorded == Some(if s.recorded.Some? then s.recorded.value else target)
                  && t.row == (if Terminal(s.row) then s.row else target)
                else t.thesis == s.thesis && t.recorded == s.recorded && t.row == s.row)
  {
    hide Transitions, MayMove, Terminal;
    var s4 := Do(s3, Decide(i));
    if Terminal(s.row) || MayMove(s.row, locked.target) {
      var decided := locked.(phase := Decided, write := ManualWrite(s.row, locked.target));
      assert s4 == s3.(calls := s.calls[i := decided]);
      var s5 := Do(s4, Record(i));
      if Ends(decided.write) {
        assert s5 == s4.(calls := s.calls[i := decided.(phase := Recorded)]);
      } else {
        assert s5 == s4;
      }
    } else {
      assert s4.calls == s.calls[i := locked.(phase := Over, thesis := None, record := None)];
    }
  }

  function Opened(row: Status, first: Call, second: Call): State {
    Start(row, [first.(phase := Loaded, seen := row), second.(phase := Loaded, seen := row)])
  }

  lemma BothLoad(row: Status, first: Call, second: Call)
    requires first == Fresh(first.writer, first.target) && second == Fresh(second.writer, second.target)
    ensures Run(Start(row, [first, second]), [] + [Load(0)] + [Load(1)]) == Opened(row, first, second)
  {
    hide Run, Do;
    var s := Start(row, [first, second]);
    NothingRun(s);
    RunAppend(s, [], Load(0));
    RunAppend(s, [] + [Load(0)], Load(1));
    var one := Start(row, [first.(phase := Loaded, seen := row), second]);
    FreshLoads(s, 0);
    assert With(s, 0, one.calls[0]) == one;
    FreshLoads(one, 1);
    assert With(one, 1, second.(phase := Loaded, seen := row)) == Opened(row, first, second);
  }

  lemma FreshLoads(s: State, i: nat)
    requires i < |s.calls| && s.calls[i].phase.Idle? && !Terminal(s.thesis)
    ensures Do(s, Load(i)) == With(s, i, s.calls[i].(phase := Loaded, seen := s.row))
  {
  }

  /** A call begins with the row as it stands, unless it is a monitor and its thesis is closed: that one is over,
    having written nothing, and so it stays whatever the others do. Only a monitor asks about the thesis. */
  lemma ClosedIsNotMonitored(s: State, i: nat, steps: seq<Step>)
    requires i < |s.calls| && s.calls[i].phase.Idle?
    ensures var c := s.calls[i];
            var begun := Do(s, Load(i));
            if c.writer.Monitor? && Terminal(s.thesis) then
              begun == With(s, i, begun.calls[i]) && OverFor(c, Run(begun, steps), i)
            else begun == With(s, i, c.(phase := Loaded, seen := s.row))
  {
    var c := s.calls[i];
    if c.writer.Monitor? && Terminal(s.thesis) {
      OverStays(c, Do(s, Load(i)), i, steps);
    }
  }

  predicate OverFor(c: Call, s: State, i: nat) {
    i < |s.calls| && s.calls[i] == c.(phase := Over)
  }

  lemma {:induction false} OverStays(c: Call, s: State, i: nat, steps: seq<Step>)
    requires OverFor(c, s, i)
    ensures OverFor(c, Run(s, steps), i)
  {
    if steps != [] {
      var n := |steps| - 1;
      OverStays(c, s, i, steps[..n]);
      OverStaysOver(c, Run(s, steps[..n]), i, steps[n]);
    }
  }

  lemma OverStaysOver(c: Call, s: State, i: nat, step: Step)
    requires OverFor(c, s, i)
    ensures OverFor(c, Do(s, step), i)
  {
    hide KeyReady, Free, Ends, MayMove, Terminal, ManualWrite, TrackerWrite;
    var k := step.call;
    if k < |s.calls| && k != i {
      assert Do(s, step).calls[i] == s.calls[i];
    }
  }

  function AloneSteps(i: nat): seq<Step> {
    [Close(i), Vote(i), Lock(i), Decide(i), Record(i), Commit(i)]
  }

  /** Two monitors load the same open thesis, and one finishes before the other closes it: the later one has the
    thesis, the earlier one the plan and the outcome. They differ exactly when the proposals did. */
  lemma SecondMonitorOverwrites(row: Status, first: Status, second: Status)
    requires !Terminal(row) && Terminal(first) && Terminal(second) && MayMove(row, first)
    ensures var s := Start(row, [Fresh(Monitor, first), Fresh(Monitor, second)]);
            var end := Run(s, [Load(0), Load(1)] + AloneSteps(0) + AloneSteps(1));
            && end.thesis == second && end.row == first && end.recorded == Some(first)
            && (EndAlike(end) <==> first == second)
  {
    hide Transitions, MayMove, Do, Run, Terminal, Alone;
    var s := Start(row, [Fresh(Monitor, first), Fresh(Monitor, second)]);
    var loads := [] + [Load(0)] + [Load(1)];
    assert loads == [Load(0), Load(1)];
    BothLoad(row, Fresh(Monitor, first), Fresh(Monitor, second));
    var both := Opened(row, Fresh(Monitor, first), Fresh(Monitor, second));
    AloneRuns(s, loads, 0);
    AloneIs(both, 0);
    AloneRuns(s, loads + AloneSteps(0), 1);
    AloneIs(Alone(both, 0), 1);
  }

  lemma AloneRuns(s: State, steps: seq<Step>, i: nat)
    ensures Run(s, steps + AloneSteps(i)) == Alone(Run(s, steps), i)
  {
    hide Do, Run;
    SixSteps(s, steps, Close(i), Vote(i), Lock(i), Decide(i), Record(i), Commit(i));
  }

  /** A monitor and anyone else who ends the same open plan can come to wait for each other. */
  lemma DeadlockHappens(row: Status, proposed: Status, writer: Writer, target: Status)
    requires !Terminal(row) && Terminal(proposed) && Terminal(target) && MayMove(row, target) && !writer.Monitor?
    ensures var s := Start(row, [Fresh(Monitor, proposed), Fresh(writer, target)]);
            var met := Run(s, [Load(0), Load(1), Close(0), Vote(0), Lock(1), Decide(1)]);
            WaitsFor(met, 0, 1) && WaitsFor(met, 1, 0)
  {
    hide Transitions, MayMove, Run, Terminal, Do;
    var monitor, other := Fresh(Monitor, proposed), Fresh(writer, target);
    var s := Start(row, [monitor, other]);
    var loads := [] + [Load(0)] + [Load(1)];
    BothLoad(row, monitor, other);
    FourSteps(s, loads, Close(0), Vote(0), Lock(1), Decide(1));
    assert loads + [Close(0), Vote(0), Lock(1), Decide(1)] == [Load(0), Load(1), Close(0), Vote(0), Lock(1), Decide(1)];
    Meet(row, monitor, other, Opened(row, monitor, other));
  }

  lemma Meet(row: Status, monitor: Call, other: Call, both: State)
    requires !Terminal(row) && Terminal(monitor.target) && Terminal(other.target) && MayMove(row, other.target)
    requires monitor == Fresh(Monitor, monitor.target) && other == Fresh(other.writer, other.target) && !other.writer.Monitor?
    requires both == Opened(row, monitor, other)
    ensures var met := Do(Do(Do(Do(both, Close(0)), Vote(0)), Lock(1)), Decide(1));
            WaitsFor(met, 0, 1) && WaitsFor(met, 1, 0)
  {
    hide Transitions, MayMove, Terminal;
    var loaded := other.(phase := Loaded, seen := row);
    var closed := monitor.(phase := Closed, seen := row, thesis := Some(monitor.target));
    var s1 := Do(both, Close(0));
    assert s1 == both.(calls := [closed, loaded], thesisLock := Some(0));
    var voted := closed.(phase := Voted, record := Some(monitor.target));
    var s2 := Do(s1, Vote(0));
    assert s2 == s1.(calls := [voted, loaded], keyLock := Some(0));
    var s3 := Do(s2, Lock(1));
    assert s3 == s2.(calls := [voted, loaded.(phase := Locked)], planLock := Some(1));
    var s4 := Do(s3, Decide(1));
    assert s4 == s3.(calls := [voted, loaded.(phase := Decided, write := Some(other.target))]);
  }
}
