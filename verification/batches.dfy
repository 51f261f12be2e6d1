/** Sessions that cover several plans in one transaction.

  The tracker's job and the thesis monitor's job each walk a list of plans and commit once, at
  the end; a manual transition is a list of one. Every lock taken on the way is held until then:
  those of the plans, and the rows of statistics that the first outcome of a plan moves.
 */
module Batches {
  import opened Lifecycle
  import opened Options

  /** One session: the plans it covers in its order, which one it is at, and how many of that plan's rows of
    statistics it has moved. */
  datatype Job = Job(plans: seq<nat>, at: nat, counted: nat)

  /** Every plan with the calls on it; call `i` of each plan is what session `i` does there. `moves` names the rows of
    statistics that a plan's outcome moves, in order, and `books` says which session holds each row. */
  datatype World = World(plans: seq<State>, jobs: seq<Job>, moves: seq<seq<nat>>, books: map<nat, nat>)

  /** Read a plan that is still ahead; take one step on the current plan; move one row of statistics; go on to the next
    plan; commit everything; roll everything back and go on with a later part of the list. */
  datatype Turn = Read(call: nat, plan: nat) | Act(step: Step) | Count(call: nat) | Next(call: nat)
                | CommitAll(call: nat) | AbortAll(call: nat, resume: nat)

  function Session(turn: Turn): nat {
    match turn
    case Act(step) => step.call
    case _ => turn.call
  }

  ghost predicate Formed(w: World) {
    && |w.moves| == |w.plans|
    && (forall p :: 0 <= p < |w.plans| ==> |w.plans[p].calls| == |w.jobs|)
    && forall i :: 0 <= i < |w.jobs| ==> FormedJob(w, w.jobs[i])
  }

  /** A list holds plans that exist, each once. */
  ghost predicate FormedJob(w: World, job: Job) {
    && job.at <= |job.plans|
    && (forall k :: 0 <= k < |job.plans| ==> job.plans[k] < |w.plans|)
    && forall k, l :: 0 <= k < l < |job.plans| ==> job.plans[k] != job.plans[l]
  }

  /** The plan a session is at. */
  function Current(w: World, i: nat): Option<nat> {
    if i < |w.jobs| && w.jobs[i].at < |w.jobs[i].plans| then Some(w.jobs[i].plans[w.jobs[i].at]) else None
  }

  predicate Covers(w: World, i: nat, p: nat) {
    p < |w.plans| && i < |w.plans[p].calls| && p < |w.moves|
  }

  /** The outcome is inserted and rows of statistics are left to move. */
  predicate Pending(w: World, i: nat) {
    Current(w, i).Some? && Covers(w, i, Current(w, i).value)
    && w.plans[Current(w, i).value].calls[i].record.Some? && w.jobs[i].counted < |w.moves[Current(w, i).value]|
  }

  function NextBook(w: World, i: nat): nat
    requires Pending(w, i)
  {
    w.moves[Current(w, i).value][w.jobs[i].counted]
  }

  /** There is nothing more to do on the plan before the commit. A tracker may find nothing to do under the lock, and a
    monitor nothing to propose. */
  predicate Finished(c: Call) {
    c.phase.Recorded? || (c.phase.Decided? && !Ends(c.write)) || c.phase.Over? || c.phase.Idle? || c.phase.Loaded?
    || (c.phase.Locked? && c.writer.Tracker?)
  }

  predicate Acting(step: Step) {
    step.Close? || step.Vote? || step.Lock? || step.Decide? || step.Record?
  }

  /** The transition is illegal on the row as it is read again: the session rolls back instead. */
  predicate Raises(s: State, step: Step) {
    step.Decide? && step.call < |s.calls|
    && var c := s.calls[step.call];
       c.phase.Locked? && !c.writer.Tracker? && !Terminal(s.row) && !MayMove(s.row, c.target)
  }

  /** What a turn is on one plan. */
  function On(w: World, turn: Turn, p: nat): Option<Step>
    requires Formed(w) && p < |w.plans|
  {
    match turn
    case Read(i, q) => if i < |w.jobs| && q == p && q in w.jobs[i].plans[w.jobs[i].at..] then Some(Load(i)) else None
    case Act(step) =>
      if Current(w, step.call) == Some(p) && Acting(step) && !Pending(w, step.call) && !Raises(w.plans[p], step)
      then Some(step) else None
    case Count(_) => None
    case Next(_) => None
    case CommitAll(i) =>
      if i < |w.jobs| && Current(w, i).None? then
        Some(if Committing(w.plans[p].calls[i]) then Commit(i) else Abort(i))
      else None
    case AbortAll(i, _) => Some(Abort(i))
  }

  function After(s: State, step: Option<Step>): State {
    if step.Some? then Do(s, step.value) else s
  }

  function JobAfter(w: World, turn: Turn, i: nat): Job
    requires Formed(w) && i < |w.jobs|
  {
    var job := w.jobs[i];
    if turn.Count? && turn.call == i && Pending(w, i) && (NextBook(w, i) in w.books ==> w.books[NextBook(w, i)] == i) then
      job.(counted := job.counted + 1)
    else if turn.Next? && turn.call == i && Current(w, i).Some? && !Pending(w, i)
            && Finished(w.plans[Current(w, i).value].calls[i]) then
      job.(at := job.at + 1, counted := 0)
    else if turn.AbortAll? && turn.call == i then
      job.(at := if job.at <= turn.resume <= |job.plans| then turn.resume else job.at, counted := 0)
    else job
  }

  function Returned(books: map<nat, nat>, i: nat): map<nat, nat> {
    map b | b in books && books[b] != i :: books[b]
  }

  function BooksAfter(w: World, turn: Turn): map<nat, nat>
    requires Formed(w)
  {
    match turn
    case Count(i) =>
      if Pending(w, i) && (NextBook(w, i) in w.books ==> w.books[NextBook(w, i)] == i) then w.books[NextBook(w, i) := i]
      else w.books
    case CommitAll(i) => if i < |w.jobs| && Current(w, i).None? then Returned(w.books, i) else w.books
    case AbortAll(i, _) => Returned(w.books, i)
    case _ => w.books
  }

  function Advance(w: World, turn: Turn): (r: World)
    requires Formed(w)
    ensures |r.plans| == |w.plans| && |r.jobs| == |w.jobs| && r.moves == w.moves && r.books == BooksAfter(w, turn)
    ensures forall p :: 0 <= p < |w.plans| ==> r.plans[p] == After(w.plans[p], On(w, turn, p))
    ensures forall i :: 0 <= i < |w.jobs| ==> r.jobs[i] == JobAfter(w, turn, i)
  {
    World(seq(|w.plans|, p requires 0 <= p < |w.plans| => After(w.plans[p], On(w, turn, p))),
          seq(|w.jobs|, i requires 0 <= i < |w.jobs| => JobAfter(w, turn, i)), w.moves, BooksAfter(w, turn))
  }

  lemma AdvanceForms(w: World, turn: Turn)
    requires Formed(w)
    ensures Formed(Advance(w, turn))
  {
    hide Do, On, BooksAfter;
    var v := Advance(w, turn);
    forall p | 0 <= p < |w.plans|
      ensures |v.plans[p].calls| == |w.jobs|
    {
      if On(w, turn, p).Some? { StepLeavesOthers(w.plans[p], On(w, turn, p).value); }
    }
    forall i | 0 <= i < |w.jobs|
      ensures FormedJob(v, v.jobs[i])
    {
      assert FormedJob(w, w.jobs[i]);
      hide Pending, NextBook, Finished;
    }
  }

  /** Every interleaving of the sessions is a sequence of turns. */
  function RunAll(w: World, turns: seq<Turn>): (r: World)
    requires Formed(w)
    ensures Formed(r) && |r.plans| == |w.plans| && |r.jobs| == |w.jobs|
  {
    if turns == [] then w
    else
      var before := RunAll(w, turns[..|turns| - 1]);
      AdvanceForms(before, turns[|turns| - 1]);
      Advance(before, turns[|turns| - 1])
  }

  // ---------------------------------------------------------------- one plan at a time

  /** The steps of a run that fall on one plan. */
  function Seen(w: World, turns: seq<Turn>, p: nat): seq<Step>
    requires Formed(w) && p < |w.plans|
  {
    if turns == [] then []
    else
      var before := turns[..|turns| - 1];
      var step := On(RunAll(w, before), turns[|turns| - 1], p);
      Seen(w, before, p) + if step.Some? then [step.value] else []
  }

  /** Seen from one plan, a run of sessions over many plans is a run of calls on it, cut short here and there. */
  lemma {:induction false} RunProjects(w: World, turns: seq<Turn>, p: nat)
    requires Formed(w) && p < |w.plans|
    ensures RunAll(w, turns).plans[p] == Run(w.plans[p], Seen(w, turns, p))
  {
    hide Do, On, Advance, Formed;
    if turns == [] {
      NothingRun(w.plans[p]);
    } else {
      var before := turns[..|turns| - 1];
      RunProjects(w, before, p);
      var step := On(RunAll(w, before), turns[|turns| - 1], p);
      if step.Some? {
        RunAppend(w.plans[p], Seen(w, before, p), step.value);
      } else {
        assert Seen(w, before, p) + [] == Seen(w, before, p);
      }
    }
  }

  /** Nothing has happened yet: every plan is open, and every session may do what its calls may. */
  ghost predicate Opening(w: World) {
    && Formed(w) && w.books == map[]
    && (forall p :: 0 <= p < |w.plans| ==> Startable(w.plans[p].row, w.plans[p].calls)
                                           && w.plans[p] == Start(w.plans[p].row, w.plans[p].calls))
    && forall i :: 0 <= i < |w.jobs| ==> w.jobs[i].at == 0 && w.jobs[i].counted == 0
  }

  /** Whatever the lists, every plan is safe as long as no tracker decides on it with a stale status; and its thesis,
    its row and the kept outcome then always end alike exactly when no monitor is crossed on it. */
  lemma BatchesAreSafe(w: World, turns: seq<Turn>, p: nat)
    requires Opening(w) && p < |w.plans| && NeverStale(w.plans[p], Seen(w, turns, p))
    ensures Safe(RunAll(w, turns).plans[p])
    ensures AlwaysAlike(w.plans[p], Seen(w, turns, p)) <==> NeverCrossed(w.plans[p], Seen(w, turns, p))
  {
    hide Run, Do, NeverStale, AlwaysAlike, NeverCrossed, Seen, RunAll, Path, CallOk, Startable, Formed;
    var s := w.plans[p];
    StartsSafe(s.row, s.calls);
    RunProjects(w, turns, p);
    RunsAreSafe(s, Seen(w, turns, p));
    RunsEndAlikeExactly(s, Seen(w, turns, p));
  }

  // ---------------------------------------------------------------- what a session holds

  /** What session `i` does on the plan at `k` of its list. */
  function Part(w: World, i: nat, k: nat): Call
    requires Formed(w) && i < |w.jobs| && k < |w.jobs[i].plans|
  {
    w.plans[w.jobs[i].plans[k]].calls[i]
  }

  predicate Untouched(c: Call) {
    c.phase.Idle? || c.phase.Loaded? || c.phase.Over?
  }

  /** A row of statistics that session `i` has moved for a plan it has left behind. */
  ghost predicate MovedBefore(w: World, i: nat, b: nat)
    requires Formed(w) && i < |w.jobs|
  {
    exists k :: 0 <= k < w.jobs[i].at && Part(w, i, k).record.Some? && b in w.moves[w.jobs[i].plans[k]]
  }

  predicate MovedHere(w: World, i: nat, b: nat)
    requires Formed(w) && i < |w.jobs|
  {
    Current(w, i).Some? && w.jobs[i].counted <= |w.moves[Current(w, i).value]|
    && b in w.moves[Current(w, i).value][..w.jobs[i].counted]
  }

  /** What a session has done is on the plans up to the one it is at, and it holds exactly the rows it has moved. */
  ghost predicate TidyJob(w: World, i: nat)
    requires Formed(w) && i < |w.jobs|
  {
    var job := w.jobs[i];
    && (forall k :: job.at < k < |job.plans| ==> Untouched(Part(w, i, k)))
    && (forall p :: 0 <= p < |w.plans| && p !in job.plans ==> w.plans[p].calls[i].phase.Idle?)
    && job.counted <= (if Current(w, i).Some? && Part(w, i, job.at).record.Some? then |w.moves[Current(w, i).value]| else 0)
    && forall b :: b in w.books && w.books[b] == i <==> MovedBefore(w, i, b) || MovedHere(w, i, b)
  }

  ghost predicate Tidy(w: World) {
    Formed(w) && (forall p :: 0 <= p < |w.plans| ==> Orderly(w.plans[p])) && forall i :: 0 <= i < |w.jobs| ==> TidyJob(w, i)
  }

  lemma PlansStayOrderly(w: World, turn: Turn)
    requires Formed(w) && forall p :: 0 <= p < |w.plans| ==> Orderly(w.plans[p])
    ensures var v := Advance(w, turn); forall p :: 0 <= p < |v.plans| ==> Orderly(v.plans[p])
  {
    hide Orderly, Do, On, Formed;
    var v := Advance(w, turn);
    forall p | 0 <= p < |w.plans|
      ensures Orderly(v.plans[p])
    {
      if On(w, turn, p).Some? { StepKeepsOrderly(w.plans[p], On(w, turn, p).value); }
    }
  }

  /** A turn of one session changes no other session's calls. */
  lemma OtherParts(w: World, turn: Turn, i: nat, p: nat)
    requires Formed(w) && i < |w.jobs| && i != Session(turn) && p < |w.plans|
    ensures Advance(w, turn).plans[p].calls[i] == w.plans[p].calls[i]
  {
    hide Do;
    if On(w, turn, p).Some? { StepLeavesOthers(w.plans[p], On(w, turn, p).value); }
  }

  lemma OtherStaysTidy(w: World, turn: Turn, i: nat)
    requires Tidy(w) && i < |w.jobs| && i != Session(turn)
    ensures Formed(Advance(w, turn)) && TidyJob(Advance(w, turn), i)
  {
    AdvanceForms(w, turn);
    var v := Advance(w, turn);
    forall p | 0 <= p < |w.plans|
      ensures v.plans[p].calls[i] == w.plans[p].calls[i]
    {
      OtherParts(w, turn, i, p);
    }
    assert v.jobs[i] == w.jobs[i];
    OtherBooks(w, turn, i);
    assert TidyJob(w, i);
    hide Advance, On, Pending, NextBook, Finished, Orderly, BooksAfter, JobAfter;
    SameTidy(w, v, i);
  }

  lemma OtherBooks(w: World, turn: Turn, i: nat)
    requires Formed(w) && i != Session(turn)
    ensures forall b :: b in BooksAfter(w, turn) && BooksAfter(w, turn)[b] == i <==> b in w.books && w.books[b] == i
  {
    hide Pending, Formed;
  }

  /** What has been moved is read off the votes on the plans left behind, and the count. */
  lemma MovedAlike(w: World, v: World, i: nat, b: nat)
    requires Formed(w) && Formed(v) && i < |w.jobs| == |v.jobs| && v.jobs[i].plans == w.jobs[i].plans && v.moves == w.moves
    requires v.jobs[i].at == w.jobs[i].at
    requires forall k :: 0 <= k < w.jobs[i].at ==> Part(v, i, k).record.Some? == Part(w, i, k).record.Some?
    ensures MovedBefore(v, i, b) <==> MovedBefore(w, i, b)
    ensures v.jobs[i].counted == w.jobs[i].counted ==> (MovedHere(v, i, b) <==> MovedHere(w, i, b))
  {
    assert FormedJob(w, w.jobs[i]);
    if MovedBefore(w, i, b) {
      var k :| 0 <= k < w.jobs[i].at && Part(w, i, k).record.Some? && b in w.moves[w.jobs[i].plans[k]];
      assert Part(v, i, k).record.Some? && b in v.moves[v.jobs[i].plans[k]];
    }
    if MovedBefore(v, i, b) {
      var k :| 0 <= k < v.jobs[i].at && Part(v, i, k).record.Some? && b in v.moves[v.jobs[i].plans[k]];
      assert Part(w, i, k).record.Some? && b in w.moves[w.jobs[i].plans[k]];
    }
  }

  lemma SameTidy(w: World, v: World, i: nat)
    requires Formed(w) && Formed(v) && i < |w.jobs| == |v.jobs| && TidyJob(w, i) && v.jobs[i] == w.jobs[i] && v.moves == w.moves
    requires |v.plans| == |w.plans| && forall p :: 0 <= p < |w.plans| ==> v.plans[p].calls[i] == w.plans[p].calls[i]
    requires forall b :: b in v.books && v.books[b] == i <==> b in w.books && w.books[b] == i
    ensures TidyJob(v, i)
  {
    assert FormedJob(w, w.jobs[i]);
    assert forall k :: 0 <= k < |w.jobs[i].plans| ==> Part(v, i, k) == Part(w, i, k);
    forall b
      ensures MovedBefore(v, i, b) <==> MovedBefore(w, i, b)
      ensures MovedHere(v, i, b) <==> MovedHere(w, i, b)
    {
      MovedAlike(w, v, i, b);
    }
    hide MovedBefore, MovedHere;
  }

  // ---------------------------------------------------------------- each turn of its own session

  lemma ReadIs(s: State, i: nat)
    requires i < |s.calls|
    ensures var c, d := s.calls[i], Do(s, Load(i)).calls[i];
            d.record == c.record && (Untouched(c) ==> Untouched(d)) && (!c.phase.Idle? ==> d == c)
  {
  }

  lemma ReadStaysTidy(w: World, i: nat, q: nat)
    requires Tidy(w) && i < |w.jobs|
    ensures Formed(Advance(w, Read(i, q))) && TidyJob(Advance(w, Read(i, q)), i)
  {
    var turn := Read(i, q);
    AdvanceForms(w, turn);
    var v := Advance(w, turn);
    assert TidyJob(w, i) && FormedJob(w, w.jobs[i]);
    hide Orderly, Do;
    forall p | 0 <= p < |w.plans|
      ensures var c, d := w.plans[p].calls[i], v.plans[p].calls[i];
              d.record == c.record && (Untouched(c) ==> Untouched(d)) && (p !in w.jobs[i].plans ==> d == c)
    {
      ReadIs(w.plans[p], i);
    }
    hide Advance, On;
    SameRecords(w, v, i);
  }

  /** With the same votes and books, only the other two parts of tidiness are left to show. */
  lemma SameRecords(w: World, v: World, i: nat)
    requires Formed(w) && Formed(v) && i < |w.jobs| == |v.jobs| && TidyJob(w, i) && v.jobs[i] == w.jobs[i] && v.moves == w.moves
    requires |v.plans| == |w.plans| && v.books == w.books
    requires forall p :: 0 <= p < |w.plans| ==> v.plans[p].calls[i].record == w.plans[p].calls[i].record
    requires forall p :: 0 <= p < |w.plans| && Untouched(w.plans[p].calls[i]) ==> Untouched(v.plans[p].calls[i])
    requires forall p :: 0 <= p < |w.plans| && p !in w.jobs[i].plans ==> v.plans[p].calls[i].phase == w.plans[p].calls[i].phase
    ensures TidyJob(v, i)
  {
    assert FormedJob(w, w.jobs[i]);
    hide Untouched;
    assert forall k :: 0 <= k < |w.jobs[i].plans| ==> Part(v, i, k).record == Part(w, i, k).record;
    forall b
      ensures MovedBefore(v, i, b) <==> MovedBefore(w, i, b)
      ensures MovedHere(v, i, b) <==> MovedHere(w, i, b)
    {
      MovedAlike(w, v, i, b);
    }
    hide MovedBefore, MovedHere;
  }

  /** A step on the current plan never takes a vote back. */
  lemma ActIs(s: State, step: Step)
    requires step.call < |s.calls| && Acting(step) && !Raises(s, step)
    ensures s.calls[step.call].record.Some? ==> Do(s, step).calls[step.call].record.Some?
  {
    hide ManualWrite, TrackerWrite, MayMove, Terminal, Ends;
  }

  lemma ActStaysTidy(w: World, step: Step)
    requires Tidy(w) && step.call < |w.jobs|
    ensures Formed(Advance(w, Act(step))) && TidyJob(Advance(w, Act(step)), step.call)
  {
    var turn, i := Act(step), step.call;
    AdvanceForms(w, turn);
    var v := Advance(w, turn);
    assert TidyJob(w, i) && FormedJob(w, w.jobs[i]);
    hide Orderly, Do, Raises, Acting, Finished;
    if Current(w, i).Some? && On(w, turn, Current(w, i).value).Some? {
      var p := Current(w, i).value;
      assert forall q :: 0 <= q < |w.plans| && q != p ==> v.plans[q] == w.plans[q];
      ActIs(w.plans[p], step);
      assert w.jobs[i].counted == 0 || (w.plans[p].calls[i].record.Some? && w.jobs[i].counted == |w.moves[p]|);
      hide On, Advance, Pending;
      OneChanged(w, v, i);
    } else {
      assert forall q :: 0 <= q < |w.plans| ==> v.plans[q] == w.plans[q];
      hide On, Advance;
      SameTidy(w, v, i);
    }
  }

  lemma OneChanged(w: World, v: World, i: nat)
    requires Formed(w) && Formed(v) && i < |w.jobs| == |v.jobs| && TidyJob(w, i) && v.jobs[i] == w.jobs[i] && v.moves == w.moves
    requires |v.plans| == |w.plans| && v.books == w.books && Current(w, i).Some?
    requires forall q :: 0 <= q < |w.plans| && q != Current(w, i).value ==> v.plans[q] == w.plans[q]
    requires Part(w, i, w.jobs[i].at).record.Some? ==> Part(v, i, w.jobs[i].at).record.Some?
    ensures TidyJob(v, i)
  {
    var job := w.jobs[i];
    assert FormedJob(w, job);
    assert forall k :: 0 <= k < |job.plans| && k != job.at ==> Part(v, i, k) == Part(w, i, k);
    forall b
      ensures MovedBefore(v, i, b) <==> MovedBefore(w, i, b)
      ensures MovedHere(v, i, b) <==> MovedHere(w, i, b)
    {
      MovedAlike(w, v, i, b);
    }
    hide MovedBefore, MovedHere;
  }

  lemma CountStaysTidy(w: World, i: nat)
    requires Tidy(w) && i < |w.jobs|
    ensures Formed(Advance(w, Count(i))) && TidyJob(Advance(w, Count(i)), i)
  {
    AdvanceForms(w, Count(i));
    var v := Advance(w, Count(i));
    assert TidyJob(w, i) && FormedJob(w, w.jobs[i]);
    assert forall q :: 0 <= q < |w.plans| ==> v.plans[q] == w.plans[q];
    if v.jobs[i] != w.jobs[i] {
      assert v.books == w.books[NextBook(w, i) := i];
      hide On, Advance, Orderly, JobAfter, BooksAfter, TidyJob;
      OneCounted(w, v, i);
    } else {
      hide On, Advance, Orderly;
      SameTidy(w, v, i);
    }
  }

  lemma OneCounted(w: World, v: World, i: nat)
    requires Formed(w) && Formed(v) && i < |w.jobs| == |v.jobs| && TidyJob(w, i) && Pending(w, i)
    requires v.moves == w.moves && v.plans == w.plans && v.books == w.books[NextBook(w, i) := i]
    requires v.jobs[i] == w.jobs[i].(counted := w.jobs[i].counted + 1)
    ensures TidyJob(v, i)
  {
    var p, n := Current(w, i).value, w.jobs[i].counted;
    assert FormedJob(w, w.jobs[i]);
    assert forall k :: 0 <= k < |w.jobs[i].plans| ==> Part(v, i, k) == Part(w, i, k);
    assert w.moves[p][..n + 1] == w.moves[p][..n] + [w.moves[p][n]];
    forall b
      ensures MovedBefore(v, i, b) <==> MovedBefore(w, i, b)
      ensures MovedHere(v, i, b) <==> MovedHere(w, i, b) || b == NextBook(w, i)
    {
      MovedAlike(w, v, i, b);
    }
    hide MovedBefore, MovedHere;
  }

  lemma NextStaysTidy(w: World, i: nat)
    requires Tidy(w) && i < |w.jobs|
    ensures Formed(Advance(w, Next(i))) && TidyJob(Advance(w, Next(i)), i)
  {
    AdvanceForms(w, Next(i));
    var v := Advance(w, Next(i));
    assert TidyJob(w, i) && FormedJob(w, w.jobs[i]);
    assert forall q :: 0 <= q < |w.plans| ==> v.plans[q] == w.plans[q];
    if v.jobs[i] != w.jobs[i] {
      assert w.jobs[i].counted == 0 || (Part(w, i, w.jobs[i].at).record.Some? && w.jobs[i].counted == |w.moves[Current(w, i).value]|);
      assert Part(w, i, w.jobs[i].at).record.Some? ==> w.jobs[i].counted == |w.moves[Current(w, i).value]|;
      hide On, Advance, Orderly, Pending, Finished, Untouched, BooksAfter;
      OneFurther(w, v, i);
    } else {
      hide On, Advance, Orderly, Pending, Finished;
      SameTidy(w, v, i);
    }
  }

  /** The current plan is left behind with all its rows moved, and none is moved yet for the next. */
  lemma OneFurther(w: World, v: World, i: nat)
    requires Formed(w) && Formed(v) && i < |w.jobs| == |v.jobs| && TidyJob(w, i) && Current(w, i).Some?
    requires v.moves == w.moves && v.plans == w.plans && v.books == w.books
    requires v.jobs[i] == w.jobs[i].(at := w.jobs[i].at + 1, counted := 0)
    requires w.jobs[i].counted == if Part(w, i, w.jobs[i].at).record.Some? then |w.moves[Current(w, i).value]| else 0
    ensures TidyJob(v, i)
  {
    assert forall k :: 0 <= k < |w.jobs[i].plans| ==> Part(v, i, k) == Part(w, i, k);
    forall b
      ensures MovedBefore(v, i, b) || MovedHere(v, i, b) <==> MovedBefore(w, i, b) || MovedHere(w, i, b)
    {
      MovedFurther(w, v, i, b);
    }
    hide MovedBefore, MovedHere;
  }

  lemma MovedFurther(w: World, v: World, i: nat, b: nat)
    requires Formed(w) && Formed(v) && i < |w.jobs| == |v.jobs| && Current(w, i).Some?
    requires v.moves == w.moves && v.plans == w.plans && v.jobs[i] == w.jobs[i].(at := w.jobs[i].at + 1, counted := 0)
    requires w.jobs[i].counted == if Part(w, i, w.jobs[i].at).record.Some? then |w.moves[Current(w, i).value]| else 0
    ensures MovedBefore(v, i, b) || MovedHere(v, i, b) <==> MovedBefore(w, i, b) || MovedHere(w, i, b)
  {
    var job := w.jobs[i];
    assert FormedJob(w, job);
    var p := Current(w, i).value;
    assert w.moves[p][..|w.moves[p]|] == w.moves[p];
    assert !MovedHere(v, i, b);
    if MovedHere(w, i, b) {
      assert Part(v, i, job.at).record.Some? && b in v.moves[v.jobs[i].plans[job.at]];
    }
    if MovedBefore(w, i, b) {
      var k :| 0 <= k < job.at && Part(w, i, k).record.Some? && b in w.moves[job.plans[k]];
      assert Part(v, i, k).record.Some? && b in v.moves[v.jobs[i].plans[k]];
    }
    if MovedBefore(v, i, b) {
      var k :| 0 <= k < job.at + 1 && Part(v, i, k).record.Some? && b in v.moves[v.jobs[i].plans[k]];
      assert k < job.at ==> Part(w, i, k).record.Some? && b in w.moves[job.plans[k]];
    }
  }

  /** After a commit or a rollback a session has nothing pending anywhere. */
  lemma EndIs(s: State, i: nat, step: Step)
    requires i < |s.calls| && Shaped(s, s.calls[i])
    requires step == Abort(i) || (step == Commit(i) && Committing(s.calls[i]))
    ensures var c, d := s.calls[i], Do(s, step).calls[i];
            d.record.None? && (d.phase.Idle? || d.phase.Over?) && (c.phase.Idle? ==> d == c)
  {
  }

  lemma EndStaysTidy(w: World, turn: Turn, i: nat)
    requires Tidy(w) && i < |w.jobs| && Session(turn) == i
    requires turn.AbortAll? || (turn.CommitAll? && Current(w, i).None?)
    ensures Formed(Advance(w, turn)) && TidyJob(Advance(w, turn), i)
  {
    AdvanceForms(w, turn);
    var v := Advance(w, turn);
    assert TidyJob(w, i) && FormedJob(w, w.jobs[i]);
    hide Do, Committing, Pending;
    forall p | 0 <= p < |w.plans|
      ensures var c, d := w.plans[p].calls[i], v.plans[p].calls[i];
              d.record.None? && (d.phase.Idle? || d.phase.Over?) && (c.phase.Idle? ==> d == c)
    {
      assert Orderly(w.plans[p]) && Shaped(w.plans[p], w.plans[p].calls[i]);
      EndIs(w.plans[p], i, On(w, turn, p).value);
    }
    assert v.jobs[i].counted == 0 && v.jobs[i].plans == w.jobs[i].plans;
    hide Orderly, On, Advance;
    Cleared(w, v, i);
  }

  lemma Cleared(w: World, v: World, i: nat)
    requires Formed(w) && Formed(v) && i < |w.jobs| == |v.jobs| && TidyJob(w, i) && |v.plans| == |w.plans|
    requires v.jobs[i].counted == 0 && v.jobs[i].plans == w.jobs[i].plans && v.books == Returned(w.books, i)
    requires forall p :: 0 <= p < |w.plans| ==>
               var c, d := w.plans[p].calls[i], v.plans[p].calls[i];
               d.record.None? && (d.phase.Idle? || d.phase.Over?) && (c.phase.Idle? ==> d == c)
    ensures TidyJob(v, i)
  {
    assert FormedJob(v, v.jobs[i]);
    assert forall k :: 0 <= k < |v.jobs[i].plans| ==> Part(v, i, k).record.None?;
  }

  lemma TurnKeepsTidy(w: World, turn: Turn)
    requires Tidy(w)
    ensures Tidy(Advance(w, turn))
  {
    AdvanceForms(w, turn);
    PlansStayOrderly(w, turn);
    hide TidyJob, Orderly, On, JobAfter, BooksAfter;
    var v := Advance(w, turn);
    forall i | 0 <= i < |v.jobs|
      ensures TidyJob(v, i)
    {
      if i != Session(turn) {
        OtherStaysTidy(w, turn, i);
      } else {
        OwnStaysTidy(w, turn, i);
      }
    }
  }

  lemma OwnStaysTidy(w: World, turn: Turn, i: nat)
    requires Tidy(w) && i < |w.jobs| && Session(turn) == i
    ensures Formed(Advance(w, turn)) && TidyJob(Advance(w, turn), i)
  {
    match turn
    case Read(_, q) => ReadStaysTidy(w, i, q);
    case Act(step) => ActStaysTidy(w, step);
    case Count(_) => CountStaysTidy(w, i);
    case Next(_) => NextStaysTidy(w, i);
    case AbortAll(_, _) => EndStaysTidy(w, turn, i);
    case CommitAll(_) =>
      if Current(w, i).None? {
        EndStaysTidy(w, turn, i);
      } else {
        AdvanceForms(w, turn);
        SameTidy(w, Advance(w, turn), i);
      }
  }

  /** Every session holds exactly what it has taken, in every run, whatever the lists and whoever decides on what. */
  lemma {:induction false} RunsAreTidy(w: World, turns: seq<Turn>)
    requires Opening(w)
    ensures Tidy(RunAll(w, turns))
  {
    hide Tidy, Advance;
    if turns == [] {
      OpensTidy(w);
    } else {
      RunsAreTidy(w, turns[..|turns| - 1]);
      TurnKeepsTidy(RunAll(w, turns[..|turns| - 1]), turns[|turns| - 1]);
    }
  }

  lemma OpensTidy(w: World)
    requires Opening(w)
    ensures Tidy(w)
  {
    forall p | 0 <= p < |w.plans|
      ensures Orderly(w.plans[p])
    {
      StartsOrderly(w.plans[p].row, w.plans[p].calls);
    }
    hide Orderly;
    forall i | 0 <= i < |w.jobs|
      ensures TidyJob(w, i)
    {
      assert FormedJob(w, w.jobs[i]);
      forall p | 0 <= p < |w.plans|
        ensures w.plans[p].calls[i].phase.Idle? && w.plans[p].calls[i].record.None?
      {
        assert w.plans[p].calls[i] in w.plans[p].calls;
      }
    }
  }

  // ---------------------------------------------------------------- what a session commits

  /** The call has written something that is not committed. */
  predicate Wrote(c: Call) {
    c.thesis.Some? || c.record.Some? || c.write.Some?
  }

  /** When a call can have written what. */
  predicate Drafted(c: Call) {
    && (c.thesis.Some? <==> c.writer.Monitor? && !Untouched(c))
    && (c.record.Some? ==> c.phase.Recorded? || (c.writer.Monitor? && !Untouched(c)))
    && (c.write.Some? ==> c.phase.Decided? || c.phase.Recorded?)
    && (c.phase.Closed? || c.phase.Voted? ==> c.writer.Monitor?)
  }

  lemma StepDrafts(s: State, step: Step, i: nat)
    requires i < |s.calls| && Drafted(s.calls[i])
    ensures |Do(s, step).calls| == |s.calls| && Drafted(Do(s, step).calls[i])
  {
    hide Drafted, Do;
    StepLeavesOthers(s, step);
    if step.call == i { OwnDraft(s, step); }
  }

  lemma OwnDraft(s: State, step: Step)
    requires step.call < |s.calls| && Drafted(s.calls[step.call])
    ensures step.call < |Do(s, step).calls| && Drafted(Do(s, step).calls[step.call])
  {
    hide ManualWrite, TrackerWrite, Terminal, MayMove, Ends, Or;
  }

  ghost predicate AllDrafted(s: State) {
    forall i :: 0 <= i < |s.calls| ==> Drafted(s.calls[i])
  }

  /** There was nothing more to do on any plan a session has left behind. */
  ghost predicate LeftFinished(w: World, i: nat)
    requires Formed(w) && i < |w.jobs|
  {
    forall k :: 0 <= k < w.jobs[i].at ==> Finished(Part(w, i, k))
  }

  ghost predicate Settled(w: World) {
    && Formed(w) && (forall p :: 0 <= p < |w.plans| ==> AllDrafted(w.plans[p]))
    && forall i :: 0 <= i < |w.jobs| ==> LeftFinished(w, i)
  }

  /** A session goes on to its next plan exactly when the rows of statistics are moved, and all it has written on this
    plan is ready to commit, or it has written nothing; a manual transition that has the lock decides first. */
  lemma LeavesExactly(w: World, i: nat)
    requires Settled(w) && Current(w, i).Some?
    ensures var c := Part(w, i, w.jobs[i].at);
            Advance(w, Next(i)).jobs[i].at == w.jobs[i].at + 1
            <==> !Pending(w, i) && (Committing(c) || (!Wrote(c) && !(c.writer.Manual? && c.phase.Locked?)))
  {
    assert FormedJob(w, w.jobs[i]);
    assert AllDrafted(w.plans[Current(w, i).value]);
    hide Pending, On, Formed;
    FinishedExactly(Part(w, i, w.jobs[i].at));
  }

  lemma FinishedExactly(c: Call)
    requires Drafted(c)
    ensures Finished(c) <==> Committing(c) || (!Wrote(c) && !(c.writer.Manual? && c.phase.Locked?))
  {
  }

  lemma PlansStayDrafted(w: World, turn: Turn)
    requires Settled(w)
    ensures var v := Advance(w, turn); forall p :: 0 <= p < |v.plans| ==> AllDrafted(v.plans[p])
  {
    hide Drafted, Do, On, Formed;
    var v := Advance(w, turn);
    forall p, i | 0 <= p < |w.plans| && 0 <= i < |v.plans[p].calls|
      ensures Drafted(v.plans[p].calls[i])
    {
      assert AllDrafted(w.plans[p]);
      var step := On(w, turn, p);
      if step.Some? {
        StepLeavesOthers(w.plans[p], step.value);
        StepDrafts(w.plans[p], step.value, i);
      }
    }
  }

  lemma EndsOver(s: State, i: nat, step: Step)
    requires i < |s.calls| && (step == Abort(i) || (step == Commit(i) && Committing(s.calls[i])))
    ensures i < |Do(s, step).calls| && Finished(Do(s, step).calls[i])
  {
    hide Ends, Or;
  }

  /** A turn reaches the plans a session has left behind only to end everything. */
  lemma BehindIsKept(w: World, turn: Turn, i: nat, k: nat)
    requires Formed(w) && i < |w.jobs| && k < w.jobs[i].at && Session(turn) == i && Finished(Part(w, i, k))
    ensures Finished(Advance(w, turn).plans[w.jobs[i].plans[k]].calls[i])
  {
    var p := w.jobs[i].plans[k];
    assert FormedJob(w, w.jobs[i]);
    hide Finished, Do, Committing, Pending, Raises;
    if On(w, turn, p).Some? {
      assert turn.CommitAll? || turn.AbortAll?;
      EndsOver(w.plans[p], i, On(w, turn, p).value);
    }
  }

  lemma TurnSettles(w: World, turn: Turn)
    requires Settled(w)
    ensures Settled(Advance(w, turn))
  {
    AdvanceForms(w, turn);
    PlansStayDrafted(w, turn);
    var v := Advance(w, turn);
    hide AllDrafted, On, JobAfter, BooksAfter, LeftFinished;
    forall i | 0 <= i < |v.jobs|
      ensures LeftFinished(v, i)
    {
      if i == Session(turn) {
        OwnLeftFinished(w, turn, i);
      } else {
        OthersLeftFinished(w, turn, i);
      }
    }
  }

  lemma OthersLeftFinished(w: World, turn: Turn, i: nat)
    requires Settled(w) && i < |w.jobs| && i != Session(turn) && Formed(Advance(w, turn))
    ensures LeftFinished(Advance(w, turn), i)
  {
    var v := Advance(w, turn);
    assert v.jobs[i] == w.jobs[i] && LeftFinished(w, i) && FormedJob(w, w.jobs[i]);
    hide On, Advance, Finished;
    forall k | 0 <= k < v.jobs[i].at
      ensures Finished(Part(v, i, k))
    {
      OtherParts(w, turn, i, w.jobs[i].plans[k]);
      assert Finished(Part(w, i, k));
    }
  }

  lemma OwnLeftFinished(w: World, turn: Turn, i: nat)
    requires Settled(w) && i < |w.jobs| && i == Session(turn) && Formed(Advance(w, turn))
    ensures LeftFinished(Advance(w, turn), i)
  {
    var v := Advance(w, turn);
    assert LeftFinished(w, i) && FormedJob(w, w.jobs[i]);
    forall k | 0 <= k < v.jobs[i].at
      ensures Finished(Part(v, i, k))
    {
      if turn.AbortAll? {
        EndsOver(w.plans[w.jobs[i].plans[k]], i, Abort(i));
      } else if k < w.jobs[i].at {
        assert Finished(Part(w, i, k));
        BehindIsKept(w, turn, i, k);
      } else {
        assert turn.Next?;
      }
    }
  }

  lemma {:induction false} RunsAreSettled(w: World, turns: seq<Turn>)
    requires Opening(w)
    ensures Settled(RunAll(w, turns))
  {
    hide Settled, Advance;
    if turns == [] {
      OpensSettled(w);
    } else {
      RunsAreSettled(w, turns[..|turns| - 1]);
      TurnSettles(RunAll(w, turns[..|turns| - 1]), turns[|turns| - 1]);
    }
  }

  lemma OpensSettled(w: World)
    requires Opening(w)
    ensures Settled(w)
  {
    forall p, i | 0 <= p < |w.plans| && 0 <= i < |w.plans[p].calls|
      ensures Drafted(w.plans[p].calls[i])
    {
      assert w.plans[p].calls[i] in w.plans[p].calls;
    }
    hide Drafted;
    assert forall p :: 0 <= p < |w.plans| ==> AllDrafted(w.plans[p]);
  }

  /** The two have the same committed: plan, history, hook calls, thesis and outcome. */
  predicate SameStored(s: State, t: State) {
    s.row == t.row && s.history == t.history && s.hooks == t.hooks && s.thesis == t.thesis && s.recorded == t.recorded
  }

  /** In every run, a session that has come to the end of its list commits everything it has written, on every plan at
    once; and nothing else that any session does changes what is committed. */
  lemma CommitsEverything(w: World, turns: seq<Turn>, turn: Turn, p: nat)
    requires Opening(w) && p < |w.plans|
    ensures var v := RunAll(w, turns);
            var i := Session(turn);
            SameStored(Advance(v, turn).plans[p],
                       if turn.CommitAll? && i < |v.jobs| && Current(v, i).None? then Applied(v.plans[p], v.plans[p].calls[i])
                       else v.plans[p])
  {
    var v := RunAll(w, turns);
    RunsAreTidy(w, turns);
    RunsAreSettled(w, turns);
    hide Tidy, TidyJob, Settled, Do, SameStored, Opening, RunAll, Applied, Committing;
    var step := On(v, turn, p);
    if turn.CommitAll? && step.Some? {
      CommitsOn(v, turn.call, p);
    } else if step.Some? {
      StoresNothing(v.plans[p], step.value);
    }
    Unchanged(v.plans[p]);
  }

  lemma Unchanged(s: State)
    ensures SameStored(s, s)
  {
  }

  lemma StoresNothing(s: State, step: Step)
    requires !step.Commit?
    ensures SameStored(Do(s, step), s)
  {
    hide ManualWrite, TrackerWrite, Terminal, MayMove, Ends;
  }

  lemma CommitsOn(v: World, i: nat, p: nat)
    requires Tidy(v) && Settled(v) && p < |v.plans| && i < |v.jobs| && Current(v, i).None?
    ensures var c := v.plans[p].calls[i];
            SameStored(Do(v.plans[p], if Committing(c) then Commit(i) else Abort(i)), Applied(v.plans[p], c))
  {
    var job := v.jobs[i];
    assert FormedJob(v, job) && TidyJob(v, i) && LeftFinished(v, i);
    assert AllDrafted(v.plans[p]);
    var c := v.plans[p].calls[i];
    if p in job.plans {
      var k :| 0 <= k < |job.plans| && job.plans[k] == p;
      assert c == Part(v, i, k);
      assert Finished(c);
    }
    hide Tidy, TidyJob, Settled, LeftFinished, Formed, Do, SameStored;
    CommitsCall(v.plans[p], i, c);
  }

  lemma CommitsCall(s: State, i: nat, c: Call)
    requires i < |s.calls| && c == s.calls[i] && Drafted(c) && Finished(c)
    ensures SameStored(Do(s, if Committing(c) then Commit(i) else Abort(i)), Applied(s, c))
  {
    hide Drafted, Finished;
    FinishedExactly(c);
  }

  // ---------------------------------------------------------------- sessions that wait for each other

  /** Session `i` cannot go on before session `j` ends: it wants a lock that `j` holds. */
  predicate Waits(w: World, i: nat, j: nat) {
    && Current(w, i).Some? && i != j && j < |w.jobs| && Covers(w, i, Current(w, i).value)
    && if Pending(w, i) then NextBook(w, i) in w.books && w.books[NextBook(w, i)] == j
       else WaitsFor(w.plans[Current(w, i).value], i, j)
  }

  /** What stands in the way is something `j` did on a plan it has left behind and not committed. */
  ghost predicate HeldBack(w: World, i: nat, j: nat)
    requires Formed(w) && i < |w.jobs| && j < |w.jobs|
  {
    && Current(w, i).Some?
    && var p := Current(w, i).value;
       if Pending(w, i) then MovedBefore(w, j, NextBook(w, i))
       else p in w.jobs[j].plans[..w.jobs[j].at] && InTheWay(w.plans[p], w.plans[p].calls[i], w.plans[p].calls[j])
  }

  /** What stands in the way is something `j` did on the plan it is at. */
  predicate Beside(w: World, i: nat, j: nat)
    requires Formed(w) && i < |w.jobs| && j < |w.jobs|
  {
    && Current(w, i).Some?
    && var p := Current(w, i).value;
       if Pending(w, i) then MovedHere(w, j, NextBook(w, i))
       else Current(w, j) == Some(p) && InTheWay(w.plans[p], w.plans[p].calls[i], w.plans[p].calls[j])
  }

  lemma UntouchedInNobodysWay(s: State, c: Call, other: Call)
    requires Shaped(s, other) && Untouched(other)
    ensures !InTheWay(s, c, other)
  {
  }

  /** Who waits for whom, read off the lists, how far each session has come on them, and what it did there. */
  lemma WaitsExactly(w: World, i: nat, j: nat)
    requires Tidy(w) && i < |w.jobs| && j < |w.jobs| && i != j
    ensures Waits(w, i, j) <==> HeldBack(w, i, j) || Beside(w, i, j)
  {
    if Current(w, i).Some? {
      assert TidyJob(w, j) && FormedJob(w, w.jobs[i]) && FormedJob(w, w.jobs[j]);
      var p := Current(w, i).value;
      hide MovedBefore, MovedHere;
      if !Pending(w, i) {
        assert Orderly(w.plans[p]) && Shaped(w.plans[p], w.plans[p].calls[j]);
        WaitsInTheWay(w.plans[p], i, j);
        if InTheWay(w.plans[p], w.plans[p].calls[i], w.plans[p].calls[j]) { InTheWayIsReached(w, j, p, w.plans[p].calls[i]); }
      }
    }
  }

  /** Only what a session has come to can stand in anyone's way. */
  lemma InTheWayIsReached(w: World, j: nat, p: nat, c: Call)
    requires Tidy(w) && j < |w.jobs| && p < |w.plans| && InTheWay(w.plans[p], c, w.plans[p].calls[j])
    ensures p in w.jobs[j].plans[..w.jobs[j].at] || Current(w, j) == Some(p)
  {
    var job := w.jobs[j];
    assert TidyJob(w, j) && FormedJob(w, job);
    assert Orderly(w.plans[p]) && Shaped(w.plans[p], w.plans[p].calls[j]);
    if Untouched(w.plans[p].calls[j]) { UntouchedInNobodysWay(w.plans[p], c, w.plans[p].calls[j]); }
    hide InTheWay, Orderly, Shaped;
    assert p in job.plans;
    var k :| 0 <= k < |job.plans| && job.plans[k] == p;
    assert Part(w, j, k) == w.plans[p].calls[j];
    if k < job.at { assert job.plans[..job.at][k] == p; }
  }

  /** At one plan, `i` has voted and wants the plan, which `j` has locked and ended, wanting to vote. */
  predicate Meeting(w: World, i: nat, j: nat) {
    Current(w, j) == Current(w, i) && Voter(w, i) && Ender(w, j) && w.plans[Current(w, i).value].calls[i].record.Some?
  }

  /** Two sessions at one plan in the way of each other. */
  predicate Pair(w: World, i: nat, j: nat) {
    Meeting(w, i, j) || Meeting(w, j, i)
  }

  // ---------------------------------------------------------------- circles

  /** A wait for something the other did on the plan it is at now. */
  ghost predicate Edge(w: World, i: nat, j: nat) {
    Formed(w) && i < |w.jobs| && j < |w.jobs| && Waits(w, i, j) && !HeldBack(w, i, j)
  }

  /** A monitor that has voted and moved its rows, and wants the plan. */
  predicate Voter(w: World, i: nat) {
    Current(w, i).Some? && Covers(w, i, Current(w, i).value) && !Pending(w, i)
    && var c := w.plans[Current(w, i).value].calls[i]; c.writer.Monitor? && c.phase.Voted?
  }

  /** A writer that has ended the plan, and wants to vote. */
  predicate Ender(w: World, i: nat) {
    Current(w, i).Some? && Covers(w, i, Current(w, i).value) && !Pending(w, i)
    && var c := w.plans[Current(w, i).value].calls[i]; !c.writer.Monitor? && c.phase.Decided? && Ends(c.write)
  }

  /** Rows of statistics are moved in one order: of a bucket, of a confidence, of a symbol. */
  predicate RisingMoves(w: World) {
    forall p :: 0 <= p < |w.moves| ==> forall a, b :: 0 <= a < b < |w.moves[p]| ==> w.moves[p][a] < w.moves[p][b]
  }

  lemma EdgeFacts(w: World, i: nat, j: nat)
    requires Tidy(w) && Edge(w, i, j)
    ensures i != j && Beside(w, i, j)
    ensures Current(w, i).Some? && Covers(w, i, Current(w, i).value) && Orderly(w.plans[Current(w, i).value])
    ensures Shaped(w.plans[Current(w, i).value], w.plans[Current(w, i).value].calls[i])
    ensures OwnedBy(w.plans[Current(w, i).value], i, w.plans[Current(w, i).value].calls[i])
    ensures Covers(w, j, Current(w, i).value)
    ensures Shaped(w.plans[Current(w, i).value], w.plans[Current(w, i).value].calls[j])
    ensures OwnedBy(w.plans[Current(w, i).value], j, w.plans[Current(w, i).value].calls[j])
    ensures w.jobs[j].counted > 0 ==> Current(w, j).Some? && w.jobs[j].at < |w.jobs[j].plans| && Part(w, j, w.jobs[j].at).record.Some?
  {
    assert FormedJob(w, w.jobs[i]) && FormedJob(w, w.jobs[j]);
    WaitsExactly(w, i, j);
    assert TidyJob(w, j);
    hide Beside, HeldBack, InTheWay, Waits;
  }

  /** Whoever is waited for, and waits, at the plan it is at, is neither only reading nor only just closing. */
  lemma MidChain(w: World, h: nat, i: nat, j: nat, k: nat)
    requires Tidy(w) && Edge(w, h, i) && Edge(w, i, j) && Edge(w, j, k)
    ensures Pending(w, j) || Voter(w, j) || Ender(w, j)
  {
    EdgeFacts(w, h, i);
    EdgeFacts(w, i, j);
    EdgeFacts(w, j, k);
    hide Tidy, Edge, Orderly, HeldBack, Ends;
    assert w.plans[Current(w, j).value].calls[j] == Part(w, j, w.jobs[j].at);
    hide Formed;
  }

  predicate Busy(w: World, i: nat) {
    Pending(w, i) || Voter(w, i) || Ender(w, i)
  }

  /** A voter waits for an ender, and the ender for that voter. */
  lemma AfterVoter(w: World, i: nat, j: nat, k: nat)
    requires Tidy(w) && Voter(w, i) && Busy(w, j) && Edge(w, i, j) && Edge(w, j, k)
    ensures Ender(w, j) && Pair(w, i, j) && k == i
  {
    EdgeFacts(w, i, j);
    EdgeFacts(w, j, k);
    hide Tidy, Edge, Orderly, HeldBack, Ends, Formed;
  }

  lemma AfterEnder(w: World, i: nat, j: nat)
    requires Tidy(w) && Ender(w, i) && Busy(w, j) && Edge(w, i, j)
    ensures Voter(w, j) || Pending(w, j)
  {
    EdgeFacts(w, i, j);
    hide Tidy, Edge, Orderly, HeldBack, Ends, Formed;
  }

  /** Whoever waits for a row of statistics waits for a voter, or for someone who waits for a later row. */
  lemma AfterPending(w: World, i: nat, j: nat)
    requires Tidy(w) && RisingMoves(w) && Pending(w, i) && Busy(w, j) && Edge(w, i, j)
    ensures Voter(w, j) || (Pending(w, j) && NextBook(w, i) < NextBook(w, j))
  {
    EdgeFacts(w, i, j);
    hide Tidy, Edge, Orderly, HeldBack, Ends, Shaped, OwnedBy;
    assert w.plans[Current(w, j).value].calls[j] == Part(w, j, w.jobs[j].at);
    var b := NextBook(w, i);
    var row := w.moves[Current(w, j).value];
    var a :| 0 <= a < w.jobs[j].counted && row[a] == b;
    hide Formed;
  }

  /** Sessions that wait for each other in a circle; the last is the first again. */
  ghost predicate Circle(w: World, ids: seq<nat>) {
    |ids| >= 2 && ids[0] == ids[|ids| - 1] && forall k :: 0 < k < |ids| ==> Waits(w, ids[k - 1], ids[k])
  }

  /** Nobody waits for two sessions. */
  lemma WaitsForOne(w: World, i: nat, j: nat, k: nat)
    requires Edge(w, i, j) && Edge(w, i, k)
    ensures j == k
  {
    hide HeldBack, Formed;
  }

  /** Around and around. */
  function Walk(ids: seq<nat>, k: nat): nat
    requires |ids| >= 2
  {
    if k < |ids| then ids[k] else Walk(ids, k - (|ids| - 1))
  }

  lemma WalkComesBack(ids: seq<nat>, k: nat)
    requires |ids| >= 2 && ids[0] == ids[|ids| - 1]
    ensures Walk(ids, k + |ids| - 1) == Walk(ids, k)
  {
  }

  /** Sessions that wait for each other in a circle, each for what the next did at the plan it is at. */
  ghost predicate Ring(w: World, ids: seq<nat>) {
    |ids| > 2 && ids[0] == ids[|ids| - 1] && forall k :: 0 < k < |ids| ==> Edge(w, ids[k - 1], ids[k])
  }

  lemma WalkEdge(w: World, ids: seq<nat>, k: nat)
    requires Ring(w, ids)
    ensures Edge(w, Walk(ids, k), Walk(ids, k + 1))
    decreases k
  {
    hide Edge;
    if k + 1 < |ids| {
      assert Edge(w, ids[k + 1 - 1], ids[k + 1]);
    } else {
      WalkEdge(w, ids, k - (|ids| - 1));
      if k + 1 == |ids| {
        assert Walk(ids, 1) == ids[1];
      }
    }
  }

  lemma WalkBusy(w: World, ids: seq<nat>, k: nat)
    requires Tidy(w) && Ring(w, ids)
    ensures Busy(w, Walk(ids, k))
  {
    hide Tidy, Edge, Busy, Walk, Ring;
    assert |ids| > 2 && ids[0] == ids[|ids| - 1] by { RingIs(w, ids); }
    var n := k + |ids| - 1;
    WalkComesBack(ids, k);
    WalkEdge(w, ids, n - 2);
    WalkEdge(w, ids, n - 1);
    WalkEdge(w, ids, n);
    BusyThere(w, Walk(ids, n - 2), Walk(ids, n - 1), Walk(ids, n), Walk(ids, n + 1));
  }

  lemma RingIs(w: World, ids: seq<nat>)
    requires Ring(w, ids)
    ensures |ids| > 2 && ids[0] == ids[|ids| - 1]
  {
  }

  lemma BusyThere(w: World, h: nat, i: nat, j: nat, k: nat)
    requires Tidy(w) && Edge(w, h, i) && Edge(w, i, j) && Edge(w, j, k)
    ensures Busy(w, j)
  {
    hide Tidy, Edge, Pending, Voter, Ender;
    MidChain(w, h, i, j, k);
  }

  /** From a voter on, the walk is one pair over and over. */
  lemma {:induction false} VoterPairs(w: World, ids: seq<nat>, m: nat, k: nat)
    requires Tidy(w) && Ring(w, ids) && m <= k && Voter(w, Walk(ids, m))
    ensures (Voter(w, Walk(ids, k)) && Ender(w, Walk(ids, k + 1))) || (Ender(w, Walk(ids, k)) && Voter(w, Walk(ids, k + 1)))
    ensures Walk(ids, k + 2) == Walk(ids, k) && Pair(w, Walk(ids, k), Walk(ids, k + 1))
    decreases k
  {
    hide Tidy, Edge, Voter, Ender, Busy, Walk, Ring, Pair;
    RingIs(w, ids);
    WalkEdge(w, ids, k);
    WalkEdge(w, ids, k + 1);
    WalkBusy(w, ids, k + 1);
    if k == m {
      AfterVoter(w, Walk(ids, k), Walk(ids, k + 1), Walk(ids, k + 2));
    } else {
      VoterPairs(w, ids, m, k - 1);
      if Voter(w, Walk(ids, k)) {
        AfterVoter(w, Walk(ids, k), Walk(ids, k + 1), Walk(ids, k + 2));
      } else {
        WalkEdge(w, ids, k - 1);
        WaitsForOne(w, Walk(ids, k + 1), Walk(ids, k), Walk(ids, k + 2));
        PairBothWays(w, Walk(ids, k - 1), Walk(ids, k));
      }
    }
  }

  lemma PairBothWays(w: World, i: nat, j: nat)
    requires Pair(w, i, j)
    ensures Pair(w, j, i)
  {
  }

  /** Without a voter the rows of statistics that are waited for would rise all the way around. */
  lemma {:induction false} RowsRise(w: World, ids: seq<nat>, k: nat)
    requires Tidy(w) && RisingMoves(w) && Ring(w, ids) && 0 < k
    requires forall l: nat :: l <= k ==> !Voter(w, Walk(ids, l))
    ensures Pending(w, Walk(ids, k))
    ensures 1 < k ==> Pending(w, Walk(ids, 1)) && NextBook(w, Walk(ids, 1)) < NextBook(w, Walk(ids, k))
    decreases k
  {
    hide Tidy, Edge, Voter, Ender, Pending, NextBook, Walk, Ring, RisingMoves;
    RingIs(w, ids);
    WalkEdge(w, ids, k - 1);
    WalkBusy(w, ids, k - 1);
    WalkBusy(w, ids, k);
    if k == 1 {
      if Ender(w, Walk(ids, 0)) {
        AfterEnder(w, Walk(ids, 0), Walk(ids, 1));
      } else {
        AfterPending(w, Walk(ids, 0), Walk(ids, 1));
      }
    } else {
      RowsRise(w, ids, k - 1);
      AfterPending(w, Walk(ids, k - 1), Walk(ids, k));
    }
  }

  lemma SomeVoter(w: World, ids: seq<nat>) returns (m: nat)
    requires Tidy(w) && RisingMoves(w) && Ring(w, ids)
    ensures m <= |ids| && Voter(w, Walk(ids, m))
  {
    hide Tidy, Ring, Voter, Pending, NextBook, Walk, RisingMoves;
    RingIs(w, ids);
    if forall l: nat :: l <= |ids| ==> !Voter(w, Walk(ids, l)) {
      RowsRise(w, ids, |ids|);
      WalkComesBack(ids, 1);
      assert false;
    }
    m :| m <= |ids| && Voter(w, Walk(ids, m));
  }

  lemma RingsArePairs(w: World, ids: seq<nat>, k: nat)
    requires Tidy(w) && RisingMoves(w) && Ring(w, ids) && 0 < k < |ids|
    ensures Pair(w, ids[k - 1], ids[k]) && (k > 1 ==> ids[k] == ids[k - 2])
  {
    hide Tidy, Ring, Voter, Ender, Pair, RisingMoves, Walk;
    RingIs(w, ids);
    var m := SomeVoter(w, ids);
    var n := |ids| - 1;
    forall l: nat | l <= n
      ensures Walk(ids, l + 3 * n) == ids[l]
    {
      assert Walk(ids, l) == ids[l] by { WalkStarts(ids, l); }
      WalkComesBack(ids, l);
      WalkComesBack(ids, l + n);
      WalkComesBack(ids, l + 2 * n);
    }
    VoterPairs(w, ids, m, k - 1 + 3 * n);
    if k > 1 { VoterPairs(w, ids, m, k - 2 + 3 * n); }
  }

  lemma WalkStarts(ids: seq<nat>, k: nat)
    requires k < |ids| && |ids| >= 2
    ensures Walk(ids, k) == ids[k]
  {
  }

  /** Somewhere in the circle someone waits for what another did on a plan that one has left behind. */
  ghost predicate Backwards(w: World, ids: seq<nat>)
    requires Formed(w)
  {
    exists k :: 0 < k < |ids| && ids[k - 1] < |w.jobs| && ids[k] < |w.jobs| && HeldBack(w, ids[k - 1], ids[k])
  }

  /** A circle of sessions that wait for each other is one pair in the way of each other at one plan, over and over,
    unless someone in it waits for what another did on a plan that one has left behind: without lists of several plans
    there are no other circles, however many sessions, plans and rows of statistics there are. */
  lemma CirclesNeedBatches(w: World, ids: seq<nat>)
    requires Tidy(w) && RisingMoves(w) && Circle(w, ids) && !Backwards(w, ids)
    ensures forall k :: 0 < k < |ids| ==> Pair(w, ids[k - 1], ids[k]) && (k > 1 ==> ids[k] == ids[k - 2])
  {
    assert Formed(w);
    hide Waits, HeldBack, Tidy, RisingMoves, Pair, Formed;
    assert |ids| > 2 by { NoSelfWait(w, ids); }
    assert Ring(w, ids) by { CircleIsRing(w, ids); }
    hide Ring, Circle, Backwards;
    forall k | 0 < k < |ids|
      ensures Pair(w, ids[k - 1], ids[k]) && (k > 1 ==> ids[k] == ids[k - 2])
    {
      RingsArePairs(w, ids, k);
    }
  }

  lemma CircleIsRing(w: World, ids: seq<nat>)
    requires Formed(w) && Circle(w, ids) && !Backwards(w, ids) && |ids| > 2
    ensures Ring(w, ids)
  {
    hide WaitsFor, Pending, NextBook, HeldBack, Formed;
    forall k | 0 < k < |ids|
      ensures Edge(w, ids[k - 1], ids[k])
    {
      assert Waits(w, ids[k - 1], ids[k]);
    }
  }

  lemma NoSelfWait(w: World, ids: seq<nat>)
    requires Circle(w, ids)
    ensures |ids| > 2
  {
    assert Waits(w, ids[1 - 1], ids[1]);
  }

  /** Two sessions wait for each other exactly when they are such a pair, or one waits for what the other did on a plan
    that one has left behind while the other waits for anything of the first. */
  lemma DeadlockExactly(w: World, i: nat, j: nat)
    requires Tidy(w) && RisingMoves(w) && i < |w.jobs| && j < |w.jobs| && i != j
    ensures Waits(w, i, j) && Waits(w, j, i)
       <==> || Pair(w, i, j)
            || (HeldBack(w, i, j) && (HeldBack(w, j, i) || Beside(w, j, i)))
            || (Beside(w, i, j) && HeldBack(w, j, i))
  {
    WaitsExactly(w, i, j);
    WaitsExactly(w, j, i);
    if Waits(w, i, j) && Waits(w, j, i) && !HeldBack(w, i, j) && !HeldBack(w, j, i) {
      hide HeldBack, Tidy, RisingMoves, Waits, Pair, Beside;
      var ids := [i, j, i];
      assert Circle(w, ids);
      assert !Backwards(w, ids);
      CirclesNeedBatches(w, ids);
      assert Pair(w, ids[1 - 1], ids[1]);
    }
    if Pair(w, i, j) { PairWaits(w, i, j); }
  }

  lemma PairWaits(w: World, i: nat, j: nat)
    requires Tidy(w) && i < |w.jobs| && j < |w.jobs| && Pair(w, i, j)
    ensures Waits(w, i, j) && Waits(w, j, i)
  {
    if Meeting(w, i, j) { MeetingWaits(w, i, j); } else { MeetingWaits(w, j, i); }
  }

  lemma MeetingWaits(w: World, i: nat, j: nat)
    requires Tidy(w) && i < |w.jobs| && j < |w.jobs| && Meeting(w, i, j)
    ensures Waits(w, i, j) && Waits(w, j, i)
  {
    var s := w.plans[Current(w, i).value];
    assert Orderly(s) && OwnedBy(s, i, s.calls[i]) && OwnedBy(s, j, s.calls[j]) && Shaped(s, s.calls[i]);
    hide Tidy, Orderly, Ends;
  }

  // ---------------------------------------------------------------- one order for all

  /** Every session takes its plans in one common order. */
  predicate InOrder(w: World) {
    forall i :: 0 <= i < |w.jobs| ==> forall k, l :: 0 <= k < l < |w.jobs[i].plans| ==> w.jobs[i].plans[k] < w.jobs[i].plans[l]
  }

  lemma WaitsUpwards(w: World, i: nat, j: nat)
    requires Tidy(w) && InOrder(w) && i < |w.jobs| && j < |w.jobs| && Waits(w, i, j) && !Pending(w, i)
    requires Current(w, i).Some? && Current(w, j).Some?
    ensures Current(w, i).value <= Current(w, j).value
    ensures HeldBack(w, i, j) ==> Current(w, i).value < Current(w, j).value
  {
    WaitsExactly(w, i, j);
    hide Tidy, Waits, InTheWay;
    if HeldBack(w, i, j) {
      var p := Current(w, i).value;
      var k :| 0 <= k < w.jobs[j].at && w.jobs[j].plans[..w.jobs[j].at][k] == p;
      assert w.jobs[j].plans[k] < w.jobs[j].plans[w.jobs[j].at];
    }
  }

  lemma {:induction false} CircleClimbs(w: World, ids: seq<nat>, a: nat, b: nat)
    requires Tidy(w) && InOrder(w) && Circle(w, ids) && (forall i <- ids :: !Pending(w, i)) && a <= b < |ids|
    ensures Current(w, ids[a]).Some? && Current(w, ids[b]).Some? && Current(w, ids[a]).value <= Current(w, ids[b]).value
    decreases b
  {
    hide Tidy, InOrder, Pending, WaitsFor, NextBook;
    CircleIsCurrent(w, ids, a);
    CircleIsCurrent(w, ids, b);
    if a < b {
      CircleClimbs(w, ids, a, b - 1);
      assert Waits(w, ids[b - 1], ids[b]) && ids[b - 1] in ids;
      WaitsUpwards(w, ids[b - 1], ids[b]);
    }
  }

  lemma CircleIsCurrent(w: World, ids: seq<nat>, a: nat)
    requires Circle(w, ids) && a < |ids|
    ensures Current(w, ids[a]).Some?
  {
    if a + 1 < |ids| {
      assert Waits(w, ids[a + 1 - 1], ids[a + 1]);
    } else {
      assert Waits(w, ids[1 - 1], ids[1]);
    }
  }

  /** With one order of plans for every list, the only circles are pairs at one plan and those in which someone waits for
    a row of statistics. */
  lemma OneOrderLeavesPairs(w: World, ids: seq<nat>)
    requires Tidy(w) && RisingMoves(w) && InOrder(w) && Circle(w, ids) && forall i <- ids :: !Pending(w, i)
    ensures forall k :: 0 < k < |ids| ==> Pair(w, ids[k - 1], ids[k]) && (k > 1 ==> ids[k] == ids[k - 2])
  {
    hide Tidy, InOrder, RisingMoves, Pending, Circle, HeldBack, Current, Pair;
    assert Formed(w) by { TidyIsFormed(w); }
    if Backwards(w, ids) {
      var k :| 0 < k < |ids| && ids[k - 1] < |w.jobs| && ids[k] < |w.jobs| && HeldBack(w, ids[k - 1], ids[k]);
      CircleClimbs(w, ids, 0, k - 1);
      CircleClimbs(w, ids, k, |ids| - 1);
      assert Waits(w, ids[k - 1], ids[k]) && ids[0] == ids[|ids| - 1] by { CircleHas(w, ids, k); }
      assert ids[k - 1] in ids;
      WaitsUpwards(w, ids[k - 1], ids[k]);
      assert false;
    }
    CirclesNeedBatches(w, ids);
  }

  lemma TidyIsFormed(w: World)
    requires Tidy(w)
    ensures Formed(w)
  {
  }

  lemma CircleHas(w: World, ids: seq<nat>, k: nat)
    requires Circle(w, ids) && 0 < k < |ids|
    ensures Waits(w, ids[k - 1], ids[k]) && ids[0] == ids[|ids| - 1]
  {
  }

  // ---------------------------------------------------------------- circles of every length

  lemma ReadTurn(w: World, i: nat, q: nat)
    requires Formed(w) && i < |w.jobs| && q in w.jobs[i].plans[w.jobs[i].at..]
    ensures q < |w.plans| && Advance(w, Read(i, q)) == w.(plans := w.plans[q := Do(w.plans[q], Load(i))])
  {
    assert FormedJob(w, w.jobs[i]);
    hide Do;
  }

  lemma ActTurn(w: World, step: Step, p: nat)
    requires Formed(w) && Current(w, step.call) == Some(p) && p < |w.plans| && Acting(step)
    requires !Pending(w, step.call) && !Raises(w.plans[p], step)
    ensures Advance(w, Act(step)) == w.(plans := w.plans[p := Do(w.plans[p], step)])
  {
    hide Do;
  }

  lemma NextTurn(w: World, i: nat)
    requires Formed(w) && Current(w, i).Some? && Current(w, i).value < |w.plans| && !Pending(w, i)
    requires Finished(w.plans[Current(w, i).value].calls[i])
    ensures Advance(w, Next(i)) == w.(jobs := w.jobs[i := w.jobs[i].(at := w.jobs[i].at + 1, counted := 0)])
  {
    hide Finished;
  }

  lemma CountTurn(w: World, i: nat)
    requires Formed(w) && Pending(w, i) && (NextBook(w, i) in w.books ==> w.books[NextBook(w, i)] == i)
    ensures Advance(w, Count(i))
         == w.(jobs := w.jobs[i := w.jobs[i].(counted := w.jobs[i].counted + 1)], books := w.books[NextBook(w, i) := i])
  {
  }

  lemma OneMoreTurn(w: World, turns: seq<Turn>, turn: Turn)
    requires Formed(w)
    ensures RunAll(w, turns + [turn]) == Advance(RunAll(w, turns), turn)
  {
    hide Advance, Formed;
    assert (turns + [turn])[..|turns|] == turns;
  }

  /** The plan after plan `i` in a circle of `n`. */
  function Following(n: nat, i: nat): nat {
    if i + 1 == n then 0 else i + 1
  }

  const SWEEPER := Fresh(Tracker, Expired)

  /** Session `i` covers plan `i` and the one after it. The first `k` sessions have locked their first plan, found nothing
    to do there, and gone on to the second. */
  function RoundCall(n: nat, k: nat, p: nat, i: nat): Call {
    if i < k && p == i then SWEEPER.(phase := Locked, seen := Ready)
    else if i < k && p == Following(n, i) then SWEEPER.(phase := Loaded, seen := Ready)
    else SWEEPER
  }

  function RoundPlan(n: nat, k: nat, p: nat): State {
    Start(Ready, seq(n, i requires 0 <= i < n => RoundCall(n, k, p, i))).(planLock := if p < k then Some(p) else None)
  }

  function RoundWorld(n: nat, k: nat): (w: World)
    requires n >= 2
    ensures Formed(w)
  {
    var w := World(seq(n, p requires 0 <= p < n => RoundPlan(n, k, p)),
                   seq(n, i requires 0 <= i < n => Job([i, Following(n, i)], if i < k then 1 else 0, 0)),
                   seq(n, p => []), map[]);
    assert forall i :: 0 <= i < n ==> FormedJob(w, w.jobs[i]);
    w
  }

  function RoundTurns(n: nat, k: nat): seq<Turn> {
    if k == 0 then []
    else RoundTurns(n, k - 1) + [Read(k - 1, k - 1)] + [Read(k - 1, Following(n, k - 1))] + [Act(Lock(k - 1))] + [Next(k - 1)]
  }

  lemma RoundOpens(n: nat)
    requires n >= 2
    ensures Opening(RoundWorld(n, 0))
  {
  }

  lemma SweeperLoads(s: State, i: nat)
    requires i < |s.calls| && s.calls[i] == SWEEPER && s.row == Ready
    ensures Do(s, Load(i)) == With(s, i, SWEEPER.(phase := Loaded, seen := Ready))
  {
  }

  lemma SweeperLocks(s: State, i: nat)
    requires i < |s.calls| && s.calls[i] == SWEEPER.(phase := Loaded, seen := Ready) && s.planLock.None?
    ensures Do(s, Lock(i)) == With(s, i, SWEEPER.(phase := Locked, seen := Ready)).(planLock := Some(i))
  {
  }

  /** One session's round: it reads its two plans, locks the first, and goes on to the second. */
  lemma RoundGoesOn(n: nat, k: nat, w: World)
    requires n >= 2 && k < n && w == RoundWorld(n, k)
    ensures var v1 := Advance(w, Read(k, k));
            && Formed(v1)
            && var v2 := Advance(v1, Read(k, Following(n, k)));
            && Formed(v2)
            && var v3 := Advance(v2, Act(Lock(k)));
            && Formed(v3) && Advance(v3, Next(k)) == RoundWorld(n, k + 1)
  {
    var q := Following(n, k);
    assert w.jobs[k] == Job([k, q], 0, 0) && q < n && w.moves[k] == [] && |w.plans| == |w.moves| == |w.jobs| == n;
    assert w.plans[k] == RoundPlan(n, k, k) && w.plans[q] == RoundPlan(n, k, q);
    assert w.plans[k].calls[k] == w.plans[q].calls[k] == SWEEPER && w.plans[k].planLock.None?;
    assert w.plans[k].row == w.plans[q].row == Ready && |w.plans[k].calls| == |w.plans[q].calls| == n;
    hide RoundWorld, RoundPlan, RoundCall;
    RoundOf(w, n, k, q);
    RoundDone(n, k, w, RoundEnd(w, k, q));
  }

  /** A session that has read two plans, locked the first and gone on to the second. */
  function RoundEnd(w: World, k: nat, q: nat): World
    requires k < |w.plans| && q < |w.plans| && k < |w.jobs| && k < |w.plans[k].calls| && k < |w.plans[q].calls|
  {
    var first := With(w.plans[k], k, SWEEPER.(phase := Locked, seen := Ready)).(planLock := Some(k));
    w.(plans := w.plans[k := first][q := With(w.plans[q], k, SWEEPER.(phase := Loaded, seen := Ready))],
       jobs := w.jobs[k := w.jobs[k].(at := 1)])
  }

  lemma RoundOf(w: World, n: nat, k: nat, q: nat)
    requires Formed(w) && |w.plans| == |w.moves| == |w.jobs| == n && k < n && q < n && k != q
    requires w.jobs[k] == Job([k, q], 0, 0) && w.moves[k] == []
    requires |w.plans[k].calls| == |w.plans[q].calls| == n && w.plans[k].row == w.plans[q].row == Ready
    requires w.plans[k].calls[k] == w.plans[q].calls[k] == SWEEPER && w.plans[k].planLock.None?
    ensures var v1 := Advance(w, Read(k, k));
            && Formed(v1)
            && var v2 := Advance(v1, Read(k, q));
            && Formed(v2)
            && var v3 := Advance(v2, Act(Lock(k)));
            && Formed(v3) && Advance(v3, Next(k)) == RoundEnd(w, k, q)
  {
    hide Do, Advance, Formed;
    assert w.jobs[k].plans[w.jobs[k].at..] == [k, q];
    var loaded, locked := SWEEPER.(phase := Loaded, seen := Ready), SWEEPER.(phase := Locked, seen := Ready);
    ReadTurn(w, k, k);
    AdvanceForms(w, Read(k, k));
    SweeperLoads(w.plans[k], k);
    var v1 := w.(plans := w.plans[k := With(w.plans[k], k, loaded)]);
    ReadTurn(v1, k, q);
    AdvanceForms(v1, Read(k, q));
    SweeperLoads(v1.plans[q], k);
    var v2 := v1.(plans := v1.plans[q := With(w.plans[q], k, loaded)]);
    ActTurn(v2, Lock(k), k);
    AdvanceForms(v2, Act(Lock(k)));
    SweeperLocks(v2.plans[k], k);
    var first := With(w.plans[k], k, locked).(planLock := Some(k));
    assert With(v2.plans[k], k, locked).(planLock := Some(k)) == first;
    var v3 := v2.(plans := v2.plans[k := first]);
    NextTurn(v3, k);
    assert v3.plans == w.plans[k := first][q := With(w.plans[q], k, loaded)];
  }

  lemma RoundDone(n: nat, k: nat, w: World, v: World)
    requires n >= 2 && k < n && w == RoundWorld(n, k)
    requires v == RoundEnd(w, k, Following(n, k))
    ensures v == RoundWorld(n, k + 1)
  {
    var u := RoundWorld(n, k + 1);
    hide RoundPlan, RoundEnd;
    forall p | 0 <= p < n
      ensures v.plans[p] == u.plans[p]
    {
      RoundPlanDone(n, k, p, w, v);
    }
    RoundJobsDone(n, k, w, v);
    assert v.plans == u.plans;
  }

  lemma RoundJobsDone(n: nat, k: nat, w: World, v: World)
    requires n >= 2 && k < n && w == RoundWorld(n, k) && v == RoundEnd(w, k, Following(n, k))
    ensures v.jobs == RoundWorld(n, k + 1).jobs && |v.plans| == n
    ensures v.moves == RoundWorld(n, k + 1).moves && v.books == RoundWorld(n, k + 1).books
  {
    hide RoundPlan, RoundCall;
  }

  lemma RoundPlanDone(n: nat, k: nat, p: nat, w: World, v: World)
    requires n >= 2 && k < n && p < n && w == RoundWorld(n, k) && v == RoundEnd(w, k, Following(n, k))
    ensures |v.plans| == n && v.plans[p] == RoundPlan(n, k + 1, p)
  {
    var s, t := w.plans[p], RoundPlan(n, k + 1, p);
    assert s == RoundPlan(n, k, p);
    forall i | 0 <= i < n
      ensures v.plans[p].calls[i] == t.calls[i]
    {
    }
    assert v.plans[p].calls == t.calls;
  }

  lemma {:induction false} RoundRuns(n: nat, k: nat)
    requires n >= 2 && k <= n
    ensures RunAll(RoundWorld(n, 0), RoundTurns(n, k)) == RoundWorld(n, k)
  {
    hide Advance, RoundWorld, RunAll;
    var w := RoundWorld(n, 0);
    if k == 0 {
      NoTurns(w);
    } else {
      RoundRuns(n, k - 1);
      RoundGoesOn(n, k - 1, RoundWorld(n, k - 1));
      var t0 := RoundTurns(n, k - 1);
      var t1 := t0 + [Read(k - 1, k - 1)];
      var t2 := t1 + [Read(k - 1, Following(n, k - 1))];
      var t3 := t2 + [Act(Lock(k - 1))];
      OneMoreTurn(w, t0, Read(k - 1, k - 1));
      OneMoreTurn(w, t1, Read(k - 1, Following(n, k - 1)));
      OneMoreTurn(w, t2, Act(Lock(k - 1)));
      OneMoreTurn(w, t3, Next(k - 1));
    }
  }

  lemma NoTurns(w: World)
    requires Formed(w)
    ensures RunAll(w, []) == w
  {
  }

  /** For every number of sessions from two on, that many trackers over that many plans can come to wait for each other
    in one circle. */
  lemma CirclesOfEveryLength(n: nat)
    requires n >= 2
    ensures Opening(RoundWorld(n, 0))
    ensures var met := RunAll(RoundWorld(n, 0), RoundTurns(n, n));
            forall i :: 0 <= i < n ==> Waits(met, i, Following(n, i))
  {
    RoundOpens(n);
    RoundRuns(n, n);
    hide Waits, RoundWorld, RunAll, Opening;
    forall i | 0 <= i < n
      ensures Waits(RoundWorld(n, n), i, Following(n, i))
    {
      RoundWaits(n, i, RoundWorld(n, n));
    }
  }

  lemma RoundWaits(n: nat, i: nat, met: World)
    requires n >= 2 && i < n && met == RoundWorld(n, n)
    ensures Waits(met, i, Following(n, i))
  {
    var p := Following(n, i);
    assert met.jobs[i] == Job([i, p], 1, 0) && met.plans[p] == RoundPlan(n, n, p) && met.moves[p] == [];
    assert |met.plans| == |met.moves| == |met.jobs| == n && |met.plans[p].calls| == n;
    assert met.plans[p].calls[i] == SWEEPER.(phase := Loaded, seen := Ready) && met.plans[p].planLock == Some(p);
    hide RoundWorld, RoundPlan, RoundCall;
  }

  // ---------------------------------------------------------------- the two jobs meet

  ghost predicate Reachable(w: World, v: World) {
    Formed(w) && exists turns :: RunAll(w, turns) == v
  }

  lemma ReachesOn(w: World, v: World, turn: Turn)
    requires Reachable(w, v)
    ensures Formed(v) && Reachable(w, Advance(v, turn))
  {
    hide Formed, Advance;
    var turns :| RunAll(w, turns) == v;
    OneMoreTurn(w, turns, turn);
  }

  /** A plan with a monitor and a tracker on it. */
  function Shared(row: Status, m: Call, t: Call, plan: Option<nat>, thesis: Option<nat>, key: Option<nat>): (s: State)
    ensures |s.calls| == 2
  {
    Start(row, [m, t]).(planLock := plan, thesisLock := thesis, keyLock := key)
  }

  /** The monitor's job takes the plans in one order and the tracker's job in the other; the outcomes of both plans
    move one row of statistics. */
  function Both(first: State, second: State, at: nat, counted: nat, trackerAt: nat, books: map<nat, nat>): World {
    World([first, second], [Job([1, 0], at, counted), Job([0, 1], trackerAt, 0)], [[0], [0]], books)
  }

  lemma FormedPair(w: World)
    requires |w.plans| == |w.jobs| == |w.moves| == 2 && |w.plans[0].calls| == |w.plans[1].calls| == 2
    requires w.jobs[0].plans == [1, 0] && w.jobs[1].plans == [0, 1] && w.jobs[0].at <= 2 && w.jobs[1].at <= 2
    ensures Formed(w)
  {
    assert FormedJob(w, w.jobs[0]) && FormedJob(w, w.jobs[1]);
  }

  function MonitorCall(row: Status, end: Status, phase: Phase): Call {
    Fresh(Monitor, end).(phase := phase, seen := row)
  }

  function TrackerCall(row: Status, target: Status, phase: Phase): Call {
    Fresh(Tracker, target).(phase := phase, seen := row)
  }

  /** Every plan as it is before anyone has locked anything, both jobs having read it. */
  function Read2(row: Status, end: Status, target: Status): State {
    Shared(row, MonitorCall(row, end, Loaded), TrackerCall(row, target, Loaded), None, None, None)
  }

  function Fresh2(row: Status, end: Status, target: Status): State {
    Start(row, [Fresh(Monitor, end), Fresh(Tracker, target)])
  }

  lemma ReachesRead(w: World, v: World, i: nat, q: nat, s: State)
    requires Reachable(w, v) && i < |v.jobs| && q in v.jobs[i].plans[v.jobs[i].at..] && q < |v.plans|
    requires Do(v.plans[q], Load(i)) == s
    ensures Reachable(w, v.(plans := v.plans[q := s]))
  {
    hide Do, Advance, Reachable;
    ReachesOn(w, v, Read(i, q));
    ReadTurn(v, i, q);
  }

  lemma ReachesAct(w: World, v: World, step: Step, p: nat, s: State)
    requires Reachable(w, v) && Current(v, step.call) == Some(p) && p < |v.plans| && Acting(step)
    requires !Pending(v, step.call) && !Raises(v.plans[p], step) && Do(v.plans[p], step) == s
    ensures Reachable(w, v.(plans := v.plans[p := s]))
  {
    hide Do, Advance, Reachable, Pending, Raises;
    ReachesOn(w, v, Act(step));
    ActTurn(v, step, p);
  }

  lemma ReachesNext(w: World, v: World, i: nat)
    requires Reachable(w, v) && Current(v, i).Some? && Current(v, i).value < |v.plans| && !Pending(v, i)
    requires i < |v.plans[Current(v, i).value].calls| && Finished(v.plans[Current(v, i).value].calls[i])
    ensures Reachable(w, v.(jobs := v.jobs[i := v.jobs[i].(at := v.jobs[i].at + 1, counted := 0)]))
  {
    hide Advance, Reachable, Pending, Finished;
    ReachesOn(w, v, Next(i));
    NextTurn(v, i);
  }

  lemma ReachesCount(w: World, v: World, i: nat)
    requires Reachable(w, v) && Pending(v, i) && (NextBook(v, i) in v.books ==> v.books[NextBook(v, i)] == i)
    ensures Reachable(w, v.(jobs := v.jobs[i := v.jobs[i].(counted := v.jobs[i].counted + 1)],
                            books := v.books[NextBook(v, i) := i]))
  {
    hide Advance, Reachable;
    ReachesOn(w, v, Count(i));
    CountTurn(v, i);
  }

  // the plan each of them ends or locks, step by step

  lemma Closes(row: Status, end: Status, t: Call, plan: Option<nat>)
    ensures Do(Shared(row, MonitorCall(row, end, Loaded), t, plan, None, None), Close(0))
         == Shared(row, MonitorCall(row, end, Closed).(thesis := Some(end)), t, plan, Some(0), None)
  {
  }

  function VotedCall(row: Status, end: Status, phase: Phase): Call {
    MonitorCall(row, end, phase).(thesis := Some(end), record := Some(end))
  }

  lemma Votes(row: Status, end: Status, t: Call, plan: Option<nat>)
    ensures Do(Shared(row, MonitorCall(row, end, Closed).(thesis := Some(end)), t, plan, Some(0), None), Vote(0))
         == Shared(row, VotedCall(row, end, Voted), t, plan, Some(0), Some(0))
  {
  }

  lemma Ends2(row: Status, end: Status, t: Call)
    requires !Terminal(row) && Terminal(end) && MayMove(row, end)
    ensures Do(Shared(row, VotedCall(row, end, Voted), t, None, Some(0), Some(0)), Lock(0))
         == Shared(row, VotedCall(row, end, Locked), t, Some(0), Some(0), Some(0))
    ensures Do(Shared(row, VotedCall(row, end, Locked), t, Some(0), Some(0), Some(0)), Decide(0))
         == Shared(row, VotedCall(row, end, Decided).(write := Some(end)), t, Some(0), Some(0), Some(0))
    ensures Do(Shared(row, VotedCall(row, end, Decided).(write := Some(end)), t, Some(0), Some(0), Some(0)), Record(0))
         == Shared(row, VotedCall(row, end, Recorded).(write := Some(end)), t, Some(0), Some(0), Some(0))
  {
    hide Transitions, MayMove, Terminal;
  }

  lemma TrackerLocks(row: Status, target: Status, m: Call)
    ensures Do(Shared(row, m, TrackerCall(row, target, Loaded), None, None, None), Lock(1))
         == Shared(row, m, TrackerCall(row, target, Locked), Some(1), None, None)
  {
  }

  lemma Loads(row: Status, end: Status, target: Status)
    ensures Do(Fresh2(row, end, target), Load(0)) == Start(row, [MonitorCall(row, end, Loaded), Fresh(Tracker, target)])
    ensures Do(Start(row, [MonitorCall(row, end, Loaded), Fresh(Tracker, target)]), Load(1)) == Read2(row, end, target)
  {
  }

  /** Both jobs have read both plans. */
  lemma TheyRead(row: Status, first: Status, second: Status, target: Status)
    ensures var w := Both(Fresh2(row, first, target), Fresh2(row, second, target), 0, 0, 0, map[]);
            Reachable(w, Both(Read2(row, first, target), Read2(row, second, target), 0, 0, 0, map[]))
  {
    hide Do, Formed, RunAll, Fresh2, Read2, Reachable;
    var s0, s1 := Fresh2(row, first, target), Fresh2(row, second, target);
    var w := Both(s0, s1, 0, 0, 0, map[]);
    StartsReachable(row, first, second, target);
    Loads(row, first, target);
    Loads(row, second, target);
    var m0 := Start(row, [MonitorCall(row, first, Loaded), Fresh(Tracker, target)]);
    var m1 := Start(row, [MonitorCall(row, second, Loaded), Fresh(Tracker, target)]);
    ReachesRead(w, w, 0, 1, m1);
    assert w.(plans := w.plans[1 := m1]) == Both(s0, m1, 0, 0, 0, map[]);
    var u, v := Both(s0, m1, 0, 0, 0, map[]), Both(m0, m1, 0, 0, 0, map[]);
    ReachesRead(w, u, 0, 0, m0);
    assert u.(plans := u.plans[0 := m0]) == v;
    var r0, r1 := Read2(row, first, target), Read2(row, second, target);
    ReachesRead(w, v, 1, 0, r0);
    var x := Both(r0, m1, 0, 0, 0, map[]);
    assert v.(plans := v.plans[0 := r0]) == x;
    ReachesRead(w, x, 1, 1, r1);
    assert x.(plans := x.plans[1 := r1]) == Both(r0, r1, 0, 0, 0, map[]);
  }

  lemma StartsReachable(row: Status, first: Status, second: Status, target: Status)
    ensures var w := Both(Fresh2(row, first, target), Fresh2(row, second, target), 0, 0, 0, map[]); Reachable(w, w)
  {
    var w := Both(Fresh2(row, first, target), Fresh2(row, second, target), 0, 0, 0, map[]);
    FormedPair(w);
    NoTurns(w);
  }

  /** The tracker's job has locked its first plan, found nothing to do, and gone on to the second. */
  lemma TheTrackerGoesOn(w: World, row: Status, first: Status, second: Status, target: Status)
    requires Reachable(w, Both(Read2(row, first, target), Read2(row, second, target), 0, 0, 0, map[]))
    ensures Reachable(w, Both(Shared(row, MonitorCall(row, first, Loaded), TrackerCall(row, target, Locked), Some(1), None, None),
                              Read2(row, second, target), 0, 0, 1, map[]))
  {
    hide Do, Reachable;
    var r1 := Read2(row, second, target);
    var v := Both(Read2(row, first, target), r1, 0, 0, 0, map[]);
    var locked := Shared(row, MonitorCall(row, first, Loaded), TrackerCall(row, target, Locked), Some(1), None, None);
    TrackerLocks(row, target, MonitorCall(row, first, Loaded));
    ReachesAct(w, v, Lock(1), 0, locked);
    var u := Both(locked, r1, 0, 0, 0, map[]);
    assert v.(plans := v.plans[0 := locked]) == u;
    ReachesNext(w, u, 1);
    assert u.(jobs := u.jobs[1 := Job([0, 1], 1, 0)]) == Both(locked, r1, 0, 0, 1, map[]);
  }

  /** The monitor's job closes the thesis of a plan, votes, and moves the row of statistics. */
  lemma TheMonitorVotes(w: World, s0: State, at: nat, row: Status, end: Status, t: Call, plan: Option<nat>, other: State,
                        books: map<nat, nat>)
    requires at < 2 && s0 == Shared(row, MonitorCall(row, end, Loaded), t, plan, None, None) && |other.calls| == 2
    requires 0 in books ==> books[0] == 0
    requires Reachable(w, if at == 1 then Both(s0, other, 1, 0, 1, books) else Both(other, s0, 0, 0, 1, books))
    ensures var voted := Shared(row, VotedCall(row, end, Voted), t, plan, Some(0), Some(0));
            Reachable(w, if at == 1 then Both(voted, other, 1, 1, 1, books[0 := 0]) else Both(other, voted, 0, 1, 1, books[0 := 0]))
  {
    hide Do, Reachable, Returned;
    var p := 1 - at;
    var v := if at == 1 then Both(s0, other, 1, 0, 1, books) else Both(other, s0, 0, 0, 1, books);
    var closed := Shared(row, MonitorCall(row, end, Closed).(thesis := Some(end)), t, plan, Some(0), None);
    var voted := Shared(row, VotedCall(row, end, Voted), t, plan, Some(0), Some(0));
    Closes(row, end, t, plan);
    Votes(row, end, t, plan);
    ReachesAct(w, v, Close(0), p, closed);
    var v1 := v.(plans := v.plans[p := closed]);
    ReachesAct(w, v1, Vote(0), p, voted);
    var v2 := v1.(plans := v1.plans[p := voted]);
    ReachesCount(w, v2, 0);
    var v3 := v2.(jobs := v2.jobs[0 := v2.jobs[0].(counted := 1)], books := books[0 := 0]);
    if at == 1 {
      assert v3.plans == [voted, other] && v3 == Both(voted, other, 1, 1, 1, books[0 := 0]);
    } else {
      assert v3.plans == [other, voted] && v3 == Both(other, voted, 0, 1, 1, books[0 := 0]);
    }
  }

  /** The monitor's job ends a plan that nobody has locked, and goes on. */
  lemma TheMonitorEnds(w: World, row: Status, end: Status, t: Call, other: State, books: map<nat, nat>)
    requires !Terminal(row) && Terminal(end) && MayMove(row, end) && |other.calls| == 2
    requires Reachable(w, Both(other, Shared(row, VotedCall(row, end, Voted), t, None, Some(0), Some(0)), 0, 1, 1, books))
    ensures Reachable(w, Both(other, Shared(row, VotedCall(row, end, Recorded).(write := Some(end)), t, Some(0), Some(0), Some(0)),
                              1, 0, 1, books))
  {
    hide Do, Reachable, MayMove, Terminal;
    Ends2(row, end, t);
    var s := Shared(row, VotedCall(row, end, Voted), t, None, Some(0), Some(0));
    var locked := Shared(row, VotedCall(row, end, Locked), t, Some(0), Some(0), Some(0));
    var decided := Shared(row, VotedCall(row, end, Decided).(write := Some(end)), t, Some(0), Some(0), Some(0));
    var recorded := Shared(row, VotedCall(row, end, Recorded).(write := Some(end)), t, Some(0), Some(0), Some(0));
    var v := Both(other, s, 0, 1, 1, books);
    ReachesAct(w, v, Lock(0), 1, locked);
    var v1 := Both(other, locked, 0, 1, 1, books);
    assert v.(plans := v.plans[1 := locked]) == v1;
    ReachesAct(w, v1, Decide(0), 1, decided);
    var v2 := Both(other, decided, 0, 1, 1, books);
    assert v1.(plans := v1.plans[1 := decided]) == v2;
    ReachesAct(w, v2, Record(0), 1, recorded);
    var v3 := Both(other, recorded, 0, 1, 1, books);
    assert v2.(plans := v2.plans[1 := recorded]) == v3;
    ReachesNext(w, v3, 0);
    assert v3.(jobs := v3.jobs[0 := Job([1, 0], 1, 0)]) == Both(other, recorded, 1, 0, 1, books);
  }

  /** The monitor's job and the tracker's job can come to wait for each other over two open plans: the tracker has
    locked the first, though it found nothing to do, and asks for the second; the monitor has ended the second, has
    voted on the first, and asks for it. They are at different plans. */
  lemma BatchesMeet(row: Status, first: Status, second: Status, target: Status)
    requires !Terminal(row) && Terminal(second) && MayMove(row, second)
    ensures var w := Both(Fresh2(row, first, target), Fresh2(row, second, target), 0, 0, 0, map[]);
            exists met :: Reachable(w, met) && Waits(met, 0, 1) && Waits(met, 1, 0) && Current(met, 0) != Current(met, 1)
  {
    hide Do, Reachable, MayMove, Terminal, Waits, Current, Fresh2, Shared, VotedCall, TrackerCall, MonitorCall, Both;
    var w := Both(Fresh2(row, first, target), Fresh2(row, second, target), 0, 0, 0, map[]);
    TheyRead(row, first, second, target);
    TheTrackerGoesOn(w, row, first, second, target);
    var s0 := Shared(row, MonitorCall(row, first, Loaded), TrackerCall(row, target, Locked), Some(1), None, None);
    var t := TrackerCall(row, target, Loaded);
    TheMonitorVotes(w, Read2(row, second, target), 0, row, second, t, None, s0, map[]);
    TheMonitorEnds(w, row, second, t, s0, map[0 := 0]);
    var ended := Shared(row, VotedCall(row, second, Recorded).(write := Some(second)), t, Some(0), Some(0), Some(0));
    TheMonitorVotes(w, s0, 1, row, first, TrackerCall(row, target, Locked), Some(1), ended, map[0 := 0]);
    var voted := Shared(row, VotedCall(row, first, Voted), TrackerCall(row, target, Locked), Some(1), Some(0), Some(0));
    var met := Both(voted, ended, 1, 1, 1, map[0 := 0][0 := 0]);
    TheyWait(row, first, second, target, met);
  }

  lemma TheyWait(row: Status, first: Status, second: Status, target: Status, met: World)
    requires var voted := Shared(row, VotedCall(row, first, Voted), TrackerCall(row, target, Locked), Some(1), Some(0), Some(0));
             var ended := Shared(row, VotedCall(row, second, Recorded).(write := Some(second)),
                                 TrackerCall(row, target, Loaded), Some(0), Some(0), Some(0));
             met == Both(voted, ended, 1, 1, 1, map[0 := 0][0 := 0])
    ensures Waits(met, 0, 1) && Waits(met, 1, 0) && Current(met, 0) != Current(met, 1)
  {
  }
}
