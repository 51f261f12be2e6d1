/** The nightly aging sweep over memories and lessons.

  A score is stored with four decimals and kept here as a whole number of units of
  1/10000. Products are exact; the only rounding is half to even, back to a unit.
 */
module MemoryDecay {
  import opened Options
  import opened Rounding

  const UNIT_SCALE := 10000

  /** One sweep of one score. */
  function Decay(score: int, factor: real): int {
    RoundHalfEven(score as real * factor)
  }

  predicate Factor(f: real) {
    0.0 < f <= 1.0
  }

  lemma DecayMonotone(a: int, b: int, f: real)
    requires Factor(f) && a <= b
    ensures Decay(a, f) <= Decay(b, f)
  {
    hide RoundHalfEven;
    assert a as real * f <= b as real * f;
    RoundMonotone(a as real * f, b as real * f);
  }

  /** A score never rises, and never goes below zero; a negative one moves up towards zero. */
  lemma NeverRises(s: int, f: real)
    requires Factor(f)
    ensures s >= 0 ==> 0 <= Decay(s, f) <= s
    ensures s <= 0 ==> s <= Decay(s, f) <= 0
  {
    hide RoundHalfEven;
    RoundWhole(s);
    RoundWhole(0);
    var x := s as real * f;
    if s >= 0 {
      assert 0.0 <= x <= s as real;
      RoundMonotone(0.0, x);
      RoundMonotone(x, s as real);
    } else {
      assert s as real <= x <= 0.0;
      RoundMonotone(s as real, x);
      RoundMonotone(x, 0.0);
    }
  }

  // ---------------------------------------------------------------- many sweeps

  function Score(start: int, f: real, sweeps: nat): int {
    if sweeps == 0 then start else Decay(Score(start, f, sweeps - 1), f)
  }

  function Power(f: real, k: nat): real {
    if k == 0 then 1.0 else f * Power(f, k - 1)
  }

  /** The score without rounding. */
  function Exact(start: int, f: real, k: nat): real {
    if k == 0 then start as real else f * Exact(start, f, k - 1)
  }

  /** What rounding can have cost: half a unit a sweep, decayed since. */
  function Slack(f: real, k: nat): real {
    if k == 0 then 0.0 else 0.5 + f * Slack(f, k - 1)
  }

  lemma {:induction false} ExactIs(start: int, f: real, k: nat)
    ensures Exact(start, f, k) == Power(f, k) * start as real
  {
    if k > 0 {
      ExactIs(start, f, k - 1);
      Regroup(f, Power(f, k - 1), start as real);
    }
  }

  /** The costs are a geometric series. */
  lemma {:induction false} SlackIs(f: real, k: nat)
    ensures Slack(f, k) * (1.0 - f) == (1.0 - Power(f, k)) * 0.5
  {
    if k > 0 {
      SlackIs(f, k - 1);
      var g := Slack(f, k - 1);
      assert (0.5 + f * g) * (1.0 - f) == 0.5 * (1.0 - f) + f * (g * (1.0 - f));
    }
  }

  predicate Within(a: real, b: real, bound: real) {
    -bound <= a - b <= bound
  }

  lemma Scale(a: real, b: real, f: real)
    requires 0.0 <= f && a <= b
    ensures f * a <= f * b && (0.0 < f && a < b ==> f * a < f * b)
  {
  }

  lemma DecayError(s: int, exact: real, bound: real, f: real, nextExact: real, nextBound: real)
    requires Factor(f) && Within(s as real, exact, bound)
    requires nextExact == f * exact && nextBound == 0.5 + f * bound
    ensures Within(Decay(s, f) as real, nextExact, nextBound)
  {
    hide RoundHalfEven;
    var x := s as real * f;
    var r := RoundHalfEven(x);
    Spread(s as real, exact, bound, f);
    assert -(f * bound) <= x - f * exact <= f * bound;
    assert -0.5 <= r as real - x <= 0.5;
  }

  lemma Spread(s: real, exact: real, bound: real, f: real)
    requires 0.0 <= f && Within(s, exact, bound)
    ensures Within(s * f, f * exact, f * bound)
  {
    var d := s - exact;
    Scale(d, bound, f);
    Scale(-bound, d, f);
    assert f * -bound == -(f * bound);
    assert s * f - f * exact == f * d;
  }

  lemma Regroup(f: real, p: real, s: real)
    ensures f * (p * s) == (f * p) * s
  {
  }

  lemma {:induction false} StaysWithin(start: int, f: real, k: nat)
    requires Factor(f)
    ensures Within(Score(start, f, k) as real, Exact(start, f, k), Slack(f, k))
  {
    hide Decay;
    if k > 0 {
      StaysWithin(start, f, k - 1);
      hide Within;
      DecayError(Score(start, f, k - 1), Exact(start, f, k - 1), Slack(f, k - 1), f,
                 Exact(start, f, k), Slack(f, k));
    }
  }

  /** After k sweeps the rounding has cost at most (1 - f^k) / (1 - f) half-units. */
  lemma {:induction false} ErrorBound(start: int, f: real, k: nat)
    requires Factor(f) && f < 1.0
    ensures Within(Score(start, f, k) as real, Power(f, k) * start as real, (1.0 - Power(f, k)) * 0.5 / (1.0 - f))
  {
    hide Score, Power, Exact, Slack;
    StaysWithin(start, f, k);
    ExactIs(start, f, k);
    SlackIs(f, k);
    DivideOut(Slack(f, k), 1.0 - f, (1.0 - Power(f, k)) * 0.5);
  }

  // ---------------------------------------------------------------- scores that stop falling

  /** What a sweep would take off without rounding. */
  function Loss(s: int, f: real): real {
    s as real * (1.0 - f)
  }

  lemma NearWhole(s: int, x: real, loss: real)
    requires x + loss == s as real && loss >= 0.0
    ensures RoundHalfEven(x) == s <==> loss < 0.5 || (loss == 0.5 && s % 2 == 0)
  {
    hide RoundHalfEven;
  }

  /** A sweep leaves a score alone exactly when it takes off less than half a unit, or half a unit off an
    even score. */
  lemma StuckExactly(s: int, f: real)
    requires Factor(f) && s >= 0
    ensures Decay(s, f) == s <==> Loss(s, f) < 0.5 || (Loss(s, f) == 0.5 && s % 2 == 0)
  {
    hide RoundHalfEven;
    LossOrder(0, s, f);
    var x := s as real * f;
    assert x + Loss(s, f) == s as real;
    NearWhole(s, x, Loss(s, f));
  }

  lemma LossOrder(lower: int, s: int, f: real)
    requires Factor(f) && 0 <= lower <= s
    ensures 0.0 <= Loss(lower, f) <= Loss(s, f)
    ensures lower < s && Loss(lower, f) == Loss(s, f) ==> Loss(s, f) == 0.0
  {
    Scale(lower as real, s as real, 1.0 - f);
    Scale(0.0, lower as real, 1.0 - f);
  }

  lemma StuckBelow(s: int, lower: int, f: real)
    requires Factor(f) && 0 <= lower <= s && Decay(s, f) == s
    ensures Decay(lower, f) == lower
  {
    hide Decay, Loss;
    StuckExactly(s, f);
    StuckExactly(lower, f);
    LossOrder(lower, s, f);
  }

  lemma {:induction false} ScoreStaysAbove(start: int, f: real, floor: int, k: nat)
    requires Factor(f) && floor <= start && Decay(floor, f) == floor
    ensures floor <= Score(start, f, k)
  {
    hide Decay;
    if k > 0 {
      ScoreStaysAbove(start, f, floor, k - 1);
      DecayMonotone(floor, Score(start, f, k - 1), f);
    }
  }

  /** While it is at or above a level that is not stuck, a score loses at least a unit a sweep. */
  lemma {:induction false} ScoreFalls(start: int, f: real, level: int, k: nat)
    requires Factor(f) && 0 <= level && 0 <= start && Decay(level, f) != level
    ensures 0 <= Score(start, f, k) <= start
    ensures Score(start, f, k) < level || Score(start, f, k) <= start - k
  {
    hide Decay;
    if k > 0 {
      ScoreFalls(start, f, level, k - 1);
      var s := Score(start, f, k - 1);
      NeverRises(s, f);
      if level <= s && Decay(s, f) == s { StuckBelow(s, level, f); }
    }
  }

  lemma {:induction false} ScoreNeverRises(start: int, f: real, k: nat)
    requires Factor(f) && 0 <= start
    ensures 0 <= Score(start, f, k) <= start
    ensures k > 0 ==> Score(start, f, k) <= Score(start, f, k - 1)
  {
    hide Decay;
    if k > 0 {
      ScoreNeverRises(start, f, k - 1);
      NeverRises(Score(start, f, k - 1), f);
    }
  }

  /** The lowest whole score that is not below a threshold. */
  function Ceiling(t: real): (c: int)
    ensures c as real - 1.0 < t <= c as real
  {
    if t == t.Floor as real then t.Floor else t.Floor + 1
  }

  /** Whether a score falls below a threshold is settled by its first start + 1 sweeps, and it depends on
    one number only: whether the threshold, rounded up, is itself a score that never falls. */
  lemma FallsBelowExactly(start: int, f: real, level: int, k: nat)
    requires Factor(f) && 0 <= start && 0 <= level && k > start
    ensures Score(start, f, k) < level <==> start < level || Decay(level, f) != level
  {
    hide Decay;
    if start < level {
      ScoreNeverRises(start, f, k);
    } else if Decay(level, f) == level {
      ScoreStaysAbove(start, f, level, k);
    } else {
      ScoreFalls(start, f, level, k);
    }
  }

  // ---------------------------------------------------------------- the rows

  datatype LessonState = LessonState(confidence: Option<int>, archivedAt: Option<int>, decayAt: Option<int>)

  datatype MemoryState = MemoryState(freshness: Option<int>, validTo: Option<int>, updatedAt: int)

  /** A missing score counts as a full one. */
  function Current(score: Option<int>): int {
    if score.Some? then score.value else UNIT_SCALE
  }

  /** `threshold` is in units. */
  function SweptLesson(l: LessonState, f: real, threshold: real, now: int): LessonState {
    if l.archivedAt.Some? then l
    else
      var score := Decay(Current(l.confidence), f);
      var over := (l.decayAt.Some? && l.decayAt.value <= now) || score as real < threshold;
      LessonState(Some(score), if over then Some(now) else None, l.decayAt)
  }

  function SweptMemory(m: MemoryState, f: real, now: int): MemoryState {
    if m.validTo.Some? && m.validTo.value <= now then m
    else MemoryState(Some(Decay(Current(m.freshness), f)), m.validTo, now)
  }

  /** A night ages exactly the memories whose validity has not run out by then; a missing score ages from 1.0. Nothing else
    of a memory changes but when it was touched. */
  lemma MemoryAgesExactly(m: MemoryState, f: real, now: int)
    ensures var after := SweptMemory(m, f, now);
            && after.validTo == m.validTo
            && (m.validTo.Some? && m.validTo.value <= now ==> after == m)
            && (m.validTo.None? || m.validTo.value > now ==>
                  && after.updatedAt == now && after.freshness.Some?
                  && var exact := f * (if m.freshness.Some? then m.freshness.value as real else 10000.0);
                     -0.5 <= after.freshness.value as real - exact <= 0.5)
  {
  }

  /** A night ages every lesson that is not archived, and archives it exactly when its date has come or its new score is
    below the threshold. */
  lemma LessonAgesExactly(l: LessonState, f: real, threshold: real, now: int)
    requires l.archivedAt.None?
    ensures var after := SweptLesson(l, f, threshold, now);
            && after.decayAt == l.decayAt && after.confidence.Some?
            && (var exact := f * (if l.confidence.Some? then l.confidence.value as real else 10000.0);
                -0.5 <= after.confidence.value as real - exact <= 0.5)
            && after.archivedAt == if (l.decayAt.Some? && now >= l.decayAt.value) || after.confidence.value as real < threshold
                                   then Some(now) else None
  {
  }

  datatype Report = Report(memoriesDecayed: nat, lessonsDecayed: nat, lessonsArchived: nat)
                  | BadFactor | BadThreshold

  class Memory {
    const validTo: Option<int>
    var freshness: Option<int>
    var updatedAt: int

    constructor (state: MemoryState)
      ensures State() == state
    {
      validTo, freshness, updatedAt := state.validTo, state.freshness, state.updatedAt;
    }

    ghost function State(): MemoryState
      reads this
    {
      MemoryState(freshness, validTo, updatedAt)
    }
  }

  class Lesson {
    const decayAt: Option<int>
    var confidence: Option<int>
    var archivedAt: Option<int>

    constructor (state: LessonState)
      ensures State() == state
    {
      decayAt, confidence, archivedAt := state.decayAt, state.confidence, state.archivedAt;
    }

    ghost function State(): LessonState
      reads this
    {
      LessonState(confidence, archivedAt, decayAt)
    }

    method Age(f: real, threshold: real, now: int)
      requires archivedAt.None?
      modifies this
      ensures State() == SweptLesson(old(State()), f, threshold, now)
    {
      hide Decay;
      var score := Decay(Current(confidence), f);
      confidence := Some(score);
      if (decayAt.Some? && decayAt.value <= now) || score as real < threshold {
        archivedAt := Some(now);
      }
    }
  }

  ghost function LessonStates(lessons: seq<Lesson>): (r: seq<LessonState>)
    reads lessons
    ensures |r| == |lessons| && forall i :: 0 <= i < |r| ==> r[i] == lessons[i].State()
  {
    if lessons == [] then [] else LessonStates(lessons[..|lessons| - 1]) + [lessons[|lessons| - 1].State()]
  }

  ghost function MemoryStates(memories: seq<Memory>): (r: seq<MemoryState>)
    reads memories
    ensures |r| == |memories| && forall i :: 0 <= i < |r| ==> r[i] == memories[i].State()
  {
    if memories == [] then [] else MemoryStates(memories[..|memories| - 1]) + [memories[|memories| - 1].State()]
  }

  function SweptLessons(ls: seq<LessonState>, f: real, threshold: real, now: int): (r: seq<LessonState>)
    ensures |r| == |ls| && forall i :: 0 <= i < |r| ==> r[i] == SweptLesson(ls[i], f, threshold, now)
  {
    seq(|ls|, i requires 0 <= i < |ls| => SweptLesson(ls[i], f, threshold, now))
  }

  function SweptMemories(ms: seq<MemoryState>, f: real, now: int): (r: seq<MemoryState>)
    ensures |r| == |ms| && forall i :: 0 <= i < |r| ==> r[i] == SweptMemory(ms[i], f, now)
  {
    seq(|ms|, i requires 0 <= i < |ms| => SweptMemory(ms[i], f, now))
  }

  function Open(ls: seq<LessonState>): nat {
    if ls == [] then 0 else Open(ls[..|ls| - 1]) + if ls[|ls| - 1].archivedAt.None? then 1 else 0
  }

  predicate Valid(m: MemoryState, now: int) {
    m.validTo.None? || m.validTo.value > now
  }

  function StillValid(ms: seq<MemoryState>, now: int): nat {
    if ms == [] then 0 else StillValid(ms[..|ms| - 1], now) + if Valid(ms[|ms| - 1], now) then 1 else 0
  }

  /** The counts are of the memories whose validity has not run out, and of the lessons that are not archived. */
  lemma {:induction false} CountsExactly(ms: seq<MemoryState>, ls: seq<LessonState>, now: int)
    ensures StillValid(ms, now) == |set i | 0 <= i < |ms| && (ms[i].validTo.None? || now < ms[i].validTo.value)|
    ensures Open(ls) == |set i | 0 <= i < |ls| && ls[i].archivedAt.None?|
  {
    if ms != [] {
      var n := |ms| - 1;
      CountsExactly(ms[..n], ls, now);
      var before := set i | 0 <= i < n && (ms[..n][i].validTo.None? || now < ms[..n][i].validTo.value);
      var all := set i | 0 <= i < |ms| && (ms[i].validTo.None? || now < ms[i].validTo.value);
      assert all == if ms[n].validTo.None? || now < ms[n].validTo.value then before + {n} else before;
    } else {
      OpenCount(ls);
    }
  }

  lemma {:induction false} OpenCount(ls: seq<LessonState>)
    ensures Open(ls) == |set i | 0 <= i < |ls| && ls[i].archivedAt.None?|
  {
    if ls != [] {
      var n := |ls| - 1;
      OpenCount(ls[..n]);
      var before := set i | 0 <= i < n && ls[..n][i].archivedAt.None?;
      var all := set i | 0 <= i < |ls| && ls[i].archivedAt.None?;
      assert all == if ls[n].archivedAt.None? then before + {n} else before;
    }
  }

  /** No row twice. */
  predicate Rows<T(==)>(rows: seq<T>) {
    forall i, j :: 0 <= i < j < |rows| ==> rows[i] != rows[j]
  }

  method DecayMemories(memories: seq<Memory>, f: real, now: int) returns (decayed: nat)
    requires Rows(memories)
    modifies memories
    ensures MemoryStates(memories) == SweptMemories(old(MemoryStates(memories)), f, now)
    ensures decayed == StillValid(old(MemoryStates(memories)), now)
  {
    hide Decay;
    ghost var before := MemoryStates(memories);
    decayed := 0;
    for i := 0 to |memories|
      invariant forall j :: 0 <= j < i ==> memories[j].State() == SweptMemory(before[j], f, now)
      invariant forall j :: i <= j < |memories| ==> memories[j].State() == before[j]
      invariant decayed == StillValid(before[..i], now)
    {
      assert before[..i + 1][..i] == before[..i];
      var m := memories[i];
      if m.validTo.None? || m.validTo.value > now {
        m.freshness := Some(Decay(Current(m.freshness), f));
        m.updatedAt := now;
        decayed := decayed + 1;
      }
    }
    assert before[..|memories|] == before;
  }

  lemma OpenStep(ls: seq<LessonState>, i: nat)
    requires i < |ls|
    ensures Open(ls[..i + 1]) == Open(ls[..i]) + if ls[i].archivedAt.None? then 1 else 0
    ensures ls[..0] == [] && Open([]) == 0
  {
    assert ls[..i + 1][..i] == ls[..i];
  }

  /** The rows before `i` are swept, and the rest are not yet. */
  ghost predicate SweptTo(lessons: seq<Lesson>, i: nat, before: seq<LessonState>, after: seq<LessonState>)
    requires |before| == |after| == |lessons|
    reads lessons
  {
    && (forall j :: 0 <= j < |lessons| && j < i ==> lessons[j].State() == after[j])
    && (forall j :: i <= j < |lessons| ==> lessons[j].State() == before[j])
  }

  /** One turn of the loop. */
  method AgeRow(lessons: seq<Lesson>, i: nat, f: real, threshold: real, now: int,
                ghost before: seq<LessonState>, ghost after: seq<LessonState>) returns (wasOpen: bool, archived: bool)
    requires Rows(lessons) && i < |lessons| == |before| && after == SweptLessons(before, f, threshold, now)
    requires SweptTo(lessons, i, before, after)
    modifies lessons[i]
    ensures SweptTo(lessons, i + 1, before, after)
    ensures wasOpen == before[i].archivedAt.None?
    ensures archived == (wasOpen && after[i].archivedAt.Some?) && (!wasOpen ==> after[i].archivedAt.Some?)
  {
    hide Decay, SweptLesson;
    SweptArchived(before[i], f, threshold, now);
    var l := lessons[i];
    wasOpen, archived := l.archivedAt.None?, false;
    if wasOpen {
      l.Age(f, threshold, now);
      archived := l.archivedAt.Some?;
    }
  }

  lemma SweptEnds(lessons: seq<Lesson>, before: seq<LessonState>, after: seq<LessonState>)
    requires |before| == |after| == |lessons|
    ensures before == LessonStates(lessons) ==> SweptTo(lessons, 0, before, after)
    ensures SweptTo(lessons, |lessons|, before, after) ==> LessonStates(lessons) == after
    ensures Open(before[..0]) == Open(after[..0]) == 0
    ensures before[..|lessons|] == before && after[..|lessons|] == after
  {
  }

  method DecayLessons(lessons: seq<Lesson>, f: real, threshold: real, now: int) returns (decayed: nat, archived: nat)
    requires Rows(lessons)
    modifies lessons
    ensures LessonStates(lessons) == SweptLessons(old(LessonStates(lessons)), f, threshold, now)
    ensures decayed == Open(old(LessonStates(lessons)))
    ensures archived == Open(old(LessonStates(lessons))) - Open(LessonStates(lessons))
  {
    hide Decay, Open, SweptLesson, SweptTo, Rows, LessonStates;
    ghost var before := LessonStates(lessons);
    ghost var after := SweptLessons(before, f, threshold, now);
    SweptEnds(lessons, before, after);
    decayed, archived := 0, 0;
    for i := 0 to |lessons|
      invariant SweptTo(lessons, i, before, after)
      invariant decayed == Open(before[..i]) && decayed == Open(after[..i]) + archived
    {
      OpenStep(before, i);
      OpenStep(after, i);
      var wasOpen, ended := AgeRow(lessons, i, f, threshold, now, before, after);
      decayed := decayed + if wasOpen then 1 else 0;
      archived := archived + if ended then 1 else 0;
    }
    SweptEnds(lessons, before, after);
  }

  lemma SweptArchived(l: LessonState, f: real, threshold: real, now: int)
    ensures l.archivedAt.Some? ==> SweptLesson(l, f, threshold, now) == l
  {
  }

  /** One night: refused settings change nothing; otherwise every memory still valid and every lesson still
    open is decayed once, and what is counted is what happened. `threshold` is a fraction here. */
  method RunMemoryDecay(memories: seq<Memory>, lessons: seq<Lesson>, factor: real, threshold: real, now: int)
    returns (report: Report)
    requires Rows(memories) && Rows(lessons)
    modifies memories, lessons
    ensures report.BadFactor? <==> factor <= 0.0 || factor > 1.0
    ensures report.BadThreshold? <==> 0.0 < factor <= 1.0 && (threshold < 0.0 || threshold > 1.0)
    ensures !report.Report? ==> MemoryStates(memories) == old(MemoryStates(memories))
                                && LessonStates(lessons) == old(LessonStates(lessons))
    ensures report.Report? ==>
              && MemoryStates(memories) == SweptMemories(old(MemoryStates(memories)), factor, now)
              && LessonStates(lessons) == SweptLessons(old(LessonStates(lessons)), factor, threshold * 10000.0, now)
              && report.memoriesDecayed == StillValid(old(MemoryStates(memories)), now)
              && report.lessonsDecayed == Open(old(LessonStates(lessons)))
              && report.lessonsArchived == Open(old(LessonStates(lessons))) - Open(LessonStates(lessons))
  {
    hide Decay, Open, StillValid, SweptLesson, SweptMemory, SweptLessons, SweptMemories, Rows, LessonStates, MemoryStates;
    if factor <= 0.0 || factor > 1.0 {
      return BadFactor;
    }
    if threshold < 0.0 || threshold > 1.0 {
      return BadThreshold;
    }
    var decayed := DecayMemories(memories, factor, now);
    assert LessonStates(lessons) == old(LessonStates(lessons));
    label Middle:
    var open, archived := DecayLessons(lessons, factor, threshold * 10000.0, now);
    assert MemoryStates(memories) == old@Middle(MemoryStates(memories));
    report := Report(decayed, open, archived);
  }

  // ---------------------------------------------------------------- a lesson over many nights

  function Nights(l: LessonState, f: real, threshold: real, nights: seq<int>): LessonState {
    if nights == [] then l
    else SweptLesson(Nights(l, f, threshold, nights[..|nights| - 1]), f, threshold, nights[|nights| - 1])
  }

  /** An archived lesson is never touched again. */
  lemma {:induction false} ArchivedStays(l: LessonState, f: real, threshold: real, nights: seq<int>)
    requires l.archivedAt.Some?
    ensures Nights(l, f, threshold, nights) == l
  {
    if nights != [] { ArchivedStays(l, f, threshold, nights[..|nights| - 1]); }
  }

  /** The lesson's date has come. */
  predicate Expires(l: LessonState, now: int) {
    l.decayAt.Some? && l.decayAt.value <= now
  }

  /** The `k`th night would archive the lesson: its date has come, or its score is too low. */
  predicate Due(l: LessonState, f: real, threshold: real, nights: seq<int>, k: nat)
    requires 0 < k <= |nights|
  {
    Expires(l, nights[k - 1]) || Score(Current(l.confidence), f, k) as real < threshold
  }

  /** For every open lesson: it is archived exactly when some night found it due; until then its score is the
    decayed one. */
  lemma {:induction false} NightsAre(l: LessonState, f: real, threshold: real, nights: seq<int>)
    requires l.archivedAt.None?
    ensures var after := Nights(l, f, threshold, nights);
            && (after.archivedAt.Some? <==> exists k :: 0 < k <= |nights| && Due(l, f, threshold, nights, k))
            && (after.archivedAt.None? ==> Current(after.confidence) == Score(Current(l.confidence), f, |nights|))
            && after.decayAt == l.decayAt
  {
    hide Decay;
    if nights != [] {
      var n := |nights| - 1;
      var init := nights[..n];
      NightsAre(l, f, threshold, init);
      assert forall k :: 0 <= k < n ==> init[k] == nights[k];
      assert forall k :: 0 < k <= n ==> Due(l, f, threshold, nights, k) == Due(l, f, threshold, init, k);
      LastNight(l, f, threshold, nights);
    }
  }

  lemma LastNight(l: LessonState, f: real, threshold: real, nights: seq<int>)
    requires nights != []
    ensures var before, after := Nights(l, f, threshold, nights[..|nights| - 1]), Nights(l, f, threshold, nights);
            && after.decayAt == before.decayAt
            && (before.archivedAt.Some? ==> after == before)
            && (before.archivedAt.None? && before.decayAt == l.decayAt
                && Current(before.confidence) == Score(Current(l.confidence), f, |nights| - 1) ==>
                  && (after.archivedAt.Some? <==> Due(l, f, threshold, nights, |nights|))
                  && Current(after.confidence) == Score(Current(l.confidence), f, |nights|))
  {
    hide Decay;
  }

  /** A negative score only moves up, and never past zero. */
  lemma {:induction false} NegativeScoreRises(start: int, f: real, k: nat)
    requires Factor(f) && start <= 0
    ensures Score(start, f, k) <= 0
    ensures k > 0 ==> Score(start, f, 1) <= Score(start, f, k)
  {
    hide Decay;
    if k > 0 {
      NegativeScoreRises(start, f, k - 1);
      NeverRises(Score(start, f, k - 1), f);
      if k == 1 {
      } else {
        assert Score(start, f, k - 1) <= Decay(Score(start, f, k - 1), f);
      }
    }
  }

  /** The sweeps after which nothing more can happen to a score. */
  function Enough(start: int): nat {
    if start < 0 then 1 else start + 1
  }

  /** Whether some of enough sweeps takes a score below a level: one that starts above zero falls below exactly
    when it starts there or the level is not a score that stays; one that starts below zero is lowest after its
    first sweep. */
  predicate EverBelow(start: int, f: real, level: int) {
    if start < 0 then Decay(start, f) < level else start < level || Decay(level, f) != level
  }

  /** One of the first `n` sweeps takes the score below the level. */
  ghost predicate BelowWithin(start: int, f: real, level: int, n: nat) {
    exists k: nat :: 0 < k <= n && Score(start, f, k) < level
  }

  lemma {:induction false} EverBelowExactly(start: int, f: real, level: int, n: nat)
    requires Factor(f) && 0 <= level && n >= Enough(start)
    ensures EverBelow(start, f, level) <==> BelowWithin(start, f, level, n)
  {
    hide Decay;
    if start < 0 {
      assert Score(start, f, 0) == start;
      assert Score(start, f, 1) == Decay(start, f);
      forall k: nat | 0 < k <= n
        ensures Score(start, f, 1) <= Score(start, f, k)
      {
        NegativeScoreRises(start, f, k);
      }
    } else {
      FallsBelowExactly(start, f, level, n);
      forall k: nat | 0 < k <= n
        ensures Score(start, f, n) <= Score(start, f, k)
      {
        ScoresFall(start, f, k, n);
      }
    }
  }

  lemma {:induction false} ScoresFall(start: int, f: real, j: nat, k: nat)
    requires Factor(f) && 0 <= start && j <= k
    ensures Score(start, f, k) <= Score(start, f, j)
  {
    hide Decay;
    if j < k {
      ScoresFall(start, f, j, k - 1);
      ScoreNeverRises(start, f, k);
    }
  }

  lemma {:induction false} DueExactly(l: LessonState, f: real, threshold: real, nights: seq<int>, k: nat)
    requires 0 < k <= |nights|
    ensures Due(l, f, threshold, nights, k)
      <==> Expires(l, nights[k - 1]) || Score(Current(l.confidence), f, k) < Ceiling(threshold)
  {
    hide Score;
  }

  /** Every open lesson, dated or not, whatever its score: after enough nights it is archived exactly when its
    date came on one of them, or its score ever falls below the threshold rounded up. */
  lemma ArchivedExactly(l: LessonState, f: real, threshold: real, nights: seq<int>)
    requires Factor(f) && 0.0 <= threshold && l.archivedAt.None? && |nights| >= Enough(Current(l.confidence))
    ensures Nights(l, f, threshold, nights).archivedAt.Some?
      <==> (exists k :: 0 <= k < |nights| && Expires(l, nights[k]))
           || EverBelow(Current(l.confidence), f, Ceiling(threshold))
  {
    hide Decay, Ceiling, Nights, EverBelow, Enough;
    CeilingBelow(threshold);
    NightsAre(l, f, threshold, nights);
    EverBelowExactly(Current(l.confidence), f, Ceiling(threshold), |nights|);
    DueSplits(l, f, threshold, nights);
  }

  lemma DueSplits(l: LessonState, f: real, threshold: real, nights: seq<int>)
    ensures (exists k :: 0 < k <= |nights| && Due(l, f, threshold, nights, k))
      <==> (exists k :: 0 <= k < |nights| && Expires(l, nights[k]))
           || BelowWithin(Current(l.confidence), f, Ceiling(threshold), |nights|)
  {
    hide Decay, Ceiling;
    forall k: nat | 0 < k <= |nights|
      ensures Due(l, f, threshold, nights, k)
        <==> Expires(l, nights[k - 1]) || Score(Current(l.confidence), f, k) < Ceiling(threshold)
    {
      DueExactly(l, f, threshold, nights, k);
    }
    if k :| 0 <= k < |nights| && Expires(l, nights[k]) {
      assert Due(l, f, threshold, nights, k + 1);
    }
  }

  lemma CeilingBelow(threshold: real)
    requires 0.0 <= threshold
    ensures 0 <= Ceiling(threshold)
  {
  }

  /** A threshold that a sweep lowers by more than half a unit is one no lesson can rest above: every open
    lesson is archived after finitely many nights, dated or not, whatever its score. */
  lemma SteepThresholdArchivesAll(l: LessonState, f: real, threshold: real, nights: seq<int>)
    requires Factor(f) && threshold * (1.0 - f) > 0.5
    requires l.archivedAt.None? && |nights| >= Enough(Current(l.confidence))
    ensures Nights(l, f, threshold, nights).archivedAt.Some?
  {
    hide Decay, Nights, Loss, EverBelow, Enough, Expires;
    SteepIsPositive(threshold, f);
    ArchivedExactly(l, f, threshold, nights);
    SteepIsBelow(Current(l.confidence), f, threshold);
  }

  lemma SteepIsBelow(start: int, f: real, threshold: real)
    requires Factor(f) && threshold > 0.0 && threshold * (1.0 - f) > 0.5
    ensures EverBelow(start, f, Ceiling(threshold))
  {
    hide Decay;
    var level := Ceiling(threshold);
    Scale(threshold, level as real, 1.0 - f);
    NeverRises(start, f);
    StuckExactly(level, f);
  }

  lemma SteepIsPositive(threshold: real, f: real)
    requires Factor(f) && threshold * (1.0 - f) > 0.5
    ensures threshold > 0.0
  {
    if threshold <= 0.0 { Scale(threshold, 0.0, 1.0 - f); }
  }
}
