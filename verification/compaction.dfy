/** What compaction drops, and why the greedy loop is one pass over one fixed order. */
module Compaction {
  import opened Context
  import opened Options

  // ---------------------------------------------------------------- the stages

  function Cut(m: Message): Message {
    m.(content := Truncated(m.kind, m.content))
  }

  /** A message as the first stage leaves it in place: stale data untouched, the rest truncated. */
  function Prepared(m: Message): Message {
    if m.Stale() then m else Cut(m)
  }

  /** Stale market data dropped, the rest truncated: what eviction starts from. */
  function Base(ms: seq<Message>): seq<Message> {
    if ms == [] then [] else (if ms[0].Stale() then [] else [Cut(ms[0])]) + Base(ms[1..])
  }

  function Ids(ms: seq<Message>): set<string> {
    set m <- ms :: m.id
  }

  function StaleIds(ms: seq<Message>): set<string> {
    set m <- ms | m.Stale() :: m.id
  }

  /** The ids of the last few messages kept: at least two, the whole list if it is shorter. */
  function RecentIds(base: seq<Message>, reserve: int): set<string> {
    var n := if reserve < 2 then 2 else reserve;
    Ids(if n < |base| then base[|base| - n..] else base)
  }

  /** Recent are the ids among the last so many messages, and never fewer than two of them. */
  lemma RecentAre(base: seq<Message>, reserve: int, id: string)
    ensures var n := if reserve < 2 then 2 else reserve;
            id in RecentIds(base, reserve) <==> exists k :: 0 <= k < |base| && |base| - n <= k && base[k].id == id
  {
    var n := if reserve < 2 then 2 else reserve;
    var tail := if n < |base| then base[|base| - n..] else base;
    if id in RecentIds(base, reserve) {
      var m :| m in tail && m.id == id;
      var i :| 0 <= i < |tail| && tail[i] == m;
      assert base[|base| - |tail| + i] == m;
    }
    if k :| 0 <= k < |base| && |base| - n <= k && base[k].id == id {
      assert tail[k - (|base| - |tail|)] == base[k];
      assert base[k] in tail;
    }
  }

  /** What is left once the ids in `gone` are evicted: pinned messages always stay. */
  function Surviving(base: seq<Message>, gone: set<string>): (r: seq<Message>)
    ensures |r| <= |base|
  {
    if base == [] then []
    else (if base[0].important || base[0].id !in gone then [base[0]] else []) + Surviving(base[1..], gone)
  }

  function Pinned(ms: seq<Message>): seq<Message> {
    if ms == [] then [] else (if ms[0].important then [ms[0]] else []) + Pinned(ms[1..])
  }

  function Unpinned(ms: seq<Message>): seq<Message> {
    if ms == [] then [] else (if ms[0].important then [] else [ms[0]]) + Unpinned(ms[1..])
  }

  /** The ids sharing a call id. A missing or empty call id groups nothing. */
  function PairGroup(ms: seq<Message>, pair: Option<string>): set<string> {
    if Given(pair) then set m <- ms | m.PairId() == pair :: m.id else {}
  }

  /** A call and its result leave together. */
  function Doomed(victim: Message, ms: seq<Message>): set<string> {
    {victim.id} + PairGroup(ms, victim.PairId())
  }

  // ---------------------------------------------------------------- membership

  lemma {:induction false} SurvivingMembers(base: seq<Message>, gone: set<string>, m: Message)
    ensures m in Surviving(base, gone) <==> m in base && (m.important || m.id !in gone)
  {
    if base != [] {
      SurvivingMembers(base[1..], gone, m);
      assert base == [base[0]] + base[1..];
    }
  }

  lemma {:induction false} UnpinnedMembers(ms: seq<Message>, m: Message)
    ensures m in Unpinned(ms) <==> m in ms && !m.important
  {
    if ms != [] {
      UnpinnedMembers(ms[1..], m);
      assert ms == [ms[0]] + ms[1..];
    }
  }

  lemma {:induction false} PinnedMembers(ms: seq<Message>, m: Message)
    ensures m in Pinned(ms) <==> m in ms && m.important
  {
    if ms != [] {
      PinnedMembers(ms[1..], m);
      assert ms == [ms[0]] + ms[1..];
    }
  }

  /** Evicting in two steps is evicting both at once. */
  lemma {:induction false} SurvivingTwice(base: seq<Message>, d: set<string>, e: set<string>)
    ensures Surviving(Surviving(base, d), e) == Surviving(base, d + e)
  {
    if base != [] {
      SurvivingTwice(base[1..], d, e);
      var rest := Surviving(base[1..], d);
      if base[0].important || base[0].id !in d {
        assert ([base[0]] + rest)[1..] == rest;
      } else {
        assert [] + rest == rest;
      }
    }
  }

  lemma {:induction false} NothingEvicted(base: seq<Message>)
    ensures Surviving(base, {}) == base
  {
    if base != [] { NothingEvicted(base[1..]); }
  }

  // ---------------------------------------------------------------- the eviction loop

  /** The unpinned messages not yet evicted. */
  function Candidates(base: seq<Message>, gone: set<string>): seq<Message> {
    Unpinned(Surviving(base, gone))
  }

  /** Drop from a list the messages whose ids are gone. */
  function Without(ms: seq<Message>, gone: set<string>): (r: seq<Message>)
    ensures |r| <= |ms|
  {
    if ms == [] then [] else (if ms[0].id in gone then [] else [ms[0]]) + Without(ms[1..], gone)
  }

  lemma {:induction false} CandidatesAre(base: seq<Message>, gone: set<string>)
    ensures Candidates(base, gone) == Without(Unpinned(base), gone)
  {
    if base != [] {
      CandidatesAre(base[1..], gone);
      var rest, unpinned := Surviving(base[1..], gone), Unpinned(base[1..]);
      assert ([base[0]] + rest)[1..] == rest && [] + rest == rest;
      assert ([base[0]] + unpinned)[1..] == unpinned && [] + unpinned == unpinned;
    }
  }

  lemma {:induction false} WithoutTwice(ms: seq<Message>, d: set<string>, e: set<string>)
    ensures Without(Without(ms, d), d + e) == Without(ms, d + e)
  {
    if ms != [] {
      WithoutTwice(ms[1..], d, e);
      var rest := Without(ms[1..], d);
      assert ([ms[0]] + rest)[1..] == rest && [] + rest == rest;
    }
  }

  lemma {:induction false} WithoutMembers(ms: seq<Message>, gone: set<string>, m: Message)
    ensures m in Without(ms, gone) <==> m in ms && m.id !in gone
  {
    if ms != [] {
      WithoutMembers(ms[1..], gone, m);
      assert ms == [ms[0]] + ms[1..];
    }
  }

  lemma {:induction false} WithoutShrinks(ms: seq<Message>, gone: set<string>, m: Message)
    requires m in ms && m.id in gone
    ensures |Without(ms, gone)| < |ms|
  {
    if ms[0].id !in gone {
      assert ms == [ms[0]] + ms[1..];
      WithoutShrinks(ms[1..], gone, m);
    }
  }

  /** Each victim was a candidate, so `kept` strictly shrinks. */
  lemma EvictionShrinks(k: Ranking, base: seq<Message>, gone: set<string>)
    requires Sort(k, Candidates(base, gone)) != []
    ensures var victim := Sort(k, Candidates(base, gone))[0];
            && victim in Candidates(base, gone) && victim in Surviving(base, gone)
            && |Candidates(base, gone + Doomed(victim, Surviving(base, gone)))| < |Candidates(base, gone)|
  {
    hide Score;
    var c := Candidates(base, gone);
    var victim := Sort(k, c)[0];
    SortSorts(k, c);
    assert victim in multiset(c);
    UnpinnedMembers(Surviving(base, gone), victim);
    var more := Doomed(victim, Surviving(base, gone));
    CandidatesAre(base, gone);
    CandidatesAre(base, gone + more);
    WithoutTwice(Unpinned(base), gone, more);
    WithoutShrinks(c, gone + more, victim);
  }

  /** The loop as it is written: sort what is left, evict the first, with its pair, until it fits. */
  function Evict(k: Ranking, budget: nat, base: seq<Message>, gone: set<string>): set<string>
    decreases |Candidates(base, gone)|
  {
    if Cost(Surviving(base, gone)) <= budget then gone
    else
      var order := Sort(k, Candidates(base, gone));
      if order == [] then gone
      else
        EvictionShrinks(k, base, gone);
        Evict(k, budget, base, gone + Doomed(order[0], Surviving(base, gone)))
  }

  /** The same decision as one walk along one fixed order. */
  function OnePass(budget: nat, base: seq<Message>, order: seq<Message>, gone: set<string>): set<string> {
    if order == [] || Cost(Surviving(base, gone)) <= budget then gone
    else OnePass(budget, base, order[1..], if order[0].id in gone then gone else gone + Doomed(order[0], base))
  }

  /** The fixed order: every unpinned message, lowest rank first, earlier position on a tie. */
  function StaticOrder(k: Ranking, base: seq<Message>): seq<Message> {
    Sort(k, Unpinned(base))
  }

  // ---------------------------------------------------------------- refinement

  /** Pair members already evicted add no new ids. */
  lemma DoomedOverall(victim: Message, base: seq<Message>, gone: set<string>)
    ensures gone + Doomed(victim, Surviving(base, gone)) == gone + Doomed(victim, base)
  {
    forall m <- base
      ensures m in Surviving(base, gone) || m.id in gone
    {
      SurvivingMembers(base, gone, m);
    }
    forall m <- Surviving(base, gone)
      ensures m in base
    {
      SurvivingMembers(base, gone, m);
    }
  }

  /** In a sorted list, dropping ids commutes with inserting. */
  lemma {:induction false} InsertWithout(k: Ranking, m: Message, s: seq<Message>, gone: set<string>)
    requires Sorted(k, s)
    ensures Without(Insert(k, m, s), gone)
         == if m.id in gone then Without(s, gone) else Insert(k, m, Without(s, gone))
  {
    hide Score;
    if s == [] {
    } else if RankLeq(k.Of(m), k.Of(s[0])) {
      assert ([m] + s)[1..] == s;
      FirstStays(k, m, s, gone);
    } else {
      var t := Insert(k, m, s[1..]);
      assert ([s[0]] + t)[1..] == t;
      InsertWithout(k, m, s[1..], gone);
      var rest := Without(s[1..], gone);
      assert [] + rest == rest && ([s[0]] + rest)[1..] == rest;
    }
  }

  lemma FirstStays(k: Ranking, m: Message, s: seq<Message>, gone: set<string>)
    requires Sorted(k, s) && s != [] && RankLeq(k.Of(m), k.Of(s[0]))
    ensures Insert(k, m, Without(s, gone)) == [m] + Without(s, gone)
  {
    hide Score;
    var w := Without(s, gone);
    if w != [] {
      WithoutMembers(s, gone, w[0]);
      var i :| 0 <= i < |s| && s[i] == w[0];
      assert i == 0 || RankLeq(k.Of(s[0]), k.Of(s[i]));
    }
  }

  /** Re-sorting what is left gives what is left of the sorted whole. */
  lemma {:induction false} SortWithout(k: Ranking, ms: seq<Message>, gone: set<string>)
    ensures Sort(k, Without(ms, gone)) == Without(Sort(k, ms), gone)
  {
    hide Score, RankLeq;
    if ms != [] {
      SortWithout(k, ms[1..], gone);
      SortSorts(k, ms[1..]);
      InsertWithout(k, ms[0], Sort(k, ms[1..]), gone);
      var rest := Without(ms[1..], gone);
      assert [] + rest == rest && ([ms[0]] + rest)[1..] == rest;
    }
  }

  lemma ResortedCandidates(k: Ranking, base: seq<Message>, gone: set<string>)
    ensures Sort(k, Candidates(base, gone)) == Without(StaticOrder(k, base), gone)
  {
    hide Score, RankLeq, Insert;
    CandidatesAre(base, gone);
    SortWithout(k, Unpinned(base), gone);
  }

  /** From any point of the walk at which the rest of the order is what is left to evict. */
  lemma {:induction false} EvictFromHere(k: Ranking, budget: nat, base: seq<Message>, order: seq<Message>, gone: set<string>)
    requires Without(StaticOrder(k, base), gone) == Without(order, gone)
    ensures Evict(k, budget, base, gone) == OnePass(budget, base, order, gone)
    decreases |order|
  {
    hide Score, RankLeq, Insert, Surviving, Cost, Doomed, StaticOrder, Candidates;
    ResortedCandidates(k, base, gone);
    if order != [] && Cost(Surviving(base, gone)) > budget {
      var rest := Without(order[1..], gone);
      assert [] + rest == rest;
      if order[0].id in gone {
        EvictFromHere(k, budget, base, order[1..], gone);
      } else {
        var next := gone + Doomed(order[0], base);
        DoomedOverall(order[0], base, gone);
        WalkOn(k, base, order, gone);
        EvictFromHere(k, budget, base, order[1..], next);
      }
    }
  }

  lemma WalkOn(k: Ranking, base: seq<Message>, order: seq<Message>, gone: set<string>)
    requires order != [] && Without(StaticOrder(k, base), gone) == Without(order, gone)
    ensures var next := gone + Doomed(order[0], base);
            Without(StaticOrder(k, base), next) == Without(order[1..], next)
  {
    hide StaticOrder, PairGroup;
    var more := Doomed(order[0], base);
    WithoutTwice(StaticOrder(k, base), gone, more);
    WithoutTwice(order, gone, more);
    var rest := Without(order[1..], gone + more);
    assert [] + rest == rest;
  }

  lemma {:induction false} WithoutNothing(ms: seq<Message>)
    ensures Without(ms, {}) == ms
  {
    if ms != [] { WithoutNothing(ms[1..]); }
  }

  /** The loop that re-sorts every round evicts exactly what one pass over the fixed order does. */
  lemma EvictionIsOnePass(k: Ranking, budget: nat, base: seq<Message>)
    ensures Evict(k, budget, base, {}) == OnePass(budget, base, StaticOrder(k, base), {})
  {
    WithoutNothing(StaticOrder(k, base));
    EvictFromHere(k, budget, base, StaticOrder(k, base), {});
  }

  // ---------------------------------------------------------------- who goes first

  /** The messages the walk picks, as opposed to those that leave with them. */
  function Victims(budget: nat, base: seq<Message>, order: seq<Message>, gone: set<string>): seq<Message> {
    if order == [] || Cost(Surviving(base, gone)) <= budget then []
    else if order[0].id in gone then Victims(budget, base, order[1..], gone)
    else [order[0]] + Victims(budget, base, order[1..], gone + Doomed(order[0], base))
  }

  lemma {:induction false} OnePassGrows(budget: nat, base: seq<Message>, order: seq<Message>, gone: set<string>)
    ensures gone <= OnePass(budget, base, order, gone)
    decreases |order|
  {
    hide Surviving, Cost, Doomed;
    if order != [] && Cost(Surviving(base, gone)) > budget {
      OnePassGrows(budget, base, order[1..], if order[0].id in gone then gone else gone + Doomed(order[0], base));
    }
  }

  lemma {:induction false} VictimsRankLowest(k: Ranking, budget: nat, base: seq<Message>, order: seq<Message>,
                                             gone: set<string>, victim: Message, survivor: Message)
    requires Sorted(k, order) && survivor in order
    requires victim in Victims(budget, base, order, gone)
    requires survivor.id !in OnePass(budget, base, order, gone)
    ensures RankLeq(k.Of(victim), k.Of(survivor))
    decreases |order|
  {
    hide Score, Surviving, Cost, PairGroup, RankLeq;
    OnePassGrows(budget, base, order, gone);
    var next := if order[0].id in gone then gone else gone + Doomed(order[0], base);
    OnePassGrows(budget, base, order[1..], next);
    assert survivor != order[0];
    var j :| 0 <= j < |order| && order[j] == survivor;
    assert order[1..][j - 1] == survivor;
    if victim == order[0] {
      assert RankLeq(k.Of(order[0]), k.Of(order[j]));
    } else {
      assert victim in Victims(budget, base, order[1..], next);
      VictimsRankLowest(k, budget, base, order[1..], next, victim, survivor);
    }
  }

  /** Every unpinned message left ranks at least as high as every message picked for eviction. */
  lemma SurvivorsOutrankVictims(k: Ranking, budget: nat, base: seq<Message>, victim: Message, survivor: Message)
    requires victim in Victims(budget, base, StaticOrder(k, base), {})
    requires survivor in Candidates(base, Evict(k, budget, base, {}))
    ensures RankLeq(k.Of(victim), k.Of(survivor))
  {
    hide Score, RankLeq, Insert, Cost, Victims, OnePass, Evict;
    var order := StaticOrder(k, base);
    var gone := Evict(k, budget, base, {});
    EvictionIsOnePass(k, budget, base);
    SortSorts(k, Unpinned(base));
    UnpinnedMembers(Surviving(base, gone), survivor);
    SurvivingMembers(base, gone, survivor);
    UnpinnedMembers(base, survivor);
    assert survivor in multiset(Unpinned(base));
    assert survivor in multiset(order);
    VictimsRankLowest(k, budget, base, order, {}, victim, survivor);
  }

  // ---------------------------------------------------------------- repair

  function CallIds(ms: seq<Message>): set<Option<string>> {
    set m <- ms | m.kind.ToolCall? :: m.toolCallId
  }

  function ResultIds(ms: seq<Message>): set<Option<string>> {
    set m <- ms | m.kind.ToolResult? :: m.toolCallId
  }

  /** The ids that have both a call and a result. */
  function CompleteIds(ms: seq<Message>): set<Option<string>> {
    CallIds(ms) * ResultIds(ms)
  }

  predicate Orphan(m: Message, complete: set<Option<string>>) {
    m.PairId().Some? && m.PairId() !in complete
  }

  function DropOrphans(ms: seq<Message>, complete: set<Option<string>>): (r: seq<Message>)
    ensures |r| <= |ms|
  {
    if ms == [] then []
    else (if Orphan(ms[0], complete) then [] else [ms[0]]) + DropOrphans(ms[1..], complete)
  }

  function Repair(ms: seq<Message>): seq<Message> {
    DropOrphans(ms, CompleteIds(ms))
  }

  function OrphanIds(ms: seq<Message>, complete: set<Option<string>>): seq<string> {
    if ms == [] then [] else (if Orphan(ms[0], complete) then [ms[0].id] else []) + OrphanIds(ms[1..], complete)
  }

  lemma {:induction false} DropOrphansMembers(ms: seq<Message>, complete: set<Option<string>>, m: Message)
    ensures m in DropOrphans(ms, complete) <==> m in ms && !Orphan(m, complete)
  {
    if ms != [] {
      DropOrphansMembers(ms[1..], complete, m);
      assert ms == [ms[0]] + ms[1..];
    }
  }

  lemma {:induction false} NoOrphansToDrop(ms: seq<Message>, complete: set<Option<string>>)
    requires forall m <- ms :: !Orphan(m, complete)
    ensures DropOrphans(ms, complete) == ms
  {
    if ms != [] { NoOrphansToDrop(ms[1..], complete); }
  }

  /** Dropping orphans takes nothing from a complete pair. */
  lemma RepairKeepsCompleteness(ms: seq<Message>)
    ensures CompleteIds(Repair(ms)) == CompleteIds(ms)
  {
    var complete := CompleteIds(ms);
    forall m | m in ms && m.Tool() && m.toolCallId in complete
      ensures m in Repair(ms)
    {
      DropOrphansMembers(ms, complete, m);
    }
    forall m | m in Repair(ms)
      ensures m in ms
    {
      DropOrphansMembers(ms, complete, m);
    }
    assert CallIds(Repair(ms)) <= CallIds(ms) && ResultIds(Repair(ms)) <= ResultIds(ms);
    assert complete <= CallIds(Repair(ms)) && complete <= ResultIds(Repair(ms));
  }

  /** The two sides of one tool exchange. */
  predicate Answers(m: Message, n: Message) {
    m.toolCallId == n.toolCallId && ((m.kind.ToolCall? && n.kind.ToolResult?) || (m.kind.ToolResult? && n.kind.ToolCall?))
  }

  /** Every tool message with an id has its counterpart in the list. */
  ghost predicate Paired(ms: seq<Message>) {
    forall m :: m in ms && m.PairId().Some? ==> exists n :: n in ms && Answers(m, n)
  }

  lemma CompleteMeansPaired(ms: seq<Message>)
    requires forall m <- ms :: !Orphan(m, CompleteIds(ms))
    ensures Paired(ms)
  {
    forall m | m in ms && m.PairId().Some?
      ensures exists n :: n in ms && Answers(m, n)
    {
      assert m.toolCallId in CompleteIds(ms);
      if m.kind.ToolCall? {
        assert m.toolCallId in ResultIds(ms);
        var n :| n in ms && n.kind.ToolResult? && n.toolCallId == m.toolCallId;
        assert Answers(m, n);
      } else {
        assert m.toolCallId in CallIds(ms);
        var n :| n in ms && n.kind.ToolCall? && n.toolCallId == m.toolCallId;
        assert Answers(m, n);
      }
    }
  }

  /** One repair pass leaves no call or result alone, and a second pass would change nothing. */
  lemma OneRepairIsEnough(ms: seq<Message>)
    ensures Paired(Repair(ms))
    ensures Repair(Repair(ms)) == Repair(ms)
  {
    hide CompleteIds, Orphan, Paired;
    RepairKeepsCompleteness(ms);
    forall m <- Repair(ms)
      ensures !Orphan(m, CompleteIds(Repair(ms)))
    {
      DropOrphansMembers(ms, CompleteIds(ms), m);
    }
    CompleteMeansPaired(Repair(ms));
    NoOrphansToDrop(Repair(ms), CompleteIds(Repair(ms)));
  }

  /** A message leaves in repair exactly when its counterpart is missing. */
  lemma RepairDropsExactlyTheUnpaired(ms: seq<Message>, m: Message)
    ensures m in Repair(ms) <==> m in ms && (m.PairId().Some? ==> exists n :: n in ms && Answers(m, n))
  {
    DropOrphansMembers(ms, CompleteIds(ms), m);
    if m in ms && m.PairId().Some? {
      if !Orphan(m, CompleteIds(ms)) {
        if m.kind.ToolCall? {
          var n :| n in ms && n.kind.ToolResult? && n.toolCallId == m.toolCallId;
          assert Answers(m, n);
        } else {
          var n :| n in ms && n.kind.ToolCall? && n.toolCallId == m.toolCallId;
          assert Answers(m, n);
        }
      }
      if n :| n in ms && Answers(m, n) {
        assert m.toolCallId in CallIds(ms) && m.toolCallId in ResultIds(ms);
      }
    }
  }

  // ---------------------------------------------------------------- the result

  /** The messages a compaction ends with, before the budget is checked for the last time. */
  function Compacted(k: Ranking, budget: nat, base: seq<Message>): seq<Message> {
    Repair(Surviving(base, Evict(k, budget, base, {})))
  }

  lemma {:induction false} DropOrphansCostsLess(ms: seq<Message>, complete: set<Option<string>>)
    ensures Cost(DropOrphans(ms, complete)) <= Cost(ms)
  {
    if ms != [] {
      DropOrphansCostsLess(ms[1..], complete);
      var rest := DropOrphans(ms[1..], complete);
      assert [] + rest == rest && ([ms[0]] + rest)[1..] == rest;
    }
  }

  lemma {:induction false} PinnedCostsLess(base: seq<Message>, gone: set<string>)
    ensures Cost(Pinned(base)) <= Cost(Surviving(base, gone))
  {
    if base != [] {
      PinnedCostsLess(base[1..], gone);
      var pinned, rest := Pinned(base[1..]), Surviving(base[1..], gone);
      assert [] + pinned == pinned && ([base[0]] + pinned)[1..] == pinned;
      assert [] + rest == rest && ([base[0]] + rest)[1..] == rest;
    }
  }

  lemma {:induction false} OnlyPinnedLeft(base: seq<Message>, gone: set<string>)
    requires Candidates(base, gone) == []
    ensures Surviving(base, gone) == Pinned(base)
  {
    if base != [] {
      var rest := Surviving(base[1..], gone);
      assert [] + rest == rest && ([base[0]] + rest)[1..] == rest;
      OnlyPinnedLeft(base[1..], gone);
    }
  }

  lemma SortEmpty(k: Ranking, ms: seq<Message>)
    ensures Sort(k, ms) == [] <==> ms == []
  {
    hide Score;
    SortSorts(k, ms);
    assert |multiset(Sort(k, ms))| == |Sort(k, ms)| && |multiset(ms)| == |ms|;
  }

  /** The loop ends because the rest fits, or because only pinned messages are left. */
  lemma {:induction false} EvictEnds(k: Ranking, budget: nat, base: seq<Message>, gone: set<string>)
    ensures var e := Evict(k, budget, base, gone);
            Cost(Surviving(base, e)) <= budget || Candidates(base, e) == []
    decreases |Candidates(base, gone)|
  {
    hide Score, RankLeq, Insert, Surviving, Cost, Candidates;
    var order := Sort(k, Candidates(base, gone));
    if Cost(Surviving(base, gone)) > budget {
      if order == [] {
        SortEmpty(k, Candidates(base, gone));
      } else {
        EvictionShrinks(k, base, gone);
        EvictEnds(k, budget, base, gone + Doomed(order[0], Surviving(base, gone)));
      }
    }
  }

  /** Compaction overflows exactly when the pinned messages alone, repaired, do not fit. */
  lemma OverflowExactly(k: Ranking, budget: nat, base: seq<Message>)
    ensures Cost(Compacted(k, budget, base)) > budget <==> Cost(Repair(Pinned(base))) > budget
    ensures Cost(Compacted(k, budget, base)) > budget ==> Compacted(k, budget, base) == Repair(Pinned(base))
  {
    hide Score, Cost, Evict, CompleteIds, DropOrphans, Surviving, Candidates;
    var e := Evict(k, budget, base, {});
    var left := Surviving(base, e);
    EvictEnds(k, budget, base, {});
    DropOrphansCostsLess(left, CompleteIds(left));
    DropOrphansCostsLess(Pinned(base), CompleteIds(Pinned(base)));
    PinnedCostsLess(base, e);
    if Candidates(base, e) == [] { OnlyPinnedLeft(base, e); }
  }

  /** A conversation that already fits loses nothing to eviction. */
  lemma NothingEvictedWhenItFits(k: Ranking, budget: nat, base: seq<Message>)
    requires Cost(base) <= budget
    ensures Evict(k, budget, base, {}) == {} && Compacted(k, budget, base) == Repair(base)
  {
    NothingEvicted(base);
  }

  /** A pinned message survives exactly when it is no tool message, or its counterpart survives too. */
  lemma PinnedMessagesSurvive(k: Ranking, budget: nat, base: seq<Message>, m: Message)
    requires m in base && m.important
    ensures var left := Surviving(base, Evict(k, budget, base, {}));
            m in Compacted(k, budget, base)
            <==> (m.PairId().Some? ==> exists n :: n in left && Answers(m, n))
    ensures !m.Tool() ==> m in Compacted(k, budget, base)
  {
    hide Score, Cost, Evict, CompleteIds, DropOrphans, Surviving, Candidates;
    var e := Evict(k, budget, base, {});
    SurvivingMembers(base, e, m);
    RepairDropsExactlyTheUnpaired(Surviving(base, e), m);
  }

  // ---------------------------------------------------------------- order

  /** `a` is `b` with some elements left out and none moved. */
  ghost predicate Subsequence<T(!new)>(a: seq<T>, b: seq<T>) {
    if a == [] then true
    else if b == [] then false
    else (a[0] == b[0] && Subsequence(a[1..], b[1..])) || Subsequence(a, b[1..])
  }

  lemma {:induction false} SubsequenceTrans<T(!new)>(a: seq<T>, b: seq<T>, c: seq<T>)
    requires Subsequence(a, b) && Subsequence(b, c)
    ensures Subsequence(a, c)
    decreases |b| + |c|
  {
    if a != [] {
      if b[0] == c[0] && Subsequence(b[1..], c[1..]) {
        if a[0] == b[0] && Subsequence(a[1..], b[1..]) {
          SubsequenceTrans(a[1..], b[1..], c[1..]);
        } else {
          SubsequenceTrans(a, b[1..], c[1..]);
        }
      } else {
        SubsequenceTrans(a, b, c[1..]);
      }
    }
  }

  lemma {:induction false} SurvivingSubsequence(base: seq<Message>, gone: set<string>)
    ensures Subsequence(Surviving(base, gone), base)
  {
    if base != [] {
      SurvivingSubsequence(base[1..], gone);
      var rest := Surviving(base[1..], gone);
      assert [] + rest == rest && ([base[0]] + rest)[1..] == rest;
    }
  }

  lemma {:induction false} DropOrphansSubsequence(ms: seq<Message>, complete: set<Option<string>>)
    ensures Subsequence(DropOrphans(ms, complete), ms)
  {
    if ms != [] {
      DropOrphansSubsequence(ms[1..], complete);
      var rest := DropOrphans(ms[1..], complete);
      assert [] + rest == rest && ([ms[0]] + rest)[1..] == rest;
    }
  }

  function CutAll(ms: seq<Message>): seq<Message> {
    if ms == [] then [] else [Cut(ms[0])] + CutAll(ms[1..])
  }

  lemma {:induction false} BaseSubsequence(ms: seq<Message>)
    ensures Subsequence(Base(ms), CutAll(ms))
  {
    hide Cut;
    if ms != [] {
      BaseSubsequence(ms[1..]);
      var rest, all := Base(ms[1..]), CutAll(ms[1..]);
      assert [] + rest == rest && ([Cut(ms[0])] + rest)[1..] == rest;
      assert ([Cut(ms[0])] + all)[1..] == all;
    }
  }

  /** The result is the input, truncated, with messages left out and none moved. */
  lemma ResultKeepsOrder(k: Ranking, budget: nat, ms: seq<Message>)
    ensures Subsequence(Compacted(k, budget, Base(ms)), CutAll(ms))
  {
    hide Score, Cost, Evict, CompleteIds, DropOrphans, Surviving, Base, CutAll, Subsequence;
    var left := Surviving(Base(ms), Evict(k, budget, Base(ms), {}));
    DropOrphansSubsequence(left, CompleteIds(left));
    SurvivingSubsequence(Base(ms), Evict(k, budget, Base(ms), {}));
    BaseSubsequence(ms);
    SubsequenceTrans(Repair(left), left, Base(ms));
    SubsequenceTrans(Repair(left), Base(ms), CutAll(ms));
  }

  // ---------------------------------------------------------------- pairs and ids

  ghost predicate UniqueIds(ms: seq<Message>) {
    forall m, n :: m in ms && n in ms && m.id == n.id ==> m == n
  }

  /** Every evicted id is a victim's, or shares a victim's call id; and its whole group goes. */
  lemma {:induction false} EvictedOrigin(budget: nat, base: seq<Message>, order: seq<Message>, gone: set<string>, id: string)
    returns (victim: Message)
    requires id in OnePass(budget, base, order, gone) && id !in gone
    ensures victim in order && id in Doomed(victim, base) && Doomed(victim, base) <= OnePass(budget, base, order, gone)
    decreases |order|
  {
    hide Surviving, Cost, PairGroup;
    var next := if order[0].id in gone then gone else gone + Doomed(order[0], base);
    OnePassGrows(budget, base, order[1..], next);
    if id in next {
      victim := order[0];
    } else {
      victim := EvictedOrigin(budget, base, order[1..], next, id);
    }
  }

  lemma EvictedBy(k: Ranking, budget: nat, base: seq<Message>, id: string) returns (victim: Message)
    requires id in Evict(k, budget, base, {})
    ensures victim in base && !victim.important
    ensures id in Doomed(victim, base) && Doomed(victim, base) <= Evict(k, budget, base, {})
  {
    hide Score, Cost, Evict, OnePass, Surviving, PairGroup;
    EvictionIsOnePass(k, budget, base);
    victim := EvictedOrigin(budget, base, StaticOrder(k, base), {}, id);
    SortSorts(k, Unpinned(base));
    assert victim in multiset(StaticOrder(k, base));
    assert victim in multiset(Unpinned(base));
    UnpinnedMembers(base, victim);
  }

  /** Evicting an unpinned call or result takes everything with its call id along. */
  lemma PairsLeaveTogether(k: Ranking, budget: nat, base: seq<Message>, m: Message, n: Message)
    requires UniqueIds(base) && m in base && n in base
    requires !m.important && m.id in Evict(k, budget, base, {})
    requires Given(m.PairId()) && n.PairId() == m.PairId()
    ensures n.id in Evict(k, budget, base, {})
    ensures !n.important ==> n !in Compacted(k, budget, base)
  {
    hide Score, Cost, Evict, CompleteIds, DropOrphans, Surviving;
    var e := Evict(k, budget, base, {});
    var v := EvictedBy(k, budget, base, m.id);
    assert n.id in PairGroup(base, m.PairId());
    if m.id in PairGroup(base, v.PairId()) {
      var m' :| m' in base && m'.PairId() == v.PairId() && m'.id == m.id;
      assert m' == m;
    }
    assert n.id in Doomed(v, base);
    SurvivingMembers(base, e, n);
    DropOrphansMembers(Surviving(base, e), CompleteIds(Surviving(base, e)), n);
  }

  /** A message that was kept is nevertheless listed as removed exactly when it is pinned and an
      unpinned message with its call id was evicted. */
  lemma KeptYetListed(k: Ranking, budget: nat, base: seq<Message>, m: Message)
    requires UniqueIds(base) && m in Compacted(k, budget, base)
    ensures var e := Evict(k, budget, base, {});
            m.id in e <==> exists v :: v in base && !v.important && v.id in e && Given(v.PairId()) && v.PairId() == m.PairId()
  {
    hide Score, Cost, Evict, CompleteIds, DropOrphans, Surviving;
    var e := Evict(k, budget, base, {});
    SurvivingMembers(base, e, m);
    DropOrphansMembers(Surviving(base, e), CompleteIds(Surviving(base, e)), m);
    if m.id in e {
      var v := EvictedBy(k, budget, base, m.id);
      assert m.important;
      assert m.id in PairGroup(base, v.PairId());
      var m' :| m' in base && m'.PairId() == v.PairId() && m'.id == m.id;
      assert m' == m;
      assert v.id in Doomed(v, base);
    }
    if v :| v in base && !v.important && v.id in e && Given(v.PairId()) && v.PairId() == m.PairId() {
      PairsLeaveTogether(k, budget, base, v, m);
    }
  }

  /** A call id names one call and one result. */
  ghost predicate TwoPerPair(ms: seq<Message>) {
    forall a, b, c :: a in ms && b in ms && c in ms && a.PairId().Some? && a.PairId() == b.PairId() == c.PairId()
      ==> a == b || b == c || a == c
  }

  lemma KeptIsNotListed(k: Ranking, budget: nat, base: seq<Message>, m: Message)
    requires UniqueIds(base) && TwoPerPair(base) && m in Compacted(k, budget, base)
    ensures m.id !in Evict(k, budget, base, {})
  {
    hide Score, Cost, Evict, CompleteIds, DropOrphans, Surviving;
    var e := Evict(k, budget, base, {});
    var left := Surviving(base, e);
    if m.id in e {
      KeptYetListed(k, budget, base, m);
      var v :| v in base && !v.important && v.id in e && Given(v.PairId()) && v.PairId() == m.PairId();
      RepairDropsExactlyTheUnpaired(left, m);
      var n :| n in left && Answers(m, n);
      SurvivingMembers(base, e, m);
      SurvivingMembers(base, e, n);
      SurvivingMembers(base, e, v);
    }
  }

  lemma {:induction false} BaseMembers(ms: seq<Message>, m: Message)
    ensures m in Base(ms) <==> exists o :: o in ms && !o.Stale() && m == Cut(o)
  {
    hide Cut;
    if ms != [] {
      BaseMembers(ms[1..], m);
      assert ms == [ms[0]] + ms[1..];
    }
  }

  function OrphansWarned(k: Ranking, budget: nat, base: seq<Message>): set<string> {
    var left := Surviving(base, Evict(k, budget, base, {}));
    set m <- left | Orphan(m, CompleteIds(left)) :: m.id
  }

  /** Every input message is in the result, or named as dropped, and never both. */
  lemma OutputAndDroppedPartition(k: Ranking, budget: nat, ms: seq<Message>)
    requires UniqueIds(ms) && TwoPerPair(Base(ms))
    ensures var base := Base(ms);
            var dropped := StaleIds(ms) + Evict(k, budget, base, {}) + OrphansWarned(k, budget, base);
            && Ids(Compacted(k, budget, base)) + dropped == Ids(ms)
            && Ids(Compacted(k, budget, base)) !! dropped
  {
    hide Score, Cost, Evict, CompleteIds, DropOrphans, Surviving, Base, Orphan, Cut;
    var base := Base(ms);
    var e := Evict(k, budget, base, {});
    var left := Surviving(base, e);
    var result := Compacted(k, budget, base);
    var dropped := StaleIds(ms) + e + OrphansWarned(k, budget, base);
    BaseIdsUnique(ms);
    forall id | id in Ids(ms)
      ensures id in Ids(result) + dropped
    {
      var m :| m in ms && m.id == id;
      InputGoesSomewhere(k, budget, ms, m);
    }
    forall id | id in Ids(result) + dropped
      ensures id in Ids(ms)
    {
      OutputComesFromInput(k, budget, ms, id);
    }
    forall m <- result
      ensures m.id !in dropped
    {
      KeptIsNotListed(k, budget, base, m);
      KeptIsNotStaleOrOrphan(k, budget, ms, m);
    }
  }

  lemma CutKeepsId(m: Message)
    ensures Cut(m).id == m.id && Cut(m).important == m.important && Cut(m).PairId() == m.PairId()
  {
  }

  lemma BaseIdsUnique(ms: seq<Message>)
    requires UniqueIds(ms)
    ensures UniqueIds(Base(ms))
  {
    hide Cut, Base;
    forall m, n | m in Base(ms) && n in Base(ms) && m.id == n.id
      ensures m == n
    {
      BaseMembers(ms, m);
      BaseMembers(ms, n);
      var o :| o in ms && !o.Stale() && m == Cut(o);
      var p :| p in ms && !p.Stale() && n == Cut(p);
      CutKeepsId(o);
      CutKeepsId(p);
    }
  }

  lemma InputGoesSomewhere(k: Ranking, budget: nat, ms: seq<Message>, m: Message)
    requires m in ms
    ensures var base := Base(ms);
            m.id in Ids(Compacted(k, budget, base)) + StaleIds(ms) + Evict(k, budget, base, {}) + OrphansWarned(k, budget, base)
  {
    hide Score, Cost, Evict, CompleteIds, DropOrphans, Surviving, Base, Orphan, Cut;
    if !m.Stale() {
      var base := Base(ms);
      var e := Evict(k, budget, base, {});
      var left := Surviving(base, e);
      var c := Cut(m);
      CutKeepsId(m);
      BaseMembers(ms, c);
      SurvivingMembers(base, e, c);
      DropOrphansMembers(left, CompleteIds(left), c);
    }
  }

  lemma OutputComesFromInput(k: Ranking, budget: nat, ms: seq<Message>, id: string)
    requires var base := Base(ms);
             id in Ids(Compacted(k, budget, base)) + StaleIds(ms) + Evict(k, budget, base, {}) + OrphansWarned(k, budget, base)
    ensures id in Ids(ms)
  {
    hide Score, Cost, Evict, CompleteIds, DropOrphans, Surviving, Base, Orphan, Cut;
    if id !in StaleIds(ms) {
      var base := Base(ms);
      var e := Evict(k, budget, base, {});
      var left := Surviving(base, e);
      var c: Message;
      if id in Ids(Compacted(k, budget, base)) {
        c :| c in Compacted(k, budget, base) && c.id == id;
        DropOrphansMembers(left, CompleteIds(left), c);
        SurvivingMembers(base, e, c);
      } else if id in OrphansWarned(k, budget, base) {
        c :| c in left && c.id == id;
        SurvivingMembers(base, e, c);
      } else {
        var v := EvictedBy(k, budget, base, id);
        c := v;
        if id != v.id { c :| c in base && c.id == id; }
      }
      BaseMembers(ms, c);
      var o :| o in ms && !o.Stale() && c == Cut(o);
      CutKeepsId(o);
    }
  }

  lemma KeptIsNotStaleOrOrphan(k: Ranking, budget: nat, ms: seq<Message>, m: Message)
    requires UniqueIds(ms) && m in Compacted(k, budget, Base(ms))
    ensures m.id !in StaleIds(ms) && m.id !in OrphansWarned(k, budget, Base(ms))
  {
    hide Score, Cost, Evict, CompleteIds, DropOrphans, Surviving, Base, Orphan, Cut;
    var base := Base(ms);
    var e := Evict(k, budget, base, {});
    var left := Surviving(base, e);
    BaseIdsUnique(ms);
    DropOrphansMembers(left, CompleteIds(left), m);
    SurvivingMembers(base, e, m);
    BaseMembers(ms, m);
    var o :| o in ms && !o.Stale() && m == Cut(o);
    CutKeepsId(o);
    if m.id in OrphansWarned(k, budget, base) {
      var n :| n in left && Orphan(n, CompleteIds(left)) && n.id == m.id;
      SurvivingMembers(base, e, n);
    }
  }
}
