/** The compactor itself: messages are objects, and truncation overwrites their text. */
module Compactor {
  import opened Context
  import opened Compaction
  import opened Options
  import opened Sequences

  class ContextMessage {
    const id: string
    const kind: Kind
    var content: string
    const sequence: int
    const symbol: Option<string>
    const timeframe: Option<string>
    const recommendationId: Option<string>
    const analysisId: Option<string>
    const important: bool
    const historical: bool
    const toolCallId: Option<string>
    const toolArguments: string

    constructor (m: Message)
      ensures View() == m
    {
      id, kind, content, sequence := m.id, m.kind, m.content, m.sequence;
      symbol, timeframe := m.symbol, m.timeframe;
      recommendationId, analysisId := m.recommendationId, m.analysisId;
      important, historical := m.important, m.historical;
      toolCallId, toolArguments := m.toolCallId, m.toolArguments;
    }

    function View(): Message
      reads this
    {
      Message(id, kind, content, sequence, symbol, timeframe, recommendationId, analysisId,
              important, historical, toolCallId, toolArguments)
    }

    /** Cut an overlong message in place; says whether it did. */
    method Truncate() returns (cut: bool)
      modifies this
      ensures View() == Cut(old(View()))
      ensures cut == (|old(content)| > ContentLimit(kind))
    {
      var limit := ContentLimit(kind);
      cut := |content| > limit;
      if cut { content := Truncated(kind, content); }
    }
  }

  function Views(ms: seq<ContextMessage>): (vs: seq<Message>)
    reads ms
    ensures |vs| == |ms| && forall i :: 0 <= i < |ms| ==> vs[i] == ms[i].View()
  {
    if ms == [] then [] else [ms[0].View()] + Views(ms[1..])
  }

  datatype Warning = HistoricalDataOmitted(id: string) | UnpairedToolMessageRemoved(id: string)

  datatype Outcome =
    | Fitted(messages: seq<ContextMessage>, estimatedTokens: nat,
             removed: seq<string>, truncated: seq<string>, warnings: seq<Warning>)
    | Overflow(needed: nat)

  // ---------------------------------------------------------------- the reports

  function StaleIdsOf(ms: seq<Message>): seq<string> {
    if ms == [] then [] else (if ms[0].Stale() then [ms[0].id] else []) + StaleIdsOf(ms[1..])
  }

  /** The messages the truncation stage cut, in order. */
  function CutIdsOf(ms: seq<Message>): seq<string> {
    if ms == [] then []
    else (if !ms[0].Stale() && |ms[0].content| > ContentLimit(ms[0].kind) then [ms[0].id] else []) + CutIdsOf(ms[1..])
  }

  function Omitted(ids: seq<string>): seq<Warning> {
    if ids == [] then [] else [HistoricalDataOmitted(ids[0])] + Omitted(ids[1..])
  }

  function Unpaired(ids: seq<string>): seq<Warning> {
    if ids == [] then [] else [UnpairedToolMessageRemoved(ids[0])] + Unpaired(ids[1..])
  }

  /** Everything a compaction reports, as a function of the conversation it was given: the stale ids, the ids
    listed when their messages were met and cut, and what is made of the messages that are left. */
  ghost predicate Reports(r: Outcome, q: Query, reserve: int, budget: nat, stale: seq<string>, cut: seq<string>,
                          base: seq<Message>, after: seq<Message>)
    requires r.Fitted?
  {
    var k := Ranking(q, RecentIds(base, reserve));
    var gone := Evict(k, budget, base, {});
    var left := Surviving(base, gone);
    && after == Compacted(k, budget, base)
    && r.estimatedTokens == Cost(after)
    && stale <= r.removed && Listed(k, budget, base, {}, r.removed[|stale|..])
    && r.truncated == cut
    && r.warnings == Omitted(stale) + Unpaired(OrphanIds(left, CompleteIds(left)))
  }

  // ---------------------------------------------------------------- the order of the ids

  predicate LexLess(a: string, b: string) {
    if b == [] then false
    else if a == [] then true
    else a[0] < b[0] || (a[0] == b[0] && LexLess(a[1..], b[1..]))
  }

  /** One comes first when it is a proper beginning of the other, or has the smaller character where they first differ. */
  lemma {:induction false} LexIs(a: string, b: string, k: nat)
    requires k <= |a| && k <= |b| && a[..k] == b[..k] && (k < |a| && k < |b| ==> a[k] != b[k])
    ensures LexLess(a, b) <==> k < |b| && (k == |a| || a[k] < b[k])
    decreases k
  {
    if k > 0 {
      assert a[0] == a[..k][0] == b[..k][0] == b[0];
      assert a[1..][..k - 1] == a[..k][1..] && b[1..][..k - 1] == b[..k][1..];
      LexIs(a[1..], b[1..], k - 1);
    }
  }

  lemma {:induction false} LexTotal(a: string, b: string)
    ensures LexLess(a, b) || LexLess(b, a) || a == b
    ensures !(LexLess(a, b) && (LexLess(b, a) || a == b))
  {
    if a != [] && b != [] {
      LexTotal(a[1..], b[1..]);
      assert a == [a[0]] + a[1..] && b == [b[0]] + b[1..];
    }
  }

  lemma {:induction false} LexTransitive(a: string, b: string, c: string)
    requires LexLess(a, b) && LexLess(b, c)
    ensures LexLess(a, c)
  {
    if a != [] && a[0] == b[0] == c[0] { LexTransitive(a[1..], b[1..], c[1..]); }
  }

  /** The ids of a set, each once, in order. */
  ghost predicate Listing(listed: seq<string>, ids: set<string>) {
    && (forall id :: id in listed <==> id in ids)
    && forall i, j :: 0 <= i < j < |listed| ==> LexLess(listed[i], listed[j])
  }

  /** There is one such list. */
  lemma {:induction false} ListingIsUnique(a: seq<string>, b: seq<string>, ids: set<string>)
    requires Listing(a, ids) && Listing(b, ids)
    ensures a == b
    decreases |a|
  {
    hide LexLess;
    ListingCounts(a, ids);
    ListingCounts(b, ids);
    if a != [] {
      assert a[0] in a;
      if a[0] != b[0] {
        assert b[0] in b;
        FirstIsLeast(a, b[0]);
        FirstIsLeast(b, a[0]);
        LexTotal(a[0], b[0]);
        assert false;
      }
      RestLists(a, ids);
      RestLists(b, ids);
      ListingIsUnique(a[1..], b[1..], ids - {a[0]});
      assert a == [a[0]] + a[1..] && b == [b[0]] + b[1..];
    }
  }

  lemma FirstIsLeast(a: seq<string>, id: string)
    requires a != [] && id in a && id != a[0] && forall i, j :: 0 <= i < j < |a| ==> LexLess(a[i], a[j])
    ensures LexLess(a[0], id)
  {
    hide LexLess;
    var i :| 0 <= i < |a| && a[i] == id;
  }

  lemma RestLists(a: seq<string>, ids: set<string>)
    requires a != [] && Listing(a, ids)
    ensures Listing(a[1..], ids - {a[0]})
  {
    hide LexLess;
    forall id
      ensures id in a[1..] <==> id in ids - {a[0]}
    {
      if id in a[1..] {
        var i :| 0 <= i < |a| - 1 && a[1..][i] == id;
        LexTotal(a[0], a[i + 1]);
        assert a[i + 1] in a;
      }
    }
  }

  /** Round by round, each round's ids in order. */
  ghost predicate Listed(k: Ranking, budget: nat, base: seq<Message>, gone: set<string>, evicted: seq<string>)
    decreases |Candidates(base, gone)|
  {
    if Cost(Surviving(base, gone)) <= budget || Sort(k, Candidates(base, gone)) == [] then evicted == []
    else
      EvictionShrinks(k, base, gone);
      var doomed := Doomed(Sort(k, Candidates(base, gone))[0], Surviving(base, gone));
      && |doomed| <= |evicted| && Listing(evicted[..|doomed|], doomed)
      && Listed(k, budget, base, gone + doomed, evicted[|doomed|..])
  }

  /** What is listed is what was evicted. */
  lemma {:induction false} ListedAreEvicted(k: Ranking, budget: nat, base: seq<Message>, gone: set<string>, evicted: seq<string>)
    requires Listed(k, budget, base, gone, evicted)
    ensures forall id :: id in evicted || id in gone <==> id in Evict(k, budget, base, gone)
    decreases |Candidates(base, gone)|
  {
    hide Score, Sort, Surviving, Candidates, Cost, Doomed, LexLess;
    if Cost(Surviving(base, gone)) <= budget || Sort(k, Candidates(base, gone)) == [] {
      EvictionOver(k, budget, base, gone);
    } else {
      EvictionShrinks(k, base, gone);
      var doomed := Doomed(Sort(k, Candidates(base, gone))[0], Surviving(base, gone));
      var first, rest := evicted[..|doomed|], evicted[|doomed|..];
      ListedAreEvicted(k, budget, base, gone + doomed, rest);
      OneEviction(k, budget, base, gone);
      assert evicted == first + rest;
    }
  }

  lemma ListedOneMore(k: Ranking, budget: nat, base: seq<Message>, gone: set<string>, doomed: set<string>,
                      first: seq<string>, rest: seq<string>)
    requires Cost(Surviving(base, gone)) > budget && Sort(k, Candidates(base, gone)) != []
    requires doomed == Doomed(Sort(k, Candidates(base, gone))[0], Surviving(base, gone))
    requires Listing(first, doomed) && |first| == |doomed| && Listed(k, budget, base, gone + doomed, rest)
    ensures Listed(k, budget, base, gone, first + rest)
  {
    hide Score, Sort, Surviving, Candidates, Cost, Doomed, LexLess, Listing;
    assert (first + rest)[..|doomed|] == first && (first + rest)[|doomed|..] == rest;
  }

  // ---------------------------------------------------------------- one step of each stage

  lemma {:induction false} BaseAppend(a: seq<Message>, m: Message)
    ensures Base(a + [m]) == if m.Stale() then Base(a) else Base(a) + [Cut(m)]
  {
    hide Cut;
    if a == [] {
      assert [] + [m] == [m];
    } else {
      BaseAppend(a[1..], m);
      assert (a + [m])[1..] == a[1..] + [m];
      Regroup(if a[0].Stale() then [] else [Cut(a[0])], Base(a[1..]), [Cut(m)]);
    }
  }

  lemma {:induction false} StaleIdsAppend(a: seq<Message>, m: Message)
    ensures StaleIdsOf(a + [m]) == if m.Stale() then StaleIdsOf(a) + [m.id] else StaleIdsOf(a)
  {
    if a == [] {
      assert [] + [m] == [m];
    } else {
      StaleIdsAppend(a[1..], m);
      assert (a + [m])[1..] == a[1..] + [m];
      Regroup(if a[0].Stale() then [a[0].id] else [], StaleIdsOf(a[1..]), [m.id]);
    }
  }

  lemma {:induction false} CutIdsAppend(a: seq<Message>, m: Message)
    ensures CutIdsOf(a + [m])
         == if !m.Stale() && |m.content| > ContentLimit(m.kind) then CutIdsOf(a) + [m.id] else CutIdsOf(a)
  {
    hide ContentLimit;
    if a == [] {
      assert [] + [m] == [m];
    } else {
      CutIdsAppend(a[1..], m);
      assert (a + [m])[1..] == a[1..] + [m];
      Regroup(if !a[0].Stale() && |a[0].content| > ContentLimit(a[0].kind) then [a[0].id] else [], CutIdsOf(a[1..]), [m.id]);
    }
  }

  lemma NothingYet()
    ensures Base([]) == [] && StaleIdsOf([]) == [] && CutIdsOf([]) == [] && Omitted([]) == [] && Unpaired([]) == []
    ensures forall complete :: DropOrphans([], complete) == [] && OrphanIds([], complete) == []
  {
  }

  lemma {:induction false} OmittedAppend(ids: seq<string>, id: string)
    ensures Omitted(ids + [id]) == Omitted(ids) + [HistoricalDataOmitted(id)]
  {
    if ids == [] {
      assert [] + [id] == [id];
    } else {
      OmittedAppend(ids[1..], id);
      assert (ids + [id])[1..] == ids[1..] + [id];
      Regroup([HistoricalDataOmitted(ids[0])], Omitted(ids[1..]), [HistoricalDataOmitted(id)]);
    }
  }

  lemma {:induction false} ViewsAppend(a: seq<ContextMessage>, m: ContextMessage)
    ensures Views(a + [m]) == Views(a) + [m.View()]
  {
    if a == [] {
      assert [] + [m] == [m];
    } else {
      ViewsAppend(a[1..], m);
      assert (a + [m])[1..] == a[1..] + [m];
      Regroup([a[0].View()], Views(a[1..]), [m.View()]);
    }
  }

  lemma {:induction false} DropOrphansAppend(a: seq<Message>, m: Message, complete: set<Option<string>>)
    ensures DropOrphans(a + [m], complete)
         == if Orphan(m, complete) then DropOrphans(a, complete) else DropOrphans(a, complete) + [m]
  {
    hide Orphan;
    if a == [] {
      assert [] + [m] == [m];
    } else {
      DropOrphansAppend(a[1..], m, complete);
      assert (a + [m])[1..] == a[1..] + [m];
      Regroup(if Orphan(a[0], complete) then [] else [a[0]], DropOrphans(a[1..], complete), [m]);
    }
  }

  lemma {:induction false} OrphanIdsAppend(a: seq<Message>, m: Message, complete: set<Option<string>>)
    ensures OrphanIds(a + [m], complete)
         == if Orphan(m, complete) then OrphanIds(a, complete) + [m.id] else OrphanIds(a, complete)
  {
    hide Orphan;
    if a == [] {
      assert [] + [m] == [m];
    } else {
      OrphanIdsAppend(a[1..], m, complete);
      assert (a + [m])[1..] == a[1..] + [m];
      Regroup(if Orphan(a[0], complete) then [a[0].id] else [], OrphanIds(a[1..], complete), [m.id]);
    }
  }

  lemma {:induction false} UnpairedAppend(ids: seq<string>, id: string)
    ensures Unpaired(ids + [id]) == Unpaired(ids) + [UnpairedToolMessageRemoved(id)]
  {
    if ids == [] {
      assert [] + [id] == [id];
    } else {
      UnpairedAppend(ids[1..], id);
      assert (ids + [id])[1..] == ids[1..] + [id];
      Regroup([UnpairedToolMessageRemoved(ids[0])], Unpaired(ids[1..]), [UnpairedToolMessageRemoved(id)]);
    }
  }

  // ---------------------------------------------------------------- stage one

  ghost predicate Distinct(ms: seq<ContextMessage>) {
    forall i, j :: 0 <= i < j < |ms| ==> ms[i] != ms[j]
  }

  /** Cut once for every time the message is met. */
  function CutTimes(m: Message, n: nat): (r: Message)
    ensures r.Stale() == m.Stale() && r.id == m.id
  {
    if n == 0 then m else Cut(CutTimes(m, n - 1))
  }

  /** The message at `i` once the first `n` of the list have been met: stale data untouched, the rest cut as often
    as it was among them. */
  function MetAt(messages: seq<ContextMessage>, input: seq<Message>, n: nat, i: nat): Message
    requires n <= |messages| == |input| && i < |messages|
  {
    if input[i].Stale() then input[i] else CutTimes(input[i], multiset(messages[..n])[messages[i]])
  }

  /** Every message as the first stage comes to it. */
  function Met(messages: seq<ContextMessage>, input: seq<Message>): (r: seq<Message>)
    requires |messages| == |input|
    ensures |r| == |messages| && forall i :: 0 <= i < |r| ==> r[i] == MetAt(messages, input, i, i)
  {
    seq(|messages|, i requires 0 <= i < |messages| => MetAt(messages, input, i, i))
  }

  /** Every message as the first stage leaves it in place. */
  function Left(messages: seq<ContextMessage>, input: seq<Message>): (r: seq<Message>)
    requires |messages| == |input|
    ensures |r| == |messages| && forall i :: 0 <= i < |r| ==> r[i] == MetAt(messages, input, |messages|, i)
  {
    seq(|messages|, i requires 0 <= i < |messages| => MetAt(messages, input, |messages|, i))
  }

  function NotStale(ms: seq<Message>): seq<Message> {
    if ms == [] then [] else (if ms[0].Stale() then [] else [ms[0]]) + NotStale(ms[1..])
  }

  function Kept(ms: seq<ContextMessage>): seq<ContextMessage> {
    if ms == [] then [] else (if ms[0].historical && !ms[0].important then [] else [ms[0]]) + Kept(ms[1..])
  }

  lemma {:induction false} KeptViews(ms: seq<ContextMessage>)
    ensures Views(Kept(ms)) == NotStale(Views(ms))
  {
    if ms != [] {
      KeptViews(ms[1..]);
      var rest, views := Kept(ms[1..]), Views(ms[1..]);
      assert [] + rest == rest && ([ms[0]] + rest)[1..] == rest;
      assert Views(ms)[1..] == views;
    }
  }

  lemma {:induction false} KeptAppend(a: seq<ContextMessage>, m: ContextMessage)
    ensures Kept(a + [m]) == if m.historical && !m.important then Kept(a) else Kept(a) + [m]
  {
    if a == [] {
      assert [] + [m] == [m];
    } else {
      KeptAppend(a[1..], m);
      assert (a + [m])[1..] == a[1..] + [m];
      Regroup(if a[0].historical && !a[0].important then [] else [a[0]], Kept(a[1..]), [m]);
    }
  }

  lemma CountMore(messages: seq<ContextMessage>, i: nat, x: ContextMessage)
    requires i < |messages|
    ensures multiset(messages[..i + 1])[x] == multiset(messages[..i])[x] + if messages[i] == x then 1 else 0
  {
    assert messages[..i + 1] == messages[..i] + [messages[i]];
  }

  /** One more message met: it alone is cut once more. */
  lemma MetMore(messages: seq<ContextMessage>, input: seq<Message>, i: nat, j: nat)
    requires i < |messages| == |input| && j < |messages|
    ensures MetAt(messages, input, i, j).Stale() == input[j].Stale()
    ensures MetAt(messages, input, i + 1, j)
         == if messages[j] == messages[i] && !input[j].Stale() then Cut(MetAt(messages, input, i, j))
            else MetAt(messages, input, i, j)
  {
    hide Cut;
    CountMore(messages, i, messages[j]);
  }

  /** In a list that holds no message twice each is met as it was given, and is cut once. */
  lemma {:induction false} MetOnce(messages: seq<ContextMessage>, input: seq<Message>)
    requires |messages| == |input| && Distinct(messages)
    ensures Met(messages, input) == input && NotStale(Left(messages, input)) == Base(input)
    ensures forall i :: 0 <= i < |input| ==> Left(messages, input)[i] == Prepared(input[i])
  {
    hide Cut;
    forall i | 0 <= i < |messages|
      ensures multiset(messages[..i])[messages[i]] == 0 && multiset(messages)[messages[i]] == 1
    {
      CountOnce(messages, i, |messages|);
      CountOnce(messages, i, i);
      assert messages[..|messages|] == messages;
    }
    assert forall m: Message :: CutTimes(m, 1) == Cut(CutTimes(m, 0));
    assert messages[..|messages|] == messages;
    NotStaleIsBase(Left(messages, input), input);
  }

  lemma {:induction false} CountOnce(messages: seq<ContextMessage>, i: nat, n: nat)
    requires i < |messages| && n <= |messages| && Distinct(messages)
    ensures multiset(messages[..n])[messages[i]] == if i < n then 1 else 0
  {
    if n > 0 {
      CountOnce(messages, i, n - 1);
      CountMore(messages, n - 1, messages[i]);
    }
  }

  lemma {:induction false} NotStaleIsBase(left: seq<Message>, input: seq<Message>)
    requires |left| == |input| && forall i :: 0 <= i < |input| ==> left[i] == Prepared(input[i])
    ensures NotStale(left) == Base(input)
  {
    hide Truncated;
    if input != [] {
      assert left[0] == Prepared(input[0]);
      NotStaleIsBase(left[1..], input[1..]);
    }
  }

  lemma NothingMet(messages: seq<ContextMessage>, input: seq<Message>)
    requires |messages| == |input|
    ensures messages[..0] == [] && input[..0] == [] && Kept([]) == []
    ensures forall j :: 0 <= j < |messages| ==> MetAt(messages, input, 0, j) == input[j]
  {
    assert messages[..0] == [];
  }

  lemma MeetOne(messages: seq<ContextMessage>, input: seq<Message>, i: nat)
    requires i < |messages| == |input|
    ensures messages[..i + 1] == messages[..i] + [messages[i]] && input[..i + 1] == input[..i] + [input[i]]
    ensures forall j :: 0 <= j < |messages| ==> MetAt(messages, input, i, j).Stale() == input[j].Stale()
    ensures forall j :: 0 <= j < |messages| ==>
              MetAt(messages, input, i + 1, j)
              == if messages[j] == messages[i] && !input[j].Stale() then Cut(MetAt(messages, input, i, j))
                 else MetAt(messages, input, i, j)
  {
    hide MetAt, Cut;
    forall j | 0 <= j < |messages|
      ensures MetAt(messages, input, i, j).Stale() == input[j].Stale()
      ensures MetAt(messages, input, i + 1, j)
           == if messages[j] == messages[i] && !input[j].Stale() then Cut(MetAt(messages, input, i, j))
              else MetAt(messages, input, i, j)
    {
      MetMore(messages, input, i, j);
    }
  }

  /** When all have been met: where the list, what was kept of it and what was met stand. */
  lemma StageOneDone(messages: seq<ContextMessage>, input: seq<Message>, kept: seq<ContextMessage>, met: seq<Message>)
    requires |messages| == |input| == |met| && kept == Kept(messages[..|messages|])
    requires forall j :: 0 <= j < |messages| ==> met[j] == MetAt(messages, input, j, j)
    requires forall j :: 0 <= j < |messages| ==> messages[j].View() == MetAt(messages, input, |messages|, j)
    ensures Views(kept) == NotStale(Left(messages, input)) && Views(messages) == Left(messages, input)
    ensures met == Met(messages, input) && input[..|messages|] == input
    ensures Distinct(messages) ==>
              && Views(kept) == Base(input) && met == input
              && forall j :: 0 <= j < |messages| ==> messages[j].View() == Prepared(input[j])
  {
    hide MetAt, Kept, NotStale, Distinct, Base, Prepared;
    assert messages[..|messages|] == messages;
    assert Views(messages) == Left(messages, input);
    KeptViews(messages);
    if Distinct(messages) { MetOnce(messages, input); }
  }

  /** The first stage works on the objects themselves, so a message that is listed twice is cut twice. */
  method DropStaleAndTruncate(messages: seq<ContextMessage>)
    returns (kept: seq<ContextMessage>, removed: seq<string>, truncated: seq<string>, warnings: seq<Warning>)
    modifies messages
    ensures Views(kept) == NotStale(Left(messages, old(Views(messages))))
    ensures Views(messages) == Left(messages, old(Views(messages)))
    ensures removed == StaleIdsOf(old(Views(messages))) && truncated == CutIdsOf(Met(messages, old(Views(messages))))
    ensures warnings == Omitted(removed)
    ensures Distinct(messages) ==>
              && Views(kept) == Base(old(Views(messages))) && truncated == CutIdsOf(old(Views(messages)))
              && forall m <- messages :: m.View() == Prepared(old(m.View()))
  {
    hide Cut, StaleIdsOf, CutIdsOf, Omitted, ContentLimit, Prepared, Views, Kept, MetAt, Distinct;
    ghost var input := Views(messages);
    kept, removed, truncated, warnings := [], [], [], [];
    ghost var met: seq<Message> := [];
    NothingYet();
    NothingMet(messages, input);
    for i := 0 to |messages|
      invariant kept == Kept(messages[..i])
      invariant removed == StaleIdsOf(input[..i]) && truncated == CutIdsOf(met) && warnings == Omitted(removed)
      invariant |met| == i && forall j :: 0 <= j < i ==> met[j] == MetAt(messages, input, j, j)
      invariant forall j :: 0 <= j < |messages| ==> messages[j].View() == MetAt(messages, input, i, j)
    {
      var message := messages[i];
      MeetOne(messages, input, i);
      KeptAppend(messages[..i], message);
      StaleIdsAppend(input[..i], input[i]);
      CutIdsAppend(met, message.View());
      met := met + [message.View()];
      if message.historical && !message.important {
        OmittedAppend(removed, message.id);
        removed := removed + [message.id];
        warnings := warnings + [HistoricalDataOmitted(message.id)];
      } else {
        var cut := message.Truncate();
        if cut { truncated := truncated + [message.id]; }
        kept := kept + [message];
      }
    }
    StageOneDone(messages, input, kept, met);
  }

  // ---------------------------------------------------------------- stage two

  function NotDoomed(ms: seq<ContextMessage>, doomed: set<string>): (r: seq<ContextMessage>) {
    if ms == [] then []
    else (if ms[0].id !in doomed || ms[0].important then [ms[0]] else []) + NotDoomed(ms[1..], doomed)
  }

  lemma {:induction false} NotDoomedViews(ms: seq<ContextMessage>, doomed: set<string>)
    ensures Views(NotDoomed(ms, doomed)) == Surviving(Views(ms), doomed)
  {
    if ms != [] {
      NotDoomedViews(ms[1..], doomed);
      var rest := NotDoomed(ms[1..], doomed);
      assert [] + rest == rest && ([ms[0]] + rest)[1..] == rest;
      var views := Views(ms[1..]);
      assert Views(ms)[1..] == views;
    }
  }

  /** One more id, at its place. */
  function InsertId(listed: seq<string>, id: string): seq<string> {
    if listed == [] || LexLess(listed[|listed| - 1], id) then listed + [id]
    else InsertId(listed[..|listed| - 1], id) + [listed[|listed| - 1]]
  }

  lemma {:induction false} InsertIdLists(listed: seq<string>, ids: set<string>, id: string)
    requires Listing(listed, ids) && id !in ids
    ensures Listing(InsertId(listed, id), ids + {id})
  {
    hide LexLess;
    if listed != [] {
      var n := |listed| - 1;
      var init, last := listed[..n], listed[n];
      assert last in listed && listed == init + [last];
      LexTotal(last, id);
      if LexLess(last, id) {
        LastBelow(listed, ids, id);
        AppendLists(listed, ids, id);
      } else {
        InitLists(listed, ids);
        InsertIdLists(init, ids - {last}, id);
        forall x | x in ids - {last} + {id}
          ensures LexLess(x, last)
        {
          if x != id { LastIsGreatest(listed, x); }
        }
        AppendLists(InsertId(init, id), ids - {last} + {id}, last);
        assert ids - {last} + {id} + {last} == ids + {id};
      }
    }
  }

  lemma LastIsGreatest(listed: seq<string>, x: string)
    requires listed != [] && x in listed && x != listed[|listed| - 1]
    requires forall i, j :: 0 <= i < j < |listed| ==> LexLess(listed[i], listed[j])
    ensures LexLess(x, listed[|listed| - 1])
  {
    hide LexLess;
    var i :| 0 <= i < |listed| && listed[i] == x;
  }

  lemma InitLists(listed: seq<string>, ids: set<string>)
    requires listed != [] && Listing(listed, ids)
    ensures Listing(listed[..|listed| - 1], ids - {listed[|listed| - 1]})
  {
    hide LexLess;
    var n := |listed| - 1;
    forall x
      ensures x in listed[..n] <==> x in ids - {listed[n]}
    {
      if x in listed[..n] {
        var i :| 0 <= i < n && listed[i] == x;
        assert x in listed;
        LexTotal(listed[i], listed[n]);
      }
    }
  }

  lemma AppendLists(listed: seq<string>, ids: set<string>, id: string)
    requires Listing(listed, ids) && forall x :: x in ids ==> LexLess(x, id)
    ensures Listing(listed + [id], ids + {id})
  {
    hide LexLess;
    forall i | 0 <= i < |listed|
      ensures LexLess(listed[i], id)
    {
      assert listed[i] in listed;
    }
  }

  lemma LastBelow(listed: seq<string>, ids: set<string>, id: string)
    requires listed != [] && Listing(listed, ids) && LexLess(listed[|listed| - 1], id)
    ensures forall x :: x in ids ==> LexLess(x, id)
  {
    hide LexLess;
    forall x | x in ids
      ensures LexLess(x, id)
    {
      var i :| 0 <= i < |listed| && listed[i] == x;
      if i < |listed| - 1 { LexTransitive(x, listed[|listed| - 1], id); }
    }
  }

  lemma {:induction false} ListingCounts(listed: seq<string>, ids: set<string>)
    requires Listing(listed, ids)
    ensures |listed| == |ids|
  {
    hide LexLess;
    if listed == [] {
      assert ids == {};
    } else {
      assert listed[|listed| - 1] in listed;
      InitLists(listed, ids);
      ListingCounts(listed[..|listed| - 1], ids - {listed[|listed| - 1]});
    }
  }

  /** The ids of a set, sorted. */
  method ListIds(ids: set<string>) returns (listed: seq<string>)
    ensures Listing(listed, ids) && |listed| == |ids|
  {
    hide LexLess, InsertId, Listing;
    listed := [];
    var left := ids;
    NothingListed();
    while left != {}
      invariant left <= ids && Listing(listed, ids - left)
      decreases left
    {
      var id :| id in left;
      InsertIdLists(listed, ids - left, id);
      assert ids - left + {id} == ids - (left - {id});
      listed := InsertId(listed, id);
      left := left - {id};
    }
    assert ids - left == ids;
    ListingCounts(listed, ids);
  }

  lemma NothingListed()
    ensures forall ids: set<string> :: Listing([], ids - ids)
  {
  }

  lemma OneEviction(k: Ranking, budget: nat, base: seq<Message>, gone: set<string>)
    requires Cost(Surviving(base, gone)) > budget && Sort(k, Candidates(base, gone)) != []
    ensures var doomed := Doomed(Sort(k, Candidates(base, gone))[0], Surviving(base, gone));
            && Evict(k, budget, base, gone + doomed) == Evict(k, budget, base, gone)
            && Surviving(Surviving(base, gone), doomed) == Surviving(base, gone + doomed)
            && |Candidates(base, gone + doomed)| < |Candidates(base, gone)|
  {
    hide Score, Sort, Surviving, Candidates, Cost, Doomed;
    EvictionShrinks(k, base, gone);
    SurvivingTwice(base, gone, Doomed(Sort(k, Candidates(base, gone))[0], Surviving(base, gone)));
  }

  lemma EvictionOver(k: Ranking, budget: nat, base: seq<Message>, gone: set<string>)
    requires Cost(Surviving(base, gone)) <= budget || Sort(k, Candidates(base, gone)) == []
    ensures Evict(k, budget, base, gone) == gone
  {
  }

  /** The loop as it is written; what it lists are the evicted ids, each round's in order. */
  method EvictUntilItFits(k: Ranking, budget: nat, base: seq<ContextMessage>)
    returns (kept: seq<ContextMessage>, evicted: seq<string>)
    ensures var gone := Evict(k, budget, Views(base), {});
            Views(kept) == Surviving(Views(base), gone) && forall id :: id in evicted <==> id in gone
    ensures Listed(k, budget, Views(base), {}, evicted)
  {
    hide Evict, Surviving, Sort, Doomed, Cost, Unpinned, Listed, Listing, Leads, Views;
    kept, evicted := base, [];
    ghost var start := Views(base);
    ghost var gone: set<string> := {};
    NothingEvicted(start);
    LeadsFrom(k, budget, start);
    while Cost(Views(kept)) > budget
      invariant Views(kept) == Surviving(start, gone)
      invariant Evict(k, budget, start, gone) == Evict(k, budget, start, {})
      invariant Leads(k, budget, start, gone, evicted)
      decreases |Candidates(start, gone)|
    {
      var candidates := Sort(k, Unpinned(Views(kept)));
      if candidates == [] { break; }
      var doomed := Doomed(candidates[0], Views(kept));
      var listed := ListIds(doomed);
      OneEviction(k, budget, start, gone);
      LeadsOn(k, budget, start, gone, evicted, doomed, listed);
      NotDoomedViews(kept, doomed);
      kept := NotDoomed(kept, doomed);
      evicted := evicted + listed;
      gone := gone + doomed;
    }
    EvictionOver(k, budget, start, gone);
    LeadsTo(k, budget, start, gone, evicted);
    ListedAreEvicted(k, budget, start, {}, evicted);
  }

  /** Whatever is listed from here on continues what has been listed so far. */
  ghost predicate Leads(k: Ranking, budget: nat, base: seq<Message>, gone: set<string>, evicted: seq<string>) {
    forall rest :: Listed(k, budget, base, gone, rest) ==> Listed(k, budget, base, {}, evicted + rest)
  }

  lemma LeadsFrom(k: Ranking, budget: nat, base: seq<Message>)
    ensures Leads(k, budget, base, {}, [])
  {
    hide Listed;
    assert forall rest: seq<string> :: [] + rest == rest;
  }

  lemma LeadsOn(k: Ranking, budget: nat, base: seq<Message>, gone: set<string>, evicted: seq<string>,
                doomed: set<string>, listed: seq<string>)
    requires Cost(Surviving(base, gone)) > budget && Sort(k, Candidates(base, gone)) != []
    requires doomed == Doomed(Sort(k, Candidates(base, gone))[0], Surviving(base, gone))
    requires Listing(listed, doomed) && |listed| == |doomed| && Leads(k, budget, base, gone, evicted)
    ensures Leads(k, budget, base, gone + doomed, evicted + listed)
  {
    hide Listed, Score, Sort, Surviving, Candidates, Cost, Doomed, LexLess, Listing;
    forall rest | Listed(k, budget, base, gone + doomed, rest)
      ensures Listed(k, budget, base, {}, evicted + listed + rest)
    {
      ListedOneMore(k, budget, base, gone, doomed, listed, rest);
      Regroup(evicted, listed, rest);
    }
  }

  lemma LeadsTo(k: Ranking, budget: nat, base: seq<Message>, gone: set<string>, evicted: seq<string>)
    requires Cost(Surviving(base, gone)) <= budget || Sort(k, Candidates(base, gone)) == []
    requires Leads(k, budget, base, gone, evicted)
    ensures Listed(k, budget, base, {}, evicted)
  {
    hide Listed, Score, Sort, Surviving, Candidates, Cost;
    NothingMoreListed(k, budget, base, gone);
    assert evicted + [] == evicted;
  }

  lemma NothingMoreListed(k: Ranking, budget: nat, base: seq<Message>, gone: set<string>)
    requires Cost(Surviving(base, gone)) <= budget || Sort(k, Candidates(base, gone)) == []
    ensures Listed(k, budget, base, gone, [])
  {
  }

  // ---------------------------------------------------------------- stage three

  method RepairPairs(messages: seq<ContextMessage>) returns (kept: seq<ContextMessage>, warnings: seq<Warning>)
    ensures Views(kept) == DropOrphans(Views(messages), CompleteIds(Views(messages)))
    ensures warnings == Unpaired(OrphanIds(Views(messages), CompleteIds(Views(messages))))
  {
    hide CompleteIds, DropOrphans, OrphanIds, Orphan, Unpaired;
    NothingYet();
    var complete := CompleteIds(Views(messages));
    ghost var views := Views(messages);
    kept, warnings := [], [];
    assert views[..0] == [];
    for i := 0 to |messages|
      invariant Views(kept) == DropOrphans(views[..i], complete)
      invariant warnings == Unpaired(OrphanIds(views[..i], complete))
    {
      var message := messages[i];
      assert views[..i + 1] == views[..i] + [views[i]];
      DropOrphansAppend(views[..i], views[i], complete);
      OrphanIdsAppend(views[..i], views[i], complete);
      if Orphan(message.View(), complete) {
        UnpairedAppend(OrphanIds(views[..i], complete), message.id);
        warnings := warnings + [UnpairedToolMessageRemoved(message.id)];
      } else {
        ViewsAppend(kept, message);
        kept := kept + [message];
      }
    }
    assert views[..|messages|] == views;
  }

  // ---------------------------------------------------------------- the whole

  /** Fit the conversation into the budget, or say how much the pinned messages need. */
  method CompactConversation(messages: seq<ContextMessage>, tokenBudget: int, query: Query, recentReserve: int)
    returns (r: Outcome)
    modifies messages
    ensures Views(messages) == Left(messages, old(Views(messages)))
    ensures Distinct(messages) ==> forall m <- messages :: m.View() == Prepared(old(m.View()))
    ensures var budget := if tokenBudget < 0 then 0 else tokenBudget;
            var input := old(Views(messages));
            var base := NotStale(Left(messages, input));
            && (Distinct(messages) ==> base == Base(input) && Met(messages, input) == input)
            && (r.Overflow? <==> Cost(Repair(Pinned(base))) > budget)
            && (r.Overflow? ==> r.needed == Cost(Repair(Pinned(base))))
            && (r.Fitted? ==> r.estimatedTokens <= budget
                              && Reports(r, query, recentReserve, budget, StaleIdsOf(input), CutIdsOf(Met(messages, input)),
                                         base, Views(r.messages)))
  {
    hide Distinct, Listed, Left, Met, NotStale, StaleIdsOf, CutIdsOf, Base, Prepared, Views;
    hide Cost, Evict, Surviving, CompleteIds, DropOrphans, OrphanIds, Pinned, Omitted, Unpaired;
    ghost var input := Views(messages);
    var budget := if tokenBudget < 0 then 0 else tokenBudget;
    var kept, removed, truncated, warnings := DropStaleAndTruncate(messages);
    if Distinct(messages) { MetOnce(messages, input); }
    ghost var base := Views(kept);
    var k := Ranking(query, RecentIds(Views(kept), recentReserve));
    OverflowExactly(k, budget, base);
    var evicted: seq<string>, repaired: seq<Warning>;
    kept, evicted := EvictUntilItFits(k, budget, kept);
    kept, repaired := RepairPairs(kept);
    assert Views(kept) == Compacted(k, budget, base);
    var total := Cost(Views(kept));
    if total > budget {
      return Overflow(total);
    }
    r := Fitted(kept, total, removed + evicted, truncated, warnings + repaired);
    assert (removed + evicted)[|removed|..] == evicted;
  }
}
