/** The tool-calling loop, against a provider and tools that may answer anything.

  A run is described by its rounds: each is one reply that asked for tools, with the
  payload every call was answered with. The conversation, the call records, the
  bounds and the cache are all stated over the rounds.
 */
module ToolLoop {
  import opened Options
  import opened Sequences

  /** `arguments` stands for the arguments in canonical form, as the cache key sees them. */
  datatype ToolCall = ToolCall(id: string, name: string, arguments: string)

  type Payload = map<string, string>

  datatype Message =
    | Given(role: string, content: string)
    | Announcement(content: string, calls: seq<ToolCall>)
    | ToolResult(content: string, toolCallId: string, toolName: string)

  datatype Response = Response(content: string, toolCalls: seq<ToolCall>, tokens: int)

  datatype Record = Record(name: string, arguments: string, iteration: nat, cached: bool, error: Option<string>)

  datatype Stop = TokenBudget | MaxIterations

  datatype Outcome =
    | NoResponse
    | Answered(response: Response, messages: seq<Message>, calls: seq<Record>, iterations: nat, stoppedOn: Option<Stop>)

  const MIN_TOKENS_FOR_ANSWER := 2000
  const NOTE := "note"

  /** The provider and the tools as functions of how often they were called before. */
  datatype World = World(
    complete: (nat, seq<Message>, bool) -> Response,
    dispatch: (nat, string, string) -> Payload,
    encode: Payload -> string,
    texts: Texts)

  /** The fixed texts the loop adds: the note on a repeat, the error for an orphan, the last prompt. */
  datatype Texts = Texts(note: string, missing: Payload, closing: string)

  /** What identifies a call for the cache. */
  predicate SameCall(a: ToolCall, b: ToolCall) {
    a.name == b.name && a.arguments == b.arguments
  }

  function ResultMessage(w: World, call: ToolCall, payload: Payload): Message {
    ToolResult(w.encode(payload), call.id, call.name)
  }

  /** `payload.get("error")`, when it says something. */
  function ErrorOf(payload: Payload): Option<string> {
    if "error" in payload && payload["error"] != "" then Some(payload["error"]) else None
  }

  // ---------------------------------------------------------------- rounds and transcript

  datatype Round = Round(response: Response, payloads: seq<Payload>)

  function Results(w: World, calls: seq<ToolCall>, payloads: seq<Payload>): (r: seq<Message>)
    requires |calls| == |payloads|
    ensures |r| == |calls|
    ensures forall i :: 0 <= i < |r| ==> r[i] == ResultMessage(w, calls[i], payloads[i])
  {
    if calls == [] then [] else [ResultMessage(w, calls[0], payloads[0])] + Results(w, calls[1..], payloads[1..])
  }

  predicate Complete(rounds: seq<Round>) {
    forall r <- rounds :: |r.payloads| == |r.response.toolCalls| > 0
  }

  function RoundMessages(w: World, r: Round): seq<Message>
    requires |r.payloads| == |r.response.toolCalls|
  {
    [Announcement(r.response.content, r.response.toolCalls)] + Results(w, r.response.toolCalls, r.payloads)
  }

  /** What the rounds add to the conversation. */
  function Transcript(w: World, rounds: seq<Round>): seq<Message>
    requires Complete(rounds)
  {
    if rounds == [] then []
    else Transcript(w, rounds[..|rounds| - 1]) + RoundMessages(w, rounds[|rounds| - 1])
  }

  /** Every call asked for, in order. */
  function Asked(rounds: seq<Round>): seq<ToolCall> {
    if rounds == [] then [] else Asked(rounds[..|rounds| - 1]) + rounds[|rounds| - 1].response.toolCalls
  }

  /** Every payload given, in order. */
  function Replies(rounds: seq<Round>): seq<Payload> {
    if rounds == [] then [] else Replies(rounds[..|rounds| - 1]) + rounds[|rounds| - 1].payloads
  }

  function Times(n: nat, count: nat): (r: seq<nat>)
    ensures |r| == count && forall i :: 0 <= i < count ==> r[i] == n
  {
    seq(count, i => n)
  }

  /** For every call asked for, in order, the number of its round, from one. */
  function RoundNumbers(rounds: seq<Round>): seq<nat> {
    if rounds == [] then [] else RoundNumbers(rounds[..|rounds| - 1]) + Times(|rounds|, |rounds[|rounds| - 1].payloads|)
  }

  /** Each record says in which round its call was made. */
  predicate Numbered(records: seq<Record>, rounds: seq<Round>) {
    && |records| == |RoundNumbers(rounds)|
    && forall i :: 0 <= i < |records| ==> records[i].iteration == RoundNumbers(rounds)[i]
  }

  lemma NumberedMore(records: seq<Record>, rounds: seq<Round>, round: Round, more: seq<Record>)
    requires Numbered(records, rounds) && records <= more && |more| == |records| + |round.payloads|
    requires forall i :: |records| <= i < |more| ==> more[i].iteration == |rounds| + 1
    ensures Numbered(more, rounds + [round])
  {
    assert (rounds + [round])[..|rounds|] == rounds;
  }

  function Spent(rounds: seq<Round>): int {
    if rounds == [] then 0 else Spent(rounds[..|rounds| - 1]) + rounds[|rounds| - 1].response.tokens
  }

  // ---------------------------------------------------------------- the cache rule

  /** The call at `i` is the first of its name and arguments. */
  predicate Fresh(asked: seq<ToolCall>, i: nat)
    requires i < |asked|
  {
    forall j :: 0 <= j < i ==> !SameCall(asked[j], asked[i])
  }

  /** How many dispatches happened before position `i`. */
  function DispatchesBefore(asked: seq<ToolCall>, i: nat): nat
    requires i <= |asked|
  {
    if i == 0 then 0 else DispatchesBefore(asked, i - 1) + if Fresh(asked, i - 1) then 1 else 0
  }

  /** The first answer again, saying that it is the first answer again. */
  function Noted(w: World, payload: Payload): Payload {
    payload[NOTE := w.texts.note]
  }

  /** Asked once more with no tools attached, so the model has to answer. */
  function AnswerNow(w: World): Message {
    Given("user", w.texts.closing)
  }

  /** A fresh call is dispatched; a repeat gets the first answer again, with a note. */
  ghost predicate ServedAt(w: World, asked: seq<ToolCall>, given: seq<Payload>, i: nat)
    requires i < |asked| == |given|
  {
    if Fresh(asked, i) then given[i] == w.dispatch(DispatchesBefore(asked, i), asked[i].name, asked[i].arguments)
    else exists j :: 0 <= j < i && Fresh(asked, j) && SameCall(asked[j], asked[i]) && given[i] == Noted(w, given[j])
  }

  ghost predicate Served(w: World, asked: seq<ToolCall>, given: seq<Payload>) {
    |asked| == |given| && forall i :: 0 <= i < |asked| ==> ServedAt(w, asked, given, i)
  }

  /** The record kept of the call at `i`; its iteration number is its round's. */
  ghost predicate RecordedAt(asked: seq<ToolCall>, given: seq<Payload>, records: seq<Record>, i: nat)
    requires i < |asked| == |given| == |records|
  {
    && records[i].name == asked[i].name && records[i].arguments == asked[i].arguments
    && (records[i].cached <==> !Fresh(asked, i))
    && records[i].error == if Fresh(asked, i) then ErrorOf(given[i]) else None
  }

  ghost predicate Recorded(asked: seq<ToolCall>, given: seq<Payload>, records: seq<Record>) {
    |asked| == |given| == |records| && forall i :: 0 <= i < |asked| ==> RecordedAt(asked, given, records, i)
  }

  // ---------------------------------------------------------------- the run

  /** Each round's reply is what the provider said to the conversation so far. */
  ghost predicate Prompted(w: World, messages: seq<Message>, rounds: seq<Round>)
    requires Complete(rounds)
  {
    forall k :: 0 <= k < |rounds| ==> rounds[k].response == w.complete(k, messages + Transcript(w, rounds[..k]), true)
  }

  /** The budget leaves too little for an answer. */
  predicate Exhausted(tokenBudget: Option<int>, spent: int) {
    tokenBudget.Some? && tokenBudget.value - spent < MIN_TOKENS_FOR_ANSWER
  }

  /** The loop went on after every round but possibly the last. */
  ghost predicate WithinBounds(maxIterations: int, tokenBudget: Option<int>, rounds: seq<Round>) {
    |rounds| <= maxIterations && forall k :: 0 < k < |rounds| ==> !Exhausted(tokenBudget, Spent(rounds[..k]))
  }

  /** Every call without a result is given an explicit error, in the order announced. */
  function Orphans(w: World, announced: seq<ToolCall>, answered: set<string>): seq<Message> {
    if announced == [] then []
    else (if announced[0].id in answered then [] else [ResultMessage(w, announced[0], w.texts.missing)])
         + Orphans(w, announced[1..], answered)
  }

  lemma {:induction false} OrphansAppend(w: World, a: seq<ToolCall>, call: ToolCall, answered: set<string>)
    ensures Orphans(w, a + [call], answered)
         == if call.id in answered then Orphans(w, a, answered)
            else Orphans(w, a, answered) + [ResultMessage(w, call, w.texts.missing)]
  {
    if a == [] {
      assert [] + [call] == [call];
    } else {
      OrphansAppend(w, a[1..], call, answered);
      assert (a + [call])[1..] == a[1..] + [call];
    }
  }

  method RepairToolPairs(w: World, messages: seq<Message>, announced: seq<ToolCall>, answered: set<string>)
    returns (repaired: seq<Message>)
    ensures repaired == messages + Orphans(w, announced, answered)
  {
    repaired := messages;
    for i := 0 to |announced|
      invariant repaired == messages + Orphans(w, announced[..i], answered)
    {
      assert announced[..i + 1] == announced[..i] + [announced[i]];
      OrphansAppend(w, announced[..i], announced[i], answered);
      if announced[i].id !in answered {
        repaired := repaired + [ResultMessage(w, announced[i], w.texts.missing)];
      }
    }
    assert announced[..|announced|] == announced;
  }

  /** Repair adds exactly one error result for each announced call no result answers. */
  lemma {:induction false} RepairAnswersEveryCall(w: World, announced: seq<ToolCall>, answered: set<string>)
    ensures var added := Orphans(w, announced, answered);
            && (forall call <- announced :: call.id in answered || ResultMessage(w, call, w.texts.missing) in added)
            && (forall m <- added :: exists call ::
                  call in announced && call.id !in answered && m == ResultMessage(w, call, w.texts.missing))
            && (added == [] <==> forall call <- announced :: call.id in answered)
  {
    if announced != [] {
      RepairAnswersEveryCall(w, announced[1..], answered);
      assert announced == [announced[0]] + announced[1..];
      var rest := Orphans(w, announced[1..], answered);
      assert forall call :: call in announced <==> call == announced[0] || call in announced[1..];
      var first := if announced[0].id in answered then [] else [ResultMessage(w, announced[0], w.texts.missing)];
      assert Orphans(w, announced, answered) == first + rest;
    }
  }

  // ---------------------------------------------------------------- one more call

  type Key = (string, string)

  function KeyOf(call: ToolCall): Key {
    (call.name, call.arguments)
  }

  /** The cache holds the first answer of every call made, and nothing else. */
  ghost predicate CacheIs(cache: map<Key, Payload>, asked: seq<ToolCall>, given: seq<Payload>)
    requires |asked| == |given|
  {
    && (forall i :: 0 <= i < |asked| && Fresh(asked, i) ==> KeyOf(asked[i]) in cache && cache[KeyOf(asked[i])] == given[i])
    && (forall key <- cache :: exists i :: 0 <= i < |asked| && Fresh(asked, i) && KeyOf(asked[i]) == key)
  }

  lemma FreshStable(asked: seq<ToolCall>, call: ToolCall, i: nat)
    requires i < |asked|
    ensures Fresh(asked + [call], i) == Fresh(asked, i)
  {
    assert forall j :: 0 <= j <= i ==> (asked + [call])[j] == asked[j];
  }

  lemma {:induction false} DispatchesStable(asked: seq<ToolCall>, call: ToolCall, i: nat)
    requires i <= |asked|
    ensures DispatchesBefore(asked + [call], i) == DispatchesBefore(asked, i)
    ensures i < |asked| ==> Fresh(asked + [call], i) == Fresh(asked, i)
  {
    if i < |asked| { FreshStable(asked, call, i); }
    if i > 0 {
      DispatchesStable(asked, call, i - 1);
      FreshStable(asked, call, i - 1);
    }
  }

  lemma ServedStable(w: World, asked: seq<ToolCall>, given: seq<Payload>, call: ToolCall, payload: Payload, i: nat)
    requires i < |asked| == |given| && ServedAt(w, asked, given, i)
    ensures ServedAt(w, asked + [call], given + [payload], i)
  {
    DispatchesStable(asked, call, i);
    if !Fresh(asked, i) {
      var j :| 0 <= j < i && Fresh(asked, j) && SameCall(asked[j], asked[i]) && given[i] == Noted(w, given[j]);
      DispatchesStable(asked, call, j);
      assert (given + [payload])[j] == given[j];
    }
  }

  /** A name and arguments are in the cache exactly when an earlier call had them. */
  lemma CacheAnswers(cache: map<Key, Payload>, asked: seq<ToolCall>, given: seq<Payload>, call: ToolCall)
    requires |asked| == |given| && CacheIs(cache, asked, given)
    ensures Fresh(asked + [call], |asked|) <==> KeyOf(call) !in cache
    ensures KeyOf(call) in cache ==>
              exists j :: 0 <= j < |asked| && Fresh(asked, j) && SameCall(asked[j], call) && cache[KeyOf(call)] == given[j]
  {
    var longer := asked + [call];
    if KeyOf(call) in cache {
      var j :| 0 <= j < |asked| && Fresh(asked, j) && KeyOf(asked[j]) == KeyOf(call);
      assert SameCall(longer[j], longer[|asked|]);
      assert SameCall(asked[j], call) && cache[KeyOf(call)] == given[j];
    } else if j :| 0 <= j < |asked| && SameCall(asked[j], call) {
      var first := FirstOf(asked, j);
      assert false;
    } else {
      assert forall j :: 0 <= j < |asked| ==> longer[j] == asked[j];
    }
  }

  lemma {:induction false} FirstOf(asked: seq<ToolCall>, i: nat) returns (first: nat)
    requires i < |asked|
    ensures first <= i && Fresh(asked, first) && SameCall(asked[first], asked[i])
  {
    if Fresh(asked, i) {
      first := i;
    } else {
      var j :| 0 <= j < i && SameCall(asked[j], asked[i]);
      first := FirstOf(asked, j);
    }
  }

  /** What the next call is answered with. */
  function Reply(w: World, cache: map<Key, Payload>, dispatched: nat, call: ToolCall): Payload {
    if KeyOf(call) in cache then Noted(w, cache[KeyOf(call)]) else w.dispatch(dispatched, call.name, call.arguments)
  }

  lemma ServedNow(w: World, asked: seq<ToolCall>, given: seq<Payload>, cache: map<Key, Payload>,
                  call: ToolCall, payload: Payload)
    requires |asked| == |given| && CacheIs(cache, asked, given)
    requires payload == Reply(w, cache, DispatchesBefore(asked, |asked|), call)
    ensures ServedAt(w, asked + [call], given + [payload], |asked|)
  {
    hide CacheIs, Noted;
    CacheAnswers(cache, asked, given, call);
    DispatchesStable(asked, call, |asked|);
    var longer, more := asked + [call], given + [payload];
    if KeyOf(call) in cache {
      var j :| 0 <= j < |asked| && Fresh(asked, j) && SameCall(asked[j], call) && cache[KeyOf(call)] == given[j];
      FreshStable(asked, call, j);
      assert longer[j] == asked[j] && more[j] == given[j];
    }
  }

  lemma ServeOneMore(w: World, asked: seq<ToolCall>, given: seq<Payload>, cache: map<Key, Payload>,
                     call: ToolCall, payload: Payload)
    requires Served(w, asked, given) && CacheIs(cache, asked, given)
    requires payload == Reply(w, cache, DispatchesBefore(asked, |asked|), call)
    ensures Served(w, asked + [call], given + [payload])
  {
    hide ServedAt, CacheIs, Reply, DispatchesBefore, Fresh, SameCall, KeyOf;
    ServedNow(w, asked, given, cache, call, payload);
    ServedSoFar(w, asked, given, call, payload);
    ServedAll(w, asked + [call], given + [payload], |asked|);
  }

  lemma ServedSoFar(w: World, asked: seq<ToolCall>, given: seq<Payload>, call: ToolCall, payload: Payload)
    requires Served(w, asked, given)
    ensures forall i :: 0 <= i < |asked| ==> ServedAt(w, asked + [call], given + [payload], i)
  {
    hide ServedAt;
    forall i | 0 <= i < |asked|
      ensures ServedAt(w, asked + [call], given + [payload], i)
    {
      ServedStable(w, asked, given, call, payload, i);
    }
  }

  lemma ServedAll(w: World, asked: seq<ToolCall>, given: seq<Payload>, n: nat)
    requires |asked| == |given| == n + 1
    requires (forall i :: 0 <= i < n ==> ServedAt(w, asked, given, i)) && ServedAt(w, asked, given, n)
    ensures Served(w, asked, given)
  {
    hide ServedAt;
  }

  lemma CacheOneMore(asked: seq<ToolCall>, given: seq<Payload>, cache: map<Key, Payload>, call: ToolCall, payload: Payload)
    requires |asked| == |given| && CacheIs(cache, asked, given)
    ensures CacheIs(if KeyOf(call) in cache then cache else cache[KeyOf(call) := payload], asked + [call], given + [payload])
  {
    hide Fresh;
    CacheAnswers(cache, asked, given, call);
    var longer, more := asked + [call], given + [payload];
    var after := if KeyOf(call) in cache then cache else cache[KeyOf(call) := payload];
    forall i | 0 <= i < |asked|
      ensures Fresh(longer, i) == Fresh(asked, i) && longer[i] == asked[i] && more[i] == given[i]
    {
      DispatchesStable(asked, call, i);
    }
    forall key <- after
      ensures exists i :: 0 <= i < |longer| && Fresh(longer, i) && KeyOf(longer[i]) == key
    {
      if key in cache {
        var i :| 0 <= i < |asked| && Fresh(asked, i) && KeyOf(asked[i]) == key;
        assert Fresh(longer, i) && KeyOf(longer[i]) == key;
      } else {
        assert Fresh(longer, |asked|) && KeyOf(longer[|asked|]) == key;
      }
    }
  }

  lemma RecordOneMore(asked: seq<ToolCall>, given: seq<Payload>, records: seq<Record>,
                      call: ToolCall, payload: Payload, record: Record)
    requires Recorded(asked, given, records)
    requires record.name == call.name && record.arguments == call.arguments
    requires record.cached <==> !Fresh(asked + [call], |asked|)
    requires record.error == if record.cached then None else ErrorOf(payload)
    ensures Recorded(asked + [call], given + [payload], records + [record])
  {
    hide Fresh, ErrorOf;
    forall i | 0 <= i < |asked|
      ensures RecordedAt(asked + [call], given + [payload], records + [record], i)
    {
      assert RecordedAt(asked, given, records, i);
      DispatchesStable(asked, call, i);
    }
  }

  /** Everything the loop knows about the calls made so far. */
  ghost predicate Ledger(w: World, asked: seq<ToolCall>, given: seq<Payload>, records: seq<Record>,
                         cache: map<Key, Payload>, dispatched: nat)
  {
    && Served(w, asked, given) && Recorded(asked, given, records) && CacheIs(cache, asked, given)
    && dispatched == DispatchesBefore(asked, |asked|)
  }

  lemma LedgerOneMore(w: World, asked: seq<ToolCall>, given: seq<Payload>, records: seq<Record>,
                      cache: map<Key, Payload>, dispatched: nat, call: ToolCall, payload: Payload, record: Record)
    requires Ledger(w, asked, given, records, cache, dispatched)
    requires var known := KeyOf(call) in cache;
             && payload == Reply(w, cache, dispatched, call)
             && record.name == call.name && record.arguments == call.arguments && record.cached == known
             && record.error == if known then None else ErrorOf(payload)
    ensures var known := KeyOf(call) in cache;
            Ledger(w, asked + [call], given + [payload], records + [record],
                   if known then cache else cache[KeyOf(call) := payload], if known then dispatched else dispatched + 1)
  {
    hide Fresh, ErrorOf, Served, Recorded, CacheIs;
    assert |asked| == |given| by { LedgerLengths(w, asked, given, records, cache, dispatched); }
    CacheAnswers(cache, asked, given, call);
    ServeOneMore(w, asked, given, cache, call, payload);
    CacheOneMore(asked, given, cache, call, payload);
    RecordOneMore(asked, given, records, call, payload, record);
    DispatchesStable(asked, call, |asked|);
  }

  lemma LedgerLengths(w: World, asked: seq<ToolCall>, given: seq<Payload>, records: seq<Record>,
                      cache: map<Key, Payload>, dispatched: nat)
    requires Ledger(w, asked, given, records, cache, dispatched)
    ensures |asked| == |given| == |records|
  {
  }

  // ---------------------------------------------------------------- the loops

  /** Answer the calls of one reply, in order. */
  method ServeCalls(w: World, calls: seq<ToolCall>, iteration: nat, cache0: map<Key, Payload>, dispatched0: nat,
                    records0: seq<Record>, ghost asked: seq<ToolCall>, ghost given: seq<Payload>)
    returns (payloads: seq<Payload>, cache: map<Key, Payload>, dispatched: nat, records: seq<Record>,
             results: seq<Message>, answered: set<string>)
    requires Ledger(w, asked, given, records0, cache0, dispatched0)
    ensures |payloads| == |calls| && results == Results(w, calls, payloads)
    ensures Ledger(w, asked + calls, given + payloads, records, cache, dispatched)
    ensures forall call <- calls :: call.id in answered
    ensures records0 <= records && |records| == |records0| + |calls|
    ensures forall i :: |records0| <= i < |records| ==> records[i].iteration == iteration
  {
    hide Ledger, ErrorOf;
    payloads, cache, dispatched, records := [], cache0, dispatched0, records0;
    results, answered := [], {};
    assert asked + [] == asked && given + [] == given;
    for i := 0 to |calls|
      invariant |payloads| == i && |results| == i
      invariant forall j :: 0 <= j < i ==> results[j] == ResultMessage(w, calls[j], payloads[j])
      invariant Ledger(w, asked + calls[..i], given + payloads, records, cache, dispatched)
      invariant forall j :: 0 <= j < i ==> calls[j].id in answered
      invariant records0 <= records && |records| == |records0| + i
      invariant forall j :: |records0| <= j < |records| ==> records[j].iteration == iteration
    {
      var call := calls[i];
      var payload: Payload;
      ghost var a, g, c, d, r := asked + calls[..i], given + payloads, cache, dispatched, records;
      if KeyOf(call) in cache {
        payload := Noted(w, cache[KeyOf(call)]);
        records := records + [Record(call.name, call.arguments, iteration, true, None)];
      } else {
        payload := w.dispatch(dispatched, call.name, call.arguments);
        dispatched := dispatched + 1;
        cache := cache[KeyOf(call) := payload];
        records := records + [Record(call.name, call.arguments, iteration, false, ErrorOf(payload))];
      }
      LedgerOneMore(w, a, g, r, c, d, call, payload, records[|records| - 1]);
      assert a + [call] == asked + calls[..i + 1];
      assert g + [payload] == given + (payloads + [payload]);
      assert records == r + [records[|records| - 1]];
      payloads := payloads + [payload];
      results := results + [ResultMessage(w, call, payload)];
      answered := answered + {call.id};
    }
    assert calls[..|calls|] == calls;
    assert results == Results(w, calls, payloads);
  }

  /** What a finished run says about the world it ran against. */
  ghost predicate Explains(w: World, messages: seq<Message>, maxIterations: int, tokenBudget: Option<int>,
                           rounds: seq<Round>, r: Outcome)
    requires r.Answered?
  {
    && Complete(rounds) && r.iterations == |rounds| && Numbered(r.calls, rounds)
    && Prompted(w, messages, rounds) && WithinBounds(maxIterations, tokenBudget, rounds)
    && Served(w, Asked(rounds), Replies(rounds)) && Recorded(Asked(rounds), Replies(rounds), r.calls)
    && match r.stoppedOn
       case None =>
         && |rounds| < maxIterations && (rounds != [] ==> !Exhausted(tokenBudget, Spent(rounds)))
         && r.messages == messages + Transcript(w, rounds)
         && r.response == w.complete(|rounds|, r.messages, true) && r.response.toolCalls == []
       case Some(stop) =>
         && rounds != []
         && r.messages == messages + Transcript(w, rounds) + [AnswerNow(w)]
         && r.response == w.complete(|rounds|, r.messages, false)
         && (stop.TokenBudget? <==> Exhausted(tokenBudget, Spent(rounds)))
         && (stop.MaxIterations? ==> |rounds| == maxIterations)
  }

  /** What one more round does to the functions of the rounds. */
  lemma OneMoreRound(w: World, rounds: seq<Round>, round: Round)
    requires Complete(rounds) && |round.payloads| == |round.response.toolCalls| > 0
    ensures Complete(rounds + [round])
    ensures Transcript(w, rounds + [round]) == Transcript(w, rounds) + RoundMessages(w, round)
    ensures Asked(rounds + [round]) == Asked(rounds) + round.response.toolCalls
    ensures Replies(rounds + [round]) == Replies(rounds) + round.payloads
    ensures Spent(rounds + [round]) == Spent(rounds) + round.response.tokens
  {
    hide RoundMessages;
    assert (rounds + [round])[..|rounds|] == rounds;
  }

  lemma PromptedMore(w: World, messages: seq<Message>, rounds: seq<Round>, round: Round)
    requires Complete(rounds) && Complete(rounds + [round]) && Prompted(w, messages, rounds)
    requires round.response == w.complete(|rounds|, messages + Transcript(w, rounds), true)
    ensures Prompted(w, messages, rounds + [round])
  {
    hide Transcript;
    var more := rounds + [round];
    assert more[..|rounds|] == rounds;
    forall k | 0 <= k < |rounds|
      ensures more[..k] == rounds[..k] && more[k] == rounds[k]
    {
    }
  }

  lemma WithinBoundsMore(maxIterations: int, tokenBudget: Option<int>, rounds: seq<Round>, round: Round)
    requires WithinBounds(maxIterations, tokenBudget, rounds) && |rounds| < maxIterations
    requires rounds != [] ==> !Exhausted(tokenBudget, Spent(rounds))
    ensures WithinBounds(maxIterations, tokenBudget, rounds + [round])
  {
    hide Exhausted, Spent;
    var more := rounds + [round];
    assert more[..|rounds|] == rounds;
    assert forall k :: 0 <= k < |rounds| ==> more[..k] == rounds[..k];
  }

  /** The loop's variables, explained by the rounds run so far. */
  ghost predicate Running(w: World, messages: seq<Message>, maxIterations: int, tokenBudget: Option<int>, rounds: seq<Round>,
                          conversation: seq<Message>, calls: seq<Record>, cache: map<Key, Payload>, dispatched: nat, spent: int)
  {
    && Complete(rounds)
    && conversation == messages + Transcript(w, rounds) && spent == Spent(rounds)
    && Ledger(w, Asked(rounds), Replies(rounds), calls, cache, dispatched)
    && Prompted(w, messages, rounds) && WithinBounds(maxIterations, tokenBudget, rounds)
  }

  lemma RoundDone(w: World, messages: seq<Message>, maxIterations: int, tokenBudget: Option<int>, rounds: seq<Round>,
                  conversation: seq<Message>, calls: seq<Record>, cache: map<Key, Payload>, dispatched: nat, spent: int,
                  round: Round, rounds': seq<Round>, conversation': seq<Message>, calls': seq<Record>,
                  cache': map<Key, Payload>, dispatched': nat, spent': int)
    requires Running(w, messages, maxIterations, tokenBudget, rounds, conversation, calls, cache, dispatched, spent)
    requires |round.payloads| == |round.response.toolCalls| > 0 && |rounds| < maxIterations
    requires round.response == w.complete(|rounds|, conversation, true)
    requires rounds != [] ==> !Exhausted(tokenBudget, spent)
    requires Ledger(w, Asked(rounds) + round.response.toolCalls, Replies(rounds) + round.payloads, calls', cache', dispatched')
    requires rounds' == rounds + [round] && conversation' == conversation + RoundMessages(w, round)
    requires spent' == spent + round.response.tokens
    ensures Running(w, messages, maxIterations, tokenBudget, rounds', conversation', calls', cache', dispatched', spent')
  {
    hide Ledger, Transcript, Asked, Replies, Spent, Prompted, WithinBounds, RoundMessages, Exhausted;
    OneMoreRound(w, rounds, round);
    PromptedMore(w, messages, rounds, round);
    WithinBoundsMore(maxIterations, tokenBudget, rounds, round);
    Regroup(messages, Transcript(w, rounds), RoundMessages(w, round));
  }

  lemma RunEnds(w: World, messages: seq<Message>, maxIterations: int, tokenBudget: Option<int>, rounds: seq<Round>,
                conversation: seq<Message>, calls: seq<Record>, cache: map<Key, Payload>, dispatched: nat, spent: int, r: Outcome)
    requires Running(w, messages, maxIterations, tokenBudget, rounds, conversation, calls, cache, dispatched, spent)
    requires r.Answered? && r.calls == calls && r.iterations == |rounds| && Numbered(calls, rounds)
    requires match r.stoppedOn
             case None =>
               && |rounds| < maxIterations && (rounds != [] ==> !Exhausted(tokenBudget, spent))
               && r.messages == conversation
               && r.response == w.complete(|rounds|, conversation, true) && r.response.toolCalls == []
             case Some(stop) =>
               && rounds != [] && r.messages == conversation + [AnswerNow(w)]
               && r.response == w.complete(|rounds|, r.messages, false)
               && (stop.TokenBudget? <==> Exhausted(tokenBudget, spent))
               && (stop.MaxIterations? ==> |rounds| == maxIterations)
    ensures Explains(w, messages, maxIterations, tokenBudget, rounds, r)
  {
    hide Transcript, Asked, Replies, Spent, Prompted, WithinBounds, RoundMessages, Exhausted, Served, Recorded, CacheIs;
    hide RoundNumbers;
  }

  /** Run the model until it answers without asking for another tool, or a bound ends the loop. */
  method RunToolLoop(w: World, messages: seq<Message>, maxIterations: int, tokenBudget: Option<int>)
    returns (r: Outcome, ghost rounds: seq<Round>, ghost completions: nat)
    ensures r.NoResponse? <==> maxIterations <= 0
    ensures r.Answered? ==> Explains(w, messages, maxIterations, tokenBudget, rounds, r)
    ensures if r.Answered? then completions == |rounds| + 1 <= maxIterations + 1 else completions == 0
  {
    hide Running, Explains, Orphans, Transcript, Exhausted, Numbered;
    if maxIterations <= 0 {
      return NoResponse, [], 0;
    }
    rounds, completions := [], 0;
    NoNumbers();
    NoRounds(w, messages, maxIterations, tokenBudget);
    var conversation, calls, cache, dispatched := messages, [], map[], 0;
    var spent, iteration := 0, 0;
    while iteration < maxIterations
      invariant iteration == completions == |rounds| <= maxIterations
      invariant Numbered(calls, rounds)
      invariant Running(w, messages, maxIterations, tokenBudget, rounds, conversation, calls, cache, dispatched, spent)
      invariant rounds != [] ==> !Exhausted(tokenBudget, spent)
    {
      var response := w.complete(iteration, conversation, true);
      completions := completions + 1;
      if response.toolCalls == [] {
        r := Answered(response, conversation, calls, iteration, None);
        RunEnds(w, messages, maxIterations, tokenBudget, rounds, conversation, calls, cache, dispatched, spent, r);
        return;
      }
      ghost var before, calls0, cache0, dispatched0, spent0 := conversation, calls, cache, dispatched, spent;
      RunningLedger(w, messages, maxIterations, tokenBudget, rounds, conversation, calls, cache, dispatched, spent);
      spent := spent + response.tokens;
      iteration := iteration + 1;
      conversation := conversation + [Announcement(response.content, response.toolCalls)];
      var payloads, results, answered;
      payloads, cache, dispatched, calls, results, answered :=
        ServeCalls(w, response.toolCalls, iteration, cache, dispatched, calls, Asked(rounds), Replies(rounds));
      conversation := conversation + results;
      conversation := RepairToolPairs(w, conversation, response.toolCalls, answered);
      RepairAnswersEveryCall(w, response.toolCalls, answered);
      ghost var round, rounds0 := Round(response, payloads), rounds;
      RoundIs(w, before, round, conversation);
      NumberedMore(calls0, rounds0, round, calls);
      rounds := rounds + [round];
      RoundDone(w, messages, maxIterations, tokenBudget, rounds0, before, calls0, cache0, dispatched0, spent0,
                round, rounds, conversation, calls, cache, dispatched, spent);
      if Exhausted(tokenBudget, spent) { break; }
    }
    var stop := if Exhausted(tokenBudget, spent) then TokenBudget else MaxIterations;
    ghost var asked := conversation;
    conversation := conversation + [AnswerNow(w)];
    r := Answered(w.complete(iteration, conversation, false), conversation, calls, iteration, Some(stop));
    completions := completions + 1;
    RunEnds(w, messages, maxIterations, tokenBudget, rounds, asked, calls, cache, dispatched, spent, r);
  }

  lemma RunningLedger(w: World, messages: seq<Message>, maxIterations: int, tokenBudget: Option<int>, rounds: seq<Round>,
                      conversation: seq<Message>, calls: seq<Record>, cache: map<Key, Payload>, dispatched: nat, spent: int)
    requires Running(w, messages, maxIterations, tokenBudget, rounds, conversation, calls, cache, dispatched, spent)
    ensures Ledger(w, Asked(rounds), Replies(rounds), calls, cache, dispatched)
  {
    hide Ledger;
  }

  lemma NoNumbers()
    ensures Numbered([], [])
  {
  }

  lemma NoRounds(w: World, messages: seq<Message>, maxIterations: int, tokenBudget: Option<int>)
    requires 0 < maxIterations
    ensures Running(w, messages, maxIterations, tokenBudget, [], messages, [], map[], 0, 0)
  {
    assert messages + [] == messages;
  }

  lemma RoundIs(w: World, before: seq<Message>, round: Round, conversation: seq<Message>)
    requires |round.payloads| == |round.response.toolCalls|
    requires conversation == before + [Announcement(round.response.content, round.response.toolCalls)]
                             + Results(w, round.response.toolCalls, round.payloads) + []
    ensures conversation == before + RoundMessages(w, round)
  {
  }

  // ---------------------------------------------------------------- what every run keeps

  /** The message at `i` is the result of the `j`-th of `calls`. */
  predicate ResultOf(m: Message, call: ToolCall) {
    m.ToolResult? && m.toolCallId == call.id && m.toolName == call.name
  }

  /** From `start` on, every announcement is followed by exactly one result per call, in order,
      and no result stands anywhere else. */
  ghost predicate WellPaired(conversation: seq<Message>, start: nat) {
    && (forall i :: start <= i < |conversation| && conversation[i].Announcement? ==> AnsweredAt(conversation, i))
    && (forall i :: start <= i < |conversation| && conversation[i].ToolResult?
          ==> exists k :: start <= k < i && Covers(conversation, k, i))
  }

  /** The announcement at `i` has all its results, and no more, right behind it. */
  ghost predicate AnsweredAt(conversation: seq<Message>, i: nat)
    requires i < |conversation| && conversation[i].Announcement?
  {
    var calls := conversation[i].calls;
    && i + |calls| < |conversation|
    && (forall j :: 0 <= j < |calls| ==> ResultOf(conversation[i + 1 + j], calls[j]))
    && (i + 1 + |calls| < |conversation| ==> !conversation[i + 1 + |calls|].ToolResult?)
  }

  /** The message at `i` is among the results the announcement at `k` asked for. */
  predicate Covers(conversation: seq<Message>, k: nat, i: nat)
    requires k < |conversation|
  {
    conversation[k].Announcement? && k < i <= k + |conversation[k].calls|
  }

  lemma PairedStill(c: seq<Message>, start: nat, more: seq<Message>)
    requires WellPaired(c, start) && start <= |c| && more != [] && !more[0].ToolResult?
    ensures forall i :: start <= i < |c| && c[i].Announcement? ==> AnsweredAt(c + more, i)
    ensures forall i :: start <= i < |c| && c[i].ToolResult? ==> exists k :: start <= k < i && Covers(c + more, k, i)
  {
    var d := c + more;
    forall i | start <= i < |c| && c[i].Announcement?
      ensures AnsweredAt(d, i)
    {
      assert AnsweredAt(c, i);
      assert forall j :: 0 <= j < |c| ==> d[j] == c[j];
    }
    forall i | start <= i < |c| && c[i].ToolResult?
      ensures exists k :: start <= k < i && Covers(d, k, i)
    {
      var k :| start <= k < i && Covers(c, k, i);
      assert Covers(d, k, i);
    }
  }

  lemma RoundIsPaired(w: World, c: seq<Message>, start: nat, round: Round)
    requires WellPaired(c, start) && start <= |c| && |round.payloads| == |round.response.toolCalls|
    ensures WellPaired(c + RoundMessages(w, round), start)
  {
    hide WellPaired, Covers, AnsweredAt;
    var more := RoundMessages(w, round);
    var d := c + more;
    PairedStill(c, start, more);
    NewRoundAnswered(w, c, round);
    PairedTogether(c, d, start);
  }

  lemma NewRoundAnswered(w: World, c: seq<Message>, round: Round)
    requires |round.payloads| == |round.response.toolCalls|
    ensures var d := c + RoundMessages(w, round);
            && d[|c|].Announcement? && AnsweredAt(d, |c|)
            && (forall i :: |c| < i < |d| ==> d[i].ToolResult? && Covers(d, |c|, i))
  {
  }

  lemma PairedTogether(c: seq<Message>, d: seq<Message>, start: nat)
    requires start <= |c| < |d| && c == d[..|c|]
    requires forall i :: start <= i < |c| && c[i].Announcement? ==> AnsweredAt(d, i)
    requires forall i :: start <= i < |c| && c[i].ToolResult? ==> exists k :: start <= k < i && Covers(d, k, i)
    requires !d[|c|].ToolResult? && (d[|c|].Announcement? ==> AnsweredAt(d, |c|))
    requires forall i :: |c| < i < |d| ==> d[i].ToolResult? && Covers(d, |c|, i)
    ensures WellPaired(d, start)
  {
    hide Covers, AnsweredAt;
    forall i | start <= i < |d| && d[i].ToolResult?
      ensures exists k :: start <= k < i && Covers(d, k, i)
    {
      if i < |c| {
        assert c[i].ToolResult?;
      } else {
        assert Covers(d, |c|, i);
      }
    }
  }

  lemma {:induction false} TranscriptPaired(w: World, messages: seq<Message>, rounds: seq<Round>)
    requires Complete(rounds)
    ensures WellPaired(messages + Transcript(w, rounds), |messages|)
    decreases |rounds|
  {
    hide WellPaired, RoundMessages;
    if rounds == [] {
      assert messages + [] == messages;
      assert WellPaired(messages, |messages|) by { NothingToPair(messages); }
    } else {
      var before, last := rounds[..|rounds| - 1], rounds[|rounds| - 1];
      TranscriptPaired(w, messages, before);
      RoundIsPaired(w, messages + Transcript(w, before), |messages|, last);
      Regroup(messages, Transcript(w, before), RoundMessages(w, last));
    }
  }

  lemma NothingToPair(messages: seq<Message>)
    ensures WellPaired(messages, |messages|)
  {
  }

  /** However a run ends: the input is kept in front, and every call made after it is answered. */
  lemma ConversationWellFormed(w: World, messages: seq<Message>, maxIterations: int, tokenBudget: Option<int>,
                               rounds: seq<Round>, r: Outcome)
    requires r.Answered? && Explains(w, messages, maxIterations, tokenBudget, rounds, r)
    ensures messages <= r.messages && WellPaired(r.messages, |messages|)
  {
    hide WellPaired, Prompted, WithinBounds, Served, Recorded, Exhausted, Spent;
    TranscriptPaired(w, messages, rounds);
    var c := messages + Transcript(w, rounds);
    if r.stoppedOn.Some? {
      PairedStill(c, |messages|, [AnswerNow(w)]);
      PromptPaired(w, c, |messages|);
    }
  }

  lemma PromptPaired(w: World, c: seq<Message>, start: nat)
    requires WellPaired(c, start) && start <= |c|
    ensures WellPaired(c + [AnswerNow(w)], start)
  {
    hide Covers, AnsweredAt;
    PairedStill(c, start, [AnswerNow(w)]);
    var d := c + [AnswerNow(w)];
    forall i | start <= i < |d| && d[i].ToolResult?
      ensures exists k :: start <= k < i && Covers(d, k, i)
    {
      assert c[i].ToolResult?;
    }
    forall i | start <= i < |d| && d[i].Announcement?
      ensures AnsweredAt(d, i)
    {
      assert c[i].Announcement?;
    }
  }

  lemma RoundsWithinBounds(maxIterations: int, tokenBudget: Option<int>, rounds: seq<Round>)
    requires WithinBounds(maxIterations, tokenBudget, rounds)
    ensures |rounds| <= maxIterations
  {
  }

  /** A run is reported as stopped exactly when a bound was reached, and it has never more rounds than the limit. */
  lemma StoppedExactlyOnABound(w: World, messages: seq<Message>, maxIterations: int, tokenBudget: Option<int>,
                               rounds: seq<Round>, r: Outcome)
    requires r.Answered? && Explains(w, messages, maxIterations, tokenBudget, rounds, r)
    ensures r.stoppedOn.Some? <==> |rounds| == maxIterations || (rounds != [] && Exhausted(tokenBudget, Spent(rounds)))
    ensures r.stoppedOn == None ==> r.response.toolCalls == []
    ensures r.iterations == |rounds| <= maxIterations
  {
    hide Prompted, Served, Recorded, Spent, Transcript, Complete, Asked, Replies, Exhausted, WithinBounds, Numbered;
    RoundsWithinBounds(maxIterations, tokenBudget, rounds);
  }

  function KeysOf(calls: seq<ToolCall>): set<Key> {
    set c <- calls :: KeyOf(c)
  }

  /** The number of dispatches is the number of different calls: each is run once, whatever is repeated. */
  lemma {:induction false} OneDispatchPerCall(asked: seq<ToolCall>, n: nat)
    requires n <= |asked|
    ensures DispatchesBefore(asked, n) == |KeysOf(asked[..n])|
  {
    if n > 0 {
      OneDispatchPerCall(asked, n - 1);
      var before, key := asked[..n - 1], KeyOf(asked[n - 1]);
      assert asked[..n] == before + [asked[n - 1]];
      assert KeysOf(asked[..n]) == KeysOf(before) + {key};
      if Fresh(asked, n - 1) {
        assert key !in KeysOf(before);
      } else {
        var j :| 0 <= j < n - 1 && SameCall(asked[j], asked[n - 1]);
        assert before[j] in before && KeyOf(before[j]) == key;
        assert key in KeysOf(before);
      }
    }
  }

  /** The tokens of the replies so far are summed, and the loop ends once fewer than 2000 of the budget are left. */
  lemma {:induction false} BudgetExactly(a: seq<Round>, b: seq<Round>, tokenBudget: Option<int>)
    ensures Spent(a + b) == Spent(a) + Spent(b) && (|b| == 1 ==> Spent(b) == b[0].response.tokens)
    ensures Exhausted(tokenBudget, Spent(a)) <==> tokenBudget.Some? && tokenBudget.value < Spent(a) + 2000
  {
    if b == [] {
      assert a + b == a;
    } else {
      assert (a + b)[..|a + b| - 1] == a + b[..|b| - 1];
      BudgetExactly(a, b[..|b| - 1], tokenBudget);
    }
  }

  // ---------------------------------------------------------------- what the model is told

  /** A repeat is answered as the first such call was, with one more entry, which says so. */
  ghost predicate RepeatsAs(w: World, again: Payload, first: Payload) {
    && again.Keys == first.Keys + {"note"} && again["note"] == w.texts.note
    && forall k :: k in first && k != "note" ==> again[k] == first[k]
  }

  /** The first call with the name and arguments of the one at `i`, from position `k` on. */
  function FirstFrom(asked: seq<ToolCall>, i: nat, k: nat): (j: nat)
    requires k <= i < |asked| && forall l :: 0 <= l < k ==> !SameCall(asked[l], asked[i])
    ensures k <= j <= i && SameCall(asked[j], asked[i]) && forall l :: 0 <= l < j ==> !SameCall(asked[l], asked[i])
    decreases i - k
  {
    if SameCall(asked[k], asked[i]) then k else FirstFrom(asked, i, k + 1)
  }

  function FirstLike(asked: seq<ToolCall>, i: nat): (j: nat)
    requires i < |asked|
    ensures j <= i && Fresh(asked, j) && SameCall(asked[j], asked[i])
    ensures j == i <==> Fresh(asked, i)
  {
    FirstFrom(asked, i, 0)
  }

  lemma OneFirst(asked: seq<ToolCall>, i: nat, j: nat, k: nat)
    requires i < |asked| && j < |asked| && k < |asked| && Fresh(asked, j) && Fresh(asked, k)
    requires SameCall(asked[j], asked[i]) && SameCall(asked[k], asked[i])
    ensures j == k
  {
  }

  /** Every answer that was given: to the first call of its kind what the tool said, and to a repeat the same with the note. */
  lemma AnswersAre(w: World, asked: seq<ToolCall>, given: seq<Payload>, i: nat)
    requires Served(w, asked, given) && i < |asked|
    ensures var j := FirstLike(asked, i);
            && given[j] == w.dispatch(DispatchesBefore(asked, j), asked[i].name, asked[i].arguments)
            && (j < i ==> RepeatsAs(w, given[i], given[j]))
  {
    var j := FirstLike(asked, i);
    assert ServedAt(w, asked, given, i) && ServedAt(w, asked, given, j);
    if j < i {
      var k :| 0 <= k < i && Fresh(asked, k) && SameCall(asked[k], asked[i]) && given[i] == Noted(w, given[k]);
      OneFirst(asked, i, j, k);
    }
  }

  /** The tool results of a conversation, in order. */
  function ToolResults(ms: seq<Message>): seq<Message> {
    if ms == [] then []
    else
      var before, m := ToolResults(ms[..|ms| - 1]), ms[|ms| - 1];
      if m.ToolResult? then before + [m] else before
  }

  lemma {:induction false} ToolResultsAppend(a: seq<Message>, b: seq<Message>)
    ensures ToolResults(a + b) == ToolResults(a) + ToolResults(b)
  {
    if b == [] {
      assert a + b == a;
    } else {
      assert (a + b)[..|a + b| - 1] == a + b[..|b| - 1];
      ToolResultsAppend(a, b[..|b| - 1]);
    }
  }

  lemma {:induction false} AllResults(ms: seq<Message>)
    requires forall m <- ms :: m.ToolResult?
    ensures ToolResults(ms) == ms
  {
    if ms != [] {
      AllResults(ms[..|ms| - 1]);
      assert ms[|ms| - 1] in ms;
    }
  }

  lemma RoundResults(w: World, r: Round)
    requires |r.payloads| == |r.response.toolCalls|
    ensures ToolResults(RoundMessages(w, r)) == Results(w, r.response.toolCalls, r.payloads)
  {
    var head, results := [Announcement(r.response.content, r.response.toolCalls)], Results(w, r.response.toolCalls, r.payloads);
    ToolResultsAppend(head, results);
    AllResults(results);
    assert head[..0] == [];
  }

  lemma {:induction false} AskedMatch(rounds: seq<Round>)
    requires Complete(rounds)
    ensures |Asked(rounds)| == |Replies(rounds)|
  {
    if rounds != [] {
      var init, last := rounds[..|rounds| - 1], rounds[|rounds| - 1];
      assert last in rounds && forall r <- init :: r in rounds;
      AskedMatch(init);
    }
  }

  lemma {:induction false} TranscriptResults(w: World, rounds: seq<Round>)
    requires Complete(rounds)
    ensures |Asked(rounds)| == |Replies(rounds)|
    ensures ToolResults(Transcript(w, rounds)) == Results(w, Asked(rounds), Replies(rounds))
  {
    hide RoundMessages, Results;
    AskedMatch(rounds);
    if rounds == [] {
      NoResults(w);
    } else {
      var init, last := rounds[..|rounds| - 1], rounds[|rounds| - 1];
      assert last in rounds && forall r <- init :: r in rounds;
      TranscriptResults(w, init);
      ToolResultsAppend(Transcript(w, init), RoundMessages(w, last));
      RoundResults(w, last);
      ResultsJoin(w, Asked(init), Replies(init), last.response.toolCalls, last.payloads);
    }
  }

  lemma NoResults(w: World)
    ensures Results(w, [], []) == []
  {
  }

  lemma ResultsJoin(w: World, a: seq<ToolCall>, x: seq<Payload>, b: seq<ToolCall>, y: seq<Payload>)
    requires |a| == |x| && |b| == |y|
    ensures Results(w, a + b, x + y) == Results(w, a, x) + Results(w, b, y)
  {
    var whole, parts := Results(w, a + b, x + y), Results(w, a, x) + Results(w, b, y);
    forall i | 0 <= i < |whole|
      ensures whole[i] == parts[i]
    {
    }
  }

  /** What the model is told in a finished run, result by result: the call's id and name, and the encoding of the tool's own
    answer, or for a call made before of that answer with the note. */
  lemma ModelIsTold(w: World, messages: seq<Message>, maxIterations: int, tokenBudget: Option<int>, rounds: seq<Round>,
                    r: Outcome)
    requires r.Answered? && Explains(w, messages, maxIterations, tokenBudget, rounds, r)
    ensures r.stoppedOn.Some? ==> r.messages[|r.messages| - 1] == Given("user", w.texts.closing)
    ensures var asked, given, told := Asked(rounds), Replies(rounds), ToolResults(r.messages[|messages|..]);
            && messages <= r.messages && |told| == |asked| == |given|
            && forall i :: 0 <= i < |told| ==>
                 var j := FirstLike(asked, i);
                 && told[i] == ToolResult(w.encode(given[i]), asked[i].id, asked[i].name)
                 && given[j] == w.dispatch(DispatchesBefore(asked, j), asked[i].name, asked[i].arguments)
                 && (j < i ==> RepeatsAs(w, given[i], given[j]))
  {
    hide Prompted, WithinBounds, Served, Recorded, Exhausted, Spent, Transcript, Asked, Replies, Numbered, ToolResults, RepeatsAs;
    TranscriptResults(w, rounds);
    var t := Transcript(w, rounds);
    if r.stoppedOn.Some? {
      ToolResultsAppend(t, [AnswerNow(w)]);
      NotAResult(AnswerNow(w));
      assert r.messages[|messages|..] == t + [AnswerNow(w)];
    } else {
      assert r.messages[|messages|..] == t;
    }
    forall i | 0 <= i < |Asked(rounds)|
      ensures var j := FirstLike(Asked(rounds), i);
              && Replies(rounds)[j] == w.dispatch(DispatchesBefore(Asked(rounds), j), Asked(rounds)[i].name, Asked(rounds)[i].arguments)
              && (j < i ==> RepeatsAs(w, Replies(rounds)[i], Replies(rounds)[j]))
    {
      AnswersAre(w, Asked(rounds), Replies(rounds), i);
    }
  }

  lemma NotAResult(m: Message)
    requires !m.ToolResult?
    ensures ToolResults([m]) == []
  {
    assert [m][..0] == [];
  }
}
