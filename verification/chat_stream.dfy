/** One streamed chat turn over a chain of providers.

  Providers are arbitrary: any chunks, any failure. Storing the assistant's message is
  atomic. Everything the turn does to the outside, the events it emits and the row it
  stores, is one log of actions; a client that goes away cuts the log anywhere.
 */
module ChatStream {
  import opened Text
  import Fences

  datatype Chunk = Chunk(text: string, model: string, provider: string, done: bool, usage: seq<(string, int)>)

  /** Saved: the stream ended and its message was stored. Failed: something on the way raised. */
  datatype Outcome = Saved | Failed(code: string)

  datatype Attempt = Attempt(name: string, chunks: seq<Chunk>, outcome: Outcome)

  datatype Row = Row(content: string, model: string, provider: string, usage: seq<(string, int)>,
                     artifacts: seq<Fences.Fenced>)

  datatype Event =
    | Recall
    | UserMessage
    | Token(text: string)
    | StreamReset(failed: string)
    | Done(provider: string, via: string, artifacts: seq<Fences.Fenced>)
    | Error(code: string)

  datatype Action = Emit(event: Event) | Store(row: Row)

  /** What is kept of the reply while it streams. */
  datatype Reply = Reply(parts: seq<string>, model: string, provider: string, usage: seq<(string, int)>)

  const PRELUDE := [Emit(Recall), Emit(UserMessage)]

  // ---------------------------------------------------------------- one attempt

  function Or(name: string, otherwise: string): string {
    if name != "" then name else otherwise
  }

  function Take(r: Reply, c: Chunk): Reply {
    Reply(if c.text != "" then r.parts + [c.text] else r.parts,
          if c.text != "" || c.done then Or(c.model, r.model) else r.model,
          if c.text != "" || c.done then Or(c.provider, r.provider) else r.provider,
          if c.done && c.usage != [] then c.usage else r.usage)
  }

  function TakeAll(r: Reply, chunks: seq<Chunk>): Reply {
    if chunks == [] then r else Take(TakeAll(r, chunks[..|chunks| - 1]), chunks[|chunks| - 1])
  }

  /** The events one attempt emits: a token for every chunk with text. */
  function Tokens(chunks: seq<Chunk>): seq<Action> {
    if chunks == [] then []
    else
      var before := Tokens(chunks[..|chunks| - 1]);
      var c := chunks[|chunks| - 1];
      if c.text != "" then before + [Emit(Token(c.text))] else before
  }

  /** All the text of an attempt. */
  function AllText(chunks: seq<Chunk>): string {
    if chunks == [] then "" else AllText(chunks[..|chunks| - 1]) + chunks[|chunks| - 1].text
  }

  /** A new attempt keeps the names of the last, and nothing else. */
  function Fresh(r: Reply): Reply {
    r.(parts := [], usage := [])
  }

  function RowOf(r: Reply): Row {
    var content := Concat(r.parts);
    Row(content, r.model, r.provider, r.usage, Fences.ServerArtifacts(content))
  }

  // ---------------------------------------------------------------- the whole turn

  /** The first attempt that is saved, or the length of the chain. */
  function Winner(chain: seq<Attempt>): (w: nat)
    ensures w <= |chain|
    ensures forall i :: 0 <= i < w ==> chain[i].outcome.Failed?
    ensures w < |chain| ==> chain[w].outcome.Saved?
  {
    if chain == [] || chain[0].outcome.Saved? then 0 else 1 + Winner(chain[1..])
  }

  /** What the first `n` attempts leave in the reply. */
  function Carried(chain: seq<Attempt>, n: nat): Reply
    requires n <= |chain|
  {
    if n == 0 then Reply([], "", "", []) else TakeAll(Fresh(Carried(chain, n - 1)), chain[n - 1].chunks)
  }

  /** What the first `n` attempts emit when each is lost and another follows. */
  function Lost(chain: seq<Attempt>, n: nat): seq<Action>
    requires n <= |chain|
  {
    if n == 0 then []
    else Lost(chain, n - 1) + Tokens(chain[n - 1].chunks) + [Emit(StreamReset(chain[n - 1].name))]
  }

  /** Everything before the last word of the turn. */
  function Opening(chain: seq<Attempt>, last: nat): seq<Action>
    requires last < |chain|
  {
    PRELUDE + Lost(chain, last) + Tokens(chain[last].chunks)
  }

  function Turn(chain: seq<Attempt>): seq<Action> {
    var w := Winner(chain);
    if chain == [] then PRELUDE
    else if w < |chain| then
      var row := RowOf(Carried(chain, w + 1));
      Opening(chain, w) + [Store(row), Emit(Done(row.provider, chain[w].name, row.artifacts))]
    else
      Opening(chain, |chain| - 1) + [Emit(Error(chain[|chain| - 1].outcome.code))]
  }

  lemma {:induction false} WinnerIs(chain: seq<Attempt>, w: nat)
    requires w <= |chain| && (forall i :: 0 <= i < w ==> chain[i].outcome.Failed?)
    requires w < |chain| ==> chain[w].outcome.Saved?
    ensures Winner(chain) == w
  {
    if w > 0 { WinnerIs(chain[1..], w - 1); }
  }

  /** The turn, seen from the first attempt that is saved. */
  lemma {:induction false} WonAt(chain: seq<Attempt>, w: nat)
    requires w < |chain| && chain[w].outcome.Saved? && forall i :: 0 <= i < w ==> chain[i].outcome.Failed?
    ensures var row := RowOf(Carried(chain, w + 1));
            Turn(chain) == Opening(chain, w) + [Store(row), Emit(Done(row.provider, chain[w].name, row.artifacts))]
    ensures Winner(chain) == w
  {
    hide Opening, RowOf, Carried;
    WinnerIs(chain, w);
  }

  /** The turn, when every attempt is lost. */
  lemma {:induction false} AllLost(chain: seq<Attempt>)
    requires chain != [] && forall i :: 0 <= i < |chain| ==> chain[i].outcome.Failed?
    ensures Turn(chain) == Opening(chain, |chain| - 1) + [Emit(Error(chain[|chain| - 1].outcome.code))]
    ensures Winner(chain) == |chain|
  {
    hide Opening;
    WinnerIs(chain, |chain|);
  }

  lemma {:induction false} OneMoreLost(chain: seq<Attempt>, n: nat)
    requires n < |chain|
    ensures PRELUDE + Lost(chain, n + 1) == Opening(chain, n) + [Emit(StreamReset(chain[n].name))]
    ensures Carried(chain, n + 1) == TakeAll(Fresh(Carried(chain, n)), chain[n].chunks)
  {
    hide Tokens, TakeAll;
  }

  /** The state of one streamed turn, and the actions it has taken. */
  class StreamState {
    var parts: seq<string>
    var model: string
    var provider: string
    var usage: seq<(string, int)>
    var finalized: bool
    var log: seq<Action>

    constructor ()
      ensures Kept() == Reply([], "", "", []) && !finalized && log == []
    {
      parts, model, provider, usage, finalized, log := [], "", "", [], false, [];
    }

    ghost function Kept(): Reply
      reads this
    {
      Reply(parts, model, provider, usage)
    }

    method ConsumeProviderStream(chunks: seq<Chunk>)
      modifies this`parts, this`model, this`provider, this`usage, this`log
      ensures Kept() == TakeAll(old(Kept()), chunks)
      ensures log == old(log) + Tokens(chunks)
    {
      for i := 0 to |chunks|
        invariant Kept() == TakeAll(old(Kept()), chunks[..i])
        invariant log == old(log) + Tokens(chunks[..i])
      {
        assert chunks[..i + 1][..i] == chunks[..i];
        var chunk := chunks[i];
        if chunk.text != "" {
          parts := parts + [chunk.text];
          model, provider := Or(chunk.model, model), Or(chunk.provider, provider);
          log := log + [Emit(Token(chunk.text))];
        }
        if chunk.done {
          usage := if chunk.usage != [] then chunk.usage else usage;
          model, provider := Or(chunk.model, model), Or(chunk.provider, provider);
        }
      }
      assert chunks[..|chunks|] == chunks;
    }

    method FinalizeAssistantMessage() returns (row: Row)
      modifies this`finalized, this`log
      ensures row == RowOf(Kept()) && finalized && log == old(log) + [Store(row)]
    {
      var content := Concat(parts);
      var artifacts := Fences.ParseArtifacts(content);
      row := Row(content, model, provider, usage, artifacts);
      log := log + [Store(row)];
      finalized := true;
    }

    method IterChatTurnStream(chain: seq<Attempt>)
      requires Kept() == Reply([], "", "", []) && !finalized && log == []
      modifies this
      ensures log == Turn(chain)
      ensures finalized == (Winner(chain) < |chain|)
    {
      hide TakeAll, Tokens, RowOf, Lost, Carried, Turn, Winner;
      StartOfTurn(chain);
      log := PRELUDE;
      var index := 0;
      while index < |chain|
        invariant index <= |chain| && !finalized && (chain != [] ==> index < |chain|)
        invariant forall i :: 0 <= i < index ==> chain[i].outcome.Failed?
        invariant Fresh(Kept()) == Fresh(Carried(chain, index))
        invariant log == PRELUDE + Lost(chain, index)
      {
        var attempt := chain[index];
        parts, usage := [], [];
        ConsumeProviderStream(attempt.chunks);
        OneMoreLost(chain, index);
        assert log == Opening(chain, index);
        if attempt.outcome.Saved? {
          WonAt(chain, index);
          var row := FinalizeAssistantMessage();
          log := log + [Emit(Done(row.provider, attempt.name, row.artifacts))];
          return;
        }
        parts := [];
        if index == |chain| - 1 {
          AllLost(chain);
          log := log + [Emit(Error(attempt.outcome.code))];
          return;
        }
        log := log + [Emit(StreamReset(attempt.name))];
        index := index + 1;
      }
    }
  }

  lemma {:induction false} StartOfTurn(chain: seq<Attempt>)
    ensures PRELUDE + Lost(chain, 0) == PRELUDE && Carried(chain, 0) == Reply([], "", "", [])
    ensures chain == [] ==> Turn(chain) == PRELUDE && Winner(chain) == 0
  {
  }

  // ---------------------------------------------------------------- what the client sees

  /** The text on the client's screen: tokens appended, cleared by a reset and by either end. */
  function Screen(actions: seq<Action>): string {
    if actions == [] then ""
    else
      var before := Screen(actions[..|actions| - 1]);
      match actions[|actions| - 1]
      case Emit(Token(text)) => before + text
      case Emit(StreamReset(_)) => ""
      case Emit(Done(_, _, _)) => ""
      case Emit(Error(_)) => ""
      case _ => before
  }

  lemma {:induction false} ScreenAppend(actions: seq<Action>, a: Action)
    ensures Screen(actions + [a]) == match a
              case Emit(Token(text)) => Screen(actions) + text
              case Emit(StreamReset(_)) => ""
              case Emit(Done(_, _, _)) => ""
              case Emit(Error(_)) => ""
              case _ => Screen(actions)
  {
    assert (actions + [a])[..|actions|] == actions;
  }

  lemma {:induction false} TokensShow(actions: seq<Action>, chunks: seq<Chunk>)
    ensures Screen(actions + Tokens(chunks)) == Screen(actions) + AllText(chunks)
  {
    hide Screen;
    if chunks == [] {
      assert actions + [] == actions;
    } else {
      var init, c := chunks[..|chunks| - 1], chunks[|chunks| - 1];
      TokensShow(actions, init);
      if c.text != "" {
        ScreenAppend(actions + Tokens(init), Emit(Token(c.text)));
        assert actions + Tokens(chunks) == (actions + Tokens(init)) + [Emit(Token(c.text))];
      }
    }
  }

  lemma {:induction false} PartsAreText(r: Reply, chunks: seq<Chunk>)
    ensures Concat(TakeAll(r, chunks).parts) == Concat(r.parts) + AllText(chunks)
  {
    if chunks != [] {
      var init, c := chunks[..|chunks| - 1], chunks[|chunks| - 1];
      PartsAreText(r, init);
      if c.text != "" {
        ConcatAppend(TakeAll(r, init).parts, [c.text]);
        assert Concat([c.text]) == c.text + Concat([]) == c.text;
      }
    }
  }

  /** Before its last attempt speaks, the turn has nothing on the screen. */
  lemma {:induction false} ResetsClear(chain: seq<Attempt>, n: nat)
    requires n <= |chain|
    ensures Screen(PRELUDE + Lost(chain, n)) == ""
  {
    if n == 0 {
      ScreenAppend([], Emit(Recall));
      ScreenAppend([Emit(Recall)], Emit(UserMessage));
      assert PRELUDE + [] == [Emit(Recall)] + [Emit(UserMessage)] && [] + [Emit(Recall)] == [Emit(Recall)];
    } else {
      hide Screen;
      var before := Lost(chain, n - 1) + Tokens(chain[n - 1].chunks);
      var reset := Emit(StreamReset(chain[n - 1].name));
      ScreenAppend(PRELUDE + before, reset);
      assert PRELUDE + Lost(chain, n) == (PRELUDE + before) + [reset];
    }
  }

  /** When `done` arrives the client holds exactly the stored text: the whole text of the attempt
    that won, and not a character of the ones that failed. */
  lemma {:induction false} ClientHoldsTheStoredText(chain: seq<Attempt>)
    requires Winner(chain) < |chain|
    ensures var w := Winner(chain);
            var row := RowOf(Carried(chain, w + 1));
            && Turn(chain) == Opening(chain, w) + [Store(row), Emit(Done(row.provider, chain[w].name, row.artifacts))]
            && Screen(Opening(chain, w)) == row.content == AllText(chain[w].chunks)
  {
    hide Screen, Winner, Tokens, AllText;
    var w := Winner(chain);
    ResetsClear(chain, w);
    TokensShow(PRELUDE + Lost(chain, w), chain[w].chunks);
    PartsAreText(Fresh(Carried(chain, w)), chain[w].chunks);
    assert Concat([]) == "";
    assert Screen(Opening(chain, w)) == "" + AllText(chain[w].chunks);
  }

  /** The families stored with the message, and sent with `done`, land on the fences the client has
    already drawn from the tokens. */
  lemma {:induction false} DoneArtifactsFit<A>(chain: seq<Attempt>, stamp: Fences.Fenced -> A, local: Fences.Fenced -> A)
    requires Winner(chain) < |chain|
    ensures var text := Screen(Opening(chain, Winner(chain)));
            var stored := RowOf(Carried(chain, Winner(chain) + 1)).artifacts;
            Fences.Rendered(Fences.ClientSegments(text), Fences.Stamps(stored, stamp), local)
            == Fences.Rendered(Fences.Segments(text, 0), [], fenced => stamp(Fences.Stripped(fenced)))
  {
    hide Fences.Rendered, Fences.ClientSegments, Fences.ServerArtifacts;
    ClientHoldsTheStoredText(chain);
    Fences.FinishedReplyShown(Screen(Opening(chain, Winner(chain))), stamp, local);
  }

  // ---------------------------------------------------------------- one ending, one row

  predicate Ending(a: Action) {
    a.Emit? && (a.event.Done? || a.event.Error?)
  }

  /** Neither an end nor a row. */
  predicate Quiet(a: Action) {
    !Ending(a) && !a.Store?
  }

  lemma {:induction false} TokensAreQuiet(chunks: seq<Chunk>)
    ensures forall a <- Tokens(chunks) :: Quiet(a)
  {
    if chunks != [] { TokensAreQuiet(chunks[..|chunks| - 1]); }
  }

  lemma {:induction false} LostIsQuiet(chain: seq<Attempt>, n: nat)
    requires n <= |chain|
    ensures forall a <- Lost(chain, n) :: Quiet(a)
  {
    hide Tokens;
    if n > 0 {
      LostIsQuiet(chain, n - 1);
      TokensAreQuiet(chain[n - 1].chunks);
    }
  }

  lemma {:induction false} OpeningIsQuiet(chain: seq<Attempt>, last: nat)
    requires last < |chain|
    ensures forall a <- Opening(chain, last) :: Quiet(a)
  {
    hide Tokens, Lost;
    LostIsQuiet(chain, last);
    TokensAreQuiet(chain[last].chunks);
  }

  function Rows(actions: seq<Action>): seq<Row> {
    if actions == [] then []
    else
      var before := Rows(actions[..|actions| - 1]);
      if actions[|actions| - 1].Store? then before + [actions[|actions| - 1].row] else before
  }

  lemma {:induction false} QuietStoresNothing(actions: seq<Action>)
    requires forall a <- actions :: !a.Store?
    ensures Rows(actions) == []
  {
    if actions != [] { QuietStoresNothing(actions[..|actions| - 1]); }
  }

  lemma {:induction false} RowsAppend(actions: seq<Action>, a: Action)
    ensures Rows(actions + [a]) == if a.Store? then Rows(actions) + [a.row] else Rows(actions)
  {
    assert (actions + [a])[..|actions|] == actions;
  }

  /** A turn over a non-empty chain ends once, with its last event: `done` exactly when some attempt
    was saved, and then one row is stored, just before it; `error` otherwise, and then none is. */
  lemma {:induction false} EndsExactlyOnce(chain: seq<Attempt>)
    requires chain != []
    ensures var t := Turn(chain);
            var won := exists i :: 0 <= i < |chain| && chain[i].outcome.Saved?;
            && t != [] && Ending(t[|t| - 1]) && (forall i :: 0 <= i < |t| - 1 ==> !Ending(t[i]))
            && (t[|t| - 1].event.Done? <==> won)
            && |Rows(t)| == (if won then 1 else 0)
            && (won ==> t[|t| - 2].Store? && Rows(t[..|t| - 2]) == [])
  {
    hide Tokens, Lost, Rows, RowOf, Opening, Winner, Carried, Turn;
    var t, w := Turn(chain), Winner(chain);
    if w < |chain| {
      WonAt(chain, w);
      OpeningIsQuiet(chain, w);
      RowThenEnd(Opening(chain, w), t[|t| - 2], t[|t| - 1], t);
    } else {
      AllLost(chain);
      OpeningIsQuiet(chain, |chain| - 1);
      var head := Opening(chain, |chain| - 1);
      QuietStoresNothing(head);
      RowsAppend(head, t[|t| - 1]);
      QuietBefore(head, t);
    }
  }

  lemma {:induction false} QuietBefore(head: seq<Action>, t: seq<Action>)
    requires head <= t && forall a <- head :: Quiet(a)
    ensures forall i :: 0 <= i < |head| ==> !Ending(t[i])
  {
    forall i | 0 <= i < |head|
      ensures !Ending(t[i])
    {
      assert t[i] == head[i] && head[i] in head;
    }
  }

  lemma {:induction false} RowThenEnd(head: seq<Action>, store: Action, end: Action, t: seq<Action>)
    requires t == head + [store, end] && store.Store? && Ending(end) && forall a <- head :: Quiet(a)
    ensures forall i :: 0 <= i < |t| - 1 ==> !Ending(t[i])
    ensures t[..|t| - 2] == head && Rows(head) == [] && Rows(t) == [store.row]
  {
    hide Rows;
    QuietStoresNothing(head);
    RowsAppend(head, store);
    RowsAppend(head + [store], end);
    assert t == head + [store] + [end];
    QuietBefore(head, t);
  }

  /** How the commit after the last event goes. A client that leaves after `done` can cancel it. */
  datatype Commit = Committed | CommitFails(code: string) | CommitCancelled

  /** What the route sends, and the rows it leaves in the database. */
  datatype Answer = Answer(sent: seq<Event>, rows: seq<Row>)

  function EventsOf(actions: seq<Action>): seq<Event> {
    if actions == [] then []
    else
      var before := EventsOf(actions[..|actions| - 1]);
      if actions[|actions| - 1].Emit? then before + [actions[|actions| - 1].event] else before
  }

  /** The route: forward the turn's events unless the client goes away after `cut` of its actions, then commit;
    a commit that raises rolls back, and an `error` is sent after all the rest. */
  function Serve(chain: seq<Attempt>, cut: nat, commit: Commit): Answer {
    var t := Turn(chain);
    if cut < |t| then Answer(EventsOf(t[..cut]), [])
    else match commit
      case Committed => Answer(EventsOf(t), Rows(t))
      case CommitFails(code) => Answer(EventsOf(t) + [Error(code)], [])
      case CommitCancelled => Answer(EventsOf(t), [])
  }

  method ServeTurn(chain: seq<Attempt>, cut: nat, commit: Commit) returns (answer: Answer)
    ensures answer == Serve(chain, cut, commit)
  {
    var state := new StreamState();
    state.IterChatTurnStream(chain);
    var sent: seq<Event>, flushed: seq<Row> := [], [];
    hide Turn;
    for k := 0 to |state.log|
      invariant state.log == Turn(chain)
      invariant sent == EventsOf(state.log[..k]) && flushed == Rows(state.log[..k])
      invariant k <= cut
    {
      assert state.log[..k + 1][..k] == state.log[..k];
      if cut == k {
        // Gone: everything not committed is rolled back.
        return Answer(sent, []);
      }
      match state.log[k]
      case Emit(event) => sent := sent + [event];
      case Store(row) => flushed := flushed + [row];
    }
    assert state.log[..|state.log|] == state.log;
    match commit
    case Committed => answer := Answer(sent, flushed);
    case CommitFails(code) => answer := Answer(sent + [Error(code)], []);
    case CommitCancelled => answer := Answer(sent, []);
  }

  lemma {:induction false} EventsAppend(a: seq<Action>, b: seq<Action>)
    ensures EventsOf(a + b) == EventsOf(a) + EventsOf(b)
  {
    if b == [] {
      assert a + b == a;
    } else {
      assert (a + b)[..|a + b| - 1] == a + b[..|b| - 1];
      EventsAppend(a, b[..|b| - 1]);
    }
  }

  /** A row in the database means that `done` was sent, and its text was on the client's screen; there is one
    exactly when some attempt was saved, every event was sent, and the commit went through. */
  lemma {:induction false} RowMeansDone(chain: seq<Attempt>, cut: nat, commit: Commit)
    requires chain != []
    ensures var a := Serve(chain, cut, commit);
            var won := exists i :: 0 <= i < |chain| && chain[i].outcome.Saved?;
            && (a.rows != [] ==> |a.rows| == 1 && a.sent != [] && a.sent[|a.sent| - 1].Done?)
            && (a.rows != [] <==> won && cut >= |Turn(chain)| && commit.Committed?)
    ensures Serve(chain, cut, commit).rows != [] ==>
              Winner(chain) < |chain| && Serve(chain, cut, commit).rows[0].content == Screen(Opening(chain, Winner(chain)))
  {
    hide Rows, RowOf, Carried, Turn, Screen, Opening;
    var t := Turn(chain);
    EndsExactlyOnce(chain);
    LastEvent(t);
    if Winner(chain) < |chain| {
      ClientHoldsTheStoredText(chain);
      WonRows(chain);
    }
  }

  lemma {:induction false} LastEvent(t: seq<Action>)
    requires t != [] && t[|t| - 1].Emit?
    ensures EventsOf(t) != [] && EventsOf(t)[|EventsOf(t)| - 1] == t[|t| - 1].event
  {
  }

  lemma {:induction false} WonRows(chain: seq<Attempt>)
    requires Winner(chain) < |chain|
    ensures Rows(Turn(chain)) == [RowOf(Carried(chain, Winner(chain) + 1))]
  {
    hide Rows, RowOf, Carried, Turn, Opening;
    var w := Winner(chain);
    WonAt(chain, w);
    OpeningIsQuiet(chain, w);
    var t := Turn(chain);
    RowThenEnd(Opening(chain, w), t[|t| - 2], t[|t| - 1], t);
  }

  /** A turn that was won, and a commit that fails: the client is told `done`, nothing is stored, and then it is
    told `error`. A cancelled commit leaves it with `done` alone. */
  lemma {:induction false} DoneThenNothing(chain: seq<Attempt>, cut: nat, code: string)
    requires Winner(chain) < |chain| && cut >= |Turn(chain)|
    ensures var failed, cancelled := Serve(chain, cut, CommitFails(code)), Serve(chain, cut, CommitCancelled);
            var n := |failed.sent|;
            && failed.rows == [] && n >= 2 && failed.sent[n - 2].Done? && failed.sent[n - 1] == Error(code)
            && cancelled.rows == [] && cancelled.sent == failed.sent[..n - 1]
  {
    hide RowOf, Carried, Turn, Opening;
    WonAt(chain, Winner(chain));
    LastEvent(Turn(chain));
  }

  /** A client that goes away before the end: nothing is in the database, and even the unfinished transaction
    holds a row only when the cut falls on `done` itself. */
  lemma {:induction false} DisconnectLeavesNoRow(chain: seq<Attempt>, cut: nat, commit: Commit)
    requires chain != [] && cut < |Turn(chain)|
    ensures Serve(chain, cut, commit).rows == []
    ensures var t := Turn(chain);
            Rows(t[..cut]) != [] ==> cut == |t| - 1 && t[cut].Emit? && t[cut].event.Done?
  {
    hide Rows, RowOf, Winner, Carried, Turn;
    var t := Turn(chain);
    EndsExactlyOnce(chain);
    if !(t[|t| - 1].event.Done? && cut == |t| - 1) {
      NoEarlyRow(chain, cut);
    }
  }

  lemma {:induction false} NoEarlyRow(chain: seq<Attempt>, cut: nat)
    requires chain != [] && cut < |Turn(chain)|
    requires Winner(chain) < |chain| ==> cut < |Turn(chain)| - 1
    ensures Rows(Turn(chain)[..cut]) == []
  {
    hide Rows, RowOf, Winner, Carried, Opening;
    var w := Winner(chain);
    var head := Opening(chain, if w < |chain| then w else |chain| - 1);
    OpeningIsQuiet(chain, if w < |chain| then w else |chain| - 1);
    assert Turn(chain)[..cut] == head[..cut];
    assert forall a <- head[..cut] :: a in head;
    QuietStoresNothing(head[..cut]);
  }

  // ---------------------------------------------------------------- who is credited

  /** The last name among the chunks that carry text or close a stream. */
  function LastNamed(chunks: seq<Chunk>, otherwise: string): string {
    if chunks == [] then otherwise
    else
      var c := chunks[|chunks| - 1];
      if (c.text != "" || c.done) && c.provider != "" then c.provider
      else LastNamed(chunks[..|chunks| - 1], otherwise)
  }

  lemma {:induction false} ProviderIsLastNamed(r: Reply, chunks: seq<Chunk>)
    ensures TakeAll(r, chunks).provider == LastNamed(chunks, r.provider)
  {
    if chunks != [] { ProviderIsLastNamed(r, chunks[..|chunks| - 1]); }
  }

  /** The names are not cleared between attempts: a winner that names itself is credited, and one
    that does not is credited to whatever the attempts before it last named. */
  lemma {:induction false} CreditIsLastNamed(chain: seq<Attempt>, n: nat)
    requires n < |chain|
    ensures Carried(chain, n + 1).provider == LastNamed(chain[n].chunks, Carried(chain, n).provider)
    ensures Carried(chain, n + 1).usage == TakeAll(Reply([], "", "", []), chain[n].chunks).usage
  {
    ProviderIsLastNamed(Fresh(Carried(chain, n)), chain[n].chunks);
    UsageIsItsOwn(Fresh(Carried(chain, n)), Reply([], "", "", []), chain[n].chunks);
  }

  lemma {:induction false} UsageIsItsOwn(r: Reply, s: Reply, chunks: seq<Chunk>)
    requires r.usage == s.usage
    ensures TakeAll(r, chunks).usage == TakeAll(s, chunks).usage
  {
    if chunks != [] { UsageIsItsOwn(r, s, chunks[..|chunks| - 1]); }
  }

  /** A chunk that says something, or ends the stream. */
  predicate Counts(c: Chunk) {
    c.text != "" || c.done
  }

  /** Nothing after `k` has a name of its own. */
  predicate LastModel(chunks: seq<Chunk>, k: nat)
    requires k < |chunks|
  {
    Counts(chunks[k]) && chunks[k].model != "" && forall i :: k < i < |chunks| && Counts(chunks[i]) ==> chunks[i].model == ""
  }

  predicate LastProvider(chunks: seq<Chunk>, k: nat)
    requires k < |chunks|
  {
    Counts(chunks[k]) && chunks[k].provider != ""
    && forall i :: k < i < |chunks| && Counts(chunks[i]) ==> chunks[i].provider == ""
  }

  predicate LastUsage(chunks: seq<Chunk>, k: nat)
    requires k < |chunks|
  {
    chunks[k].done && chunks[k].usage != [] && forall i :: k < i < |chunks| && chunks[i].done ==> chunks[i].usage == []
  }

  lemma {:induction false} ModelKept(r: Reply, chunks: seq<Chunk>)
    ensures (forall k :: 0 <= k < |chunks| ==> !LastModel(chunks, k)) ==> TakeAll(r, chunks).model == r.model
    ensures forall k :: 0 <= k < |chunks| && LastModel(chunks, k) ==> TakeAll(r, chunks).model == chunks[k].model
  {
    if chunks != [] {
      var n := |chunks| - 1;
      ModelKept(r, chunks[..n]);
      forall k | 0 <= k < n
        ensures LastModel(chunks, k) <==> LastModel(chunks[..n], k) && (Counts(chunks[n]) ==> chunks[n].model == "")
      {
        ModelOfMore(chunks, k);
      }
      assert LastModel(chunks, n) <==> Counts(chunks[n]) && chunks[n].model != "";
      assert forall k :: 0 <= k < n ==> chunks[..n][k] == chunks[k];
      hide LastModel;
    }
  }

  lemma ModelOfMore(chunks: seq<Chunk>, k: nat)
    requires k < |chunks| - 1
    ensures var n := |chunks| - 1;
            LastModel(chunks, k) <==> LastModel(chunks[..n], k) && (Counts(chunks[n]) ==> chunks[n].model == "")
  {
    hide Counts;
    var n := |chunks| - 1;
    assert forall i :: 0 <= i < n ==> chunks[..n][i] == chunks[i];
  }

  lemma {:induction false} ProviderKept(r: Reply, chunks: seq<Chunk>)
    ensures (forall k :: 0 <= k < |chunks| ==> !LastProvider(chunks, k)) ==> TakeAll(r, chunks).provider == r.provider
    ensures forall k :: 0 <= k < |chunks| && LastProvider(chunks, k) ==> TakeAll(r, chunks).provider == chunks[k].provider
  {
    if chunks != [] {
      var n := |chunks| - 1;
      ProviderKept(r, chunks[..n]);
      forall k | 0 <= k < n
        ensures LastProvider(chunks, k) <==> LastProvider(chunks[..n], k) && (Counts(chunks[n]) ==> chunks[n].provider == "")
      {
        ProviderOfMore(chunks, k);
      }
      assert LastProvider(chunks, n) <==> Counts(chunks[n]) && chunks[n].provider != "";
      assert forall k :: 0 <= k < n ==> chunks[..n][k] == chunks[k];
      hide LastProvider;
    }
  }

  lemma ProviderOfMore(chunks: seq<Chunk>, k: nat)
    requires k < |chunks| - 1
    ensures var n := |chunks| - 1;
            LastProvider(chunks, k) <==> LastProvider(chunks[..n], k) && (Counts(chunks[n]) ==> chunks[n].provider == "")
  {
    hide Counts;
    var n := |chunks| - 1;
    assert forall i :: 0 <= i < n ==> chunks[..n][i] == chunks[i];
  }

  lemma {:induction false} UsageKept(r: Reply, chunks: seq<Chunk>)
    ensures (forall k :: 0 <= k < |chunks| ==> !LastUsage(chunks, k)) ==> TakeAll(r, chunks).usage == r.usage
    ensures forall k :: 0 <= k < |chunks| && LastUsage(chunks, k) ==> TakeAll(r, chunks).usage == chunks[k].usage
  {
    if chunks != [] {
      var n := |chunks| - 1;
      UsageKept(r, chunks[..n]);
      forall k | 0 <= k < n
        ensures LastUsage(chunks, k) <==> LastUsage(chunks[..n], k) && (chunks[n].done ==> chunks[n].usage == [])
      {
        UsageOfMore(chunks, k);
      }
      assert LastUsage(chunks, n) <==> chunks[n].done && chunks[n].usage != [];
      assert forall k :: 0 <= k < n ==> chunks[..n][k] == chunks[k];
      hide LastUsage;
    }
  }

  lemma UsageOfMore(chunks: seq<Chunk>, k: nat)
    requires k < |chunks| - 1
    ensures var n := |chunks| - 1;
            LastUsage(chunks, k) <==> LastUsage(chunks[..n], k) && (chunks[n].done ==> chunks[n].usage == [])
  {
    hide Counts;
    var n := |chunks| - 1;
    assert forall i :: 0 <= i < n ==> chunks[..n][i] == chunks[i];
  }

  /** What is kept of one attempt: the model and the provider last named by a chunk that counts, and the last usage a final
    chunk reports; and what was kept before where there is none. */
  lemma KeptExactly(r: Reply, chunks: seq<Chunk>)
    ensures var kept := TakeAll(r, chunks);
            && ((forall k :: 0 <= k < |chunks| ==> !LastModel(chunks, k)) ==> kept.model == r.model)
            && ((forall k :: 0 <= k < |chunks| ==> !LastProvider(chunks, k)) ==> kept.provider == r.provider)
            && ((forall k :: 0 <= k < |chunks| ==> !LastUsage(chunks, k)) ==> kept.usage == r.usage)
            && forall k :: 0 <= k < |chunks| ==>
                 && (LastModel(chunks, k) ==> kept.model == chunks[k].model)
                 && (LastProvider(chunks, k) ==> kept.provider == chunks[k].provider)
                 && (LastUsage(chunks, k) ==> kept.usage == chunks[k].usage)
  {
    hide LastModel, LastProvider, LastUsage, TakeAll;
    ModelKept(r, chunks);
    ProviderKept(r, chunks);
    UsageKept(r, chunks);
  }
}
