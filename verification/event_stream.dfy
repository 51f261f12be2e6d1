/** The chat client's event-stream reader: a buffer, a split on blank lines, a dispatch.

  The reader sees the response in chunks whose boundaries the network chooses. It
  must hand its callbacks the same events whatever those boundaries are.
 */
module EventStream {
  import opened Options
  import opened Text

  const FRAME_END := "\n\n"
  const FIELD := "data:"

  /** `s.split("\n\n")`. */
  function Split(s: string): (parts: seq<string>)
    ensures |parts| > 0
    decreases |s|
  {
    var i := Find(s, FRAME_END, 0);
    if i == -1 then [s] else [s[..i]] + Split(s[i + 2..])
  }

  function Init<T>(s: seq<T>): seq<T>
    requires s != []
  {
    s[..|s| - 1]
  }

  function Last<T>(s: seq<T>): T
    requires s != []
  {
    s[|s| - 1]
  }

  /** The frames of a complete response: every terminated frame, then a non-blank tail. */
  function Frames(whole: string): seq<string> {
    var parts := Split(whole);
    Init(parts) + Tail(Last(parts))
  }

  /** What is left in the buffer is one more frame unless it is blank. */
  function Tail(buffer: string): seq<string> {
    if Trim(buffer, ScriptSpace) != "" then [buffer] else []
  }

  /** What dispatching one frame does. */
  datatype Reaction<+E> = Ignored | Handled(event: E) | Throws

  /** The JSON text a frame carries, or nothing when the frame is ignored. */
  function PayloadOf(frame: string): Option<string> {
    var line := Trim(frame, ScriptSpace);
    if !(FIELD <= line) then None
    else
      var payload := Trim(line[|FIELD|..], ScriptSpace);
      if payload == "" then None else Some(payload)
  }

  /** The dispatch callback, given how a payload parses. */
  function Dispatch<E>(parse: string -> Option<E>, frame: string): Reaction<E> {
    match PayloadOf(frame)
    case None => Ignored
    case Some(payload) =>
      match parse(payload)
      case None => Throws
      case Some(event) => Handled(event)
  }

  /** What the callbacks saw, and whether a frame threw and ended the read. */
  datatype Delivery<E> = Delivery(events: seq<E>, threw: bool)

  /** Frames dispatched in order, up to and including the first that throws. */
  function Deliver<E>(dispatch: string -> Reaction<E>, frames: seq<string>): (d: Delivery<E>) {
    if frames == [] then Delivery([], false)
    else After(Deliver(dispatch, Init(frames)), dispatch(Last(frames)))
  }

  function After<E>(d: Delivery<E>, r: Reaction<E>): Delivery<E> {
    if d.threw then d
    else match r
      case Ignored => d
      case Throws => Delivery(d.events, true)
      case Handled(event) => Delivery(d.events + [event], false)
  }

  // ------------------------------------------------- chunk boundaries do not matter

  /** Splitting more text only re-splits what followed the last separator. */
  lemma {:induction false} SplitExtend(a: string, b: string)
    ensures Split(a + b) == Init(Split(a)) + Split(Last(Split(a)) + b)
    decreases |a|
  {
    var i := Find(a, FRAME_END, 0);
    if i == -1 {
      assert Init(Split(a)) == [];
    } else {
      FindStable(a, a + b, FRAME_END, 0);
      var head, rest := a[..i], a[i + 2..];
      assert (a + b)[..i] == head;
      assert (a + b)[i + 2..] == rest + b;
      SplitExtend(rest, b);
      Prepended(head, Split(rest), Split(Last(Split(rest)) + b));
    }
  }

  lemma Prepended<T>(head: T, parts: seq<T>, more: seq<T>)
    requires parts != []
    ensures Last([head] + parts) == Last(parts)
    ensures Init([head] + parts) + more == [head] + (Init(parts) + more)
  {
  }

  /** Frames already cut off stay exactly as they are when more text arrives. */
  lemma SettledFrames(a: string, b: string)
    ensures Init(Split(a)) <= Init(Split(a + b))
  {
    SplitExtend(a, b);
  }

  /** Once a frame has thrown, later frames change nothing. */
  lemma {:induction false} DeliverStops<E>(dispatch: string -> Reaction<E>, xs: seq<string>, ys: seq<string>)
    requires Deliver(dispatch, xs).threw
    ensures Deliver(dispatch, xs + ys) == Deliver(dispatch, xs)
  {
    if ys == [] {
      assert xs + ys == xs;
    } else {
      DeliverStops(dispatch, xs, Init(ys));
      assert Init(xs + ys) == xs + Init(ys);
    }
  }

  /** The events of the frames that are handled, in order. */
  function HandledOf<E>(dispatch: string -> Reaction<E>, frames: seq<string>): seq<E> {
    if frames == [] then []
    else
      var rest, r := HandledOf(dispatch, frames[1..]), dispatch(frames[0]);
      if r.Handled? then [r.event] + rest else rest
  }

  lemma {:induction false} HandledAppend<E>(dispatch: string -> Reaction<E>, a: seq<string>, frame: string)
    ensures HandledOf(dispatch, a + [frame])
         == HandledOf(dispatch, a) + if dispatch(frame).Handled? then [dispatch(frame).event] else []
  {
    if a == [] {
      assert [] + [frame] == [frame];
    } else {
      assert (a + [frame])[1..] == a[1..] + [frame];
      HandledAppend(dispatch, a[1..], frame);
    }
  }

  /** What the callbacks see: the events of all handled frames, or, where some frame throws, of those before the first that
    does; and the read ends in an exception exactly then. */
  lemma {:induction false} DeliveredExactly<E>(dispatch: string -> Reaction<E>, frames: seq<string>, k: nat)
    requires k <= |frames| && (forall i :: 0 <= i < k ==> !dispatch(frames[i]).Throws?)
    requires k < |frames| ==> dispatch(frames[k]).Throws?
    ensures Deliver(dispatch, frames) == Delivery(HandledOf(dispatch, frames[..k]), k < |frames|)
  {
    if frames != [] {
      var init := Init(frames);
      if k == |frames| {
        DeliveredExactly(dispatch, init, k - 1);
        assert init[..k - 1] == init && frames[..k] == init + [Last(frames)];
        HandledAppend(dispatch, init, Last(frames));
      } else {
        DeliveredExactly(dispatch, init, k);
        assert init[..k] == frames[..k];
      }
    }
  }

  lemma DeliverOne<E>(dispatch: string -> Reaction<E>, xs: seq<string>, frame: string)
    ensures Deliver(dispatch, xs + [frame]) == After(Deliver(dispatch, xs), dispatch(frame))
  {
    assert Init(xs + [frame]) == xs;
  }

  lemma ConcatSplit(chunks: seq<string>, k: nat)
    requires k <= |chunks|
    ensures Concat(chunks) == Concat(chunks[..k]) + Concat(chunks[k..])
  {
    assert chunks == chunks[..k] + chunks[k..];
    ConcatAppend(chunks[..k], chunks[k..]);
  }

  /** A frame that throws ends the read with what the complete text would have delivered. */
  lemma ThrowIsFinal<E>(dispatch: string -> Reaction<E>, chunks: seq<string>, k: nat, done: seq<string>)
    requires k <= |chunks| && Deliver(dispatch, done).threw
    requires done <= Init(Split(Concat(chunks[..k])))
    ensures Deliver(dispatch, Frames(Concat(chunks))) == Deliver(dispatch, done)
  {
    ConcatSplit(chunks, k);
    SettledFrames(Concat(chunks[..k]), Concat(chunks[k..]));
    var frames := Frames(Concat(chunks));
    assert done <= frames;
    assert frames == done + frames[|done|..];
    DeliverStops(dispatch, done, frames[|done|..]);
  }

  /** One more chunk: what was cut off stays, and the buffer is split again. */
  lemma ChunkArrives(chunks: seq<string>, k: nat, done: seq<string>, buffer: string)
    requires k < |chunks| && Split(Concat(chunks[..k])) == done + [buffer]
    ensures var parts := Split(buffer + chunks[k]);
            && Split(Concat(chunks[..k + 1])) == (done + Init(parts)) + [Last(parts)]
            && Init(Split(Concat(chunks[..k + 1]))) == done + Init(parts)
  {
    assert chunks[..k + 1] == chunks[..k] + [chunks[k]];
    ConcatAppend(chunks[..k], [chunks[k]]);
    assert Concat([chunks[k]]) == chunks[k];
    SplitExtend(Concat(chunks[..k]), chunks[k]);
    assert Init(done + [buffer]) == done;
    var parts := Split(buffer + chunks[k]);
    assert done + parts == (done + Init(parts)) + [Last(parts)];
  }

  /** The end of the response: a non-blank buffer is dispatched like a frame. */
  lemma ResponseEnds<E>(dispatch: string -> Reaction<E>, whole: string, done: seq<string>, buffer: string)
    requires Split(whole) == done + [buffer]
    ensures Deliver(dispatch, Frames(whole))
         == if Tail(buffer) == [] then Deliver(dispatch, done) else After(Deliver(dispatch, done), dispatch(buffer))
  {
    assert Init(done + [buffer]) == done;
    assert Frames(whole) == done + Tail(buffer);
    if Tail(buffer) == [] {
      assert done + [] == done;
    } else {
      DeliverOne(dispatch, done, buffer);
    }
  }

  /** The inner loop: dispatch the frames just cut off, stopping where one throws. */
  method DispatchParts<E>(dispatch: string -> Reaction<E>, ghost done: seq<string>, parts: seq<string>, seen: seq<E>)
    returns (events: seq<E>, threw: bool, ghost sent: nat)
    requires Deliver(dispatch, done) == Delivery(seen, false)
    ensures sent <= |parts| && (!threw ==> parts[..sent] == parts)
    ensures Deliver(dispatch, done + parts[..sent]) == Delivery(events, threw)
  {
    events, threw, sent := seen, false, 0;
    assert done + parts[..0] == done;
    for j := 0 to |parts|
      invariant sent == j
      invariant Deliver(dispatch, done + parts[..j]) == Delivery(events, false)
    {
      assert done + parts[..j + 1] == (done + parts[..j]) + [parts[j]];
      DeliverOne(dispatch, done + parts[..j], parts[j]);
      sent := j + 1;
      match dispatch(parts[j])
      case Ignored =>
      case Handled(event) => events := events + [event];
      case Throws => return events, true, sent;
    }
  }

  /** The read loop. `chunks` are the decoded pieces in arrival order. */
  method ReadStream<E>(chunks: seq<string>, dispatch: string -> Reaction<E>)
    returns (events: seq<E>, threw: bool)
    ensures Delivery(events, threw) == Deliver(dispatch, Frames(Concat(chunks)))
  {
    events, threw := [], false;
    var buffer := "";
    ghost var done: seq<string> := [];
    assert Deliver(dispatch, done) == Delivery([], false);
    assert Split(Concat(chunks[..0])) == [""];
    hide Deliver, Concat, Split;
    ghost var sent: nat;
    for k := 0 to |chunks|
      invariant Split(Concat(chunks[..k])) == done + [buffer]
      invariant Deliver(dispatch, done) == Delivery(events, false)
      invariant !threw
    {
      ChunkArrives(chunks, k, done, buffer);
      buffer := buffer + chunks[k];
      var parts := Split(buffer);
      buffer := Last(parts);
      parts := Init(parts);
      events, threw, sent := DispatchParts(dispatch, done, parts, events);
      if threw {
        ThrowIsFinal(dispatch, chunks, k + 1, done + parts[..sent]);
        return;
      }
      done := done + parts;
    }
    assert chunks[..|chunks|] == chunks;
    ResponseEnds(dispatch, Concat(chunks), done, buffer);
    if Tail(buffer) != [] {
      match dispatch(buffer)
      case Ignored =>
      case Handled(event) => events := events + [event];
      case Throws => threw := true;
    }
  }

  // ------------------------------------------------- round trip with the server

  /** A serialised event: one line, no white space at either end. */
  predicate OneLine(p: string) {
    p != "" && '\n' !in p && !ScriptSpace(p[0]) && !ScriptSpace(p[|p| - 1])
  }

  function FrameFor(payload: string): string {
    FIELD + " " + payload
  }

  /** The server's side: one frame per event. */
  function Emit(payloads: seq<string>): string {
    if payloads == [] then "" else FrameFor(payloads[0]) + FRAME_END + Emit(payloads[1..])
  }

  function FramesFor(payloads: seq<string>): (frames: seq<string>) {
    if payloads == [] then [] else [FrameFor(payloads[0])] + FramesFor(payloads[1..])
  }

  /** The events the payloads stand for, when each of them parses. */
  ghost predicate Parses<E>(parse: string -> Option<E>, payloads: seq<string>, events: seq<E>) {
    |payloads| == |events| && forall i :: 0 <= i < |payloads| ==> parse(payloads[i]) == Some(events[i])
  }

  lemma EmittedFrameEnds(p: string, rest: string)
    requires OneLine(p)
    ensures Find(FrameFor(p) + FRAME_END + rest, FRAME_END, 0) == |FrameFor(p)|
  {
    var f := FrameFor(p);
    var s := f + FRAME_END + rest;
    assert '\n' !in f;
    forall i: nat | i < |f|
      ensures !At(s, FRAME_END, i)
    {
      assert s[i] == f[i];
      assert i + 2 <= |s| ==> s[i..i + 2][0] != FRAME_END[0];
    }
    FindIs(s, FRAME_END, 0, |f|);
  }

  lemma {:induction false} SplitEmitted(payloads: seq<string>)
    requires forall p <- payloads :: OneLine(p)
    ensures Split(Emit(payloads)) == FramesFor(payloads) + [""]
  {
    if payloads == [] {
      assert Find("", FRAME_END, 0) == -1;
    } else {
      var f, rest := FrameFor(payloads[0]), Emit(payloads[1..]);
      EmittedFrameEnds(payloads[0], rest);
      var s := f + FRAME_END + rest;
      assert s[|f| + 2..] == rest && s[..|f|] == f;
      SplitEmitted(payloads[1..]);
      assert [f] + (FramesFor(payloads[1..]) + [""]) == FramesFor(payloads) + [""];
    }
  }

  lemma EmittedPayload(p: string)
    requires OneLine(p)
    ensures PayloadOf(FrameFor(p)) == Some(p)
  {
    TrimNothing(FrameFor(p), ScriptSpace);
    assert FrameFor(p)[|FIELD|..] == [' '] + p;
    TrimLeading(' ', p, ScriptSpace);
  }

  lemma FirstMoves<T>(before: seq<T>, all: seq<T>, first: T, rest: seq<T>)
    requires all == [first] + rest
    ensures before + all == (before + [first]) + rest
  {
  }

  lemma {:induction false} DeliverFrom<E>(dispatch: string -> Reaction<E>, before: seq<string>,
                                          payloads: seq<string>, events: seq<E>)
    requires |events| == |payloads| && !Deliver(dispatch, before).threw
    requires forall i :: 0 <= i < |payloads| ==> dispatch(FrameFor(payloads[i])) == Handled(events[i])
    ensures Deliver(dispatch, before + FramesFor(payloads)) == Delivery(Deliver(dispatch, before).events + events, false)
    decreases |payloads|
  {
    hide FrameFor, Deliver;
    if payloads == [] {
      assert before + [] == before;
    } else {
      var f := FrameFor(payloads[0]);
      DeliverOne(dispatch, before, f);
      assert FramesFor(payloads) == [f] + FramesFor(payloads[1..]);
      hide FramesFor;
      DeliverFrom(dispatch, before + [f], payloads[1..], events[1..]);
      FirstMoves(before, FramesFor(payloads), f, FramesFor(payloads[1..]));
      FirstMoves(Deliver(dispatch, before).events, events, events[0], events[1..]);
    }
  }

  /** Every event the server emits reaches the client, once, in order, for any chunking. */
  lemma WireRoundTrip<E>(parse: string -> Option<E>, payloads: seq<string>, events: seq<E>, chunks: seq<string>)
    requires forall p <- payloads :: OneLine(p)
    requires Parses(parse, payloads, events)
    requires Concat(chunks) == Emit(payloads)
    ensures Deliver(frame => Dispatch(parse, frame), Frames(Concat(chunks))) == Delivery(events, false)
  {
    FramesOfEmitted(payloads);
    var dispatch := frame => Dispatch(parse, frame);
    forall i | 0 <= i < |payloads|
      ensures dispatch(FrameFor(payloads[i])) == Handled(events[i])
    {
      EmittedPayload(payloads[i]);
    }
    DeliverFrom(dispatch, [], payloads, events);
    assert [] + FramesFor(payloads) == FramesFor(payloads);
  }

  lemma FramesOfEmitted(payloads: seq<string>)
    requires forall p <- payloads :: OneLine(p)
    ensures Frames(Emit(payloads)) == FramesFor(payloads)
  {
    SplitEmitted(payloads);
    assert Init(FramesFor(payloads) + [""]) == FramesFor(payloads);
    assert FramesFor(payloads) + [] == FramesFor(payloads);
  }
}
