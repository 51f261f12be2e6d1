/** The artifact fence: one server parser, one client parser, one text.

  The server parses the finished reply and stamps each artifact with its family.
  The client parses the same text while it is still streaming in, and later pairs
  its i-th closed fence with the i-th stamp. The two parsers are separate loops in
  separate languages; only the server's leaves a newline after a fence unread.
 */
module Fences {
  import opened Options
  import opened Sequences
  import opened Text

  const FENCE_OPEN := "```artifact"
  const FENCE_CLOSE := "```"
  const NEWLINE := "\n"
  const CLOSE_LINE := "\n```"

  /** How far the next fence at or after some cursor has arrived. */
  datatype Fence =
    | NoFence
    | Marker(open: nat)
    | Heading(open: nat, head: nat)
    | Streaming(open: nat, head: nat, headEnd: nat)
    | Complete(open: nat, head: nat, headEnd: nat, close: nat)

  function Scan(text: string, cursor: nat): (f: Fence)
    ensures !f.NoFence? ==> cursor <= f.open <= |text|
    ensures f.Heading? || f.Streaming? || f.Complete? ==> f.open <= f.head < |text|
    ensures f.Streaming? || f.Complete? ==> f.head < f.headEnd < |text|
    ensures f.Complete? ==> f.headEnd <= f.close <= |text| - |CLOSE_LINE|
  {
    var open := Find(text, FENCE_OPEN, cursor);
    if open == -1 then NoFence else ScanHead(text, open)
  }

  /** The line after the marker's own line is the header. */
  function ScanHead(text: string, open: nat): (f: Fence)
    requires open <= |text|
    ensures !f.NoFence? && f.open == open
    ensures f.Heading? || f.Streaming? || f.Complete? ==> f.open <= f.head < |text|
    ensures f.Streaming? || f.Complete? ==> f.head < f.headEnd < |text|
    ensures f.Complete? ==> f.headEnd <= f.close <= |text| - |CLOSE_LINE|
  {
    var head := Find(text, NEWLINE, open);
    if head == -1 then Marker(open)
    else
      var headEnd := Find(text, NEWLINE, head + 1);
      if headEnd == -1 then Heading(open, head) else ScanBody(text, open, head, headEnd)
  }

  /** The payload runs to the first line that begins with the closing fence. */
  function ScanBody(text: string, open: nat, head: nat, headEnd: nat): (f: Fence)
    ensures (f.Streaming? || f.Complete?) && f.open == open && f.head == head && f.headEnd == headEnd
    ensures f.Complete? ==> f.headEnd <= f.close <= |text| - |CLOSE_LINE|
  {
    var close := Find(text, CLOSE_LINE, headEnd);
    if close == -1 then Streaming(open, head, headEnd) else Complete(open, head, headEnd, close)
  }

  /** The marker itself holds no newline. */
  lemma NewlineFollows(text: string, open: nat, head: nat)
    requires At(text, FENCE_OPEN, open) && open <= head && At(text, NEWLINE, head)
    ensures open + |FENCE_OPEN| <= head
  {
    assert text[head] == text[head..head + 1][0] == '\n';
    forall i | open <= i < open + |FENCE_OPEN|
      ensures text[i] != '\n'
    {
      AtMeans(text, FENCE_OPEN, open);
      assert text[i] == text[open..open + |FENCE_OPEN|][i - open];
    }
  }

  /** A fence as both parsers read it: the header line before trimming, and the payload. */
  datatype Fenced = Fenced(header: string, payload: string)

  /** The two slices a complete fence is read as. */
  function Read(text: string, head: nat, headEnd: nat, close: nat): Fenced
    requires head < headEnd < |text| && close <= |text|
  {
    Fenced(Slice(text, head + 1, headEnd), Slice(text, headEnd + 1, close))
  }

  function FencedAt(text: string, f: Fence): Fenced
    requires f.Complete? && f.head < f.headEnd < |text| && f.close <= |text|
  {
    Read(text, f.head, f.headEnd, f.close)
  }

  // ------------------------------------------------------------ the server's parser

  /** Every complete fence from `cursor` on. */
  function Artifacts(text: string, cursor: nat): seq<Fenced>
    decreases |text| - cursor
  {
    var f := Scan(text, cursor);
    if f.Complete? then [FencedAt(text, f)] + Artifacts(text, f.close + |CLOSE_LINE|) else []
  }

  lemma OneMoreArtifact(text: string, cursor: nat, f: Fence)
    requires f == Scan(text, cursor) && f.Complete?
    ensures Artifacts(text, cursor) == [FencedAt(text, f)] + Artifacts(text, f.close + 4)
  {
    hide Find, Scan, ScanHead, FencedAt;
  }

  /** What is parsed so far and what is left from `cursor` make up the whole parse. */
  ghost predicate ArtifactsFrom(parsed: seq<Fenced>, text: string, cursor: nat) {
    parsed + Artifacts(text, cursor) == Artifacts(text, 0)
  }

  lemma ArtifactsAdvance(parsed: seq<Fenced>, text: string, cursor: nat, f: Fence, fenced: Fenced)
    requires ArtifactsFrom(parsed, text, cursor)
    requires f == Scan(text, cursor) && f.Complete? && fenced == FencedAt(text, f)
    ensures ArtifactsFrom(parsed + [fenced], text, f.close + 4)
  {
    OneMoreArtifact(text, cursor, f);
    Regroup(parsed, [fenced], Artifacts(text, f.close + 4));
  }

  lemma ArtifactsStop(parsed: seq<Fenced>, text: string, cursor: nat)
    requires ArtifactsFrom(parsed, text, cursor) && !Scan(text, cursor).Complete?
    ensures parsed == Artifacts(text, 0)
  {
    assert parsed + [] == parsed;
  }

  /** The server strips the header line before it reads it. */
  function Stripped(fenced: Fenced): Fenced {
    Fenced(Trim(fenced.header, PythonSpace), fenced.payload)
  }

  function StripAll(fences: seq<Fenced>): (r: seq<Fenced>)
    ensures |r| == |fences| && forall i :: 0 <= i < |r| ==> r[i] == Stripped(fences[i])
  {
    seq(|fences|, i requires 0 <= i < |fences| => Stripped(fences[i]))
  }

  /** What the server makes of a finished reply. */
  function ServerArtifacts(text: string): seq<Fenced> {
    StripAll(Artifacts(text, 0))
  }

  /** Four searches, each from where the last one ended, are one scan. */
  lemma FourFinds(text: string, cursor: nat, open: nat, head: nat, headEnd: nat, close: nat)
    requires Find(text, FENCE_OPEN, cursor) == open && Find(text, NEWLINE, open) == head
    requires Find(text, NEWLINE, head + 1) == headEnd && Find(text, CLOSE_LINE, headEnd) == close
    ensures Scan(text, cursor) == Complete(open, head, headEnd, close)
  {
    hide Find;
    assert ScanBody(text, open, head, headEnd) == Complete(open, head, headEnd, close);
    assert ScanHead(text, open) == Complete(open, head, headEnd, close);
  }

  /** And a scan that one of them ends early is not complete. */
  lemma FindFails(text: string, cursor: nat)
    ensures var open := Find(text, FENCE_OPEN, cursor);
            Scan(text, cursor).Complete? <==>
              && open != -1
              && var head := Find(text, NEWLINE, open);
                 head != -1
                 && var headEnd := Find(text, NEWLINE, head + 1);
                    headEnd != -1 && Find(text, CLOSE_LINE, headEnd) != -1
  {
    hide Find;
  }

  method ParseArtifacts(text: string) returns (artifacts: seq<Fenced>)
    ensures artifacts == ServerArtifacts(text)
  {
    hide Find, Scan, ScanHead, FencedAt, Artifacts, Trim;
    artifacts := [];
    var cursor: nat := 0;
    ghost var parsed: seq<Fenced> := [];
    while true
      invariant ArtifactsFrom(parsed, text, cursor) && artifacts == StripAll(parsed)
      invariant cursor <= |text|
      decreases |text| - cursor
    {
      FindFails(text, cursor);
      var openAt := Find(text, FENCE_OPEN, cursor);
      if openAt == -1 { break; }
      var headerStart := Find(text, NEWLINE, openAt);
      if headerStart == -1 { break; }
      var headerEnd := Find(text, NEWLINE, headerStart + 1);
      if headerEnd == -1 { break; }
      var closeAt := Find(text, CLOSE_LINE, headerEnd);
      if closeAt == -1 { break; }
      FourFinds(text, cursor, openAt, headerStart, headerEnd, closeAt);
      var headerLine := Trim(Slice(text, headerStart + 1, headerEnd), PythonSpace);
      var payload := Slice(text, headerEnd + 1, closeAt);
      ghost var fenced := Read(text, headerStart, headerEnd, closeAt);
      assert fenced == FencedAt(text, Scan(text, cursor)) by { ReadIs(text, Scan(text, cursor)); }
      ArtifactsAdvance(parsed, text, cursor, Scan(text, cursor), fenced);
      artifacts := artifacts + [Fenced(headerLine, payload)];
      parsed := parsed + [fenced];
      cursor := closeAt + 1 + |FENCE_CLOSE|;
    }
    ArtifactsStop(parsed, text, cursor);
  }

  lemma ReadIs(text: string, f: Fence)
    requires f.Complete? && f.head < f.headEnd < |text| && f.close <= |text|
    ensures FencedAt(text, f) == Read(text, f.head, f.headEnd, f.close)
  {
  }

  // ------------------------------------------------------------ the client's parser

  datatype Segment =
    | Prose(text: string)
    | Closed(fenced: Fenced)
    | Open(started: Option<Fenced>)

  /** Past the closing fence, and past one newline directly after it. */
  function Swallow(raw: string, cursor: nat): (c: nat)
    ensures cursor <= c <= cursor + 1
  {
    if cursor < |raw| && raw[cursor] == '\n' then cursor + 1 else cursor
  }

  /** The prose before a fence, when there is any. */
  function Before(raw: string, cursor: nat, open: nat): seq<Segment>
    requires cursor <= open <= |raw|
  {
    if cursor < open then [Prose(raw[cursor..open])] else []
  }

  /** A fence still missing its closing marker, as far as it has arrived. */
  function OpenAt(raw: string, f: Fence): Segment
    requires f.Heading? ==> f.head < |raw|
    requires f.Streaming? ==> f.head < f.headEnd < |raw|
  {
    match f
    case Heading(_, head) => Open(Some(Fenced(raw[head + 1..], "")))
    case Streaming(_, head, headEnd) => Open(Some(Fenced(raw[head + 1..headEnd], raw[headEnd + 1..])))
    case _ => Open(None)
  }

  /** What the tail parses to when no complete fence is left in it. */
  function TailSegment(raw: string, cursor: nat): seq<Segment>
    requires cursor < |raw| && !Scan(raw, cursor).Complete?
  {
    var f := Scan(raw, cursor);
    if f.NoFence? then [Prose(raw[cursor..])] else Before(raw, cursor, f.open) + [OpenAt(raw, f)]
  }

  function Segments(raw: string, cursor: nat): seq<Segment>
    decreases |raw| - cursor
  {
    if cursor >= |raw| then []
    else
      var f := Scan(raw, cursor);
      if f.Complete? then
        Before(raw, cursor, f.open) + [Closed(FencedAt(raw, f))] + Segments(raw, Swallow(raw, f.close + |CLOSE_LINE|))
      else TailSegment(raw, cursor)
  }

  lemma OneMoreSegment(raw: string, cursor: nat, f: Fence)
    requires f == Scan(raw, cursor) && f.Complete?
    ensures Segments(raw, cursor)
         == Before(raw, cursor, f.open) + [Closed(FencedAt(raw, f))] + Segments(raw, Swallow(raw, f.close + 4))
  {
    hide Find, Scan, ScanHead, Before, FencedAt, OpenAt, TailSegment;
  }

  /** What is parsed so far and what is left from `cursor` make up the whole parse. */
  ghost predicate SegmentsFrom(parsed: seq<Segment>, raw: string, cursor: nat) {
    parsed + Segments(raw, cursor) == Segments(raw, 0)
  }

  lemma SegmentsAdvance(parsed: seq<Segment>, raw: string, cursor: nat, f: Fence, fenced: Fenced, next: nat)
    requires SegmentsFrom(parsed, raw, cursor)
    requires f == Scan(raw, cursor) && f.Complete? && fenced == FencedAt(raw, f) && next == Swallow(raw, f.close + 4)
    ensures SegmentsFrom(parsed + Before(raw, cursor, f.open) + [Closed(fenced)], raw, next)
  {
    OneMoreSegment(raw, cursor, f);
    var before := Before(raw, cursor, f.open);
    Regroup(parsed, before, [Closed(fenced)]);
    Regroup(parsed, before + [Closed(fenced)], Segments(raw, next));
  }

  lemma SegmentsStop(parsed: seq<Segment>, raw: string, cursor: nat)
    requires SegmentsFrom(parsed, raw, cursor)
    requires cursor < |raw| ==> !Scan(raw, cursor).Complete?
    ensures Segments(raw, 0) == if cursor < |raw| then parsed + TailSegment(raw, cursor) else parsed
  {
    if |raw| <= cursor { assert parsed + [] == parsed; }
  }

  /** The client trims the header line before it reads it. */
  function Trimmed(fenced: Fenced): Fenced {
    Fenced(Trim(fenced.header, ScriptSpace), fenced.payload)
  }

  function TrimHeader(segment: Segment): Segment {
    match segment
    case Prose(_) => segment
    case Closed(fenced) => Closed(Trimmed(fenced))
    case Open(None) => segment
    case Open(Some(fenced)) => Open(Some(Trimmed(fenced)))
  }

  function TrimHeaders(segments: seq<Segment>): (r: seq<Segment>)
    ensures |r| == |segments| && forall i :: 0 <= i < |r| ==> r[i] == TrimHeader(segments[i])
  {
    seq(|segments|, i requires 0 <= i < |segments| => TrimHeader(segments[i]))
  }

  /** What the client makes of the reply so far. */
  function ClientSegments(raw: string): seq<Segment> {
    TrimHeaders(Segments(raw, 0))
  }

  lemma TrimHeadersAppend(a: seq<Segment>, b: seq<Segment>)
    ensures TrimHeaders(a + b) == TrimHeaders(a) + TrimHeaders(b)
  {
  }

  /** What each early way out of the loop has seen of the tail. */
  lemma TailIs(raw: string, cursor: nat)
    requires cursor < |raw| && !Scan(raw, cursor).Complete?
    ensures var open := Find(raw, FENCE_OPEN, cursor);
            if open == -1 then TailSegment(raw, cursor) == [Prose(raw[cursor..])]
            else
              var before := Before(raw, cursor, open);
              var head := Find(raw, NEWLINE, open);
              if head == -1 then TailSegment(raw, cursor) == before + [Open(None)]
              else
                var headEnd := Find(raw, NEWLINE, head + 1);
                TailSegment(raw, cursor)
                == before + [Open(Some(if headEnd == -1 then Fenced(raw[head + 1..], "")
                                       else Fenced(raw[head + 1..headEnd], raw[headEnd + 1..])))]
  {
    hide Find, Before;
  }

  /** A way out of the loop: what was parsed, and the tail as the last pass saw it, are the whole. */
  lemma ClientStops(parsed: seq<Segment>, segments: seq<Segment>, raw: string, cursor: nat, before: seq<Segment>,
                    last: Segment, shown: Segment)
    requires SegmentsFrom(parsed, raw, cursor) && segments == TrimHeaders(parsed)
    requires cursor < |raw| && !Scan(raw, cursor).Complete? && TailSegment(raw, cursor) == before + [last]
    requires TrimHeaders(before) == before && shown == TrimHeader(last)
    ensures segments + before + [shown] == ClientSegments(raw)
  {
    hide Find, Scan, TailSegment, Segments, Trim, TrimHeader;
    SegmentsStop(parsed, raw, cursor);
    TrimHeadersAppend(parsed, before + [last]);
    TrimHeadersAppend(before, [last]);
    assert TrimHeaders([last]) == [shown];
    Regroup(segments, before, [shown]);
  }

  /** A pass over a complete fence. */
  lemma ClientAdvances(parsed: seq<Segment>, segments: seq<Segment>, raw: string, cursor: nat, f: Fence, next: nat,
                       closed: Segment)
    requires SegmentsFrom(parsed, raw, cursor) && segments == TrimHeaders(parsed)
    requires f == Scan(raw, cursor) && f.Complete? && next == Swallow(raw, f.close + 4)
    requires closed == Closed(Trimmed(Read(raw, f.head, f.headEnd, f.close)))
    ensures SegmentsFrom(parsed + Before(raw, cursor, f.open) + [Closed(FencedAt(raw, f))], raw, next)
    ensures segments + Before(raw, cursor, f.open) + [closed]
         == TrimHeaders(parsed + Before(raw, cursor, f.open) + [Closed(FencedAt(raw, f))])
  {
    hide Find, Scan, TailSegment, Segments, Trimmed, SegmentsFrom;
    var before, last := Before(raw, cursor, f.open), Closed(FencedAt(raw, f));
    SegmentsAdvance(parsed, raw, cursor, f, FencedAt(raw, f), next);
    TrimBefore(raw, cursor, f.open);
    TrimHeadersAppend(parsed, before);
    TrimHeadersAppend(parsed + before, [last]);
    assert TrimHeaders([last]) == [closed];
  }

  lemma ClientEnds(parsed: seq<Segment>, segments: seq<Segment>, raw: string, cursor: nat)
    requires SegmentsFrom(parsed, raw, cursor) && segments == TrimHeaders(parsed) && cursor >= |raw|
    ensures segments == ClientSegments(raw)
  {
    SegmentsStop(parsed, raw, cursor);
  }

  lemma NothingParsed(raw: string)
    ensures SegmentsFrom([], raw, 0) && TrimHeaders([]) == []
  {
    hide Segments;
    assert [] + Segments(raw, 0) == Segments(raw, 0);
  }

  method ParseSegments(raw: string) returns (segments: seq<Segment>)
    ensures segments == ClientSegments(raw)
  {
    hide Find, Scan, ScanHead, FencedAt, TailSegment, Segments, SegmentsFrom, TrimHeaders, ClientSegments, Trim, Before;
    segments := [];
    var cursor: nat := 0;
    ghost var parsed: seq<Segment> := [];
    NothingParsed(raw);
    while cursor < |raw|
      invariant SegmentsFrom(parsed, raw, cursor) && segments == TrimHeaders(parsed)
      decreases |raw| - cursor
    {
      ghost var settled, here := segments, cursor;
      FindFails(raw, cursor);
      if !Scan(raw, cursor).Complete? { TailIs(raw, cursor); }
      var open := Find(raw, FENCE_OPEN, cursor);
      if open == -1 {
        var rest := Prose(raw[cursor..]);
        ClientStops(parsed, settled, raw, cursor, [], rest, rest);
        assert settled + [] == settled;
        return segments + [rest];
      }
      var before := Before(raw, cursor, open);
      TrimBefore(raw, cursor, open);
      segments := segments + before;
      var bodyStart := Find(raw, NEWLINE, open);
      if bodyStart == -1 {
        ClientStops(parsed, settled, raw, cursor, before, Open(None), Open(None));
        return segments + [Open(None)];
      }
      var headerEnd := Find(raw, NEWLINE, bodyStart + 1);
      var close := if headerEnd == -1 then -1 else Find(raw, CLOSE_LINE, headerEnd);
      if headerEnd == -1 || close == -1 {
        var headerLine := if headerEnd == -1 then raw[bodyStart + 1..] else raw[bodyStart + 1..headerEnd];
        var payload := if headerEnd == -1 then "" else raw[headerEnd + 1..];
        var started := Open(Some(Fenced(Trim(headerLine, ScriptSpace), payload)));
        ClientStops(parsed, settled, raw, cursor, before, Open(Some(Fenced(headerLine, payload))), started);
        return segments + [started];
      }
      FourFinds(raw, cursor, open, bodyStart, headerEnd, close);
      var headerLine := Trim(Slice(raw, bodyStart + 1, headerEnd), ScriptSpace);
      var payload := Slice(raw, headerEnd + 1, close);
      var closed := Closed(Fenced(headerLine, payload));
      segments := segments + [closed];
      cursor := close + 1 + |FENCE_CLOSE|;
      // Swallow a single newline directly after the closing fence.
      if cursor < |raw| && raw[cursor] == '\n' { cursor := cursor + 1; }
      ClientAdvances(parsed, settled, raw, here, Scan(raw, here), cursor, closed);
      parsed := parsed + before + [Closed(FencedAt(raw, Scan(raw, here)))];
    }
    ClientEnds(parsed, segments, raw, cursor);
  }

  /** Prose has no header. */
  lemma TrimBefore(raw: string, cursor: nat, open: nat)
    requires cursor <= open <= |raw|
    ensures TrimHeaders(Before(raw, cursor, open)) == Before(raw, cursor, open)
  {
  }

  // ------------------------------------------------------------ the two parsers agree

  /** The closed fences among the segments, in order. */
  function ClosedOf(segments: seq<Segment>): (fences: seq<Fenced>)
    ensures |fences| <= |segments|
  {
    if segments == [] then []
    else if segments[0].Closed? then [segments[0].fenced] + ClosedOf(segments[1..])
    else ClosedOf(segments[1..])
  }

  lemma {:induction false} ClosedOfAppend(a: seq<Segment>, b: seq<Segment>)
    ensures ClosedOf(a + b) == ClosedOf(a) + ClosedOf(b)
  {
    if a == [] {
      assert a + b == b;
    } else {
      assert (a + b)[0] == a[0] && (a + b)[1..] == a[1..] + b;
      ClosedOfAppend(a[1..], b);
      if a[0].Closed? {
        Regroup([a[0].fenced], ClosedOf(a[1..]), ClosedOf(b));
      }
    }
  }

  lemma ClosedOfBlock(raw: string, cursor: nat, open: nat, last: Segment)
    requires cursor <= open <= |raw|
    ensures ClosedOf(Before(raw, cursor, open)) == []
    ensures ClosedOf([last]) == if last.Closed? then [last.fenced] else []
    ensures ClosedOf(Before(raw, cursor, open) + [last]) == ClosedOf([last])
  {
    ClosedOfAppend(Before(raw, cursor, open), [last]);
  }

  /** A newline at the cursor cannot begin a fence, so swallowing it changes nothing. */
  lemma ScanSkipsNewline(text: string, cursor: nat)
    ensures Scan(text, Swallow(text, cursor)) == Scan(text, cursor)
  {
    if Swallow(text, cursor) != cursor {
      FindSkip(text, FENCE_OPEN, cursor);
    }
  }

  lemma BlockFences(text: string, cursor: nat, f: Fence)
    requires f == Scan(text, cursor) && f.Complete?
    ensures ClosedOf(Segments(text, cursor)) == [FencedAt(text, f)] + ClosedOf(Segments(text, Swallow(text, f.close + 4)))
  {
    var block := Before(text, cursor, f.open) + [Closed(FencedAt(text, f))];
    OneMoreSegment(text, cursor, f);
    ClosedOfBlock(text, cursor, f.open, Closed(FencedAt(text, f)));
    ClosedOfAppend(block, Segments(text, Swallow(text, f.close + 4)));
  }

  /** From any cursor, whether or not it is past the newline after a fence. */
  lemma {:induction false} SameFences(text: string, cursor: nat)
    ensures Artifacts(text, cursor) == ClosedOf(Segments(text, Swallow(text, cursor)))
    decreases |text| - cursor
  {
    hide Before, FencedAt, OpenAt, Find, ScanHead;
    var c := Swallow(text, cursor);
    ScanSkipsNewline(text, cursor);
    var f := Scan(text, cursor);
    if f.Complete? {
      OneMoreArtifact(text, cursor, f);
      BlockFences(text, c, f);
      SameFences(text, f.close + 4);
    } else if c < |text| {
      TailHasNoClosed(text, c);
    }
  }

  lemma TailHasNoClosed(text: string, cursor: nat)
    requires cursor < |text| && !Scan(text, cursor).Complete?
    ensures ClosedOf(TailSegment(text, cursor)) == []
  {
    var f := Scan(text, cursor);
    if !f.NoFence? { ClosedOfBlock(text, cursor, f.open, OpenAt(text, f)); }
  }

  /** On every text the server and the client extract the same fences in the same order. */
  lemma ParsersAgree(text: string)
    ensures Artifacts(text, 0) == ClosedOf(Segments(text, 0))
  {
    SameFences(text, 0);
    if Swallow(text, 0) == 1 {
      LeadingNewline(text);
    }
  }

  /** A reply that begins with a newline: the client keeps it as prose, the fences are the same. */
  lemma LeadingNewline(text: string)
    requires text != "" && text[0] == '\n'
    ensures ClosedOf(Segments(text, 0)) == ClosedOf(Segments(text, 1))
  {
    ScanSkipsNewline(text, 0);
    var f := Scan(text, 0);
    if f.Complete? {
      BlockFences(text, 0, f);
      BlockFences(text, 1, f);
    } else {
      TailHasNoClosed(text, 0);
      if 1 < |text| { TailHasNoClosed(text, 1); }
    }
  }

  lemma {:induction false} ClosedOfTrimmed(segments: seq<Segment>)
    ensures |ClosedOf(TrimHeaders(segments))| == |ClosedOf(segments)|
    ensures forall i :: 0 <= i < |ClosedOf(segments)| ==>
              ClosedOf(TrimHeaders(segments))[i] == Trimmed(ClosedOf(segments)[i])
  {
    hide Trimmed;
    if segments != [] {
      assert TrimHeaders(segments)[1..] == TrimHeaders(segments[1..]);
      ClosedOfTrimmed(segments[1..]);
    }
  }

  /** The header lines the two languages read, and so the artifacts, are the same exactly when no header of the
    text ends in a character that only one of them trims. */
  lemma HeaderLinesAgreeExactly(text: string)
    ensures ServerArtifacts(text) == ClosedOf(ClientSegments(text))
      <==> forall i :: 0 <= i < |Artifacts(text, 0)| ==> TrimmedAlike(Artifacts(text, 0)[i].header)
  {
    hide Segments, Artifacts, Trim, TrimmedAlike;
    ParsersAgree(text);
    ClosedOfTrimmed(Segments(text, 0));
    var fences := Artifacts(text, 0);
    forall i | 0 <= i < |fences|
      ensures ServerArtifacts(text)[i] == ClosedOf(ClientSegments(text))[i] <==> TrimmedAlike(fences[i].header)
    {
      TrimsAgreeExactly(fences[i].header);
    }
    if ServerArtifacts(text) == ClosedOf(ClientSegments(text)) {
      forall i | 0 <= i < |fences|
        ensures TrimmedAlike(fences[i].header)
      {
        assert ServerArtifacts(text)[i] == ClosedOf(ClientSegments(text))[i];
      }
    }
  }

  // ------------------------------------------------------------ stable while streaming

  lemma BodyStable(p: string, t: string, open: nat, head: nat, headEnd: nat)
    requires p <= t && ScanBody(p, open, head, headEnd).Complete?
    ensures ScanBody(t, open, head, headEnd) == ScanBody(p, open, head, headEnd)
  {
    FindStable(p, t, CLOSE_LINE, headEnd);
  }

  lemma HeadStable(p: string, t: string, open: nat)
    requires p <= t && open <= |p| && ScanHead(p, open).Complete?
    ensures ScanHead(t, open) == ScanHead(p, open)
  {
    FindStable(p, t, NEWLINE, open);
    var head := Find(p, NEWLINE, open);
    FindStable(p, t, NEWLINE, head + 1);
    BodyStable(p, t, open, head, Find(p, NEWLINE, head + 1));
  }

  /** A fence complete in a prefix is the same fence in the whole; an opening marker stays put. */
  lemma ScanStable(p: string, t: string, cursor: nat)
    requires p <= t
    ensures var f, g := Scan(p, cursor), Scan(t, cursor);
            && (f.Complete? ==> g == f)
            && (!f.NoFence? ==> !g.NoFence? && g.open == f.open)
  {
    FindStable(p, t, FENCE_OPEN, cursor);
    if Scan(p, cursor).Complete? { HeadStable(p, t, Find(p, FENCE_OPEN, cursor)); }
  }

  /** The segments that no further text can change: all but a trailing prose or open one. */
  function Settled(segments: seq<Segment>): seq<Segment> {
    if segments == [] || segments[|segments| - 1].Closed? then segments else segments[..|segments| - 1]
  }

  lemma SettledAppend(a: seq<Segment>, fenced: Fenced, b: seq<Segment>)
    ensures Settled(a + [Closed(fenced)] + b) == a + [Closed(fenced)] + Settled(b)
  {
    var s := a + [Closed(fenced)] + b;
    if b == [] {
      assert s == a + [Closed(fenced)];
    } else {
      assert s[|s| - 1] == b[|b| - 1];
      assert s[..|s| - 1] == a + [Closed(fenced)] + b[..|b| - 1];
    }
  }

  lemma BlockStable(p: string, t: string, cursor: nat, f: Fence)
    requires p <= t && f == Scan(p, cursor) && f == Scan(t, cursor) && f.Complete?
    ensures Before(p, cursor, f.open) == Before(t, cursor, f.open)
    ensures FencedAt(p, f) == FencedAt(t, f)
  {
    assert forall i, j :: 0 <= i <= j <= |p| ==> p[i..j] == t[i..j];
  }

  /** An opening marker, once seen, fixes the prose before it. */
  lemma ProseSettles(p: string, t: string, cursor: nat)
    requires p <= t && cursor < |p| && !Scan(p, cursor).NoFence?
    ensures Before(p, cursor, Scan(p, cursor).open) <= Segments(t, cursor)
  {
    ScanStable(p, t, cursor);
    var open := Scan(p, cursor).open;
    assert p[cursor..open] == t[cursor..open];
    if Scan(t, cursor).Complete? { OneMoreSegment(t, cursor, Scan(t, cursor)); }
  }

  lemma SettledOpen(before: seq<Segment>, last: Segment)
    requires !last.Closed?
    ensures Settled(before + [last]) == before
  {
  }

  lemma TailSettles(p: string, t: string, cursor: nat)
    requires p <= t && cursor < |p| && !Scan(p, cursor).Complete?
    ensures Settled(TailSegment(p, cursor)) <= Segments(t, cursor)
  {
    var f := Scan(p, cursor);
    if f.NoFence? {
      SettledOpen([], Prose(p[cursor..]));
    } else {
      ProseSettles(p, t, cursor);
      SettledOpen(Before(p, cursor, f.open), OpenAt(p, f));
    }
  }

  lemma SettledNothing()
    ensures Settled([]) == []
  {
  }

  lemma {:induction false} StreamingStable(p: string, t: string, cursor: nat)
    requires p <= t
    ensures Settled(Segments(p, cursor)) <= Segments(t, cursor)
    decreases |p| - cursor
  {
    hide Find, Scan, ScanHead, OpenAt, FencedAt, Before, TailSegment, Settled;
    SettledNothing();
    if cursor < |p| {
      var f := Scan(p, cursor);
      if f.Complete? {
        ScanStable(p, t, cursor);
        BlockStable(p, t, cursor, f);
        OneMoreSegment(p, cursor, f);
        OneMoreSegment(t, cursor, f);
        var before, fenced, next := Before(p, cursor, f.open), FencedAt(p, f), f.close + 4;
        var rest, rest' := Segments(p, Swallow(p, next)), Segments(t, Swallow(t, next));
        if next < |p| {
          StreamingStable(p, t, Swallow(p, next));
        }
        assert Settled(rest) <= rest';
        SettledAppend(before, fenced, rest);
        PrefixUnder(before + [Closed(fenced)], Settled(rest), rest');
      } else {
        TailSettles(p, t, cursor);
      }
    }
  }

  lemma PrefixUnder<T>(a: seq<T>, b: seq<T>, c: seq<T>)
    requires b <= c
    ensures a + b <= a + c
  {
  }

  /** Only the last segment can be open, so at most one is. */
  lemma {:induction false} OpenOnlyLast(raw: string, cursor: nat)
    ensures var s := Segments(raw, cursor); forall i :: 0 <= i < |s| && s[i].Open? ==> i == |s| - 1
    decreases |raw| - cursor
  {
    if cursor < |raw| && Scan(raw, cursor).Complete? {
      var f := Scan(raw, cursor);
      OneMoreSegment(raw, cursor, f);
      OpenOnlyLast(raw, Swallow(raw, f.close + 4));
    }
  }

  lemma ClosedOfSettled(segments: seq<Segment>)
    ensures ClosedOf(Settled(segments)) == ClosedOf(segments)
  {
    if Settled(segments) != segments {
      var last := segments[|segments| - 1];
      assert segments == Settled(segments) + [last];
      ClosedOfAppend(Settled(segments), [last]);
      assert ClosedOf([last]) == [];
    }
  }

  lemma ClosedOfPrefix(a: seq<Segment>, b: seq<Segment>)
    requires a <= b
    ensures ClosedOf(a) <= ClosedOf(b)
  {
    assert b == a + b[|a|..];
    ClosedOfAppend(a, b[|a|..]);
  }

  /** What has closed stays closed: the fences of a prefix are a prefix of the fences. */
  lemma ClosedFencesGrow(p: string, t: string)
    requires p <= t
    ensures ClosedOf(Segments(p, 0)) <= ClosedOf(Segments(t, 0))
  {
    StreamingStable(p, t, 0);
    ClosedOfSettled(Segments(p, 0));
    ClosedOfPrefix(Settled(Segments(p, 0)), Segments(t, 0));
  }

  /** Trimming headers, one by one, commutes with taking what is settled and with taking the first few. */
  lemma TrimSettled(segments: seq<Segment>)
    ensures Settled(TrimHeaders(segments)) == TrimHeaders(Settled(segments))
  {
  }

  lemma TrimPrefix(a: seq<Segment>, b: seq<Segment>)
    requires a <= b
    ensures TrimHeaders(a) <= TrimHeaders(b)
  {
    hide TrimHeader;
  }

  /** The same for what the client shows: whatever it has settled on stays as it is, header lines and all; its closed
    fences only grow; and only its last segment is ever open. */
  lemma ClientStreamingStable(p: string, t: string)
    requires p <= t
    ensures Settled(ClientSegments(p)) <= ClientSegments(t)
    ensures ClosedOf(ClientSegments(p)) <= ClosedOf(ClientSegments(t))
    ensures forall i :: 0 <= i < |ClientSegments(p)| && ClientSegments(p)[i].Open? ==> i == |ClientSegments(p)| - 1
  {
    hide Segments, Settled, ClosedOf, TrimHeaders;
    StreamingStable(p, t, 0);
    TrimSettled(Segments(p, 0));
    TrimPrefix(Settled(Segments(p, 0)), Segments(t, 0));
    ClosedOfSettled(ClientSegments(p));
    ClosedOfPrefix(Settled(ClientSegments(p)), ClientSegments(t));
    OpenOnlyLast(p, 0);
  }

  // ------------------------------------------------------------ segments tile the text

  /** The stretch of text each segment was read from. */
  function Sources(raw: string, cursor: nat): seq<string>
    decreases |raw| - cursor
  {
    if cursor >= |raw| then []
    else
      var f := Scan(raw, cursor);
      if f.Complete? then
        var next := Swallow(raw, f.close + |CLOSE_LINE|);
        Gap(raw, cursor, f.open) + [raw[f.open..next]] + Sources(raw, next)
      else if f.NoFence? then [raw[cursor..]]
      else Gap(raw, cursor, f.open) + [raw[f.open..|raw|]]
  }

  function Gap(raw: string, cursor: nat, open: nat): seq<string>
    requires cursor <= open <= |raw|
  {
    if cursor < open then [raw[cursor..open]] else []
  }

  /** A closed fence as text. `tight` is the empty payload whose header line ends at the fence. */
  function Spelling(info: string, fenced: Fenced, tight: bool, swallowed: bool): string {
    FENCE_OPEN + info + NEWLINE + fenced.header
    + (if tight then "" else NEWLINE + fenced.payload) + CLOSE_LINE + if swallowed then NEWLINE else ""
  }

  /** What a segment says about its stretch of text. */
  ghost predicate Spells(segment: Segment, source: string) {
    match segment
    case Prose(text) => source == text && text != "" && Find(text, FENCE_OPEN, 0) == -1
    case Open(_) => FENCE_OPEN <= source
    case Closed(fenced) =>
      exists info: string, tight: bool, swallowed: bool ::
        source == Spelling(info, fenced, tight, swallowed) && '\n' !in info && '\n' !in fenced.header
        && (tight ==> fenced.payload == "")
  }

  lemma ConcatGap(raw: string, cursor: nat, open: nat, stop: nat, rest: seq<string>)
    requires cursor <= open <= stop <= |raw| && Concat(rest) == raw[stop..]
    ensures Concat(Gap(raw, cursor, open) + [raw[open..stop]] + rest) == raw[cursor..]
  {
    var gap := Gap(raw, cursor, open);
    ConcatAppend(gap + [raw[open..stop]], rest);
    ConcatAppend(gap, [raw[open..stop]]);
    assert Concat([raw[open..stop]]) == raw[open..stop];
    assert Concat(gap) == raw[cursor..open];
    SplitAt(raw, cursor, open);
    SplitAt(raw, open, stop);
    Regroup(raw[cursor..open], raw[open..stop], raw[stop..]);
  }

  lemma SplitAt(raw: string, from: nat, at: nat)
    requires from <= at <= |raw|
    ensures raw[from..at] + raw[at..] == raw[from..]
  {
  }

  /** Prose and fences cover the text from the cursor to its end, in order, without overlap. */
  lemma {:induction false} SegmentsTile(raw: string, cursor: nat)
    requires cursor <= |raw|
    ensures Concat(Sources(raw, cursor)) == raw[cursor..]
    decreases |raw| - cursor
  {
    hide Find, Scan, ScanHead, Gap;
    if cursor < |raw| {
      var f := Scan(raw, cursor);
      if f.Complete? {
        var next := Swallow(raw, f.close + 4);
        SegmentsTile(raw, next);
        ConcatGap(raw, cursor, f.open, next, Sources(raw, next));
      } else if !f.NoFence? {
        TailTiles(raw, cursor, f.open);
      }
    }
  }

  lemma TailTiles(raw: string, cursor: nat, open: nat)
    requires cursor <= open <= |raw|
    ensures Concat(Gap(raw, cursor, open) + [raw[open..|raw|]]) == raw[cursor..]
  {
    var sources := Gap(raw, cursor, open) + [raw[open..|raw|]];
    assert sources + [] == sources;
    ConcatGap(raw, cursor, open, |raw|, []);
  }

  lemma MarkerAt(raw: string, cursor: nat)
    ensures var f := Scan(raw, cursor);
            && (!f.NoFence? ==> At(raw, FENCE_OPEN, f.open))
            && (f.Complete? ==> At(raw, CLOSE_LINE, f.close) && At(raw, NEWLINE, f.head))
            && (f.Complete? ==> raw[f.head] == raw[f.headEnd] == '\n')
            && (f.Complete? ==> '\n' !in raw[f.open..f.head] && '\n' !in raw[f.head + 1..f.headEnd])
  {
    var f := Scan(raw, cursor);
    FindLeftmost(raw, FENCE_OPEN, cursor);
    if f.Complete? {
      FindLeftmost(raw, NEWLINE, f.open);
      FindLeftmost(raw, NEWLINE, f.head + 1);
      FindLeftmost(raw, CLOSE_LINE, f.headEnd);
      NoNewline(raw, f.open, f.head);
      NoNewline(raw, f.head + 1, f.headEnd);
    }
  }

  lemma NoNewline(raw: string, from: nat, to: nat)
    requires from <= to <= |raw|
    requires forall i: nat :: from <= i < to ==> !At(raw, NEWLINE, i)
    ensures '\n' !in raw[from..to]
  {
    forall i: nat | from <= i < to
      ensures raw[i] != '\n'
    {
      AtMeans(raw, NEWLINE, i);
      assert raw[i..i + 1] == [raw[i]];
    }
  }

  /** The marker line of a fence: the marker, and the rest of its line. */
  lemma MarkerLine(raw: string, open: nat, head: nat)
    requires At(raw, FENCE_OPEN, open) && open + |FENCE_OPEN| <= head <= |raw| && '\n' !in raw[open..head]
    ensures raw[open..head] == FENCE_OPEN + raw[open + |FENCE_OPEN|..head]
    ensures '\n' !in raw[open + |FENCE_OPEN|..head]
  {
    AtMeans(raw, FENCE_OPEN, open);
    var info := raw[open + |FENCE_OPEN|..head];
    assert raw[open..head] == FENCE_OPEN + info;
    assert forall i :: 0 <= i < |info| ==> info[i] == raw[open..head][i + |FENCE_OPEN|];
  }

  /** The closing line of a fence: the closing marker, and the newline after it if there is one. */
  lemma CloseLine(raw: string, close: nat)
    requires At(raw, CLOSE_LINE, close)
    ensures var next := Swallow(raw, close + 4);
            next <= |raw| && raw[close..next] == CLOSE_LINE + if next != close + 4 then NEWLINE else ""
  {
    AtMeans(raw, CLOSE_LINE, close);
    assert raw[close..close + 4] == CLOSE_LINE;
    if Swallow(raw, close + 4) != close + 4 {
      assert raw[close..close + 5] == raw[close..close + 4] + [raw[close + 4]];
    }
  }

  /** A closed fence's stretch of text is the fence written out: nothing is lost or invented. */
  lemma ClosedSpells(raw: string, cursor: nat)
    requires Scan(raw, cursor).Complete?
    ensures var f := Scan(raw, cursor);
            Spells(Closed(FencedAt(raw, f)), raw[f.open..Swallow(raw, f.close + 4)])
  {
    hide Find, Scan, ScanHead, Swallow, At, Spells;
    MarkerAt(raw, cursor);
    var f := Scan(raw, cursor);
    var fenced, next := FencedAt(raw, f), Swallow(raw, f.close + 4);
    NewlineFollows(raw, f.open, f.head);
    MarkerLine(raw, f.open, f.head);
    CloseLine(raw, f.close);
    HeaderAndPayload(raw, f);
    Joined(raw, f.open, f.head, f.headEnd, f.close, next);
    hide FencedAt;
    SpellsWritten(raw[f.open..next], raw[f.open + |FENCE_OPEN|..f.head], fenced, f.headEnd == f.close, next != f.close + 4);
  }

  lemma HeaderAndPayload(raw: string, f: Fence)
    requires f.Complete? && f.head < f.headEnd <= f.close <= |raw| - |CLOSE_LINE|
    requires raw[f.head] == '\n' && raw[f.headEnd] == '\n'
    ensures raw[f.head..f.headEnd] == NEWLINE + FencedAt(raw, f).header
    ensures raw[f.headEnd..f.close] == if f.headEnd == f.close then "" else NEWLINE + FencedAt(raw, f).payload
  {
  }

  lemma SpellsWritten(source: string, info: string, fenced: Fenced, tight: bool, swallowed: bool)
    requires source == (FENCE_OPEN + info) + (NEWLINE + fenced.header) + (if tight then "" else NEWLINE + fenced.payload)
                       + (CLOSE_LINE + if swallowed then NEWLINE else "")
    requires '\n' !in info && '\n' !in fenced.header && (tight ==> fenced.payload == "")
    ensures Spells(Closed(fenced), source)
  {
    hide Spelling;
    SpellingIs(info, fenced, tight, swallowed);
  }

  lemma Joined(raw: string, a: nat, b: nat, c: nat, d: nat, e: nat)
    requires a <= b <= c <= d <= e <= |raw|
    ensures raw[a..b] + raw[b..c] + raw[c..d] + raw[d..e] == raw[a..e]
  {
  }

  lemma SpellingIs(info: string, fenced: Fenced, tight: bool, swallowed: bool)
    ensures Spelling(info, fenced, tight, swallowed)
         == (FENCE_OPEN + info) + (NEWLINE + fenced.header) + (if tight then "" else NEWLINE + fenced.payload)
            + (CLOSE_LINE + if swallowed then NEWLINE else "")
  {
    Seven(FENCE_OPEN, info, NEWLINE, fenced.header, if tight then "" else NEWLINE + fenced.payload,
          CLOSE_LINE, if swallowed then NEWLINE else "");
  }

  lemma Seven(a: string, b: string, c: string, d: string, e: string, f: string, g: string)
    ensures a + b + c + d + e + f + g == (a + b) + (c + d) + e + (f + g)
  {
    Regroup(a + b, c, d);
    Regroup(a + b + c + d + e, f, g);
  }

  lemma ProseHasNoMarker(raw: string, cursor: nat, stop: nat)
    requires cursor <= stop <= |raw|
    requires Find(raw, FENCE_OPEN, cursor) == -1 || stop <= Find(raw, FENCE_OPEN, cursor)
    ensures Find(raw[cursor..stop], FENCE_OPEN, 0) == -1
  {
    var a, b := raw[..cursor], raw[cursor..stop];
    FindShift(a, b, FENCE_OPEN, 0);
    assert a + b == raw[..stop];
    FindStable(raw[..stop], raw, FENCE_OPEN, cursor);
  }

  /** Segments and their stretches of text, pairwise. */
  ghost predicate AllSpell(segments: seq<Segment>, sources: seq<string>) {
    |segments| == |sources| && forall i :: 0 <= i < |segments| ==> Spells(segments[i], sources[i])
  }

  lemma AllSpellAppend(a: seq<Segment>, x: seq<string>, b: seq<Segment>, y: seq<string>)
    requires AllSpell(a, x) && AllSpell(b, y)
    ensures AllSpell(a + b, x + y)
  {
  }

  lemma GapSpells(raw: string, cursor: nat)
    requires !Scan(raw, cursor).NoFence?
    ensures AllSpell(Before(raw, cursor, Scan(raw, cursor).open), Gap(raw, cursor, Scan(raw, cursor).open))
  {
    ProseHasNoMarker(raw, cursor, Scan(raw, cursor).open);
  }

  lemma TailSpells(raw: string, cursor: nat)
    requires cursor < |raw| && !Scan(raw, cursor).Complete?
    ensures AllSpell(TailSegment(raw, cursor), Sources(raw, cursor))
  {
    var f := Scan(raw, cursor);
    if f.NoFence? {
      ProseHasNoMarker(raw, cursor, |raw|);
      assert raw[cursor..|raw|] == raw[cursor..];
    } else {
      MarkerAt(raw, cursor);
      GapSpells(raw, cursor);
      AtMeans(raw, FENCE_OPEN, f.open);
      var source := raw[f.open..|raw|];
      assert source == FENCE_OPEN + raw[f.open + |FENCE_OPEN|..];
      AllSpellAppend(Before(raw, cursor, f.open), Gap(raw, cursor, f.open), [OpenAt(raw, f)], [source]);
    }
  }

  lemma BlockSpells(raw: string, cursor: nat, f: Fence)
    requires f == Scan(raw, cursor) && f.Complete?
    ensures AllSpell(Before(raw, cursor, f.open) + [Closed(FencedAt(raw, f))],
                     Gap(raw, cursor, f.open) + [raw[f.open..Swallow(raw, f.close + 4)]])
  {
    ClosedSpells(raw, cursor);
    GapSpells(raw, cursor);
    AllSpellAppend(Before(raw, cursor, f.open), Gap(raw, cursor, f.open),
                   [Closed(FencedAt(raw, f))], [raw[f.open..Swallow(raw, f.close + 4)]]);
  }

  lemma OneMoreSource(raw: string, cursor: nat, f: Fence)
    requires f == Scan(raw, cursor) && f.Complete?
    ensures var next := Swallow(raw, f.close + 4);
            Sources(raw, cursor) == Gap(raw, cursor, f.open) + [raw[f.open..next]] + Sources(raw, next)
  {
    hide Find, Scan, ScanHead, Gap;
  }

  /** Every segment is what its stretch of text spells. */
  lemma {:induction false} EverySegmentSpells(raw: string, cursor: nat)
    ensures AllSpell(Segments(raw, cursor), Sources(raw, cursor))
    decreases |raw| - cursor
  {
    hide Find, Scan, ScanHead, Before, Gap, FencedAt, OpenAt, TailSegment, Spells, Spelling;
    if cursor < |raw| {
      var f := Scan(raw, cursor);
      if f.Complete? {
        var next := Swallow(raw, f.close + 4);
        BlockSpells(raw, cursor, f);
        EverySegmentSpells(raw, next);
        OneMoreSegment(raw, cursor, f);
        OneMoreSource(raw, cursor, f);
        hide AllSpell, Segments, Sources;
        AllSpellAppend(Before(raw, cursor, f.open) + [Closed(FencedAt(raw, f))],
                       Gap(raw, cursor, f.open) + [raw[f.open..next]], Segments(raw, next), Sources(raw, next));
      } else {
        TailSpells(raw, cursor);
      }
    }
  }

  // ------------------------------------------------------------ round trip

  /** One fence as an agent writes it, with the prose before it. */
  datatype Block = Block(prose: string, info: string, fenced: Fenced)

  /** The writer's side of the contract: no part may contain the delimiter that ends it. */
  predicate Writable(b: Block) {
    && Find(b.prose + FENCE_OPEN, FENCE_OPEN, 0) == |b.prose|
    && '\n' !in b.info && '\n' !in b.fenced.header
    && Find(NEWLINE + b.fenced.payload + CLOSE_LINE, CLOSE_LINE, 0) == 1 + |b.fenced.payload|
  }

  function Write(b: Block): string {
    b.prose + Spelling(b.info, b.fenced, false, true)
  }

  function WriteAll(blocks: seq<Block>, tail: string): string {
    if blocks == [] then tail else Write(blocks[0]) + WriteAll(blocks[1..], tail)
  }

  function SegmentsOf(b: Block): seq<Segment> {
    (if b.prose != "" then [Prose(b.prose)] else []) + [Closed(b.fenced)]
  }

  function SegmentsOfAll(blocks: seq<Block>): seq<Segment> {
    if blocks == [] then [] else SegmentsOf(blocks[0]) + SegmentsOfAll(blocks[1..])
  }

  /** A pattern known to end a stretch is found there whatever follows it. */
  lemma {:induction false} FoundAt(text: string, from: nat, b: string, pat: string, end: nat)
    requires pat != [] && Find(b + pat, pat, 0) == |b|
    requires from + |b| + |pat| == end <= |text| && text[from..end] == b + pat
    ensures Find(text, pat, from) == from + |b|
  {
    hide Find;
    var a, head := text[..from], text[..end];
    assert head == a + (b + pat);
    FindShift(a, b + pat, pat, 0);
    FindStable(head, text, pat, from);
  }

  lemma LineEnds(b: string)
    requires '\n' !in b
    ensures Find(b + NEWLINE, NEWLINE, 0) == |b|
  {
    FindChar(b + NEWLINE, '\n', 0, |b|);
  }

  lemma Pieces(p: string, line: string, header: string, payload: string, rest: string)
    ensures var text := p + line + NEWLINE + header + NEWLINE + payload + CLOSE_LINE + NEWLINE + rest;
            var head := |p| + |line|;
            var headEnd := head + 1 + |header|;
            var close := headEnd + 1 + |payload|;
            && |text| == close + 5 + |rest|
            && text[..head] == p + line
            && text[|p|..head + 1] == line + NEWLINE
            && text[head + 1..headEnd + 1] == header + NEWLINE
            && text[headEnd..close + 4] == NEWLINE + payload + CLOSE_LINE
            && text[close + 4] == '\n' && text[close + 5..] == rest
  {
  }

  lemma WrittenText(b: Block, rest: string)
    ensures Write(b) + rest == b.prose + (FENCE_OPEN + b.info) + NEWLINE + b.fenced.header + NEWLINE + b.fenced.payload
                               + CLOSE_LINE + NEWLINE + rest
    ensures |Write(b)| == |b.prose| + |FENCE_OPEN| + |b.info| + 2 + |b.fenced.header| + |b.fenced.payload| + 5
  {
    SpellingIs(b.info, b.fenced, false, true);
  }

  lemma ScanIs(text: string, open: nat, head: nat, headEnd: nat, close: nat)
    requires Find(text, FENCE_OPEN, 0) == open && Find(text, NEWLINE, open) == head
    requires Find(text, NEWLINE, head + 1) == headEnd && Find(text, CLOSE_LINE, headEnd) == close
    ensures Scan(text, 0) == Complete(open, head, headEnd, close)
  {
    assert ScanBody(text, open, head, headEnd) == Complete(open, head, headEnd, close);
    assert ScanHead(text, open) == Complete(open, head, headEnd, close);
  }

  lemma FoundLine(text: string, from: nat, end: nat, line: string)
    requires '\n' !in line && from + |line| == end < |text| && text[from..end + 1] == line + NEWLINE
    ensures Find(text, NEWLINE, from) == end
  {
    LineEnds(line);
    FoundAt(text, from, line, NEWLINE, end + 1);
  }

  lemma FoundClose(text: string, from: nat, end: nat, payload: string)
    requires Find(NEWLINE + payload + CLOSE_LINE, CLOSE_LINE, 0) == 1 + |payload|
    requires from + 1 + |payload| == end && end + 4 <= |text| && text[from..end + 4] == NEWLINE + payload + CLOSE_LINE
    ensures Find(text, CLOSE_LINE, from) == end
  {
    FoundAt(text, from, NEWLINE + payload, CLOSE_LINE, end + 4);
  }

  lemma FoundOpen(text: string, p: string, line: string)
    requires FENCE_OPEN <= line && p + line <= text && Find(p + FENCE_OPEN, FENCE_OPEN, 0) == |p|
    ensures Find(text, FENCE_OPEN, 0) == |p|
  {
    assert text[0..|p| + |FENCE_OPEN|] == (p + line)[..|p| + |FENCE_OPEN|] == p + FENCE_OPEN;
    FoundAt(text, 0, p, FENCE_OPEN, |p| + |FENCE_OPEN|);
  }

  /** Where the pieces of a written fence are found. */
  lemma ScanPieces(text: string, b: Block, line: string, head: nat, headEnd: nat, close: nat)
    requires Writable(b) && line == FENCE_OPEN + b.info && head == |b.prose| + |line|
    requires headEnd == head + 1 + |b.fenced.header| && close == headEnd + 1 + |b.fenced.payload| && close + 4 <= |text|
    requires b.prose + line <= text && text[|b.prose|..head + 1] == line + NEWLINE
    requires text[head + 1..headEnd + 1] == b.fenced.header + NEWLINE
    requires text[headEnd..close + 4] == NEWLINE + b.fenced.payload + CLOSE_LINE
    ensures Scan(text, 0) == Complete(|b.prose|, head, headEnd, close)
  {
    hide Find, Scan;
    FoundOpen(text, b.prose, line);
    FoundLine(text, |b.prose|, head, line);
    FoundLine(text, head + 1, headEnd, b.fenced.header);
    FoundClose(text, headEnd, close, b.fenced.payload);
    ScanIs(text, |b.prose|, head, headEnd, close);
  }

  lemma ScanWritten(b: Block, rest: string)
    requires Writable(b)
    ensures var head := |b.prose| + |FENCE_OPEN| + |b.info|;
            var headEnd := head + 1 + |b.fenced.header|;
            Scan(Write(b) + rest, 0) == Complete(|b.prose|, head, headEnd, headEnd + 1 + |b.fenced.payload|)
  {
    hide Find, Scan;
    var line := FENCE_OPEN + b.info;
    var head := |b.prose| + |line|;
    var headEnd := head + 1 + |b.fenced.header|;
    WrittenText(b, rest);
    Pieces(b.prose, line, b.fenced.header, b.fenced.payload, rest);
    ScanPieces(Write(b) + rest, b, line, head, headEnd, headEnd + 1 + |b.fenced.payload|);
  }

  lemma ReadPieces(text: string, p: string, line: string, header: string, payload: string)
    requires |p| + |line| + 1 + |header| + 1 + |payload| + 5 <= |text|
    requires var head := |p| + |line|;
             var headEnd := head + 1 + |header|;
             && text[..head] == p + line
             && text[head + 1..headEnd + 1] == header + NEWLINE
             && text[headEnd..headEnd + |payload| + 5] == NEWLINE + payload + CLOSE_LINE
    ensures var head := |p| + |line|;
            var headEnd := head + 1 + |header|;
            && text[0..|p|] == p
            && Read(text, head, headEnd, headEnd + 1 + |payload|) == Fenced(header, payload)
  {
    var head := |p| + |line|;
    var headEnd := head + 1 + |header|;
    SliceOfSlice(text, 0, head, 0, |p|);
    SliceOfSlice(text, head + 1, headEnd + 1, 0, |header|);
    SliceOfSlice(text, headEnd, headEnd + |payload| + 5, 1, 1 + |payload|);
    Middle("", p, line);
    Middle("", header, NEWLINE);
    Middle(NEWLINE, payload, CLOSE_LINE);
  }

  lemma SliceOfSlice(text: string, from: nat, to: nat, i: nat, j: nat)
    requires from <= to <= |text| && i <= j <= to - from
    ensures text[from..to][i..j] == text[from + i..from + j]
  {
    forall k | 0 <= k < j - i
      ensures text[from..to][i..j][k] == text[from + i..from + j][k]
    {
    }
  }

  lemma Middle(a: string, b: string, c: string)
    ensures (a + b + c)[|a|..|a| + |b|] == b
  {
  }

  /** The first written block is parsed back as itself. */
  lemma ReadWritten(b: Block, rest: string)
    requires Writable(b)
    ensures var text := Write(b) + rest;
            var f := Scan(text, 0);
            && f.Complete? && f.open == |b.prose| && Swallow(text, f.close + 4) == |Write(b)|
            && Before(text, 0, f.open) + [Closed(FencedAt(text, f))] == SegmentsOf(b)
  {
    hide Find, Scan, ScanHead, Spelling, Write, Slice, OpenAt, Writable;
    ScanWritten(b, rest);
    WrittenText(b, rest);
    Pieces(b.prose, FENCE_OPEN + b.info, b.fenced.header, b.fenced.payload, rest);
    ReadPieces(Write(b) + rest, b.prose, FENCE_OPEN + b.info, b.fenced.header, b.fenced.payload);
  }

  lemma SliceShift(a: string, b: string, i: nat, j: nat)
    requires i <= j <= |b|
    ensures (a + b)[|a| + i..|a| + j] == b[i..j]
    ensures (a + b)[|a| + i..] == b[i..]
  {
  }

  lemma BeforeShift(a: string, b: string, cursor: nat, open: nat)
    requires cursor <= open <= |b|
    ensures Before(a + b, |a| + cursor, |a| + open) == Before(b, cursor, open)
  {
    SliceShift(a, b, cursor, open);
  }

  lemma OpenShift(a: string, b: string, f: Fence)
    requires f.Heading? ==> f.head < |b|
    requires f.Streaming? ==> f.head < f.headEnd < |b|
    ensures OpenAt(a + b, Shift(f, |a|)) == OpenAt(b, f)
  {
    match f
    case Heading(_, head) => SliceShift(a, b, head + 1, |b|);
    case Streaming(_, head, headEnd) =>
      SliceShift(a, b, head + 1, headEnd);
      SliceShift(a, b, headEnd + 1, |b|);
    case _ =>
  }

  lemma TailShift(a: string, b: string, cursor: nat)
    requires cursor < |b| && !Scan(b, cursor).Complete?
    requires Scan(a + b, |a| + cursor) == Shift(Scan(b, cursor), |a|)
    ensures TailSegment(a + b, |a| + cursor) == TailSegment(b, cursor)
  {
    hide Find, Scan, ScanHead, Before, OpenAt;
    var f := Scan(b, cursor);
    if f.NoFence? {
      SliceShift(a, b, cursor, |b|);
    } else {
      BeforeShift(a, b, cursor, f.open);
      OpenShift(a, b, f);
    }
  }

  lemma FenceShift(a: string, b: string, f: Fence)
    requires f.Complete? && f.head < f.headEnd < |b| && f.close <= |b|
    ensures FencedAt(a + b, Shift(f, |a|)) == FencedAt(b, f)
  {
    SliceShift(a, b, f.head + 1, f.headEnd);
    if f.headEnd + 1 <= f.close { SliceShift(a, b, f.headEnd + 1, f.close); }
  }

  lemma SwallowShift(a: string, b: string, cursor: nat)
    ensures Swallow(a + b, |a| + cursor) == |a| + Swallow(b, cursor)
  {
  }

  lemma BlockShift(a: string, b: string, cursor: nat, f: Fence)
    requires f == Scan(b, cursor) && f.Complete?
    requires Shift(f, |a|) == Scan(a + b, |a| + cursor)
    requires var next := Swallow(b, f.close + 4); Segments(a + b, |a| + next) == Segments(b, next)
    ensures Segments(a + b, |a| + cursor) == Segments(b, cursor)
  {
    hide Find, Scan, ScanHead, TailSegment, OpenAt, FencedAt, Before, Swallow, Segments;
    OneMoreSegment(b, cursor, f);
    OneMoreSegment(a + b, |a| + cursor, Shift(f, |a|));
    BeforeShift(a, b, cursor, f.open);
    FenceShift(a, b, f);
    SwallowShift(a, b, f.close + 4);
  }

  /** Parsing a suffix is parsing the whole from where the suffix starts. */
  lemma {:induction false} SegmentsShift(a: string, b: string, cursor: nat)
    ensures Segments(a + b, |a| + cursor) == Segments(b, cursor)
    decreases |b| - cursor
  {
    hide Find, Scan, ScanHead, OpenAt, FencedAt, Before, TailSegment;
    if cursor < |b| {
      ScanShift(a, b, cursor);
      var f := Scan(b, cursor);
      if f.Complete? {
        SegmentsShift(a, b, Swallow(b, f.close + 4));
        BlockShift(a, b, cursor, f);
      } else {
        TailShift(a, b, cursor);
      }
    }
  }

  function Shift(f: Fence, n: nat): Fence {
    match f
    case NoFence => NoFence
    case Marker(open) => Marker(open + n)
    case Heading(open, head) => Heading(open + n, head + n)
    case Streaming(open, head, headEnd) => Streaming(open + n, head + n, headEnd + n)
    case Complete(open, head, headEnd, close) => Complete(open + n, head + n, headEnd + n, close + n)
  }

  lemma HeadShift(a: string, b: string, open: nat)
    requires open <= |b|
    ensures ScanHead(a + b, |a| + open) == Shift(ScanHead(b, open), |a|)
  {
    hide Find, At;
    FindShift(a, b, NEWLINE, open);
    var head := Find(b, NEWLINE, open);
    if head != -1 {
      FindShift(a, b, NEWLINE, head + 1);
      var headEnd := Find(b, NEWLINE, head + 1);
      if headEnd != -1 { FindShift(a, b, CLOSE_LINE, headEnd); }
    }
  }

  lemma ScanShift(a: string, b: string, cursor: nat)
    ensures Scan(a + b, |a| + cursor) == Shift(Scan(b, cursor), |a|)
  {
    FindShift(a, b, FENCE_OPEN, cursor);
    var open := Find(b, FENCE_OPEN, cursor);
    if open != -1 { HeadShift(a, b, open); }
  }

  /** What was written is what is parsed: every block, in order, and then the tail. */
  lemma {:induction false} WriteThenParse(blocks: seq<Block>, tail: string)
    requires forall b <- blocks :: Writable(b)
    ensures Segments(WriteAll(blocks, tail), 0) == SegmentsOfAll(blocks) + Segments(tail, 0)
  {
    if blocks != [] {
      var b, rest := blocks[0], WriteAll(blocks[1..], tail);
      WrittenFirst(b, rest);
      WriteThenParse(blocks[1..], tail);
      Regroup(SegmentsOf(b), SegmentsOfAll(blocks[1..]), Segments(tail, 0));
    }
  }

  lemma WrittenFirst(b: Block, rest: string)
    requires Writable(b)
    ensures Segments(Write(b) + rest, 0) == SegmentsOf(b) + Segments(rest, 0)
  {
    hide Find, Scan, ScanHead, OpenAt, FencedAt, Before, TailSegment, Spelling, Writable, Write;
    ReadWritten(b, rest);
    OneMoreSegment(Write(b) + rest, 0, Scan(Write(b) + rest, 0));
    SegmentsShift(Write(b), rest, 0);
  }

  // ------------------------------------------------------------ stamps and segments

  /** What the interface shows. `A` is a stamped artifact. */
  datatype Shown<A> = Text(text: string) | Placeholder | Artifact(artifact: A)

  /** What one segment adds; blank prose between fences adds nothing. `local` builds an artifact without a stamp. */
  function ShowOne<A>(segment: Segment, stamps: seq<A>, local: Fenced -> A): seq<Shown<A>> {
    match segment
    case Prose(text) => if Trim(text, ScriptSpace) == "" then [] else [Text(text)]
    case Open(_) => [Placeholder]
    case Closed(fenced) => [Artifact(if stamps == [] then local(fenced) else stamps[0])]
  }

  function Left<A>(segment: Segment, stamps: seq<A>): seq<A> {
    if segment.Closed? && stamps != [] then stamps[1..] else stamps
  }

  /** The segments as shown, taking stamps in turn. */
  function Show<A>(segments: seq<Segment>, stamps: seq<A>, local: Fenced -> A): seq<Shown<A>> {
    if segments == [] then []
    else ShowOne(segments[0], stamps, local) + Show(segments[1..], Left(segments[0], stamps), local)
  }

  /** A reply without fences is shown as it is, blank or not. */
  function Rendered<A>(segments: seq<Segment>, stamps: seq<A>, local: Fenced -> A): seq<Shown<A>> {
    if |segments| == 1 && segments[0].Prose? then [Text(segments[0].text)] else Show(segments, stamps, local)
  }

  /** Map each fence to its stamp, as the server does when the reply is finished. */
  function Stamps<A>(fences: seq<Fenced>, stamp: Fenced -> A): (r: seq<A>)
    ensures |r| == |fences| && forall i :: 0 <= i < |r| ==> r[i] == stamp(fences[i])
  {
    if fences == [] then [] else [stamp(fences[0])] + Stamps(fences[1..], stamp)
  }

  /** Every closed segment is shown with the stamp of its own fence, and no stamp is left over. */
  lemma {:induction false} StampsMatch<A>(segments: seq<Segment>, stamp: Fenced -> A, local: Fenced -> A)
    ensures Show(segments, Stamps(ClosedOf(segments), stamp), local) == Show(segments, [], stamp)
  {
    hide Trim;
    if segments != [] {
      StampsMatch(segments[1..], stamp, local);
      if segments[0].Closed? {
        var fences := ClosedOf(segments);
        assert fences[1..] == ClosedOf(segments[1..]);
        assert Stamps(fences, stamp)[1..] == Stamps(fences[1..], stamp);
      } else {
        assert ClosedOf(segments) == ClosedOf(segments[1..]);
      }
    }
  }

  lemma ClosedCount(a: seq<Segment>)
    requires a != []
    ensures |ClosedOf(a)| == |ClosedOf(a[1..])| + if a[0].Closed? then 1 else 0
  {
  }

  /** With a stamp for every closed segment, what the client read of the headers is not shown. */
  lemma {:induction false} StampsHideHeaders<A>(segments: seq<Segment>, stamps: seq<A>, mine: Fenced -> A, yours: Fenced -> A)
    requires |stamps| >= |ClosedOf(segments)|
    ensures Show(TrimHeaders(segments), stamps, mine) == Show(segments, stamps, yours)
  {
    hide Trim, Trimmed;
    if segments != [] {
      ClosedCount(segments);
      assert TrimHeaders(segments)[1..] == TrimHeaders(segments[1..]);
      hide ClosedOf;
      StampsHideHeaders(segments[1..], Left(segments[0], stamps), mine, yours);
    }
  }

  /** A finished reply: every fence the client drew is shown with what the server stamped on that fence, although
    the two may read its header line differently. */
  lemma FinishedReplyShown<A>(text: string, stamp: Fenced -> A, local: Fenced -> A)
    ensures Rendered(ClientSegments(text), Stamps(ServerArtifacts(text), stamp), local)
         == Rendered(Segments(text, 0), [], fenced => stamp(Stripped(fenced)))
  {
    hide Segments, Artifacts, Stripped, Show;
    var segments := Segments(text, 0);
    var whole := fenced => stamp(Stripped(fenced));
    ParsersAgree(text);
    assert Stamps(ServerArtifacts(text), stamp) == Stamps(ClosedOf(segments), whole);
    StampsHideHeaders(segments, Stamps(ClosedOf(segments), whole), local, whole);
    StampsMatch(segments, whole, whole);
  }

  lemma {:induction false} ShowAppend<A>(a: seq<Segment>, x: Segment, stamps: seq<A>, local: Fenced -> A)
    ensures Show(a + [x], stamps, local)
         == Show(a, stamps, local) + ShowOne(x, if |ClosedOf(a)| <= |stamps| then stamps[|ClosedOf(a)|..] else [], local)
  {
    hide ShowOne;
    if a == [] {
      assert [] + [x] == [x] && [x][1..] == [];
      assert stamps[0..] == stamps;
    } else {
      hide ClosedOf;
      ClosedCount(a);
      var s, n := a + [x], |ClosedOf(a[1..])|;
      assert s[0] == a[0] && s[1..] == a[1..] + [x];
      var used := Left(a[0], stamps);
      var left := if n <= |used| then used[n..] else [];
      assert left == if |ClosedOf(a)| <= |stamps| then stamps[|ClosedOf(a)|..] else [];
      ShowAppend(a[1..], x, used, local);
      Regroup(ShowOne(a[0], stamps, local), Show(a[1..], used, local), ShowOne(x, left, local));
    }
  }

  /** The rendering loop: one running index into the stamps, advanced by closed segments only. */
  method RenderMessage<A>(segments: seq<Segment>, stamps: seq<A>, local: Fenced -> A) returns (shown: seq<Shown<A>>)
    ensures shown == Rendered(segments, stamps, local)
  {
    hide Trim;
    if |segments| == 1 && segments[0].Prose? {
      return [Text(segments[0].text)];
    }
    shown := [];
    var index := 0;
    for i := 0 to |segments|
      invariant shown == Show(segments[..i], stamps, local)
      invariant index == |ClosedOf(segments[..i])|
    {
      assert segments[..i + 1] == segments[..i] + [segments[i]];
      ShowAppend(segments[..i], segments[i], stamps, local);
      ClosedOfAppend(segments[..i], [segments[i]]);
      match segments[i]
      case Prose(text) =>
        if Trim(text, ScriptSpace) != "" { shown := shown + [Text(text)]; }
      case Open(_) => shown := shown + [Placeholder];
      case Closed(fenced) =>
        shown := shown + [Artifact(if index < |stamps| then stamps[index] else local(fenced))];
        index := index + 1;
    }
    assert segments[..|segments|] == segments;
  }

  // ------------------------------------------------------------ a header the two read differently

  /** A fence whose header line ends in a byte-order mark: the server keeps the mark, the client does not. */
  lemma HeadersDiffer(b: Block, header: string)
    requires Writable(b) && b.fenced.header == header + BYTE_ORDER_MARK
    requires header != "" && !PythonSpace(header[0]) && !ScriptSpace(header[0]) && !ScriptSpace(header[|header| - 1])
    ensures ServerArtifacts(Write(b)) == [b.fenced]
    ensures ClosedOf(ClientSegments(Write(b))) == [Fenced(header, b.fenced.payload)]
  {
    hide Segments, Artifacts, Write, Writable, Trim, PythonSpace, ScriptSpace;
    TrimsDiffer(header);
    ParsersAgree(Write(b));
    OnlyFence(b);
    ClosedOfTrimmed(Segments(Write(b), 0));
  }

  lemma OnlyFence(b: Block)
    requires Writable(b)
    ensures ClosedOf(Segments(Write(b), 0)) == [b.fenced]
  {
    hide Writable, Write;
    WrittenFirst(b, "");
    assert Write(b) + "" == Write(b);
    assert Segments("", 0) == [];
    hide Segments;
    var prose := if b.prose != "" then [Prose(b.prose)] else [];
    ClosedOfAppend(prose, [Closed(b.fenced)]);
    assert ClosedOf(prose) == [];
    assert ClosedOf([Closed(b.fenced)]) == [b.fenced];
    assert SegmentsOf(b) + [] == SegmentsOf(b);
  }
}
