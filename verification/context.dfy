/** Conversation messages as values: what they cost and how they rank. */
module Context {
  import opened Options
  import opened Text

  datatype Kind = User | Assistant | System | ToolCall | ToolResult | Memory | Recommendation

  datatype Message = Message(
    id: string, kind: Kind, content: string, sequence: int,
    symbol: Option<string>, timeframe: Option<string>,
    recommendationId: Option<string>, analysisId: Option<string>,
    important: bool, historical: bool,
    toolCallId: Option<string>, toolArguments: string)
  {
    predicate Tool() {
      kind.ToolCall? || kind.ToolResult?
    }

    /** The id that links a call to its result. */
    function PairId(): Option<string> {
      if Tool() then toolCallId else None
    }

    /** Candles of an earlier turn, dropped before anything is scored. */
    predicate Stale() {
      historical && !important
    }
  }

  // ---------------------------------------------------------------- cost

  const CHARS_PER_TOKEN := 4
  const MESSAGE_OVERHEAD_TOKENS := 6

  function TextTokens(text: string): nat {
    (|text| + CHARS_PER_TOKEN - 1) / CHARS_PER_TOKEN
  }

  /** Empty text is free, and any other text costs at least one token. */
  lemma AnyTextCosts(text: string)
    ensures TextTokens(text) == 0 <==> text == ""
    ensures CHARS_PER_TOKEN * (TextTokens(text) - 1) < |text| <= CHARS_PER_TOKEN * TextTokens(text) || text == ""
  {
  }

  function MessageTokens(m: Message): nat {
    TextTokens(m.content) + MESSAGE_OVERHEAD_TOKENS + TextTokens(m.toolArguments)
  }

  function Cost(ms: seq<Message>): nat {
    if ms == [] then 0 else MessageTokens(ms[0]) + Cost(ms[1..])
  }

  /** Everything in a message that is sent, in characters. */
  function Length(m: Message): nat {
    |m.content| + |m.toolArguments|
  }

  function TotalLength(ms: seq<Message>): nat {
    if ms == [] then 0 else Length(ms[0]) + TotalLength(ms[1..])
  }

  /** What a message is charged: six tokens, and one for every four characters of its text and of its arguments, each
    rounded up. */
  lemma MessageCosts(m: Message)
    ensures MessageTokens(m) >= 6
    ensures var words := MessageTokens(m) - 6;
            && Length(m) <= 4 * words <= Length(m) + 6
            && (m.toolArguments == "" ==> 4 * (words - 1) < |m.content| || words == 0)
            && (m.content == "" ==> 4 * (words - 1) < |m.toolArguments| || words == 0)
  {
  }

  /** A conversation costs its parts, whatever their order: within six characters a message, four to the token. */
  lemma {:induction false} CostBounds(a: seq<Message>, b: seq<Message>)
    ensures Cost(a + b) == Cost(a) + Cost(b)
    ensures 24 * |a| + TotalLength(a) <= 4 * Cost(a) <= 30 * |a| + TotalLength(a)
    ensures |a| == 1 ==> Cost(a) == MessageTokens(a[0])
  {
    hide MessageTokens, Length;
    if a == [] {
      assert a + b == b;
    } else {
      assert (a + b)[1..] == a[1..] + b;
      CostBounds(a[1..], b);
      MessageCosts(a[0]);
    }
  }

  // ---------------------------------------------------------------- truncation

  const PROSE_LIMIT := 1200
  const TOOL_RESULT_LIMIT := 600
  const TRUNCATION_MARK := " \U{2026}[\U{0627}\U{062E}\U{062A}\U{064F}\U{0635}\U{0631}]"

  function ContentLimit(kind: Kind): nat {
    if kind.ToolResult? then TOOL_RESULT_LIMIT else PROSE_LIMIT
  }

  function Truncated(kind: Kind, content: string): string {
    if |content| <= ContentLimit(kind) then content
    else TrimRight(content[..ContentLimit(kind)], PythonSpace) + TRUNCATION_MARK
  }

  /** A cut message keeps a proper prefix of its text and says it was cut. */
  lemma TruncationIsMarked(kind: Kind, content: string)
    ensures var t := Truncated(kind, content);
            && |t| <= ContentLimit(kind) + |TRUNCATION_MARK|
            && (|content| <= ContentLimit(kind) ==> t == content)
            && (|content| > ContentLimit(kind) ==> exists kept: string :: kept < content && t == kept + TRUNCATION_MARK)
  {
    if |content| > ContentLimit(kind) {
      var kept := TrimRight(content[..ContentLimit(kind)], PythonSpace);
      assert kept <= content[..ContentLimit(kind)] < content;
    }
  }

  /** Exactly how much is kept: of a tool result the first 600 characters, of anything else 1200, but for white space where
    the text was cut. */
  lemma TruncationKeeps(kind: Kind, content: string)
    ensures var limit := if kind == ToolResult then 600 else 1200;
            if |content| <= limit then Truncated(kind, content) == content
            else exists n :: 0 <= n <= limit && Truncated(kind, content) == content[..n] + TRUNCATION_MARK
                             && (forall i :: n <= i < limit ==> PythonSpace(content[i])) && (n > 0 ==> !PythonSpace(content[n - 1]))
  {
    var limit := if kind == ToolResult then 600 else 1200;
    if |content| > limit {
      hide PythonSpace;
      var cut := content[..limit];
      var n := |TrimRight(cut, PythonSpace)|;
      TrimRightParts(cut, PythonSpace);
      assert forall i :: n <= i < limit ==> cut[n..][i - n] == content[i];
      assert TrimRight(cut, PythonSpace) == content[..n];
    }
  }

  // ---------------------------------------------------------------- relevance

  /** What a turn is about, with the text functions the scoring calls. */
  datatype Query = Query(
    text: string, symbol: Option<string>, timeframe: Option<string>,
    recommendationId: Option<string>, analysisId: Option<string>,
    terms: string -> set<string>, upper: string -> string, mentionsPreference: string -> bool)

  const IMPORTANT_SCORE := 100

  predicate Given(o: Option<string>) {
    o.Some? && o.value != ""
  }

  /** The non-empty parts joined by single spaces. */
  function Joined(parts: seq<Option<string>>): string {
    if parts == [] then ""
    else
      var rest := Joined(parts[1..]);
      if !Given(parts[0]) then rest
      else if rest == "" then parts[0].value
      else parts[0].value + " " + rest
  }

  /** Three for every word that the query shares with the message and what it is about. */
  function Words(q: Query, content: string, about: seq<Option<string>>): int {
    3 * |q.terms(q.text) * q.terms(Joined([Some(content)] + about))|
  }

  /** What the names are worth that the query gives and the message has. */
  function Named(q: Query, about: seq<Option<string>>): int
    requires |about| == 4
  {
    (if Given(q.symbol) && about[0] == Some(q.upper(q.symbol.value)) then 8 else 0)
    + (if Given(q.timeframe) && about[1] == Some(q.upper(q.timeframe.value)) then 5 else 0)
    + (if Given(q.recommendationId) && about[2] == q.recommendationId then 12 else 0)
    + (if Given(q.analysisId) && about[3] == q.analysisId then 12 else 0)
  }

  function About(m: Message): (about: seq<Option<string>>)
    ensures |about| == 4
  {
    [m.symbol, m.timeframe, m.recommendationId, m.analysisId]
  }

  /** What the message is: pinned, stale, a recommendation, a preference. */
  function Marks(q: Query, m: Message): int {
    (if m.important then IMPORTANT_SCORE else 0)
    + (if m.kind.Recommendation? then 4 else 0)
    + (if m.kind.Memory? && q.mentionsPreference(m.content) then 6 else 0)
    - (if m.historical then 20 else 0)
  }

  function Score(q: Query, m: Message): int {
    Marks(q, m) + Words(q, m.content, About(m)) + Named(q, About(m))
  }

  /** Joining two lists of parts joins what each has to say, by one space when both have. */
  lemma {:induction false} JoinedParts(a: seq<Option<string>>, b: seq<Option<string>>)
    ensures Joined(a + b) == if Joined(a) == "" then Joined(b) else if Joined(b) == "" then Joined(a)
                             else Joined(a) + " " + Joined(b)
    ensures |a| == 1 ==> Joined(a) == if Given(a[0]) then a[0].value else ""
  {
    if a == [] {
      assert a + b == b;
    } else {
      assert (a + b)[1..] == a[1..] + b;
      JoinedParts(a[1..], b);
    }
  }

  /** The words that the turn and the message share. */
  function Shared(q: Query, m: Message): set<string> {
    q.terms(q.text) * q.terms(Joined([Some(m.content), m.symbol, m.timeframe, m.recommendationId, m.analysisId]))
  }

  /** What naming a symbol, a timeframe, a recommendation or an analysis is worth: take it out of the query, and the score
    falls by that much. */
  lemma NamesAreWorth(q: Query, m: Message)
    ensures Score(q, m) - Score(q.(symbol := None), m)
         == (if q.symbol.Some? && q.symbol.value != "" && m.symbol == Some(q.upper(q.symbol.value)) then 8 else 0)
    ensures Score(q, m) - Score(q.(timeframe := None), m)
         == (if q.timeframe.Some? && q.timeframe.value != "" && m.timeframe == Some(q.upper(q.timeframe.value)) then 5 else 0)
    ensures Score(q, m) - Score(q.(recommendationId := None), m)
         == (if q.recommendationId.Some? && q.recommendationId.value != "" && m.recommendationId == q.recommendationId then 12 else 0)
    ensures Score(q, m) - Score(q.(analysisId := None), m)
         == (if q.analysisId.Some? && q.analysisId.value != "" && m.analysisId == q.analysisId then 12 else 0)
  {
    WordsUnnamed(q, m);
    hide Words, Marks;
  }

  lemma WordsUnnamed(q: Query, m: Message)
    ensures forall r: Query :: r.text == q.text && r.terms == q.terms ==> Words(r, m.content, About(m)) == Words(q, m.content, About(m))
    ensures forall r: Query :: r.mentionsPreference == q.mentionsPreference ==> Marks(r, m) == Marks(q, m)
  {
    hide Joined, About;
  }

  /** What the message is, is worth this much. */
  lemma MarksAreWorth(q: Query, m: Message)
    ensures Score(q, m.(important := true)) == Score(q, m.(important := false)) + 100
    ensures Score(q, m.(historical := true)) == Score(q, m.(historical := false)) - 20
    ensures Score(q, m) - Score(q, m.(kind := User))
         == if m.kind == Recommendation then 4 else if m.kind == Memory && q.mentionsPreference(m.content) then 6 else 0
  {
    hide Words, Named;
  }

  /** And without any of it three for each shared word are left. */
  lemma WordsAreWorth(q: Query, m: Message)
    requires m.kind == User && !m.important && !m.historical
    ensures var bare := q.(symbol := None, timeframe := None, recommendationId := None, analysisId := None);
            Score(bare, m) == 3 * |Shared(q, m)|
  {
    var bare := q.(symbol := None, timeframe := None, recommendationId := None, analysisId := None);
    assert [Some(m.content)] + About(m) == [Some(m.content), m.symbol, m.timeframe, m.recommendationId, m.analysisId];
    assert Words(bare, m.content, About(m)) == 3 * |Shared(q, m)|;
    hide Joined, Words, Shared;
  }

  /** A rank: score first, then position in the conversation. */
  datatype Rank = Rank(score: int, sequence: int)

  predicate RankLeq(a: Rank, b: Rank) {
    a.score < b.score || (a.score == b.score && a.sequence <= b.sequence)
  }

  const RECENT_BONUS := 20
  const TOOL_BONUS := 2

  /** How messages rank in one compaction. */
  datatype Ranking = Ranking(query: Query, recent: set<string>) {
    function Of(m: Message): Rank {
      Rank(Score(query, m) + (if m.id in recent then RECENT_BONUS else 0) + (if m.Tool() then TOOL_BONUS else 0),
           m.sequence)
    }
  }

  /** Being recent is worth 20 and being part of a tool call 2; on a tie the earlier message ranks below. */
  lemma RankIs(k: Ranking, a: Message, b: Message)
    ensures k.Of(a).score - Score(k.query, a)
         == (if a.id in k.recent then 20 else 0) + (if a.kind == ToolCall || a.kind == ToolResult then 2 else 0)
    ensures !RankLeq(k.Of(b), k.Of(a))
       <==> k.Of(a).score < k.Of(b).score || (k.Of(a).score == k.Of(b).score && a.sequence < b.sequence)
  {
    hide Score;
  }

  /** An exact id does not outrank everything: a message with no other sign than the id is outranked by an earlier one
    with no other sign than shared words as soon as those are five, and by any recent one. */
  lemma IdIsOutranked(k: Ranking, named: Message, other: Message)
    requires var bare := k.query.(symbol := None, timeframe := None, recommendationId := None, analysisId := None);
             Score(k.query, named) == 12 && Score(bare, named) == 0 && Score(k.query, other) == 3 * |Shared(k.query, other)|
    requires named.id !in k.recent && !named.Tool() && !other.Tool() && other.sequence < named.sequence
    ensures !RankLeq(k.Of(other), k.Of(named)) <==> other.id in k.recent || |Shared(k.query, other)| >= 5
  {
    hide Score, Shared;
  }

  // ---------------------------------------------------------------- stable sort by rank

  /** `m` put before the first message that does not rank below it. */
  function Insert(k: Ranking, m: Message, sorted: seq<Message>): seq<Message> {
    if sorted == [] || RankLeq(k.Of(m), k.Of(sorted[0])) then [m] + sorted
    else [sorted[0]] + Insert(k, m, sorted[1..])
  }

  /** `sorted(ms, key=rank)`: Python's sort is stable. */
  function Sort(k: Ranking, ms: seq<Message>): seq<Message> {
    if ms == [] then [] else Insert(k, ms[0], Sort(k, ms[1..]))
  }

  ghost predicate Sorted(k: Ranking, ms: seq<Message>) {
    forall i, j :: 0 <= i < j < |ms| ==> RankLeq(k.Of(ms[i]), k.Of(ms[j]))
  }

  lemma {:induction false} InsertKeeps(k: Ranking, m: Message, s: seq<Message>)
    ensures multiset(Insert(k, m, s)) == multiset(s) + multiset{m}
  {
    hide Score, RankLeq;
    if s != [] {
      InsertKeeps(k, m, s[1..]);
      assert s == [s[0]] + s[1..];
    }
  }

  /** Everything from the second message on ranks at least as high as the first. */
  lemma InsertBound(k: Ranking, m: Message, s: seq<Message>, low: Message)
    requires RankLeq(k.Of(low), k.Of(m)) && forall x <- s :: RankLeq(k.Of(low), k.Of(x))
    ensures forall x <- Insert(k, m, s) :: RankLeq(k.Of(low), k.Of(x))
  {
    hide Score, RankLeq, Insert;
    InsertKeeps(k, m, s);
    forall x <- Insert(k, m, s)
      ensures RankLeq(k.Of(low), k.Of(x))
    {
      assert x in multiset(Insert(k, m, s));
      if x != m { assert x in multiset(s); }
    }
  }

  lemma SortedCons(k: Ranking, m: Message, s: seq<Message>)
    requires Sorted(k, s) && forall x <- s :: RankLeq(k.Of(m), k.Of(x))
    ensures Sorted(k, [m] + s)
  {
    hide Score, RankLeq;
  }

  lemma {:induction false} InsertSorted(k: Ranking, m: Message, s: seq<Message>)
    requires Sorted(k, s)
    ensures Sorted(k, Insert(k, m, s))
  {
    hide Score;
    if s == [] {
    } else if RankLeq(k.Of(m), k.Of(s[0])) {
      forall x <- s ensures RankLeq(k.Of(m), k.Of(x)) {
        var i :| 0 <= i < |s| && s[i] == x;
        assert i == 0 || RankLeq(k.Of(s[0]), k.Of(s[i]));
      }
      SortedCons(k, m, s);
    } else {
      InsertSorted(k, m, s[1..]);
      InsertBound(k, m, s[1..], s[0]);
      SortedCons(k, s[0], Insert(k, m, s[1..]));
    }
  }

  lemma {:induction false} SortSorts(k: Ranking, ms: seq<Message>)
    ensures Sorted(k, Sort(k, ms))
    ensures multiset(Sort(k, ms)) == multiset(ms)
  {
    hide Score, RankLeq;
    if ms != [] {
      SortSorts(k, ms[1..]);
      InsertKeeps(k, ms[0], Sort(k, ms[1..]));
      InsertSorted(k, ms[0], Sort(k, ms[1..]));
      assert ms == [ms[0]] + ms[1..];
    }
  }
}
