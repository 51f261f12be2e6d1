# Verified model of the analysis platform

A Dafny model of the parts of the platform that have loops, shared state or a claim that
spans several functions, with proofs of what they keep. Run `dafny verify dfyconfig.toml`.

What is modelled, by area:

- **Context compactor** (`context.dfy`, `compaction.dfy`, `compactor.dfy`). Messages are
  objects whose text is overwritten by truncation. The eviction loop, which re-sorts what is
  left in every round, is shown to be one pass over one fixed order.
- **Artifact fences and the event stream** (`text.dfy`, `fences.dfy`, `event_stream.dfy`).
  Two parsers in two languages find the same fences in every text; what has closed stays closed
  while text streams in; chunk boundaries do not matter. The reader handles a subset of section 9.2.6 of
  the WHATWG HTML Living Standard.
- **Tool loop and chat stream** (`tool_loop.dfy`, `chat_stream.dfy`). Protocols against an
  arbitrary provider: pairing, caching, bounds, fallback, reset, disconnect, commit.
- **Rate limiters** (`rate_limit.dfy`). The pruned sliding window agrees with full history;
  the Redis form is a fixed window with its own, weaker, bound.
- **Lifecycle and thesis monitor** (`lifecycle.dfy`, `batches.dfy`, `thesis_monitor.dfy`). Every
  call is cut into the steps at which another session can run; any number of manual transitions,
  trackers and thesis monitors interleave over one thesis, its plan and the outcome that is kept.
  Sessions then cover lists of plans, in any order, under one commit each.
- **Chart** (`annotations.dfy`, `candles.dfy`, `chart.dfy`). Incremental drawing against
  redraw, and the two copies of the candle series.
- **Engines** (`bars.dfy`, `rounding.dfy`, `zones.dfy`, `liquidity.dfy`, `scenario.dfy`,
  `mtf.dfy`, `plan.dfy`, `market_mirror.dfy`). The engines, and the market upside down.
- **Decision gate** (`decision.dfy`, `evidence.dfy`, `synthesizer.dfy`, `orchestrator.dfy`).
  A direction is published exactly when every gate is open.
- **Memory decay** (`memory_decay.dfy`). What rounding to four decimals does to aging.

`options.dfy` and `sequences.dfy` hold what several modules share.

Where the code and what is written about it differ, the model follows the code, and the
difference is stated exactly:

- A manual transition re-reads the row under the lock; the tracker takes the same lock and then
  decides on the status it loaded before. In `Lifecycle.TrackerRace` it turns an invalidated plan
  into a win, while the outcome that is kept stays the loss: the second one has the same key and
  is dropped. `Lifecycle.TrackerSafeExactlyWhenReread` says when it does no harm, and exactly when
  row and kept outcome differ afterwards.
- A thesis is changed without a check on what it has become. A second monitor that loaded it open
  overwrites a closed one (`Lifecycle.SecondMonitorOverwrites`);
  `Lifecycle.RunsEndAlikeExactly` says for every interleaving when thesis, plan and outcome end
  alike.
- A monitor votes on the outcome before it locks the plan; everyone else locks the plan first. Two
  calls on one plan can therefore wait for each other (`Lifecycle.OnePlanDeadlockExactly`,
  `Lifecycle.DeadlockHappens`). And the tracker's and the monitor's jobs hold the locks of every
  plan they have passed until one commit at the end: such a pair on one plan is the only circle of
  waits in which nobody waits for what another did on a plan it has left behind
  (`Batches.CirclesNeedBatches`), and with lists in different orders there are circles of every
  length (`Batches.BatchesMeet`, `Batches.CirclesOfEveryLength`).
- One exception rolls back a whole pass of the thesis monitor: a single plan too early or too weak
  to win, at its target, keeps every thesis from closing
  (`ThesisMonitor.NoneExactlyWhenOneRaises`).
- The evidence gate refuses with `EVIDENCE_` and the name of the check, which is none of the
  reasons the decision contract lists: exactly these refusals are published although the contract
  rejects them (`Orchestrator.DirectionMeansOpen`, `Orchestrator.ClosedMarketLeavesTheContract`,
  `Orchestrator.ClosedMarketExists`). Of its blocking checks only three can fail once the engines
  have answered (`Orchestrator.EvidenceStopsExactly`).
- `done` is sent before the turn is committed. A stored reply means that `done` was sent, and not
  the reverse (`ChatStream.RowMeansDone`, `ChatStream.DoneThenNothing`).
- The server strips a fence's header line by Python's white space and the client by JavaScript's.
  They differ on U+001C to U+001F, U+0085 and U+FEFF, so the header lines, unlike the fences, can
  differ (`Text.TrimsAgreeExactly`, `Fences.HeaderLinesAgreeExactly`, `Fences.HeadersDiffer`).
- The thesis monitor reports a change also when the rows are out of the tenant's sight, and
  fails when a target is hit by a plan that is weakening or not yet confirmed
  (`ThesisMonitor.EndTogetherExactly`, `ThesisMonitor.RaisesExactly`). A stated swing of zero
  counts as not stated, and hides the thesis's (`ThesisMonitor.StatedLevelCounts`).
- An exact recommendation or analysis id does not outrank everything else, as the scoring's description
  says: five shared words do, and so does being recent (`Context.IdIsOutranked`).
- A pinned tool message can still be dropped for want of its counterpart, and a kept message can
  be listed as removed (`Compaction.PinnedMessagesSurvive`, `Compaction.KeptYetListed`).
- A candle older than the last bar at a time the series does not have parts the controller's copy
  from the adapter's, and no later patch brings them together; a whole new series or a change of
  timeframe does (`Candles.CopiesAgreeExactly`, `Candles.RunsAgreeExactly`,
  `Chart.Controller.ApplyCandles`, `Chart.Controller.SetTimeframe`).
- Redrawing in place can keep an annotation on the chart that a redraw would refuse
  (`Annotations.IncrementalIsRedrawExactly`, and over whole runs
  `Annotations.RunsMatchRedrawExactly`).
- The most recent sweep favours the sell side when one bar takes both, and a tied or
  almost tied scenario leans bullish (`Liquidity.RecentMirrorsExactly`,
  `MarketMirror.BothSidesHappen`, `Scenario.ReportBalances`).
- A chat reply whose own chunks name no provider is credited to one that failed
  (`ChatStream.CreditIsLastNamed`). The families sent with `done` are ignored by the client,
  which reads the stored message.
- The decision contract checks the direction and the levels apart
  (`Decision.DirectionIsNotTiedToLevels`).
- A decaying score can come to rest above the archive threshold, and a negative one rises
  (`MemoryDecay.ArchivedExactly`, `MemoryDecay.NeverRises`).

## Model

| member | source | states |
|---|---|---|
| Context.AnyTextCosts | backend/app/agents/context/budget.py:35-36 | Only empty text is free, and the estimate is the length over four, rounded up |
| Context.MessageCosts | backend/app/agents/context/budget.py:39-44 | Six tokens, and one for every four characters of text and of arguments, each rounded up |
| Context.CostBounds | backend/app/agents/context/budget.py:47-48 | A conversation costs its parts whatever their order, and between 24 and 30 characters a message more than its text, four to the token |
| Context.NamesAreWorth | backend/app/agents/context/relevance.py:47-67 | What naming the symbol, the timeframe, the recommendation or the analysis adds to a score |
| Context.MarksAreWorth | backend/app/agents/context/relevance.py:47-74 | What being pinned, stale, a recommendation or a preference adds or takes |
| Context.WordsAreWorth | backend/app/agents/context/relevance.py:47-58 | Without any of it, three for each shared word |
| Context.JoinedParts | backend/app/agents/context/relevance.py:47-57 | What a message is searched for: its parts, joined by single spaces, empty ones left out |
| Context.RankIs | backend/app/agents/context/compactor.py:108-121 | Being recent is worth 20 and being part of a tool call 2; on a tie the earlier message ranks below |
| Context.IdIsOutranked | backend/app/agents/context/relevance.py:1-16 | Exactly when an exact id is outranked: by five shared words, or by a recent message |
| Context.TruncationIsMarked | backend/app/agents/context/compactor.py:66-71 | A cut text is a proper prefix of the original followed by the mark; a text within its kind's limit is untouched |
| Context.TruncationKeeps | backend/app/agents/context/compactor.py:38-71 | Of a tool result the first 600 characters are kept, of anything else 1200, but for white space at the cut |
| Context.SortSorts | backend/app/agents/context/compactor.py:124 | The order of candidates is by score and then position, and loses no message |
| Compaction.EvictionShrinks | backend/app/agents/context/compactor.py:123-133 | Every round picks a message still kept and leaves strictly fewer candidates, so the loop ends |
| Compaction.RecentAre | backend/app/agents/context/compactor.py:106 | Recent are the last so many messages kept, and never fewer than two |
| Compaction.EvictionIsOnePass | backend/app/agents/context/compactor.py:106-133 | Re-sorting every round evicts exactly what one walk along one static order evicts, with pairs closed under the call id |
| Compaction.SurvivorsOutrankVictims | backend/app/agents/context/compactor.py:123-133 | No unpinned survivor ranks below a message that was picked for eviction |
| Compaction.OverflowExactly | backend/app/agents/context/compactor.py:123-143 | The result is over budget exactly when the pinned messages alone, repaired, are, and it then is those |
| Compaction.NothingEvictedWhenItFits | backend/app/agents/context/compactor.py:123-136 | A conversation that fits after the stale drop loses nothing to eviction |
| Compaction.PinnedMessagesSurvive | backend/app/agents/context/compactor.py:131-136 | A pinned message is in the result exactly when it is no tool message with an id, or its counterpart survived too |
| Compaction.ResultKeepsOrder | backend/app/agents/context/compactor.py:96-136 | The result is a subsequence of the truncated input |
| Compaction.PairsLeaveTogether | backend/app/agents/context/compactor.py:128-133 | Evicting an unpinned call or result evicts everything unpinned with its call id |
| Compaction.OneRepairIsEnough | backend/app/agents/context/compactor.py:154-167 | After one repair no call or result with an id lacks its counterpart, and a second repair changes nothing |
| Compaction.RepairKeepsCompleteness | backend/app/agents/context/compactor.py:154-167 | Repair breaks no complete pair |
| Compaction.RepairDropsExactlyTheUnpaired | backend/app/agents/context/compactor.py:154-167 | A message is dropped exactly when it has an id and nothing answers it |
| Compaction.KeptYetListed | backend/app/agents/context/compactor.py:131-133 | A kept message is listed as removed exactly when it is pinned and an unpinned one with its call id was evicted |
| Compaction.OutputAndDroppedPartition | backend/app/agents/context/compactor.py:96-151 | With unique ids and two messages to a call id, kept and dropped ids partition the input |
| Compactor.ContextMessage.Truncate | backend/app/agents/context/compactor.py:66-71 | Overwrites the text of an overlong message and says whether it did |
| Compactor.DropStaleAndTruncate | backend/app/agents/context/compactor.py:96-104 | The first loop on the objects themselves: stale unpinned messages out, the rest cut in place once for every time they are listed, with the ids and warnings as they are met |
| Compactor.MetOnce | backend/app/agents/context/compactor.py:96-104 | In a list that holds no message twice each is met as it was given and cut once |
| Compactor.EvictUntilItFits | backend/app/agents/context/compactor.py:123-133 | The eviction loop on objects keeps exactly the survivors of the specified eviction, and lists the evicted ids round by round, each round's sorted |
| Compactor.ListedAreEvicted | backend/app/agents/context/compactor.py:131-133 | What such a list holds is exactly what was evicted |
| Compactor.ListingIsUnique | backend/app/agents/context/compactor.py:133 | A set of ids has one sorted list |
| Compactor.LexIs | backend/app/agents/context/compactor.py:133 | The listed order is decided by the first character in which two ids differ, and a proper beginning comes first |
| Compactor.RepairPairs | backend/app/agents/context/compactor.py:154-167 | The repair loop, with one warning per dropped message |
| Compactor.CompactConversation | backend/app/agents/context/compactor.py:80-151 | Overflows exactly when the repaired pinned messages exceed the budget, and otherwise fits, with every list it reports, repeated objects included |
| Fences.ParseArtifacts | backend/app/agents/artifacts/registry.py:204-229 | The server's loop, with its own four searches, extracts every complete fence in order, its header line stripped |
| Fences.ParseSegments | frontend/src/artifacts/parseArtifacts.ts:49-87 | The client's loop, with its own four searches, produces the specified segments, their header lines trimmed |
| Fences.ParsersAgree | backend/app/agents/artifacts/registry.py:204-229 | For every text, the server's fences are the client's closed segments before either trims a header line, although only the client swallows a newline |
| Fences.HeaderLinesAgreeExactly | frontend/src/artifacts/parseArtifacts.ts:80-82 | With the header lines each language trims, the two lists are equal exactly when no header, trimmed of what both trim, begins or ends with a character that only one trims |
| Fences.HeadersDiffer | backend/app/agents/artifacts/registry.py:224 | A header that ends in U+FEFF: the client drops it and the server keeps it |
| Text.TrimsAgreeExactly | backend/app/agents/artifacts/registry.py:224 | `str.strip` and `String.prototype.trim` give the same text exactly under that condition |
| Fences.SameFences | frontend/src/artifacts/parseArtifacts.ts:79-84 | The same, from any cursor, on either side of the swallowed newline |
| Fences.StreamingStable | frontend/src/artifacts/parseArtifacts.ts:49-87 | All segments of a prefix but a trailing prose or open one are the first segments of any longer text |
| Fences.ClosedFencesGrow | frontend/src/artifacts/parseArtifacts.ts:49-87 | The closed fences of a prefix are a prefix of the closed fences |
| Fences.OpenOnlyLast | frontend/src/artifacts/parseArtifacts.ts:61-78 | At most one segment is open, and only the last |
| Fences.ClientStreamingStable | frontend/src/artifacts/parseArtifacts.ts:49-87 | The same three for the segments as the client shows them, header lines trimmed |
| Fences.SegmentsTile | frontend/src/artifacts/parseArtifacts.ts:49-87 | The stretches of text behind the segments, laid end to end, are the text |
| Fences.EverySegmentSpells | frontend/src/artifacts/parseArtifacts.ts:49-87 | Each segment is what its stretch spells: prose without a marker, an open fence, or a whole fence with its header and payload |
| Fences.WriteThenParse | frontend/src/artifacts/parseArtifacts.ts:49-87 | Writing any blocks in fence form and parsing them gives the blocks back, whatever follows |
| Fences.StampsMatch | frontend/src/artifacts/MessageContent.tsx:36-55 | The i-th stamp lands on the i-th closed segment, and none is left over |
| Fences.FinishedReplyShown | frontend/src/artifacts/MessageContent.tsx:17-58 | The families the server stamped land on the fences the client drew |
| Fences.RenderMessage | frontend/src/artifacts/MessageContent.tsx:36-55 | The loop with one running index shows exactly that, blank prose hidden |
| EventStream.SplitExtend | frontend/src/api/conversations.ts:183-185 | More text only re-splits what followed the last separator |
| EventStream.ReadStream | frontend/src/api/conversations.ts:134-190 | For every chunking, the callbacks see what one split of the whole text delivers, tail included |
| EventStream.DeliveredExactly | frontend/src/api/conversations.ts:137-176 | Every frame in front of the first one whose handling throws is handled, in order, and none behind it |
| EventStream.WireRoundTrip | backend/app/api/routes/chat.py:210-222 | Every event the server writes reaches the client once and in order, however the bytes are cut |
| ToolLoop.RepairToolPairs | backend/app/agents/tools/loop.py:108-128 | Appends the specified error results |
| ToolLoop.RepairAnswersEveryCall | backend/app/agents/tools/loop.py:108-128 | One error result for each announced call without a result, and no other |
| ToolLoop.ServeCalls | backend/app/agents/tools/loop.py:172-196 | One round's calls, answered in order, with their records, each numbered with the round, and the cache |
| ToolLoop.RunToolLoop | backend/app/agents/tools/loop.py:131-230 | Every outcome is explained by its rounds: replies, results, cache rule, records with their round numbers, bounds; and one completion more than rounds is asked for |
| ToolLoop.ConversationWellFormed | backend/app/agents/tools/loop.py:148-198 | The input stays in front, and every assistant turn after it is followed by one result per call, in order, and no result stands elsewhere |
| ToolLoop.OneDispatchPerCall | backend/app/agents/tools/loop.py:173-194 | The number of dispatches is the number of different names with arguments |
| ToolLoop.StoppedExactlyOnABound | backend/app/agents/tools/loop.py:200-230 | A run is reported as stopped exactly when a bound ended it, and has never more rounds than the limit |
| ToolLoop.BudgetExactly | backend/app/agents/tools/loop.py:156-206 | The tokens of the replies are summed, and fewer than 2000 left end the loop |
| ToolLoop.ModelIsTold | backend/app/agents/tools/loop.py:172-196 | In a finished run every result in the conversation is the encoding of the tool's own answer, or, for a call made before, of that answer with the note and nothing else changed |
| ChatStream.StreamState.ConsumeProviderStream | backend/app/services/chat_stream.py:84-99 | A token for each chunk with text, and the reply kept so far |
| ChatStream.StreamState.FinalizeAssistantMessage | backend/app/services/chat_stream.py:102-136 | Stores one row with the whole text and its stamped fences |
| ChatStream.StreamState.IterChatTurnStream | backend/app/services/chat_stream.py:157-236 | The loop over the chain acts exactly as the specified turn |
| ChatStream.ClientHoldsTheStoredText | backend/app/services/chat_stream.py:178-217 | At `done` a client that clears on a reset holds the stored text, which is all the text of the attempt that won and nothing of the others |
| ChatStream.DoneArtifactsFit | backend/app/services/chat_stream.py:108-126 | The stored families land on the fences drawn from the tokens |
| ChatStream.EndsExactlyOnce | backend/app/services/chat_stream.py:178-236 | A non-empty chain ends with exactly one `done` or `error`; `done` exactly when some attempt was saved; one row is written before `done`, none before `error` |
| ChatStream.DisconnectLeavesNoRow | backend/app/api/routes/chat.py:218-220 | However a disconnect cuts the turn no row is committed, and a row can be lost only by a cut at `done` itself |
| ChatStream.ServeTurn | backend/app/api/routes/chat.py:209-231 | The route: forward the events, stop at a disconnect, commit at the end, and send an `error` when that raises |
| ChatStream.RowMeansDone | backend/app/api/routes/chat.py:209-231 | A committed row means that `done` was the last thing sent and holds what the client then held; there is one exactly when an attempt was saved, every event was sent, and the commit succeeded |
| ChatStream.DoneThenNothing | backend/app/api/routes/chat.py:221-231 | When the commit fails after a saved attempt the client sees `done` and then an `error`, and nothing is stored; when it is cancelled, `done` alone |
| ChatStream.CreditIsLastNamed | backend/app/services/chat_stream.py:90-99 | Which provider a reply is credited to, across attempts; usage is the winner's own |
| ChatStream.KeptExactly | backend/app/services/chat_stream.py:84-99 | Which model, provider and usage an attempt leaves behind |
| RateLimit.InMemoryRateLimiter.Hit | backend/app/infrastructure/rate_limit.py:23-32 | One hit prunes one bucket, decides, and records an admission |
| RateLimit.KeysAreIndependent | backend/app/infrastructure/rate_limit.py:19-32 | A key's bucket depends on its own hits only |
| RateLimit.SameVerdict | backend/app/infrastructure/rate_limit.py:23-32 | The pruned bucket admits exactly when the full history would |
| RateLimit.PrunedBucketIsRecentHistory | backend/app/infrastructure/rate_limit.py:23-32 | The bucket is the history cut where the last window began |
| RateLimit.SlidingWindowBound | backend/app/infrastructure/rate_limit.py:23-32 | Every closed interval of window length holds at most the limit |
| RateLimit.RefusedOnlyWhenFull | backend/app/infrastructure/rate_limit.py:27-29 | A refusal means the window is full |
| RateLimit.RedisRateLimiter.Hit | backend/app/infrastructure/rate_limit.py:39-56 | The script's effect on the stored counter, and the verdict |
| RateLimit.StoreIsLastWindow | backend/app/infrastructure/rate_limit.py:39-42 | The stored counter is the last fixed window's count and end |
| RateLimit.WindowsWellSpaced | backend/app/infrastructure/rate_limit.py:39-42 | The fixed windows of a key do not overlap |
| RateLimit.RedisBound | backend/app/infrastructure/rate_limit.py:39-56 | At most the limit per fixed window, and less than twice the limit in any half-open interval of that length |
| RateLimit.RedisBoundIsReached | backend/app/infrastructure/rate_limit.py:39-56 | For every limit and every window some run reaches that bound |
| Lifecycle.NeverBackToReady | backend/app/services/recommendation_lifecycle.py:31-107 | On any path of the table, an active plan is active in some form or over, never ready again |
| Lifecycle.TerminalIsFinal | backend/app/services/recommendation_lifecycle.py:104-106 | Nothing different follows a terminal status |
| Lifecycle.OutcomesNeedNoTrade | backend/app/services/recommendation_lifecycle.py:1-17 | A ready plan can end either way untaken; exactly the open ones can be invalidated; exactly four can reach the target |
| Lifecycle.SourcesExactly | backend/app/services/recommendation_lifecycle.py:31-107 | Every edge of the table from the target's side: where a plan can have come from |
| Lifecycle.LeadsToExactly | backend/app/services/recommendation_lifecycle.py:31-107 | By any number of moves an open plan gets exactly to every later stage, to every form of being taken once it is taken, and to all three ends; and every status is reached from the first |
| Lifecycle.StepKeepsInv | backend/app/services/recommendation_service.py:217-232 | Every step of every manual transition, tracker and monitor keeps the history legal, the hook called once, and the kept outcome the plan's own, but for a tracker that decides on a stale status |
| Lifecycle.RunsAreSafe | backend/app/services/recommendation_service.py:191-232 | So does every interleaving of any number of calls, aborted anywhere |
| Lifecycle.RereadRunsAreSafe | backend/app/services/recommendation_service.py:217-232 | With manual transitions and thesis monitors only, every interleaving is safe: a path in the table, one hook call, and one outcome, the plan's |
| Lifecycle.TrackerSafeExactlyWhenReread | backend/app/services/recommendations/tracker.py:143-148 | A tracker write is safe exactly when the manual check on the row as it now is would allow it; row and kept outcome differ afterwards exactly when the plan had already ended another way |
| Lifecycle.TrackerRace | backend/app/services/learning/outcome_recorder.py:85-159 | A run that ends with the row a win, the kept outcome a loss, and the hook called twice |
| Lifecycle.StepEndsAlikeExactly | backend/app/services/thesis_monitor_service.py:71-93 | Each step keeps thesis and plan alike, except the commit of a monitor whose plan had ended another way before it could lock it, which never does |
| Lifecycle.RunsEndAlikeExactly | backend/app/services/thesis_monitor_service.py:71-93 | For every interleaving without a stale tracker: thesis, plan and kept outcome always end alike exactly when no monitor is crossed like that |
| Lifecycle.SecondMonitorOverwrites | backend/app/services/recommendation_service.py:243-257 | Of two monitors that loaded one open thesis the later has the thesis, the earlier the plan and the outcome |
| Lifecycle.ClosedIsNotMonitored | backend/app/services/thesis_monitor_service.py:96-110 | A monitor that reads a closed thesis writes nothing and does nothing more, whatever other calls do; any other call begins with the row as it stands |
| Lifecycle.RunsAreOrderly | backend/app/services/recommendations/revisions.py:128-138 | In every run, stale trackers included, each lock is held by exactly the call in flight that has used it, and nobody has a vote pending once an outcome is kept |
| Lifecycle.OnePlanDeadlockExactly | backend/app/services/recommendation_service.py:220-267 | Of the calls on one plan, two wait for each other there exactly when a monitor has voted and wants the plan while another writer has ended the plan and wants to vote |
| Lifecycle.DeadlockHappens | backend/app/services/recommendation_service.py:220-267 | From every open plan, a run in which a monitor and another writer come to wait for each other |
| Batches.RunProjects | backend/app/workers/settings.py:211-239 | Seen from one plan, any run of sessions over lists of plans with one commit each is a run of calls on that plan |
| Batches.BatchesAreSafe | backend/app/workers/settings.py:211-239 | So every plan is safe, and thesis, plan and outcome end alike, under the same conditions as for single calls |
| Batches.RunsAreTidy | backend/app/services/recommendations/worker.py:113-152 | In every run a session has acted only on the plans up to the one it is at, and holds exactly the rows of statistics it has moved |
| Batches.LeavesExactly | backend/app/services/recommendations/worker.py:129-139 | A session goes on to its next plan exactly when its rows of statistics are moved and it has written nothing on this plan, or all it has written there is ready to commit; a manual transition that has the lock decides first |
| Batches.CommitsEverything | backend/app/workers/settings.py:218-239 | In every run the one commit at the end makes everything a session has written, on every plan of its list, visible at once; no other turn of any session changes what is committed |
| Batches.WaitsExactly | backend/app/services/recommendations/worker.py:129-137 | Who waits for whom, read off the lists, how far each session has come, and what it did on the way |
| Batches.DeadlockExactly | backend/app/workers/settings.py:211-239 | Two sessions wait for each other exactly when they are a voter and an ender at one plan, or one waits for what the other did on a plan it has left behind while the other waits for anything of the first |
| Batches.CirclesNeedBatches | backend/app/services/learning/pipeline.py:65-72 | A circle of any number of sessions in which nobody waits like that is such a pair, over and over, whatever rows of statistics they move |
| Batches.OneOrderLeavesPairs | backend/app/services/recommendations/repository.py:67-77 | With one order of plans for all lists, the only other circles are those in which someone waits for a row of statistics |
| Batches.CirclesOfEveryLength | backend/app/services/recommendations/tracker.py:143-144 | For every n from two on, a run in which n trackers over n plans wait for each other in a circle, though none changes anything |
| Batches.BatchesMeet | backend/app/services/thesis_monitor_worker.py:44-56 | A run in which the monitor's job and the tracker's job, at different plans, wait for each other |
| ThesisMonitor.BreakingWinsOverTheTarget | backend/app/engines/thesis_monitor.py:21-73 | An open thesis is invalidated exactly when its swing is broken, and won exactly when the target is reached and it is not |
| ThesisMonitor.StatedLevelCounts | backend/app/services/thesis_monitor_service.py:49 | Whose level counts, when recommendation, thesis and structure disagree, are null or are zero |
| ThesisMonitor.MonitorMirrors | backend/app/engines/thesis_monitor.py:9-73 | Negating prices and swapping sides gives the mirrored proposal |
| ThesisMonitor.Recommendation.Transition | backend/app/services/recommendation_service.py:191-232 | The transition under the lock: for exactly which pairs a visible open plan moves, the status it leaves, and what is learned |
| ThesisMonitor.Thesis.Transition | backend/app/services/recommendation_service.py:243-268 | The thesis changes unguarded, and the plan is counted |
| ThesisMonitor.Thesis.Monitor | backend/app/services/thesis_monitor_service.py:49-93 | The event, the thesis, the learned outcome and the plan, in that order, on stored values |
| ThesisMonitor.RaisesExactly | backend/app/services/thesis_monitor_service.py:79-93 | The call fails exactly when a target is hit by a visible plan that is detected, analyzing, forming or weakening |
| ThesisMonitor.EndTogetherExactly | backend/app/services/thesis_monitor_service.py:60-93 | After a reported change thesis and plan match exactly when the plan was open or had ended that way |
| ThesisMonitor.CountedOnce | backend/app/services/learning/terminal_hooks.py:72-91 | If plan and learned outcome agree before the call they do after a reported change, and the first outcome is never replaced |
| ThesisMonitor.CountedInEveryRun | backend/app/services/learning/terminal_hooks.py:72-91 | After any run of other sessions in which no tracker is stale they do agree, and so they do after the monitor that comes next |
| ThesisMonitor.AloneIsMonitored | backend/app/services/thesis_monitor_service.py:41-93 | The handler is the steps of the monitor's call with no other session in between; a call that raises commits nothing |
| ThesisMonitor.ClosedIsLeftAlone | backend/app/services/thesis_monitor_service.py:57-58 | A closed thesis is never proposed for again; one out of sight is proposed for on every pass |
| ThesisMonitor.RunCycle | backend/app/services/thesis_monitor_worker.py:37-56 | The loop over all theses in one session, with one commit or none |
| ThesisMonitor.NoneExactlyWhenOneRaises | backend/app/workers/settings.py:217-219 | Nothing of a pass is committed exactly when a target is hit by a plan too early or too weak to win that no earlier thesis of the pass has invalidated |
| Annotations.DiffAnnotations | frontend/src/chart/ChartAnnotationRenderer.ts:9-32 | Added and updated in list order, and what is gone |
| Annotations.AddedIs | frontend/src/chart/ChartAnnotationRenderer.ts:18-21 | Added are exactly the annotations with an unknown id |
| Annotations.UpdatedIs | frontend/src/chart/ChartAnnotationRenderer.ts:22-24 | Updated are exactly those that differ from what was last given |
| Annotations.AnnotationRenderer.ApplyIncremental | frontend/src/chart/ChartAnnotationRenderer.ts:60-89 | Ends in the specified view, one live drawing per handle, leaves foreign drawings alone, and touches only what changed |
| Annotations.AnnotationRenderer.Clear | frontend/src/chart/ChartAnnotationRenderer.ts:91-97 | Only foreign drawings are left, and they are unchanged |
| Annotations.ApplyOne | frontend/src/chart/ChartAnnotationRenderer.ts:60-89 | What becomes of one annotation of the list, whatever was there before |
| Annotations.RedrawIs | frontend/src/chart/ChartAnnotationRenderer.ts:60-97 | Drawing from scratch shows exactly what the surface does not refuse |
| Annotations.IncrementalIsRedrawExactly | frontend/src/chart/ChartAnnotationRenderer.ts:60-89 | The incremental form equals redraw exactly when it redraws nothing in place that would be refused |
| Annotations.RunsMatchRedraw | frontend/src/chart/ChartAnnotationRenderer.ts:60-97 | After any run of calls the chart is a redraw of the last list, when the surface creates what it is given or cannot redraw in place |
| Annotations.RunsMatchRedrawExactly | frontend/src/chart/ChartAnnotationRenderer.ts:60-97 | After any run whatever it is, unless the surface redraws in place and the list has a refused annotation whose id it has once created since the id came; and then it is not |
| Annotations.UnchangedIsUntouched | frontend/src/chart/ChartAnnotationRenderer.ts:18-25 | An unchanged annotation is not among those drawn |
| Annotations.GivenIsSettled | frontend/src/chart/ChartAnnotationRenderer.ts:60-89 | Giving the same list again leaves nothing to do |
| Candles.CopiesAgreeExactly | frontend/src/chart/ChartDataAdapter.ts:29-55 | On any series, the exact condition under which the two merges agree |
| Candles.MergesPlaceExactly | frontend/src/chart/ChartCandleAdapter.ts:45-63 | On a series in order, each merge puts the bar at its time exactly when the patch is newer, at the last bar, or at a time the series has |
| Candles.KindsExactly | frontend/src/chart/ChartDataAdapter.ts:29-55 | What each copy reports a patch to be: a new candle, an updated one, or a moved price |
| Candles.PlacedIs | frontend/src/chart/ChartDataAdapter.ts:29-55 | Placing a bar keeps the order, replaces the bar at its time and keeps every other |
| Candles.DedupedIs | frontend/src/chart/ChartDataAdapter.ts:57-63 | Deduplication keeps each time's latest candle, once, in order of time |
| Candles.DedupeCandles | frontend/src/chart/ChartDataAdapter.ts:57-63 | The map and the sort compute that |
| Candles.RunsStayInStep | frontend/src/chart/ChartController.ts:43-57 | Any run of such patches keeps the copies equal, in order, and equal to deduplicating everything that arrived |
| Candles.UnwelcomeSeparates | frontend/src/chart/ChartDataAdapter.ts:48-54 | Any other patch puts the controller's copy out of order and never reaches the adapter's |
| Candles.PartedStays | frontend/src/chart/ChartController.ts:52-57 | Copies that were parted stay parted, whatever patch comes next |
| Candles.RunsAgreeExactly | frontend/src/chart/ChartController.ts:52-57 | From a series in order, the copies are equal after a run of patches exactly when every patch was one both merges place |
| Chart.MergeCandleUpdate | frontend/src/chart/ChartDataAdapter.ts:29-55 | A series in order stays in order exactly for a patch both merges place, and then holds the patch at its time and every other bar |
| Chart.CandleAdapter.ApplyCandlePatch | frontend/src/chart/ChartCandleAdapter.ts:45-63 | The adapter's merge, and what it publishes |
| Chart.Controller.ApplyCandlePatch | frontend/src/chart/ChartController.ts:52-57 | The copies stay in step exactly for a patch both merges place |
| Chart.Controller.ApplyAnnotations | frontend/src/chart/ChartController.ts:59-62 | The renderer ends in the specified view, with distinct ids has nothing left to do, and foreign drawings are untouched |
| Chart.Controller.SetTimeframe | frontend/src/chart/ChartController.ts:31-41 | A change brings the copies together and gives the renderer the list again; a list that is drawn already touches no drawing |
| Chart.Controller.Destroy | frontend/src/chart/ChartController.ts:64-68 | Everything the chart drew goes, the user's drawings stay, and so does the adapter's copy |
| Zones.RunZonesEngine | backend/app/engines/zones.py:42-115 | The indexed loop collects the specified candidates and reports the top of each side |
| Zones.ZoneExactly | backend/app/engines/zones.py:57-79 | Exactly when a bar leaves a zone, and which prices bound it |
| Zones.TouchesCount | backend/app/engines/zones.py:81 | The touches counted from a bar on are the later bars that meet the zone |
| Zones.ZoneReports | backend/app/engines/zones.py:81-106 | Every number of a zone from the bars: touches, age, impulse in ranges, distance, and a strength that is what these are worth, rounded |
| Zones.WorthSteps | backend/app/engines/zones.py:87-91 | One more touch is worth a tenth, one more range of impulse a sixth, one bar of age the 1200th part, each up to its cap |
| Zones.ReportExactly | backend/app/engines/zones.py:42-123 | When there is a report, and what it shows: up to three zones a side of those eligible bars leave, strongest and then nearest first, none left out that is better |
| Zones.StrengthOrders | backend/app/engines/zones.py:85-91 | A stronger departure or another touch never weakens a zone, and age never strengthens it |
| Zones.ZoneHolds | backend/app/engines/zones.py:54-106 | Every candidate has width, is young enough, still holds, and has a strength between 0 and 1 |
| Zones.TopIsStrongest | backend/app/engines/zones.py:118-123 | Nothing left out outranks anything reported for its side |
| Zones.ZonesMirror | backend/app/engines/zones.py:42-123 | Upside down, supply is demand: the same zones in the same order with the same strength |
| Liquidity.FindSweeps | backend/app/engines/liquidity.py:45-73 | The loop over the window finds the specified sweeps |
| Liquidity.SweepMeans | backend/app/engines/liquidity.py:49-64 | A bar takes a side exactly when it goes beyond every extreme before it and closes back inside one |
| Liquidity.SweepReports | backend/app/engines/liquidity.py:55-73 | The level raided, the extreme and the penetration of every sweep |
| Liquidity.SweepsAtMirror | backend/app/engines/liquidity.py:45-73 | A bar's sweeps are mirrored, in the other order when there are two |
| Liquidity.RecentMirrorsExactly | backend/app/engines/liquidity.py:81 | The most recent sweep is mirrored exactly when the last sweeping bar took one side |
| Liquidity.EqualClusters | backend/app/engines/liquidity.py:90-107 | The nested lists grown in place give the specified levels |
| Liquidity.ClustersPartition | backend/app/engines/liquidity.py:97-102 | The clusters, end to end, are the sorted prices; each is a chain of near prices; different ones are further apart than the tolerance |
| Liquidity.ClustersAreComponents | backend/app/engines/liquidity.py:97-102 | Two prices share a cluster exactly when a walk in steps within the tolerance joins them |
| Liquidity.EqualLevelsAre | backend/app/engines/liquidity.py:103-107 | Reported levels strictly rise, and each lies inside a cluster of two or more, of the size it reports |
| Liquidity.AddFirstIs | backend/app/engines/liquidity.py:97-102 | Growing the clusters from the other end gives the same clusters |
| Liquidity.EqualLevelsMirror | backend/app/engines/liquidity.py:90-107 | Negated prices give the negated levels, in the other order, with the same counts |
| Scenario.CollectVotes | backend/app/engines/scenario.py:78-120 | Every vote that is left takes a side and has weight; none is left exactly when no evidence points anywhere |
| Scenario.BullishWeightIs | backend/app/engines/scenario.py:91-120 | What speaks for the bull, and with which weight: a sweep speaks against the side it took |
| Scenario.WeightsAddUp | backend/app/engines/scenario.py:49-51 | The two sides' weights are the total, which is positive when there is a vote |
| Scenario.ConfidencesSum | backend/app/engines/scenario.py:127-132 | The two confidences sum to exactly 0.95, before and after rounding |
| Scenario.ConfidenceBounded | backend/app/engines/scenario.py:127-132 | Between 0.10 and 0.85, and never lower for more weight |
| Scenario.ReportBalances | backend/app/engines/scenario.py:35-75 | Every report is balanced, and the exact share from which it leans bullish |
| Scenario.RunScenarioEngine | backend/app/engines/scenario.py:35-75 | No answer exactly when structure or liquidity has none or no evidence points anywhere; otherwise confidences that sum to 0.95, and the invalidation of the side with at least half |
| Scenario.ConfidencesSwap | backend/app/engines/scenario.py:35-132 | Mirrored evidence swaps the confidences |
| Scenario.InvalidationSwapsExactly | backend/app/engines/scenario.py:135-156 | The invalidation scenario is mirrored exactly when there is no tie |
| Mtf.RunMtfEngine | backend/app/engines/mtf.py:83-147 | Leader, alignment, conflict and roles from the biases |
| Mtf.OutlookExactly | backend/app/engines/mtf.py:83-147 | When there is an answer, and every part of it from the biases, counted |
| Mtf.AlignmentMeans | backend/app/engines/mtf.py:99-129 | Full alignment is unanimity with the leader, the trade bias is the leader's, and a unanimous stack never conflicts |
| Mtf.MtfMirrors | backend/app/engines/mtf.py:94-147 | Mirrored biases swap alignment and trade bias, and change neither leader nor conflict |
| Plan.MedianSplits | backend/app/engines/plan_sanity.py:163-173 | Half the wicks in order are no more than the noise floor, and half no less |
| Plan.MedianIs | backend/app/engines/plan_sanity.py:163-173 | The middle value, or halfway between the two in the middle |
| Plan.ContextIs | backend/app/engines/plan_sanity.py:163-173 | What is measured for a plan: the noise, the range, the last close and how many bars |
| Plan.RecentIs | backend/app/engines/plan_sanity.py:146-173 | The last so many bars |
| Plan.WicksAre | backend/app/engines/plan_sanity.py:146-173 | What is measured of each bar with a range: its range less its body |
| Plan.RunPlanSanityEngine | backend/app/engines/plan_sanity.py:187-273 | The failures and warnings, in order |
| Plan.FailuresExactly | backend/app/engines/plan_sanity.py:187-273 | Every failure of a plan with its exact condition |
| Plan.WarningsExactly | backend/app/engines/plan_sanity.py:187-273 | Both warnings with theirs, and the reward to risk |
| Plan.ViableExactly | backend/app/engines/plan_sanity.py:203-261 | A plan passes exactly when the market was measured, the stop clears the noise, and the first target is half a range away |
| Plan.ViableClearsHalf | backend/app/engines/plan_sanity.py:146-233 | A viable plan's stop clears the wicks of half the bars it was measured on |
| Plan.RiskMeans | backend/app/engines/risk.py:45-82 | A sized plan loses exactly its risk at its stop, on the side of the stop, with a positive reward or none |
| Plan.RefusalsAgree | backend/app/engines/risk.py:46-54 | The sizer refuses exactly the plans the plan check calls unpriceable |
| Plan.PlanMirrors | backend/app/engines/plan_sanity.py:146-273 | Upside down, the same verdict for the same reasons |
| Plan.RiskMirrors | backend/app/engines/risk.py:45-82 | Upside down, the same size on the other side |
| MarketMirror.EvidenceMirrorsExactly | backend/app/agents/orchestrator.py:186-209 | The engines' evidence is mirrored exactly when the last sweep took one side only |
| Bars.ComputeAtr | backend/app/engines/volatility.py:10-26 | The mean of the last fourteen true ranges, none for fewer bars |
| Bars.AverageRangeMirrors | backend/app/engines/primitives/indicators.py:200-223 | The market is as wide upside down |
| MarketMirror.BothSidesHappen | backend/app/engines/liquidity.py:39-81 | A full window of sixty bars whose last takes both sides: it looks the same upside down and is evidence for the bulls both ways |
| MarketMirror.ConfidencesMirror | backend/app/agents/orchestrator.py:186-209 | From bars to confidences: upside down, bull and bear swap |
| Decision.LevelsExactly | backend/app/schemas/decision.py:102-115 | Levels are accepted exactly when entry lies strictly between the stop and all targets |
| Decision.AcceptedExactly | backend/app/schemas/decision.py:140-176 | A decision is accepted exactly as a refusal with a listed reason and no confidence, or an undegraded direction with a whole plan |
| Decision.ProblemsAreTrue | backend/app/schemas/decision.py:102-176 | Whatever is named as the problem with a decision is true of it |
| Decision.AcceptedLevelsAreSized | backend/app/schemas/decision.py:102-115 | Accepted levels can be sized and have a positive reward |
| Decision.DirectionIsNotTiedToLevels | backend/app/schemas/decision.py:118-176 | The contract accepts either direction with any accepted levels |
| Evidence.BlackoutExactly | backend/app/engines/evidence.py:195-215 | The blackout fails exactly for a high-impact event in its window |
| Evidence.BlockedExactly | backend/app/engines/evidence.py:111-302 | Everything that can stop a decision at this gate, and nothing else |
| Evidence.BlockNames | backend/app/engines/evidence.py:111-302 | The first failing check is the one that is named, in this order |
| Evidence.ReportReads | backend/app/engines/evidence.py:123-302 | What the report says of each of the ten readings, blocking or advisory |
| Evidence.NewsExactly | backend/app/engines/evidence.py:157-190 | News warns or is stale, and never blocks |
| Evidence.WindowsAre | backend/app/engines/evidence.py:195-228 | The windows in minutes: five behind to fifteen ahead, and three times the frame |
| Synthesizer.EvidenceLevels | backend/app/agents/synthesizer.py:272-316 | Every price an engine measured once, in strictly rising order, and nothing else |
| Synthesizer.NearMenu | backend/app/agents/synthesizer.py:319-325 | A price is near that list exactly when it is near a price some engine measured |
| Synthesizer.FarExactly | backend/app/agents/synthesizer.py:328-331 | The prices a rejection names are exactly those with no measured level near them |
| Synthesizer.GroundedExactly | backend/app/agents/synthesizer.py:319-331 | No price is rejected exactly when each is near a measured one, or none was measured |
| Synthesizer.JudgedExactly | backend/app/agents/synthesizer.py:394-449 | A reply is accepted exactly when the contract accepts what it becomes, as a grounded BUY or SELL |
| Synthesizer.AcceptedCarries | backend/app/agents/synthesizer.py:229-268 | The same of the reply's own fields, and what it becomes: its own direction, confidence, levels, condition, lifetime and plan type, under the caller's frame |
| Synthesizer.RejectedExactly | backend/app/agents/synthesizer.py:391-446 | What every other reply is told, and exactly which prices it is told of |
| Synthesizer.ToleranceIs | backend/app/agents/synthesizer.py:328-331 | Near is within 0.35 ranges, or within 0.15 percent of the entry without a range |
| Synthesizer.SynthesizeDecision | backend/app/agents/synthesizer.py:345-467 | The repair loop ends as specified |
| Synthesizer.SessionsAreExplained | backend/app/agents/synthesizer.py:373-467 | At most one attempt more than the repairs allowed, one recorded repair per rejection in order, and the kind of exhaustion |
| Synthesizer.DecidesExactly | backend/app/agents/synthesizer.py:373-449 | A decision exactly when some allowed attempt is accepted and all before it are rejected |
| Synthesizer.ConversationGrows | backend/app/agents/synthesizer.py:400-401 | Each rejection adds the reply and then its own problem; the prompt stays in front |
| Orchestrator.RunAnalysis | backend/app/agents/orchestrator.py:171-511 | The early ways out, in order, publish the specified decision |
| Orchestrator.DirectionMeansOpen | backend/app/agents/orchestrator.py:222-498 | A direction leaves exactly when every gate is open; every other way out is a refusal naming the first shut gate, without confidence; what leaves satisfies the contract exactly when the run was not stopped first by the evidence gate |
| Orchestrator.RefusalsExactly | backend/app/agents/orchestrator.py:170-395 | Each refusal that does not come from the model, with its exact condition on bars, readings and settings |
| Orchestrator.DirectionLeavesExactly | backend/app/agents/orchestrator.py:222-461 | A direction leaves exactly when all of these pass and the model's own plan clears the noise and half a range |
| Orchestrator.ModelFailuresExactly | backend/app/agents/orchestrator.py:107-119 | Which failure of the model is published as what |
| Orchestrator.PublishedIsTheReply | backend/app/agents/orchestrator.py:422-461 | A published direction has the direction, confidence, levels, condition, lifetime and plan type of the last reply, under the chosen frame |
| Orchestrator.PublishedRestsOn | backend/app/agents/orchestrator.py:222-345 | It rests on sixty bars with a range, every engine read, an open market, no event about now, and a young last bar |
| Orchestrator.PublishedPlanIs | backend/app/agents/orchestrator.py:417-461 | Its plan: entry between stop and targets, stop and target far enough, each price within 0.35 ranges of a measured one, if any was |
| Orchestrator.MeasuredExactly | backend/app/agents/synthesizer.py:272-316 | Which prices were measured: structure, geometry, the edges of the zones of these bars, equal highs and lows |
| Orchestrator.ClosedMarketLeavesTheContract | backend/app/agents/orchestrator.py:331-345 | In a closed market, everything before that gate passing, the published refusal is rejected by the contract for its reason |
| Orchestrator.ClosedMarketExists | backend/app/agents/orchestrator.py:171-345 | Sixty bars that alternate, with which everything before that gate passes, once the regime is classified and the timeframes lean one way |
| Orchestrator.BlockNames | backend/app/engines/evidence.py:111-117 | The three reasons the evidence gate can give in a run, spelled out |
| Orchestrator.EvidenceStopsExactly | backend/app/engines/evidence.py:111-302 | Past the engines and the plan check, the gate stops a run exactly for a closed market, a high-impact event about now, or a last bar too old for the chosen frame |
| Orchestrator.PublishedMeans | backend/app/agents/orchestrator.py:417-461 | What a published direction guarantees about engines, evidence, stop, target, and the prices an engine measured near each of its own |
| Orchestrator.DecidedIsSound | backend/app/agents/orchestrator.py:407-422 | What the model decided passed the contract, is grounded, and took at most three attempts |
| Orchestrator.GeometricPlanPassesExactly | backend/app/agents/orchestrator.py:256-291 | The geometric plan can fail only for its stop |
| Orchestrator.GeometricPlanIs | backend/app/engines/plan_sanity.py:100-106 | Its stop and its two targets in ranges, frame by frame |
| Rounding.RoundHalfEven | backend/app/services/memory_decay.py:40 | The nearest whole number, and the even one on a tie |
| MemoryDecay.NeverRises | backend/app/services/memory_decay.py:38-51 | A score never rises nor passes zero; a negative one moves up |
| MemoryDecay.ErrorBound | backend/app/services/memory_decay.py:47-51 | After k sweeps a score is within (1 - f^k) / (1 - f) half-units of f^k times the start |
| MemoryDecay.StuckExactly | backend/app/services/memory_decay.py:50 | Exactly which scores a sweep leaves alone |
| MemoryDecay.FallsBelowExactly | backend/app/services/memory_decay.py:50-58 | Whether a score ever falls below a level, decided by start plus one sweeps |
| MemoryDecay.RunMemoryDecay | backend/app/services/memory_decay.py:15-65 | One night: refused settings, every row's new state, and the three counts |
| MemoryDecay.MemoryAgesExactly | backend/app/services/memory_decay.py:33-42 | Which memories a night ages, and to what |
| MemoryDecay.LessonAgesExactly | backend/app/services/memory_decay.py:46-58 | What a night does to a lesson, and exactly when it archives it |
| MemoryDecay.CountsExactly | backend/app/services/memory_decay.py:33-58 | The counts of a night are of the memories still valid and of the lessons not archived |
| MemoryDecay.ArchivedStays | backend/app/services/memory_decay.py:46 | An archived lesson is never touched again |
| MemoryDecay.EverBelowExactly | backend/app/services/memory_decay.py:50-58 | Whether any of enough sweeps takes a score below a level, read off the start, the level and one sweep; for negative scores too |
| MemoryDecay.ArchivedExactly | backend/app/services/memory_decay.py:46-58 | An open lesson, dated or not, whatever its score, is archived after enough nights exactly when its date came by one of them, or its score falls below the threshold, rounded up |
| MemoryDecay.SteepThresholdArchivesAll | backend/app/services/memory_decay.py:46-58 | A threshold that a sweep lowers by more than half a unit archives every open lesson in finitely many nights |

## Left out

- ToolLoop.RunToolLoop: a provider or a tool that raises ends the run outside the model.
- ChatStream.StreamState.IterChatTurnStream: storing a message and recording its usage are one atomic step that succeeds or fails; the OpenRouter cursor is not modelled.
- RateLimit.RedisRateLimiter.Hit: the window is positive, as the store demands of an expiry.
- Lifecycle.RunsAreSafe: a write that changes no column counts as a write, and locks are exclusive until the transaction ends; the database's choice of whom to abort in a deadlock is any abort.
- Annotations.AnnotationRenderer.ApplyIncremental: a drawing of the renderer's is removed by no one else; annotations are compared by their text, which stands for their JSON form.
- Lifecycle.RunsEndAlikeExactly: a plan has one thesis; `ThesisMonitor.RunCycle` allows several.
- Batches.CirclesNeedBatches: the locks are those of theses, plans, outcome keys and rows of statistics; the numbers in those rows are not modelled, and the re-evaluation job is, for its locks, a tracker that finds nothing to do.
- Annotations.RunsMatchRedraw: lists repeat no id; with repeated ids the last change wins.
- Plan.RiskMeans: quotients are exact, where the source divides decimals of 28 digits; pip figures are not modelled.
- Synthesizer.SynthesizeDecision: finding a JSON object in a reply is abstract, and the text of the messages is not modelled.
- Orchestrator.RunAnalysis: structure, regime, the timeframes' biases, the chosen frame and the session status are inputs; the ledger, the narrative and the trace are not modelled.
- Binary floating point: prices, strengths and scores are exact reals, and rounding is half to even.
- Header decoding and the table from artifact types to families (`_build`, `_normalize`, `family_for_type`, `headerToArtifact`): abstract; a fence carries its header line, trimmed as each language trims it.
- Text is a sequence of characters: no UTF-16 code units, no byte decoding, no normalisation.
- Context.Score: its weights, and the bonuses of the rank, are the source's constants; no property depends on their values.
- Text functions of the relevance score (terms, upper-casing, the preference pattern) are arbitrary functions.
- Pivots, structure, regime, geometry and the timeframe selector: taken as inputs.
- Database sessions, row-level security, migrations, HTTP routes, WebSocket plumbing and user interface components: only the state the steps above read and write is kept.
- Prompt text, metrics, logging, entitlement counters, authentication and seeding: they would add easy members only.
