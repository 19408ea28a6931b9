# A model of the assistant's stateful cores

This project models, in Dafny, the parts of the assistant server in which state is changed step by step, and
proves what they promise over every input, every run, or every interleaving of concurrent calls.

* **Loop detection** (`Sential.dfy`, `TextLoop.dfy`, `TextLoopTheorems.dfy`, `ToolLoop.dfy`). A detector keeps the
  last runes of a text in a window and indexes the window's n-grams incrementally; a guard counts consecutive
  chunks whose n-grams are mostly known; a probe buffer cuts a stream into chunks. The index refines a naive
  comparison of texts, and the whole chain is complete (every stream that turns periodic is caught within a stated
  number of runes) and sound (a stream without recurring n-grams is never aborted). The guard for tool calls has a
  closed form, and the normalisation of call inputs decides exactly which calls are the same.
* **Planning** (`PlannerText.dfy`, `PlannerKeys.dfy`, `DependencyGraph.dfy`, `Planner.dfy`). The task list a language
  model proposes is repaired, and Kahn's algorithm refuses it exactly if it has a cycle.
* **Outbound text** (`Chunking.dfy`, `ChunkBreaks.dfy`, `OutboundMessages.dfy`, `StreamSplitting.dfy`,
  `OutboundStream.dfy`). Texts are split into chunks, messages into several messages, and streams into several streams;
  nothing visible is lost, doubled or moved, platform limits are kept, and what fits stays whole.
* **Concurrent managers** (`Connections.dfy`, `ConnectionProtocol.dfy`, `ConnectionCalls.dfy`,
  `ConnectionReconcile.dfy`, `EmailManager.dfy`, `EmailCalls.dfy`). Calls run at once and drop the lock between their
  steps. Each locked region is a method of a class; the calls are state machines whose steps interleave in any order,
  and ownership of every connection and receiver is an invariant of all runs. What a call achieves when nothing
  interrupts it, and what others can take from it, is stated as well.
* **Secret redaction** (`UrlEncoding.dfy`, `Redaction.dfy`, `RedactionRegistry.dfy`, `RedactionTheorems.dfy`). A cache
  of secret variants, among them a URL-encoding that is checked against a decoder, agrees with the registry behind it,
  and replacing its entries one after another removes exactly those variants for certain that a stated condition on
  the secret picks out.
* **Compaction** (`Compaction.dfy`). Token-budget cuts of a message history, and what repeated rounds lead to.
* **Web interface stream and attachments** (`UiStream.dfy`, `UiStreamTheorems.dfy`, `UiToolMessages.dfy`,
  `Bundle.dfy`). Events become messages whose ids never change their meaning and which show what the events have said;
  attachment bundles have a canonical form and survive storage.

`Text.dfy` holds the string operations all of these share. Strings are sequences of runes. Code that updates
fields in place is a class whose methods are proved against specification functions; what the sources promise is
then proved of these functions. Everything that the environment decides (whether an adapter call succeeds, which
entry a range over a map visits next, what a language model answers) is a parameter of the step that depends on it.
In the state machines a run is a sequence of such steps, so a statement about `Run` is one about every
interleaving and every answer of the environment.

Where the code and its comments disagree, the model follows the code:

* `internal/agenthub/llm_planner.go:208-209` says that the repaired plan always passes the orchestrator's
  `validatePlan`. It does not when a renamed duplicate key is taken as well; `Planner.PlanValidates` says exactly
  when, and `PlannerKeys.RenamingCanCollide` is an instance.
* `internal/compaction/service.go:339-340` says that trimming keeps within its token budget. It does so exactly if
  the newest row does by itself (`Compaction.TrimmingFits`); otherwise the rows are not trimmed at all.
* `internal/channel/outbound.go:742-745` says that attachments and actions are delivered after a split. Actions
  are only if there are attachments (`OutboundStream.FinalAfterSplitActions`).
* `internal/channel/outbound.go:227-228` says that the id of an edit is carried by the first chunk only. The media
  message carries it as well (`OutboundMessages.DeliversOnce`).
* `internal/channel/error_redaction.go:55-56` says that registered secrets are masked. Whatever else is registered,
  that is certain for a secret exactly if it has no star or one of its registered halves has none
  (`RedactionTheorems.CertainExactly`): otherwise the mask of another secret can complete it.
* `internal/channel/outbound.go:648-657` describes a limit for a streamed message. It outlives a delta and the adapter
  call that may fail for it exactly unless a split at a natural break stops before the new stream is open
  (`StreamSplitting.LimitExactly`): the counters have then started over on the same stream.
  `OutboundStream.FailedSplitOverfills` is an instance. The order and the number of the deltas are kept even then.

## Model

| member | source | states |
|---|---|---|
| SentialDetector.Sential.AddHistoryGram | internal/agent/sential.go:91-96 | after a gram is added, the count map and its support set index exactly the multiset enlarged by it |
| SentialDetector.Sential.RemoveHistoryGram | internal/agent/sential.go:98-106 | after one occurrence is removed, map and set index the rest; a gram leaves the set with its last occurrence |
| SentialDetector.Sential.PushWindowChar | internal/agent/sential.go:108-126 | keeps the window at the last W runes of all text fed in, the queue at the window's n-grams in order, and the index at that queue's multiset, also for n > W |
| SentialDetector.Sential.CountCandidate | internal/agent/sential.go:142-166 | the loop over the candidate text counts exactly its n-grams that occur in the window |
| SentialDetector.Sential.Inspect | internal/agent/sential.go:128-183 | refinement: the result is that of comparing the chunk's n-grams with all n-grams of the window before it, with no index at all: the counts are those of the places of window and chunk whose n runes end inside the chunk, and of those that are found inside the window as well; it is a hit iff their share is above the threshold; and the chunk is fed in |
| SentialDetector.VerdictCompares | internal/agent/sential.go:128-183 | what an inspection answers, place by place: new grams, matched grams, share and hit, with neither grams nor a running count |
| SentialDetector.CandidateGrams | internal/agent/sential.go:134-165 | the last n - 1 runes of the window are context enough: the candidate's grams are the grams of the whole text that end inside the chunk |
| SentialDetector.GramsSnoc | internal/agent/sential.go:108-117 | one more rune adds exactly one gram at the end, or none while the text is shorter than n |
| SentialDetector.GramsDrop | internal/agent/sential.go:118-126 | dropping the oldest runes drops the oldest grams and changes no other |
| SentialDetector.NothingInspected | internal/agent/sential.go:128-132 | an empty chunk has no new grams and is no hit |
| SentialDetector.Sential.Reset | internal/agent/sential.go:186-191 | forgets all text fed in |
| TextLoop.TextLoopGuard.Inspect | internal/agent/sential.go:226-240 | verdict, streak and abort flag are functions of the chunks inspected so far and not of hidden state |
| TextLoopTheorems.StreakIsTrailingHits | internal/agent/sential.go:226-240 | the streak is the length of the longest all-hit suffix of the chunks that bring enough new grams; the others neither lengthen nor break it |
| TextLoop.TextLoopProbeBuffer.EmitFullChunks | internal/agent/sential.go:270-287 | emits the full chunks in order and leaves fewer runes than a chunk |
| TextLoop.TextLoopProbeBuffer.Push | internal/agent/sential.go:270-287 | the inspector sees exactly the full chunks of buffered and new text, the rest stays buffered, and chunks and rest are everything pushed |
| TextLoop.PushesCompose | internal/agent/sential.go:270-287 | partition invariance: pushing a and then b inspects the same chunks and leaves the same rest as pushing a + b |
| TextLoop.ChunksConserve | internal/agent/sential.go:270-287 | chunks and leftover together are the text |
| TextLoop.TextLoopProbeBuffer.PushAll | internal/agent/sential.go:270-287 | after any number of pushes only the concatenation of the pieces matters |
| TextLoop.TextLoopProbeBuffer.Flush | internal/agent/sential.go:289-298 | the rest is inspected, after which the inspected chunks concatenate to everything pushed |
| TextLoop.WatchStream | internal/agent/agent.go:146-154 | the agent's set-up, fed with text blocks that are flushed at their ends and a last one that may be open, raises the abort flag exactly if the streak condition holds for some prefix of the chunks of these texts, however each was cut into pushes |
| TextLoopTheorems.GramRecursBefore | internal/agent/sential.go:108-183 | every gram of a periodic stretch already occurs among its first p + n - 1 runes |
| TextLoopTheorems.PeriodicChunkMatches | internal/agent/sential.go:128-183 | once p + n - 1 runes of period p precede a chunk that continues the period, every new gram of the chunk is matched |
| TextLoopTheorems.LoopChunkHits | internal/agent/sential.go:226-240 | such a chunk is a hit that counts towards the streak |
| TextLoopTheorems.LoopIsCaught | internal/agent/sential.go:108-298 | completeness for every configuration: the guard aborts within p + n - 1 runes, less than one chunk, and one chunk for every hit needed |
| TextLoopTheorems.DefaultLoopIsCaught | internal/agent/sential.go:17-31 | with the default constants every stream that has a period p of at most 991 for p + 1032 runes is reported, however it goes on afterwards and whatever was inspected before the loop |
| TextLoopTheorems.LoopStreak | internal/agent/sential.go:226-298 | once p + n - 1 runes of a loop were inspected, the streak grows by exactly the number of chunks with enough runes, wherever the chunks end |
| TextLoopTheorems.DefaultLoopInBlocks | internal/agent/agent.go:300-350 | with the default constants a loop is reported by the third chunk of 8 runes or more after its first p + 9 runes, however short the flushed blocks are and however the stream goes on |
| TextLoopTheorems.DistinctChunkMisses | internal/agent/sential.go:128-183 | a chunk whose grams do not come back within a window and a chunk is no hit |
| TextLoopTheorems.DistinctStreamNeverAborts | internal/agent/sential.go:226-240 | soundness: a stream whose grams are distinct within that distance keeps the streak at zero and never aborts |
| ToolLoop.ToolLoopGuard.Inspect | internal/agent/sential.go:362-407 | warn and abort are functions of the length k of the run of equal calls that ends the trace: warn iff R + 1 divides k and k / (R + 1) is at most W (and k at least 1), abort iff k >= (W + 1)(R + 1) |
| ToolLoop.RunLengthIsMaximalRun | internal/agent/sential.go:362-407 | that length is the length of the maximal run: all its calls are equal, and the call before it differs |
| ToolLoop.Limits.CountersStep | internal/agent/sential.go:370-401 | the closed forms of the repeat and breach counters make the same steps as the guard, in each of its three cases |
| ToolLoop.Limits.WarnsAtRoundEnds | internal/agent/sential.go:362-407 | warnings come exactly at calls R + 1, 2(R + 1), ..., W(R + 1) of a run, and no warned call is also aborted |
| ToolLoop.NormalFormDecides | internal/agent/sential.go:450-489 | two inputs normalise to the same value if and only if they agree up to volatile keys, nil entries of objects and the rendering of scalars, at every depth |
| ToolLoop.ToolLoopGuard.HashDecides | internal/agent/sential.go:450-499 | calls of the same tool whose inputs agree on what matters have the same hash, and with a digest that tells serialisations apart only these do |
| ToolLoop.VolatileByName | internal/agent/sential.go:303-448 | by default a key does not matter iff its folded name is "spanid" or "nonce" or ends in one of eight words |
| ToolLoop.NormalFormIsClean | internal/agent/sential.go:450-489 | no volatile key and no nil entry is left at any depth |
| ToolLoop.CleanIsNormal | internal/agent/sential.go:450-489 | a value with nothing to remove or render is left as it is |
| ToolLoop.NormalizeIdempotent | internal/agent/sential.go:450-489 | normalising twice changes nothing |
| PlannerText.ObjectIsExtracted | internal/agenthub/llm_planner.go:235-252 | an object is extracted from any prose around it that has no brace of its kind, also from a fence, unless the fence opens on the object's own line |
| PlannerText.ExtractedIsObject | internal/agenthub/llm_planner.go:235-252 | whatever is extracted starts and ends with braces, or is nothing |
| DependencyGraph.HasDependencyCycle | internal/agenthub/llm_planner.go:256-289 | exactness of Kahn's algorithm, for any iteration order of the map, with repeated keys and edges: true iff some path of dependencies returns to its start or some dependency names no draft; when false there is an order in which the drafts can run |
| DependencyGraph.BuildGraph | internal/agenthub/llm_planner.go:257-269 | in-degrees and adjacency record exactly the edges, counted with repetition |
| DependencyGraph.InitialQueue | internal/agenthub/llm_planner.go:270-275 | the first queue holds each key without dependencies once, in whatever order |
| DependencyGraph.Release | internal/agenthub/llm_planner.go:281-286 | releasing a dequeued key lowers each in-degree by the number of its edges and queues each key that becomes free, exactly once |
| DependencyGraph.OrderedMeansAcyclic | internal/agenthub/llm_planner.go:253-289 | a plan with a topological order has neither a cycle nor a dangling dependency |
| DependencyGraph.StuckMeansCycle | internal/agenthub/llm_planner.go:276-289 | drafts that each need another of them contain a cycle |
| DependencyGraph.PathClimbs | internal/agenthub/llm_planner.go:256-289 | along every path that ends in the order, the start comes strictly before the end |
| DependencyGraph.PendingAfter | internal/agenthub/llm_planner.go:281-286 | a key loses as many pending edges as it has among the targets of what was dequeued |
| DependencyGraph.Leftovers | internal/agenthub/llm_planner.go:288-289 | when the queue runs dry, the dequeued keys are a topological order if all were dequeued, else there is a cycle or a dangling dependency |
| Planner.ParsePlannerOutput | internal/agenthub/llm_planner.go:149-233 | an answer without an object, one that cannot be decoded, an empty list and a cyclic one are refused, every other becomes the repaired plan, which has a topological order and says task by task what was asked for |
| Planner.DraftsSayWhatWasAsked | internal/agenthub/llm_planner.go:171-227 | title and description of a draft are those of its task, trimmed, with the key for a missing title; the key is the task's own, or with its position if an earlier draft has it; agent, priority and dependencies are the right ones |
| Planner.DependenciesAreRepaired | internal/agenthub/llm_planner.go:208-227 | a dependency is kept iff it is the trimmed name of one the task listed, names a task of the plan, and is not the task itself |
| Planner.NothingDangles | internal/agenthub/llm_planner.go:208-231 | no dependency of a plan names a missing task |
| Planner.TasksAreAssigned | internal/agenthub/llm_planner.go:161-205 | every task goes to an agent of the room (or the default for an empty room), and priorities strictly decrease |
| Planner.AgentComesFromRoom | internal/agenthub/llm_planner.go:186-193 | an agent that is named and in the room is the one chosen |
| PlannerKeys.TakenKeys | internal/agenthub/llm_planner.go:172-184 | the keys taken are the tasks' own keys and the new names of the duplicates |
| PlannerKeys.RenamedApart | internal/agenthub/llm_planner.go:179-182 | no two tasks are renamed to the same key, since a new name ends in the task's own position |
| PlannerKeys.RenamesCollideWithOwn | internal/agenthub/llm_planner.go:179-182 | so a new name is taken iff it is an earlier task's own key |
| PlannerKeys.KeysAreUnique | internal/agenthub/llm_planner.go:172-184 | keys are unique iff no duplicate's new name is an earlier task's own key |
| Planner.PlanValidates | internal/agenthub/orchestrator/service.go:664-687 | the orchestrator accepts the plan iff no duplicate's new name is an earlier task's own key; the only other outcome is a duplicate key |
| PlannerKeys.RenamingCanCollide | internal/agenthub/llm_planner.go:179-182 | for tasks named "a-3", "a" and "a" the renaming collides |
| Chunking.ChunkText | internal/channel/outbound.go:80-119 | the buffered loop is greedy packing of lines: every chunk joins the longest run of lines that fits |
| Chunking.ChunkMarkdownText | internal/channel/outbound.go:122-161 | the same for paragraphs, with paragraphs that are too long handed to the text chunker |
| Chunking.SplitLongLineLoop | internal/channel/outbound.go:167-185 | cuts a line every `limit` runes, trims, and drops blank segments |
| Chunking.JoinSplit | internal/channel/outbound.go:80-161 | joining what splitting at a separator yields is the text |
| ChunkBreaks.PiecesLackSeparator | internal/channel/outbound.go:88-130 | no piece of a split text holds the separator |
| Chunking.TextChunksRender | internal/channel/outbound.go:80-119 | the chunks cover the text with nothing but white space between them, start and end as the text does, fit a positive limit, and there are none iff the text is blank |
| Chunking.MarkdownChunksRender | internal/channel/outbound.go:122-161 | likewise for markdown |
| Chunking.LongLineRenders | internal/channel/outbound.go:167-185 | likewise for one long line |
| Chunking.RenderingMeans | internal/channel/outbound.go:80-185 | with white space removed the concatenated chunks are the text; the first chunk begins with the first visible rune and the last ends with the last |
| ChunkBreaks.LinesStayWhole | internal/channel/outbound.go:80-119 | a line that fits is never broken, and a chunk is made of whole lines or is part of a line that does not fit |
| ChunkBreaks.FewestChunks | internal/channel/outbound.go:80-119 | greedy packing is optimal: if all lines fit, no grouping of them that keeps within the limit has fewer groups than there are chunks |
| ChunkBreaks.ParagraphsStayWhole | internal/channel/outbound.go:122-161 | the same of paragraphs in markdown; one that does not fit is chunked by lines |
| ChunkBreaks.FewestMarkdownChunks | internal/channel/outbound.go:122-161 | and no grouping of paragraphs that fit has fewer groups |
| ChunkBreaks.SegmentsAreCut | internal/channel/outbound.go:167-185 | the segments of a long line are exactly the trimmed stretches between the multiples of the limit that are not blank |
| OutboundMessages.ChunksKeepWhole | internal/channel/outbound.go:206-214 | the chunks of a markdown message keep paragraphs whole, those of any other keep lines whole, unless the policy asks for markdown |
| OutboundMessages.BuildOutboundMessages | internal/channel/outbound.go:198-271 | yields the media and text messages of the specification, or the error for an empty message; the one message with the attachments comes first, or last if the policy puts the text first, and the texts are complete and in order |
| OutboundMessages.DeliversOnce | internal/channel/outbound.go:198-271 | the visible text is in the text messages once and in order (or in a caption), each within the limit; attachments are in exactly one message; actions only in the last text message; among text messages the edit id is on the first only |
| OutboundMessages.ChunkMessagesShape | internal/channel/outbound.go:215-246 | one message for every chunk that is not blank, first and last marked as promised |
| OutboundMessages.SomethingIsSent | internal/channel/outbound.go:264-266 | a message that is not empty always yields a message to send |
| OutboundStream.ManagerOutboundStream.PushDelta | internal/channel/outbound.go:658-697 | without a fault, a delta goes on the current stream if the text still fits, else on a new one, and the next stream begins after a text beyond three quarters of the limit that ends a line or a sentence; for each adapter call that can fail, says which stream has the delta, what is counted afterwards and that the error is reported |
| OutboundStream.ManagerOutboundStream.SplitStream | internal/channel/outbound.go:702-724 | the current adapter stream gets one final and one close, and the next starts with the status event; at a failing call the split stops where it is |
| OutboundStream.ManagerOutboundStream.Push | internal/channel/outbound.go:621-645 | keeps, whatever fails: the counted deltas over all adapter streams are those that got through, in order, and streams told to start are rare; until a split at a natural break stops before the new stream is open: every stream carries at most the limit or a single longer delta; until a split stops with its stream closed or the next one not started: every stream but the last is finished and every one but the first was started; says what every event adds to the streams and beside them, and when it succeeds; a closing message whose push succeeds has arrived in full (see FinalReaches) |
| StreamSplitting.SplitCounts | internal/channel/outbound.go:702-724 | a split moves no text, wherever it stops |
| StreamSplitting.DeltaCounts | internal/channel/outbound.go:658-697 | whichever adapter call fails, a delta that gets through is added once and at the end, and nothing else is |
| StreamSplitting.DeltaIsPlaced | internal/channel/outbound.go:658-697 | where each delta goes, in terms of the deltas of each stream |
| StreamSplitting.BreakMeans | internal/channel/outbound.go:726-740 | a natural break is a text that ends with a line break, or in which only white space follows the end of a sentence |
| StreamSplitting.LimitExactly | internal/channel/outbound.go:658-724 | the limit holds after a delta, its possible fault and any one further delta iff the delta did not make a split at a natural break that stopped before the new stream was open |
| StreamSplitting.DeltaBounded | internal/channel/outbound.go:658-724 | in all other cases every stream stays within the limit and has no more than is counted for it |
| StreamSplitting.Overfills | internal/channel/outbound.go:676-691 | after such a split a delta of as many runes as the limit makes the stream too long |
| StreamSplitting.ShapeExactly | internal/channel/outbound.go:702-724 | streams stay finished and started as they should be iff no split stops with its stream closed or with a new one not started |
| StreamSplitting.CountIsExact | internal/channel/outbound.go:658-697 | without faults the counted text is what the current stream has |
| StreamSplitting.DeltaKept | internal/channel/outbound.go:658-724 | every delta keeps conservation, counters and promises, whichever adapter call fails |
| OutboundStream.FailedSplitOverfills | internal/channel/outbound.go:676-691 | an instance: a failed split lets one stream take two deltas of more than the limit |
| StreamSplitting.StartsAreRare | internal/channel/outbound.go:658-697 | amortised bound, whatever fails: starts times the soft limit is at most twice the runes pushed |
| OutboundStream.ManagerOutboundStream.PushFinalWithChunking | internal/channel/outbound.go:775-856 | a closing message that is too long puts its first chunk on the stream, or beside it if that push fails, and the rest beside it, up to the first send that fails; says when it succeeds, and that then stream and messages together hold its text, actions and attachments exactly once |
| OutboundStream.ManagerOutboundStream.FinalReaches | internal/channel/outbound.go:742-925 | of a closing message that succeeds, at most one event is added, to the current stream; if its visible text is over a positive limit, what is on the stream and beside it together is the text in order and in pieces within the limit, with the actions in one piece and the attachments in one, whether or not the first push failed; else the message arrives as it is; after a split an empty closing message arrives, and the attachments in one message beside it |
| OutboundStream.PlainTextShows | internal/channel/types.go:341-368 | the plain text of a message is its text, or what its parts show, in order and on lines of their own |
| OutboundStream.LongIsSplit | internal/channel/outbound.go:784-818 | a closing message is split iff its visible text is over a positive limit: a text that does not fit is never one chunk |
| OutboundStream.ManagerOutboundStream.SendChunkedFinal | internal/channel/outbound.go:869-925 | sends the chunks from an index on, then the attachments; when a send fails, what went out is a prefix of all that |
| OutboundStream.ManagerOutboundStream.PushFinalAfterSplit | internal/channel/outbound.go:742-773 | finalises the last stream with an empty text and, if that works, sends attachments with the actions, if there are any, up to the first send that fails |
| OutboundStream.ChunksSentShape | internal/channel/outbound.go:869-925 | the chunks sent beside the stream carry their text in order and the actions at most once |
| OutboundStream.FinalAfterSplitActions | internal/channel/outbound.go:742-773 | after a split the actions are delivered iff there are attachments too |
| Connections.Manager.SetConnectionStatusLocked | internal/channel/connection.go:386-404 | the status of a config is replaced, unless its id is blank |
| Connections.Manager.Lookup | internal/channel/connection.go:101-119 | an entry that is up to date is kept and refreshed, an older one is taken out and yielded |
| Connections.Manager.Restore | internal/channel/connection.go:141-147 | an entry goes back iff its place is still free |
| Connections.Manager.Recheck | internal/channel/connection.go:161-170 | an entry made meanwhile stops the call from connecting |
| Connections.Manager.Insert | internal/channel/connection.go:192-207 | the new connection goes in iff no other call was faster |
| Connections.Manager.Take | internal/channel/connection.go:259-269 | an entry is taken out together with its status |
| Connections.Manager.Sweep | internal/channel/connection.go:59-91 | the loop over the table takes out exactly the selected entries and yields exactly their connections; a reconcile also forgets the status of every inactive id |
| ConnectionCalls.RunStep | internal/channel/connection.go:94-209 | the steps of the protocol are the locked regions: run on the manager, a step leaves its tables as the protocol says and the call where the protocol has it |
| ConnectionCalls.RunRequest | internal/channel/connection.go:38-384 | the same of the steps that begin a call, with the connections they take out |
| ConnectionCalls.EnsureAchieves | internal/channel/connection.go:94-209 | what an uninterrupted ensureConnection achieves, however it is answered: the config is served afterwards by an entry not older than it iff it was before or the call could stop the old connection and connect; only in the latter case is a connection opened, under the config itself, and the old one stopped; an old one that cannot be stopped stays; no other config is touched; and which status is left |
| ConnectionCalls.RemovalStops | internal/channel/connection.go:259-384 | after removeConnection, Stop or StopByBot exactly the entries asked for are gone, with their status, and every connection of theirs has stopped or failed to |
| ConnectionCalls.SweepStops | internal/channel/connection.go:59-91 | a sweep over the table leaves exactly the entries it is not about, with their status, and stops the connections of all others |
| ConnectionReconcile.ReconcileAchieves | internal/channel/connection.go:38-92 | after a reconcile that is answered well the table has an entry for exactly the enabled configs; one that no config is newer than is kept, any other is newly opened for a config of the list; of the connections open before, those without an entry are stopped and all others are open |
| ConnectionReconcile.ReconcileTwice | internal/channel/connection.go:38-110 | reconciling again with the same configs opens and stops nothing, however the calls are answered |
| ConnectionReconcile.TakenOutIffOlder | internal/channel/connection.go:104-119 | in any world, the step of a call takes an entry out iff it is the first step of a call for a newer config of that id, and never changes one in place |
| ConnectionReconcile.OnlyOlderAreStopped | internal/channel/connection.go:104-152 | over any run, what a call is about to stop or put back for a restart is older than its config |
| ConnectionReconcile.ServedUnlessOvertaken | internal/channel/connection.go:94-209 | among other calls, the step that ends a well answered call leaves its config served iff no other call has put an older entry in its place meanwhile |
| ConnectionReconcile.NewerCanLose | internal/channel/connection.go:159-170 | an instance: a well answered call for a newer config comes to nothing because one for the older config runs between its two looks at the table |
| ConnectionProtocol.ActionKeepsInv | internal/channel/connection.go:38-404 | every step of every call, in any world that meets the invariant, keeps it |
| ConnectionProtocol.StepKeepsPlaces | internal/channel/connection.go:94-209 | every step of ensureConnection and of a stopping call leaves every open connection in exactly one place |
| ConnectionProtocol.EveryConnectionHasOneOwner | internal/channel/connection.go:94-378 | at every moment of every interleaving an open connection is in the table under one id, or held by exactly one call, or was abandoned by a Stop that failed; a stopped one is nowhere; the table is keyed by config id and every id in it that is not blank has a status |
| ConnectionProtocol.NothingAbandoned | internal/channel/connection.go:130-152 | connections are only ever abandoned by a Stop that does not succeed |
| ConnectionProtocol.HeldIsLive | internal/channel/connection.go:121-200 | whatever a call is about to stop is still open, so nothing is stopped twice |
| ConnectionProtocol.AtRestTheTableIsAll | internal/channel/connection.go:94-404 | when no call holds a connection and every Stop succeeded, the open connections are exactly the table's, at most one per config id, each under its own id, and every id that is not blank has a status |
| EmailManager.Manager.StartProvider | internal/email/manager.go:56-86 | a receiver is asked to start iff the manager is not stopped and tracks none for the provider, and is tracked iff it then runs |
| EmailManager.Manager.TakeProvider | internal/email/manager.go:108-114 | the tracked receiver is taken out and yielded |
| EmailManager.Manager.TakeAll | internal/email/manager.go:124-132 | all receivers are yielded, the table is empty and the manager stopped |
| EmailCalls.RunStep | internal/email/manager.go:34-139 | the steps of the protocol are the manager's locked regions |
| EmailCalls.StartAchieves | internal/email/manager.go:34-86 | an uninterrupted Start tracks a new receiver for exactly those providers without one that are readable and whose receiver starts, unless the manager is stopped, and changes nothing else |
| EmailCalls.RefreshAchieves | internal/email/manager.go:88-122 | an uninterrupted RefreshProvider has stopped the old receiver and put a new one in its place iff the manager is not stopped, the provider is readable and the receiver starts; no other provider is touched |
| EmailCalls.StopAchieves | internal/email/manager.go:124-139 | an uninterrupted Stop leaves the manager stopped and empty, with every receiver it tracked asked to stop once |
| EmailProtocol.ActionKeepsInv | internal/email/manager.go:34-139 | every step of Start, RefreshProvider and Stop keeps the ownership invariant |
| EmailProtocol.EveryReceiverHasOneOwner | internal/email/manager.go:34-139 | under all interleavings a running receiver is tracked under exactly one provider or about to be stopped by exactly one call, and no receiver is asked to stop twice |
| EmailProtocol.NothingStartsAfterStop | internal/email/manager.go:56-65 | once Stop has been through its locked section the table stays empty and no receiver is ever started again |
| EmailProtocol.ShutdownIsComplete | internal/email/manager.go:124-139 | when a stopped manager has come to rest, every receiver it ever started has been asked to stop exactly once |
| Redaction.MaskAllRemoves | internal/channel/error_redaction.go:66-69 | after a star-free pattern was replaced it occurs nowhere |
| Redaction.MaskEachMasks | internal/channel/error_redaction.go:66-69 | redacting keeps the number of runes and changes runes to stars only |
| Redaction.RedactionIsComplete | internal/channel/error_redaction.go:57-71 | no star-free variant of the cache occurs in the result, although later replacements change what earlier ones left |
| Redaction.RedactionIsPrecise | internal/channel/error_redaction.go:57-71 | a rune is masked only within a place of the original text that a variant of the cache fits, up to the variant's own stars |
| Redaction.ExplainedIsCovered | internal/channel/error_redaction.go:57-71 | a variant without a star fits a place exactly if it occurs there |
| UrlEncoding.EncodesExactly | internal/channel/error_redaction.go:85-87 | checked against a decoder of its own: the URL-encoding of a string decodes to it, and nothing else does |
| UrlEncoding.Utf8Decodes | internal/channel/error_redaction.go:85-87 | the UTF-8 bytes of a string decode to it |
| UrlEncoding.BytesUnescape | internal/channel/error_redaction.go:85-87 | and every byte sequence is what its escaped form stands for |
| RedactionRegistry.VariantsBetray | internal/channel/error_redaction.go:73-89 | the variants of a secret are exactly the secret, its halves of more than five runes, and whatever decodes to it as a URL-encoding |
| RedactionRegistry.VariantsAreTelling | internal/channel/error_redaction.go:73-89 | no variant is blank, and the variants of a star-free secret are star-free |
| RedactionRegistry.RebuildSecretCache | internal/channel/error_redaction.go:91-112 | the cache lists every registered variant exactly once, longer ones first and then in byte order |
| RedactionRegistry.SortedIsUnique | internal/channel/error_redaction.go:104-112 | there is only one such list, so the iteration order of the groups leaves no trace |
| RedactionRegistry.CacheIsDetermined | internal/channel/error_redaction.go:91-112 | the cache is determined by the groups |
| RedactionRegistry.Registry.SetSecrets | internal/channel/error_redaction.go:32-53 | after any call the cache is that of the groups, also when the call returns early, and the secrets of the key are replaced |
| RedactionRegistry.RemovableHolds | internal/channel/error_redaction.go:73-89 | in a variant that has no star, and in a secret one of whose registered halves has none, some registered variant without a star occurs |
| RedactionRegistry.Registry.Redact | internal/channel/error_redaction.go:57-71 | the length is kept and only stars are added; of every registered secret each form that gives it away and has no star is gone, and the secret itself also if one of its halves has none, whatever else is registered; a URL-encoding of it is always gone; what was masked is within a place that a registered variant fits |
| RedactionTheorems.CertainExactly | internal/channel/error_redaction.go:32-112 | over all registries: a variant of a secret is certain to be gone from every text iff it has no star, or it is the secret itself and one of its registered halves has none |
| RedactionTheorems.DisguiseBecomesVariant | internal/channel/error_redaction.go:57-112 | otherwise the cache of the secret and one more rune masks the text that has this rune in place of the stars into the variant |
| RedactionTheorems.VariantSurvives | internal/channel/error_redaction.go:32-71 | for every variant that is not certain to go, two calls build a registry whose redacted text is that variant |
| RedactionTheorems.StarredSecretAppears | internal/channel/error_redaction.go:32-71 | with the secrets "a*b" and "c" registered, "acb" is redacted to "a*b" |
| RedactionTheorems.HalfSavesSecret | internal/channel/error_redaction.go:73-89 | "abcdef*ghijkl" has a star and is certain to go |
| Compaction.TokensAre | internal/compaction/service.go:329-337 | a row weighs its recorded output tokens if there are any, else a quarter of its bytes, rounded down |
| Compaction.ScanBack | internal/compaction/service.go:310-318 | the backward scan finds how many of the oldest rows must go for the rest to fit |
| Compaction.LongestFittingSuffix | internal/compaction/service.go:302-323 | what stays is within the budget, and every longer suffix is not |
| Compaction.SplitByTarget | internal/compaction/service.go:305-323 | returns the rows before the longest suffix within the target |
| Compaction.SplitByRatio | internal/compaction/service.go:273-300 | the same for the tokens a ratio leaves, with everything or nothing at its extremes |
| Compaction.RatioKeepsShare | internal/compaction/service.go:273-300 | what the ratio leaves is the longest suffix whose weight, times 100, is at most the input times 100 minus the ratio; everything goes if that is less than one token |
| Compaction.TrimCompactMessages | internal/compaction/service.go:341-366 | returns the longest suffix within the budget, or all rows if not even the newest fits |
| Compaction.TrimmingFits | internal/compaction/service.go:339-366 | the result is within the budget iff the newest row is |
| Compaction.TrimmingKeepsMost | internal/compaction/service.go:341-366 | trimming keeps the longest suffix within the budget if the newest row fits, else everything |
| Compaction.Session.DoCompaction | internal/compaction/service.go:77-177 | a round without errors marks exactly the selected rows, which are the newest, up to the input limit, of what the target or ratio cuts off; after an error in listing, generating or marking nothing is marked and the error is reported |
| Compaction.RoundLeaves | internal/compaction/service.go:77-177 | the selection is a stretch of the pending rows, and exactly the others stay pending, in order |
| Compaction.RoundsLeave | internal/compaction/service.go:77-177 | after any number of rounds the marks leave pending exactly what the rounds left |
| Compaction.RoundMakesProgress | internal/compaction/service.go:87-113 | under a target a round marks at least one row iff the pending rows are over the target |
| Compaction.RoundsReachTheTarget | internal/compaction/service.go:87-173 | the marks of repeated successful rounds bring the pending rows of a session within the target, after at most as many rounds as rows were pending |
| Compaction.NewestAreNeverCompacted | internal/compaction/service.go:302-323 | the longest suffix of the pending rows within the target is never marked, however many rounds are run, and stays last and in order |
| UiStream.UIMessageStreamConverter.FindToolState | internal/conversation/uimessage_stream.go:203-223 | an event with an id finds the call of that id only; one without finds a call of the same name if there is one |
| UiStream.ToolState.Amend | internal/conversation/uimessage_stream.go:84-176 | what each of the four tool events changes in a call's message |
| UiStream.UIMessageStreamConverter.HandleToolEvent | internal/conversation/uimessage_stream.go:70-180 | the call is found or made and amended in place, no other call changes, and what is tracked is brought up to date |
| UiStream.UIMessageStreamConverter.HandleEvent | internal/conversation/uimessage_stream.go:30-195 | the objects change as the specification of a step says, for all twelve kinds of events |
| UiStreamTheorems.IdentitiesNeverChange | internal/conversation/uimessage_stream.go:30-223 | over any events all ids are below the next one, an id never changes its message type or tool call id, and every tracked call is tracked under its own id |
| UiStreamTheorems.BlocksSayWhatWasSaid | internal/conversation/uimessage_stream.go:32-68 | every text or reasoning message says exactly the deltas since the last event that broke its block, and two of them share an id iff nothing broke the block in between |
| UiStreamTheorems.LaterExtendsEarlier | internal/conversation/uimessage_stream.go:36-64 | later messages with an id extend the earlier ones |
| UiToolMessages.ProgressIsReported | internal/conversation/uimessage_stream.go:98-119 | over any run, the progress a tool message shows is exactly what the progress events of its call have reported up to its own, in order |
| UiToolMessages.ToolMessagesShowEvents | internal/conversation/uimessage_stream.go:70-180 | over any run, every tool message follows field by field from its event and the last message with its id, or is the first of a new call; an event with a call id continues a call iff that call is in flight |
| UiToolMessages.EveryEventIsShown | internal/conversation/uimessage_stream.go:30-195 | over any run there is one message for every delta, tool event and event with attachments, in order, and none for any other; what each type of message shows |
| UiToolMessages.ProgressAccumulates | internal/conversation/uimessage_stream.go:98-119 | later messages of a tool call repeat all progress of the earlier ones, and no other message has any |
| Bundle.NormalizeIsCanonical | internal/attachment/bundle.go:48-96 | normalised bundles are canonical: trimmed, with a lower-case type, a bare mime type, data and local paths in their own fields, and everything inferred that can be |
| Bundle.NormalizeIdempotent | internal/attachment/bundle.go:48-96 | normalising twice changes nothing, and the bundles left alone are exactly the canonical ones |
| Bundle.NormalizeKeepsReferences | internal/attachment/bundle.go:61-74 | a reference moves at most from the url to the payload or path field it belongs to; payload, path and url are otherwise the given ones, trimmed, and a raw payload is the end of its data URL |
| Bundle.NormalizeKeepsFields | internal/attachment/bundle.go:48-95 | a name, type or mime type that was set is not inferred anew, and the other fields are only trimmed |
| Bundle.KindIsRight | internal/attachment/bundle.go:427-454 | a type that is inferred is image, audio or video exactly by the mime type, or without one and without data by the extension, and file otherwise |
| Bundle.NameAndMimeAreRight | internal/attachment/bundle.go:76-88 | an inferred name is the base name of the path or else the url, an inferred mime type that of the data |
| Bundle.MimeCanonical | internal/attachment/normalize.go:30-42 | normalised mime types are lower-case, trimmed and without parameters, and such types stay |
| Bundle.MimeIsFound | internal/attachment/normalize.go:30-42 | a mime type is found whatever its case, the space around it and its parameters |
| Bundle.PayloadCanonical | internal/attachment/normalize.go:120-134 | every payload becomes a data URL, and a data URL stays |
| Bundle.PayloadCarriesMime | internal/attachment/normalize.go:44-134 | the mime type taken from the data URL of a payload is the one it was made with |
| Bundle.DataMimeCanonical | internal/attachment/normalize.go:44-59 | the mime type taken from a data URL is canonical |
| Bundle.ToMap | internal/attachment/bundle.go:133-186 | stores exactly the fields of the normalised bundle that are not empty |
| Bundle.FieldsBack | internal/attachment/bundle.go:109-131 | what a canonical bundle reads back as, field by field |
| Bundle.RoundTrip | internal/attachment/bundle.go:98-186 | storing and reading back yields the normalised bundle iff no number is negative and copying the metadata twice brings it back |
| Bundle.JsonObject.MergeIntoMap | internal/attachment/bundle.go:188-219 | the owned fields are replaced and all others kept |
| Bundle.MergeIsExact | internal/attachment/bundle.go:188-219 | foreign keys are untouched, owned keys are those of the stored bundle, the result reads back as that bundle, and merging again changes nothing |

## Left out

- SentialDetector.Verdict: the overlap is an exact quotient compared with an exact threshold; the rounding of floating point division is not modelled.
- UTF-8: strings are sequences of runes, so invalid encodings and byte offsets do not occur; lengths of stored message content are in bytes.
- ToolLoop: SHA-256 over the serialised input is a function parameter; that different inputs get different hashes is not claimed. The folding of key names is a parameter as well.
- Planner.ParsePlannerOutput: decoding JSON is a function parameter. Objectives, mentions and the fallback planner are not part of this model.
- Outbound: custom chunkers, target ids, the forward field, attachment upload and reference checks, retries of sends, validation of events (its outcome is a parameter) and the recognition of markdown (a parameter).
- OutboundStream.ManagerOutboundStream.Push: mentions dispatched to other bots and closing the stream by the caller are not modelled.
- OutboundStream.ManagerOutboundStream.SendChunkedFinal: retries of a send count as one send.
- OutboundStream.ManagerOutboundStream.FinalReaches: is about a closing message that is reported to have succeeded; when a send fails, a prefix of what there was to send goes out. What an adapter makes of a message is not modelled.
- ConnectionProtocol: loggers, timestamps and error texts of statuses. A sweep that stops connections under the lock is one step. In the interleavings the outer loop of reconcile is any number of ensureConnection calls followed by a sweep; `ConnectionReconcile.Reconcile` is the whole of it, uninterrupted, and its second record of a failure's status is left out.
- EmailProtocol: a receiver that StartReceiving returns as nil, and errors of Stop, which are only logged.
- RedactionTheorems.CertainExactly: assumes that some rune, no star and no space, does not occur in the secret, and that its URL-encoding is the rune itself or neither holds the rune nor occurs in the secret; every unreserved rune that the secret lacks is one (`RedactionTheorems.UnreservedStandsIn`).
- RedactionRegistry: sort.Slice is an insertion sort here; the lock around the registry is not modelled, because every call holds it throughout.
- Compaction: decoding the usage record, building the prompt and the model call (its success is a parameter); rows that arrive between rounds.
- UiStream: the effect of a tool result on a message, and the test for background work, are parameters; of the former it is assumed that id, type, tool call id and progress stay. Lower-casing and trimming of event types is done before an event enters the model.
- Bundle.Normalize: the assignments to fields of a value copy are a composition of functions on values.
- Bundle: lower-casing of runes, base names, extensions and the JSON copy of metadata are parameters; of lower-casing it is assumed that it is idempotent, keeps white space apart, and leaves ASCII runes that are not upper-case letters alone. Floating point numbers in generic objects, asset rewriting, tool input parsing and the media path helpers are not part of this model.
- Pruning of old tool results, the timeline sort, orchestrator engine, stores, access rules, and all database, HTTP, gRPC and logging code.
