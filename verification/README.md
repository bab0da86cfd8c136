# Kinetic SDK: verified models of its protocols

A Dafny 4.11 project that models the parts of the Kinetic SDK where a mistake breaks a
conversation, a workspace or a connection, and proves what they promise for all inputs and
all runs. `dafny verify dfyconfig.toml` checks everything.

## What is modelled

**The tool-call history** (`History`, `ProviderShape`, `Compaction`, `ToolBatch`, `Routing`,
`AgentLoop`, `Rewind`). A provider rejects a history in which a `tool_use` lacks its
`tool_result`, or the reverse. `History.Paired` says this by positions; `History.Scan` reads a
history once and keeps the results still owed, and the two are proved equivalent. The agent
is a class whose methods follow the sequential, asynchronous and thread-pool batch paths, the
confirmation pause with its checkpoint, the resume, compaction and the loop with its mode
escalation. The model, gates, tools, cancellation, human verdicts, completion order and slot
releases are unconstrained. `AgentLoop.Session` is the main result: from any sound loaded
conversation, over any number of runs, pauses and resumes by differently configured agents,
every request is the rendering of the history at that moment in OpenAI shape, message by message,
and every request and every saved history is paired.

**The unified-diff engine** (`TextLines`, `PatchApply`, `PatchNewlines`, `PatchParse`,
`PatchPrint`, `PatchReparse`, `PatchTool`). In-place application with a running offset equals
the simultaneous splice; applying a diff and its reverse restores the file exactly when the
newline style survives; print, with any of the lines diff tools add, and parse are inverse exactly
when no removed line begins with `-- `; the multi-file tool is all or nothing.

**Graph traversals** (`ImportGraph`, `ImportOrder`, `FallbackChain`). Both are proved against
reachability by chains of edges, on cyclic graphs too, with the exact order of what they list.

**The MCP client and server** (`McpProtocol`, `McpSession`) over two FIFO channels, with
timeouts, late answers, unsolicited server messages and retried handshakes (JSON-RPC 2.0,
sections 4 and 5; the Lifecycle section of MCP revision 2025-03-26).

**Streamed answers** (`StreamAssembly`), **WebSocket frames** (`WebSocketFrame`, sections 5.2
and 5.3 of RFC 6455) and **the rate limiter** (`RateLimiter`, section 4 of RFC 6585 and section
10.2.3 of RFC 9110).

## Where the code does not keep a plain promise

Each has a member at a concrete input and a lemma with the exact condition under which the
promise holds.

- Compaction can start inside a group of results when a later turn reuses the ids of an earlier
  one: `Compaction.ReusedIdsSplitAGroup`; the exact condition is `Compaction.CutWellFormedIff`,
  and distinct ids guarantee it (`Compaction.ClosedTailStartsOutside`).
- `rewind_state` documents every tool result as a valid boundary, but accepts a cut between two
  results of one turn: `Rewind.RewindSplitsAGroup`, `Rewind.RewindWellFormedIff`.
- The asynchronous sequential suffix loses a sibling call when a waiting call is followed by one
  with the same id: `ToolBatch.EchoIsLost`, `ToolBatch.DroppedSuffixExactIff`.
- A routed FLASH run can exhaust its cap exactly when it is given three or more structured
  retries: `Routing.StuckInFlash`, `Routing.FlashExhaustionIff`.
- A diff that removes every CR LF of a file is not undone by its reverse:
  `PatchNewlines.LostStyleExample`, `PatchNewlines.ReverseRestoresTextIff`.
- `transitive_importers_of` documents "distance then name"; at one distance the code lists by the
  place of the first listed module imported, then by name: `ImportOrder.SearchOfCrossing`. It is
  name order exactly when the parents agree with it: `ImportOrder.NamesInOrderIff`.
- Streamed calls without an index are merged: `StreamAssembly.MissingIndexesMerge`,
  `StreamAssembly.WholeCallsComeBackIff`.
- Empty argument text is read as `{}` when streamed and as `{"_raw": ""}` when not:
  `StreamAssembly.EmptyArgumentsDiffer`, `StreamAssembly.StreamRebuildsAnswerIff`.
- Token counters in a final chunk without a choice are lost:
  `StreamAssembly.CountersWithoutChoiceAreLost`, `StreamAssembly.FinalCountersKeptIff`.
- An empty masked frame is delivered even when its key is cut off:
  `WebSocketFrame.CutOffKeyIsDelivered`, `WebSocketFrame.DeliveredWholeIff`.
- A closed sixty-second window may hold one request more than the limit:
  `RateLimiter.ClosedWindowMayHoldMore`; `RateLimiter.WindowIsRespectedIff` says which sets of
  instants respect it.

## Assumptions

- Call ids are non-empty and new to the conversation; `max_messages` is `None`; policies and hooks
  do not raise. A conversation is loaded sound: paired, with distinct non-empty call ids, calls in
  assistant turns and results in user turns; image turns and turns with several results included.
- The outcome of an executed tool is what remains after its timeouts, exceptions and transient
  retries; the capacity error carries no failure category, so it is never retried.
- JSON text, UTF-8, JSON parsing, token estimates, head/tail text compression and summaries are
  function parameters or decoded values. Clock values are real numbers that never decrease.
- A blocking `read(n)` is short only at the end of the stream. A failed write leaves its file
  unchanged and distinct path strings name distinct files.
- Digits in hunk headers are ASCII digits; the `\d` of the source also accepts other Unicode digits.

## Model

| member | source | states |
|---|---|---|
| History.ScanDecidesPairing | kinetic_sdk/llm/client.py:319-367 | one pass over the tokens accepts a history exactly when every call turn is followed by its results, in order, and no result is unclaimed |
| History.AfterConcat | kinetic_sdk/conversation/state.py:45-110 | what is owed after appending messages is what the appended messages make of what was owed before |
| ProviderShape.TranslateMessages | kinetic_sdk/llm/client.py:319-367 | the request is the system prompt, if there is one, and then every message in order, each rendered field by field; its tokens are the stored ones and it is paired exactly when the history is |
| ProviderShape.TranslationRenders | kinetic_sdk/llm/client.py:319-438 | one message: the k-th call sent has the id, name and arguments of the k-th call block, the k-th tool turn the id and output of the k-th result block, texts are joined in order, images become data URLs |
| ProviderShape.PositionsAre | kinetic_sdk/llm/client.py:337-415 | the k-th block of a kind: positions are ascending and exactly those of that kind |
| ProviderShape.TranslationKeepsTokens | kinetic_sdk/llm/client.py:319-427 | splitting results into tool turns and merging text never changes which calls and results the provider sees |
| ProviderShape.TranslationKeepsPairing | kinetic_sdk/llm/client.py:319-427 | the translated request is paired if and only if the stored history is |
| Compaction.ExpandToGroupBoundary | kinetic_sdk/context/manager.py:650-673 | the walk with grown id sets returns the greatest closed start at or before the anchor, or 0 |
| Compaction.FindAnchor | kinetic_sdk/context/manager.py:610-647 | the anchor is the oldest of the longest run of newest results, at most `keepLast` of them, that fits the token budget if there is one; without any it is the last message |
| Compaction.AnchorMeaning | kinetic_sdk/context/manager.py:610-647 | the recursive selection is that longest run: one more result would exceed the count, the results or the budget |
| Compaction.ResultIndicesAre | kinetic_sdk/context/manager.py:621-623 | the candidates are exactly the messages with a tool result, oldest first |
| Compaction.FindTailStart | kinetic_sdk/context/manager.py:610-648 | the tail starts at the greatest closed position before the anchor, or 0; with nothing to protect it is empty |
| Compaction.TruncateOversized | kinetic_sdk/context/manager.py:677-728 | exactly the results longer than the limit are compressed, with their id and error flag kept; every other block stays |
| Compaction.ReduceToBudget | kinetic_sdk/context/manager.py:730-760 | the oldest outputs are shortened, each by what is still in excess but not below 100, newer ones stay whole, the pass stops as soon as the outputs fit; ids and order stay |
| Compaction.Compact | kinetic_sdk/context/manager.py:553-607 | the result differs from the history, or from the history cut up to its protected tail, only in trimmed output texts; with the output budget met the cut is always made |
| Compaction.CompactionIsSafe | kinetic_sdk/context/manager.py:553-607 | a compaction that removes any message leaves no result block without its call block, even from a corrupted history; a well-formed history with distinct ids stays well formed; boundary 0 removes nothing |
| Compaction.NoOrphansMeans | kinetic_sdk/context/manager.py:135-160 | orphan freedom by id sets is: every result block with an id has a call block with that id |
| Compaction.CutKeepsTask | kinetic_sdk/context/manager.py:575-600 | a first message without tool blocks survives every cut, then come the note and the whole tail, and nothing else |
| Compaction.SameShapeKeepsAll | kinetic_sdk/context/manager.py:677-728 | trimming keeps well-formedness, ids, orphan-freedom and message shapes |
| Compaction.CutLeavesNoOrphans | kinetic_sdk/context/manager.py:553-608 | a closed cut of any history, corrupted ones included, leaves no result without its call |
| Compaction.CutWellFormedIff | kinetic_sdk/context/manager.py:553-608 | a cut of a well-formed history is well formed exactly when the first kept message is not a tool result |
| Compaction.ClosedTailStartsOutside | kinetic_sdk/context/manager.py:650-675 | with distinct ids a closed tail never starts inside a group |
| Compaction.CutKeepsWellFormed | kinetic_sdk/context/manager.py:553-608 | cutting at a closed tail keeps a well-formed history with distinct ids well formed |
| Compaction.ReusedIdsSplitAGroup | kinetic_sdk/context/manager.py:610-675 | a well-formed history with reused ids for which the computed tail splits a group |
| Rewind.RewindWellFormedIff | kinetic_sdk/conversation/checkpoint.py:49-74 | no good cut is refused, and an accepted cut is well formed exactly when the first dropped message is not a tool result |
| Rewind.RewindSplitsAGroup | kinetic_sdk/conversation/checkpoint.py:59-68 | a well-formed history and an accepted cut that is not |
| ToolBatch.PauseCoversBatch | kinetic_sdk/agent/agent.py:1139-1213 | at a pause the recorded results are those of a prefix and the stored suffix names exactly the rest of the batch |
| ToolBatch.BatchIsAnsweredOnce | kinetic_sdk/agent/agent.py:1668-1694 | for every batch of distinct ids, every fate of its calls and any agents resuming, results are appended once each in order |
| ToolBatch.KeptSuffixAlwaysExact | kinetic_sdk/agent/agent.py:1139-1173 | storing the pending call in the suffix answers the whole batch even when ids repeat, whatever happens at each position |
| ToolBatch.DroppedSuffixExactIff | kinetic_sdk/agent/async_agent.py:999-1025 | storing only the later calls answers the whole batch exactly when no waiting call is followed by one with its id |
| ToolBatch.EchoIsLost | kinetic_sdk/agent/async_agent.py:999-1025 | two calls that look the same, the first waiting: the dropped suffix loses a result, the kept one does not |
| ToolBatch.PoolHasRoom | kinetic_sdk/agent/agent.py:1215-1270 | with a free slot per executable call the pool changes no outcome, whatever is released when |
| ToolBatch.PoolMatchesSequentialIff | kinetic_sdk/agent/agent.py:1215-1270 | the pool leaves the sequential history under every release schedule exactly when the executable calls fit the free slots |
| ToolBatch.AnswersPayDebt | kinetic_sdk/conversation/state.py:91-110 | appending results in call order pays exactly the first results owed |
| ToolBatch.AnswersTell | kinetic_sdk/conversation/state.py:91-110 | each stored result has the id of its call and the output and error flag of its outcome; a skipped call and one without a free slot are errors |
| Routing.LoopIsBounded | kinetic_sdk/agent/agent.py:666-807 | every entry to the loop has at most 50 turns, or the pinned number, and escalates at most once |
| Routing.FlashExhaustionIff | kinetic_sdk/agent/structured.py:38 | a routed FLASH run can exhaust its cap in FLASH if and only if it has three or more structured retries |
| Routing.StuckInFlash | kinetic_sdk/agent/structured.py:38 | two quiet tool rounds and three rejected answers use up the FLASH cap |
| Routing.RunKeepsInv | kinetic_sdk/agent/agent.py:798-808 | cap, mode and escalation agree at every turn, and in FLASH the iteration is at most two plus the retries used |
| Routing.EscalatesIff | kinetic_sdk/agent/agent.py:798-808 | a loop that starts in FLASH is in MAX exactly when its first turn failed or some round other than a structured retry was its third or later |
| Routing.RetriesAreBounded | kinetic_sdk/agent/agent.py:731-760 | structured and verifier retries are given at most as often as allowed |
| Routing.StartsInFlashIff | kinetic_sdk/agent/agent.py:581-616 | a run starts in FLASH exactly when it is classified FLASH and no earlier run was classified MAX or escalated |
| Routing.OutageDoesNotPin | kinetic_sdk/agent/agent.py:341-345 | a run sent to MAX by a classifier outage may be followed by one in FLASH |
| AgentLoop.AssistantTokens | kinetic_sdk/conversation/state.py:75-89 | an assistant turn owes the results of its calls, in order, and a text turn owes nothing |
| AgentLoop.AssistantStoresReply | kinetic_sdk/agent/agent.py:1119-1137 | the stored reply is its text, if any, and then its calls with id, name and arguments, in order |
| AgentLoop.CallsOpenBatch | kinetic_sdk/agent/agent.py:720-720 | storing a reply with fresh ids opens a batch on a sound history |
| AgentLoop.OpenCallsDistinct | kinetic_sdk/agent/agent.py:1139-1173 | the calls of an open batch have distinct ids |
| AgentLoop.SuffixResumes | kinetic_sdk/agent/agent.py:1668-1694 | both stored suffixes stand for the same unresolved calls |
| AgentLoop.Agent.ExecuteSequential | kinetic_sdk/agent/agent.py:1139-1173 | appends the results up to the first call that waits for a human, stores the pause and checkpoints it; the error flag is exact |
| AgentLoop.Agent.RecordInOrder | kinetic_sdk/agent/agent.py:1257-1270 | gated and executed results are recorded once each in call order, and the flag says whether a stored one is an error |
| AgentLoop.Agent.Gather | kinetic_sdk/agent/async_agent.py:1067-1108 | whatever the completion order, every waiting call ends with its own result |
| AgentLoop.Agent.SubmitToPool | kinetic_sdk/agent/agent.py:1215-1245 | each submission gets its result or, without a free slot, the capacity error |
| AgentLoop.Agent.GatherAndRecord | kinetic_sdk/agent/async_agent.py:1067-1108 | asynchronous dispatch leaves the history and error flag of the sequential path |
| AgentLoop.Agent.PoolAndRecord | kinetic_sdk/agent/agent.py:1215-1270 | the pool leaves the sequential history with capacity errors filled in, and the sequential error flag when there is room |
| AgentLoop.Agent.ExecuteParallel | kinetic_sdk/agent/agent.py:1175-1213 | gating stops at the first call that waits for a human, but what passed is dispatched and recorded before the pause |
| AgentLoop.Agent.ExecuteToolCalls | kinetic_sdk/agent/agent.py:1139-1213 | every path stops at the same call; each stored result tells the output and error flag of its fate, or that the pool was full; with room all paths leave the same history; the flag says whether a stored result is an error |
| AgentLoop.Agent.RunBatch | kinetic_sdk/agent/agent.py:1139-1213 | an owed batch is answered completely, or paused with exactly the rest owed and checkpointed |
| AgentLoop.Agent.AnswerPending | kinetic_sdk/agent/agent.py:1668-1691 | the verdict answers the pending call and leaves the trailing calls owed |
| AgentLoop.Agent.ResolvePendingConfirmation | kinetic_sdk/agent/agent.py:1668-1694 | the resume answers the pending call and the batch up to the next pause; only a finished batch is saved |
| AgentLoop.Agent.constructor | kinetic_sdk/agent/agent.py:331-345 | an agent on any sound loaded conversation is valid, in MAX, with its default or pinned cap |
| AgentLoop.Agent.Restore | kinetic_sdk/agent/agent.py:1640-1666 | an agent rebuilt from a checkpoint has exactly the checkpointed state, the flag that keeps MAX included |
| AgentLoop.SaveAndRestore | kinetic_sdk/replay/checkpoint.py:59-99 | saving an agent and resuming it with another setup keeps history, pending and remaining calls, mode, cap and flag, and is valid again |
| AgentLoop.Agent.MaybeCompactContext | kinetic_sdk/agent/agent.py:834-857 | the history stays sound and is the old one, possibly compacted |
| AgentLoop.Agent.CallModel | kinetic_sdk/agent/agent.py:859-899 | exactly one request is added: the field-by-field rendering of the current history and system prompt, and paired |
| AgentLoop.Agent.AddAssistant | kinetic_sdk/agent/agent.py:720-720 | exactly the reply is appended, field by field; without calls the history stays sound, with calls their batch is open |
| AgentLoop.Agent.ToolRound | kinetic_sdk/agent/agent.py:765-766 | a finished batch has appended one result per call in order and is saved once; a paused one is valid, pending and not saved; the flag says whether a stored result is an error |
| AgentLoop.Agent.Escalate | kinetic_sdk/agent/agent.py:555-577 | only FLASH escalates, once, sets the flag that keeps MAX and raises an unpinned cap to 50 |
| AgentLoop.Agent.MaybeEscalate | kinetic_sdk/agent/agent.py:798-808 | the fields follow the pure routing model |
| AgentLoop.Agent.HandleAnswer | kinetic_sdk/agent/agent.py:731-763 | an accepted answer is saved once and changes nothing else; otherwise one user turn is appended and the retry is allowed by the routing model |
| AgentLoop.Agent.HandleCalls | kinetic_sdk/agent/agent.py:765-787 | the results of the calls follow the reply and are saved; the loop goes on with a turn whose error flag is that of the stored results, or stops |
| AgentLoop.Agent.LoopTurn | kinetic_sdk/agent/agent.py:684-787 | at most one request, made from the current history, possibly compacted, which the stored history then extends; ends in a stop on a valid agent or in an allowed turn of the routing model |
| AgentLoop.Agent.RunLoop | kinetic_sdk/agent/agent.py:666-796 | the loop ends; the first request is made from the starting history and each later one from the history of the one before it; all are paired renderings and all saved histories well formed; its turns are a run of the routing model, at most 50 requests without a pinned cap, and with at most two retries the cap is never reached in FLASH |
| AgentLoop.Agent.StartRun | kinetic_sdk/agent/agent.py:476-515 | the user turn is appended as given, the mode and the flag that keeps MAX follow the routing |
| AgentLoop.Agent.Run | kinetic_sdk/agent/agent.py:476-528 | a run from an idle agent ends idle, or pending with its checkpoint saved; its requests start from the old history and the user turn; it ends in FLASH only if classified so with the flag unset, and the flag records exactly classified or escalated MAX |
| AgentLoop.AnswerBatch | kinetic_sdk/replay/checkpoint.py:132-147 | for every setup and every state of its pool, a batch driven through all its pauses by freshly restored agents extends the old history by one result per call, in order, each telling its outcome or that the pool was full; with room in the pools these are exactly the outcomes |
| AgentLoop.StartBatch | kinetic_sdk/agent/agent.py:1139-1213 | the batch up to its first pause answers a prefix of the calls and leaves exactly the rest owed |
| AgentLoop.ResumeOnce | kinetic_sdk/replay/checkpoint.py:69-99 | one resume from the stored checkpoint answers at least one owed call and keeps the rest owed |
| AgentLoop.Session | kinetic_sdk/agent/agent.py:666-796 | from any sound conversation, over any sequence of runs, pauses and resumes, every request is the message-by-message rendering of the history it was made from and paired on the wire, and every saved history is paired |
| TextLines.JoinSplit | kinetic_sdk/files/patch.py:260-266 | joining the lines of a text gives the text |
| TextLines.SplitJoin | kinetic_sdk/files/patch.py:260-266 | splitting joined proper lines gives the lines |
| TextLines.SplitsExactlyAt | kinetic_sdk/files/patch.py:191-191 | exactly ten characters end a line |
| PatchApply.PlaceMeaning | kinetic_sdk/files/patch.py:278-291 | a hunk goes to its stated place if it matches there, otherwise to the only match within 20 lines; none and several are the two errors |
| PatchApply.OutsideIsRefused | kinetic_sdk/files/patch.py:268-270 | a stated place outside the file is its own error, and only that |
| PatchApply.FindPlace | kinetic_sdk/files/patch.py:278-291 | the candidate loop computes that place |
| PatchApply.ApplyFilePatch | kinetic_sdk/files/patch.py:259-294 | the in-place loop with the running offset computes the recursive application |
| PatchApply.ChangeIsApplied | kinetic_sdk/files/patch.py:259-294 | a hunk of context, removed and added lines replaces exactly those lines at its line number, counted from 1; one that removes and keeps nothing inserts after the line it names |
| PatchApply.ApplyIsSplice | kinetic_sdk/files/patch.py:259-294 | ordered, disjoint, matching hunks are never relocated and equal the simultaneous splice into the original |
| PatchApply.RelocationCarries | kinetic_sdk/files/patch.py:276-293 | when a file has drifted and the first hunk is found there, the other hunks follow it |
| PatchApply.ReverseRestoresLines | kinetic_sdk/files/patch.py:259-294 | applying a consistent diff and then its reverse restores the lines, zero counts included |
| PatchApply.ReverseTwice | kinetic_sdk/files/patch.py:259-294 | reversing a diff twice gives it back |
| PatchNewlines.ReverseRestoresTextIff | kinetic_sdk/files/patch.py:259-275 | applying a diff and then its reverse restores the text exactly when both texts have the same newline style |
| PatchNewlines.StyleOnlyDegrades | kinetic_sdk/files/patch.py:259-275 | a file without CR LF never gains one |
| PatchNewlines.LostCrLfIsNotRestored | kinetic_sdk/files/patch.py:259-275 | a diff that removed every CR LF is not undone by its reverse |
| PatchNewlines.LostStyleExample | kinetic_sdk/files/patch.py:259-275 | a one-line CR LF file shows it |
| PatchParse.ReadBody | kinetic_sdk/files/patch.py:220-247 | the body loop computes the recursive body parser and its rest |
| PatchParse.ReadHunks | kinetic_sdk/files/patch.py:210-253 | the hunk loop computes the recursive hunk parser, its rest and its errors |
| PatchParse.ParsePatch | kinetic_sdk/files/patch.py:187-257 | the index loop computes the recursive parser, every error included |
| PatchPrint.PrintParseIff | kinetic_sdk/files/patch.py:178-257 | legal file patches printed with any preamble lines, time stamps, hunk headings, brief counts and bare or prefixed paths parse back exactly when no removed line begins with `-- `; otherwise the text is rejected |
| PatchPrint.DressingIsIgnored | kinetic_sdk/files/patch.py:196-214 | such dressing changes nothing about what is parsed |
| PatchPrint.RenamesAreRefused | kinetic_sdk/files/patch.py:206-207 | a header pair with two different paths is refused |
| PatchPrint.NullIsRefused | kinetic_sdk/files/patch.py:178-185 | `/dev/null` is no path, so nothing is created or deleted |
| PatchPrint.StrayLinesAreRefused | kinetic_sdk/files/patch.py:199-200 | any other line before a file header is refused |
| PatchPrint.StrayMarkerIsRefused | kinetic_sdk/files/patch.py:228-230 | a missing-newline marker without a line before it is refused |
| PatchReparse.ReparseIsStable | kinetic_sdk/files/patch.py:178-257 | every accepted patch is legal and survives print and parse |
| PatchTool.ReadyIff | kinetic_sdk/files/patch.py:121-142 | the dry run succeeds exactly when every touched path is inside, exists and its sections apply one after the other |
| PatchTool.PreparedPlan | kinetic_sdk/files/patch.py:121-142 | the planned content of a path is all its sections applied in order to the original |
| PatchTool.ApplyPatchTool.DryRun | kinetic_sdk/files/patch.py:121-142 | the dry run writes nothing and computes the plan |
| PatchTool.ApplyPatchTool.WriteAll | kinetic_sdk/files/patch.py:144-176 | all targets are written and remembered for undo, or the writes are rolled back |
| PatchTool.ApplyPatchTool.Rollback | kinetic_sdk/files/patch.py:155-171 | exactly the paths whose rollback write failed keep their new content |
| PatchTool.ApplyPatchTool.Execute | kinetic_sdk/files/patch.py:112-176 | all or nothing: every patched file, or the starting workspace except for reported rollback failures; refused exactly for a path that cannot be patched, rolled back only after a failed write; the files reported are the touched ones and exactly they can be undone |
| ImportGraph.WithinIsReachability | kinetic_sdk/codemap/models.py:77-93 | level sets are reachability by import chains of bounded length |
| ImportGraph.ImportersSorted | kinetic_sdk/codemap/models.py:68-70 | direct importers come sorted by name |
| ImportGraph.TransitiveImporters | kinetic_sdk/codemap/models.py:77-93 | exactly the other modules that reach the start within the cap, no repeats, nearer first, then by the place of the first listed module they import, then by name; on cyclic graphs too |
| ImportGraph.HopDepths | kinetic_sdk/codemap/tool.py:81-88 | the depth map is defined on exactly the modules that reach the start and holds their shortest distance |
| ImportGraph.ImpactOf | kinetic_sdk/codemap/tool.py:80-92 | every listed module has a hop, which is its distance, at least 1 and never above the cap |
| ImportOrder.NamesInOrderIff | kinetic_sdk/codemap/models.py:77-93 | the documented order by distance and name holds exactly when, of two modules at one distance, the first by name has the first parent by name |
| ImportOrder.SearchOfCrossing | kinetic_sdk/codemap/models.py:77-93 | a graph on which the search returns p, q, z, a, with z and a at the same distance |
| FallbackChain.ResolveNames | kinetic_sdk/llm/registry.py:134-144 | the stack loop terminates on cyclic graphs and computes the resolution |
| FallbackChain.LoopIsPreorder | kinetic_sdk/llm/registry.py:134-144 | the stack loop is the recursive depth-first preorder |
| FallbackChain.ResolvedAreReachable | kinetic_sdk/llm/registry.py:134-144 | each reachable profile is listed exactly once; it fails exactly when a reachable name is unknown |
| FallbackChain.FirstChainIsPrefix | kinetic_sdk/llm/registry.py:134-144 | the chain of the first candidate is a prefix of the full chain |
| FallbackChain.Chat | kinetic_sdk/llm/registry.py:146-159 | profiles are tried in order, each at most once, until an answer or a fatal error; if all fail the last error is raised |
| McpProtocol.DecodeEncodeIff | kinetic_sdk/mcp/protocol.py:46-218 | decoding an encoded message gives it back exactly for encodable messages |
| McpProtocol.DecodedIsEncodable | kinetic_sdk/mcp/protocol.py:143-218 | every accepted object can be sent again with the same meaning |
| McpProtocol.DecodeMeans | kinetic_sdk/mcp/protocol.py:143-218 | an object is accepted as a message exactly when it carries its fields and the message may be sent; everything else is malformed |
| McpSession.Server.HandleMessage | kinetic_sdk/mcp/server.py:108-180 | a request gets exactly one response with its id, a notification none; tools requests are answered only when ready and refused with -32002 otherwise; the replies to initialize, ping and unknown methods and every change of state |
| McpSession.ReadyIffHandshake | kinetic_sdk/mcp/server.py:133-171 | over every sequence of messages a server is ready exactly when initialized has followed the last initialize that named a version |
| McpSession.ClientObject.RequestLoop | kinetic_sdk/mcp/client.py:203-237 | a fresh id is used and the loop decides on the first response, or at the deadline |
| McpSession.ClientObject.InitializeSession | kinetic_sdk/mcp/client.py:111-144 | a second call sends nothing; the notification follows only a successful answer |
| McpSession.LoopIsReceives | kinetic_sdk/mcp/client.py:203-237 | the receive loop is a run of the two-party machine with the same outcome and messages consumed |
| McpSession.StepKeepsInv | kinetic_sdk/mcp/client.py:203-237 | every action of either party keeps the session invariant |
| McpSession.RequestsArePaired | kinetic_sdk/mcp/client.py:203-237 | in every run a returned value is the server's answer to that very request; a request is paired exactly when neither it nor an earlier one timed out; every other arrival is an older id |
| McpSession.NoReturnAfterTimeout | kinetic_sdk/mcp/client.py:224-229 | after one timeout no later request of the session returns |
| McpSession.ToolsOnlyWhenReady | kinetic_sdk/mcp/server.py:133-171 | in every run, failed and retried handshakes included, the server is ready for each tools request it takes and never answers -32002 |
| McpSession.AnswersAreFinal | kinetic_sdk/mcp/protocol.py:220-237 | ids are never reused, so an answer never changes |
| StreamAssembly.ChatStream | kinetic_sdk/llm/client.py:579-656 | the loops emit the text deltas and one done event with the assembled answer, its stop reason and its token counters |
| StreamAssembly.StopReasons | kinetic_sdk/llm/client.py:503-516 | the stop reasons, and every other one unchanged |
| StreamAssembly.OnlyRelevantCounts | kinetic_sdk/llm/client.py:607-624 | chunks without a choice and entries without a function change nothing |
| StreamAssembly.TextsAreCarried | kinetic_sdk/llm/client.py:615-619 | no text is lost or reordered |
| StreamAssembly.EntriesAreCarried | kinetic_sdk/llm/client.py:620-638 | no entry is lost or reordered |
| StreamAssembly.MissingIndexIsZero | kinetic_sdk/llm/client.py:625-629 | an entry without an index belongs to the call at index 0 |
| StreamAssembly.SlotsByIndex | kinetic_sdk/llm/client.py:620-638 | a slot is the fold of the fragments of its index, wherever they stood in the stream |
| StreamAssembly.CallComesBack | kinetic_sdk/llm/client.py:658-670 | however it was cut a call comes back whole, empty argument text aside |
| StreamAssembly.StreamRebuildsAnswerIff | kinetic_sdk/llm/client.py:594-670 | for every cutting and interleaving the streamed answer is the one that is not streamed, exactly when no call has empty argument text |
| StreamAssembly.EmptyArgumentsDiffer | kinetic_sdk/llm/client.py:658-670 | one chunk with a call of empty argument text shows the difference |
| StreamAssembly.WholeCallsComeBackIff | kinetic_sdk/llm/client.py:621-648 | whole calls come back with id, name and arguments, all and in order, exactly when their indexes ascend, a missing one counting as 0 |
| StreamAssembly.MissingIndexesMerge | kinetic_sdk/llm/client.py:625-629 | two whole calls without an index are merged |
| StreamAssembly.FinalCountersKeptIff | kinetic_sdk/llm/client.py:606-643 | counters reported only by the last chunk are kept exactly when it has a choice or reports nothing |
| StreamAssembly.CountersWithoutChoiceAreLost | kinetic_sdk/llm/client.py:606-613 | a chunk with counters and no choice loses them |
| WebSocketFrame.MaskTwice | kinetic_sdk/server/app.py:612-613 | masking with a cyclic key is its own inverse |
| WebSocketFrame.MaskIsBitwise | kinetic_sdk/server/app.py:612-613 | every bit of a masked byte is the bit of the data, flipped by the bit of the key used cyclically |
| WebSocketFrame.Connection.ReceiveFrame | kinetic_sdk/server/app.py:593-614 | the reads compute the frame parser and consume what it consumes |
| WebSocketFrame.Connection.SendFrame | kinetic_sdk/server/app.py:616-627 | the bytes sent are one unmasked frame in the shortest length form |
| WebSocketFrame.MinimalIsShortest | kinetic_sdk/server/app.py:618-623 | no other length form that fits is shorter than the one sent |
| WebSocketFrame.FrameArrives | kinetic_sdk/server/app.py:593-627 | a frame, plain or masked with any key, in any length form that fits, delivers exactly its payload and consumes exactly itself |
| WebSocketFrame.FramesArriveInOrder | kinetic_sdk/server/app.py:593-627 | frames sent back to back are received one by one with nothing left over |
| WebSocketFrame.DeliveredIsAFrame | kinetic_sdk/server/app.py:593-614 | whatever delivers a payload starts with a frame of it, except an empty masked frame with a cut-off key |
| WebSocketFrame.DeliveredWholeIff | kinetic_sdk/server/app.py:593-614 | a stream that delivers a payload starts with a whole frame exactly when its key is not cut off |
| WebSocketFrame.CutOffKeyIsDelivered | kinetic_sdk/server/app.py:606-611 | two bytes that deliver an empty payload and start with no whole frame |
| WebSocketFrame.NotDelivered | kinetic_sdk/server/app.py:593-611 | an empty stream, another opcode and a cut length, what each gives and what is left |
| WebSocketFrame.CutFrameIsNotDelivered | kinetic_sdk/server/app.py:607-611 | a frame with a payload that is cut after its length delivers nothing |
| RateLimiter.Limiter.AllowRequest | kinetic_sdk/server/app.py:199-211 | the queue loop computes the pruned queue, the verdict and the seconds to wait |
| RateLimiter.AtMostLimitPerWindow | kinetic_sdk/server/app.py:199-211 | over every run no half-open sixty-second window admits more than the limit per client |
| RateLimiter.WindowIsRespectedIff | kinetic_sdk/server/app.py:199-211 | for every limit, client and set of instants, all runs respect the limit in it exactly when any two of its instants are less than sixty seconds apart |
| RateLimiter.AdmittedIffRoom | kinetic_sdk/server/app.py:199-211 | a request is admitted exactly when fewer than the limit were admitted in the sixty seconds before it |
| RateLimiter.RetryAfterIsRight | kinetic_sdk/server/app.py:206-209 | a rejected client that waits the advertised time with no other request is admitted, and is rejected when it comes more than a second too early |
| RateLimiter.ClosedWindowMayHoldMore | kinetic_sdk/server/app.py:205-210 | with a limit of one, requests at both ends of a closed window are admitted |

## Left out

- Compaction.ReduceToBudget: claims no length for a compressed output, because the truncation marker is added on top of the target.
- AgentLoop.Agent.MaybeCompactContext: when to compact is arbitrary, and compaction metadata is not part of the state.
- AgentLoop.Agent.CallModel: the reply is arbitrary apart from fresh call ids; streaming of the reply to observers is not part of it.
- AgentLoop.Agent.HandleAnswer: schema checks, verifier verdicts and the text of the feedback are arbitrary.
- AgentLoop.Agent.Run: the classifier's verdict is a parameter; hooks, events, plans, memory and budgets are reduced to arbitrary stops.
- AgentLoop.Agent.Restore: does not model redaction of checkpointed arguments or the replay store's file format.
- ProviderShape.TranslateMessages: does not carry the error flag of a result, which the OpenAI shape has no place for.
- McpSession.Server.HandleMessage: what a tools handler computes, its policy and its audit log are an arbitrary answer.
- WebSocketFrame.Connection.ReceiveFrame: returns payload bytes; UTF-8 decoding is not part of this model.
- LLM providers, HTTP, subprocess, Docker, git, browser, CLI and file systems: foreign calls.
- A finite `max_messages` cap on the conversation, which pops messages regardless of pairing.
- The summarising and hierarchical context managers beyond the shared cut, and head/tail text compression itself.
- Locks and owners of the patch tool; concurrent writers of a workspace.
- Server sessions, run history and concurrency slots.
- Plugin and skill scanning, secrets, policies, audit, metrics, memory ranking, profiles and evaluation: lists, floats or thin wrappers with easy properties.
- Wall-clock time, sleeping and thread mechanics: steps are atomic and interleaved arbitrarily.
