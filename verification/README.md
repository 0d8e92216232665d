# Agent substrate: verified models

This project models the parts of the agent substrate where a mistake would be hardest to
see, and proves what they are for. `dafny verify dfyconfig.toml` covers all of it.

**The agent loop** (`Common`, `Conversation`, `Compaction`, `CompactionTheorems`,
`CompactionLimits`, `Transcripts`, `AgentLoop`, `RepeatGuard`, `RunState`, `Accounts`,
`Executor`). `Compaction` gives context compaction as functions on a message list,
`Transcripts` the same in place as the loop does it, and proves both equal;
`CompactionLimits` says when it starts and where it stops, in terms of the text on the
wire. `Accounts` says what a budget holds in terms of what the backend reported.
`Executor` is one run: operator input, compaction,
the chat call with its retries and safety net, accounting, tool dispatch, guards,
self-check. The language model, the tools, the operator, the clock and the abort signal
are one arbitrary oracle, so everything holds for every behaviour of theirs. What holds at
all times is put into the types of the run's fields: a `Ledger` is numbered, adds up and
has one trace for each answer, a `CallGuard` refines its call history and respects its
limits, a `Mailbox` has every delivered operator text exactly once, `Chats` are all well
formed. The predicate `Consistent` links them over a whole run: the ledger books exactly
the answered requests, the guard comes from exactly the calls of those answers, the mail
from one poll a turn. The central result ties compaction, retry and accounting together: a
run is refused for its context only when compaction has nothing left to remove.

**Durable workflows** (`Workflow`, `ConcurrentSteps`). Author code is any function from
what it has heard so far to what it does next. A crash at any commit followed by a replay
is shown to be the uninterrupted run, step by step, for every number of steps, finite or
not, and with distinct step names to be `Plain`, the same code without any journal.
`ConcurrentSteps` treats steps started together as interleaved issues and commits.

**Blackboard append** (`Blackboard`). Any number of appenders over a store with growing
revisions: linearization, bounded progress with its exact bound, and the handler's loop
against interfering writers.

**Check publication** (`Json`, `JsonTokens`, `JsonGrammar`, `JsonTexts`, `JsonKeys`,
`JsonTheorems`, `JsonReader`). The structural reader of RFC 8259 text as functions on what
is left to read, the same with a cursor and loops, the grammar of the texts it accepts and
what their keys mean, the numeric projection, and the round trip between them.

**Result store** (`CasUri`, `ResultStore`, `ResultStoreTask`). `retain` and `resolve` are
split where they await; every interleaving of the pieces is a run of the model. Of the
hash only this is assumed: 64 digits, and no collision within a finite corpus that holds
every text that occurs.

**Small protocols** (`Status`, `ToolClaims`, `OperatorInput`). The guarded status write
(JSON Patch, sections 4.1, 4.6 and 5 of RFC 6902), the late claims of tool names, and the
operator-input cursor.

Where the code does something other than its own comments say, the model follows the code:

- A replayed timeout carries the step name it was awaited under, while the first one
  carries whatever name the effect put into it (`in-memory-runtime.ts:332-347`; the test at
  `crash-recovery.test.ts:258-290` uses the same name for both). `ReplayRightExactly`
  states the exact condition, and `ProbeTells` a workflow that sees the difference.
- An invocation whose code threw is not marked completed and can be replayed
  (`in-memory-runtime.ts:378-391`), although the field's comment says otherwise.
- A blackboard value that does not decode reads as absent, but `create` still finds the
  key there, so no append to it can ever succeed (`CorruptBlocks`).
- An empty array at depth exactly 100 is projected to an object that is one level too deep
  to be read again (`ProjectionReadsBack` says exactly when).
- `writeStatus` tries `Dispatched` and then `Pending`; a promotion in between makes it fail on a
  phase that is not terminal (`RejectedExactly` says exactly when a call can be refused).
- The comment on the protection of recent exchanges speaks of the newest results and the calls
  that made them. Protection starts one message before the sixth newest result, so the message
  that made its call is protected exactly if the result directly follows it (`MakerProtected`);
  otherwise its arguments can be stubbed although the result is kept (`SomeMakerStubbed`).

## Model

| member | source | states |
|---|---|---|
| CompactionTheorems.CompactedThins | packages/agent-loop/src/executor.ts:552-588 | compaction only removes whole exchanges between the last user message before the latest assistant message and that message; every other message survives in order, at most stubbed, with its role and call ids |
| CompactionTheorems.CompactedKeepsStanding | packages/agent-loop/src/executor.ts:498-588 | on every conversation without leading results, all system and user messages survive unchanged and in order |
| CompactionTheorems.CompactedWellFormed | packages/agent-loop/src/executor.ts:498-588 | a well-formed conversation stays well formed: each surviving call still has exactly its results, in order |
| CompactionTheorems.CompactedMeasure | packages/agent-loop/src/executor.ts:450-589 | the conversation shrinks by at least as many characters as the count returned, and a zero count means it is untouched |
| CompactionTheorems.CompactedKeepsRecent | packages/agent-loop/src/executor.ts:533-580 | if the first pass makes the request fit `FIT_AT`, or dropping only the oldest exchanges in front of them makes it fit `FIT_TO`, the messages from one before the sixth newest tool result on end the new list unchanged |
| CompactionTheorems.MakerProtected | packages/agent-loop/src/executor.ts:532-537 | in a well-formed conversation the message that made the call of the sixth newest result is protected if and only if that result directly follows it |
| CompactionTheorems.MakerStubbed | packages/agent-loop/src/executor.ts:538-551 | otherwise, unless the first pass stops early, it stubs every long argument of that message |
| CompactionTheorems.SomeMakerStubbed | packages/agent-loop/src/executor.ts:532-551 | a conversation where the result is kept and the arguments of the very call it answers are not |
| CompactionTheorems.CompactedExhausts | packages/agent-loop/src/executor.ts:539-588 | if the request still fails `FIT_AT` afterwards, no message before the latest assistant message can be stubbed and no exchange between the last user message and it is left |
| CompactionTheorems.FirstPassRelieves | packages/agent-loop/src/executor.ts:490-551 | after the first pass of a crowded prompt either both the real and the estimated count are under `COMPACT_TO` of the window, or no unprotected message is left to stub |
| CompactionTheorems.CompactedIdle | packages/agent-loop/src/executor.ts:487-491 | when compaction returns zero, the request fits `FIT_AT` or there was nothing to remove; the converse is `RoomyIsUntouched` |
| CompactionLimits.WireMeasured | packages/agent-loop/src/executor.ts:450-466 | the size of a conversation is the length of its text: contents with the stubs spelled out, a separator for each message, and the arguments and names of the calls |
| CompactionLimits.FitsExactly | packages/agent-loop/src/executor.ts:484-489 | a request fits a share of the window if and only if that length and the schemas at the measured ratio, rounded up, and the reserve are within it |
| CompactionLimits.RoomyIsUntouched | packages/agent-loop/src/executor.ts:487-491 | if the estimate and the last count are both at most 60 % of the window, nothing is stubbed by the first pass, and if the request also fits, compaction returns the conversation untouched and zero |
| CompactionLimits.CompactedNoFurther | packages/agent-loop/src/executor.ts:538-588 | no loop goes on once its target is met: the list in front of the last stub or drop had not brought both counts under 45 % of the window (and one of them had been over 60 %), or neither fitted `FIT_AT` when the second pass began nor `FIT_TO` then |
| CompactionLimits.StubbableExactly | packages/agent-loop/src/executor.ts:494-531 | exactly these are stubbed: results longer than their stub, calls with long arguments, and where asked long texts, none of them a stub already |
| CompactionLimits.StubWrites | packages/agent-loop/src/executor.ts:498-531 | what is written in place of each, with the lengths it names; everything else of the message stays |
| CompactionLimits.ExhaustedMeans | packages/agent-loop/src/executor.ts:552-588 | a request that still does not fit has no long result, text or arguments left before the latest assistant message, told from the texts |
| CompactionLimits.SixthNewestIs | packages/agent-loop/src/executor.ts:532-537 | the result protection is measured from has as many results from it on as there are, up to six |
| CompactionLimits.AnchorsAre | packages/agent-loop/src/executor.ts:553-569 | no assistant message follows the first anchor, and none of the user's stands between the second and it |
| CompactionLimits.NextIsOldest | packages/agent-loop/src/executor.ts:572-576 | what is dropped next is the oldest exchange of the stretch, with all its results |
| CompactionTheorems.LargestFirstSorts | packages/agent-loop/src/executor.ts:543-545 | the order of the first pass is a permutation of the unprotected positions, largest first, oldest first among equals |
| CompactionTheorems.DropOldestFacts | packages/agent-loop/src/executor.ts:570-582 | dropping frees at least one character for each message it removes, and a list it removes nothing from is left as it was |
| CompactionTheorems.DropOldestWellFormed | packages/agent-loop/src/executor.ts:570-582 | dropping exchanges keeps every other call together with its results |
| Compaction.StubShrinks | packages/agent-loop/src/executor.ts:498-531 | whatever `stub` accepts becomes strictly shorter on the wire |
| Compaction.StubIsFinal | packages/agent-loop/src/executor.ts:498-531 | no result and no arguments are stubbed twice, and a message whose text could be stubbed along with them is left alone for good |
| Transcripts.Transcript.StubInPlace | packages/agent-loop/src/executor.ts:498-531 | `stub` tells whether it changed message `i`, and changes nothing else |
| Transcripts.Transcript.StubLargest | packages/agent-loop/src/executor.ts:543-550 | the first pass in place equals the specified pass, with its count |
| Transcripts.Transcript.FindAnchors | packages/agent-loop/src/executor.ts:553-569 | the scans for the latest assistant message and for the user message before it find exactly those |
| Transcripts.Transcript.FindExchange | packages/agent-loop/src/executor.ts:572-576 | the scan finds the first whole exchange of the region, or that there is none |
| Transcripts.Transcript.Drop | packages/agent-loop/src/executor.ts:570-582 | the splice loop in place equals the specified dropping |
| Transcripts.Transcript.StubThenDrop | packages/agent-loop/src/executor.ts:585-587 | the stubbing of text and protected results, and the last drop, equal their specification |
| Transcripts.Transcript.ShrinkHard | packages/agent-loop/src/executor.ts:552-588 | the whole second pass in place equals its specification |
| Transcripts.Transcript.Compact | packages/agent-loop/src/executor.ts:477-589 | `compactConversation`: the new message list and the count are those of the function all theorems above are about |
| AgentLoop.RefusalExhausted | packages/agent-loop/src/executor.ts:896-917 | the safety net refuses only if after compaction the request with its reserve is over `FIT_AT` of the window and nothing removable is left |
| AgentLoop.OverLimitExactly | packages/agent-loop/src/executor.ts:896-905 | the safety net's test is whether the last call's context, or the fresh estimate after a compaction, has reached the threshold's share of the window |
| AgentLoop.CallCovered | packages/agent-loop/src/executor.ts:1418-1433 | reported or estimated, the input tokens of a call never exceed the estimate of its request at the ratio measured afterwards |
| AgentLoop.RenewedIsPressure | packages/agent-loop/src/executor.ts:1211-1234 | a positive count always passes the `afterChars < beforeChars` test, so the fresh estimate replaces the last call's context |
| AgentLoop.NumberedMeans | packages/agent-loop/src/executor.ts:956-971 | a ledger's traces carry sequence numbers 0, 1, 2 and so on |
| AgentLoop.AllFormedMeans | packages/agent-loop/src/executor.ts:1238-1240 | every request that was sent is a well-formed conversation |
| AgentLoop.SynthesizedIdsDiffer | packages/agent-loop/src/executor.ts:1363-1368 | any two ids synthesized for the calls of a list of answers differ, whatever the tool names, as long as the counter never falls back |
| AgentLoop.CallsKept | packages/agent-loop/src/executor.ts:1363-1368 | every call keeps the name and the arguments it came with, and the id if it came with one |
| RepeatGuard.Counted | packages/agent-loop/src/executor.ts:1513-1517 | counting a call keeps the stored counts equal to functions of the call history |
| RepeatGuard.Settled | packages/agent-loop/src/executor.ts:1629-1637 | a success forgets all other signatures, and the stored counts still equal those functions |
| RepeatGuard.CountingRefines | packages/agent-loop/src/executor.ts:1513-1517 | the stored count of each signature equals its attempts since the last success of a different one, also after one more call |
| RepeatGuard.RunRefines | packages/agent-loop/src/executor.ts:1629-1637 | clearing the map on success, and only then, keeps that equality for every signature |
| RepeatGuard.StretchBound | packages/agent-loop/src/executor.ts:1513-1535 | in any stretch without a success of a different signature, one signature runs at most `maxIdenticalCalls` times |
| RepeatGuard.DispatchedCounts | packages/agent-loop/src/executor.ts:1513-1535 | the runs this bounds are counted as positions of the history |
| RepeatGuard.SinceCounts | packages/agent-loop/src/executor.ts:1513-1517 | the attempts counted against one signature are those of that signature since any other last succeeded |
| RepeatGuard.OfToolCounts | packages/agent-loop/src/executor.ts:1513-1515 | the attempts counted against a tool are all of it |
| RunState.Logged | packages/agent-loop/src/executor.ts:1198-1208 | one more trace entry keeps the numbering and spends nothing |
| RunState.Booked | packages/agent-loop/src/executor.ts:1383-1437 | an answer is booked in trace and budget alike, and its calls get numbers no other answer gives; with what is `BookedAsReported` |
| Accounts.BookedAsReported | packages/agent-loop/src/executor.ts:1418-1433 | in every ledger the entry of each answer has the tokens and the cost the backend reported; tokens it did not report are a quarter of the length, rounded up, of the joined contents of the request and of the reply |
| Accounts.BudgetIsReported | packages/agent-loop/src/executor.ts:1417-1437 | the budget of a ledger that records exactly the answered requests is the sum of what was reported for them, if tokens were reported for all; its cost always is, and is none if no cost was reported |
| Accounts.WentOnBelowLimits | packages/agent-loop/src/executor.ts:1439-1463 | wherever another answer follows, what was reported until then had reached neither limit |
| Accounts.RatioIsMeasured | packages/agent-loop/src/executor.ts:1426-1432 | the ratio after a report is the reported input per character of the request, and a quarter if that is more; without a report it stays |
| RunState.LedgerIdsDiffer | packages/agent-loop/src/executor.ts:1363-1368 | in every ledger, so at every point of a run, any two synthesized ids of the calls answered so far differ |
| RunState.FitJustified | packages/agent-loop/src/executor.ts:1211-1235 | whatever compaction does before a call, a refusal at the resulting pressure is justified |
| RunState.MeasuredExchange | packages/agent-loop/src/executor.ts:1482-1696 | an assistant message followed by a result for each of its calls keeps the conversation well formed and no shorter |
| RunState.RetriedMeans | packages/agent-loop/src/executor.ts:918-996 | each request of a turn but its last ended with status 0, 429, 502, 503 or 504 |
| RunState.StandsExtends | packages/agent-loop/src/executor.ts:1188-1194 | pushing a user message extends the standing messages by it |
| RunState.TurnKeeps | packages/agent-loop/src/executor.ts:1177-1192 | whatever the polls bring: after each turn the mail holds it all, and as much has entered as could at four texts a turn |
| RunState.OperatorEndToEnd | packages/agent-pod/src/operator-input.ts:21-35 | from the rows of the annotation to the conversation: the texts up to the cursor are exactly the operator messages that stand in it, then the queued ones, each once and in order |
| RunState.WorkingExtend | packages/agent-loop/src/executor.ts:1466-1475 | only the first answer of a run can be followed by another turn without having any calls, and only for the self-check |
| RunState.RunsExactly | packages/agent-loop/src/executor.ts:1503-1578 | a call runs if and only if its arguments are well formed and no placeholder, it has a provider, and fewer attempts than both limits are counted against it |
| RunState.ProvidedExactly | packages/agent-loop/src/executor.ts:1503-1640 | and exactly then its provider's text is the result, under the name the call resolves to |
| RunState.Concluded | packages/agent-loop/src/executor.ts:1466-1478 | the content of a completed run is the text of the last answer, unless that is blank on the answer turn, which makes it capped |
| Common.SpacesAre | packages/agent-loop/src/executor.ts:1466-1478 | an answer is blank if it holds nothing but these: the spaces and line ends of ECMAScript |
| Executor.AgentRun.constructor | packages/agent-loop/src/executor.ts:1130-1143 | the run starts on the caller's messages behind the system prompt, with nothing sent, spent or queued |
| Executor.AgentRun.Drain | packages/agent-loop/src/executor.ts:1178-1187 | a poll appends its texts to the queue; a rejected one changes nothing |
| Executor.AgentRun.AdmitOne | packages/agent-loop/src/executor.ts:1188-1191 | the oldest queued text, and no other, becomes the newest message |
| Executor.AgentRun.PollOperators | packages/agent-loop/src/executor.ts:1177-1192 | each turn polls once, and its oldest texts up to four enter the conversation, fewer only if none is left |
| Executor.AgentRun.PushNote | packages/agent-loop/src/executor.ts:1194 | the answer-turn note is appended and leaves the operator texts alone |
| Executor.AgentRun.FitToWindow | packages/agent-loop/src/executor.ts:1209-1236 | with a window the conversation is compacted and a refusal would be justified; without one it is untouched |
| Executor.AgentRun.Prepare | packages/agent-loop/src/executor.ts:1177-1272 | before a request: the mail is polled and admitted and the answer-turn note pushed exactly as specified, then boundary, compaction and measuring; nothing is spent, and a refusal would be justified |
| Executor.AgentRun.Attempt | packages/agent-loop/src/executor.ts:918-996 | one request is sent; another attempt follows only a transient error with retries left, and fails to follow one only on an abort |
| Executor.AgentRun.ChatWithRetry | packages/agent-loop/src/executor.ts:877-1013 | it refuses exactly when the pressure is over the limit, before any call; otherwise at most `maxRetries + 1` requests are sent, each but the first after a transient error; it returns the last answer, and breaks only on an error that is not transient, on the last retry or on an abort |
| Executor.AgentRun.Exchange | packages/agent-loop/src/executor.ts:1177-1284 | the mail moves by one turn and one request or more are sent, each ending as the world says; an answer becomes the newest of the answered requests; a refusal comes only on a conversation compaction cannot shrink, before any request |
| Executor.AgentRun.Account | packages/agent-loop/src/executor.ts:1417-1437 | the call is booked with reported or estimated tokens, and the measured ratio covers it; what these are, `BookedAsReported` and `RatioIsMeasured` say |
| Executor.AgentRun.Receive | packages/agent-loop/src/executor.ts:1363-1437 | every call gets an id from the counter as it stood, and the answer is booked; every answer before it had left the run within its limits |
| Executor.AgentRun.Halted | packages/agent-loop/src/executor.ts:1439-1463 | a set and reached token or cost limit ends the run, and nothing else ends it as over budget |
| Executor.AgentRun.Conclude | packages/agent-loop/src/executor.ts:1466-1478 | an answer without calls ends the run with its text, as capped if blank on the answer turn, except for one self-check |
| Executor.AgentRun.Weigh | packages/agent-loop/src/executor.ts:1503-1578 | the call is counted under its resolved tool and its arguments, and runs exactly if the arguments are well formed, no limit is passed and a provider is there |
| Executor.AgentRun.HandleCall | packages/agent-loop/src/executor.ts:1492-1695 | unless aborted before, the call is handled: the guard becomes what this call makes of it, the provider runs it if and only if nothing blocks it and there is one, and its text is the result; unless cancelled, exactly one result under its id and name is appended |
| Executor.AgentRun.Execute | packages/agent-loop/src/executor.ts:1600-1695 | the provider's text becomes the result, an error too; a throw cancels only on an abort |
| Executor.AgentRun.DispatchAll | packages/agent-loop/src/executor.ts:1490-1696 | the calls are handled one by one, in order, a beginning of them if cancelled; otherwise exactly their results follow, with the provider's text for each call that ran |
| Executor.AgentRun.Dispatch | packages/agent-loop/src/executor.ts:1479-1700 | the answer with its calls is appended, then the results as above; after that the conversation can be sent again |
| Executor.AgentRun.Act | packages/agent-loop/src/executor.ts:1466-1700 | the run goes on only with all calls handled, or without any for its one self-check; it stops with the answer or on an abort |
| Executor.AgentRun.Digest | packages/agent-loop/src/executor.ts:1417-1700 | the answer is booked against the request it answers, its calls are handled in order, and the run goes on only ready for the next turn; it ends with the answer, on an abort, or exactly when the budget is spent |
| Executor.AgentRun.Converse | packages/agent-loop/src/executor.ts:1166-1700 | one turn keeps everything that holds between turns and begins exactly one turn, or stops with an honest outcome |
| Executor.AgentRun.Execution | packages/agent-loop/src/executor.ts:1026-1745 | over every behaviour of model, tools, operator and abort signal: the ledger has exactly one `LlmCall` trace for each answered request, in order, with its tokens and cost, and the budget is their sum; the guard is what exactly the calls of those answers make of it, in order; the mail is one poll a turn, admitted four at a time; all standing messages are kept in order; at most (maxIterations+1)*(maxRetries+1) requests are sent, all well formed; if the backend reported the tokens of every answer, the budget is the sum of those reports, the run is over budget exactly if they reach a limit, and at no earlier answer had they reached one; the run is refused only if nothing removable is left; the outcome is that of the last answer (capped on the answer turn only), an abort that was seen, a spent budget or a failed call; the last trace is `run_complete`, unless the run was aborted before it began and left nothing at all |
| Workflow.RecalledExactly | packages/agent-workflow-runtime/src/in-memory-runtime.ts:234-361 | a journaled result is replayed exactly as it was first heard if and only if a timeout carries the name of its own step; elapsed time, uid, reason and detail are always the same |
| Workflow.LastingIsKept | packages/agent-workflow-runtime/src/in-memory-runtime.ts:234-361 | every result, failed task or timed-out signal is journaled and nothing else is; the same step then gives, from any later journal and without being issued, what was told first, but for the name in a timeout |
| Workflow.JournalGrows | packages/agent-workflow-runtime/src/in-memory-runtime.ts:247-262 | an execution only appends to the journal, one entry per committed call, in call order |
| Workflow.CrashThenReplay | packages/agent-workflow-runtime/src/in-memory-runtime.ts:366-433 | crash at any commit and replay: outcome and journal of the uninterrupted execution, the crashed journal as a prefix, and only calls that left no entry are made again |
| Workflow.ReplayRightExactly | packages/agent-workflow-runtime/src/in-memory-runtime.ts:325-347 | replay reproduces the outcome of every workflow at every crash point if and only if timeouts carry their step's name |
| Workflow.ProbeTells | packages/agent-workflow-runtime/src/in-memory-runtime.ts:325-347 | a two-line workflow that shows the difference whenever a timeout carries another name |
| Workflow.DistinctIsSteady | packages/agent-workflow-runtime/src/in-memory-runtime.ts:234-240 | distinct step names satisfy the condition of the replay theorem |
| Workflow.IssuedOnce | packages/agent-workflow-runtime/src/in-memory-runtime.ts:266-362 | in one execution a committed step is never issued again, distinct names or not |
| Workflow.EachOnceOverBoth | packages/agent-workflow-runtime/src/in-memory-runtime.ts:411-433 | if every call before the crash was answered with a result, a failed task or a timed-out signal, the crashed execution and its replay together make exactly the calls of the uninterrupted one, in order, each journaled step once |
| Workflow.DurableIsPlain | packages/agent-workflow-runtime/src/in-memory-runtime.ts:366-410 | with distinct step names and room for the commits, an uninterrupted execution ends and calls as the same code without a journal |
| Workflow.CrashedPrefix | packages/agent-workflow-runtime/src/in-memory-runtime.ts:247-262 | a crash set for the n-th commit happens exactly there, with the calls up to it, or not at all if there are fewer commits |
| Workflow.RecoveredIsPlain | packages/agent-workflow-runtime/src/in-memory-runtime.ts:366-433 | crashed at any commit and replayed, such a workflow ends as if it had simply run; of its calls only those without a lasting answer are made again |
| Workflow.TallyAppend | packages/agent-workflow-runtime/src/in-memory-runtime.ts:204-210 | the call counters stay the tallies of the calls made |
| Workflow.Runner.Commit | packages/agent-workflow-runtime/src/in-memory-runtime.ts:247-262 | an entry is pushed before the overflow and the crash are looked at, in this order |
| Workflow.Runner.Operate | packages/agent-workflow-runtime/src/in-memory-runtime.ts:266-362 | one context operation: reply, journal, counters and crash as specified |
| Workflow.Runner.Drive | packages/agent-workflow-runtime/src/in-memory-runtime.ts:366-392 | a fresh context runs the code to the specified outcome; only a returned value completes the invocation |
| Workflow.Runner.Start | packages/agent-workflow-runtime/src/in-memory-runtime.ts:395-410 | an invocation starts on an empty journal |
| Workflow.Runner.Replay | packages/agent-workflow-runtime/src/in-memory-runtime.ts:411-433 | an unknown or completed invocation is refused and nothing changes; otherwise the code runs on the journal left behind, without a crash |
| Workflow.Runner.Recover | packages/agent-workflow-runtime/src/in-memory-runtime.ts:395-433 | start, crash and replay give the uninterrupted value and journal, and its calls if all answers last; with distinct step names value and calls are those of the code without a journal |
| ConcurrentSteps.AlwaysSafe | packages/agent-workflow-runtime/src/in-memory-runtime.ts:234-362 | under every interleaving of distinct steps, each issue is rejected, under way or journaled; a step has at most one entry and it never changes |
| ConcurrentSteps.StepsAreSafe | packages/agent-workflow-runtime/src/in-memory-runtime.ts:234-362 | from an empty journal: at most one issue per execution, at most one entry, at most one issue more than rejections |
| ConcurrentSteps.ReplayIssuesOnlyNew | packages/agent-workflow-runtime/src/in-memory-runtime.ts:234-261 | a later execution issues a step only if every earlier issue of it was rejected |
| ConcurrentSteps.StepIsPerform | packages/agent-workflow-runtime/src/in-memory-runtime.ts:234-362 | a step begun and settled with nothing in between journals, issues and rejects exactly what a step of one execution does |
| ConcurrentSteps.UnderWayStays | packages/agent-workflow-runtime/src/in-memory-runtime.ts:234-362 | an effect under way settles as itself, however late |
| ConcurrentSteps.LastingSettles | packages/agent-workflow-runtime/src/in-memory-runtime.ts:247-362 | an effect that settles with a result, a failed task or a timeout is journaled, not rejected |
| ConcurrentSteps.RestartsAnew | packages/agent-workflow-runtime/src/in-memory-runtime.ts:411-433 | once nothing is under way any step can be begun again, on the same journal |
| Blackboard.AppendsLinearize | packages/agent-pod/src/builtin-tools.ts:1605-1651 | for any number of appenders and any interleaving: the list is the first one and the items of the successful appends in their order, each told the length at that point; a failed append leaves nothing |
| Blackboard.SwapAppends | packages/blackboard/src/nats-client.ts:95-137 | an accepted create or swap stores the current list with one item more, because revisions identify what was read |
| Blackboard.NobodyGivesUp | packages/agent-pod/src/builtin-tools.ts:1605-1651 | at most `maxRetries + 1` appenders on a key nobody else writes: none gives up |
| Blackboard.GivesUpExactly | packages/agent-pod/src/builtin-tools.ts:1605-1651 | some interleaving makes an append give up if and only if there are more than `maxRetries + 1` appenders |
| Blackboard.StepKeepsCharged | packages/agent-pod/src/builtin-tools.ts:1609-1647 | every refused swap of an appender is charged to a different success of another |
| Blackboard.CorruptBlocks | packages/blackboard/src/nats-client.ts:68-83 | a value that does not decode reads as absent and refuses every create: no append ever succeeds |
| Blackboard.AppendsExactly | packages/agent-pod/src/builtin-tools.ts:1605-1651 | some interleaving lets an append succeed if and only if there is an appender and the key holds a list or nothing live |
| Blackboard.FailureIsFinal | packages/agent-pod/src/builtin-tools.ts:1648-1651 | a client error ends one append for good, and touches neither the list nor the others |
| Blackboard.RevisionsElsewhere | packages/blackboard/src/nats-client.ts:95-137 | writes to other keys take revisions, as many as they like, and nothing else |
| Blackboard.Store.Create | packages/blackboard/src/nats-client.ts:119-137 | `create` is accepted exactly on a key that is not live, and otherwise changes nothing |
| Blackboard.Store.Update | packages/blackboard/src/nats-client.ts:95-117 | `update` is accepted exactly at the expected revision, and otherwise changes nothing |
| Blackboard.Append | packages/agent-pod/src/builtin-tools.ts:1605-1651 | the handler: an accepted append puts its item behind the list it replaces and tells the length; a failed one writes nothing; it is contended only if others wrote in every round, or a value could not be read |
| JsonTheorems.ReadIsSound | packages/agent-pod/src/check-publication.ts:136-203 | whatever the reader returns has whole tokens, keys of different meaning, and no nesting beyond 100 |
| JsonTheorems.ReadsBack | packages/agent-pod/src/check-publication.ts:136-203 | a printed tree is read back as itself if it is nested at most 100 deep, and refused otherwise |
| JsonTheorems.ProjectPrints | packages/agent-pod/src/check-publication.ts:88-106 | `project` prints exactly the projected tree |
| JsonTheorems.ProjectionReadsBack | packages/agent-pod/src/check-publication.ts:88-203 | re-reading the projection of any tree that was read gives its numeric projection, unless it prints an empty array at depth 100, and then it is refused |
| JsonTheorems.ProjectionIdempotent | packages/agent-pod/src/check-publication.ts:88-106 | projecting again changes neither the tree nor the text |
| JsonTheorems.ProjectionFits | packages/agent-pod/src/check-publication.ts:96-98 | projecting keeps a tree within the depth the reader accepts exactly if no empty array sits at the limit |
| JsonTheorems.ArrayProjects | packages/agent-pod/src/check-publication.ts:96-105 | an array with a number in it keeps its length and its numbers in place, and null stands for the rest; any other becomes the count of its items |
| JsonTheorems.ObjectProjects | packages/agent-pod/src/check-publication.ts:90-95 | an object keeps exactly its members that are no strings, in order, under their keys |
| JsonTheorems.LeafProjects | packages/agent-pod/src/check-publication.ts:88-106 | everything else stays as it is |
| JsonTokens.NumberStops | packages/agent-pod/src/check-publication.ts:188-193 | a number token ends where a delimiter begins |
| JsonGrammar.NumberFound | packages/agent-pod/src/check-publication.ts:188-193 | what is matched as a number has a minus sign or not, an integer part without leading zeros, and a fraction and an exponent or not |
| JsonGrammar.NumberIsLongest | packages/agent-pod/src/check-publication.ts:188-193 | every text of that form is a number, and the longest one in front is matched |
| JsonGrammar.StringExactly | packages/agent-pod/src/check-publication.ts:141-148 | a text begins with a string token of that length if and only if it is quoted and no quote in between is unhidden |
| JsonTexts.ReadExactly | packages/agent-pod/src/check-publication.ts:136-203 | a text is read, and to this tree, if and only if it is that tree written with any spaces around its tokens, perhaps a comma behind the last member or item, keys of different meaning, and at most 100 levels |
| JsonKeys.KeyExactly | packages/agent-pod/src/check-publication.ts:160-163 | a key means the code units its characters and escapes stand for, and has no other meaning |
| JsonTokens.DecimalStandsFor | packages/agent-pod/src/check-publication.ts:97 | a printed count has the digits of that number |
| JsonTokens.DecimalIsNumber | packages/agent-pod/src/check-publication.ts:97 | a count is printed as a number |
| JsonReader.Reader.ScanString | packages/agent-pod/src/check-publication.ts:141-148 | the scan stops behind the first quote that no backslash hides, or fails if there is none |
| JsonReader.Reader.ReadValue | packages/agent-pod/src/check-publication.ts:149-198 | the cursor-based reader returns the specified value and stops behind it, or fails exactly where the specification does |
| JsonReader.Reader.ReadMembers | packages/agent-pod/src/check-publication.ts:155-171 | the loop over members, with its set of seen keys, equals its specification |
| JsonReader.Reader.ReadItems | packages/agent-pod/src/check-publication.ts:176-184 | the loop over items equals its specification |
| JsonReader.ParseNode | packages/agent-pod/src/check-publication.ts:136-203 | the whole text is read, or refused |
| JsonReader.BalancedEnd | packages/agent-pod/src/check-publication.ts:114-117 | the scan finds the end of the first balanced slice from a brace, or there is none |
| JsonReader.FirstObject | packages/agent-pod/src/check-publication.ts:108-133 | the slice read is the first balanced one that is valid JSON; no later one is ever selected |
| CasUri.UriRoundTrip | packages/agent-pod/src/cas-backend.ts:133-169 | a built URI parses to its hash and name |
| CasUri.ParsesExactly | packages/agent-pod/src/cas-backend.ts:133-161 | a URI is read to a hash and a name if and only if it is `cas://sha256:`, the 64 digits, a slash and that name, algorithm and digits in any case |
| CasUri.ShardInjective | packages/agent-pod/src/cas-backend.ts:181-186 | different hashes have different paths |
| ResultStore.ReadIsExact | packages/agent-pod/src/cas-backend.ts:264-294 | reading a built URI gives exactly the bytes hashed, whatever happened to the files; on untampered files within the cap it succeeds |
| ResultStore.WriteKeeps | packages/agent-pod/src/cas-backend.ts:297-358 | a write stores its bytes and disturbs no other blob |
| ResultStore.AlwaysSound | packages/agent-pod/src/tool-result-reference.ts:93-158 | every interleaving of retains keeps the store's invariant |
| ResultStore.BytesStayBounded | packages/agent-pod/src/tool-result-reference.ts:130-151 | reserved bytes never exceed `maxTotalBytes`, and cover all content and manifests that got a reference |
| ResultStore.OneReferenceEach | packages/agent-pod/src/tool-result-reference.ts:100-158 | an operation gets at most one reference |
| ResultStore.ReferencesStay | packages/agent-pod/src/tool-result-reference.ts:150-158 | a reference keeps its manifest and text |
| ResultStoreTask.RetainedIsRequest | packages/agent-pod/src/tool-result-reference.ts:115-140 | the text a reference stands for is that of the one request it was issued for |
| ResultStore.ResolvesExactly | packages/agent-pod/src/tool-result-reference.ts:205-230 | a resolution returns exactly the retained text and manifest of the same run, or nothing, whatever happens between its awaits and to the files |
| ResultStore.ResolvesAlways | packages/agent-pod/src/tool-result-reference.ts:205-230 | on untampered files every unexpired reference of the run that was not retried resolves, and the read cap never trips |
| ResultStore.RetriedNeverResolves | packages/agent-pod/src/tool-result-reference.ts:100-104 | after a retry of a reserved operation none of its references resolves any more |
| ResultStore.SomeRunResolves | packages/agent-pod/src/tool-result-reference.ts:93-230 | the hypothesis of these theorems can be met, and is, by a run that retains a result and can resolve it |
| ResultStoreTask.TaskStore.Begin | packages/agent-pod/src/tool-result-reference.ts:99-152 | a new operation within all bounds, and no other, reserves its identity and its bytes before any write; outside the bounds nothing changes, and a known operation becomes ambiguous |
| ResultStoreTask.TaskStore.Retain | packages/agent-pod/src/tool-result-reference.ts:93-158 | with other retains at its awaits: a reference stands for exactly the text, tool, arguments, time and encoding given, and a new result within all bounds gets one on a working disk |
| ResultStoreTask.TaskStore.Resolve | packages/agent-pod/src/tool-result-reference.ts:205-230 | with other retains at its awaits: exact or nothing, and something for every resolvable reference on untampered files; the manifest describes the call it was retained for |
| ResultStoreTask.TaskStore.ImportFiles | packages/agent-pod/src/tool-result-reference.ts:160-203 | the files are, in order, the retained texts and their metadata, all paths differ and the sizes stay within the bounds; and undisturbed, with resolvable references, free valid paths and sizes within the bounds, exactly these files are given |
| ResultStoreTask.TaskStore.ImportNext | packages/agent-pod/src/tool-result-reference.ts:165-196 | one more reference of such an import resolves, and its two files come behind those before it |
| Status.BuildOps | packages/agent-pod/src/status.ts:193-216 | the pushed list is the specified operations |
| Status.PatchMeans | packages/agent-pod/src/status.ts:193-216 | a patch lands exactly on the phase it expects, sets its own fields, and leaves all others |
| Status.SendMeans | packages/agent-pod/src/status.ts:285-311 | one patch lands whole exactly if the server looks at it on the phase it expects; otherwise nothing changes; the call moves to the next phase only on a refusal, and fails if no reply comes, landed or not; no other call is touched |
| Status.AtMostOneLands | packages/agent-pod/src/status.ts:279-325 | with any number of calls, lost replies and a controller that only moves forward: at most one patch lands, a call returns only on a terminal phase, and a terminal status never changes again |
| Status.LandedStays | packages/agent-pod/src/status.ts:279-325 | the status at the end is exactly what the landed patch made of a non-terminal one |
| Status.WritesAreSafe | packages/agent-pod/src/status.ts:279-325 | the same from any initial document |
| Status.RejectedExactly | packages/agent-pod/src/status.ts:285-311 | with truthful replies and a server that is reached, some interleaving of any number of calls refuses the i-th if and only if the phase at the start is neither terminal nor one it tries, and with a controller at work also if it is `Pending`, which can be promoted between its two attempts |
| Status.WriteStatus | packages/agent-pod/src/status.ts:279-325 | one call lands its patch at most once and only on a non-terminal status; it returns normally only on a terminal one, and always does if it can reach the server and the status was terminal before; it is refused only on a status that is not terminal now and was neither terminal nor `Dispatched` before, and on one that stays as it is only for a phase it does not try; undisturbed on a phase it tries it lands, and the status is then its patch over the one before |
| ToolClaims.ClaimMeans | packages/agent-loop/src/tool-provider.ts:204-213 | a claim changes no owner, and goes through exactly if no name belongs to another provider |
| ToolClaims.OwnersStay | packages/agent-loop/src/tool-provider.ts:197-265 | under every interleaving of claims, late claims and retries a name keeps its owner |
| ToolClaims.HeldStays | packages/agent-loop/src/tool-provider.ts:197-265 | a claim that went through is never lost |
| ToolClaims.ReadyMeansOwned | packages/agent-loop/src/tool-provider.ts:245-265 | `ready` resolves only when every provider registered successfully before its pass owns all names it described |
| ToolClaims.ReadyResolves | packages/agent-loop/src/tool-provider.ts:245-265 | once every claim of a pass is answered, those not reached are asked again, and when all hold nothing stands in its way |
| ToolClaims.SecondAskSuffices | packages/agent-loop/src/tool-provider.ts:197-265 | a provider that answers only when asked a second time is ready all the same, with its names owned |
| ToolClaims.PassGoesOn | packages/agent-loop/src/tool-provider.ts:245-257 | callers that come during a pass share it: until all its claims are answered it neither ends nor begins anew |
| ToolClaims.ConflictIsFinal | packages/agent-loop/src/tool-provider.ts:257-265 | after a conflict of a late claim `ready` never resolves again |
| ToolClaims.ResolutionStays | packages/agent-loop/src/tool-provider.ts:280-291 | whatever is claimed later, an exact name goes on meaning itself, and a name resolved as a namespace or a leaf never comes to mean another tool: the same one, none, or itself |
| ToolClaims.ResolvesExactly | packages/agent-loop/src/tool-provider.ts:280-291 | a name resolves to a registered one if and only if it is that name, or, not being registered, the namespace or the leaf of that one and of no other |
| ToolClaims.ToolProviderRegistry.Add | packages/agent-loop/src/tool-provider.ts:197-237 | a known id is refused and changes nothing; a conflict is reported exactly if a name belongs to another provider |
| ToolClaims.ToolProviderRegistry.RetryFailed | packages/agent-loop/src/tool-provider.ts:257-262 | exactly the failures that are no conflicts are asked again |
| ToolClaims.ToolProviderRegistry.EndSettle | packages/agent-loop/src/tool-provider.ts:263-264 | a pass resolves exactly if no provider it asked is recorded as unreachable or in conflict |
| OperatorInput.DeliversEachOnce | packages/agent-pod/src/operator-input.ts:21-35 | over append-only rows all polls together deliver the texts up to the cursor, each once and in order |
| OperatorInput.TextsAre | packages/agent-pod/src/operator-input.ts:26-35 | the texts delivered are those of the rows that have one, each once and in their order, and no others |
| OperatorInput.RejectionLosesNothing | packages/agent-pod/src/operator-input.ts:22-30 | a poll that fails or finds no rows is as if it had not been made |
| OperatorInput.CatchesUp | packages/agent-pod/src/operator-input.ts:26-35 | one poll that sees all rows completes the delivery |
| OperatorInput.Poller.Poll | packages/agent-pod/src/operator-input.ts:21-35 | the closure's result and cursor are the specified ones |

## Left out

- Tool arguments that are not JSON objects, other than malformed ones: the loop's key test on them is not modelled.
- Floating point: ratios, shares and limits are exact reals.
- UTF-16 lengths: texts are sequences of characters, and lengths count those; in the JSON reader keys are still compared by code units.
- The wording of notes and guard messages: stubs and the `[operator message] ` prefix are kept, other texts come from the oracle.
- `capToolResult`, `loopTurnNote`: they only change the text of a tool result.
- `pickBackoffMs` and the sleeping between retries: a clamp and a table lookup, without effect on what is sent.
- Trace sinks, latency fields and diagnostic redaction: observational.
- Executor.AgentRun.Execution: assumes what the run needs of its caller: a non-empty, well-formed initial conversation and a safety threshold above 0.85 (the default is 0.95).
- CompactionTheorems.CompactedKeepsRecent: claims nothing about recent results once the second pass has to go beyond its first drop, because it may then stub and drop up to the latest assistant message.
- Workflow.CrashThenReplay: assumes fewer entries than `maxCommits`, timeouts that carry their own step's name, no rejected step name that is reused for a journaled step, and author code that does not catch the simulated crash.
- Workflow.Runner.Drive: author code is run for a given number of steps, since deterministic code need not end; all results are for every number.
- ConcurrentSteps.ReplayIssuesOnlyNew: an execution is restarted only when no effect of the crashed one is under way; a replay started earlier can commit a step twice, and the harness promises nothing about it.
- Blackboard: replies are truthful, and the capability checks, key validation, size limits and `list` are not modelled; `put` and other writers appear as interference in `Append` only.
- `checkPublication` itself: the envelope checks, the receipt and the 8000-character rule around the projection; whether `JSON.parse` accepts a slice is a parameter of `FirstObject`.
- ResultStore: the hash is any function to 64 lower-case hexadecimal digits without a collision among the texts, manifests and file contents that occur, and the JSON of manifests, import metadata and import messages are functions of their parts; file writes are atomic within one process, and temporary file names are not modelled.
- ResultStore: text and its UTF-8 bytes are the same sequence; texts with unpaired surrogates are not covered.
- `buildStatusPatch`: which run results become Completed is settled by reading one condition.
- Status: replies that come are truthful; patches whose reply is lost may have been applied.
- ToolClaims: registering with `replace`, and what providers execute.
- HTTP, DNS, TLS, identity, NATS connections and Kubernetes client code: plumbing over libraries.
- Capability narrowing, environment parsing, artifact names, spawn limits, agent scoring, HTML and feed parsing, audit events: each is one or two branches, or has no crisp specification.
