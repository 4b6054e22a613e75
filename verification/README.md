# The agent harness, modelled and verified in Dafny

The repository runs an LLM orchestrator inside a deterministic harness: a twelve-node LangGraph loop, a todo
ledger, a delegation tool with an automatic verify/fix chain, a message sanitiser for strict providers, a
read cache and a server-sent event stream. This project models that harness and proves what it promises
whatever the model, the SubAgents, the tools, the user and the clock do. Everything the harness does not
decide is an arbitrary value: an `Oracle` per node execution, an `Invocation` per SubAgent call, a `Tick` per
event of the stream.

`dafny verify dfyconfig.toml` checks the whole project.

## How it is laid out

| module | part of the program |
|---|---|
| `Prelude`, `Text` | options; Python's `in`, `join`, `strip`, `lower` and decimal numerals with their laws |
| `TodoLedger` | the ledger as rows, every operation on it, the class `TodoStore` and its two tools |
| `Sufficiency`, `Resilience` | the rule gate, the cycle history; error classification, tier fallback, bounded retry |
| `AgentLoop` | the graph as a step function over a shared state; runs are `nat -> Harness` |
| `LoopTermination`, `LoopSafety`, `LoopErrors`, `LoopExits` | laws of all runs: how long they take, what every state satisfies, what errors do, what each exit reason goes back to |
| `LoopDelegations` | delegations inside the loop: what the decomposition gate lets past, which rows survive |
| `LoopGraph` | the class `AgentGraph`: nodes that update fields, a store shared by reference, a run loop |
| `ToolMessages`, `PrepareMessages`, `PreparedCalls` | the sanitising passes as functions and their laws; the list-building loops; what a prepared message still calls and sends |
| `Json`, `JsonGrammar`, `JsonRepair` | a JSON parser, the grammar of RFC 8259 (sections 2 to 7) it is proved against, and the three-stage repair loop |
| `ReadCache` | the insertion-ordered cache, the file tools, and the classes `ToolCache` and `FileTools` |
| `TaskId` | the task-id search and the pattern it is proved against; the built descriptions |
| `VerifierReport`, `ReportLaws` | the report and its two judgements; what the report says and leaves out |
| `ShellOutput` | what the shell tool returns for a failing command, and which judgement still sees the failure |
| `Delegation` | one delegation with its hooks and chain, as functions and as the class `TaskTool` |
| `ChainProtocol`, `ChainLedger` | laws of the chain and of what it does to the ledger |
| `FixerCap`, `EvidenceCache`, `DelegationLedger` | laws of sequences of delegations: the fixer cap, the cached verifier report, which ledger rows are safe |
| `SseStream` | the event stream as a function and as the class `EventStream` |
| `SseLaws`, `SseDelegations`, `SseNotices`, `SseEnds` | what a viewer can rely on: snapshots; delegation roles and nesting; the chain's calls; start, end and waiting |
| `SseClosing` | what a stream leaves in the table of pending questions, read to its end or closed before |

Where the source updates something in place there is a class whose methods are proved equal to a step
function on values; the laws are then proved about that function.

## What turned out differently from the documentation

- **One sanitising pass is not always enough.** It can leave a tool result whose call it has just demoted
  (`ToolMessages.OnePassCanLeaveOrphan`). It is enough exactly if every id that is called for and answered has a
  caller whose answered calls are all answered right behind it (`OnePassEnoughIff`, a condition on the input;
  `PrepareMessages.PrepareWellPairedIff` for the pipeline, which runs one pass). Two passes always converge.
- **A message without calls keeps a dict** among its serialised arguments (`PrepareLeavesDictIff`).
- **An object alone in a JSON array is lost**: the first attempt parses the array and returns no arguments
  (`JsonRepair.ObjectInArrayIsLost`); `RepairFindsObject` is the exact condition.
- **A row that failed verification can be dropped from the ledger.** The start hook puts it back to in_progress
  (auto-advance refuses to leave `completed` only), and the planner's next `write_todos` drops it
  (`DelegationLedger.DelegationsCanLoseFailedRow`). A completed row is safe through any delegations
  (`DelegationsKeepCompleted`). The tool `update_todo` could reopen a completed row too
  (`TodoLedger.ReopenedRowCanBeLost`), but no role is given it.
- **The fallback verdict called dead in `sufficiency/rules.py:252-254` is dead exactly for a low threshold of
  at most one half** (`Sufficiency.FallbackDeadIff`).
- **The cache is bounded by its configured size exactly from size four on** (`ReadCache.BoundedIff`): below
  that a quarter of the size is zero and nothing is evicted.
- **The user is not asked about every coder.** The decomposition gate reads the text of `agent_type`. A delegation
  that leaves it out, says "auto" or names no role passes unasked and runs as what the classifier says, or as a
  coder (`LoopDelegations.UnaskedDelegationIff`, `UnaskedCoder`); and a reply that delegates to planner and coder at
  once passes on an empty ledger (`SameReplyNotAsked`). What does hold is `LoopSafety.DelegationNeedsConfirmation`.
- **A failing test run can be judged verified.** The shell tool appends the exit line, then cuts the output at
  10,000 characters; the report then shows 800 of it. `ShellOutput.FailureMissedIff` says exactly which check misses
  which failure: past 800 the text check does, and past 10,000 both. The coder's row is then completed
  (`ChainLedger.FailedTestsCompleteRow`), past 10,000 by the verifier's own end hook
  (`SilencedFailureCompletesRow`). For reports in general `VerifierReport.ChecksDisagreeIff` is exact.
- **The end hook completes rows for fixers**, although the docstring of `build_task_tool` says it does not; so
  a failed chain can still leave its row completed (`ChainLedger.FixerHookCompletesRow`, with a concrete chain in
  `UnverifiedRowCompleted`; `CoderTaskMarksRow` lists every case).
- **A SubAgent that prints the passed marker gets its row completed** (`ChainLedger.ForgedMarkerCompletesRow`).
- **The fixer cap is checked on the key of the written description and counted on the key of the one sent**:
  they differ exactly when prepended evidence names another task (`FixerCap.SameKeyIff`), and then no number
  of delegations reaches the cap (`ForeignEvidenceBypassesCap`; `DirectRunsBounded` holds for any evidence).
- **A question's future can stay registered**: read to its end, a stream leaves it behind exactly if the
  question's payload could not be read (`SseClosing.PendingAfterStream`); closed by its reader earlier, also if
  that happens at the question's own frame (`PendingWhenClosed`, `ReaderLeavesAtQuestion`).
- **A run whose state cannot be read at an interrupt reports success**, and only that one does over an interrupt
  nobody answered (`SseLaws.SuccessOverInterruptIff`).
- **After a question from inside a delegation no tool call is shown any more.** The delegation starts again after the
  answer but ends once, so the depth never returns to zero (`SseDelegations.CallsVanishAfterQuestion`, `ReadNotShown`).
- **A write that raises after emptying its file leaves stale reads in the cache**: exactly those cached for the path
  under a stamp that is used again (`ReadCache.HalfWriteSpoilsIff`, `StaleAfterHalfWrite`).
- **Errors count as consecutive until tools run**, whatever replies, nudges and retries lie between
  (`LoopErrors.CounterMeans`); three errors of different kinds, none next to another, end a run
  (`ScatteredErrorsEndRun`), while the docstring of `handle_error` speaks of the same error in a row.
- **The end frame of a delegation names the role begun last**: its own exactly if that one has the same role
  (`SseDelegations.EndNamesOwnRoleIff`); two parallel delegations show the wrong one (`ParallelEndMisnamed`).
- `retry_count_for_this_error` is written by `handle_error` but is no field of `AgentState`. The loop's bounds
  hold for every value the handler may find there, and `Resilience.RecoveryStops` threads it explicitly. While it
  finds none, no run ever falls back, runs out of models or aborts (`LoopErrors.ForgottenCountNeverFallsBack`).

## Model

| member | source | states |
|---|---|---|
| LoopTermination.EveryRunEnds | coding_agent/core/loop.py:1104-1292 | every run from a fresh thread is at END after 3·T + min(S, T−1) + 5 node executions, with T = max(1, max_iterations) and S the sufficiency limit (0 if disabled or negative), and no state counts more than two turns over the limit, for any model, tool, guard, critic and user behaviour |
| LoopTermination.RunBurnsFuel | coding_agent/core/loop.py:502-721 | each node execution of a run spends at least one unit of the remaining-executions bound, and the counters stay consistent with the node |
| LoopTermination.DefaultsStayUnderRecursionLimit | coding_agent/config.py:246-287 | with the defaults 150 and 1 every run is over after 456 node executions, under the recursion limit of 500 |
| LoopTermination.BoundIsMet | coding_agent/core/loop.py:670-1080 | the bound is exact for every turn limit and every number of retries: a run that retries as often as there is room, then calls tools, then fails three times takes all of it and reaches two turns over the limit |
| AgentLoop.RunExists | coding_agent/core/loop.py:1213-1297 | every fresh thread has a run under every oracle, so statements about runs are not vacuous |
| LoopSafety.EveryStateSafe | coding_agent/core/loop.py:723-760 | in every reachable state the nudge counter is within 0..3, the history is sound, and exit reason and ledger fit the node |
| LoopSafety.HistoryInEveryState | coding_agent/core/loop.py:979-1080 | in every reachable state: one history entry per apply, at most S accepted retries, only the last entry not accepted, no accepted entry equal to either of the two before it |
| LoopSafety.LogInEveryState | coding_agent/core/loop.py:735-760 | the nudge counter is the length of the last stretch of nudges without progress, and the stored count is the one at the last nudge |
| LoopSafety.UnfinishedEndings | coding_agent/core/loop.py:1104-1209 | a run that ends with unfinished rows went through safe_stop, or made three nudges in a row without progress; every other ending, all sufficiency paths included, leaves none |
| LoopSafety.NudgesBounded | coding_agent/core/loop.py:221-251 | while the unfinished count does not rise and no sufficiency retry intervenes, U unfinished rows draw at most 3·U nudges |
| LoopSafety.NudgeDescends | coding_agent/core/loop.py:723-760 | at each nudge (count at the last nudge, nudges left) falls lexicographically unless rows were added, and the counter stays within 1..3 |
| LoopSafety.AskedAtMostOnce | coding_agent/core/loop.py:762-901 | the user is asked about the decomposition at most once per thread |
| LoopSafety.DelegationNeedsConfirmation | coding_agent/core/loop.py:96-127 | no call whose agent_type spells out coder, verifier, fixer or reviewer reaches the tools node, on a ledger registered by then, before the gate has asked the user |
| LoopSafety.TodoDrivenLowInRun | coding_agent/core/loop.py:908-943 | at a gate of a run whose LOW verdict blames the todos, with a low threshold of at most one half, more rows of the ledger are verify_failed than completed |
| LoopSafety.GateLeads | coding_agent/core/loop.py:908-943 | a gate of a run goes to the end exactly with no failed signal and enough completed rows for HIGH, past the critic exactly on a failed signal or too few for LOW, and to the critic otherwise; shares are counted over the rows |
| LoopSafety.TwoEqualLowGatesEndRun | coding_agent/core/loop.py:936-1058 | two successive LOW gates of a run with the same verdict and target end it as escalated at the second, whatever lies between |
| LoopErrors.CounterMeans | coding_agent/core/loop.py:612-685 | in every reachable state the error counter is the number of error-handler executions since tools last ran, plus what it held when the thread began |
| LoopErrors.GaveUpIff | coding_agent/core/loop.py:684-694 | a run has given up on errors if and only if the handler has met a third, or later, error since tools last ran |
| LoopErrors.ScatteredErrorsEndRun | coding_agent/core/loop.py:670-694 | a run in which three errors of pairwise different kinds alternate with silent replies and nudges ends as three consecutive errors |
| LoopErrors.ForgottenCountNeverFallsBack | coding_agent/core/loop.py:707-719 | while the handler finds no retry count, every error is retried: the tier never moves and no run ends as all_models_exhausted or error_abort |
| LoopErrors.TierOnlyDescends | coding_agent/core/loop.py:711-717 | within a thread the tier starts at the configured one and only descends; without fallback it never moves |
| LoopExits.ExitIff | coding_agent/core/loop.py:612-721 | for each of the six exit reasons: a run has it if and only if one of its node executions was that reason's cause, stated over the run and the oracle (a STOP of the guard; a third error; an error without a retry left that has no tier to fall back to, or may not fall back; an escalating verdict; a reply at the turn limit or in danger) |
| LoopExits.CauseEndsRun | coding_agent/core/loop.py:1082-1209 | a cause is obeyed at once: the reason is set in the next state, kept, and the run is at END two node executions later |
| LoopExits.GuardStopObeyed | coding_agent/core/loop.py:644-650 | in particular a STOP of the progress guard leads to safe_stop and END under its own reason |
| LoopExits.HandlerMeets | coding_agent/core/loop.py:670-696 | the error handler runs exactly after a turn whose call failed, and handles that very failure |
| LoopExits.FallsBackIff | coding_agent/core/loop.py:711-717 | the tier moves, to the next one, exactly if fallback is on, there is a next tier, and an error that may fall back has no retry left |
| LoopExits.VerdictCameFrom | coding_agent/core/loop.py:936-1020 | the verdict that is applied is the rule gate's own on a LOW gate or the critic's on a MEDIUM one |
| LoopExits.ApplyLeadsBack | coding_agent/core/loop.py:1041-1080 | a verdict leads back to the agent exactly if it asks for a retry, retries are left, and neither of the last two decisions has its hash; otherwise the run ends |
| LoopExits.SilentReplyLeads | coding_agent/core/loop.py:1138-1170 | where a reply without calls leads: to a nudge while rows are unfinished, unless the last three nudges saw no progress, and otherwise to the sufficiency gate or the end |
| LoopExits.TurnsCounted | coding_agent/core/loop.py:502-600 | the turn counter is the number of agent turns of the run, and its limit the configured one |
| LoopExits.StallsCounted | coding_agent/core/loop.py:644-656 | the stall count is the number of guard checks that were not OK |
| LoopExits.MarkedIff | coding_agent/core/loop.py:1050-1051 | a run is marked for human review exactly if it was before or has escalated |
| LoopDelegations.ResolvedGatedIff | coding_agent/subagents/classifier.py:123-137 | a delegation runs as a gated role exactly if its agent_type is neither planner nor researcher and, when it is auto or left out, the classifier names a gated role |
| LoopDelegations.NamesResolve | coding_agent/subagents/classifier.py:133-135 | every role is resolved by its own name |
| LoopDelegations.GatedRoleIff | coding_agent/core/loop.py:124-126 | the gate's reading of agent_type holds exactly for the names of coder, verifier, fixer and reviewer, in any case and with white space around |
| LoopDelegations.AskedIff | coding_agent/core/loop.py:1117-1129 | the user is asked exactly when, with turns to spare and no danger, a reply spells out a gated delegation on a ledger with rows and nobody was asked before |
| LoopDelegations.ExecutedIff | coding_agent/core/loop.py:1117-1129 | any other reply with calls, with turns to spare and no danger, has exactly its own calls executed |
| LoopDelegations.AnswerObeyed | coding_agent/core/loop.py:762-901 | an answer that wants another decomposition empties the ledger, any other leaves it; the agent goes on without the calls asked about |
| LoopDelegations.UnaskedDelegationIff | coding_agent/core/loop.py:113-127 | at an unasked tools node on a registered ledger no delegation spells out a gated role, yet each runs as one exactly if its agent_type leaves one |
| LoopDelegations.UnaskedCoder | coding_agent/core/loop.py:124-126 | a single delegation with agent_type auto, none or unknown goes straight to the tools node unasked and runs as a coder |
| LoopDelegations.SameReplyNotAsked | coding_agent/core/loop.py:110-112 | on an empty ledger a reply that delegates to planner and coder at once passes the gate, and the planner's registration comes first |
| LoopDelegations.RunKeepsCompleted | coding_agent/core/loop.py:1228-1292 | in a run whose tools advance and register as delegations do, a completed row stays completed until an answer at the gate resets the ledger |
| LoopDelegations.DelegationsAreSuchSteps | coding_agent/core/loop.py:445 | a tools step that runs delegations advances and registers only, and leaves the rows the delegations leave |
| LoopGraph.RequiresDecompositionGate | coding_agent/core/loop.py:1117-1129 | the scan over the tool calls blocks exactly when the gate is needed |
| LoopGraph.AgentGraph.RouteAfterAgentNode | coding_agent/core/loop.py:1104-1170 | chooses the successor the step function chooses, reading the store's own counts |
| LoopGraph.AgentGraph.ToolsNode | coding_agent/core/loop.py:1277 | the tools' ledger operations, run one by one on the shared store, leave the rows the step function gives |
| LoopGraph.AgentGraph.ExecuteNode | coding_agent/core/loop.py:1228-1292 | each of the twelve nodes, updating fields and the shared store in place, is one step of the loop |
| LoopGraph.AgentGraph.Run | coding_agent/core/loop.py:1299-1343 | the run loop terminates within the node bound, in the state the step function reaches |
| Sufficiency.GateMonotone | coding_agent/sufficiency/rules.py:40-148 | making any signal worse never raises the gate level |
| Sufficiency.GateOverRows | coding_agent/sufficiency/rules.py:40-148 | the level of a gate as an if-and-only-if over the signals and the number of completed rows |
| Sufficiency.LowVerdictFollowsTrigger | coding_agent/sufficiency/rules.py:151-266 | with a low threshold of at most one half, a LOW gate gets the verdict of the first signal it tripped |
| Sufficiency.FallbackVerdict | coding_agent/sufficiency/rules.py:252-266 | behind a low threshold above one half, a LOW gate with no other signal and at least half of the rows done has the planner start over |
| Sufficiency.TriggersAre | coding_agent/sufficiency/rules.py:95-148 | which signals a gate names: a MEDIUM one always the shortfall or the lint errors, so its borderline and failed-tests branches are dead |
| Sufficiency.FallbackDeadIff | coding_agent/sufficiency/rules.py:237-266 | the fallback verdict is unreachable if and only if the low threshold is at most one half |
| Sufficiency.TodoDrivenLow | coding_agent/sufficiency/signals.py:313-315 | for counts with nothing unfinished, a completion ratio below one half means more verify_failed than completed rows |
| Sufficiency.ApplyKeepsHistory | coding_agent/sufficiency/loop.py:55-149 | applying a verdict keeps the history sound, and a retry is accepted only while fewer than S were |
| Sufficiency.AppliedIs | coding_agent/sufficiency/loop.py:41-149 | what becomes of a verdict, by kind, the last two hashes and the retries so far, and what the history records of it |
| Sufficiency.AcceptedAtMostMax | coding_agent/sufficiency/loop.py:107-149 | at most max(0, S) decisions are accepted, so at most one more is recorded |
| Sufficiency.RepeatEscalates | coding_agent/sufficiency/loop.py:55-71 | deciding again what one of the last two accepted entries decided escalates, for any hash function |
| Sufficiency.TwoEqualLowGatesEscalate | coding_agent/sufficiency/loop.py:41-149 | applied one right after the other, two LOW verdicts of the same kind and target escalate at the second |
| Resilience.RecoverySpendsBudget | coding_agent/resilience_compat.py:397-459 | each resolution spends the handler's budget, and the tier only descends |
| Resilience.HandlerAnswers | coding_agent/resilience_compat.py:207-281 | by what went wrong: server errors are retried three times, malformed tool calls once, everything else twice; only the last kind falls back |
| Resilience.PoliciesAre | coding_agent/resilience_compat.py:207-257 | per failure type: how many retries, how long these wait in all, the longest wait, and whether another model is tried |
| Resilience.RecoveryStops | coding_agent/resilience_compat.py:377-459 | fed its own retry count and tier, the handler stops after at most four resolutions per remaining tier, for any error types |
| Resilience.RecoveryBoundIsTight | coding_agent/resilience_compat.py:207-257 | from the reasoning tier fifteen failures can leave it still going, so sixteen is exact |
| Resilience.RetryWithBackoff | coding_agent/resilience_compat.py:299-335 | first success or last error, at most r+1 attempts, total sleep at most min(base·(2^r − 1), r·max), the exact sleep for the attempts made |
| TodoLedger.FirstPositionLastValue | coding_agent/tools/todo_tool.py:134-143 | registering keeps, per id, its first position and its last value, and nothing else |
| TodoLedger.CountsSumToRows | coding_agent/tools/todo_tool.py:160-165 | the counts sum to the number of rows |
| TodoLedger.CountsAreRows | coding_agent/tools/todo_tool.py:160-165 | each of the four counts is the number of places in the ledger that hold a row with that status |
| TodoLedger.NoneUnfinished | coding_agent/core/loop.py:243-245 | "pending plus in_progress is zero" holds exactly when every row is terminal |
| TodoLedger.MarkedRow | coding_agent/tools/todo_tool.py:145-153 | setting a status changes that row only, and keeps ids and order |
| TodoLedger.AdvancedIsMarked | coding_agent/tools/task_tool.py:147-176 | auto-advance sets the wanted status, except that a completed row stays completed |
| TodoLedger.AdvanceKeepsCompleted | coding_agent/tools/task_tool.py:162-165 | no auto-advance takes any row out of completed |
| TodoLedger.ApplyAllKeepsDistinct | coding_agent/tools/todo_tool.py:96-180 | no sequence of operations ever produces a duplicate id |
| TodoLedger.RowDroppedIff | coding_agent/tools/todo_tool.py:111-170 | a row leaves the ledger exactly by reset or by an accepted registration that omits it |
| TodoLedger.TerminalRowKept | coding_agent/tools/todo_tool.py:122-133 | no single operation but reset drops a row that is terminal at that moment |
| TodoLedger.TerminalRowSurvives | coding_agent/tools/todo_tool.py:111-170 | a terminal row stays, terminal, through any sequence that neither resets nor reopens it |
| TodoLedger.ReopenedRowCanBeLost | coding_agent/tools/todo_tool.py:284-285 | called in this order, update_todo to pending and write_todos drop a completed row |
| TodoLedger.FailedRowCanBeLost | coding_agent/tools/task_tool.py:162-165 | a verify_failed row advanced back to in_progress is dropped by the next registration |
| TodoLedger.CompletedRowSurvives | coding_agent/tools/task_tool.py:162-165 | a completed row stays, completed, through any sequence of advances and registrations |
| TodoLedger.AgreeFind | coding_agent/tools/todo_tool.py:178-179 | order list and map agree: an id is in the map exactly when it is in the order, once |
| TodoLedger.TodoStore.constructor | coding_agent/tools/todo_tool.py:104-107 | a new store is valid and empty |
| TodoLedger.TodoStore.ListItems | coding_agent/tools/todo_tool.py:155-158 | the rows in insertion order, without duplicates |
| TodoLedger.TodoStore.Replace | coding_agent/tools/todo_tool.py:111-143 | refused exactly if a terminal row exists; otherwise the rows are the registered list with repeats merged |
| TodoLedger.TodoStore.Update | coding_agent/tools/todo_tool.py:145-153 | fails exactly on an unknown id; otherwise marks that row |
| TodoLedger.TodoStore.Counts | coding_agent/tools/todo_tool.py:160-165 | the one-pass count gives for each status the number of rows with it, and sums to the row count |
| TodoLedger.TodoStore.Reset | coding_agent/tools/todo_tool.py:167-170 | empties the ledger |
| TodoLedger.WriteTodosTool | coding_agent/tools/todo_tool.py:229-243 | rejection leaves the ledger unchanged; the reply says which happened |
| TodoLedger.UpdateTodoTool | coding_agent/tools/todo_tool.py:267-298 | refuses verify_failed and unknown ids without effect |
| TodoLedger.AutoAdvanceTodo | coding_agent/tools/task_tool.py:147-176 | moves the row exactly when it exists, differs and is not a completed row leaving completed |
| ToolMessages.SanitizeCovers | coding_agent/core/tool_call_utils.py:203-235 | after one pass every call has an id and is answered by the unbroken block right behind its message |
| ToolMessages.SecondPassDropsOrphans | coding_agent/core/tool_call_utils.py:133-235 | the second pass deletes exactly the orphaned tool messages the first left |
| ToolMessages.TwoPassesConverge | coding_agent/core/tool_call_utils.py:133-235 | after two passes calls and results are paired both ways, and a third changes nothing |
| ToolMessages.FixedIffWellPaired | coding_agent/core/tool_call_utils.py:133-235 | the histories sanitising leaves alone are exactly the well-paired ones |
| ToolMessages.OrphansComeFromDemotion | coding_agent/core/tool_call_utils.py:221-230 | what one pass leaves orphaned are answers to calls it demoted |
| ToolMessages.OnePassEnoughIff | coding_agent/core/tool_call_utils.py:133-235 | one pass pairs everything if and only if, in the input, every id called for and answered has a caller whose answered calls are all answered in the unbroken block right behind it |
| ToolMessages.OnePassCanLeaveOrphan | coding_agent/core/tool_call_utils.py:203-230 | an answer separated from its call by another message stays as an orphan |
| PrepareMessages.PrepareKeepsMessages | coding_agent/core/tool_call_utils.py:360-371 | every non-tool message survives in order; an assistant message keeps content, id and other kwargs and a subsequence of its calls, or becomes plain text if it loses them all |
| PrepareMessages.PreparePairs | coding_agent/core/tool_call_utils.py:318-371 | after preparation every call has a name and an id and is answered in the unbroken block right behind it |
| PreparedCalls.PrepareSends | coding_agent/core/tool_call_utils.py:243-371 | message by message: all named and answered calls are kept or none, with the reason as text if it had none; serialised calls are those with the kept ids, dicts dumped, or, if there are none, one per call with its own id, name and arguments |
| PreparedCalls.PrepareKeepsResults | coding_agent/core/tool_call_utils.py:192-198 | of the tool results exactly those go that answer no named call; the rest keep order and number |
| PreparedCalls.NamedExactly | coding_agent/core/tool_call_utils.py:328 | the filter keeps exactly the calls with a name, in order and number |
| PreparedCalls.AnsweredExactly | coding_agent/core/tool_call_utils.py:165-167 | cleaning keeps exactly the calls answered somewhere, in order and number |
| PreparedCalls.KwExactly | coding_agent/core/tool_call_utils.py:171-176 | serialised calls are cut down to exactly those with an id kept |
| PrepareMessages.PrepareLeavesDictIff | coding_agent/core/tool_call_utils.py:243-310 | a dict is left among serialised arguments exactly where a call-less assistant message carried one |
| PrepareMessages.PrepareOfWellPaired | coding_agent/core/tool_call_utils.py:243-371 | a well-paired, well-named history changes in its serialised kwargs only, and preparing again changes nothing |
| PrepareMessages.PrepareWellPairedIff | coding_agent/core/tool_call_utils.py:368-371 | preparation leaves no orphan if and only if, among the named calls of the input, every id called for and answered has a caller answered at once |
| PrepareMessages.FilterInvalidToolCalls | coding_agent/core/tool_call_utils.py:318-352 | the loop computes the filtering pass |
| PrepareMessages.CollectIds | coding_agent/core/tool_call_utils.py:144-157 | the first scan finds exactly the call ids and the result ids |
| PrepareMessages.RemoveUnmatched | coding_agent/core/tool_call_utils.py:159-198 | the second loop computes the cleaning half |
| PrepareMessages.SeenIds | coding_agent/core/tool_call_utils.py:214-220 | the inner index scan finds exactly the ids of the unbroken block of tool messages |
| PrepareMessages.SanitizeMessages | coding_agent/core/tool_call_utils.py:133-235 | the three loops together compute one sanitising pass |
| PrepareMessages.EnsureToolCallsSerializable | coding_agent/core/tool_call_utils.py:243-310 | the loop computes the serialising pass |
| PrepareMessages.PrepareMessagesForLlm | coding_agent/core/tool_call_utils.py:360-371 | the pipeline computes preparation |
| Json.ParseValueLocal | coding_agent/core/tool_call_utils.py:76 | a JSON value read without looking past n characters is read the same wherever those characters occur |
| JsonGrammar.LoadsIsGrammar | coding_agent/core/tool_call_utils.py:74-78 | the parser accepts a text if and only if it is white space around the text of some syntax tree of the JSON grammar, and returns exactly what that tree means |
| JsonGrammar.WellFormedIff | coding_agent/core/tool_call_utils.py:74-78 | its scan of numbers accepts exactly the grammar's numbers |
| JsonRepair.TryParseJsonArgs | coding_agent/core/tool_call_utils.py:68-103 | the loop terminates and computes the three-stage repair |
| JsonRepair.RepairDropsSurplusBraces | coding_agent/core/tool_call_utils.py:81-89 | for every object text, any number of extra closing braces and any trailing white space are ignored |
| JsonRepair.RepairFindsObject | coding_agent/core/tool_call_utils.py:74-103 | for a + v + b with no opening brace in a and no closing brace in b, v's members are returned, except exactly when the whole text is another JSON value |
| JsonRepair.ObjectInArrayIsLost | coding_agent/core/tool_call_utils.py:75-77 | an object alone in an array yields no arguments |
| ReadCache.BoundedIff | coding_agent/tools/file_ops.py:43-50 | the configured size bounds the cache for every operation sequence if and only if it is at least four |
| ReadCache.ReadKeyInjective | coding_agent/tools/file_ops.py:96 | different path, offset, limit or modification time give different keys, colons in paths included |
| ReadCache.StepKeepsCoherent | coding_agent/tools/file_ops.py:52-58 | every tool call but one that empties its file and raises keeps all cached reads equal to what reading the file now would show |
| ReadCache.EveryReadIsFresh | coding_agent/tools/file_ops.py:82-321 | after any sequence of tool calls, evictions and failing writes, a cached read answers exactly what an uncached one would, if no half-write of that path came after a read with that stamp |
| ReadCache.HalfWriteSpoilsIff | coding_agent/tools/file_ops.py:288-294 | a write that raises after emptying its file spoils exactly the reads of that path still cached under the stamp, unless the rest shows the same |
| ReadCache.AttemptLeaves | coding_agent/tools/file_ops.py:288-294 | what a write leaves behind, by where it raised: directories, the file, every other file, the cache |
| ReadCache.StaleAfterHalfWrite | coding_agent/tools/file_ops.py:288-294 | a read, a half-written file and the same read with the same stamp: the answer is what is gone |
| ReadCache.ReplaceFirstSplits | coding_agent/tools/file_ops.py:312-318 | an edit that is carried out replaces one occurrence and nothing around it |
| ReadCache.FoundOnceIff | coding_agent/tools/file_ops.py:310-315 | the count the edit looks at is one if and only if the old text occurs and no two occurrences lie apart |
| ReadCache.EditsIff | coding_agent/tools/file_ops.py:304-321 | an edit is carried out exactly on a file in which the old text is found once; an empty old text only in an empty file |
| ReadCache.CountIsMost | coding_agent/tools/file_ops.py:311 | no set of occurrences that lie apart is larger than the count |
| ReadCache.ToolCache.Get | coding_agent/tools/file_ops.py:34-41 | looks up without changing entries and counts hits and misses |
| ReadCache.ToolCache.PutEntry | coding_agent/tools/file_ops.py:43-50 | evicts the oldest quarter when full, then stores; keeps the bound from size four on |
| ReadCache.ToolCache.InvalidatePath | coding_agent/tools/file_ops.py:52-58 | removes exactly the entries whose key contains the path |
| ReadCache.FileTools.ReadFile | coding_agent/tools/file_ops.py:82-110 | with the reads cached for this path and stamp in order, the answer is the uncached one, and they stay so |
| ReadCache.FileTools.WriteFile | coding_agent/tools/file_ops.py:281-294 | directories made, file emptied or file written, depending on where it raises; the cache is told only if nothing does |
| ReadCache.FileTools.EditFile | coding_agent/tools/file_ops.py:304-321 | edits only if the old text occurs exactly once; the cache is told only if the write does not raise |
| TaskId.ExtractAcrossNewline | coding_agent/tools/task_tool.py:64-80 | the id of two texts on separate lines is the first one's, or else the second one's |
| TaskId.ExtractIsPattern | coding_agent/tools/task_tool.py:71-78 | an id is extracted if and only if it is the upper case of the first, and there the longest, match of the pattern, which is stated without reference to the search; none exactly if nothing matches |
| TaskId.NumberedIds | coding_agent/tools/task_tool.py:68-71 | every task number, with or without a sub-task, in whatever case, is found whole |
| TaskId.GluedIsNoId | coding_agent/tools/task_tool.py:71 | a task number with a letter, digit or underscore right before it, or a letter or underscore right behind it, is no id |
| TaskId.ChainDescriptionsShow | coding_agent/tools/task_tool.py:368-427 | the built descriptions show the first 800 characters of the coder's description and the last 1,500 or 2,500 of the report, and nothing more of either |
| TaskId.EvidenceShown | coding_agent/tools/task_tool.py:601-617 | a fixer is shown the first 8,000 characters of the evidence, a note if there was more, and its description last |
| TaskId.ChainKeepsId | coding_agent/tools/task_tool.py:368-427 | the chain's verifier and fixer descriptions carry the coder's id whenever it survives the cut to 800 characters |
| TaskId.PrependedId | coding_agent/tools/task_tool.py:601-617 | prepended evidence takes precedence: its first id, if any, hides the description's own |
| VerifierReport.SignalsSuccessMeans | coding_agent/tools/task_tool.py:311-331 | the structured check holds exactly if some execute ran and none failed |
| ReportLaws.ExecutesAppend | coding_agent/tools/task_tool.py:262-266 | the execute calls reported are exactly those of that name, each with the result at its own place |
| ReportLaws.LinesAppend | coding_agent/tools/task_tool.py:270-279 | each reported call adds a line with its command and, if it showed anything, one with what it showed |
| ReportLaws.SnippetShows | coding_agent/tools/task_tool.py:273-279 | of what a call showed the first 800 characters, without the white space around, and a note if there was more |
| ReportLaws.SummaryEndsAtHeading | coding_agent/tools/task_tool.py:222-227 | the summary is cut right before the first of the five instructing headings, wherever it stands |
| ReportLaws.SummaryIsShort | coding_agent/tools/task_tool.py:228-230 | and kept whole up to 400 characters, with a note beyond |
| ReportLaws.WrittenFilesAre | coding_agent/tools/task_tool.py:283-292 | the files listed are exactly those written or edited, each once |
| ReportLaws.ResultReads | coding_agent/tools/task_tool.py:738-755 | a formatted result is its tag and role, the verifier's report or plain output, the files and the duration, line by line |
| VerifierReport.ChecksDisagreeIff | coding_agent/tools/task_tool.py:243-331 | on a report the text check passes, the structured check sees a failure exactly if some execute was not ok or had its only markers cut off |
| VerifierReport.ChecksAgreeOnShortOutputs | coding_agent/tools/task_tool.py:493-498 | if all executes were ok with at most 800 characters shown, a clean report means none failed, and the structured check holds exactly if any ran |
| VerifierReport.SingleRunJudged | coding_agent/tools/task_tool.py:243-331 | of a verifier that ran one command the text check judges what the report shows, the structured check the whole output |
| ShellOutput.FailureReturnedIff | coding_agent/tools/shell.py:434-446 | a failing command's exit line is in the returned output exactly if the command printed at most 9,988 characters |
| ShellOutput.SuccessReturned | coding_agent/tools/shell.py:434-446 | a command that succeeds returns what it printed without the white space around, or says that there was nothing |
| ShellOutput.FailureReportedIff | coding_agent/tools/task_tool.py:273-279 | it is in the report exactly if it is returned and its first eleven characters fall within the 800 shown |
| ShellOutput.FailureMissedIff | coding_agent/tools/task_tool.py:311-498 | for any failing command with otherwise marker-free output: exactly when each of the two checks misses the failure |
| ShellOutput.FailureCutOffIff | coding_agent/tools/task_tool.py:277-278 | the failures only the text check misses lie between the two limits |
| ShellOutput.PaddedFailure | coding_agent/tools/shell.py:442-444 | a failing command that prints n letters passes the text check from 800 on, and both checks from 9,989 on |
| Delegation.TaskTool.StartHook | coding_agent/tools/task_tool.py:664-691 | moves the row to in_progress and counts a fixer under its key |
| Delegation.TaskTool.EndHook | coding_agent/tools/task_tool.py:693-736 | caches verifier evidence; completes the row except for coders and unsuccessful verifiers |
| Delegation.TaskTool.InnerFunc | coding_agent/tools/task_tool.py:757-773 | hooks around the SubAgent call, exceptions before and after the start hook included |
| Delegation.TaskTool.AutoVerifyChain | coding_agent/tools/task_tool.py:430-598 | the loop computes the chain: its calls, events, log, verdict and state |
| Delegation.TaskTool.RunWrapped | coding_agent/tools/task_tool.py:777-867 | one delegation, cap check, evidence, chain and marker-driven advance included, is the delegation function |
| ChainProtocol.ChainProtocolHolds | coding_agent/tools/task_tool.py:430-598 | at most M verifiers and M−1 fixers, strictly alternating, under pairwise distinct ids; each start event followed at once by its end; stops at the first exception, pass or verifier M; passed iff the last call is a verifier whose report was completed without failure marker |
| ChainProtocol.ChainFollows | coding_agent/tools/task_tool.py:449-586 | the k-th call, its description, events and log entry are given by k and the answers so far, and the final state is that of making those calls in turn |
| ChainProtocol.NthIdsDistinct | coding_agent/tools/task_tool.py:454-543 | call ids within a chain never collide |
| ChainProtocol.ChainTextShows | coding_agent/tools/task_tool.py:526-598 | the chain's text begins with the coder's report and ends with the report it passed on, or with every entry of the log |
| ChainProtocol.EntriesSay | coding_agent/tools/task_tool.py:480-578 | a log entry says whose round it was and which, whether the call raised, and what was said |
| ChainProtocol.NextVerifierSees | coding_agent/tools/task_tool.py:580-583 | the next verifier is shown the end of the fixer's report |
| ChainProtocol.CapMessageSays | coding_agent/tools/task_tool.py:817-825 | a delegation that is turned away says INCOMPLETE, for which task, after how many attempts and at which limit |
| ChainLedger.CoderTaskMarksRow | coding_agent/tools/task_tool.py:834-867 | a finished coder task whose id survives the cut leaves its row completed exactly if it was before, a hook in the chain completed it, the chain passed or a SubAgent wrote the passed marker, and verify_failed otherwise; no other row changes |
| ChainLedger.ReplayMarks | coding_agent/tools/task_tool.py:664-736 | the hooks inside a chain leave the row in_progress, or completed exactly if one of them completed it |
| ChainLedger.ChainTextReads | coding_agent/tools/task_tool.py:526-598 | the chain's text holds the passed marker exactly if it passed or a SubAgent wrote the marker; a failed chain's text always holds the failed marker |
| ChainLedger.ForgedMarkerCompletesRow | coding_agent/tools/task_tool.py:855-866 | a coder that prints the passed marker gets its row completed although every verifier failed to start |
| ChainLedger.FailedTestsCompleteRow | coding_agent/tools/task_tool.py:490-535 | a coder's row is completed by a chain that passes at its first verifier although that verifier's only command failed, whenever its exit line begins past either limit |
| ChainLedger.SilencedFailureCompletesRow | coding_agent/tools/task_tool.py:728-736 | a verifier delegated to directly completes its row over a failed command exactly if the command printed more than 9,988 characters |
| ChainLedger.FixerHookCompletesRow | coding_agent/tools/task_tool.py:710-736 | once the first verifier did not pass and the fixer after it ended COMPLETED, the row ends completed whatever the rest of the chain finds |
| ChainLedger.UnverifiedRowCompleted | coding_agent/tools/task_tool.py:640-641 | a concrete chain that fails, with no marker written by anyone, and still leaves its row completed |
| FixerCap.TaskCounts | coding_agent/tools/task_tool.py:664-838 | a delegation raises each key's counter by the fixers started under it and touches no other key; it is turned away exactly when the cap is reached, and then changes nothing |
| FixerCap.SameKeyIff | coding_agent/tools/task_tool.py:802-828 | the checked key is the counted key if and only if the prepended evidence names no other task |
| FixerCap.FixerRunsBounded | coding_agent/tools/task_tool.py:662-838 | over any sequence of delegations with neutral evidence each key gets at most CAP direct fixer runs and at most (M−1) more per chain touching it, and the counter counts exactly those |
| FixerCap.FixerRunsPerKey | coding_agent/tools/task_tool.py:662-838 | with neutral evidence and coder ids that survive the cut, a key gets at most CAP plus (M−1) per coder run for that key |
| FixerCap.CountedFromNew | coding_agent/tools/task_tool.py:662-827 | from a new tool on, a key's counter is the number of fixers started under it, and a direct fixer is turned away exactly if the cap has been reached |
| FixerCap.DirectRunsBounded | coding_agent/tools/task_tool.py:802-838 | for any evidence, direct fixers under a key number at most the cap plus those handed evidence naming another task, and counters never fall |
| FixerCap.ChainStaysOnKey | coding_agent/tools/task_tool.py:404-427 | a coder task whose id survives the cut spends its chain's fixers on its own key only |
| FixerCap.ForeignEvidenceBypassesCap | coding_agent/tools/task_tool.py:665-678 | with evidence naming another task, no number of delegations reaches the cap |
| EvidenceCache.LatestMeans | coding_agent/tools/task_tool.py:699-708 | the latest report is that of the last verifier that ended COMPLETED or INCOMPLETE |
| EvidenceCache.EvidenceIsLatest | coding_agent/tools/task_tool.py:653-828 | over any sequence of delegations, chains and exceptions included, the evidence a fixer is handed is the latest report |
| DelegationLedger.DelegationsAreOps | coding_agent/tools/task_tool.py:664-867 | any sequence of delegations changes the ledger exactly by a list of advances and the planner's own tool calls |
| DelegationLedger.DelegationsKeepCompleted | coding_agent/subagents/roles.py:202-209 | with planners that hold no ledger tool but write_todos, a completed row stays completed through any delegations |
| DelegationLedger.DelegationsCanLoseFailedRow | coding_agent/tools/task_tool.py:664-669 | two delegations lose a verify_failed row: work on it starts again, then the planner registers anew |
| SseStream.EventStream.TodoChangeFrameIfChanged | coding_agent/web/sse_emitter.py:287-312 | a frame exactly if the snapshot differs from the one shown last |
| SseStream.EventStream.MapLanggraphEvent | coding_agent/web/sse_emitter.py:107-234 | the branch chain with its in-place updates computes the event mapping |
| SseStream.EventStream.ConsumeEvents | coding_agent/web/sse_emitter.py:578-619 | the inner loop handles the events in order up to the first exception |
| SseStream.EventStream.StreamAgentEvents | coding_agent/web/sse_emitter.py:452-740 | the generator yields exactly the stream, through resumes, interrupts, timeouts and exceptions |
| SseLaws.StreamIsFaithful | coding_agent/web/sse_emitter.py:452-740 | todo frames are the stutter-free snapshots of both paths, listener frames appear once in push order, run.start is first, run.end is last, each exactly once, and it reports success exactly if no exception and no unserved interrupt was met, a failing state lookup reading as none |
| SseNotices.ListenerTells | coding_agent/web/sse_emitter.py:257-284 | the listener's frames correspond one to one, in order, to the starts and ends it was told of: same role, same success, and the first 200 characters of the description behind the attempt's number |
| SseNotices.ChainShown | coding_agent/tools/task_tool.py:449-586 | a stream told of one chain shows every call of it as a start and an end under its role, and the last end reports success exactly if the chain passed |
| SseEnds.StreamOpensAndCloses | coding_agent/web/sse_emitter.py:481-740 | the first frame carries the session and the start of the request, the last the response and, unless the run succeeded, the reason why not |
| SseEnds.StreamWaits | coding_agent/web/sse_emitter.py:578-684 | one keep-alive for every silence, each question once, and one for every interval without an answer, in order |
| SseEnds.ArrivalSends | coding_agent/web/sse_emitter.py:598-619 | at one event: the ledger if it changed, then the listener's frames that have come together, then the event's own frame |
| SseLaws.PreviewShows | coding_agent/web/sse_emitter.py:86-96 | a tool's output shows its first 200 characters, without the white space around, and dots if there are more |
| SseLaws.ErrorOutputIff | coding_agent/web/sse_emitter.py:99-104 | it counts as an error exactly if the word, in either case, ends within the first fifty characters |
| SseLaws.StepShows | coding_agent/web/sse_emitter.py:598-619 | every event, notice and silence keeps the correspondence between frames and what was seen |
| SseLaws.DedupStutterFree | coding_agent/web/sse_emitter.py:309-312 | no snapshot is shown twice in a row and the last one shown is the last one seen |
| SseLaws.ViewerUpToDate | coding_agent/web/sse_emitter.py:598-619 | at every moment of a run what was sent is a prefix of the stream, its todo frames are the stutter-free snapshots seen so far, and the last one shown is the last one seen |
| SseLaws.SuccessOverInterruptIff | coding_agent/web/sse_emitter.py:629-645 | a stream reports success over an interrupt that got no answer exactly if reading the graph's state raised while it was waiting |
| SseDelegations.TopLevelIff | coding_agent/web/sse_emitter.py:161 | the saturating depth is zero exactly if, counted back from now, at least as many delegations ended as began, from every point on |
| SseDelegations.StreamShowsWork | coding_agent/web/sse_emitter.py:137-230 | the stream's delegation and tool-call frames are, in order, every delegation's start and end and the other tool calls met while no delegation is open |
| SseDelegations.EndNamesOwnRoleIff | coding_agent/web/sse_emitter.py:148-169 | the end frame of a delegation names the role of the delegation begun last, so its own if and only if the two have the same role |
| SseDelegations.ParallelEndMisnamed | coding_agent/web/sse_emitter.py:154-168 | of two parallel delegations with different roles the one begun first is shown ending under the other's role |
| SseDelegations.CallsVanishAfterQuestion | coding_agent/web/sse_emitter.py:139-208 | after a question from inside a delegation, if every later end has its start, no orchestrator tool call is shown for the rest of the stream |
| SseDelegations.ReadNotShown | coding_agent/web/sse_emitter.py:207-208 | concretely, a file read after an interrupted and repeated delegation is not shown |
| SseClosing.PendingAfterStream | coding_agent/web/sse_emitter.py:647-684 | read to its end, a stream leaves its question registered exactly if the question's payload was malformed |
| SseClosing.PendingWhenClosed | coding_agent/web/sse_emitter.py:649-684 | closed by its reader after n frames, it leaves a question registered exactly if the last of them is a question or the run had already failed on a malformed one |
| SseClosing.ReaderLeavesAtQuestion | coding_agent/web/sse_emitter.py:654 | a well-formed question stays registered when the reader leaves at its frame |

## Left out

- LLM calls, the minyoung_mah library (progress guard, orchestrator, replay cache, context compaction) and LangGraph itself: oracles and sequential node steps.
- Endings outside the graph: a missing answer handler, exceptions of the tool node, the recursion limit firing; and reuse of one checkpointer thread for a second turn.
- Reading the user's answer to the decomposition question: taken as one of four decisions. The dangerous-path condition of safe stop is an oracle value.
- The cycle hash is any function of (level, verdict, target); nothing is assumed about SHA-1, not even injectivity.
- Parsing of the critic's reply, and all signals but the todo counts and ratio, which come from the oracle.
- Real numbers stand for Python floats in ratios and sleep times.
- Message preparation works on values: the in-place rewrite of a `function` dict shared between two histories is not modelled. A `tool_calls` entry is always a dict.
- JSON: numbers are kept as texts (which number a text stands for is not modelled), the recursion limit of the parser is not modelled, and texts holding lone surrogates are left out.
- Files are keyed by resolved path, so hard links are left out; changes by other programs, negative cache sizes and the glob and grep results are left out too.
- Task ids: letter case and digits are ASCII, and word characters beyond ASCII are the main letter blocks.
- Prompt wording: the instruction lines behind the headings of the built descriptions are not reproduced; they come after everything the id search depends on.
- Role resolution: the wrapper's and the inner tool's resolution are taken to agree; a delegation carries the resolved role. Only the planner changes the ledger itself.
- Exceptions inside the evidence formatter, and a negative cap or attempt setting.
- FixerCap.FixerRunsBounded: assumes neutral evidence, because without it the bound is false (`ForeignEvidenceBypassesCap`).
- Locks, threads, context variables, callbacks and logging; elapsed times in frames.
- The payload of an `input_required` frame is carried through, not built from the interrupt.
- Shell execution, write policy, SQLite memory, configuration, rendering, web routes and prompts: they would add only easy members or rest on unseen code.
