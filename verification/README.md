# Verified models of the agent core

A Dafny model of the state machines at the heart of this coding agent, with proofs of what they promise.
`dafny verify dfyconfig.toml` checks the whole project. Instants are integers in nanoseconds, minutes and days are
integers counted from 1970-01-01, text is a sequence of characters, and whatever lies outside the code (the model, the
tools, the inbox, clocks, files that fail) is a parameter that may answer anything.

Code that updates fields in place is a class whose methods are proved against functions on values; what the code
promises is then proved about those functions, over every input or every run.

| component | files |
|---|---|
| turn engine | `TurnSpec`, `Agent`, `TurnLaws` (termination, budget, events), `TurnStops` (why it ends), `TurnLedger` (what was said), `TurnClean` (well-formed chains), `ToolBatch` (tool results), `ChainEvents` |
| interrupt handshake | `Interrupt` |
| tool-message sanitizer | `Messages`, `Pieces`, `Sanitizer`, `SanitizerLaws`, `Survivors` |
| live prompt, transcript, replay | `SlotOrder`, `Compose`, `LivePrompt`, `ReplaySpec`, `ReplayBuilder`, `SectionReplay`, `PromptVerdict`, `TranscriptReplay`, `AgentReplay`, `MessageBlocks` |
| cron | `Calendar`, `CronNext`, `Numerals`, `Remainders`, `Text`, `CronParse`, `CronFields`, `CronNames`, `Weekdays`, `OneShot`, `Cadence`, `Intervals` |
| scheduler and its shared file | `SchedulerSpec`, `Scheduler`, `Firing`, `JobEnds`, `SharedStore`, `StoredJobs` |
| harness refinements | `HarnessSpec`, `Harness`, `HarnessLaws`, `HarnessEntries` |
| knowledge graph | `Ontology`, `GraphStore` |
| delivery | `BlockBoundary`, `Fences`, `FlushSpec`, `StreamFlush`, `FlushLaws`, `FlushProgress` (streaming flush), `TailReader` |
| reminders | `Reminders` |

## Findings

Where a property turned out to hold only under a condition, the condition is proved to be exact.

- An interrupt is obeyed, until `waitForInput` accepts the next message, exactly when it leaves the agent `Halted`. It
  can be lost when the agent clears its latch for a received message between the interrupt's Store and its Swap, or
  after the Swap while the interrupt still holds the handle of a turn that has ended, and is lost when it returns before
  the latch is cleared for a message already accepted (internal/core/agent_impl.go lines 141-153 and 247-258;
  `ObeyedIffHalted`, `InterruptIsObeyed`, `LostInTheWindow`, `LostWhileHolding`, `LostBeforeTheClear`).
- Replay lists the sections with text in another order than the prompt exactly when two of them that were registered
  before the observer have been moved into one slot against their insertion order. Otherwise it composes the same text;
  in the other order it composes another text for some texts of the sections, and the same if they happen to agree
  (internal/inspector/replay.go lines 239-268; `PromptOrderIffUncrossed`, `PromptTextsIffUncrossed`,
  `ReplayComposesPrompt`, `MovedSectionsCross`).
- The recorder leaves out messages without content, so replay reports a mismatch at every inference whose chain holds
  one, an empty answer for instance (internal/session/recorder.go lines 207-214; `RequestChecksOutIff`).
- A stored conversation reads back as it was exactly when its messages have only parts that their role carries and each
  tool result names the tool of the last call with its call id: a reused call id gives earlier results the later tool's
  name (internal/session/node_convert.go lines 47-78; `RoundTripIff`).
- The loop that fills a cron field counts in 64 bits: a step near the largest integer wraps around and allows values it
  should not, exactly when `lo - 2*(2^63 - step)` reaches the least value of the field (internal/cron/cron.go lines
  120-122; `SteppedIsEveryIff`).
- A one-shot delay fires at its target exactly when no anniversary of the target's date comes first and the target lies
  within four 365-day years (internal/cron/loop.go lines 105-129; `FiresAtTargetIff`).
- Leap days lie 1461 days apart, one more than the horizon: a recurring job on 29 February finds no next match after it
  fires and is due at every tick for a day (internal/cron/cron.go line 143, internal/cron/store.go lines 177-205;
  `LeapDayRunsOut`, `FiresAgainIff`, `LeapDayRepeats`). A job charges no minute twice exactly when every match that
  fires before its expiry has a next match in the horizon (`AtMostOnceIffLasting`).
- A durable job leaves the file when another instance saves without being able to read it, until its creator saves
  again; a job that its creator gave up and that is off the file comes back only through an instance that had adopted it
  (internal/cron/store.go lines 312-335; `HeldIsOnFileIff`, `OnFileIff`, `GoneForGood`).
- A rollback undoes edits in the order they were made, so the last edit on a key decides what it leaves: nothing for a
  create, and for an update or delete the entry it met in its turn. A key is restored, up to update time and version,
  exactly when that is what was there at first: not after a create over a present entry, an update or delete of an
  absent one, or a create and an update of one absent key (internal/harness/refinement.go lines 313-386;
  `RestoresKeyIff`, `MetIs`, `EditedOnceIff`, `CreatedThenUpdatedStays`). Rolling back a rollback redoes the proposal in
  every case.
- An id made from a long title may end in an underscore, where it was cut at 80 characters; it is then not the slug of
  itself (internal/harness/state.go lines 364-390; `SlugAgainIff`).
- `SubClassesOf("")` lists every declared type, the one argument for which it disagrees with `IsA`
  (internal/graph/ontology.go lines 150-175; `ListedIffProperSubclass`).
- Validation accepts cyclic subclassing, and on an ontology with a cycle neither search ends for all arguments
  (internal/graph/ontology.go lines 59-175; `CyclesPassValidation`, `UpwardEndsIffAcyclic`, `DownwardEndsIffAcyclic`).
- Text that arrives in a row after its commit does not reach the viewport cache. Among the handlers only a commit of all
  rows on a streaming last row leads there, as at the first window size, and the mark of an interrupted answer after
  which another row was committed (internal/app/model_scrollback.go lines 217-244, internal/app/update_resize.go lines
  48-58, internal/app/conv/conversation.go lines 159-175; `EveryByteOnce`, `LateOnlyAfterCommitAll`,
  `CommitAllLosesIff`, `TextComesTooLate`, `LostForGood`).
- Chunks only join the last row, so a row appended while an answer streams in, such as the notice of a full input queue,
  keeps the rest of the answer out of its row (internal/app/conv/conversation.go lines 59-73,
  internal/app/update_submit.go lines 66-72; `WholeAnswerIff`).
- Stripping reminders twice takes more than stripping once exactly when the text before the reminders ends in a block
  followed by white space that the final trim takes and the loop does not, such as a vertical tab
  (internal/core/message.go lines 310-323; `IdempotentIff`, `EveryContent`, `NotIdempotentAfterVerticalTab`).

The code joins day-of-month and day-of-week with AND, unlike POSIX.1-2017 `crontab`, which joins them with OR when both
are restricted; the model does what the code does.

## Model

| member | source | states |
|---|---|---|
| `Agents.Agent.ThinkAct` | internal/core/agent_impl.go:343-498 | under a positive step cap the loop over mutable counters ends, with exactly the chain, events, counters and stop reason of the specified run, whatever the model, tools and inbox answer |
| `Agents.Agent.ThinkActFor` | internal/core/agent_impl.go:343-498 | under any cap or none, the first passes of the same loop, as many as asked for, leave exactly the specified state, still going on or finished |
| `Agents.Agent.BeforeInference` | internal/core/agent_impl.go:360-394 | cancellation, step cap, one drain per pass after the first step, and proactive compaction, in this order, decide whether the pass infers, starts over or ends |
| `Agents.Agent.RetryOrGiveUp` | internal/core/agent_impl.go:397-431 | a failed inference compacts, backs off within the retry budget, or ends the turn, without touching the step count |
| `Agents.Agent.Act` | internal/core/agent_impl.go:434-496 | an answer is appended before its tools run, and truncated output is resumed within the recovery budget only |
| `Agents.Agent.ExecTools` | internal/core/agent_impl.go:542-628 | every call gets one result, unknown tools first, unless cancellation cuts the list short |
| `Agents.Agent.Compact` | internal/core/agent_impl.go:702-717 | fewer than three messages or an empty summary leave the chain alone; otherwise one summary remains |
| `Agents.Agent.ApplyCompaction` | internal/core/agent_impl.go:727-744 | the chain becomes the summary, recorded before its boundary event, and the token figure is reset |
| `Agents.Agent.DrainInbox` | internal/core/agent_impl.go:912-925 | one inbox item is taken: shut down, compact, ignore or append |
| `Agents.Agent.Append` | internal/core/agent_impl.go:934-943 | the message enters the chain with an id, and observers hear of it in order |
| `TurnSpec.PassSpends` | internal/core/agent_impl.go:360-432 | each pass that goes on adds a step, uses a retry, or compacts a chain of three or more to one message: the lexicographic measure falls |
| `TurnSpec.RunIsPasses` | internal/core/agent_impl.go:343-498 | a capped run is some number of passes of the loop, so what holds after every number of passes holds at its end |
| `TurnLaws.RunStaysInBudget` | internal/core/agent_impl.go:343-498 | from any point of a run, the inferences still to come fit the budget left by steps, retries and compaction |
| `TurnLaws.InferencesAreBounded` | internal/core/agent_impl.go:343-498 | a turn with a positive cap asks for at most 2*(retries+1)*cap inferences, against any environment |
| `TurnLaws.UncappedNeverEnds` | internal/core/agent_impl.go:370-373 | without a positive cap there is a model against which every pass asks for one more inference |
| `TurnLedger.BooksBalance` | internal/core/agent_impl.go:343-498 | over any number of passes under any cap, the answers appended are those the model gave and the messages received those the inbox delivered, in order and unaltered; the counters of steps, tool uses and recoveries count the answers, the results without error and the prompts to resume |
| `TurnStops.AskedIff` | internal/core/agent_impl.go:387-397 | the model is asked exactly when the prompt is below 95 percent of its input or cannot be compacted |
| `TurnStops.CompactIff` | internal/core/agent_impl.go:702-717 | a compaction takes place exactly when there are three messages and a summary, and leaves the summary alone |
| `TurnStops.AnswerEnds` | internal/core/agent_impl.go:461-497 | a turn ends with an answer exactly when it calls no tools and was not cut, or was cut and the recovery budget is spent |
| `TurnStops.FailureEnds` | internal/core/agent_impl.go:398-431 | a turn ends with a failure exactly when it cannot be compacted away nor retried within the budget, and as cancelled when that or the backoff was cut |
| `TurnStops.PassEnds` | internal/core/agent_impl.go:361-397 | a pass that is cancelled, capped or shut down asks nothing and changes no message |
| `TurnStops.AnswerMeasures` | internal/core/agent_impl.go:440-440 | each answer measures the prompt, tool results leave the measure alone |
| `TurnStops.DrainedIsLast` | internal/core/agent_impl.go:376-381 | the drained item is the last message of the chain that is sent next, as it was delivered; a compaction replaces all |
| `TurnLaws.RunTellsItsStory` | internal/core/agent_impl.go:943-958 | under any step cap or none, after any number of passes, the last one included, the events reconstruct the chain, every compaction follows its own summary, and every request carries the chain of its moment |
| `TurnClean.ExecToolsAnswers` | internal/core/agent_impl.go:542-628 | uncancelled tool execution appends exactly one result per call, whatever mix of unknown, failing and succeeding tools |
| `ToolBatch.BatchAnswers` | internal/core/agent_impl.go:542-628 | whenever the turn is cancelled, the chain grows by results only, as many as were reached; each stands in its place, names its call, and holds for a known tool exactly what its execution returned |
| `ToolBatch.EveryCallIsAnswered` | internal/core/agent_impl.go:542-628 | an uncancelled batch answers every call, the j-th known one with the output and failure of the j-th execution, each unknown one with an error naming its tool, and counts the executions that did not fail |
| `TurnClean.RunIsSafe` | internal/core/agent_impl.go:376-496 | under any step cap or none, every request of a run from a well-formed chain carries a well-formed chain, through drains, recoveries, retries and compactions |
| `TurnClean.EveryRequestIsSanitized` | internal/llm/sanitize.go:21-76 | so at every inference of any run, capped or not, the chain is a fixed point of the sanitizer |
| `TurnClean.InboxMustBePlain` | internal/core/agent_impl.go:912-925 | a drained message keeps the chain a fixed point exactly when it is neither a result nor a caller |
| `Interrupt.NeverTwice` | internal/core/agent_impl.go:224-261 | in every interleaving no handle is cancelled or closed twice, and none is closed while its ThinkAct runs |
| `Interrupt.ExactlyOnce` | internal/core/agent_impl.go:224-261 | between turns, every handle ever published has been cancelled once and closed once |
| `Interrupt.InterruptIsObeyed` | internal/core/agent_impl.go:139-261 | in every interleaving, an interrupt during which no latch is cleared for a message leaves the agent halted, and so is obeyed until waitForInput accepts the next message, if and only if it does not return while an accepted message awaits its latch clear |
| `Interrupt.ObeyedIffHalted` | internal/core/agent_impl.go:139-261 | from any reachable state, no continuation in which waitForInput accepts no message runs a live ThinkAct if and only if the agent is halted |
| `Interrupt.LostInTheWindow` | internal/core/agent_impl.go:153-153 | the interleaving in which the latch clear falls between Store and Swap, and the interrupted turn runs live |
| `Interrupt.LostBeforeTheClear` | internal/core/agent_impl.go:141-153 | an interrupt that lies wholly between the return of waitForInput and the latch clear is lost |
| `Interrupt.LostWhileHolding` | internal/core/agent_impl.go:224-261 | an interrupt that still holds an ended turn's handle when the latch is cleared for the next message cancels only the ended turn, and the next runs live |
| `Sanitizer.SanitizeToolMessages` | internal/llm/sanitize.go:21-76 | the index loops compute exactly the declarative history: results only as first answers in the run of their caller, callers with their answered calls |
| `Sanitizer.AppendAnswers` | internal/llm/sanitize.go:56-73 | of a run of results, exactly the first answer to each kept call is appended, in order |
| `SanitizerLaws.OutputIsClean` | internal/llm/sanitize.go:10-20 | for every input, each kept call is answered in the run that follows it and each kept result is a first answer |
| `SanitizerLaws.FixedIffClean` | internal/llm/sanitize.go:10-20 | a history is left alone if and only if it is well formed |
| `SanitizerLaws.Idempotent` | internal/llm/sanitize.go:21-76 | sanitizing twice is sanitizing once |
| `SanitizerLaws.OrderIsKept` | internal/llm/sanitize.go:21-76 | kept messages stay in order |
| `SanitizerLaws.NothingIsInvented` | internal/llm/sanitize.go:21-76 | every output message is what one input message was kept as |
| `SanitizerLaws.NothingValidIsLost` | internal/llm/sanitize.go:21-76 | in the output stands every plain message unchanged, every caller with its text, and every call answered in its run with its caller and with its first answer in the run after it |
| `SanitizerLaws.AppendTurnStaysClean` | internal/llm/sanitize.go:10-20 | a caller and one result for each of its distinct calls keep a history well formed |
| `Survivors.OnlySurvivors` | internal/llm/sanitize.go:21-76 | the output has one message for each plain message, each first answer, and each caller with text or an answered call, at its rank among these; a caller keeps exactly its answered calls, each at its rank |
| `Survivors.NothingEmptyIsMade` | internal/llm/sanitize.go:56-63 | no caller is left in the output without text and without calls |
| `LivePrompt.System.Prompt` | internal/core/system_impl.go:47-63 | the cached prompt always equals rendering every section now, in render order |
| `LivePrompt.System.Build` | internal/core/system_impl.go:193-210 | reusing fresh section texts gives the same prompt as rendering all of them |
| `LivePrompt.System.Use` | internal/core/system_impl.go:65-88 | a replaced section keeps its insertion number, a new one gets the next; the observer hears of it |
| `LivePrompt.System.Drop` | internal/core/system_impl.go:90-103 | an unknown name changes nothing; a known one goes and is announced |
| `LivePrompt.System.Refresh` | internal/core/system_impl.go:105-129 | one section renders anew and nothing else changes |
| `LivePrompt.System.SetObserver` | internal/core/system_impl.go:146-163 | the observer is introduced to the existing sections in render order |
| `SlotOrder.SortNames` | internal/core/system_impl.go:176-188 | whatever order the map yields, the names come out by slot, then by insertion |
| `ReplayBuilders.ReplayBuilder.Apply` | internal/inspector/replay.go:121-191 | each record changes the replayed view as specified, and keeps it sound |
| `ReplayBuilders.ReplayBuilder.CheckInference` | internal/inspector/replay.go:193-213 | the verdicts compare the recorded prompt and message ids with what replay composes |
| `ReplayBuilders.ReplayBuilder.ComposedSystem` | internal/inspector/replay.go:239-268 | the sorted, non-empty section texts are joined as the live prompt joins them |
| `ReplayBuilders.ReplayBuilder.ActiveMessages` | internal/inspector/replay.go:282-331 | on any records the walk from the latest leaf ends with the specified trail, oldest first |
| `SectionReplay.RunKeepsLink` | internal/core/system_impl.go:65-163 | over any run of mutations the two numberings agree on which sections are old and on their order |
| `SectionReplay.ReplayOrderIffUncrossed` | internal/inspector/replay.go:249-268 | replay lists the sections in the prompt's order if and only if no two have crossed |
| `SectionReplay.PromptOrderIffUncrossed` | internal/inspector/replay.go:239-268 | and the sections that have text, the only ones a prompt shows, if and only if no two of them have crossed |
| `SectionReplay.PromptTextsIffUncrossed` | internal/inspector/replay.go:239-268 | the two sides compose the same text whatever the texts of these sections if and only if no two of them have crossed |
| `Compose.SameNamesIffSameTexts` | internal/inspector/replay.go:239-247 | two lists of names are equal exactly when they compose the same text for all non-empty texts of the names |
| `SectionReplay.ReplayComposesPrompt` | internal/inspector/replay.go:239-268 | then replay composes exactly the prompt the model receives, after any run of mutations |
| `SectionReplay.ReplayAgreesWithPrompt` | internal/inspector/replay.go:137-158 | if replacing keeps slots, folding the emitted changes composes exactly the live prompt |
| `SectionReplay.MovedSectionsCross` | internal/core/system_impl.go:65-88 | one replacement into another slot makes replay compose the two texts in the other order than the prompt |
| `PromptVerdict.PromptChecksOutIff` | internal/inspector/replay.go:193-213 | in any transcript that records a run among other records, a request passes the prompt check exactly when it claims no prompt or the one replay composes |
| `PromptVerdict.SentPromptChecksOut` | internal/inspector/replay.go:193-213 | if no two shown sections have crossed, the prompt that was sent passes and every other claim fails |
| `PromptVerdict.MovedPromptFails` | internal/inspector/replay.go:193-213 | after the one move that crosses two sections, the prompt that was sent fails |
| `PromptVerdict.MessagesAsWithoutSections` | internal/inspector/replay.go:121-191 | the active messages are those of the transcript without its section records |
| `TranscriptReplay.Recorder.OnAppend` | internal/session/recorder.go:201-235 | a message with an id and content is recorded with the last recorded one as its parent |
| `TranscriptReplay.Recorder.OnAgentEvent` | internal/session/recorder.go:159-197 | appends, compactions and requests become records in order |
| `TranscriptReplay.WalkIsAPath` | internal/inspector/replay.go:309-324 | from any message of any records, cyclic or dangling, the walk is a duplicate-free parent path that stops only where it must |
| `TranscriptReplay.ReplayFindsTheChain` | internal/inspector/replay.go:282-331 | for any appends and compactions with distinct ids, the active messages are the agent's chain, less its contentless messages |
| `TranscriptReplay.RequestChecksOutIff` | internal/inspector/replay.go:193-213 | the message-id check of an inference passes if and only if every message of its chain had content |
| `TranscriptReplay.ShownIsAllIff` | internal/session/message_convert.go:99-199 | the recorded ids are all ids of the chain exactly when every message serializes to some block |
| `MessageBlocks.RecordedIffBlocks` | internal/session/message_convert.go:99-199 | the messages the recorder records are exactly those that become some content block, every tool result among them |
| `MessageBlocks.MessageToBlocks` | internal/session/message_convert.go:99-199 | a message becomes the blocks of its role: thinking, text and calls of an answer, or a tool result, or spans of text |
| `MessageBlocks.ReadsBack` | internal/session/message_convert.go:210-281 | whatever the spans a text is cut into, the blocks of a message read back as the message, less what its role does not carry and the name of the tool |
| `MessageBlocks.MessagesToNodes` | internal/session/node_convert.go:16-42 | each message with a role in the transcript becomes a node whose parent is the node before it |
| `MessageBlocks.MessagesFromNodes` | internal/session/node_convert.go:47-78 | nodes are read back in order, tool results taking the name of the last call with their id |
| `MessageBlocks.RoundTripIff` | internal/session/node_convert.go:16-78 | a conversation comes back as it was if and only if each message has an id and only parts its role carries, and each tool result names the tool of the last call with its id |
| `AgentReplay.EveryInferenceReplays` | internal/core/agent_impl.go:934-958 | at every inference of any run of the turn engine, capped or not, replaying the transcript so far gives the chain just sent |
| `Calendar.NumberOfCivil` | internal/cron/cron.go:171-177 | the closed-form day number of the n-th day is n |
| `Calendar.CivilOfNumber` | internal/cron/cron.go:171-177 | and the day with a date's number is that date, with real month lengths and leap years |
| `Calendar.SameMonthUntil` | internal/cron/cron.go:171-177 | no minute before the jump target of advanceMonth lies in another month |
| `CronNext.SearchAfter` | internal/cron/cron.go:140-168 | the skipping loop ends with the first match that looking at every minute would find |
| `CronNext.Pass` | internal/cron/cron.go:145-165 | each pass finds a match or moves to a later minute past none |
| `CronNext.NextAfterIsLeast` | internal/cron/cron.go:138-168 | the result is the least matching minute after the instant and before the deadline, and nothing exactly when none exists |
| `Weekdays.WeekdayIs` | internal/cron/cron.go:151-151 | the weekday tested is that of the date by the congruence of Zeller, a formula in year, month and day |
| `Weekdays.WeekGoesRound` | internal/cron/cron.go:151-151 | the next date has the next day of the week, over months and years |
| `Weekdays.MatchesDate` | internal/cron/cron.go:145-165 | a minute of a date matches exactly when the fields allow its time, date, month and day of the week by that formula |
| `Weekdays.FiresWeekly` | internal/cron/cron.go:138-168 | a line with a minute, an hour and a weekday fires next on the first later date of that weekday, and then every seven days |
| `CronParse.Parse` | internal/cron/cron.go:43-66 | five fields, each read under its own range, or no expression |
| `CronParse.ParseField` | internal/cron/cron.go:69-78 | a field is the union of its parts, if all parts parse |
| `CronParse.ParsePart` | internal/cron/cron.go:80-136 | aliases, step, wildcard, range and single value, with their errors, add the specified values |
| `CronParse.StepThrough` | internal/cron/cron.go:100-102 | the loop ends, with the 64-bit counter wrapping where it does |
| `CronParse.SteppedIsEveryIff` | internal/cron/cron.go:121-123 | the loop sets exactly the values at whole steps from the start if and only if its counter does not wrap into the field |
| `CronFields.RangeStepFieldIff` | internal/cron/cron.go:108-125 | so a range with a step means what it says under the same condition, for every step |
| `CronFields.StepOnOneValueIsIgnored` | internal/cron/cron.go:87-135 | a step after a single value is accepted without effect |
| `CronFields.LineParses` | internal/cron/cron.go:43-66 | a line of five printed words parses to the five fields they read as |
| `CronNames.ListAllowsEither` | internal/cron/cron.go:69-78 | a list allows what its parts allow, and fails when one of them fails |
| `CronNames.MonthField` | internal/cron/cron.go:80-86 | a month name in any case means its number, counted from January, 1 |
| `CronNames.WeekdayField` | internal/cron/cron.go:80-86 | a weekday name in any case means its number, counted from Sunday, 0 |
| `CronNames.WeekdayRange` | internal/cron/cron.go:80-125 | a range of weekday names means the days from one to the other |
| `CronNames.NameRange` | internal/cron/cron.go:80-125 | and so does a range of any names |
| `CronNames.NumberFieldIff` | internal/cron/cron.go:127-136 | a number is accepted exactly when the field has it |
| `CronNames.RangeFieldIff` | internal/cron/cron.go:108-125 | a range exactly when the field has both ends and they are in order |
| `CronNames.NoZeroStep` | internal/cron/cron.go:88-97 | a step of zero is refused |
| `Numerals.AtoiOfItoa` | internal/cron/loop.go:124-124 | reading back a printed number gives the number |
| `Numerals.DigitAt` | internal/cron/loop.go:124-124 | the digits of a printed number are its decimal digits, the first one not zero |
| `Numerals.ZeroInFront` | internal/cron/cron.go:110-130 | a number reads the same with a zero in front |
| `OneShot.OnceParses` | internal/cron/loop.go:122-127 | the line printed for a target parses to its minute, hour, day and month and any weekday |
| `OneShot.OneShotFires` | internal/cron/loop.go:105-129 | every delay of 1 minute to 365 days fires exactly at its target |
| `OneShot.FiresAtTargetIff` | internal/cron/loop.go:105-129 | any delay does, if and only if no anniversary comes first and the target is within the horizon |
| `Cadence.NearestAllowed` | internal/cron/loop.go:218-229 | the closest allowed interval, of two equally close the larger |
| `Cadence.LoopIntervalToCadence` | internal/cron/loop.go:168-197 | the effective interval is the nearest in its range, and the line is the one for it |
| `Cadence.CadenceIsEven` | internal/cron/loop.go:231-269 | every effective interval up to a day gives a line that parses and matches exactly one residue modulo the interval |
| `Cadence.FiresEvenly` | internal/cron/loop.go:231-269 | so each fire follows the last by exactly the interval, over hours, midnights and months |
| `Cadence.SeveralDaysMatch` | internal/cron/loop.go:253-268 | longer intervals match on days at whole intervals from the first of each month |
| `Cadence.FiresByTheMonth` | internal/cron/loop.go:253-268 | and fire next after the interval while the month lasts, else on the next first: after the interval exactly when it does not run past that first |
| `Intervals.IntervalIsDuration` | internal/cron/loop.go:199-216 | an interval counts the least number of whole minutes that last as long as the requested seconds, minutes, hours or days |
| `Intervals.KeptIff` | internal/cron/loop.go:168-197 | an interval is effective as requested exactly when it divides the hour, or in hours the day, or is up to 31 days |
| `Intervals.FirstFireIsOneIntervalOn` | internal/cron/loop.go:231-269 | a loop of one hour to one day that starts off the full and half hours fires first one interval after its start |
| `Intervals.OffTheHour` | internal/cron/loop.go:271-281 | no loop of an hour or more is scheduled on the full or half hour |
| `Schedulers.Scheduler.Create` | internal/cron/store.go:70-112 | a job is added only if its line parses, there is room and it has a fire to wait for; durable jobs are saved |
| `Schedulers.Scheduler.NextFire` | internal/cron/store.go:397-408 | the first match, plus jitter for recurring jobs, or nothing |
| `Schedulers.Scheduler.RecurringJitter` | internal/cron/store.go:410-441 | the hash modulo a tenth of the period, at most a quarter of an hour |
| `Schedulers.Scheduler.Tick` | internal/cron/store.go:158-219 | due jobs fire once each and no others; expired, one-shot and unparsable jobs go; changed durable jobs are saved |
| `Schedulers.Scheduler.Remove` | internal/cron/store.go:275-290 | the job goes, and a durable one goes from the file too |
| `Schedulers.Scheduler.Reset` | internal/cron/store.go:293-298 | all jobs go and the file keeps only what this instance never held |
| `Schedulers.Scheduler.LoadDurable` | internal/cron/store.go:338-395 | unexpired, parsable jobs are adopted, missed one-shots due at once |
| `Schedulers.Scheduler.SaveDurable` | internal/cron/store.go:458-475 | the file becomes this instance's durable jobs and those it has never held |
| `Firing.NextFireIsBetween` | internal/cron/store.go:397-441 | a recurring fire comes at or after its matching minute and before the next one |
| `SchedulerSpec.TheRealOne` | internal/cron/store.go:397-441 | the assumptions on the parser and the search are met by the parser and the search of this package, whatever the hash |
| `Firing.EachMinuteAtMostOnce` | internal/cron/store.go:158-219 | if matches that fire before the expiry have next matches, then over any ticks the charged minutes match, strictly increase, and precede the pending one |
| `Firing.AtMostOnceIffLasting` | internal/cron/store.go:158-219 | over all ticks on all clocks no minute is charged twice if and only if every match that fires before the expiry has a next match in the horizon |
| `Firing.EachMinuteExactlyOnce` | internal/cron/store.go:158-219 | over any run, past the expiry or not, with a tick in the window of every due fire: a matching minute is charged exactly once if some tick before the expiry reached its fire, and otherwise never |
| `Firing.FrequentIsCovered` | internal/app/trigger/update.go:69-73 | ticks less than nine tenths of a minute apart lie in every such window, whatever the line |
| `Firing.TickerMissesNothing` | internal/app/trigger/update.go:57-73 | so with the 30-second ticker, late by less than 24 seconds, no matching minute is missed or repeated |
| `Firing.FiresAgainIff` | internal/cron/store.go:188-200 | a fired job is due again before its next match exactly when no match is in sight |
| `Firing.LeapDayRunsOut` | internal/cron/cron.go:143-143 | a 29 February job finds no match for a day after it fires |
| `Firing.LeapDayRepeats` | internal/cron/cron.go:143-143 | so a recurring job that lives on a 29 February it matches has runs that charge that minute again |
| `JobEnds.FiresOnceThenGoes` | internal/cron/store.go:158-219 | over any ticks, a one-shot job, or one whose line cannot be read, fires exactly at the first tick at or after its next fire, unless one after its expiry came first; until then it is in the table unchanged, and afterwards never again |
| `JobEnds.ExpiredIsOver` | internal/cron/store.go:167-173 | from the first tick after its expiry on, any job is out of the table and fires no more |
| `JobEnds.OneWeekOnly` | internal/cron/store.go:85-88 | so a recurring job fires at no tick later than a week after its creation |
| `JobEnds.RunsInTable` | internal/cron/store.go:158-219 | the run of one job, whose charged minutes are counted, is what happens to it in the table |
| `JobEnds.FiresAreCounted` | internal/cron/store.go:187-191 | a job in the table has counted its fires and knows the last |
| `JobEnds.AcceptedIff` | internal/cron/store.go:70-102 | a job is accepted exactly when its line parses, has a match in sight, and there are fewer than 50 jobs |
| `JobEnds.DelayedPromptIsAccepted` | internal/cron/loop.go:105-129 | a prompt set for a delay of up to 365 days is accepted while there is room, and waits for its minute |
| `JobEnds.DelayedPromptFiresOnce` | internal/cron/loop.go:105-129 | and is reported exactly once, at the first tick at or after that minute |
| `JobEnds.MissedOneShotFires` | internal/cron/store.go:371-384 | a one-shot adopted at a boot fires exactly at the first tick from then on that is not before its minute, at once if it was missed |
| `JobEnds.AdoptedStarts` | internal/cron/store.go:356-379 | a recurring job starts anew at every boot, unless it has expired or has no match in sight |
| `JobEnds.CreatedStarts` | internal/cron/store.go:70-112 | and at its creation, which is where the laws of its run begin |
| `JobEnds.AcceptedAsGiven` | internal/cron/store.go:70-112 | an accepted job has the line, prompt and kind it was given, and expires after a week if it is recurring |
| `JobEnds.AdoptedAsStored` | internal/cron/store.go:352-391 | an adopted one has what was stored, and is durable |
| `JobEnds.SameThroughout` | internal/cron/store.go:158-219 | and as long as it is in the table it stays that job |
| `JobEnds.JitterIsSmall` | internal/cron/store.go:410-441 | the jitter is below a quarter of an hour and a tenth of the time to the next match |
| `JobEnds.JitterIs` | internal/cron/store.go:410-441 | it is the hash modulo the longest time that is at most both |
| `SharedStore.CreateIsKept` | internal/cron/store.go:101-107 | creating a durable job puts it on file |
| `SharedStore.OnFileIff` | internal/cron/store.go:308-335 | whatever any instances do and however the file fails, a job is on file at the end exactly when a save by a holder put it there, or it was there before, and no later save by a non-holder that could not read the file or once knew the job cleared it |
| `SharedStore.HeldIsOnFileIff` | internal/cron/store.go:458-475 | a job its creator holds is on file exactly when the creator has saved again after each save by an instance that could write the file and not read it |
| `SharedStore.OnFileWhileHeld` | internal/cron/store.go:458-475 | if others read before they write and the creator can write, over any interleaving of any number of instances, boots included, a job no other instance adopts is on file exactly as long as its creator holds it |
| `SharedStore.GoneForGood` | internal/cron/store.go:275-298 | a job its creator gave up and that is off the file never comes back, whatever instances then boot, tick or save, and however the file fails |
| `SharedStore.GivingUpIsGone` | internal/cron/store.go:275-298 | that is where a removal, reset or last fire with a writable file leaves a job no other instance has adopted |
| `StoredJobs.WrittenOrCarriedOver` | internal/cron/store.go:308-335 | after any action a job on file is as its writer held it, or as it was on file before |
| `StoredJobs.FileIsCurrent` | internal/cron/store.go:458-475 | if others read before they write and the creator can write and boots once, over any interleaving the file has the job exactly as its creator holds it, until the creator gives it up |
| `StoredJobs.CreateIsCurrent` | internal/cron/store.go:101-107 | which a creation makes so |
| `Harnesses.HarnessState.ApplyRefinementProposal` | internal/harness/refinement.go:125-225 | edits apply in order, each with its snapshot before and after, rejected ones with their flaw and no effect |
| `Harnesses.HarnessState.RollbackResult` | internal/harness/refinement.go:304-390 | applied edits are reversed in their order, and the reversals reported |
| `HarnessLaws.RejectedChangesNothing` | internal/harness/refinement.go:164-170 | a key whose edits were all rejected is untouched |
| `HarnessLaws.BasePromptIsSafe` | internal/harness/refinement.go:84-87 | no proposal changes the base system prompt |
| `HarnessEntries.EntryIs` | internal/harness/refinement.go:125-225 | after any proposal a key holds what it held, nothing if its last valid edit deletes, or the texts of its last valid edit, with a version that counts the writes since its creation and the time of that creation |
| `HarnessEntries.EntriesStayUsable` | internal/harness/refinement.go:71-122 | no proposal leaves an entry without title or content, or a skill without a Python callable |
| `HarnessEntries.ValidIff` | internal/harness/refinement.go:71-122 | exactly the edits with a known action and kind, an id or a title to make one from, the texts and, for skills, the reference they need are carried out |
| `HarnessEntries.SlugShape` | internal/harness/state.go:364-390 | an id made from a title is a slug of at most 80 characters that does not start with an underscore |
| `HarnessEntries.SlugOfTitle` | internal/harness/state.go:364-390 | it is the title in small letters with underscores for all but letters and digits, without those around it, cut at 80 |
| `HarnessEntries.SlugAgainIff` | internal/harness/state.go:364-390 | such a slug is its own slug exactly when it does not end in an underscore |
| `HarnessLaws.RestoresKeyIff` | internal/harness/refinement.go:304-390 | of any proposal, a key is restored up to update time and version exactly when no valid edit is on it, or its last valid edit is a create and the key was absent, or that edit met in its turn the entry that was there |
| `HarnessLaws.MetIs` | internal/harness/refinement.go:125-225 | what an edit meets is computed from the proposal: what the valid edit before it on its key wrote, or the original entry |
| `HarnessLaws.EditedOnceIff` | internal/harness/refinement.go:304-390 | a key edited once is restored exactly when a create met it absent, or an update or delete met it present |
| `HarnessLaws.CreatedThenUpdatedStays` | internal/harness/refinement.go:313-361 | a create and an update of one absent key leave, after the rollback, the entry the create wrote |
| `HarnessLaws.RestoresIff` | internal/harness/refinement.go:304-390 | the whole state is, exactly when that holds of the last valid edit on each key |
| `HarnessLaws.RollbackOfRollbackRedoes` | internal/harness/refinement.go:304-390 | rolling back the rollback redoes the proposal up to the same fields, for any proposal |
| `Ontologies.Validate` | internal/graph/ontology.go:59-114 | accepts exactly the well-formed ontologies: distinct names, declared parents, declared ends |
| `Ontologies.CyclesPassValidation` | internal/graph/ontology.go:59-114 | two types that are each other's parent pass validation |
| `Ontologies.UpwardEndsIffAcyclic` | internal/graph/ontology.go:162-175 | of a valid ontology, the upward search ends for all arguments if and only if no chain of subclass links leads back to where it began |
| `Ontologies.DownwardEndsIffAcyclic` | internal/graph/ontology.go:150-159 | and so does the downward search |
| `Ontologies.OnACycleUpwardEndsIff` | internal/graph/ontology.go:162-175 | from a type of a cycle the upward search ends exactly for the types of that cycle |
| `Ontologies.ClimbAnswers` | internal/graph/ontology.go:162-175 | without a cycle the steps of the upward search end with its answer |
| `Ontologies.IsAIsReaching` | internal/graph/ontology.go:162-175 | the upward search holds exactly when a chain of subclass links leads from one type to the other |
| `Ontologies.SubClassesOf` | internal/graph/ontology.go:150-159 | the recursive loop ends with the specified list |
| `Ontologies.ListedOnceIff` | internal/graph/ontology.go:150-159 | a type is listed once if it lies under the argument and never otherwise |
| `Ontologies.ListedIffProperSubclass` | internal/graph/ontology.go:150-175 | the list is the proper subclasses by IsA, if and only if the argument is not the empty name |
| `GraphStores.Store.InsertNode` | internal/graph/store.go:88-105 | a node enters exactly when it is valid and its id is new |
| `GraphStores.Store.InsertEdge` | internal/graph/store.go:174-198 | an edge enters exactly when its endpoints exist, its relation allows their types and its id is new |
| `GraphStores.Store.ValidateAll` | internal/graph/store.go:289-314 | passes exactly when every node and edge is valid |
| `GraphStores.Store.NodesByType` | internal/graph/store.go:130-155 | exactly the nodes of the type or a type below it |
| `GraphStores.OfTypeIsReaching` | internal/graph/store.go:130-155 | that is, for a named type, those from whose type a chain of declared subclass links leads to it |
| `GraphStores.ReachableIsAllOk` | internal/graph/store.go:289-314 | every state reached from empty by any writes passes the full check |
| `GraphStores.EdgesRespectDomainAndRange` | internal/graph/ontology.go:139-146 | in such a state the endpoint types climb subclass chains to the relation's domain and range |
| `GraphStores.TakesNodeIff` | internal/graph/store.go:88-105 | a node enters exactly when its type is declared and it is named, captioned, sourced, dated, complete and new |
| `GraphStores.TakesEdgeIff` | internal/graph/store.go:174-198 | an edge exactly when it is named, sourced, dated and new and the types of its existing ends climb subclass chains to the domain and range of its relation |
| `GraphStores.NodesAreComplete` | internal/graph/store.go:289-314 | after any writes every node has the attributes its type requires, and every edge both ends |
| `BlockBoundary.CompletedBlockBoundary` | internal/app/conv/markdown.go:863-893 | the loop computes the boundary of the finished blocks |
| `BlockBoundary.BoundaryOnlyAdvances` | internal/app/conv/markdown.go:856-863 | the boundary is in range and never moves back as text is appended |
| `BlockBoundary.BoundaryEndsALine` | internal/app/conv/markdown.go:856-863 | and lies at the end of a line |
| `Fences.BoundaryEndsABlock` | internal/app/conv/markdown.go:856-893 | the boundary is the end of the last line that is blank outside every code fence or closes the open one; no fence is open there |
| `StreamFlush.Conversation.FlushStreamingBlocks` | internal/app/model_scrollback.go:82-127 | one snapshot at a time, of the finished and unflushed slice of the last row |
| `StreamFlush.Conversation.HandleFlushResult` | internal/app/model_scrollback.go:170-203 | a result whose row was committed, cleared or replaced is dropped; another advances its row |
| `StreamFlush.Conversation.RenderAndCommit` | internal/app/model_scrollback.go:221-256 | rows are committed in order, each with what was not flushed, stopping before a streaming last row |
| `StreamFlush.Conversation.AppendToLast` | internal/app/conv/conversation.go:59-73 | text goes to the last row if it is the assistant's |
| `StreamFlush.Conversation.DropStreamingAssistant` | internal/app/conv/conversation.go:140-148 | only an uncommitted assistant row is taken back |
| `StreamFlush.Conversation.ApplyPreInfer` | internal/app/conv/update.go:178-189 | the stream becomes active, the rows before the new one are committed, and an empty row for the answer follows |
| `StreamFlush.Conversation.ApplyChunk` | internal/app/conv/update.go:191-221 | a chunk of an inactive stream is dropped; another joins the last row, which is then committed at the end of an answer without tools, or flushed |
| `StreamFlush.Conversation.ApplyStreamReset` | internal/app/conv/update.go:160-165 | a failed inference stops the stream and takes its row back |
| `StreamFlush.Conversation.MarkLastInterrupted` | internal/app/conv/conversation.go:159-175 | the last assistant row, wherever it stands, gets the marker |
| `StreamFlush.Conversation.HandleStreamCancel` | internal/app/update_input_effects.go:22-47 | an active stream is stopped, its answer marked unless it calls tools, and the rows committed |
| `FlushLaws.EveryByteOnce` | internal/app/model_scrollback.go:26-41 | over any interleaving of chunks, rows, late or lost renders, commits, retries, interrupts and clears, after every step each byte of a committed message is in the cache once and in order, and of a streaming one what was flushed, if and only if no step adds text to a row already committed |
| `FlushLaws.LateOnlyAfterCommitAll` | internal/app/model_scrollback.go:212-256 | of all handlers, only a commit of all rows while the last one streams makes later chunks arrive in a committed row |
| `FlushLaws.CarefulRunsAgree` | internal/app/model_scrollback.go:20-41 | so runs that commit all rows only when the last one is not streaming, and interrupt only while the last row is the answer, lose and repeat nothing |
| `FlushLaws.CommitAllLosesIff` | internal/app/model_scrollback.go:217-256 | after a commit of all rows in any run the next chunk is lost if and only if the last row was streaming |
| `FlushLaws.TextComesTooLate` | internal/app/update_resize.go:48-58 | such a run: an inference begins, all rows are committed, and a chunk arrives |
| `FlushLaws.LostForGood` | internal/app/model_scrollback.go:221-256 | what a committed row lacks in the cache no later step brings there, until the rows are cleared |
| `FlushLaws.WholeAnswerIff` | internal/app/conv/update.go:191-221 | while an inference streams, its row holds all the text received if and only if no chunk with text came after another row was appended |
| `FlushProgress.ChunkStartsRender` | internal/app/model_scrollback.go:82-127 | with no render under way, a chunk starts one for everything then finished and not shown, or there is nothing but blanks |
| `FlushProgress.LandingStartsNext` | internal/app/model_scrollback.go:170-203 | a current render that lands is shown, and the next one starts |
| `FlushProgress.EndShowsEverything` | internal/app/model_scrollback.go:221-256 | in a run that loses nothing, the end of an answer leaves every message of the assistant in the cache, whole |
| `FlushProgress.ResetTakesBack` | internal/app/conv/update.go:160-165 | a failed inference takes back its row and all that streamed into it, and no other row has changed |
| `FlushProgress.InterruptNotes` | internal/app/conv/conversation.go:159-175 | interrupting a streaming answer adds the note to its text, and no other row has changed |
| `TailReader.ReadFromOffset` | internal/inspector/server.go:310-340 | whole lines only, the rest left for the next read, also after a short read |
| `TailReader.LastNewline` | internal/inspector/server.go:342-349 | the last newline, or -1 |
| `TailReader.WriteLines` | internal/inspector/stream.go:89-106 | every non-empty line in order, or an initial part if the client goes away |
| `TailReader.Tailer.SendNewLines` | internal/inspector/stream.go:74-87 | a successful poll is one step of the followed file, keeps the lines sent equal to the lines up to the offset, and a full read delivers every complete line |
| `TailReader.LinesOfWritten` | internal/inspector/stream.go:89-106 | reading back a file written record by record gives the records |
| `TailReader.RunDelivers` | internal/inspector/server.go:307-340 | over any appends and polls, each complete non-empty line before the offset was sent once and in order, the offset is at a line boundary, and one more full poll has sent all lines of the file |
| `Reminders.StripSystemReminders` | internal/core/message.go:310-323 | the loop shrinks its content and ends with the specified text |
| `Reminders.PeelsAll` | internal/core/message.go:294-309 | all appended blocks go, whatever closing tags their bodies hold |
| `Reminders.StripUndoesAppendIff` | internal/core/message.go:294-323 | stripping gives back the trimmed text if and only if the text itself does not end in a strippable block |
| `Reminders.OrdinaryTextSurvives` | internal/core/message.go:294-309 | in particular any text that does not end in a closing tag |
| `Reminders.EveryContent` | internal/core/message.go:310-323 | every content is a text that cannot be peeled, with reminders appended and blanks after them |
| `Reminders.IdempotentIff` | internal/core/message.go:310-323 | of any such content, stripping again changes nothing if and only if the text cannot be peeled when trimmed either |
| `Reminders.IdempotentOverBlanks` | internal/core/message.go:310-323 | which holds when only the four trimmed characters occur as white space |
| `Reminders.NotIdempotentAfterVerticalTab` | internal/core/message.go:310-323 | and fails for every reminder followed by a vertical tab |

## Left out

- Provider clients, hooks, clipboard, images, self-update, views and panels: foreign I/O or presentation.
- JSON, SHA-256 digests, FNV hashes and random ids: identity, equality of the digested text, an arbitrary function, and unique ids; an empty free-form record and a missing one are the same record.
- Daylight saving and offsets that are not whole minutes: days have 1440 minutes, under one fixed offset.
- `Agents.Agent.ThinkAct`: does not model the loop without a positive cap as one call, since it may never end (`UncappedNeverEnds`); `ThinkActFor` runs any number of its passes, and all laws but the budget hold after each.
- Changing the step cap in the middle of a turn: a turn keeps the cap it started with.
- Token totals, outbox backpressure, logging and audit callbacks: no property here depends on them.
- Parallel and serial tool execution: the results of one response are an arbitrary list in call order, which is the order the code records them in.
- Images, display content, thinking signatures and tool details in messages, and the pattern that finds injected text: a text is cut into any spans that together are that text.
- A panic inside ThinkAct and more than one interrupting caller: with two callers, one can return before the other has cancelled the handle it took.
- `ReplayBuilders.ReplayBuilder.CheckInference`: does not model the verdict on the tools digest, as tool records are the same fold over a simpler map.
- `TranscriptReplay.Recorder.OnAgentEvent`: does not model the events after an inference and of section and tool changes; section changes reach the replayed view in `SectionReplay`, and transcripts that mix all records in `PromptVerdict`.
- Seeding the recorder and the agent from a resumed session: transcripts start empty.
- Unicode case folding, Unicode white space beyond ASCII, and the order in which a Go map yields aliases: lower-casing is ASCII, and aliases are replaced in the order listed.
- Error texts: an error is an absent result, except for the flaws of a harness edit.
- Parsing of the loop and once commands (regular expressions) and the human-readable labels: presentation.
- Integer overflow of absurd intervals and of durations beyond 292 years: intervals and instants are unbounded integers.
- `GraphStores.Store.NodesByType`: does not model the sorting of the result by id, so the result is a set.
- Alias and type indexes, merges, events and persistence of the graph store: easy members beside the checked writes.
- `StreamFlush.Conversation.RenderAndCommit`: does not model the welcome banner and the tool results drawn with their caller; the cache holds the slices given to the renderer, one piece per row.
- Resize reflow, which draws all committed rows anew, and selecting a session, which replaces the rows or commits them once more.
- Tool calls in rows: whether an interrupt marks the answer, and whether a chunk ends an answer without tools, are parameters.
- `Schedulers.Scheduler.Tick`: does not model the order in which jobs fire within one tick, which a Go map leaves open.
- Add, Delete and List of the scheduler: variants of Create and Remove, and a sorted copy.
- The session history file and normalisation of refinement proposals: plain reading and writing.
