# A verified model of the fastclaw agent runtime

fastclaw runs language-model agents behind chat channels. This project models the parts of it that
carry invariants and proves them in Dafny:

- **Conversation history as a protocol.** A turn appends model replies, tool results, steering
  messages and warnings to a session; model providers reject a history in which a tool call is not
  answered directly. `History` defines the two notions involved: a history is *resolved* if every call
  is answered somewhere later, and *contiguous* if the answers stand directly behind the call and no
  answer stands elsewhere. `Executor`, `Detector`, `Compaction`, `Padding` and `Session` model the
  machinery; `TurnSpec` describes a whole turn as a function of everything it cannot control (model,
  tool executor, summarizer, arrival of steering messages), `Turn` proves that the imperative loop
  computes it, and `Rounds` holds what any such turn keeps. `TurnContents` says message by message what
  a turn writes and what the model is shown. `Subagent` is the second instance of the
  loop. `Wire` is what the two providers are finally sent, `WireSessions` follows one of them over whole
  sessions.
- **Recovering tool calls from text** (`Recovery`): matchers for the five regular expressions, and the
  round trip from the documented printed form.
- **Outbound text** (`Outbound`, `Tables`, `Chunkers`): joining and splitting replies, flattening
  tables, cutting messages to size.
- **The channel lease** (`Lease`, `LeaseShutdown`, `LeaseTiming`, `LeaseSafety`): replicas, one leased row,
  a clock; and when renewals that keep to a schedule keep the row.
- **The rate limiter** (`RateLimit`), **the bundled-skill installer** (`TreeHash`, `Skills`) and
  **the WeChat adapter's** poll loop and padded encryption (`WeChat`, `Cipher`).

`Text`, `Octets` and `Options` are shared vocabulary. A loop of the source is a method with a loop here,
an object whose methods update it is a class; each is proved against a function, and the theorems are
lemmas about that function. `dafny verify dfyconfig.toml` checks everything.

## Where the code and its comments differ

The model follows the code. Each point is a lemma.

- *Loop detection tears history apart.* The safety net answers the interrupted calls only after a
  warning and the closing text. So a contiguous history stays contiguous exactly if the turn does not
  end in loop detection (`TurnSpec.TurnKeepsPairing`). The OpenAI request builder says that it repairs
  this case (internal/provider/openai.go:81-100); it strips the open calls, but the late answers stay,
  and the request is malformed from then on (`Wire.LoopDetectionBreaksOpenAI`). The Anthropic builder
  drops answers by id, wherever they stand, which is right exactly if no question that was answered at
  once shares an id with an interrupted one (`Wire.LoopDetectionOnAnthropic`, `WireSessions.SharedIdIff`,
  and over any number of turns `WireSessions.SessionsOnAnthropic`). It goes wrong when one id comes back
  in three successive replies (`WireSessions.SameIdThrice`), and so for every model that leaks the same
  call three times, since recovered calls are numbered from zero in every reply
  (`WireSessions.LeakedThrice`). Three equal calls in one reply end a turn that way, too
  (`TurnSpec.LoopDetectionHappens`, `Wire.TornRequest`). Late answers can also lose their question to
  compaction, exactly where the cut falls between the two (`Compaction.StraysAfterCompaction`,
  `Compaction.LateAnswerLosesQuestion`; `Compaction.LateAnswerGetsLost` is one history that reaches the
  token threshold).
- *A call without an id is never settled.* The pads for it are not recognised and it is padded again at
  the end of every turn (`Padding.PadTwice`, `Padding.PadComesAgain`).
- *A failure told by text alone crashes the turn.* internal/agent/loop.go:2319 asks the error for its
  message although a result can be classified as failed without one: no error, but a text that begins
  with "HTTP 4" or "HTTP 5" or holds the hint. The model has an exit `Panicked` for it, without a
  terminal event; the pads still run. `TurnSpec.PanicsIff` says exactly which turns end so, and in
  `TurnSpec.CrashHappens` a tool that prints "HTTP 404" does it.
- *A round over the parallel cap never counts as failed*, because its deferred results read as
  successes (`Executor.OverflowNeverAllFailed`).
- *The lease excludes a second adapter only between different holder ids*
  (`Lease.ExclusionTheorem`); a channel registered again in one process shares the id. A shutdown may
  keep the row, since the select may leave through the renewer (`LeaseShutdown.ShutdownWithoutRelease`). The
  comment on the gate (internal/channels/lease.go:57-59) says that a database error on renewal cancels the
  adapter and that a lost lease is released locally; the code keeps the adapter through any number of
  errors (`Lease.ErrorsKeepAdapter`) and never releases on that path (`Lease.HoldDiscipline`). The
  delay of the calls counts twice, since Acquire reads its clock before the ticker exists: with 30 s and
  10 s a third attempt after two failures has no slack at all, and one failure is survived only with calls
  of up to 5 s (`LeaseTiming.ShippedConstants`; `LeaseSafety.ExclusionBound` for two adapters at once).
- *WeChat's expiry counter survives a stop.* internal/channels/wechat.go:143-150 promises one callback,
  after which Start exits; a Start after that calls back again after one expired reply, or two if it has
  loaded a cursor (`WeChat.StopsAgainIff`; `WeChat.CalledTwiceIff` for any number of Starts,
  `WeChat.CalledTwice` for one that does it). A restart pairs a running counter with a cursor exactly if
  the write that should have cleared the cursor was lost (`WeChat.RestartClashIff`).
- *Skills:* a bundle with a hidden file, or visible leftovers in the target, is taken for user-modified
  for good (`Skills.FreshIsUpToDate`); an upgrade removes hidden files (`Skills.HiddenFilesLost`); a
  missing SKILL.md lets the installer overwrite files of the same path (`Skills.FreshKeepsOtherFiles`).
- *Attachments are lost* when a text to be split holds only markers and white space
  (`Outbound.ExtrasReachAdapter`, `Outbound.MarkersLoseExtras`).
- *Recovery is not set off* by leaked noise that begins with DSML rather than a pipe
  (`Recovery.LeakedRoundTrip`, `Recovery.LeakGoesUnread`).

## Model

| member | source | states |
|---|---|---|
| History.IdsMeaning | internal/agent/loop.go:2515-2516 | every call of a message contributes its id to the ids that must be answered |
| History.AnsweredMeaning | internal/agent/loop.go:2509-2514 | an id counts as answered exactly if some tool message carries it |
| History.ResolvedConcat | internal/agent/loop.go:2490-2497 | two histories with every call answered can be joined |
| History.OpenAfterResolved | internal/agent/loop.go:2490-2494 | a new question behind a resolved history is the only open one, so scanning the last one suffices |
| History.ContiguousConcat | internal/agent/loop.go:2188-2285 | contiguous stretches that do not begin with an answer can be joined |
| History.ContiguousSuffix | internal/agent/compaction.go:95-112 | a suffix of a contiguous history is contiguous if it does not begin with an answer |
| History.CompleteRound | internal/agent/loop.go:2206-2212 | a question followed by one answer per call, in order, is resolved, and contiguous if all ids are given |
| Padding.PadsOfExact | internal/agent/loop.go:2509-2522 | the pads answer exactly the ids not answered yet, and there are none exactly if all are |
| Padding.PadAt | internal/agent/loop.go:2509-2522 | each pad is an interrupted-notice under the id and the name of a call without an answer, in the order of the calls |
| Padding.PadResolves | internal/agent/loop.go:2490-2523 | padding resolves every history in which only the last question may be open |
| Padding.PadTwice | internal/agent/loop.go:2490-2523 | a second padding adds nothing exactly if the last question has no empty id |
| Padding.PadComesAgain | internal/agent/loop.go:2490-2523 | a session with one call without an id is padded, and padded again |
| Padding.PadsAreLocal | internal/agent/loop.go:2490-2523 | behind a history that needs no padding the pads depend on what was appended only |
| Padding.ContiguousNeedsNoPad | internal/agent/loop.go:2490-2523 | a contiguous history is left alone |
| Padding.PadAfterPartialRound | internal/agent/loop.go:2490-2523 | a question whose answers break off midway is completed in place: the result is contiguous |
| Session.Session.Append | internal/session/manager.go:454-475 | one message is added at the end and nothing else changes |
| Session.Session.ReplaceMessages | internal/session/manager.go:582-597 | the history becomes the given one |
| Session.Session.BeginTurn | internal/session/manager.go:514-518 | one more turn is running |
| Session.Session.EndTurn | internal/session/manager.go:524-536 | when the last turn ends, exactly the buffered steering messages are handed out, in order |
| Session.Session.PushSteerIfActive | internal/session/manager.go:543-551 | a message is accepted, at the end of the buffer, exactly if a turn is running |
| Session.Session.DrainSteer | internal/session/manager.go:555-564 | the whole buffer is handed out in order and emptied; accepted = handed out + buffered |
| Session.PadOrphanToolResults | internal/agent/loop.go:2490-2523 | the session is extended by exactly the pads of its last question |
| Executor.ExecuteToolsConcurrently | internal/agent/sdkbridge.go:169-221 | each call gets the outcome of the last response with its id, or a failure |
| Executor.OutcomesAligned | internal/agent/sdkbridge.go:160-168 | whatever the executor answers, there is one outcome per call, with its id and name, in order |
| Executor.OutcomesAt | internal/agent/sdkbridge.go:173-219 | the k-th outcome depends on the k-th call and the last response with its id only |
| Executor.OrderIrrelevant | internal/agent/sdkbridge.go:160-172 | with distinct ids, the order of the responses does not matter |
| Executor.RoundAligned | internal/agent/loop.go:2222-2255 | under every cap, executed and deferred outcomes together match the calls one to one, in order |
| Executor.RunRound | internal/agent/loop.go:2222-2285 | a round yields those outcomes, and the guard of the backstop for missing results is never true |
| Executor.MentionsIsContains | internal/agent/loop.go:2456 | the failure marker is found exactly if it occurs somewhere in the text |
| Executor.OverflowNeverAllFailed | internal/agent/loop.go:2247-2255 | a round that overflows the cap never counts as all failed |
| Executor.Classify | internal/agent/loop.go:2315-2328 | a result fails with an error exactly if it carries one, and crashes the turn exactly if it carries none but its text reads as a failure |
| Executor.RoundCrashesIff | internal/agent/loop.go:2287-2320 | a round holds a crashing result exactly if a call that runs under the cap is answered without an error by a text that reads as a failure |
| Executor.PrintedStatusCrashes | internal/agent/sdkbridge.go:55-86 | output that begins with "HTTP 404" is such an answer |
| Detector.TailIsTriple | internal/agent/loop.go:2166-2178 | the counter stands at three or more exactly if the last three calls are equal |
| Detector.TripleMeaning | internal/agent/loop.go:2166-2178 | what the detector looks for: three calls in a row of one name with equal arguments |
| Detector.Observe | internal/agent/loop.go:2166-2194 | the detector fires on a round exactly if the calls of all rounds so far hold three equal ones in a row |
| Compaction.EstimateTokens | internal/agent/compaction.go:24-34 | the loop computes the sum of quarter byte lengths |
| Compaction.TokensAre | internal/agent/compaction.go:24-34 | the estimate adds up over the messages, and for one message over its text, name and calls: a quarter of the bytes of each |
| Compaction.PruneOldToolResults | internal/agent/compaction.go:124-145 | exactly the large tool results outside the last twenty messages are blanked |
| Compaction.PruningIs | internal/agent/compaction.go:124-145 | the last twenty messages are kept verbatim; before them exactly the tool messages of more than 200 bytes become the placeholder, under their id and name, and every other message is kept |
| Compaction.PruningShrinks | internal/agent/compaction.go:124-145 | pruning never raises the estimate |
| Compaction.SafeCompactionCutoff | internal/agent/compaction.go:113-121 | the cutoff moves to the first message from it on that is not an answer |
| Compaction.RuntimeUnseen | internal/agent/compaction.go:156-171 | a runtime message leaves no trace in the text to summarize |
| Compaction.TranscriptIs | internal/agent/compaction.go:156-171 | what the summarizer reads is told message by message |
| Compaction.CompressOlderMessages | internal/agent/compaction.go:148-198 | summary plus untouched tail, or an error if the summarizer fails |
| Compaction.CompactMessages | internal/agent/compaction.go:47-93 | the history is changed exactly if the estimate reaches the threshold, and then as specified |
| Compaction.CompactionIs | internal/agent/compaction.go:47-198 | what comes back on every branch: the history itself below the threshold; a pruned history of the same length whose last twenty messages are verbatim; or the summary in front of the verbatim tail of the history |
| Compaction.CompressedShape | internal/agent/compaction.go:148-198 | compressed output is a user message and a suffix, at most 21 messages, whose tail does not begin with an answer |
| Compaction.CompactionKeepsPairing | internal/agent/compaction.go:47-93 | on every branch a contiguous history stays contiguous and a resolved one resolved |
| Compaction.NewestSurvives | internal/agent/loop.go:1978-1992 | on every branch the message just appended survives verbatim as the last one |
| Compaction.StrayIffCutOff | internal/agent/compaction.go:113-121 | an answer of the tail has no question in the compressed history exactly if its last question lies before the cut |
| Compaction.StraysAfterCompaction | internal/agent/compaction.go:47-121 | for every history: compaction that summarizes leaves an answer without its question exactly if the tail holds one whose last question lies before the cut; any other branch exactly if there was one |
| Compaction.LateAnswerLosesQuestion | internal/agent/compaction.go:95-121 | whatever stands around it, a late answer in the tail is stray after compaction exactly if its question lies before the cut; the history before was resolved |
| Compaction.LateAnswerGetsLost | internal/agent/compaction.go:47-121 | a resolved history without stray answers that reaches the threshold and comes out with one |
| Rounds.PaddedTurn | internal/agent/loop.go:1934-1951 | sound history, unsettled stretch, closing text and pads: resolved, and contiguous unless the loop detector cut in |
| Rounds.TornStays | internal/agent/loop.go:2178-2194 | a question with something else than an answer behind it never becomes contiguous again by appending |
| Rounds.StepPiece | internal/agent/loop.go:2206-2356 | one iteration's messages are a sound piece; its user messages are the steering messages, its calls the reply's |
| TurnSpec.LogSound | internal/agent/loop.go:2045-2376 | for every model and executor, the iterations that go on leave every call answered, at once if ids are given |
| TurnSpec.LogTraffic | internal/agent/loop.go:2045-2376 | they append the steering messages in order of arrival, each once, and the calls the model made |
| TurnSpec.TurnKeepsPairing | internal/agent/loop.go:1934-2415 | every way out of a turn keeps a resolved history resolved; a contiguous one stays contiguous exactly if the turn does not end in loop detection |
| TurnSpec.SteersConserved | internal/agent/loop.go:1752-1779 | on every way out the steering messages that arrived are appended exactly once, in order, and no other user message is |
| TurnSpec.LoopDetectedIff | internal/agent/loop.go:2166-2194 | a turn ends in loop detection exactly if the calls it recorded hold three equal ones in a row |
| TurnSpec.LoopDetectionHappens | internal/agent/loop.go:2166-2194 | three equal calls in one reply end a turn in loop detection under every cap and limit |
| TurnSpec.PanicsIff | internal/agent/loop.go:2287-2320 | a turn crashes exactly if the iteration it ends at asks for tools, does not repeat a call three times, and a call that runs comes back without an error but reads as a failure |
| TurnSpec.CrashHappens | internal/agent/loop.go:2304-2320 | a tool that prints "HTTP 404" crashes the turn under every cap and limit |
| TurnSpec.PromptsSound | internal/agent/loop.go:1994-2015 | every prompt of the loop shows a history as sound as the one the turn started from |
| TurnSpec.FinalPromptSound | internal/agent/loop.go:2378-2390 | the closing prompt is contiguous exactly if the cap, not the loop detector, ended the loop |
| TurnSpec.ToolsWithheld | internal/agent/loop.go:2077-2095 | tools are withheld exactly if the last three executed rounds failed altogether |
| TurnSpec.OverflowBringsToolsBack | internal/agent/loop.go:2357-2367 | a round over the cap brings the tools back |
| TurnSpec.SessionsResolved | internal/agent/loop.go:1934-2415 | after any number of turns with compaction every call of the session has been answered |
| TurnSpec.SessionsContiguous | internal/agent/loop.go:1934-2415 | and at once, as long as no turn ended in loop detection |
| TurnContents.NonEmptyMeaning | internal/agent/sdkbridge.go:194-206 | dropping empty content blocks leaves all others in order |
| TurnContents.OutcomeReports | internal/agent/sdkbridge.go:173-219 | a result says what the last response with the id says: its non-empty blocks on lines of their own, or the error and the hint; or that there is no response; a sandbox marker in front is cut off |
| TurnContents.AnswerIs | internal/agent/loop.go:2206-2356 | the message for each call of a round has the id and the name of the call and says that; over the cap it is the deferral |
| TurnContents.TurnEnds | internal/agent/loop.go:2045-2376 | told from the replies and the responses alone: how long a turn goes on, and which exit it takes |
| TurnContents.IterationIs | internal/agent/loop.go:2206-2356 | what every iteration that goes on leaves at its place in the session: the question with what the model said, an answer with the reported content for each call in order, the steering messages |
| TurnContents.TurnEndIs | internal/agent/loop.go:2045-2415 | and what stands behind the last of them on each exit: final text, warning and closing text, part of a round; then pads and undrained steering messages |
| TurnContents.RoundFailsIs | internal/agent/loop.go:2287-2367 | a round counts as failed exactly if it has calls, all fit under the cap, and the last response for each brings an error or reads as a failure, or is missing |
| TurnContents.WithheldIs | internal/agent/loop.go:2077-2095 | tools are withheld exactly if the last three rounds with calls all failed so |
| TurnContents.PromptIs | internal/agent/loop.go:1994-2101 | the prompt of an iteration is the system messages and then the session as it stands, which is how it still begins after the turn; one more system message exactly if tools are withheld |
| TurnContents.PromptsAre | internal/agent/loop.go:1994-2390 | one such prompt per iteration started, in order; a turn that is cut off shows one more, without tools, up to the closing text |
| Turn.ReceiveSteer | internal/agent/loop.go:523-554 | every message pushed while a turn runs is accepted, in order |
| Turn.Turn.constructor | internal/agent/loop.go:1994-2043 | the prompt starts as system messages and session |
| Turn.Turn.AppendSteer | internal/agent/loop.go:1752-1760 | the drained messages go to the session and to the prompt, in order |
| Turn.Turn.CallModel | internal/agent/loop.go:2077-2101 | the model is shown the prompt with the session in it, and tools unless three rounds failed |
| Turn.Turn.Respond | internal/agent/loop.go:2120-2145 | a text ends the turn unless steering messages wait; both are then in session and prompt |
| Turn.Turn.Ask | internal/agent/loop.go:2147-2194 | the question is stored and the detector consulted before anything runs |
| Turn.Turn.RecordResults | internal/agent/loop.go:2287-2356 | answers are recorded in order up to the first result that crashes the turn; the round counts as failed exactly if none was fine |
| Turn.Turn.Work | internal/agent/loop.go:2214-2375 | a round either crashes with part of its answers or ends with all of them and the steering messages folded in |
| Turn.Turn.Iterate | internal/agent/loop.go:2045-2376 | an iteration goes on or ends exactly as specified |
| Turn.Turn.Loop | internal/agent/loop.go:2045-2376 | the loop ends at the first iteration that does not go on, or at the cap |
| Turn.Turn.Deliver | internal/agent/loop.go:2378-2415 | the forced final delivery: one more prompt, without tools, and a closing text that is never empty |
| Turn.FlushLeftoverSteer | internal/agent/loop.go:1770-1779 | what is left in the buffer is parked at the end of the session, in order |
| Turn.TurnedIs | internal/agent/loop.go:1934-2415 | the session after a turn is the compacted history with the user's message, the messages `Turn.HandleMessage` replays as events, the pads, and the steering messages nobody drained |
| Turn.Receive | internal/agent/loop.go:1978-1992 | the user's message is appended and the history compacted |
| Turn.HandleMessage | internal/agent/loop.go:1934-2415 | the session ends up as specified, with the contents `TurnContents` tells; the events are the messages appended, replayed, and then one terminal event, the last, or none exactly if the turn crashes; splitting the reply gives back what was shown; at most max + 1 model calls |
| Subagent.Allowed | internal/agent/subagent.go:70-75 | the caller's positive limit, else the agent's, else twenty |
| Subagent.RunSubagentLoop | internal/agent/subagent.go:66-249 | deliverable, way out and prompts as specified; at most one model call more than allowed |
| Subagent.SubPromptsSound | internal/agent/subagent.go:88-231 | every prompt of the loop shows answered calls only |
| Subagent.SubFinalPromptSound | internal/agent/subagent.go:153-249 | the closing prompt shows an open question exactly if the loop detector fired |
| TurnContents.SubMessages | internal/agent/subagent.go:88-152 | the private messages: the task, and for each round the question and an answer with the reported content per call |
| TurnContents.SubPromptIs | internal/agent/subagent.go:88-152 | each prompt is the system messages and those messages; one more system message exactly if tools are withheld |
| TurnContents.SubagentDelivers | internal/agent/subagent.go:88-249 | the deliverable is the first reply without calls, verbatim; after the limit or three calls alike the closing reply, or a notice if that is empty; an error if the model fails |
| TurnContents.SubPromptsAre | internal/agent/subagent.go:88-249 | one prompt per iteration started, in order, and one to close, without tools, with an open question exactly after loop detection |
| Wire.OpenAIAcceptedIff | internal/provider/openai.go:86-187 | the OpenAI request is well-formed exactly if every answer stands behind its question: open questions are repaired, late answers are not |
| Wire.OpenAIFaithful | internal/provider/openai.go:101-133 | a history with all calls answered at once is sent unchanged |
| Wire.OpenAISays | internal/provider/openai.go:101-187 | the request holds every text of the history that is not an answer, word for word, in order |
| Wire.OpenAIAsks | internal/provider/openai.go:86-133 | it asks exactly the calls that were answered at once |
| Wire.OpenAIAnswers | internal/provider/openai.go:86-133 | it carries every answer unchanged, except those in the run behind an orphaned question that answer it |
| Wire.AnthropicAcceptedIff | internal/provider/anthropic.go:60-105 | for every history: the Anthropic request is well-formed exactly if every answer kept finds its question at the head of its stretch and no healthy question shares an id with an orphaned one |
| Wire.AnthropicFaithful | internal/provider/anthropic.go:82-110 | a history with all calls answered at once is sent unchanged but for the system messages |
| Wire.AnthropicSays | internal/provider/anthropic.go:60-110 | the request holds the dialogue word for word, asks exactly what was answered at once, and carries every answer whose id belongs to no orphaned question |
| Wire.LoopDetectionBreaksOpenAI | internal/provider/openai.go:89-100 | after loop detection every OpenAI request that shows that stretch is malformed |
| Wire.TornRequest | internal/provider/openai.go:81-100 | a model that makes the same call three times in its first reply leaves a session whose every later OpenAI request is malformed |
| Wire.LoopDetectionOnAnthropic | internal/provider/anthropic.go:60-81 | after loop detection, the first or a later one, the Anthropic request is well-formed exactly if no healthy question shares an id with an interrupted one |
| WireSessions.HealthyMeaning | internal/provider/anthropic.go:60-81 | a question counts as healthy exactly if all its calls are answered in the run behind it |
| WireSessions.SharedIdIff | internal/provider/anthropic.go:60-105 | behind a contiguous history, loop detection leaves a well-formed request exactly if no earlier question, of that turn or before, shares an id with the interrupted one |
| WireSessions.SameIdThrice | internal/provider/anthropic.go:60-105 | the same call under one id in three successive replies, behind any contiguous history, ends in a malformed request |
| WireSessions.LeakedThrice | internal/agent/tool_recovery.go:83-85 | so does any text with one recovered call that a model leaks three times in a row |
| WireSessions.SessionsOnAnthropic | internal/provider/anthropic.go:60-105 | over any number of turns without summaries, however they end, the session's request is well-formed exactly if no healthy question shares an id with one that was ever cut off |
| WireSessions.PromptsOnAnthropic | internal/agent/loop.go:1994-2015 | and so is every prompt of the turn that follows |
| Recovery.BreakAt | internal/agent/tool_recovery.go:167 | a name attribute is read up to its closing quote |
| Recovery.CutParams | internal/agent/tool_recovery.go:162-167 | the body of a printed call ends at its own closing tag, whatever parameters it holds and whatever stands in their values, as long as no tag begins there |
| Recovery.UntaggedPasses | internal/agent/tool_recovery.go:162-219 | whether a tag begins at a '<' is settled by the text up to the next '<', so text without one passes every pattern |
| Recovery.ParametersOf | internal/agent/tool_recovery.go:169-177 | the parameters found in a printed body are those printed, with name, hint and value, in order |
| Recovery.CallsOf | internal/agent/tool_recovery.go:162-184 | the calls found are those printed, and stripping leaves exactly the prose: calls and wrapper tags are gone |
| Recovery.PrintedTags | internal/agent/tool_recovery.go:162-184 | how the tags of the printed form are written |
| Recovery.LeakOf | internal/agent/tool_recovery.go:193-219 | noise before and after the slash and behind the attributes of a leaked tag is removed |
| Recovery.NormalizeLeaked | internal/agent/tool_recovery.go:193-219 | normalizing removes leaked noise from every tag and changes nothing else |
| Recovery.NormalizeClean | internal/agent/tool_recovery.go:213-219 | the normalizer leaves the printed form, wrapper tags included, unchanged |
| Recovery.ParseInvokeParameters | internal/agent/tool_recovery.go:225-247 | the arguments are exactly the parameters found: see `Recovery.ArgsHold` |
| Recovery.ArgsHold | internal/agent/tool_recovery.go:225-247 | a key is among the arguments exactly if some parameter has it; the last such parameter gives the value, as JSON where hinted and valid when trimmed, else its text verbatim |
| Recovery.RecoveredIdsDistinct | internal/agent/tool_recovery.go:139 | the calls of one reply never share an id |
| Recovery.DigitsRead | internal/agent/tool_recovery.go:139 | an id ends in the decimal digits of its call's index |
| Recovery.RecoveredIdsCollide | internal/agent/tool_recovery.go:83-85 | any two replies with recovered calls share an id |
| Recovery.RecoverToolCalls | internal/agent/tool_recovery.go:97-160 | the calls found in the normalized text, and the stripped text; untouched if nothing sets it off |
| Recovery.MaybeRecoverToolCalls | internal/agent/tool_recovery.go:33-57 | only a reply without calls is touched; the provider's rendering is kept exactly if nothing changed |
| Recovery.ScrubLeakedToolCallContent | internal/agent/tool_recovery.go:64-70 | the residual, trimmed, if there was anything to recover or scrub |
| Recovery.WrappersScrubbed | internal/agent/tool_recovery.go:97-120 | leaked wrapper tags without a call are scrubbed, and the prose between them comes back trimmed; text that was plain before is not touched |
| Recovery.RoundTrip | internal/agent/tool_recovery.go:72-160 | printed calls, bare or inside wrapper tags and amid prose and values in which none of the patterns can begin, are recovered in order under ids 0, 1, 2, ..., each with its name and the arguments its printed parameters tell; the residual is the trimmed prose |
| Recovery.LeakedRoundTrip | internal/agent/tool_recovery.go:97-160 | so are calls with leaked delimiters, exactly if something in the text sets the recovery off |
| Recovery.LeakGoesUnread | internal/agent/tool_recovery.go:97-112 | a reply with one leaked call whose noise is DSML without a pipe: normalized it is a printed call, but recovery leaves it untouched |
| Recovery.PlainTextUntouched | internal/agent/tool_recovery.go:97-105 | text without tags is not touched, not even trimmed |
| Outbound.SplitOutboundText | internal/channels/base.go:214-225 | the trimmed, non-blank pieces between the markers |
| Outbound.BubblesAre | internal/channels/base.go:214-225 | a text without the marker is one trimmed bubble, or none if it is blank; a marker cuts a text in two, wherever it stands |
| Outbound.JoinReplyParts | internal/agent/loop.go:2424-2438 | the non-blank parts with the marker between them |
| Outbound.JoinedIs | internal/agent/loop.go:2424-2438 | a blank part leaves no trace; parts that are not blank are joined unchanged, in order |
| Outbound.SplitOfJoin | internal/agent/loop.go:2424-2438 | splitting joined parts gives the concatenation of what each part splits into, for all parts |
| Outbound.DispatchOutbound | internal/channels/manager.go:243-281 | the adapter receives an in-order prefix of the planned messages, up to the first failure |
| Outbound.PlanIs | internal/channels/manager.go:243-281 | what the adapter is handed: the message itself if it holds no marker; the message with line breaks for markers if it must not be split; else one message per bubble, with that text |
| Outbound.SentAsItIs | internal/channels/manager.go:243-249 | a message without the marker goes out once, field by field as it is |
| Outbound.PlanHidesMarker | internal/channels/manager.go:243-281 | no adapter ever receives the marker |
| Outbound.PlanShape | internal/channels/manager.go:258-281 | attachments, buttons and ids travel on the last chunk only; chunks are the bubbles, none blank |
| Outbound.ExtrasReachAdapter | internal/channels/manager.go:258-281 | they reach the adapter exactly if the text is not split into nothing and all sends but the last succeed |
| Outbound.MarkersLoseExtras | internal/channels/manager.go:258-281 | for a text of markers and white space nothing is sent at all |
| Text.SplitConcat | internal/channels/base.go:214-216 | splitting at a separator without border is a morphism over inserting it |
| Tables.IsMarkdownTableRow | internal/channels/base.go:83-96 | the byte scan recognises exactly the rows |
| Tables.IsMarkdownTableSeparator | internal/channels/base.go:102-128 | the cell scan recognises exactly the separators |
| Tables.SeparatorCellIs | internal/channels/base.go:102-128 | a separator cell is blank, or dashes with a colon before, behind, or both |
| Tables.ParseMarkdownTableRow | internal/channels/base.go:132-159 | the byte scan yields the trimmed cells between unescaped pipes |
| Tables.ParseOfPrint | internal/channels/base.go:132-159 | a row printed with escaped pipes parses back to its cells, including cells that end in a backslash |
| Tables.PrintedRowIsRow | internal/channels/base.go:83-96 | a printed row is recognised exactly if it has two cells or more |
| Tables.RenderFlatTable | internal/channels/base.go:163-206 | each row on one line, its cells padded to the column count |
| Tables.RenderIs | internal/channels/base.go:163-206 | every row on its line, its cells in order, filled up with empty ones to the width of the widest row; "left: right" for two columns |
| Tables.FlattenMarkdownTables | internal/channels/base.go:52-77 | the line loop replaces exactly the tables |
| Tables.TableIs | internal/channels/base.go:52-77 | a row with a separator behind it and all rows that follow are written as one table, in order and without the separator |
| Tables.PlainIs | internal/channels/base.go:52-77 | any other line stays as it is |
| Tables.BlocksCoverLines | internal/channels/base.go:52-77 | tables and plain lines segment the text without loss |
| Tables.FlattenKeepsLines | internal/channels/base.go:52-77 | plain lines are copied unchanged in order, and one line is lost per table |
| Tables.FlattenIdentity | internal/channels/base.go:52-77 | a text passes unchanged exactly if no row is followed by a separator |
| Chunkers.SplitTelegramMessage | internal/channels/telegram.go:508-534 | the cuts obey the rule `Chunkers.TelegramCut` |
| Chunkers.TelegramCutIs | internal/channels/telegram.go:508-534 | a chunk but the last ends behind the last paragraph break of its 4096 bytes, else behind their last newline, one at the very beginning not counted, else it fills them |
| Chunkers.TelegramCutsLossless | internal/channels/telegram.go:508-534 | the chunks put together are the text, none over 4096 bytes, all but the last full or ended by a newline |
| Chunkers.SplitDiscordMessage | internal/channels/discord.go:418-440 | the loop computes the specified chunks |
| Chunkers.DiscordCutIs | internal/channels/discord.go:418-440 | in a full window the cut is at the last paragraph break from byte 1000 on, else at the last newline there, else at the limit |
| Chunkers.DiscordSteps | internal/channels/discord.go:418-440 | a text over the limit is cut there, and the rest, without its leading newlines, is cut again |
| Chunkers.DiscordLosesOnlyNewlines | internal/channels/discord.go:418-440 | the text is the chunks with some newlines put back between them |
| Chunkers.DiscordChunkSizes | internal/channels/discord.go:418-440 | no chunk is empty or over 2000 bytes, all but the last reach 1000, no later one begins with a newline |
| Lease.StepKeepsRunner | internal/channels/lease.go:67-149 | no step of a runner ever makes two adapters or two renewers live |
| Lease.StepKeepsRow | internal/channels/lease.go:15-24 | with distinct holders, a step without lapse keeps every runner with an adapter the owner of the row |
| Lease.RowKeepsOut | internal/channels/lease.go:67-101 | a row keeps every other holder out up to its last moment, and nobody after it; whoever gets in starts one adapter |
| Lease.RenewalKeepsRow | internal/channels/lease.go:152-184 | a renewal extends the holder's own row and starts nothing; it is refused exactly if the row is gone or another's |
| Lease.ReleaseHandsOver | internal/channels/lease.go:108-147 | a release that reaches the store frees the owner's row at once, and no one else's |
| Lease.RunKeepsRow | internal/channels/lease.go:67-184 | so every such run ends with at most one adapter running |
| Lease.ExclusionTheorem | internal/channels/lease.go:67-184 | at most one adapter runs in every run without lapse exactly if no two runners share a holder id |
| Lease.SharedHolderRun | internal/channels/manager.go:126-160 | two runners with one holder id both start, without any lapse |
| Lease.HoldDiscipline | internal/channels/lease.go:95-147 | Release and a new start only after the runner's own Start has returned; a hold that is over, whether the runner tries again or has returned, was released exactly if the select left through the context or the adapter's exit |
| Lease.ErrorsKeepAdapter | internal/channels/lease.go:159-178 | through any number of renewal errors, and any time, the runner and its adapter stay as they are |
| LeaseShutdown.ShutdownWithoutRelease | internal/channels/lease.go:108-147 | a run in which a shutdown keeps the row |
| Lease.LostStaysLost | internal/channels/lease.go:102-184 | a runner that lost its row never renews again; its first Renew without error stops its renewer, and with that its adapter is cancelled |
| LeaseTiming.SurvivalBound | internal/channels/lease.go:26-35 | the lease survives every schedule with at most n failures in a row exactly if (n + 1) intervals and twice the delay of a call fit into the TTL |
| LeaseTiming.ShippedConstants | internal/channels/lease.go:26-35 | with 30 s and 10 s two failures are survived only without any delay, one with calls of up to 5 s |
| LeaseSafety.OnTimeNeverLapses | internal/channels/lease.go:83-184 | a run whose attempts keep to schedules that survive never lapses |
| LeaseSafety.PunctualRunsAreExclusive | internal/channels/lease.go:15-35 | with distinct holders, bounded delay, at most n failures in a row and that bound, no run ever has two adapters |
| LeaseSafety.ExclusionBound | internal/channels/lease.go:15-35 | for two runners or more: no run on time ever has two adapters exactly if no two share a holder id and (n + 1) intervals and twice the delay fit into the TTL |
| RateLimit.RateLimiter.constructor | internal/api/ratelimit.go:12-26 | an empty history with the limit given |
| RateLimit.RateLimiter.Allow | internal/api/ratelimit.go:29-53 | a request is admitted exactly as the full admission history decides, though the index is pruned |
| RateLimit.RateLimiter.CleanupRound | internal/api/ratelimit.go:56-83 | cleaning changes no decision and leaves no stale stamp |
| RateLimit.DecisionIs | internal/api/ratelimit.go:29-53 | a request is admitted exactly if there is no limit, or fewer than that many requests of the same user were admitted in the sixty seconds up to it |
| RateLimit.PruneIsExact | internal/api/ratelimit.go:38-47 | dropping the stamps before the cutoff leaves exactly the last minute |
| RateLimit.WindowBound | internal/api/ratelimit.go:29-53 | in every run every closed one-minute interval, in nanoseconds, holds at most rpm admissions of a user |
| RateLimit.Serve | internal/api/ratelimit.go:29-83 | with cleanup rounds anywhere, the answers are those of the full history |
| TreeHash.StreamInjective | internal/agent/bundled_skills.go:177-204 | the hashed byte stream determines the file list |
| TreeHash.ListingUnique | internal/agent/bundled_skills.go:209-244 | a tree has one listing in walk order |
| TreeHash.DiskStreamIsVisible | internal/agent/bundled_skills.go:177-244 | the disk walk emits what the embed walk emits for the visible files |
| TreeHash.EmbedStreamInjective | internal/agent/bundled_skills.go:177-204 | two trees have one stream exactly if they are equal |
| Skills.HashesAgree | internal/agent/bundled_skills.go:148-173 | disk and bundle hash agree exactly if the visible files are the bundle |
| Skills.SidecarRoundTrip | internal/agent/bundled_skills.go:246-256 | a written sidecar reads back |
| Skills.InstallTwice | internal/agent/bundled_skills.go:71-133 | installing twice is installing once, for every directory and bundle |
| Skills.FreshIsUpToDate | internal/agent/bundled_skills.go:148-173 | a fresh copy counts as up to date exactly if the bundle has no hidden file and the target no visible leftover |
| Skills.SidecarIsShipped | internal/agent/bundled_skills.go:71-133 | in every run in which nobody else writes a sidecar, it records a bundle that was shipped |
| Skills.VisibleEditsSurvive | internal/agent/bundled_skills.go:71-133 | in every such run an install changes visible files only if they were, to the byte, a bundle shipped before, or SKILL.md is missing |
| Skills.VisibleChangeIff | internal/agent/bundled_skills.go:89-133 | whoever wrote the sidecar: with a SKILL.md an install changes visible files exactly if the sidecar holds their hash and the bundle shows others |
| Skills.UpgradeReaches | internal/agent/bundled_skills.go:71-133 | an untouched directory becomes the new bundle |
| Skills.InstallIs | internal/agent/bundled_skills.go:89-133 | what an install does, told from the files on disk, the sidecar and the bundle |
| Skills.AdoptionReaches | internal/agent/bundled_skills.go:89-133 | a directory that shows a bundle without a sidecar is adopted: no visible file changes, and the next bundle reaches it |
| Skills.UpgradesConverge | internal/agent/bundled_skills.go:71-133 | after any run that left the directory empty or untouched, installs end with the last bundle on disk |
| Skills.HiddenFilesLost | internal/agent/bundled_skills.go:274-296 | a user's hidden file is lost exactly when an upgrade overwrites |
| Skills.CopyEmbedTree | internal/agent/bundled_skills.go:274-296 | the copy loop writes every file of the bundle and leaves the rest |
| Skills.ManagedSkills.InstallSkill | internal/agent/bundled_skills.go:89-133 | one skill is handled as specified and no other directory changes |
| Skills.ManagedSkills.InstallBundledSkills | internal/agent/bundled_skills.go:71-133 | every shipped skill is handled once and nothing else changes |
| WeChat.CalcBackoff | internal/channels/wechat.go:692-701 | the loop computes min(3 * 2^(n-1), 60) |
| WeChat.Adapter.LoadBuf | internal/channels/wechat.go:194-223 | the cursor comes from disk if there is one |
| WeChat.Adapter.SaveBuf | internal/channels/wechat.go:225-254 | the cursor goes to disk, if the write succeeds |
| WeChat.Adapter.Start | internal/channels/wechat.go:266-373 | the poll loop ends in the state of the step function run over the script, and it pauses exactly as `WeChat.Pauses` tells from the script |
| WeChat.NextPause | internal/channels/wechat.go:266-373 | the next pause is min(3 * 2^(f-1), 60) after the f-th transport error in a row, 5 after an expiry that drops a cursor, the same closed form of the series after an expiry without one, and there is no other |
| WeChat.FailuresAre | internal/channels/wechat.go:266-299 | the failure counter is the number of transport errors since the last reply, continued from the value carried along, or from the series that took its place |
| WeChat.CursorIs | internal/channels/wechat.go:266-373 | the cursor is the last one an accepted reply has brought, unless an expiry has dropped it since |
| WeChat.ExpiryExact | internal/channels/wechat.go:266-373 | for every adapter and script the counter is the length of the current series of empty-cursor expiries, and a loop that stops by itself has called back once |
| WeChat.StopsIffCompletes | internal/channels/wechat.go:300-340 | for every adapter, also one that has stopped before, the loop stops by itself exactly at an expiry with an empty cursor that brings the series to twenty or more |
| WeChat.StopsIffEnough | internal/channels/wechat.go:300-340 | until a reply is accepted the number of expiries alone decides, counted from what the adapter brings along |
| WeChat.SessionsKeepSync | internal/channels/wechat.go:194-254 | with successful writes memory and disk cursor agree over any number of restarts, and a positive counter means an empty cursor |
| WeChat.CalledTwiceIff | internal/channels/wechat.go:143-150 | over any number of Starts the callback is called more than once exactly if two of them each complete a series |
| WeChat.StopsAgainIff | internal/channels/wechat.go:143-150 | after a stop, and until a reply is accepted, the next Start calls back exactly if it meets one expiry, or two if it has loaded a cursor |
| WeChat.CalledTwice | internal/channels/wechat.go:143-150 | twenty expiries in a first Start and one in a second |
| WeChat.RestartClashIff | internal/channels/wechat.go:194-254 | a restart pairs a running counter with a cursor exactly if the counter runs and the last write that got through had left a cursor |
| WeChat.LostWriteRevivesCursor | internal/channels/wechat.go:225-254 | two expiries whose writes are lost do it |
| Cipher.Encrypt | internal/channels/wechat.go:1150-1166 | padding and the block loop compute the specified ciphertext, or an error for a bad key |
| Cipher.Decrypt | internal/channels/wechat.go:1219-1241 | the in-place block loop and unpadding compute the specified plaintext or error |
| Cipher.BlockAt | internal/channels/wechat.go:1150-1241 | block k of the output is block k of the input, transformed |
| Cipher.CiphertextIs | internal/channels/wechat.go:1150-1166 | what is encrypted, block by block, is the text followed by n bytes of value n, with n from 1 to 16 up to the next multiple of 16 |
| Cipher.PlaintextIs | internal/channels/wechat.go:1219-1241 | decryption transforms block by block and cuts off as many bytes as the last one says, if that is from 1 to 16, else none |
| Cipher.WhenItFails | internal/channels/wechat.go:1150-1241 | encryption fails exactly on a key of another length than 16, 24 or 32, decryption also on a torn block |
| Cipher.DecryptOfEncrypt | internal/channels/wechat.go:1150-1259 | decryption undoes encryption for every text, and the ciphertext has the announced size |
| Cipher.EncryptOfDecrypt | internal/channels/wechat.go:1219-1241 | the other way round holds exactly for well-padded texts, since padding is not checked |
| Cipher.WellPaddedIsPad | internal/channels/wechat.go:1150-1166 | a text is well padded exactly if padding its unpadded form gives it back (section 6.3 of RFC 5652) |

## Left out

- Overlapping turns on one session: HandleMessage starts with no turn running, since another turn would append between the steps modelled here.
- Plan mode, slash commands, hooks, goals, metering, PII scrubbing, media files and search indexing inside the loop: they do not change what is appended.
- A missing provider, the streaming variant of the turn, llmRetry, HTTP, database, Redis and file-system errors: oracles stand for their results.
- Wording of warnings, pads, nudges and canned replies is shortened; message timestamps, provider stamps, thinking blocks, content parts and cached raw messages are dropped.
- Tool arguments are compared as text where the source compares their SHA-256 hashes; the skill hash is any injective function without blanks in its output.
- Steering messages that arrive during an iteration are received when its model call starts: the buffer is not read before the iteration ends, so every other moment gives the same result.
- Wire.OpenAI: computes the request in one pass; the source collects the indexes to drop in maps first. Coalescing tool results into one Anthropic user message is not modelled.
- Recovery.RecoverToolCalls: keeps arguments as a map of strings and JSON texts; JSON encoding and the JSON parser are a parameter.
- Recovery.NormalizeLeaked: covers the four named tags; noise around a bare DSML tag is modelled, but is not part of the statement.
- Chunkers.SplitTelegramMessage: works on bytes, as the source does, and says nothing about runes torn apart by a hard cut.
- Text: strings are sequences of code points; invalid UTF-8 is not modelled.
- Lease: all replicas share one clock; the source compares the readings of different machines.
- Lease: the store's Acquire, Renew and Release follow the conditional updates of internal/store/database.go:4100-4188; the Redis variant and dropped ticks are not modelled.
- WeChat.Adapter.Start: does not hand received messages on; a reply is its error code and its cursor.
- Skills: sub-directories are paths of a flat map; file modes and partial copies after an I/O error are not modelled.
- Configuration, dashboards, billing, authentication and prompt assembly: branching without invariants.
