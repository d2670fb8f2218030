# nanobot: a verified model of its agent runtime

nanobot runs a language model as an agent. This project models the parts of the runtime in which order,
pairing and ownership matter, and proves what they keep:

- **Model requests.** A persisted transcript is repaired before it is sent: placeholder rows and malformed
  calls go, orphaned tool results go, missing results are filled in, results are normalized, and adjacent user
  rows are merged without losing their hidden context. Later requests are built from the accepted rows H and
  the unsent rows only. The reference runner in `RunnerTurn.dfy` rebuilds every request from everything the
  model knows; the incremental runner is proved to send the same requests, also after H became a summary.
- **Turn persistence.** One loop filters the rows of a turn, keeps calls and results paired, and puts a summary
  checkpoint at a raw transcript index while rows are being dropped. What a session replays from the checkpoint on is
  proved to be paired on its own, for the boundary of every request of every run.
- **The session inbox.** One worker per session drains a queue; a running turn may absorb an injectable prefix of
  it while messages keep arriving; automation turns wait until the inbox is idle.
- **Subagents.** A sealed outcome, a bounded inbox with receipts, bounded registries, and a record that is owned
  until its execution has ended and its processes are cleaned up.
- **Smaller pieces.** The memory journal with its cursors, the search for installed extras, stream segments with
  source attribution, and the recovery of truncated answers.

## How the model is built

Code that changes lists, dictionaries or fields step by step is written as methods and classes with the same
loops and branches, and each is proved equal to a function of its inputs or of the old state. The properties are
lemmas about those functions. Beside the properties of whole runs there is for each operation one that says what comes
out in terms of positions and fields of what went in, without naming the function that computes it. Protocols (inbox, subagents, journal) are state machines: an event is what happens
between two awaits, `After` applies any sequence of events, and the classes make the same steps.

| file | what it holds |
|---|---|
| `Text.dfy`, `Selection.dfy`, `Transcript.dfy` | string helpers with their laws; lists of positions; messages, calls, and when a transcript pairs them |
| `Repair.dfy`, `Pairing.dfy`, `Backfill.dfy`, `RepairPasses.dfy` | the repair passes, their guarantee, the offset arithmetic of backfill, the passes as loops |
| `RepairShows.dfy`, `FirstAnswers.dfy`, `ResultsShown.dfy` | what repaired transcripts and requests show, by the positions and fields of the raw rows |
| `RuntimeContext.dfy`, `MergeUsers.dfy`, `MergedTexts.dfy` | hidden context suffixes, the merge of user rows that carry them, and what a merged row reads as |
| `Requests.dfy`, `PrepareTwice.dfy`, `ExactRefinement.dfy` | incremental requests, when preparing twice changes nothing, and exactly when building on an earlier request is rebuilding |
| `CompactionState.dfy`, `RunnerTurn.dfy`, `RunTranscript.dfy`, `StaleAnswers.dfy` | H and its replacement by a summary; whole runs of the runner, what they write and what their requests show; an answer that is replaced after it was sent |
| `SaveTurn.dfy`, `StoredRows.dfy`, `RunBoundaries.dfy`, `Replay.dfy` | persisting a turn; which rows are stored; where a run may be cut; what is replayed from a committed checkpoint on |
| `SessionInbox.dfy`, `InboxRuns.dfy`, `WholeDrains.dfy`, `InboxSlots.dfy` | the inbox and its worker as steps, over whole runs and whole drains, and as an object |
| `Subagents.dfy`, `SubagentRuns.dfy`, `SubagentLives.dfy`, `SubagentManager.dfy` | the life of subagents as steps, over whole runs, from creation to release, and as objects |
| `Journal.dfy`, `Extras.dfy`, `StreamSegments.dfy`, `LengthRecovery.dfy` | the smaller pieces |

## Where the code does less than its comments or callers expect

The code is modelled as it is. Where a natural claim about it is false, a lemma gives the condition under which it
holds, or an input for which it fails.

- Preparing a request twice is preparing it once exactly if no placeholder row has only malformed calls and no
  unanswered id is declared twice (`PreparedTwice`).
- A result for a call id that was answered before is dropped, and the request shows the first result
  (`ReusedIdShowsTheFirstResult`). With an id that is new the request shows the result of the call itself
  (`NextRequestShowsResults`).
- Two calls with one id that lost their results get two results with that id (`PairedCounts`, `PairedLegal`).
- A real result that arrives after a request has already filled it in is dropped from later requests
  (`LateResultIsLost`). Building on an earlier request is rebuilding exactly if nothing lingers in the accepted rows,
  no id that they leave unanswered was called twice, and the unsent rows neither call nor answer such an id
  (`RefinementHoldsIff`); an id that was answered may be used again. The runner always appends the results of an
  exchange before the next request.
- A transcript that ends in a plain answer can have that answer replaced after it was sent; later requests then show
  the old one. For every transcript, the request behind the fallback for an empty answer is the rebuilt one exactly
  if the transcript does not end in another plain answer (`FallbackRefinesIff`, `OldAnswerStays`, `StaleAnswer`).
- A failed cleanup of a subagent makes its terminal state an error only if the execution hears of the failure. One
  that is cancelled from outside while it waits for the cleanup ends with its sealed outcome whatever the cleanup
  does. Over every run the state is an error for this reason exactly if the step that made the task terminal
  collected a failed cleanup (`TerminalStateIsTheOutcome`, `VerdictOfAStep`); `FailureIsMissed` shows the other case
  for every state, and `FailedCleanupIsMissed` is a run with a task that is done although its cleanup failed.
- A hidden context whose text is empty does not detach from a text message (`AppendThenDetach`), and is not
  removed for display (`AppendThenPublic`).
- One index past the last valid one, saving a turn commits its checkpoint twice (`TwoCheckpointsPastTheEnd`). This is
  a property of the function, not of a turn: the only index that callers compute, in
  nanobot/session/turn_continuation.py:193-206, is at most the number of messages.
- The comment above the recovery chain says that injected user input clears it. It does only while a segment is
  pending: behind a blank reply the old segments stay and are put in front of the next answer
  (`InputClearsTheChainIff`, `StaleOnlyBehindABlank`, `StaleChainIsPrefixed`, `StaleSegmentLeaks`).
- Restoring the outer blanks of a segment doubles a text that is all blanks (`RestoreUndoesStrip`). So the chain is
  what was received exactly if no truncated text was all blanks (`ChainIsExactIff`), and the stripped answer is
  exactly if none of them stands behind a visible one (`JoinedIsExactIff`).
- The search for extras remembers name and extras but no version range, so a second range for one key is never
  looked at (`SecondRangeIsIgnored`). A negative answer is always right; a positive one is right exactly if the
  reachable requirements with one key agree on whether the installed version is accepted (`AnswerIsRightIff`).
- A journal line that somebody else wrote behind a higher cursor makes the store issue a cursor again
  (`FreshUnlessTheTailIsBehind`, `ForeignTailRepeats`).

## Assumptions that stand in the contracts

- The normalizer of tool results is a parameter. The refinement needs it to be idempotent.
- The refinement needs unsent rows that leave the open ids (called, without a real result) alone, and accepted rows
  in which no placeholder lingers and no open id is called twice. `RunnerTurn.Sound` carries this over whole runs:
  calls with usable names and distinct ids none of which is open, one result per call, injected rows that are user
  rows, and summary rows that neither call nor answer a tool. The other direction of `RefinementHoldsIff` also needs
  that no late result reads, once normalized, like the row that was sent in its place.
- The cleaned text of a reply that the recovery of truncated answers uses is the strip of its raw text
  (`LengthRecovery.CleaningStrips`). Nothing is asked of replies that are discarded.
- Ids that the code draws at random (messages, tasks, queues) are fresh.

## Model

| member | source | states |
|---|---|---|
| Text.StripDecomposes | nanobot/agent/runner.py:85-93 | a text with a visible character is its leading blanks, its strip and its trailing blanks |
| Transcript.LegalIsPaired | nanobot/agent/context_governance.py:862-890 | in a legal transcript every tool row stands behind a row that declares its call, and no id is answered twice |
| Repair.DropIsLegal | nanobot/agent/context_governance.py:862-890 | dropping orphans leaves a legal transcript, for any rows and any known ids |
| Repair.DropKeepsLegal | nanobot/agent/context_governance.py:862-890 | a legal transcript loses nothing |
| Repair.FillComplete | nanobot/agent/context_governance.py:892-935 | a transcript in which every call is answered gets no synthetic row |
| RepairShows.RowsLeft | nanobot/agent/context_governance.py:768-859 | of any transcript exactly the placeholder rows without calls, and the rows that had calls but neither a usable one nor content, are left out; every other row keeps all its fields but the calls without a usable name |
| RepairShows.CallsKept | nanobot/agent/context_governance.py:846-848 | exactly the calls whose name is a text that is not empty are kept, in order |
| RepairShows.RepairShowsEveryText | nanobot/agent/context_governance.py:377-386 | the rows of a repair that are no tool rows are the raw rows that say something, in order, with their contents and usable calls |
| RepairShows.RequestShowsEveryText | nanobot/agent/context_governance.py:368-386 | so are the rows of a request that are neither tool rows nor user rows |
| FirstAnswers.ResultsKept | nanobot/agent/context_governance.py:862-890 | dropping orphans keeps, by position, every row but the tool rows that are not the first answer behind a call |
| ResultsShown.FirstResultIsShown | nanobot/agent/context_governance.py:368-386 | the first result behind a usable call is in the request, normalized under its id and name, and is the only row there with its id |
| ResultsShown.EveryResultIsExplained | nanobot/agent/context_governance.py:368-386 | every tool row of a request is such a first result, or a synthetic result for a usable call that has none |
| ResultsShown.OwedRowsAre | nanobot/agent/context_governance.py:908-935 | a row is owed one synthetic result for each call whose id is not answered, in call order, under its id and name |
| Pairing.LegalIffAnchoredOnce | nanobot/agent/context_governance.py:862-890 | legal means that every result has an earlier call and no id has two results |
| Pairing.FillAnchored | nanobot/agent/context_governance.py:892-935 | backfill keeps every result behind a row that declares its call |
| Pairing.FillResults | nanobot/agent/context_governance.py:892-935 | backfill adds to an unanswered id exactly one result per call that declares it, and none to others |
| Pairing.PairedCounts | nanobot/agent/context_governance.py:806-935 | after the repair of any transcript: every result answers an earlier call; an id with a kept result has exactly that one, any other id one per call |
| Pairing.PairedLegal | nanobot/agent/context_governance.py:377-386 | every declared call has a result, and no id is answered twice exactly if no id without a real result is declared twice |
| Pairing.EveryCallAnsweredOnce | nanobot/agent/context_governance.py:377-386 | with distinct call ids every declared call has exactly one result, and it comes later |
| Backfill.ScanCalls | nanobot/agent/context_governance.py:897-916 | the declared calls with their row indices in order, and the answered ids |
| Backfill.InsertAfterTools | nanobot/agent/context_governance.py:925-934 | one row is inserted at the end of the contiguous tool rows |
| Backfill.BackfillMissingToolResults | nanobot/agent/context_governance.py:892-935 | the loop with its running offset computes the fill for any number of missing calls per assistant row |
| Backfill.FillRun | nanobot/agent/context_governance.py:922-935 | rows that are owed stand at the end of the contiguous tool rows, in front of any other row |
| Backfill.OwedAfterOwnTools | nanobot/agent/context_governance.py:922-935 | wherever an assistant row stands, the results it is owed stand behind the tool rows directly after it and in front of the rest |
| Backfill.BackfillIsReversible | nanobot/agent/context_governance.py:892-935 | deleting the results of unanswered ids gives the input back |
| RuntimeContext.NormalizeRuntimeContextBlocks | nanobot/runtime_context.py:78-96 | the loop keeps the blocks with visible text, trimmed, and rejects a block without a source |
| RuntimeContext.NormalizedFacts | nanobot/runtime_context.py:78-96 | normalization fails exactly if some source is blank, and leaves no blank block |
| RuntimeContext.VisibleBlocksAreKept | nanobot/runtime_context.py:78-96 | with a source for each, exactly the blocks with visible content are kept, in order and trimmed |
| RuntimeContext.AppendReads | nanobot/runtime_context.py:120-150 | the model reads the text, an empty line and the context, or a list with one more text block for each context block |
| RuntimeContext.SourcesKept | nanobot/runtime_context.py:153-181 | detaching keeps the sources that are not empty, in order |
| RuntimeContext.AppendThenDetach | nanobot/runtime_context.py:120-181 | append then detach gives the visible content, the context and the sources back, exactly if the context can be told from the text |
| RuntimeContext.AppendThenPublic | nanobot/runtime_context.py:215-240 | display gives the original content back, with the exact exception |
| RuntimeContext.NormalizedContext | nanobot/runtime_context.py:78-96 | normalized blocks always leave a context that detaches |
| RuntimeContext.PublicKeepsForeign | nanobot/runtime_context.py:215-240 | a marker that does not match leaves the content as it is stored |
| RuntimeContext.ReattachThenDetach | nanobot/runtime_context.py:184-212 | reattached context detaches again to the same visible content and sources |
| MergeUsers.MergeAdjacentUserMessages | nanobot/agent/context_governance.py:281-366 | the merging loop is the fold over the rows |
| MergeUsers.MergedParts | nanobot/agent/context_governance.py:303-364 | merging two rows whose markers match gives a row whose marker matches: visible contents merged, sources and contexts in order |
| MergeUsers.MergedStaysMergeable | nanobot/agent/context_governance.py:303-364 | a merged row can be merged again |
| MergeUsers.RunBecomesOneRow | nanobot/agent/context_governance.py:281-366 | a run of mergeable rows of any length becomes one row that detaches to the folded contents, all sources and all contexts in order |
| MergedTexts.MergedRowReads | nanobot/agent/context_governance.py:260-366 | a run of visible user rows becomes one row whose visible content is the texts of all rows in order, joined by empty lines from the first that is not empty on; or the blocks of all rows in order if some content is no text |
| MergedTexts.RunInATranscript | nanobot/agent/context_governance.py:281-366 | so wherever the run stands between other rows |
| MergedTexts.FoldReads | nanobot/agent/context_governance.py:260-279 | the same for any list of contents merged from left to right |
| MergedTexts.MergedFields | nanobot/agent/context_governance.py:303-364 | a merged row has all other fields of the left one; metadata is united with the left entries first; with a marker that does not match the stored contents are merged |
| MergeUsers.MergeAbsorbs | nanobot/agent/context_governance.py:281-366 | merging merged rows followed by new ones is merging everything at once |
| MergeUsers.MergeSeparates | nanobot/agent/context_governance.py:281-366 | runs that cannot join are merged separately |
| MergeUsers.MergeKeepsOthers | nanobot/agent/context_governance.py:281-366 | all rows that are not user rows stay, in order |
| Requests.RepairSettles | nanobot/agent/context_governance.py:377-386 | a repair settles a transcript exactly if nothing lingers and no unanswered id is declared twice |
| Requests.SettledStays | nanobot/agent/context_governance.py:377-386 | a settled transcript is left alone by every pass |
| Requests.RepairSplit | nanobot/agent/context_governance.py:377-386 | the repair of old and new rows is the repair of the old ones and that of the new ones behind what the old ones declare and answer, if the new rows answer no open id |
| Requests.IncrementalRefinesRebuild | nanobot/agent/context_governance.py:218-241 | preparing the prepared rows H followed by the delta is preparing the whole raw transcript |
| Requests.ClosedOpensNothing | nanobot/agent/context_governance.py:218-241 | a delta that holds each result with its call leaves no id unanswered, and answers what it calls |
| Requests.ClosedUntouched | nanobot/agent/context_governance.py:862-935 | on a delta that holds each result with its call, orphan dropping and backfill do nothing |
| PrepareTwice.PreparedCounts | nanobot/agent/context_governance.py:368-386 | the numbers of assistant rows, calls and results of a prepared transcript, for every input |
| PrepareTwice.LingeringShows | nanobot/agent/context_governance.py:790-804 | a placeholder with only malformed calls is still in the prepared transcript |
| PrepareTwice.DoubleCallChanges | nanobot/agent/context_governance.py:918-935 | an unanswered id declared twice makes a second preparation change the result |
| PrepareTwice.PreparedTwice | nanobot/agent/context_governance.py:368-386 | preparing twice is preparing once exactly if nothing lingers and no unanswered id is declared twice |
| ExactRefinement.RefinementHoldsIff | nanobot/agent/context_governance.py:218-241 | for every H and every delta with distinguishable late results: building on the request is rebuilding exactly if nothing lingers, no open id was called twice, and the delta neither calls nor answers an open id |
| ExactRefinement.StandInStays | nanobot/agent/context_governance.py:918-935 | the synthetic row that was sent for a missing result stays in every request built on it |
| ExactRefinement.LateResultDiffers | nanobot/agent/context_governance.py:227-241 | a late result for any open id makes the two requests differ |
| ExactRefinement.SecondCallDiffers | nanobot/agent/context_governance.py:227-241 | so does an open id that is called more than once |
| ExactRefinement.LingeringDiffers | nanobot/agent/context_governance.py:790-804 | and a placeholder that lingers, for any delta |
| ExactRefinement.LateResultIsLost | nanobot/agent/context_governance.py:218-241 | one call and its late result: the incremental request shows the synthetic row, a rebuild the real one |
| RepairPasses.StripPlaceholderAssistantMessages | nanobot/agent/context_governance.py:768-804 | the loop drops exactly the placeholder rows without calls |
| RepairPasses.StripMalformedToolCalls | nanobot/agent/context_governance.py:806-859 | the loop keeps the calls with usable names, and drops an assistant row that has nothing left |
| RepairPasses.DropOrphanToolResults | nanobot/agent/context_governance.py:861-890 | the loop keeps a tool row exactly if its call is declared before it and not answered yet |
| RepairPasses.ApplyToolResultBudget | nanobot/agent/context_governance.py:937-956 | the loop normalizes every tool row under its call id, or under its index without one |
| RepairPasses.ResultsNormalized | nanobot/agent/context_governance.py:943-956 | by position: which key, name and content each tool row is normalized with, and that other rows stay |
| RepairPasses.PrepareMessagesForModel | nanobot/agent/context_governance.py:368-386 | the five passes in order and the merge behind them |
| CompactionState.ContextCompactionState.constructor | nanobot/agent/context_governance.py:136-216 | H starts as the raw rows before the history boundary |
| CompactionState.ContextCompactionState.DeltaAfterAccepted | nanobot/agent/context_governance.py:227-231 | the delta of such a request is what stands behind H |
| CompactionState.ContextCompactionState.AcceptRequest | nanobot/agent/context_governance.py:233-241 | an accepted request becomes H, with the raw boundary behind it |
| CompactionState.ContextCompactionState.CompactRequestHistory | nanobot/agent/context_governance.py:538-615 | H is replaced by the summary rows and the delta stays; without a usable summary nothing is recorded |
| RunnerTurn.PrepareRequest | nanobot/agent/context_governance.py:617-698 | a request built from H and the delta, or from a summary and the delta, is the rebuilt request |
| RunnerTurn.RequestIsRebuild | nanobot/agent/context_governance.py:218-241 | in every state of a run, preparing H followed by the delta rebuilds the whole request |
| RunnerTurn.OneRound | nanobot/agent/runner.py:440-479 | one iteration sends the request of the reference runner and keeps its state |
| RunnerTurn.RunCore | nanobot/agent/runner.py:376-842 | for every run the incremental runner sends the requests of the runner that rebuilds each one |
| RunTranscript.RunGrows | nanobot/agent/runner.py:395-842 | at every point of every run the raw transcript grows by the input or the continuation prompt and then by what the response says: calls and the result of each call under its own id and name, a truncated text, an answer, a fallback |
| RunTranscript.EveryRelaxedRequestIsWhole | nanobot/agent/context_governance.py:218-231 | without a summary every request of a run is the preparation of the whole transcript |
| RunTranscript.SummaryStands | nanobot/agent/context_governance.py:538-615 | after a summary, until the next one, every request covers the summary rows and the raw rows behind what was sent before it |
| RunTranscript.RequestIsMadeIff | nanobot/agent/context_governance.py:617-698 | a request over budget is made exactly if there is a summary that makes it fit |
| RunTranscript.ResultIsShown | nanobot/agent/runner.py:548-560 | wherever an exchange stands, the request shows result i for the id of call i, if no earlier result stands for that id |
| RunTranscript.NextRequestShowsResults | nanobot/agent/runner.py:548-560 | in every run the request behind a round with calls shows so for every call |
| RunTranscript.ReusedIdShowsTheFirstResult | nanobot/agent/context_governance.py:878-884 | a result for an id that was answered before is not in the request, which shows the first one |
| RunnerTurn.CompactionKeepsPairs | nanobot/agent/context_governance.py:538-615 | a summary in place of H leaves the repaired request as the summary rows followed by the delta |
| RunnerTurn.EveryCompactionKeepsPairs | nanobot/agent/runner.py:463-561 | at every request of every run the unsent rows hold each result with its call, so that orphan dropping and backfill do nothing to them |
| RunnerTurn.ExchangeClosed | nanobot/agent/runner.py:498-561 | an assistant row with calls and one result per call is closed, whatever the normalizer does |
| StaleAnswers.BlankKeepsAccepted | nanobot/agent/runner.py:1363-1377 | the fallback for an empty answer leaves the sent rows alone exactly if the transcript does not end in another plain answer |
| StaleAnswers.FallbackRefinesIff | nanobot/agent/runner.py:1363-1377 | for every transcript that requests can be built on: behind the fallback and further input, the request built on the sent one is the rebuilt one exactly under that condition |
| StaleAnswers.OldAnswerStays | nanobot/agent/runner.py:1363-1377 | for every transcript that ends in another plain answer the sent rows with the later ones prepare to another request than the transcript does |
| StaleAnswers.OtherAnswerOtherRequest | nanobot/agent/context_governance.py:368-386 | requests that show two different plain answers in one place are different |
| StaleAnswers.StaleAnswer | nanobot/agent/runner.py:1363-1377 | one plain answer: H keeps it where a rebuild shows the fallback |
| SaveTurn.SavedIsLegal | nanobot/agent/loop.py:2408-2463 | of arbitrary rows, the stored ones answer declared calls only, and each call once |
| StoredRows.RowsStored | nanobot/agent/loop.py:2381-2463 | by position and field: exactly the assistant rows with content or calls, the user rows that are no empty list, the first answers to called ids and the rows of other roles are stored, in order and in their stored form |
| StoredRows.TurnIsStored | nanobot/agent/loop.py:2338-2465 | for any session and turn the new rows that enter stand behind the session, and the checkpoint row besides them |
| StoredRows.StoredForm | nanobot/agent/loop.py:2289-2316 | a stored row keeps its role, ids, calls and content but for inline images and an empty tool result, and of its metadata the marker of a user row |
| StoredRows.FollowupsAcknowledged | nanobot/agent/loop.py:2445-2470 | the acknowledged follow-ups are those of the stored user rows |
| SaveTurn.CheckpointSplits | nanobot/agent/loop.py:2381-2465 | the checkpoint stands exactly between the stored rows below the raw boundary and those from it on, however many rows are dropped |
| SaveTurn.OneCheckpointAtTheBoundary | nanobot/agent/loop.py:2365-2465 | for every valid boundary exactly one checkpoint is committed at its place, in front of an early input row if the boundary is there |
| SaveTurn.NoCheckpoint | nanobot/agent/loop.py:2316-2336 | without a valid boundary no checkpoint is committed |
| SaveTurn.TwoCheckpointsPastTheEnd | nanobot/agent/loop.py:2374-2464 | one index past the last valid one, the checkpoint is committed twice |
| SaveTurn.ReplayStartsAtTheCheckpoint | nanobot/session/manager.py:222-241 | the replay boundary of the session is the index of a checkpoint row |
| SaveTurn.SavingKeepsPairing | nanobot/agent/loop.py:2349-2463 | saving any turn keeps the session paired |
| SaveTurn.SessionStaysPaired | nanobot/agent/loop.py:2349-2463 | over any sequence of saved turns every stored tool row has an earlier declaring row and no call id is answered twice |
| Replay.SavedBehind | nanobot/agent/loop.py:2381-2463 | stored rows whose raw rows answer calls among themselves are paired without anything in front of them |
| Replay.ReplayIsPaired | nanobot/session/manager.py:222-241 | for any session and turn: if the raw rows from the boundary on answer calls among themselves, the rows from the committed checkpoint on are paired on their own |
| RunBoundaries.EveryBoundaryIsClean | nanobot/agent/runner.py:463-561 | at every point of every run, the raw rows behind every boundary that a request left answer calls among themselves |
| Replay.ReplayOfARunIsPaired | nanobot/agent/loop.py:2316-2465 | for every run, saved into any session with the boundary of any of its requests as checkpoint: what is replayed from there on is paired on its own |
| SaveTurn.Session.CommitSummaryCheckpoint | nanobot/session/manager.py:222-241 | the hidden row goes to its index, which becomes the replay boundary |
| SaveTurn.SaveRow | nanobot/agent/loop.py:2387-2463 | one row is stored, with its ids recorded, exactly if the filter admits it |
| SaveTurn.SaveRows | nanobot/agent/loop.py:2381-2465 | the loop appends the stored rows and the checkpoint, and collects the follow-ups of stored user rows |
| SaveTurn.SaveTurn | nanobot/agent/loop.py:2338-2470 | the session rows, the acknowledged follow-ups, the replay boundary and the summary after a turn |
| InboxRuns.InboxIsConserved | nanobot/agent/loop.py:1023-1135 | over every interleaving: what left, what the worker holds and what is queued are the admitted messages in order |
| InboxRuns.EveryArrivalIsTakenUp | nanobot/agent/loop.py:1445-1470 | every arrival is admitted or put off, once and in order |
| InboxRuns.NoWorkIsStranded | nanobot/agent/loop.py:1445-1512 | there is at most one worker, and one that owns the inbox whenever anything waits |
| InboxRuns.EveryHistoryIsOrderly | nanobot/agent/loop.py:1472-1505 | messages leave in order, put-off turns resume in their order and only when every admitted message has left, and only injectable messages are injected |
| InboxRuns.DrainInjectsThePrefix | nanobot/agent/loop.py:1033-1135 | a drain injects exactly the injectable prefix of its snapshot whatever arrives meanwhile; one that fails at any point, also behind its last conversion, returns the whole snapshot in front of later arrivals |
| WholeDrains.DrainTakesEverything | nanobot/agent/loop.py:1033-1135 | a whole drain, from any reachable state: exactly the injectable prefix of the held message and the whole queue leaves, the rest is queued in front of what arrived meanwhile |
| WholeDrains.FailedDrainReturnsEverything | nanobot/agent/loop.py:1125-1135 | a whole drain that fails: nothing has left and everything is back |
| WholeDrains.WaitingTakesTheFirst | nanobot/agent/loop.py:1139-1168 | a turn that waits at its end takes the first queued message, and a drain from there has the whole queue |
| WholeDrains.ArrivalIsPlaced | nanobot/agent/loop.py:1445-1470 | an automation turn waits exactly while there is a worker; any other arrival comes last in the queue or starts a worker |
| WholeDrains.IdleWorkerGoesOn | nanobot/agent/loop.py:1478-1512 | the first queued message runs next, then put-off turns, then the session is free |
| InboxRuns.LeftAloneEverythingRuns | nanobot/agent/loop.py:1478-1512 | with no more arrivals, as many turns as there are waiting messages empty the session and end the worker |
| InboxSlots.SessionSlots.Enqueue | nanobot/agent/loop.py:1445-1470 | an arrival is put off, queued, or starts a worker with a new queue |
| InboxSlots.SessionSlots.RunSessionQueue | nanobot/agent/loop.py:1478-1491 | the worker takes the next message, a put-off turn, or leaves and gives up its registration |
| InboxSlots.SessionSlots.TakeSnapshot | nanobot/agent/loop.py:1029-1042 | the snapshot is the message in hand and everything queued |
| InboxSlots.SessionSlots.Convert | nanobot/agent/loop.py:1119-1124 | conversion stops in front of the first message that must be a turn of its own |
| InboxSlots.SessionSlots.FinishDrain | nanobot/agent/loop.py:1125-1135 | the converted prefix is committed and the rest goes back in front of later arrivals |
| SubagentRuns.RegistriesAreBounded | nanobot/agent/subagent.py:308-336 | over every run: at most 128 records and 128 terminal statuses, at most so many admitted executions as there are slots, running executions belong to owned records, no second finish |
| SubagentRuns.RunMovesForward | nanobot/agent/subagent.py:111-149 | over every run a record only moves forward, its outcome is sealed once, and behind it no message is accepted or delivered |
| SubagentRuns.TerminalStateIsTheOutcome | nanobot/agent/subagent.py:119-149 | over every run the terminal state is the sealed outcome, or an error exactly if the step that made the task terminal collected a failed cleanup, which was reported before |
| SubagentRuns.VerdictOfAStep | nanobot/agent/subagent.py:636-690 | a task becomes terminal when its execution collects the end of the cleanup, or in the completion callback; only the first makes an error of a failed cleanup |
| SubagentRuns.FailureWasReported | nanobot/agent/subagent.py:673-681 | over every run a record that knows of a failed cleanup had its cleanup end in a failure before |
| SubagentRuns.FailureIsMissed | nanobot/agent/subagent.py:636-651 | in every reachable state: an execution that is cancelled while it waits for its cleanup ends with its outcome although the cleanup fails |
| SubagentRuns.FailedCleanupIsMissed | nanobot/agent/subagent.py:636-651 | a run of seven events in which a task is done and its cleanup failed |
| SubagentRuns.ReceiptsTellTheTruth | nanobot/agent/subagent.py:338-396 | delivered messages are the first accepted ones in order; receipts read accepted exactly for the inbox, and for nothing once the record is terminal |
| SubagentRuns.ReleasedOnlyWhenSafe | nanobot/agent/subagent.py:321-327 | a record is released only behind the end of its execution, a successful cleanup and its terminal status |
| SubagentLives.ReleasedIff | nanobot/agent/subagent.py:317-327 | in every reachable state, exactly when a record goes |
| SubagentLives.TaskLives | nanobot/agent/subagent.py:653-690 | from any reachable state with a free slot: a task that begins ends with the outcome of its execution, its text or partial output, its stored status and its released record |
| SubagentLives.CancelledTaskEnds | nanobot/agent/subagent.py:407-421 | a task that is cancelled before or during its execution ends as cancelled |
| SubagentLives.TaskFinishes | nanobot/agent/subagent.py:119-149 | what the terminal record and the stored status say behind a cleanup that succeeded or failed |
| SubagentLives.LateResult | nanobot/agent/subagent.py:636-651 | the result of an execution that is over without one: its sealed outcome, the error that it raised, or cancelled |
| SubagentLives.SendIsExact | nanobot/agent/subagent.py:380-396 | in every reachable state, exactly when a message is accepted, and what changes |
| SubagentLives.DrainIsExact | nanobot/agent/subagent.py:338-345 | in every reachable state a drain delivers everything in order and marks every receipt |
| SubagentLives.CreateIsExact | nanobot/agent/subagent.py:514-564 | in every reachable state, exactly when a task is created, and what changes |
| SubagentLives.CancelIsExact | nanobot/agent/subagent.py:407-421 | what a cancel does to a record: outcome sealed once, cleanup started, nothing when terminal |
| SubagentLives.RetryIsExact | nanobot/agent/subagent.py:926-931 | which cleanups a retry starts |
| SubagentLives.CloseIsExact | nanobot/agent/subagent.py:921-923 | closing keeps everything but the admission |
| SubagentLives.OutputIsKept | nanobot/agent/subagent.py:168-175 | visible output of an executing task is kept, cut to the limit |
| SubagentRuns.StillThere | nanobot/agent/subagent.py:514-564 | a released record never comes back |
| SubagentRuns.ClosedAdmitsNothing | nanobot/agent/subagent.py:921-923 | once the manager is closed, no run creates a record again |
| Subagents.RememberKeepsLast | nanobot/agent/subagent.py:329-336 | the retained statuses are those of the last finished records |
| Subagents.EveryRunKeepsInv | nanobot/agent/subagent.py:636-690 | the invariant behind these results holds in every reachable state |
| SubagentManager.TaskRecord.Decide | nanobot/agent/subagent.py:111-117 | the outcome is sealed by the first caller only |
| SubagentManager.TaskRecord.Finish | nanobot/agent/subagent.py:119-149 | the terminal record: outcome or cleanup error, partial output kept, every inbox receipt undelivered; without an outcome nothing changes |
| SubagentManager.TaskRecord.StartCleanup | nanobot/agent/subagent.py:308-315 | a cleanup is started once; a retry starts it again behind any cleanup that is over, and leaves a running one alone |
| SubagentManager.TaskRecord.RetryCleanup | nanobot/agent/subagent.py:926-931 | closing starts a missing cleanup and tries again only one that failed or was cancelled |
| SubagentManager.TaskRecord.DrainInbox | nanobot/agent/subagent.py:338-345 | the whole inbox is delivered at once, and none of it when the record is stopping |
| SubagentManager.TaskRecord.Accept | nanobot/agent/subagent.py:383-394 | a message is accepted exactly while the record is open, with text, within 8192 bytes, 16 waiting and 128 messages |
| SubagentManager.Controller.CreateTask | nanobot/agent/subagent.py:514-564 | a record is created unless the manager is closed or owns 128 records |
| SubagentManager.Controller.Send | nanobot/agent/subagent.py:380-396 | the registry changes by the accepted message of one record and by nothing else, which is the step of the model of runs |
| SubagentManager.Controller.Drain | nanobot/agent/subagent.py:338-345 | the inbox of one record is handed over, which is the step of the model of runs |
| SubagentManager.Controller.CancelTask | nanobot/agent/subagent.py:407-421 | an open record is sealed as cancelled and its cleanup started, which is the step of the model of runs |
| SubagentManager.Controller.RetryCleanup | nanobot/agent/subagent.py:926-931 | the cleanup of one record is tried again as closing does it, which is the step of the model of runs |
| SubagentManager.Controller.CloseAdmission | nanobot/agent/subagent.py:921-923 | the manager is closed and its records stay |
| SubagentManager.Controller.StoreTerminal | nanobot/agent/subagent.py:333-335 | a status is stored and the oldest beyond 128 are dropped |
| SubagentManager.Controller.FinishTask | nanobot/agent/subagent.py:329-336 | the record becomes terminal and its status is stored |
| SubagentManager.Controller.TaskDone | nanobot/agent/subagent.py:636-651 | an execution that ended without a result still gets one, and the record is released if nothing is left to own |
| SubagentManager.Controller.ReleaseTask | nanobot/agent/subagent.py:321-327 | a record is dropped exactly if it is terminal, not running and cleaned up |
| Journal.ConsumedExactlyOnce | nanobot/agent/memory.py:527-547 | over every run of appends, compactions and Dream runs: the completed batches followed by the unprocessed entries are the appended entries |
| Journal.EveryAppendIsKept | nanobot/agent/memory.py:311-324 | the appended entries are those of the append events, in order |
| Journal.DreamsReadEverything | nanobot/agent/memory.py:527-547 | enough completed Dream runs, twenty entries each, read everything |
| Journal.CursorsAreNeverReissued | nanobot/agent/memory.py:383-399 | over every run the next cursor exceeds every cursor issued before, with the counter missing or behind and the last line unreadable |
| Journal.JournalStaysIncreasing | nanobot/agent/memory.py:311-324 | over every run the journal file is strictly increasing |
| Journal.CompactionKeepsUnprocessed | nanobot/agent/memory.py:405-433 | compaction of any journal keeps a suffix with every unprocessed entry, and more than the limit only from the first unprocessed entry on |
| Journal.CompactionIsExact | nanobot/agent/memory.py:405-433 | of any journal compaction drops everything beyond the limit, or what stands in front of the first unread entry if that comes earlier |
| Journal.FreshUnlessTheTailIsBehind | nanobot/agent/memory.py:383-399 | for any journal the new cursor exceeds all others exactly if the file is scanned or the last line or the counter is not behind |
| Journal.ForeignTailRepeats | nanobot/agent/memory.py:394-399 | a foreign last line makes the store issue a cursor again |
| Journal.MemoryStore.AllocateCursor | nanobot/agent/memory.py:383-399 | the branches over counter and last line, with the scan behind them, compute the next cursor |
| Journal.MemoryStore.AppendRecord | nanobot/agent/memory.py:311-324 | the line is written before the counter, which is the step of the model of runs |
| Journal.MemoryStore.CompactHistory | nanobot/agent/memory.py:405-433 | the search for the first unprocessed entry bounds what is dropped |
| Journal.MemoryStore.ReadUnprocessed | nanobot/agent/memory.py:401-403 | the valid entries behind the Dream cursor, in order |
| Journal.MemoryStore.BuildDreamBatch | nanobot/agent/memory.py:527-547 | the first twenty unprocessed entries with the cursor of the last one, or nothing |
| Journal.MemoryStore.RunDream | nanobot/command/builtin.py:475-521 | one Dream run: the cursor moves only if the run completed, and the journal is compacted in every case |
| Extras.AnswerIsRightIff | nanobot/optional_features.py:127-175 | for every installation, cyclic or not: no means that a reachable requirement is not met, and the answer is right exactly if it is no or the reachable requirements with one key agree on the installed version |
| Extras.PositiveIsRightIff | nanobot/optional_features.py:127-147 | behind a positive answer everything reachable is met exactly if the requirements agree |
| Extras.AgreedAnswerIsRight | nanobot/optional_features.py:127-147 | where they agree the answer is exact, in particular with one version range per key |
| Extras.FailureHasAPath | nanobot/optional_features.py:127-147 | a negative search has a path of active requirements to one that is not met |
| Extras.SuccessIsClosed | nanobot/optional_features.py:127-171 | behind a positive search every visited key belongs to a reachable requirement that is met and whose successors were visited |
| Extras.SecondRangeIsIgnored | nanobot/optional_features.py:130-136 | two version ranges for one key that disagree: the answer is positive and wrong |
| Extras.Probe.RequirementInstalled | nanobot/optional_features.py:127-147 | the recursion over the shared visited set terminates and computes the search |
| Extras.Probe.ExtraDependenciesInstalled | nanobot/optional_features.py:150-171 | an undeclared extra fails; otherwise every active requirement is searched, and one must be active if none is declared |
| Extras.ExtraInstalled | nanobot/optional_features.py:174-181 | every listed requirement is searched with nothing visited |
| Extras.ExtraIsInstalledIff | nanobot/optional_features.py:178-181 | for every list of requirements: an extra that counts as missing has an unmet one, and one that counts as installed has all of them met exactly where they agree |
| StreamSegments.OneIdPerSegment | nanobot/agent/turn_delivery.py:393-440 | two events share a stream id exactly if no end without merging stands between them, and ids never go back |
| StreamSegments.ListedOnlyIfKnown | nanobot/agent/turn_delivery.py:409-431 | a published list that is not empty names the source of every non-empty text of its segment, each once |
| StreamSegments.ListedIff | nanobot/agent/turn_delivery.py:409-431 | over events: a list is published exactly if a source was announced, and names exactly the sources of the texts of the segment if each has one, and nothing otherwise |
| StreamSegments.OpenIff | nanobot/agent/turn_delivery.py:432-445 | a stream is open exactly if the last stream event was a text or an end that merges |
| StreamSegments.OwnTextIsListed | nanobot/agent/turn_delivery.py:409-431 | it names the source of the text that is published with it |
| StreamSegments.KnownOnce | nanobot/agent/turn_delivery.py:409-419 | the list holds exactly the known sources, each once |
| StreamSegments.KnownInFirstSeenOrder | nanobot/agent/turn_delivery.py:418-419 | the list grows at its end only, in the order in which sources were first seen |
| StreamSegments.TurnDelivery.PublishEvent | nanobot/agent/turn_delivery.py:397-440 | the fields are a function of the event history, and so is what is published |
| StreamSegments.TurnDelivery.AbortStream | nanobot/agent/turn_delivery.py:442-445 | an open stream is closed under its own id, and nothing is published when none is open |
| LengthRecovery.RestoreUndoesStrip | nanobot/agent/runner.py:85-93 | restoring undoes the strip exactly for texts that are empty or have a visible character; an all-blank text is doubled |
| LengthRecovery.ChainIsShort | nanobot/agent/runner.py:640-664 | the chain never holds more than three segments |
| LengthRecovery.ChainIsTheSegments | nanobot/agent/runner.py:640-664 | over every run the chain holds the raw truncated texts since it was last cleared, all-blank ones doubled |
| LengthRecovery.ChainIsExactIff | nanobot/agent/runner.py:640-664 | it holds them as they were received exactly if none of them is all blanks |
| LengthRecovery.JoinedIsExactIff | nanobot/agent/runner.py:791-797 | the stripped join is that of the received texts exactly if no all-blank one stands behind a visible one |
| LengthRecovery.AnswerIsTheWholeText | nanobot/agent/runner.py:791-797 | the final answer is the strip of the kept texts followed by the raw last one, and the strip of all received texts exactly under that condition |
| LengthRecovery.WhatIsSaid | nanobot/agent/runner.py:592-797 | for every run without an answer so far, what one more iteration says: nothing yet, a failure, no text, or the strip of the kept texts and the raw last one |
| LengthRecovery.BlankRetryIff | nanobot/agent/runner.py:597-640 | a blank reply is tried again exactly if it is the first one since the last tool work |
| LengthRecovery.WhatIsSaidInTheEnd | nanobot/agent/runner.py:799-827 | a run that used up its iterations puts the visible kept texts in front of the closing text |
| LengthRecovery.StaleOnlyBehindABlank | nanobot/agent/runner.py:426-433 | a chain is open with no pending segment only behind a blank reply that is tried again |
| LengthRecovery.StaleChainIsPrefixed | nanobot/agent/runner.py:426-433 | input in that state is answered with the old segments in front |
| LengthRecovery.StaleSegmentLeaks | nanobot/agent/runner.py:395-433 | a run of three iterations in which it happens |
| LengthRecovery.RunReplies | nanobot/agent/runner.py:440-827 | the loop over replies computes the answer, with the rule for a run that used up its iterations |

## Left out

- Provider calls, token estimates, prompt templates, tool execution and spill files are outside; they appear as parameters or as events.
- Provider-native compaction and opaque conversation state belong to classes that are not part of this model.
- The retry that follows malformed calls only sends rows that are already prepared; it is not on the modelled request path.
- Hooks that change messages, streaming callbacks and usage counters are not modelled.
- Cancellation inside a step, timeouts and logging are left out; cancellation appears as events where the code owns its consequence (subagents, drains).
- Cancelling a session and closing the loop empty the inbox by other code; the inbox results are about sessions that are not cancelled.
- Message contents other than texts, block lists and nothing are not modelled; block types other than text and image are opaque.
- Normal forms of package names and extras, environment markers other than extras, and version specifiers are given; a range is a set of versions.
- A queue of the inbox is named by a number instead of an object; sessions share nothing, so one session is modelled.
- Automation waiters and their futures, goal inputs and the recovery journal of follow-ups are not modelled.
- RunnerTurn.RunCore: the requests of the finalization prompt and of the malformed-call retry are not among its requests.
- SaveTurn.SaveTurn: the latency stamp on the last assistant row, timestamps and the acknowledgement journal are not modelled.
- SubagentManager.Controller.Send: the ownership check in front of the acceptance is not modelled.
- SubagentManager.Controller: the coroutine of an execution is a sequence of events, not a method; ownership by session and persistence of statuses are left out.
- Journal.ConsumedExactlyOnce: one Dream run at a time; two that overlap can read a batch twice, and setting the cursor forward at start-up skips entries on purpose.
- Journal.MemoryStore.AppendRecord: a torn journal line and concurrent writers are not modelled; the whole line is written or none of it.
- StreamSegments.TurnDelivery.PublishEvent: cancellation while an event is being published is not modelled.
- LengthRecovery.RunReplies: the text of a model error is the cleaned reply; the configured and arrearage texts are not modelled.
- Process control, plugins, skills, HTTP, audio, channels, CLI and configuration are plumbing or I/O.
