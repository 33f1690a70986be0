# hoocode runtime: models and proofs

hoocode is a terminal coding agent. This project models the parts of its runtime that decide what the
model sees, what runs at the same time, and what is remembered, and proves what they promise. Nothing
here runs the program; `dafny verify dfyconfig.toml` checks everything.

| file | models |
|---|---|
| `ToolBatch.dfy` | the parallel tool scheduler, as a protocol over atomic steps: slots, the ordered-start turnstile, dispatch points, abort and grace period |
| `ToolRound.dfy` | sequential and background calls, and the reassembly of a round's results by call id |
| `RunLoop.dfy`, `RunSlot.dfy` | the run loop's context and `new_messages`, and the agent's transcript rebuilt from events; the run slot and the streaming flag over any number of runs |
| `Background.dfy` | detached tasks, the collections that drain them, and the loop's sleep, and the callers that queue messages, one atomic action per step |
| `Registry.dfy` | the capped map of background managers |
| `Conversation.dfy`, `SessionTree.dfy`, `SessionRepo.dfy` | messages; the append-only session tree with its indexes and walks; reopening and forks |
| `Context.dfy`, `CutPoint.dfy`, `Compaction.dfy`, `CompactionRuns.dfy` | the context builder, the cut-point search, preparing a compaction, and runs of many compactions |
| `Branches.dfy` | leaving a branch: common ancestor and the newest messages under a budget |
| `Doubles.dfy` | what rounding does in the two floating-point comparisons |
| `McpClient.dfy`, `LineLimit.dfy` | sessions, permits and retries of a tool server's client; the line guard under it |
| `Utf8Stream.dfy` | incremental UTF-8 reading (RFC 3629) |
| `PublishOrder.dfy` | the publish order of the crates |

Concurrent parts (`ToolBatch`, `RunSlot`, `Background`, `McpClient`) are state machines: `Enabled` says when a step
may happen, `Apply` what it does, and theorems hold after every sequence of possible steps. Code that
changes objects step by step is a class or a method with loops, proved against a specification function
or predicate; what the code promises is then proved about that specification.

## What the proofs found

Where the code does less than its comments or its design say, the exact condition is proved.

- Results are put back by call id, so two calls with one id break the round (`ToolRound.ReassemblyIsInCallOrder`).
- Placeholders of background calls are announced before foreground results, so the agent's transcript and `new_messages` can differ in order, never in content (`RunLoop.AnnouncedIsPermutation`).
- A second `Start` in one provider stream leaves a stray partial message in the loop's context (`RunLoop.ContextFollowsRun`).
- A follow-up queued just before the loop sleeps can be left until something else wakes it, exactly when no notification came since the last wait and that wait spent every one it had; a steering message cannot (`Background.FollowUpLeftIffSpent`, `Background.FollowUpCanBeLeft`, `Background.SteeringIsNeverLeft`).
- A failing steering hook loses the outcomes it had drained, and nothing else ever loses one (`Background.LostIffFailedHolding`).
- Compacting twice within one turn drops the first summary: the second compaction finds no history before the split turn, writes a fixed text in its place, and passes the previous summary to nobody (`CompactionRuns.SameTurnDropsSummary`).
- The token estimate after a compaction still counts the replaced summary (`CompactionRuns.TokensAfterCountsOldSummary`).
- A cut at a user message that has a setting just before it is reported as splitting the turn before (`CutPoint.SplitReported`, `CutPoint.SplitExample`).
- An empty branch summary goes to the summarizer but is never shown (`Compaction.ProjectionsAgree`).
- The files of a branch summary are announced as those of every entry; entries older than the one that did not fit are not looked at, so a file is safe only when all but the oldest entry fit (`Branches.FilesOfEveryEntry`, `Branches.BranchFileMissed`).
- A moved leaf is not written down, so a reopened session, or a fork of everything, starts at the last entry (`SessionRepo.FullForkLeaf`).
- The walk to the root never ends on a file whose entries name each other as parents (`SessionRepo.WalkEndsOrLoops`). A session whose parents are all there cannot write one; one reopened without some lines can, if a new entry is given the id of a lost one, which only the surviving entries are checked for (`SessionTree.AppendKeepsOrder`, `SessionRepo.ReopenedAppendCanLoop`).
- While a run is being started the slot is held and nothing is streaming yet; the care taken when a run ends does not cover its start (`RunSlot.HeldUnmarkedIffClaimed`, `RunSlot.HeldUnmarkedExample`).
- A compaction that names a kept entry after itself would make entries disappear without a summary (`CompactionRuns.GapIsLost`); prepared compactions never do.
- An undecodable byte makes the reader hand on the beginning of a split character, which loses the character (`Utf8Stream.TextIsWhole`, `Utf8Stream.ReadCutExample`).
- Eviction takes idle entries first, as it sees them: an entry that a run lets go between the two looks stays, idle, while an older one with undelivered work goes (`Registry.IdleCanOutliveBusy`).
- The line guard looks at the end of each chunk only, so a line that ends within the chunk that made it too long passes (`LineLimit.PassesIffNothingTrips`, `LineLimit.LongLinePasses`).

## Model

| member | source | states |
|---|---|---|
| ToolBatch.EveryCallAnswered | crates/hoocode-agent-loop/src/lib.rs:880-996 | for every schedule, cap and abort moment, a finished batch has started, ended and reported each call exactly once, with reports in call order; each outcome agrees with what the call did ("not run" only for a call never launched), and without an abort every prepared call ran |
| ToolBatch.AbortStopsStarts | crates/hoocode-agent-loop/src/lib.rs:922-963 | after an abort, outside a fill, no further call is prepared and none is started whatever happens; in the end a call that was never started is answered as it was by then or with "not run", and one that could have run is "not run" |
| ToolBatch.FillGoesOn | crates/hoocode-agent-loop/src/lib.rs:850-874 | a fill that is in progress goes on: its next call is started although the abort came first |
| ToolBatch.UnfinishedHadNotReturned | crates/hoocode-agent-loop/src/lib.rs:932-979 | a call is answered as unfinished only if, when the loop stopped waiting, it had a slot and its thread had not returned |
| ToolBatch.LaunchesArePrefix | crates/hoocode-agent-loop/src/lib.rs:826-874 | at any moment the calls holding slots are within the limit, and no prepared call is skipped by a later launch |
| ToolBatch.ThreadsWithinLimit | crates/hoocode-agent-loop/src/lib.rs:826-874 | in every reachable state, also after the grace period has abandoned some, the threads that have not returned are within the limit |
| ToolBatch.SlotsAreUsed | crates/hoocode-agent-loop/src/lib.rs:850-874 | without an abort and without shedding a call waits only while every slot is taken |
| ToolBatch.OneShedCall | crates/hoocode-runtime/src/limits.rs:60-73 | over every run the calls started while load is shed hold slots one at a time |
| ToolBatch.DispatchesInCallOrder | crates/hoocode-agent-loop/src/lib.rs:1095-1155 | ordered calls pass their dispatch points in call order and one at a time; whoever has its turn has every earlier ordered call behind it |
| ToolBatch.TurnstileMovesByOne | crates/hoocode-agent-types/src/lib.rs:485-515 | the turnstile moves on by exactly one, at the dispatch point of the call whose turn it is, and at no other step |
| ToolBatch.NeverStuck | crates/hoocode-agent-loop/src/lib.rs:826-874 | until the batch is answered and its threads are gone, some step other than an abort is possible: the ordered start cannot deadlock under any limit |
| ToolBatch.RunsAreShort | crates/hoocode-agent-loop/src/lib.rs:880-996 | no run of a batch of n calls has more than 11 n + 7 steps |
| ToolBatch.EveryRunCanFinish | crates/hoocode-agent-loop/src/lib.rs:880-996 | from any reachable state the batch can be carried on to its end without a further abort |
| ToolRound.ExecuteSequential | crates/hoocode-agent-loop/src/lib.rs:748-817 | sequential calls are each started, ended and reported once; a call is "not run" exactly if the abort was found before it, and else has its refusal, its own output, or is unfinished; early end exactly for a non-empty batch in which every call came to an output that asks for it |
| ToolRound.DispatchBackground | crates/hoocode-agent-loop/src/lib.rs:1218-1262 | every call is answered at once as it is found: not run, refused or a placeholder; the calls handed over are exactly those that were neither, in order |
| ToolRound.Reassemble | crates/hoocode-agent-loop/src/lib.rs:557-621 | the round's results are what taking them by id in call order gives |
| ToolRound.KeyedIsLast | crates/hoocode-agent-loop/src/lib.rs:608-612 | of several results with one id the last produced counts |
| ToolRound.TakenInOrder | crates/hoocode-agent-loop/src/lib.rs:608-617 | results are taken at the first place of each id, in call order, and not again |
| ToolRound.ReassemblyIsInCallOrder | crates/hoocode-agent-loop/src/lib.rs:608-617 | results are one per call and in call order if and only if the assistant message gave its calls distinct ids |
| RunLoop.Shared.ProcessEvent | crates/hoocode-agent-core/src/lib.rs:203-231 | the shared state after an event is the reducer's, and the run slot is untouched |
| RunLoop.MessagesEnded | crates/hoocode-agent-core/src/lib.rs:203-231 | over any events a listener's messages are those whose end was announced, in order |
| RunLoop.PendingByLast | crates/hoocode-agent-core/src/lib.rs:203-231 | a call is pending exactly if the last event on it is its start |
| RunLoop.StreamingByLast | crates/hoocode-agent-core/src/lib.rs:203-231 | a message streams exactly if the last event on messages starts or updates it |
| RunLoop.ErrorByLast | crates/hoocode-agent-core/src/lib.rs:203-231 | the error is that of the last turn that ended with one |
| RunLoop.Shared.Claim | crates/hoocode-agent-core/src/lib.rs:668-675 | one run holds the slot; a second one is refused and changes nothing; on slot and flag it is the step `RunSlot.Claimed` |
| RunLoop.Shared.MarkStreaming | crates/hoocode-agent-core/src/lib.rs:676-680 | the flag is set in a step of its own (`RunSlot.Marked`), and what was streaming and the last error are cleared |
| RunLoop.Shared.BeginRun | crates/hoocode-agent-core/src/lib.rs:667-681 | both steps: only one run holds the slot, a refused one changes nothing, and the flag is never set without the slot |
| RunSlot.HeldUnmarkedIffClaimed | crates/hoocode-agent-core/src/lib.rs:667-681 | over any steps of any number of runs, the slot is held with nothing streaming if and only if the last step that changed the slot was a claim, so never while a run ends; and nothing ever streams without the slot |
| RunSlot.OneRunAtATime | crates/hoocode-agent-core/src/lib.rs:667-681 | two runs never hold the slot at once, whoever tries and when |
| RunSlot.HeldUnmarkedExample | crates/hoocode-agent-core/src/lib.rs:667-681 | a run has claimed and nothing streams yet, and a second one is turned away |
| RunLoop.Shared.Finish | crates/hoocode-agent-core/src/lib.rs:698-742 | a failed run adds exactly one failure message; nothing is left streaming, pending or claimed |
| RunLoop.Loop.StreamResponse | crates/hoocode-agent-loop/src/lib.rs:421-498 | the loop's context gets one partial per `Start` and the final message in place of the last; deltas before a `Start` are not announced |
| RunLoop.StreamAnnounced | crates/hoocode-agent-loop/src/lib.rs:421-498 | a stream is announced one event for one from its first `Start` on, and nothing before |
| RunLoop.Loop.ExecuteTools | crates/hoocode-agent-loop/src/lib.rs:557-621 | a round is announced background first, and the results the loop keeps are the reassembled ones, in call order |
| RunLoop.ResultsAnswerCalls | crates/hoocode-agent-loop/src/lib.rs:243-272 | a turn adds its messages, its reply, and a result for every call, one each and in order, telling what became of the call; a reply that failed or was aborted gets none |
| RunLoop.CallsAreHeard | crates/hoocode-agent-loop/src/lib.rs:243-278 | of every turn a listener hears each call of the reply started once and ended once and no other, and the turn end with the kept results; of a reply that failed or was aborted no call is heard and the results are empty |
| RunLoop.GoesOn | crates/hoocode-agent-loop/src/lib.rs:199-322 | the run goes on after a turn exactly if the reply was not cut off, no hook stops it, and a message is waiting or the reply had calls of which not all that ran in the foreground asked for the end |
| RunLoop.CutOffEndsRun | crates/hoocode-agent-loop/src/lib.rs:243-249 | a reply that failed or was aborted ends the run and is its last message, kept and announced |
| RunLoop.Loop.Run | crates/hoocode-agent-loop/src/lib.rs:185-322 | which turns a run takes and where it stops; its events, context and new messages; every turn adds its messages, its reply and the answers to its calls, none for a reply cut off, which is the last; and, starting from a quiet state, the agent's messages afterwards are the old ones followed by what the run announced |
| RunLoop.TurnReduce | crates/hoocode-agent-core/src/lib.rs:203-231 | after each turn's events the transcript holds the turn's announced messages, and nothing is streaming or pending |
| RunLoop.TranscriptFollowsRun | crates/hoocode-agent-core/src/lib.rs:203-231 | at every turn boundary the event-built transcript is the old messages followed by what the run announced, with no message streaming and no call pending |
| RunLoop.ShownVersusKept | crates/hoocode-agent-loop/src/lib.rs:573-617 | within a turn what is announced is a permutation of what is kept, and equal unless the batch puts a foreground call before a background one |
| RunLoop.AnnouncedIsPermutation | crates/hoocode-agent-loop/src/lib.rs:223-272 | over a run the announced messages are a permutation of `new_messages`, and the same sequence if and only if no round announces its results out of call order |
| RunLoop.ContextFollowsRun | crates/hoocode-agent-loop/src/lib.rs:421-498 | the loop's context is the old context plus `new_messages` if and only if no provider stream announced a second `Start` |
| RunLoop.TurnsAlternate | crates/hoocode-agent-loop/src/lib.rs:223-272 | turn starts and turn ends alternate in every run, and no turn is open at a later turn boundary |
| RunLoop.BatchFitsRound | crates/hoocode-agent-loop/src/lib.rs:557-621 | whatever schedule a finished parallel batch took, its log and outcomes are a valid round of the run loop |
| Background.EachOutcomeInOnePlace | crates/hoocode-agent-loop/src/lib.rs:1487-1544 | over every interleaving each settled outcome is in exactly one place, and the counter is the number of tasks in flight |
| Background.LostOnlyByFailing | crates/hoocode-agent-loop/src/lib.rs:344-359 | outcomes are lost only where a steering hook fails |
| Background.FailingSteeringLosesDrained | crates/hoocode-agent-loop/src/lib.rs:344-359 | a failing steering hook loses exactly what its collection had drained |
| Background.LostIffFailedHolding | crates/hoocode-agent-loop/src/lib.rs:344-359 | over every run, outcomes are lost if and only if some steering hook failed while its collection held outcomes |
| Background.OutcomeCanBeLost | crates/hoocode-agent-loop/src/lib.rs:344-359 | a run that loses one |
| Background.FalseHasWorkMeansDone | crates/hoocode-agent-loop/src/lib.rs:1491-1494 | a false `has_work` means every task ever spawned has settled and its outcome has been drained: count is read before results |
| Background.OutcomesDeliveredOnce | crates/hoocode-agent-loop/src/lib.rs:205-359 | a run that ends by itself has put the outcome of every task of its session into the transcript exactly once |
| Background.OutcomesInOrder | crates/hoocode-agent-loop/src/lib.rs:344-359 | without a failing hook outcomes are delivered in the order in which the tasks settled |
| Background.EachMessageInOnePlace | crates/hoocode-agent-core/src/lib.rs:100-119 | over every run each message ever queued is in exactly one place: delivered, on its way, in its queue, or taken back; none is lost, repeated or made up, and each queue is delivered in the order it was filled |
| Background.MessagesWhenOver | crates/hoocode-agent-loop/src/lib.rs:299-322 | when a run is over, by itself or not, each message ever queued was delivered or taken back or is still in its queue |
| Background.PollTakes | crates/hoocode-agent-core/src/lib.rs:112-118 | a poll empties its queue or takes the oldest message only, by the queue's mode; a skipped one leaves it alone |
| Background.TurnsHaveReasons | crates/hoocode-agent-loop/src/lib.rs:205-222 | a turn is taken only with more tool calls to answer or something to put in front of the model; after a wait the follow-up queue is polled exactly when nothing else was found |
| Background.SleeperIsWoken | crates/hoocode-agent-loop/src/lib.rs:1500-1510 | `wait_for_next` never sleeps past the last settlement: a sleeper can wake, or a task has yet to notify and will wake it |
| Background.RingingWakesSleeper | crates/hoocode-agent-loop/src/lib.rs:324-342 | a notification while the loop sleeps wakes it |
| Background.SteeringIsNeverLeft | crates/hoocode-agent-core/src/lib.rs:518-528 | a loop that sleeps on a queued steering message can wake by it, or the caller that pushed has yet to notify, and that notification wakes it |
| Background.SleepsUntilRung | crates/hoocode-agent-core/src/lib.rs:518-522 | between push and notification the loop does fall asleep on a steering message |
| Background.FollowUpLeftIffSpent | crates/hoocode-agent-loop/src/lib.rs:324-342 | a sleeping loop cannot be woken by what is queued if and only if no notification came since the last wait ended and that wait left none over; what a wait leaves over is defined by the notifications during and before it and by how it ended |
| Background.QueuedAfterWaitIsHeard | crates/hoocode-agent-core/src/lib.rs:518-528 | a loop that sleeps on something pushed after the last wait has ended can wake by it, or a caller has yet to notify, and that notification wakes it |
| Background.FollowUpCanBeLeft | crates/hoocode-agent-loop/src/lib.rs:205-359 | in every pair of queue modes there is a run that sleeps on a queued follow-up with nobody left to notify |
| SessionTree.IndexHolds | crates/hoocode-agent-session/src/storage.rs:96-105 | the id index finds the last entry of an id, and misses only ids the log does not have |
| SessionTree.LabelHolds | crates/hoocode-agent-session/src/storage.rs:81-94 | an entry has a label if and only if the last label entry for it leaves a name that is not blank, and then it is that name, trimmed |
| SessionTree.TrimCutsSpace | crates/hoocode-agent-session/src/storage.rs:86 | trimming takes away white space at both ends, nothing else, and leaves none there |
| SessionTree.Tree.constructor | crates/hoocode-agent-session/src/storage.rs:71-78 | a tree built from a log has the indexes a scan of the log gives and the last entry as leaf |
| SessionTree.Tree.Push | crates/hoocode-agent-session/src/storage.rs:80-101 | an append keeps the id index and the label cache equal to a scan of the log and moves the leaf |
| SessionTree.Tree.Get | crates/hoocode-agent-session/src/storage.rs:103-105 | an entry is found if and only if its id is in the log |
| SessionTree.Tree.SetLeaf | crates/hoocode-agent-session/src/storage.rs:107-115 | the leaf moves to a known id or to nothing; an unknown id changes nothing and is reported |
| SessionTree.Tree.PathToRoot | crates/hoocode-agent-session/src/storage.rs:124-133 | on every log on which the walk ends it gives what the walk collects, and on logs whose parents stand before their children that is the path |
| SessionTree.ClimbFollowsParents | crates/hoocode-agent-session/src/storage.rs:124-133 | on any log, what a finished walk collects goes from parent to parent, from an entry whose parent is not there down to the one asked for |
| SessionTree.OrderedClimb | crates/hoocode-agent-session/src/storage.rs:124-133 | where parents stand before their children the walk ends and collects the path |
| SessionTree.PathIsParentChain | crates/hoocode-agent-session/src/storage.rs:124-133 | a path runs from a root to the id, parent by parent, in increasing log order; an unknown id has none |
| SessionTree.ChainIsUnique | crates/hoocode-agent-session/src/storage.rs:124-133 | there is only one such chain |
| SessionTree.AppendKeepsOrder | crates/hoocode-agent-session/src/session.rs:87-96 | an append with a fresh id under a known parent keeps parents before children if and only if no entry already names the new id as its parent |
| SessionTree.AppendKeepsSound | crates/hoocode-agent-session/src/session.rs:87-96 | on a log whose parents are all there, it always does, and they stay all there |
| SessionTree.AppendExtendsPath | crates/hoocode-agent-session/src/session.rs:87-96 | an append that keeps the order extends its parent's path by one and changes no other path |
| SessionTree.Session.AppendWith | crates/hoocode-agent-session/src/session.rs:87-96 | the new entry is the leaf's child and becomes the leaf. The log stays ordered exactly when no entry already named the new id as its parent; then the new path is the old leaf's path and the new entry, and every other path is unchanged |
| SessionTree.Session.AppendLabel | crates/hoocode-agent-session/src/session.rs:192-209 | an unknown target is refused and nothing is written; otherwise an append like any other |
| SessionTree.Session.MoveTo | crates/hoocode-agent-session/src/session.rs:222-250 | the leaf moves only to a known entry; with a summary the new leaf is a branch-summary child of the target |
| SessionTree.Session.Branch | crates/hoocode-agent-session/src/session.rs:59-66 | what the walk from the entry, or from the leaf by default, collects, on every log on which it ends |
| SessionRepo.Open | crates/hoocode-agent-session/src/storage.rs:303-320 | reopening skips lines that do not parse and takes the last entry as leaf |
| SessionRepo.SuffixIsLongest | crates/hoocode-agent-session/src/storage.rs:303-320 | what survives of a path is a suffix, has lost nothing, and cannot be made longer |
| SessionRepo.ReopenKeepsSuffix | crates/hoocode-agent-session/src/storage.rs:303-320 | reopening from any part of the written lines gives every id the longest suffix of its original path in which nothing was lost |
| SessionRepo.WalkEndsOrLoops | crates/hoocode-agent-session/src/storage.rs:124-133 | on any log whatever, the walk ends if and only if it never comes back to a position it has met, and then within as many turns as the log has entries |
| SessionRepo.OrderedWalkEnds | crates/hoocode-agent-session/src/storage.rs:124-133 | where parents stand before their children it ends after at most as many turns as there are entries up to its start |
| SessionRepo.CyclicFileNeverEnds | crates/hoocode-agent-session/src/storage.rs:124-133 | on two entries naming each other as parents it never ends |
| SessionRepo.ReopenedAppendCanLoop | crates/hoocode-agent-session/src/session.rs:87-96 | a session can write them: reopened without the line of a parent, an append that is given the lost id closes the cycle |
| SessionRepo.FreshForWholeFile | crates/hoocode-agent-session/src/session.rs:87-96 | an id that no line of the file ever had is named by no surviving entry, so appending with it keeps the order |
| SessionRepo.EntriesToFork | crates/hoocode-agent-session/src/repo.rs:36-64 | everything, what the walk from the entry collects, or what the walk from above a user message does, on every log on which that walk ends; the two errors |
| SessionRepo.ForkRefused | crates/hoocode-agent-session/src/repo.rs:36-64 | a fork is refused exactly for an id the log does not have, or before an entry that is no user message; otherwise it holds what the walk from the entry, or from its parent, collects |
| SessionRepo.ForkInMemory | crates/hoocode-agent-session/src/repo.rs:139-161 | the fork in memory holds the forked entries and stands at the last of them; errors are those of finding the entries |
| SessionRepo.ForkJsonl | crates/hoocode-agent-session/src/repo.rs:272-297 | so does the fork replayed into a new file |
| SessionRepo.ForkKeepsPath | crates/hoocode-agent-session/src/repo.rs:36-64 | a fork at an entry is a sound log of its own, walking its leaf gives all of it back, and it is the entry's path (without the user message when forking before one) |
| SessionRepo.ForkKeepsContext | crates/hoocode-agent-session/src/context.rs:37-124 | the fork's context, thinking level and model are those of the source at the fork point |
| SessionRepo.FullForkLeaf | crates/hoocode-agent-session/src/repo.rs:42-44 | a fork of everything (or a reopened file) stands where its source stood if and only if the source's leaf is the last entry written: a moved leaf is not persisted |
| Context.BuildSessionContext | crates/hoocode-agent-session/src/context.rs:37-124 | the context is the last compaction's summary, the entries it kept and everything after it; its model is that of the last model change or reply on the whole path, if any, and its thinking level that of the last change, else "off" |
| Context.ModelIsLast | crates/hoocode-agent-session/src/context.rs:44-70 | the model is x exactly if there is a last position with a model change or a reply, and x is named there |
| Context.ThinkingIsLast | crates/hoocode-agent-session/src/context.rs:38-50 | the thinking level is that of the last change, and "off" exactly if that says so or there is none |
| Context.ShownHolds | crates/hoocode-agent-session/src/context.rs:127-156 | entries show a message each, or none, in their order: a message its own, a custom message its text, a branch summary its summary unless empty |
| CutPoint.ValidCuts | crates/hoocode-agent-compaction/src/compaction.rs:304-314 | exactly the positions in range that may be cut at, in order |
| CutPoint.TurnStart | crates/hoocode-agent-compaction/src/compaction.rs:316-326 | the last entry in range that can start a turn, or none |
| CutPoint.TokensCount | crates/hoocode-agent-compaction/src/compaction.rs:267-291 | for every kind of message four times its tokens is the number of UTF-16 units of all the text it holds and 4800 for each image that counts, rounded up by less than four |
| CutPoint.JsLenCounts | crates/hoocode-agent-compaction/src/utils.rs:99-101 | a text has a unit for each character and one more for each outside the basic plane |
| CutPoint.KeptIsSum | crates/hoocode-agent-compaction/src/compaction.rs:339-370 | what is counted backwards is the sum of the weights of the message entries |
| CutPoint.FindCutPoint | crates/hoocode-agent-compaction/src/compaction.rs:339-397 | the cut is the closest valid point at or after the message that crosses the threshold (the first valid point without one), moved back over the settings before it; the turn it splits |
| CutPoint.StepsBackOverSettings | crates/hoocode-agent-compaction/src/compaction.rs:372-396 | between the cut and the point chosen stands neither a message nor a compaction, and just before the cut stands one unless the range starts there |
| CutPoint.SplitsTurn | crates/hoocode-agent-compaction/src/compaction.rs:372-397 | a turn is split exactly if the first entry kept is no user message and a turn starts there or before in range; the last such start is reported |
| CutPoint.LongResultExample | crates/hoocode-agent-compaction/src/compaction.rs:339-397 | a result too long to keep: the cut is at the reply after it |
| CutPoint.CutIsUnique | crates/hoocode-agent-compaction/src/compaction.rs:339-397 | there is only one such cut |
| CutPoint.KeptBound | crates/hoocode-agent-compaction/src/compaction.rs:357-370 | a cut that reached a positive threshold keeps fewer than `keep` message tokens beyond the crossing message (none beyond it at zero), and at least `keep` exactly when that message can be cut at |
| CutPoint.CutKeepsPairs | crates/hoocode-agent-compaction/src/compaction.rs:304-314 | with results following their calls, every kept tool result has its call kept, if and only if there was a point to cut at or there are no results |
| CutPoint.SplitReported | crates/hoocode-agent-compaction/src/compaction.rs:372-396 | a cut chosen at a user message is reported as splitting the turn before if and only if the entry before it is a setting or the like and a turn starts in range that stepping back over such entries does not pass |
| CutPoint.SplitExample | crates/hoocode-agent-compaction/src/compaction.rs:372-396 | a question, a setting and a question: the cut keeps the last two and is reported as a split |
| Compaction.ProjectionsAgree | crates/hoocode-agent-session/src/context.rs:145-156 | the context and the summarizer see the same messages if and only if no branch summary is empty |
| Compaction.CutPointsSpeak | crates/hoocode-agent-compaction/src/compaction.rs:304-314 | the points are exactly the entries that send the summarizer a message, but for tool results |
| Compaction.ReadHolds | crates/hoocode-agent-compaction/src/compaction.rs:72-79 | the summarizer is sent a message for each entry that has one, in their order |
| Compaction.ContextTokensCount | crates/hoocode-agent-compaction/src/compaction.rs:156-225 | the estimate is the usage of the last reply that came to an end of its own and the weights of what follows, else all weights |
| Compaction.ShouldCompact | crates/hoocode-agent-compaction/src/compaction.rs:227-242 | compaction fires past the window less the reserve, or past the floating-point product of the window and a ratio strictly between 0 and 1 when one is set, and never when disabled |
| Doubles.ComparedWithTokens | crates/hoocode-agent-compaction/src/compaction.rs:239-241 | comparing that rounded product with a token count is comparing the exact one, except that one just below the count may be rounded onto it |
| Compaction.FileOperations.Extract | crates/hoocode-agent-compaction/src/utils.rs:32-53 | the non-empty paths of the message's `Read`, `Write` and `Edit` calls are added, and nothing else |
| Compaction.PathsOfAllHolds | crates/hoocode-agent-compaction/src/utils.rs:32-53 | a file counts exactly if a call to the tool in one of the messages names it |
| Compaction.ExtractFileOperations | crates/hoocode-agent-compaction/src/compaction.rs:45-70 | the previous record, unless a hook made it, and the files of the messages |
| Compaction.PrepareCompaction | crates/hoocode-agent-compaction/src/compaction.rs:656-732 | nothing to do right after a compaction or when the kept entry has no id; otherwise the partition at the cut, the estimate of the context before, the previous summary and the files |
| Compaction.PreparedHolds | crates/hoocode-agent-compaction/src/compaction.rs:656-732 | what a preparation holds, clause by clause: kept entry, messages before the split turn and of it, estimate, the last compaction's summary, files |
| Compaction.NothingPrepared | crates/hoocode-agent-compaction/src/compaction.rs:656-700 | nothing is prepared exactly right after a compaction or where no entry with an id is kept |
| CompactionRuns.VisibleFromBoundary | crates/hoocode-agent-session/src/context.rs:76-117 | the context read back by id is the summary, any gap, and everything from the boundary where the next compaction starts |
| CompactionRuns.ReplacesPrefix | crates/hoocode-agent-compaction/src/compaction.rs:662-715 | a compaction replaces a prefix of the context by its summary and keeps the suffix unchanged; what the summarizer gets is what disappears if and only if no branch summary there is empty |
| CompactionRuns.GapWhenKeptLater | crates/hoocode-agent-compaction/src/compaction.rs:677-682 | there is a gap exactly when the last compaction names a kept entry more than one place after itself |
| CompactionRuns.GapIsLost | crates/hoocode-agent-compaction/src/compaction.rs:662-715 | what the gap shows is visible before the next compaction, is in no request and is not visible afterwards; the context is the summary, what is summarized and what is kept if and only if the gap shows nothing |
| CompactionRuns.GapExample | crates/hoocode-agent-compaction/src/compaction.rs:677-682 | a path with a gap that shows a message |
| CompactionRuns.TokensAfterCountsOldSummary | crates/hoocode-agent-compaction/src/compaction.rs:787-795 | the estimate of what is left exceeds the new context's sum by the previous summary's tokens, apart from how far the count before stood from a plain sum |
| CompactionRuns.PreviousSummaryCarried | crates/hoocode-agent-compaction/src/compaction.rs:743-779 | every message that disappears is in exactly one request, in order; the previous summary is in one unless the turn is split and has no history before it |
| CompactionRuns.SameTurnDropsSummary | crates/hoocode-agent-compaction/src/compaction.rs:743-779 | when the last compaction kept a turn from its start and the next one cuts that same turn, no request carries the previous summary |
| CompactionRuns.SummaryDroppedExample | crates/hoocode-agent-compaction/src/compaction.rs:743-779 | a path on which that happens |
| CompactionRuns.ConversationConserved | crates/hoocode-agent-compaction/src/compaction.rs:656-732 | over any run of appends and prepared compactions the summarized ranges are consecutive, and the summarized messages followed by the rest are exactly the messages appended; the context is the last summary and that rest |
| CompactionRuns.LeadIsLastSummary | crates/hoocode-agent-session/src/context.rs:76-117 | the context starts with the summary of the last compaction step and the size of the context it replaced |
| CompactionRuns.FileListsTelescope | crates/hoocode-agent-compaction/src/utils.rs:60-74 | the last record not made by a hook lists as modified exactly what was written or edited since a hook last compacted, and as read what was read there and never modified; without hooks, since the beginning |
| Branches.CollectEntries | crates/hoocode-agent-compaction/src/branch_summarization.rs:83-121 | on every log on which the two walks end, the collected entries are the old path below the longest common prefix, and the ancestor is the end of that prefix |
| Branches.CollectedSplitsAtAncestor | crates/hoocode-agent-compaction/src/branch_summarization.rs:83-121 | the old path is the ancestor's path followed by the collected entries, the ancestor's path begins the target's, and nothing collected is on the target's path; without an ancestor the whole old path is collected |
| Branches.SharedIdIsSharedPrefix | crates/hoocode-agent-compaction/src/branch_summarization.rs:99-105 | two walks that end share an id only at the same depth and with everything above it |
| Branches.ToldHolds | crates/hoocode-agent-compaction/src/branch_summarization.rs:123-171 | a branch summary is told a message for each entry that has one, in their order: messages but tool results, custom messages, branch summaries, compactions |
| Branches.RecalledHolds | crates/hoocode-agent-compaction/src/branch_summarization.rs:177-195 | earlier files are those of every branch summary's record that no hook made |
| Branches.PrepareBranch | crates/hoocode-agent-compaction/src/branch_summarization.rs:174-228 | the messages are the newest contiguous ones that fit, with one summary more under nine tenths of the budget; the files are those of earlier records and of every message looked at |
| Doubles.NineTenthsOfBudget | crates/hoocode-agent-compaction/src/branch_summarization.rs:213 | the floating-point test against nine tenths of the budget is the exact one for every budget up to 2^49 |
| Branches.BranchWithinBudget | crates/hoocode-agent-compaction/src/branch_summarization.rs:201-221 | the budget is exceeded only by that summary, and everything left out would not have fitted |
| Branches.FitsIsUnique | crates/hoocode-agent-compaction/src/branch_summarization.rs:201-221 | there is only one longest part that fits |
| Branches.AllLookedAt | crates/hoocode-agent-compaction/src/branch_summarization.rs:201-221 | every entry is looked at if and only if there is no limit, or all but the oldest entry fit |
| Branches.FilesOfEveryEntry | crates/hoocode-agent-compaction/src/branch_summarization.rs:174-176 | the files are those of every entry, as announced, whatever the entries not looked at hold, if and only if there is no limit or all but the oldest entry fit |
| Branches.BranchFileMissed | crates/hoocode-agent-compaction/src/branch_summarization.rs:174-176 | a branch and a budget for which a written file is missed |
| Registry.SessionRegistry.EvictOne | crates/hoocode-agent-loop/src/lib.rs:1394-1411 | exactly the least recently used entry that no run holds (and, if asked, that is idle) goes; false only when there is none |
| Registry.SessionRegistry.MakeRoom | crates/hoocode-agent-loop/src/lib.rs:1426-1430 | while runs work and drop their references between any two looks: no entry held by a run goes, and of the entries free from the start idle ones go before those with work and older before newer; eviction stops below the cap or when runs hold everything |
| Registry.SessionRegistry.ManagerFor | crates/hoocode-agent-loop/src/lib.rs:1414-1440 | a hit shares the manager; after a miss the map is within the cap or every entry is held by a run, no held entry was evicted, and every run that has not ended still finds its own manager |
| Registry.SessionRegistry.Release | crates/hoocode-agent-loop/src/lib.rs:1442-1453 | the entry goes exactly when it is the run's own, has no work and no other run holds it |
| Registry.SessionRegistry.Step | crates/hoocode-agent-loop/src/lib.rs:1394-1453 | whatever happens to the registry, an entry whose manager still has work goes only when a run starts, and only if no run holds it |
| Registry.SessionRegistry.Play | crates/hoocode-agent-loop/src/lib.rs:1394-1453 | over any sequence of starts, releases, drops and work, a run that has not ended finds its own manager under its session |
| Registry.TrimOneMore | crates/hoocode-agent-loop/src/lib.rs:1426-1430 | one more eviction, idle ones first, keeps that order |
| Registry.IdleCanOutliveBusy | crates/hoocode-agent-loop/src/lib.rs:1426-1430 | a run that drops its reference between the two looks leaves an idle entry in place while an older one with work goes |
| Registry.VictimIsUnique | crates/hoocode-agent-loop/src/lib.rs:1398-1410 | there is only one victim |
| McpClient.GenerationsIncrease | crates/hoocode-agent-mcp/src/client.rs:668-697 | session generations strictly increase, and the slot holds the newest or nothing |
| McpClient.LookFindsLive | crates/hoocode-agent-mcp/src/client.rs:668-697 | a living session is shared; a dropped or missing one is started anew with the slot empty; after the shutdown flag none is |
| McpClient.ResetSparesNewer | crates/hoocode-agent-mcp/src/client.rs:699-715 | a reset discards the session its caller saw fail if it is still there, and never a newer one |
| McpClient.AcceptedAtMostOnce | crates/hoocode-agent-mcp/src/client.rs:494-520 | a tool request is accepted at most once and tried at most twice; a listing page is accepted at most twice |
| McpClient.NoTryWasted | crates/hoocode-agent-mcp/src/client.rs:494-530 | a call that nothing from outside ends is over only when it was answered or no try is left: a request that never left the client is sent again, and so is a page |
| McpClient.InFlightWithinPermits | crates/hoocode-agent-mcp/src/client.rs:611-624 | calls in flight never exceed the permits |
| McpClient.ShutdownIsFinal | crates/hoocode-agent-mcp/src/client.rs:579-588 | once a shutdown has taken the slot it stays empty and no session is ever opened again |
| McpClient.NeverStuck | crates/hoocode-agent-mcp/src/client.rs:668-715 | while a call is unfinished some step is possible without a timeout or cancel: the lock and the permits do not block each other |
| McpClient.CallsAreShort | crates/hoocode-agent-mcp/src/client.rs:494-577 | whatever drops and whoever cancels, each call takes at most eleven steps: nothing is retried forever |
| Utf8Stream.ValidIsEncoded | crates/hoocode-agent-harness/src/env.rs:418-422 | a valid byte string is the encoding of the text it decodes to |
| Utf8Stream.EncodedIsValid | crates/hoocode-agent-harness/src/env.rs:418-422 | every encoded text is valid and decodes to itself |
| Utf8Stream.HeadMeans | crates/hoocode-agent-harness/src/env.rs:414-422 | bytes start with a character, or could all be the beginning of one, or the longest beginning of one is undecodable |
| Utf8Stream.ReadStream | crates/hoocode-agent-harness/src/env.rs:403-441 | for any bytes and any reads the chunks are the texts of the pieces the reads determine; no byte is lost or repeated and at most three are ever held back; for a valid stream every piece is valid on its own; the joined text is that of the whole stream exactly when no read resumes a character already handed on |
| Utf8Stream.TextIsWhole | crates/hoocode-agent-harness/src/env.rs:418-431 | the text read is that of the whole stream if and only if no read goes on with a character the bytes before it end with while nothing is held back; otherwise it is longer |
| Utf8Stream.HeldBack | crates/hoocode-agent-harness/src/env.rs:417-426 | what is held back after any reads is nothing or the beginning of one character |
| Utf8Stream.SplitText | crates/hoocode-agent-harness/src/env.rs:418-431 | decoding in two parts gives the same text if and only if no character is cut |
| Utf8Stream.ReadCutExample | crates/hoocode-agent-harness/src/env.rs:418-422 | the reader run on an undecodable byte, a character's beginning, and in the next read its end: the character is lost |
| PublishOrder.Sorter.Visit | scripts/publish_packages.py:101-110 | a visit keeps the order and adds the crate after what it needs |
| PublishOrder.Sorter.Sort | scripts/publish_packages.py:95-115 | each name exactly once; every listed dependency stands before its dependent or is on a cycle with it |
| PublishOrder.ByNameHolds | scripts/publish_packages.py:96-97 | of several crates with one name the last listed counts |
| PublishOrder.EachCrateOnce | scripts/publish_packages.py:95-115 | with unique names every crate is returned exactly once, even with cycles |
| PublishOrder.TopologicalIffAcyclic | scripts/publish_packages.py:95-115 | every dependency comes before its dependents if and only if the dependencies among the listed crates are acyclic |
| LineLimit.Guard.PollRead | crates/hoocode-agent-mcp/src/stdio.rs:52-77 | the counter is the bytes since the last newline of everything read; the read fails exactly when it is above the limit |
| LineLimit.RunAfter | crates/hoocode-agent-mcp/src/stdio.rs:61-65 | how one chunk moves the count of bytes since the last newline |
| LineLimit.Feed | crates/hoocode-agent-mcp/src/stdio.rs:52-77 | what passes before the first failure, and that a failure is the first chunk to end above the limit |
| LineLimit.FittingLinesPass | crates/hoocode-agent-mcp/src/stdio.rs:66-71 | a failure always has a line above the limit behind it; a stream whose lines all fit never fails |
| LineLimit.PassedLinesBounded | crates/hoocode-agent-mcp/src/stdio.rs:32-34 | with chunks of at most m bytes no line above limit + m - 1 bytes is passed |
| LineLimit.LineFailsIffTripped | crates/hoocode-agent-mcp/src/stdio.rs:32-34 | the read fails within a line if and only if a chunk ends there more than the limit after the line's start |
| LineLimit.PassesIffNothingTrips | crates/hoocode-agent-mcp/src/stdio.rs:32-34 | a stream passes if and only if no chunk ends inside a line that is already above the limit |
| LineLimit.LongLinePasses | crates/hoocode-agent-mcp/src/stdio.rs:32-34 | for every limit and every m there is a stream of chunks of at most m bytes that passes with a line of limit + m - 1 bytes |

## Left out

- Provider calls, prompts and generated text: a response is any stream with a final message, a summary any string.
- tokio, threads, processes and the transport below the MCP client: steps with free choice instead. Every spawned thread is taken to run eventually; the size of the blocking pool is not modelled.
- Hooks, permission gates and argument validation: only their result (run, refuse, fail) enters; what a hook changes in a result does not.
- RunLoop.Tells: has the texts for a call that a user's abort cut short; a session that is ending words them differently.
- A reply's thinking blocks: `text` stands for its text and its thinking.
- Tool update events, whose order against end events in a parallel batch the code does not fix.
- Early-stop and context-replacing hooks of the run loop: `RunLoop.ContextFollowsRun` is about runs in which no hook replaced the context.
- `Agent::continue`, and what queued messages say: a message is the number it was queued under.
- RunLoop.Loop.Run: takes as given what a turn boundary, a wait or the follow-up queue brings; runs that a failing hook ends with an error are not modelled beyond `RunLoop.Shared.Finish`.
- SessionTree.Tree.PathToRoot: is about the logs on which the walk ends; on the others the code never returns.
- SessionRepo.EntriesToFork: likewise is about the logs on which its walk ends, as are the other fork and branch operations.
- JSON, timestamps, file errors and header lines: an entry's line is taken to parse back to the entry, or to be lost.
- Id generation: `create_entry_id` is taken to give an id the open log does not have, and nothing more.
- The list of sessions an in-memory repository keeps, and session metadata.
- `tokens_after` and `mission_range` as stored fields of a compaction entry; the estimate itself is modelled as `CompactionRuns.TokensAfter`.
- Integer widths: token and byte counts are unbounded, so overflow of 64-bit sums is not modelled.
- Compaction.ShouldCompact: takes the floating-point product as given; `Doubles.ComparedWithTokens` says what its rounding can change.
- Branches.PrepareBranch: compares with nine tenths of the budget exactly, which `Doubles.NineTenthsOfBudget` shows to be the code's floating-point test up to budgets of 2^49 tokens, not beyond.
- Registry.SessionRegistry.Release: looks at the work and at the references in one step, where the code reads one after the other.
- Compaction.ComputeFileLists: gives sets; the sorting of the stored lists and their text in the summary are not modelled.
- CompactionRuns.ConversationConserved: is about compactions that keep the boundary they were prepared with; a hook that names another kept entry is outside it.
- Details stored by an extension in a shape of its own: a record is the two file lists or nothing.
- The order in which permits and locks are granted: any waiting call may be next.
- The paging loop of `list_tools` with its page and byte limits; each page is a call of its own.
- A read buffer's size: any non-empty reads are covered.
- Lexical path normalization, skill and prompt loading, OAuth, tool naming and content conversion, the model catalog and all other scripts: formatting, lookups and input or output, which no property here depends on.
- The network side of publishing, and Python's recursion limit.
