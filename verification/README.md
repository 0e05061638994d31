# Casa: verified models of its stateful protocols

Dafny models of the parts of Casa whose guarantees hold over whole runs rather than over one call,
with proofs of those guarantees. `dafny verify dfyconfig.toml` checks everything.

| file | what it models |
|---|---|
| `BusSpec`, `BusInvariants`, `BusTheorems`, `BusEffects`, `MessageBus` | the message bus as interleaved steps, what every step keeps, the guarantees, what each operation does to a reachable state, and the class that updates the queues, futures and task sets in place |
| `JobClaims`, `JobBatches`, `JobOutcomes` | the start claim of a background job, its batch engine and its sweep, and exactly when a batch is admitted or the job ended |
| `Silence`, `ReplyStream` | when a reply is silence, and the fold that streams a reply without ever showing a silent one |
| `SessionRecovery`, `ResumeHealth` | the guarded clear of a stale session, the bounded recovery of a turn, the resume decision and its fault streak |
| `InboxNames`, `InboxFolder`, `InboxInvariants`, `InboxTheorems`, `Inbox`, `InboxOutcomes` | the inbound folder: names, interleaved publishes, sweeps and foreign changes, the guarantees, the folder's own loops, and which entries and uploads they keep and take |
| `AtomicIo`, `ConsentStore`, `ConsentCodec` | crash-safe writes over a volatile and a durable file system, the store of consents on top of them, and a file format that meets what the store assumes of one |
| `OperatorWords` | the bounded, expiring word cache against a plain history |
| `DocsSplice`, `DocsShards`, `DocsIndex`, `DocsNav`, `DocsFixpoint`, `DocsDefinitions`, `DocsCeilings` | the documentation tool: marker splicing, the definition pattern and the sharded index, the write/check fixpoint, what the written index holds, the size ratchet |

Concurrent parts are state machines: one step is one action that nothing can interleave with, a step
that is not enabled changes nothing, and a run is any sequence of steps. A class method's `ensures`
equates the new state with the step's function of the old one, so what is proved of runs holds of the
class. What the code cannot choose (which system call fails, how a handler ends, what another task
does meanwhile, a random token) is a parameter or an arbitrary step, and is quantified over.
The one exception is `InboxModule.Inbox`: its methods run undisturbed, with contracts of their own, and
share no step function with the interleaved folder of `InboxFolder`.

Where the code does less than its documentation says, the code is modelled and the difference is a
lemma:

* A dispatch cancelled before its first step, and a message to a role without a handler, leave their
  caller waiting until its timeout or a shutdown; these and a send without a target are the only ways.
* A token callback that raises on a delta is handed the same string again when the message is folded.
* Text of a message that then ends in an API error, or never arrives, has been shown although the reply
  does not contain it; with no approval in the way that is the only way a silent reply shows anything.
* A session id alone does not identify a registration; the guard needs the generation.
* The folder also takes for Casa's own a name with a final line feed or with a stamp in another
  script's digits, and from the year 2286 a sweep would remove Casa's own files.
* A consent recorded with an empty field, or a store grown past the reader's cap, is written without
  complaint and the next start finds no consent at all.
* One write of the navigation leaves a shard stale exactly when some region held other definitions than
  the body generated for it; two writes always suffice.
* A row that changes kind from document to index lets a document over its ceiling grow further.

## Model

| member | source | states |
|---|---|---|
| BusInvariants.InvKept | casa/rootfs/opt/casa/bus.py:75-432 | every step of the bus keeps: unique sequence numbers, each pending id placed where something can still answer it or provably lost, one settle per future, the live and per-role task sets |
| BusTheorems.EveryPendingIdIsAccountedFor | casa/rootfs/opt/casa/bus.py:268-308 | in every reachable state a pending id has exactly one explanation: queued uncancelled, in an unfinished dispatch, sent to no target, or its task ended without calling a handler |
| BusTheorems.StrandedExactlyWhenLost | casa/rootfs/opt/casa/bus.py:325-411 | a caller is left with nothing that could answer it exactly in the last two of those cases |
| BusTheorems.FuturesSettleAtMostOnce | casa/rootfs/opt/casa/bus.py:268-308 | in every run a future is completed at most once, and an incomplete one is still pending |
| BusTheorems.StartedDispatchAnswers | casa/rootfs/opt/casa/bus.py:325-411 | however a started request's handler ends, its id is forgotten and its future complete, with the reply that names the ending unless the caller had gone |
| BusTheorems.EvictionAnswersTheQueued | casa/rootfs/opt/casa/bus.py:146-192 | unregistering a role answers every uncancelled request in its queue |
| BusTheorems.EvictedBeforeTheFirstStep | casa/rootfs/opt/casa/bus.py:325-340 | the window: a dispatch cancelled before its first step runs none of its cleanup, and its caller stays pending |
| BusTheorems.NoHandlerStrandsTheCaller | casa/rootfs/opt/casa/bus.py:325-345 | a request to a role that has no handler is taken and never answered |
| BusTheorems.LiveDispatchesAreTheUnfinished | casa/rootfs/opt/casa/bus.py:225-237 | the reported dispatches are exactly the unfinished ones in every reachable state, those of evicted and re-registered roles included |
| BusTheorems.ShutdownAnswersEveryone | casa/rootfs/opt/casa/bus.py:208-223 | once shutdown began, failing the pending requests leaves every future completed and nothing pending, for ever |
| BusTheorems.DequeuesInSendOrder | casa/rootfs/opt/casa/bus.py:261-266 | equal-priority messages of a role leave its queue in send order, over every run |
| BusTheorems.NoOvertaking | casa/rootfs/opt/casa/bus.py:413-420 | a message that stands before another is never taken after it, whatever happens in between |
| BusTheorems.QueuedTogether | casa/rootfs/opt/casa/bus.py:261-266 | being queued together in send order is enough to stand before |
| BusTheorems.CancelledBeforeItStartedNeverRuns | casa/rootfs/opt/casa/bus.py:285-302 | a message whose caller went away before its dispatch started never reaches a handler |
| BusEffects.EvictionCancelsEveryDispatch | casa/rootfs/opt/casa/bus.py:169-175 | in every reachable state an eviction asks exactly the unfinished dispatches of its role to cancel, running ones included |
| BusEffects.EvictionIsComplete | casa/rootfs/opt/casa/bus.py:146-192 | afterwards the role is in no table and its queued requests are not pending, and no other role, queue or caller has changed |
| BusEffects.DepartedCallerCancels | casa/rootfs/opt/casa/bus.py:285-302 | a cancelled caller's unfinished dispatch is asked to cancel, running or not; a timeout asks nothing, and no other task changes |
| BusEffects.DepartedCallerIsForgotten | casa/rootfs/opt/casa/bus.py:285-302 | the id is forgotten; the message is flagged if it was still queued and the caller cancelled, and no other message changes |
| BusEffects.SendQueuesBehind | casa/rootfs/opt/casa/bus.py:251-266 | a message is queued for its target alone, numbered behind everything queued; without a target nothing is queued |
| BusEffects.RequestAwaits | casa/rootfs/opt/casa/bus.py:268-282 | outside a shutdown a request is that send with a fresh incomplete future; during one it changes nothing |
| BusEffects.TakesTheFirst | casa/rootfs/opt/casa/bus.py:413-414 | every other entry of the queue has a larger priority number, or the same and was sent later |
| BusEffects.TakenIsDispatched | casa/rootfs/opt/casa/bus.py:413-432 | what is taken leaves the queue and becomes one unstarted task, tracked in all three places, unless its caller had cancelled it |
| BusEffects.StartsExactlyWhen | casa/rootfs/opt/casa/bus.py:325-345 | a task enters its handler exactly if nobody asked it to cancel and its role has a handler then |
| BusEffects.EndingsReachTheCaller | casa/rootfs/opt/casa/bus.py:345-411 | result, empty reply, error and cancellation reach an incomplete future under their own names; no other future moves |
| BusEffects.RespondCompletes | casa/rootfs/opt/casa/bus.py:304-308 | an answer completes a pending future and is ignored otherwise |
| BusEffects.CallbacksForget | casa/rootfs/opt/casa/bus.py:421-432 | a finished task's callbacks take it out of the live set and its role's set, and nothing else |
| BusEffects.ShutdownFailsTheIncomplete | casa/rootfs/opt/casa/bus.py:213-223 | exactly the incomplete futures get the shutdown error |
| BusEffects.RegisterKeepsTheQueue | casa/rootfs/opt/casa/bus.py:116-127 | registering again rebinds the handler and keeps everything queued |
| MessageBusModule.MessageBus.Register | casa/rootfs/opt/casa/bus.py:116-127 | the in-place registration is the step's function of the old state |
| MessageBusModule.MessageBus.Unregister | casa/rootfs/opt/casa/bus.py:146-192 | the same for the eviction: tasks cancelled, queue drained, callers answered |
| MessageBusModule.MessageBus.BeginShutdown | casa/rootfs/opt/casa/bus.py:208-211 | the same for the start of the shutdown |
| MessageBusModule.MessageBus.FailPending | casa/rootfs/opt/casa/bus.py:213-223 | the loop over the pending requests completes exactly the incomplete ones |
| MessageBusModule.MessageBus.LiveDispatchTasks | casa/rootfs/opt/casa/bus.py:225-237 | the set it returns is that of the state |
| MessageBusModule.MessageBus.SendChecked | casa/rootfs/opt/casa/bus.py:251-266 | queues under the next sequence number, or drops for an unknown target, and says which |
| MessageBusModule.MessageBus.Request | casa/rootfs/opt/casa/bus.py:268-302 | a new pending future and the send, or a refusal while stopping |
| MessageBusModule.MessageBus.LeaveWait | casa/rootfs/opt/casa/bus.py:285-302 | the caller's departure: message flagged, running dispatch cancelled, id forgotten |
| MessageBusModule.MessageBus.Respond | casa/rootfs/opt/casa/bus.py:304-308 | completes an incomplete future, forgets the id |
| MessageBusModule.MessageBus.Least | casa/rootfs/opt/casa/bus.py:413-420 | returns the entry below which nothing of the queue stands |
| MessageBusModule.MessageBus.ConsumeOne | casa/rootfs/opt/casa/bus.py:413-432 | takes the least entry and starts a task for it unless its caller had cancelled it |
| MessageBusModule.MessageBus.StartDispatch | casa/rootfs/opt/casa/bus.py:325-345 | the first step of a task is its cancellation or its handler |
| MessageBusModule.MessageBus.FinishDispatch | casa/rootfs/opt/casa/bus.py:345-411 | each ending of a handler, with what its caller is told |
| JobClaims.ManifestNameReadsBack | casa/rootfs/opt/casa/background_jobs.py:53-57 | the manifest side of a qualified job name reads back |
| JobClaims.ManifestNameIs | casa/rootfs/opt/casa/background_jobs.py:53-57 | the manifest side of any job name, with a colon or without |
| JobClaims.GuardsMean | casa/rootfs/opt/casa/background_jobs.py:92-149 | what the two guards look for: occupying job records, by recorded identity, by pinned artifacts or by the oldest records' manifest name |
| JobClaims.InvKept | casa/rootfs/opt/casa/background_jobs.py:92-231 | claims, record creations, releases and terminal writes, failed ones too, keep the two maps inverse and the records exclusive |
| JobClaims.OneJobPerManifestAndPlugin | casa/rootfs/opt/casa/background_jobs.py:92-231 | over every interleaving, from any exclusive records (those restored at boot, those without a recorded plugin), two occupying job records never share a non-empty manifest name and never run the same plugin, by its recorded name or the oldest records' rules |
| JobClaims.RecordsStayExclusive | casa/rootfs/opt/casa/background_jobs.py:92-231 | what such a run leaves is again exclusive, so the next run may start from it |
| JobClaims.EndingOccupiesUntilWritten | casa/rootfs/opt/casa/background_jobs.py:92-136 | a record being ended occupies until its terminal write succeeds; a failed write puts it back |
| JobClaims.OneDeclaredJobPerManifest | casa/rootfs/opt/casa/background_jobs.py:256-284 | for declared jobs, whose names are a non-empty name without a colon, a colon and the job, without any condition: no two occupying records share the manifest name |
| JobClaims.ClaimsStayInverse | casa/rootfs/opt/casa/background_jobs.py:163-180 | claims taken and released in any order, from any exclusive records, leave the two maps mutually inverse |
| JobClaims.EmptyManifestNameIsNotExclusive | casa/rootfs/opt/casa/background_jobs.py:139-149 | a remark on the guard: for names no declaration has, the rule does not reach the empty manifest name |
| JobClaims.JobStarts.ClaimPlugin | casa/rootfs/opt/casa/background_jobs.py:163-172 | takes both claims or neither |
| JobClaims.JobStarts.ReleasePlugin | casa/rootfs/opt/casa/background_jobs.py:175-180 | drops the plugin's claim, and the manifest's only if it is this plugin's |
| JobClaims.JobStarts.RunningForPlugin | casa/rootfs/opt/casa/background_jobs.py:92-136 | finds the first record that runs a job of the plugin, by its recorded name or the oldest records' rules, or there is none |
| JobClaims.JobStarts.RunningForManifest | casa/rootfs/opt/casa/background_jobs.py:139-149 | the same by manifest name |
| JobClaims.JobStarts.ClaimJobStart | casa/rootfs/opt/casa/background_jobs.py:201-227 | claims exactly when no record runs a job of the plugin or of the manifest and neither name is claimed |
| JobBatches.InvKept | casa/rootfs/opt/casa/background_jobs.py:684-749 | staging, hand-off, refusal, progress report, spare and sweep keep the batch counters in their relations |
| JobBatches.BatchCountsStayBounded | casa/rootfs/opt/casa/background_jobs.py:684-749 | over any run: one batch at most unjudged, the limit exceeded only by the spare, at most three batches in a row (four with the spare) without progress |
| JobBatches.BatchesAreAdmittedInOrder | casa/rootfs/opt/casa/background_jobs.py:725-749 | batches are admitted one by one, in order, none twice |
| JobBatches.NoProgressAdmitsThree | casa/rootfs/opt/casa/background_jobs.py:684-749 | a job that never reports progress is admitted at most three batches, four with the spare, without any limit |
| JobBatches.RefusedHandOffCostsNothing | casa/rootfs/opt/casa/background_jobs.py:736-749 | a refused hand-off leaves the record exactly as it was |
| JobBatches.OneHandOffAtATime | casa/rootfs/opt/casa/background_jobs.py:684-699 | a hand-off starts only without turn owner and unread input, and no second one is staged from the same counters |
| JobBatches.EndedForGood | casa/rootfs/opt/casa/background_jobs.py:632-695 | an ended job is never staged, reported or counted again, and admits no batch but the one whose hand-off was under way when it ended |
| JobBatches.ThirdRefusalEndsTheJob | casa/rootfs/opt/casa/background_jobs.py:632-681 | over any run without an admission, whatever happens between the sweeps: a live job has fewer than three refused sweeps behind it and one ended as not continued exactly three, as long as the sweep's terminal writes succeed; one whose write failed stays live until the next refused sweep |
| JobBatches.StallsCountRefusals | casa/rootfs/opt/casa/background_jobs.py:632-681 | over any run without an admission the stored count is exactly the number of refused sweeps since |
| JobBatches.AdmissionResetsStalls | casa/rootfs/opt/casa/background_jobs.py:632-681 | an admission resets the count; a stopping channel never adds to it |
| JobOutcomes.NextBatchExactlyWhen | casa/rootfs/opt/casa/background_jobs.py:684-749 | an accepted attempt on a free record admits batch started + 1 exactly when the limit leaves room and fewer than three batches in a row lacked progress, or the spare is unused; a refused one changes nothing; otherwise the job is ended, for the reason that holds |
| JobOutcomes.BatchesFollowTheLimits | casa/rootfs/opt/casa/background_jobs.py:684-749 | the same over every run of a job; an attempt on a record that is not free does nothing |
| JobOutcomes.LastReportDecides | casa/rootfs/opt/casa/tools.py:13905-13952 | the last report of the current batch decides whether it progressed |
| JobOutcomes.SweepActsExactlyWhen | casa/rootfs/opt/casa/background_jobs.py:632-681 | a sweep acts exactly on a free record that showed no life for three minutes and is not launching: one attempt, or one more refusal, the third of which ends the job |
| JobBatches.TurnOwners.Started | casa/rootfs/opt/casa/background_jobs.py:582-585 | counts one owner more for that engagement alone |
| JobBatches.TurnOwners.Finished | casa/rootfs/opt/casa/background_jobs.py:586-599 | counts one less, never below zero, and the map holds only positive counts |
| JobBatches.JobRecord.StageBatch | casa/rootfs/opt/casa/background_jobs.py:700-736 | judging, limits and the next counters as the specification has them |
| JobBatches.JobRecord.BeginBatch | casa/rootfs/opt/casa/background_jobs.py:684-736 | the first half: blocked, ended by a limit (or not, if the terminal write fails), or a hand-off under way with the staged counters kept aside |
| JobBatches.JobRecord.AnswerBatch | casa/rootfs/opt/casa/background_jobs.py:736-749 | the second half: commits what was staged if the hand-off was taken, and otherwise leaves the counters as they are now |
| JobBatches.JobRecord.StartNextBatch | casa/rootfs/opt/casa/background_jobs.py:684-749 | the two halves with nothing in between: staged counters are committed exactly when the hand-off was taken, and a limit ends the job unless the terminal write fails |
| JobBatches.JobRecord.IsEligible | casa/rootfs/opt/casa/background_jobs.py:641-659 | which records a sweep considers |
| JobBatches.JobRecord.SweepOne | casa/rootfs/opt/casa/background_jobs.py:645-681 | one record's turn in the sweep, failing terminal writes included |
| JobBatches.SweepJobs | casa/rootfs/opt/casa/background_jobs.py:632-681 | the loop sweeps each record once and stops where it sees the channel stopping |
| Silence.StripsToSilenceIsSilence | casa/rootfs/opt/casa/output_boundary.py:158-166 | the strip-and-replace test holds exactly of texts made of whitespace and sentinels |
| Silence.SpacesAre | casa/rootfs/opt/casa/output_boundary.py:158-166 | the characters that stripping removes |
| Silence.SilenceSplitsAtSpace | casa/rootfs/opt/casa/agent.py:3553-3598 | a text continued with whitespace is silence exactly when both parts are, so the joiner cannot hide or create one |
| Silence.MayStillBeSilence | casa/rootfs/opt/casa/output_boundary.py:194-205 | the loop decides exactly whether some continuation makes the text silence |
| ReplyStream.TextIsTheJoin | casa/rootfs/opt/casa/agent.py:3775-3811 | the cumulative text is always the join of the folded messages, and the folded reply unless a callback raised out of a message and ended the attempt |
| ReplyStream.CumIsPrefix | casa/rootfs/opt/casa/agent.py:3553-3598 | if no delta is discarded, what has arrived, joined to the open message's deltas, is a prefix of the final text, for every chunking |
| ReplyStream.SilentReplyShowsNothing | casa/rootfs/opt/casa/agent.py:3553-3598 | if the folded reply is silence and no delta was discarded, nothing was ever handed to the token callback, however the messages were split, approvals and raising callbacks included |
| ReplyStream.SilentReplyShowsOnlyWhatWasDiscarded | casa/rootfs/opt/casa/agent.py:3553-3811 | with discarded deltas, without approvals: a silent reply showed something exactly when a message that was never folded had spoken what no silence begins with |
| ReplyStream.StreamIsAChainOfPrefixes | casa/rootfs/opt/casa/agent.py:3553-3598 | if no delta is discarded, the strings handed over are growing prefixes of the final text, and none is handed over twice in a row unless handing it over raised, approvals on the way included |
| ReplyStream.RaisedDeltaIsRepeated | casa/rootfs/opt/casa/agent.py:3597-3623 | a callback that raises on a delta is handed the same string again at the fold |
| ReplyStream.FoldShowsTheReply | casa/rootfs/opt/casa/agent.py:3775-3811 | once a message is folded with nothing waiting and a callback that returns, the last string it took is the whole text unless that is silence |
| ReplyStream.StreamEndsWithTheReply | casa/rootfs/opt/casa/agent.py:3553-3811 | without approvals and discarded deltas, unless a callback raises out of a message, an attempt streams nothing exactly when its reply is silence, and otherwise ends with the reply |
| ReplyStream.WaitingHoldsTheStream | casa/rootfs/opt/casa/agent.py:3692-3727 | while a grant waits on the operator nothing is handed over |
| ReplyStream.FirstSightStays | casa/rootfs/opt/casa/agent.py:3692-3727 | the first sight of a waiting grant stays, with how much had been folded by then |
| ReplyStream.ConsumedNoLongerWaits | casa/rootfs/opt/casa/agent.py:3692-3727 | a consumed grant no longer waits and the others do |
| ReplyStream.ConsumingReopensTheStream | casa/rootfs/opt/casa/agent.py:3692-3727 | when the last waiting grant has been consumed the next folded message shows the whole reply |
| ReplyStream.ReplyFold.EmitCum | casa/rootfs/opt/casa/agent.py:3553-3598 | the one emission path: held back by the prefix-aware test for deltas, by the strict one for a fold; a string is remembered only if the callback returned |
| ReplyStream.ReplyFold.OnDelta | casa/rootfs/opt/casa/agent.py:3608-3623 | the state after a delta is the fold's, a raising callback being swallowed |
| ReplyStream.ReplyFold.OnMessage | casa/rootfs/opt/casa/agent.py:3775-3811 | the state after a message's blocks is the fold's, API-error messages and a callback that raises out of it included |
| ReplyStream.ReplyFold.OnApproval | casa/rootfs/opt/casa/agent.py:3692-3727 | the first sight of a waiting grant stays as the cut |
| SessionRecovery.LaterRegistrationSurvives | casa/rootfs/opt/casa/session_registry.py:457-534 | a clear guarded by what was read removes nothing once the key has been registered again, with the same session id too |
| SessionRecovery.ClearRemovesOnlyWhatItRead | casa/rootfs/opt/casa/session_registry.py:495-534 | if it clears, the registration is the one that was read |
| SessionRecovery.ClearTakesEffectExactlyWhen | casa/rootfs/opt/casa/session_registry.py:495-534 | conversely the clear leaves the key without a session id exactly when it was not registered since, or has lost its id otherwise; all else stays |
| SessionRecovery.OperationsLeave | casa/rootfs/opt/casa/session_registry.py:254-534 | a registration holds its id under a generation no key has had; removal and clear act exactly when the entry is there and is what the guards say |
| SessionRecovery.SidGuardAloneIsNotEnough | casa/rootfs/opt/casa/session_registry.py:457-467 | a run in which the session id guard alone clears a later registration |
| SessionRecovery.IssuedClearIsSafe | casa/rootfs/opt/casa/agent.py:2453-2518 | every clear a turn issues is harmless to what was registered after its decision |
| SessionRecovery.SessionRegistry.RegisterSession | casa/rootfs/opt/casa/session_registry.py:254-296 | every registration gets a generation of its own, and a session that is being retired is refused |
| SessionRecovery.SessionRegistry.RemoveEntry | casa/rootfs/opt/casa/session_registry.py:469-493 | removes the entry while both guards hold |
| SessionRecovery.SessionRegistry.ClearSdkSession | casa/rootfs/opt/casa/session_registry.py:495-534 | drops the session id and keeps the entry while both guards hold |
| SessionRecovery.RecoveringTurn.RetryCall | casa/rootfs/opt/casa/retry.py:122-169 | goes on after exactly the retryable faults that are no cancellation, while attempts are left, and returns the last attempt's ending |
| SessionRecovery.RecoveringTurn.AttemptWithRecovery | casa/rootfs/opt/casa/agent.py:2453-2518 | a failed process of a resumed session: exactly one guarded clear of the session read, then a second call, whose ending is returned; a refusal of one: exactly one clear, then the refusal; any other ending: no clear, returned as it is |
| SessionRecovery.RecoveringTurn.Process | casa/rootfs/opt/casa/agent.py:2558-2598 | the bypass runs exactly when the pool is gone and the runtime is not stopping; with other tasks changing the registry at every await at most four times the attempts and two clears, each of only what its own decision read |
| ResumeHealth.ResumesExactlyWhen | casa/rootfs/opt/casa/agent.py:637-697 | a turn resumes exactly the stored session, and exactly when role, binding, prompt surface, freshness and fault streak all allow it |
| ResumeHealth.StreakCountsStrikes | casa/rootfs/opt/casa/session_registry.py:381-455 | over any run of turns, successor sessions and lost notes included, the stored streak is held against the session that would be resumed next and is at least the strikes in a row |
| ResumeHealth.StrikesAddOne | casa/rootfs/opt/casa/session_registry.py:381-455 | a strike adds exactly one to the streak of the session to be resumed next, and a turn that stays in its session without one adds nothing |
| ResumeHealth.NoFaultIsInvented | casa/rootfs/opt/casa/session_registry.py:381-455 | over any run a conversation is never charged with more faults than its turns struck |
| ResumeHealth.WhatTheNextTurnFinds | casa/rootfs/opt/casa/session_registry.py:254-296 | the next turn finds what was published, with role, binding, surface and clock; nothing to resume after an unreplaced clear; otherwise what this turn found |
| ResumeHealth.FaultsAreBounded | casa/rootfs/opt/casa/agent.py:622-697 | at most the limit of faults before a session is found healthy or left, and then the next turn starts afresh |
| ResumeHealth.HealthyResets | casa/rootfs/opt/casa/agent.py:3954-4011 | a healthy turn wipes the streak |
| InboxNames.MintedNameParses | casa/rootfs/opt/casa/agent_inbox.py:99-109 | a minted name reads back as its stamp and extension exactly while the stamp has 13 digits |
| InboxNames.TokenIs | casa/rootfs/opt/casa/agent_inbox.py:99-109 | a token is sixteen small hexadecimal digits |
| InboxNames.AcceptedNameWasMintable | casa/rootfs/opt/casa/agent_inbox.py:99-109 | conversely an accepted name with an ASCII stamp is one that could have been minted, give or take a final line feed |
| InboxNames.LineFeedIsIgnored | casa/rootfs/opt/casa/agent_inbox.py:99-99 | the pattern accepts a minted name with a line feed after it |
| InboxNames.OtherDigitsAreRead | casa/rootfs/opt/casa/agent_inbox.py:99-99 | and a stamp in the digits of another script |
| InboxInvariants.InvKept | casa/rootfs/opt/casa/agent_inbox.py:250-500 | every system call of an upload or a sweep, and anything anyone else does to the directories, keeps the invariants below |
| InboxTheorems.PublishKeepsQuota | casa/rootfs/opt/casa/agent_inbox.py:400-438 | right after any rename, what is in the folder and was not put there by someone else during the critical section is at most 50 entries and 200 MB |
| InboxTheorems.FolderStaysWithinQuota | casa/rootfs/opt/casa/agent_inbox.py:400-438 | while nobody else puts anything there the folder never exceeds its quota |
| InboxTheorems.AcknowledgedFilesStay | casa/rootfs/opt/casa/agent_inbox.py:250-295 | an acknowledged file nobody else touched is in place with the uploaded bytes for 7 x 24 hours from its stamp, over every interleaving with sweeps and uploads |
| InboxTheorems.ReceiptsMatch | casa/rootfs/opt/casa/agent_inbox.py:440-482 | a file was published exactly for the outcomes stored and uncertain, the folder flushed after it exactly for stored; too large is exactly over the cap, a mismatch exactly an extension or content that is not accepted |
| InboxTheorems.NoPartIsLeft | casa/rootfs/opt/casa/agent_inbox.py:440-482 | every way out of an upload leaves nothing of it in staging unless the unlink itself failed |
| InboxTheorems.UploadsKeepOtherFiles | casa/rootfs/opt/casa/agent_inbox.py:371-500 | no step of an upload removes or alters an entry other than the one it published |
| InboxOutcomes.SweepLeaves | casa/rootfs/opt/casa/agent_inbox.py:250-286 | after a sweep what could be removed and is still there is a regular file with one link, under a name that reads and an extension it takes, younger than seven days; every such entry of before is there, and nothing new |
| InboxOutcomes.SweepLeavesMeta | casa/rootfs/opt/casa/agent_inbox.py:287-295 | exactly the metadata of entries that are not such files goes |
| InboxOutcomes.ListingShows | casa/rootfs/opt/casa/agent_inbox.py:321-345 | the listing shows exactly such files, of any age, each with its stamp, extension and size |
| InboxOutcomes.SweepLists | casa/rootfs/opt/casa/agent_inbox.py:263-263 | an interleaved sweep sets out to visit everything that is there |
| InboxOutcomes.SweepLooks | casa/rootfs/opt/casa/agent_inbox.py:250-286 | an interleaved sweep marks what it looks at by the same rule |
| InboxOutcomes.SweepRemoves | casa/rootfs/opt/casa/agent_inbox.py:297-308 | and removes what it has marked and nothing else |
| InboxOutcomes.FullExactlyWithoutRoom | casa/rootfs/opt/casa/agent_inbox.py:400-438 | over every interleaving: an upload that finds the folder at rest during its count is refused as full exactly when its file would break the quota |
| InboxOutcomes.UndisturbedUploadIsStored | casa/rootfs/opt/casa/agent_inbox.py:371-482 | an accepted upload that finds the lock free, room and no failing call is stored, and nothing else in the folder changes |
| InboxOutcomes.EarlyFailures | casa/rootfs/opt/casa/agent_inbox.py:371-398 | a failed open, write or check ends in a storage failure and leaves the folder alone |
| InboxOutcomes.LateFailures | casa/rootfs/opt/casa/agent_inbox.py:415-482 | so does a failed rename; a refusal releases the lock and ends under its own name |
| InboxOutcomes.UnflushedIsWithdrawn | casa/rootfs/opt/casa/agent_inbox.py:440-482 | if the folder cannot be flushed the file is withdrawn, if it can be, and the answer is uncertain |
| InboxModule.Inbox.WritePart | casa/rootfs/opt/casa/agent_inbox.py:371-398 | the loop over short writes ends with a part that holds exactly the bytes, or the failure leaves nothing of it unless the unlink failed |
| InboxModule.Inbox.PublishLocked | casa/rootfs/opt/casa/agent_inbox.py:415-438 | full exactly when the file would take the folder past 50 entries or 200 MB, stored exactly when it would not, the staged file is still the one written and the rename succeeds, and then under a name minted from the clock |
| InboxModule.Inbox.Publish | casa/rootfs/opt/casa/agent_inbox.py:440-482 | an undisturbed publish ends by the first of its conditions that fails, full exactly when its file would break the quota; the file is in place for stored, for uncertain unless retracted, and for nothing else; no part remains unless its unlink failed |
| InboxModule.Inbox.CapacityOk | casa/rootfs/opt/casa/agent_inbox.py:400-413 | the count is every entry and the total every size, whoever put them there |
| InboxModule.Inbox.SweepReady | casa/rootfs/opt/casa/agent_inbox.py:250-286 | what can be removed and is foreign or too old is gone, all else is in place, and the counts are right |
| InboxModule.Inbox.SweepMeta | casa/rootfs/opt/casa/agent_inbox.py:287-295 | exactly the metadata of files that are not present goes |
| InboxModule.Inbox.Sweep | casa/rootfs/opt/casa/agent_inbox.py:250-295 | folder and metadata after an undisturbed sweep |
| InboxModule.SweptTwice | casa/rootfs/opt/casa/agent_inbox.py:250-295 | sweeping again later gives what the later sweep alone gives |
| InboxModule.SortNewestSorts | casa/rootfs/opt/casa/agent_inbox.py:344-345 | the listing's sort is a permutation, newest first |
| InboxModule.Inbox.ListFiles | casa/rootfs/opt/casa/agent_inbox.py:321-345 | lists exactly the plain files under Casa's names, each once, newest first |
| AtomicIo.BesideMayHold | casa/rootfs/opt/casa/atomic_io.py:84-115 | a crash before the replace finds under any other name exactly what it would have found before the write |
| AtomicIo.ReplaceMayHold | casa/rootfs/opt/casa/atomic_io.py:107-107 | once the flushed file has replaced the target a crash finds the old content or the whole new one |
| AtomicIo.FlushMayHold | casa/rootfs/opt/casa/atomic_io.py:43-66 | a flushed directory leaves only the new one |
| AtomicIo.FlushedHoldsWhatIsRead | casa/rootfs/opt/casa/atomic_io.py:43-66 | with everything flushed a crash finds what is read |
| AtomicIo.Disk.AtomicWriteText | casa/rootfs/opt/casa/atomic_io.py:69-116 | whatever call fails: at every moment a crash finds old or whole new content, it raises exactly when the replace did not happen and then the target is untouched, otherwise it holds the text under the right mode |
| AtomicIo.Disk.Commit | casa/rootfs/opt/casa/atomic_io.py:107-116 | the replace and the directory flush that never raises |
| ConsentStore.LoadedAcksAreSound | casa/rootfs/opt/casa/callback_acks.py:104-149 | no file can manufacture a consent: every loaded record is complete and sits under the recomputed identity |
| ConsentStore.LoadsExactly | casa/rootfs/opt/casa/callback_acks.py:104-149 | a file loads as its records exactly if it has at most 4 MB, its version equals one and every record has exactly the five fields, non-empty texts, a finite number and its own identity as key; otherwise as no consent |
| ConsentStore.LoadFile | casa/rootfs/opt/casa/callback_acks.py:104-149 | the loop with its early returns computes the specification of loading the other rows are about |
| ConsentStore.OneBadRecordLoadsNothing | casa/rootfs/opt/casa/callback_acks.py:83-149 | one bad record and nothing is loaded |
| ConsentStore.DumpReadsBack | casa/rootfs/opt/casa/callback_acks.py:104-163 | what was written reads back exactly when the file is within the cap and every record sound, and otherwise as nothing |
| ConsentStore.KeyedReadsBack | casa/rootfs/opt/casa/callback_acks.py:104-199 | for what this store writes that is: within the cap and no field empty |
| ConsentStore.EmptyFieldLosesEveryConsent | casa/rootfs/opt/casa/callback_acks.py:175-199 | recording a consent with an empty plugin name loses all of them at the next start |
| ConsentStore.RestartFindsMemory | casa/rootfs/opt/casa/callback_acks.py:83-163 | otherwise a restart finds what memory held |
| ConsentCodec.FaithfulCodec | casa/rootfs/opt/casa/callback_acks.py:151-163 | what the store assumes of its format can be met: there is a format that reads back every map of consents |
| ConsentStore.CallbackAckStore.Save | casa/rootfs/opt/casa/callback_acks.py:151-163 | durable first, then visible: a failure leaves memory and file alone, success makes the file the dump of memory, readable by its owner alone, and a crash at any moment finds an earlier file or the whole new one |
| ConsentStore.CallbackAckStore.Record | casa/rootfs/opt/casa/callback_acks.py:175-199 | a live approval keeps its generation, a new one gets a fresh one, so no revoked generation is live again |
| ConsentStore.CallbackAckStore.Drop | casa/rootfs/opt/casa/callback_acks.py:228-237 | drops exactly the matched records and returns them; with none nothing is written |
| ConsentStore.CallbackAckStore.RevokePlugin | casa/rootfs/opt/casa/callback_acks.py:201-204 | exactly the plugin's records go |
| ConsentStore.CallbackAckStore.RevokeEffective | casa/rootfs/opt/casa/callback_acks.py:206-212 | exactly the one callback's records go |
| ConsentStore.CallbackAckStore.PruneStale | casa/rootfs/opt/casa/callback_acks.py:214-226 | exactly the records under other identities go |
| OperatorWordsModule.RecordMeetsSpec | casa/rootfs/opt/casa/action_judgement.py:118-127 | sweeping, moving to the end and evicting gives the specification of the longer history: latest record per key, last 500, unexpired |
| OperatorWordsModule.SweepMeetsSpec | casa/rootfs/opt/casa/action_judgement.py:112-116 | a later sweep is the specification at the later time |
| OperatorWordsModule.SpecIsBounded | casa/rootfs/opt/casa/action_judgement.py:118-127 | at most 500 entries, each key once |
| OperatorWordsModule.SpecHoldsWhatIsPromised | casa/rootfs/opt/casa/action_judgement.py:101-136 | a key's last record is held exactly while it is unexpired and fewer than 500 other keys were recorded after it |
| OperatorWordsModule.OperatorWords.Sweep | casa/rootfs/opt/casa/action_judgement.py:112-116 | deleting expired entries of a snapshot one by one leaves exactly the unexpired |
| OperatorWordsModule.OperatorWords.Evict | casa/rootfs/opt/casa/action_judgement.py:126-127 | the newest 500 remain |
| OperatorWordsModule.OperatorWords.Record | casa/rootfs/opt/casa/action_judgement.py:118-127 | text under a digest is remembered, cut to 4000 characters, and anything else ignored |
| OperatorWordsModule.OperatorWords.Get | casa/rootfs/opt/casa/action_judgement.py:129-136 | a hit exactly when the history promises one, with that record's words |
| DocsSplice.CountJoin | scripts/verify_docs.py:1396-1403 | occurrences of a marker never straddle another, so they count piece by piece |
| DocsSplice.SpliceInRegion | scripts/verify_docs.py:1396-1403 | in a text with one region the body is replaced and nothing else |
| DocsSplice.SpliceKeepsTheRest | scripts/verify_docs.py:1396-1403 | whenever splicing succeeds all that is outside the markers is kept to the character |
| DocsSplice.LastSpliceWins | scripts/verify_docs.py:1396-1403 | splicing again gives what the last body alone gives if the first held no marker, and fails otherwise |
| DocsShards.SortedIsUnique | scripts/verify_docs.py:1272-1284 | the sorted rows depend on the definitions only as a multiset |
| DocsShards.FamilyOrder | scripts/verify_docs.py:1321-1333 | ids in order have their families in order, in whatever script their numbers are written |
| DocsShards.ShardsInOrder | scripts/verify_docs.py:1310-1333 | each shard's families are consecutive |
| DocsShards.ShardsAreTheIndex | scripts/verify_docs.py:1359-1367 | the seven shards in table order are the whole sorted index, each row once and in its place |
| DocsIndex.SearchIsLeftmost | scripts/verify_docs.py:52-52 | the search finds what the definition pattern matches at the first place where it matches |
| DocsIndex.SearchFindsReading | scripts/verify_docs.py:52-52 | and finds nothing that the pattern does not match |
| DocsIndex.TableTells | scripts/verify_docs.py:1336-1356 | a rendered table holds its rows without loss: equal tables have equal rows |
| DocsIndex.TablesTellIndexesApart | scripts/verify_docs.py:1336-1367 | the seven rendered tables determine the index: lists of rows that differ differ in the text of some shard |
| DocsNav.DocsTree.NavTargets | scripts/verify_docs.py:1406-1430 | the dictionary built in order holds each path's expected content, or nothing if a file lacks its markers |
| DocsNav.DocsTree.StaleNav | scripts/verify_docs.py:1433-1441 | exactly the targets that are missing or differ |
| DocsNav.DocsTree.WriteNav | scripts/verify_docs.py:1444-1454 | the tree afterwards holds every target, nothing else changed, and the answer names exactly what differed |
| DocsDefinitions.DefinitionIffDefines | scripts/verify_docs.py:1272-1284 | a line gives exactly the id of the first match of the pattern with what follows its first colon, trimmed |
| DocsDefinitions.LinesUnsplit | scripts/verify_docs.py:1281-1281 | splitting into lines loses nothing but the breaks |
| DocsDefinitions.BreaksAre | scripts/verify_docs.py:1281-1281 | the characters that lines break at |
| DocsDefinitions.TableIsTheRows | scripts/verify_docs.py:1336-1356 | the table is one line for each row in their order, id, statement and home in their columns, and nothing else |
| DocsDefinitions.ShardHoldsTheDefinitions | scripts/verify_docs.py:1272-1367 | the rows of a shard are, as often as they are made and in order, the definitions of the documents whose family lies in its range of letters |
| DocsDefinitions.WrittenShardHoldsTheDefinitions | scripts/verify_docs.py:1359-1454 | after a write each of the seven files is its preamble and the table of exactly those definitions: none missing, none made up, none under another statement |
| DocsFixpoint.StaleAfterOneWrite | scripts/verify_docs.py:1433-1454 | right after a write the stale artifacts are exactly the shards that render differently from the documents as written |
| DocsFixpoint.NothingStaleMeansCurrent | scripts/verify_docs.py:1433-1441 | the check passes exactly when every region holds its generated body after its first marker, every shard is rendered from the documents as they are, and the text of the manifest alone is in place |
| DocsFixpoint.TwoWritesSuffice | scripts/verify_docs.py:1433-1454 | after two writes nothing is stale and a third changes nothing, whatever the documents hold |
| DocsFixpoint.NothingStaleIffIndexStays | scripts/verify_docs.py:1433-1454 | nothing is stale after one write exactly when the write left the index as it was |
| DocsFixpoint.IndexStaysIff | scripts/verify_docs.py:1272-1284 | with every region on lines of its own, a write leaves the index as it was exactly when each region held the definitions its new body holds |
| DocsFixpoint.NothingStaleIff | scripts/verify_docs.py:1272-1454 | hence nothing is stale after one write exactly when each region held the definitions its new body holds |
| DocsFixpoint.WriteIsAFixpoint | scripts/verify_docs.py:1433-1454 | with no definition inside a region nothing is stale after one write and a second changes nothing |
| DocsFixpoint.DefinitionInsideARegion | scripts/verify_docs.py:1406-1454 | such an input: a document with `**INV-A-1**: x` written into its region, whose generated body lists one file |
| DocsCeilings.Judge | scripts/verify_docs.py:821-884 | the branches of one entry come to the verdict |
| DocsCeilings.CheckCeilings | scripts/verify_docs.py:756-884 | the problems are exactly the entries whose verdict fails, the notices exactly those noticed; an unreadable base is refused at once |
| DocsCeilings.AcceptedMeans | scripts/verify_docs.py:756-884 | a change passes exactly when every oversized document was there before and either fitted then or is untouched |
| DocsCeilings.VerdictsMean | scripts/verify_docs.py:821-884 | each verdict and each reason by what is the case |
| DocsCeilings.UnreadableIsRefused | scripts/verify_docs.py:756-884 | not being able to read never turns a failure into a pass |
| DocsCeilings.OverAndOverIsUntouched | scripts/verify_docs.py:756-884 | over before and after an accepted change, a document is unchanged exactly when its old size exceeds its new ceiling |
| DocsCeilings.OverStaysAsItWas | scripts/verify_docs.py:756-884 | along any run of accepted changes that does not raise its ceiling, an oversized document keeps its file and row |
| DocsCeilings.NotBornOver | scripts/verify_docs.py:756-884 | no path is over its ceiling in the first commit that has it |
| DocsCeilings.ChangeOfKindEscapes | scripts/verify_docs.py:637-638 | a change of kind lets an oversized document grow further |

## Left out

- ReplyStream.StreamIsAChainOfPrefixes: the annotation of a string on its way to the callback is taken as the identity (a disclosure line put in front of one string breaks the chain for the channel, not for the fold), and a capture that raises out of a fold is not modelled; requires that no delta is discarded, as the strings shown for discarded deltas are no prefixes of the reply.
- JobBatches.JobRecord.StartNextBatch: hand-off and commit with nothing in between; `BeginBatch` and `AnswerBatch` are the halves between which the rest of the record may change.
- JobBatches.JobRecord.SweepOne: the sweep's own hand-off is one step with its commit, because the step machine of the same module already separates hand-off from commit for a batch started by a turn.
- JobBatches.OneHandOffAtATime: that a hand-off under way counts as unread input is taken from the delivery's contract (it admits its input before its first await), not proved of the delivery.
- SessionRecovery.RecoveringTurn.Process: the resume decision is arbitrary there; its gates are proved in ResumeHealth.
- ResumeHealth.StreakCountsStrikes: assumes stored streaks are not negative, which holds of every entry the code wrote.
- InboxTheorems.AcknowledgedFilesStay: says nothing of display metadata, which a sweep that lists before a publish renames may drop.
- InboxTheorems.PublishKeepsQuota: entries put into the folder by someone else between the scan's listing and the rename are outside it, as the code cannot see them.
- InboxTheorems.NoPartIsLeft: a cancelled publish is not modelled; the code keeps its callers from cancelling one.
- ConsentStore.DumpReadsBack: JSON is a pair of functions assumed inverse on what the store writes (`ConsentCodec.FaithfulCodec` shows that such a pair exists), and the written text is ASCII, so its length is its size.
- DocsNav.DocsTree.WriteNav: texts are as read, so a carriage return in a rendered text, which is written raw and read back as a line feed, is not modelled; documents are regular files, a symbolic link being skipped by the code.
- DocsFixpoint.TwoWritesSuffice: requires that no document is itself a generated path and that no generated body holds the markers it goes between; the manifest check is not part of this model.
- DocsFixpoint.NothingStaleIff: requires regions and bodies on lines of their own, which holds after any write, and document paths without whitespace, which the manifest check refuses.
- The bus's log, its loop task objects and the same message object sent twice.
- The Claude SDK, Telegram, HTTP and the event loop: handlers, deliveries and fetches end in any way at all, and a token callback returns or raises.
- The inbound folder's download, its file-name suffix filter, the cleaning of display names, the directory set-up and the clearing of staging at boot: single calls without state.
- Job listings, prompts, briefs, notices and the restart of recorded jobs: text assembly and table look-ups.
- The rendering of the navigation texts other than the index's tables, and YAML: functions of their inputs; the manifest's own checks.
- Freshness of random tokens, temporary names, task ids and generation identifiers is assumed.
- File permissions beyond the mode an atomic write leaves; directories that are links.
