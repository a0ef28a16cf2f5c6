# Trackinizer: verified models

A Dafny 4.11 project that models the parts of trackinizer that keep real state or do real
list and interval arithmetic, and proves what those parts promise. `dafny verify
dfyconfig.toml` checks all of it.

| files | what they model |
|---|---|
| ExecHub, ExecRuns, ExecTheorems, ExecProgress | the hub that hands commands to a machine's host and carries results back: its steps, the invariant over every run, what that keeps from going wrong, and how every call ends |
| RateLimits | the start, open and signal limits by pruned histories, and the byte rate of a sender that obeys its delay |
| TerminalStream, TerminalOutput | a terminal's output: the ring, attaching and takeover, the replay gate, the relay; what reaches the stream and who gets it |
| TerminalStartup | a terminal's input while its host is starting: the buffer, the handshake, hosts replaced in the middle of it, and when a terminal ends |
| Dict, Leases, LeaseRuns, LeaseAnswers | the inbound queue's leases: bounded dictionaries, leases that expire lazily, what takes, stops and retirements come to over whole runs, and every query's answer from the polls made |
| Mailbox, MailboxHolds | the inbound queue's messages: queues, parked holds and receipts; what a hold comes back with and what wakes it |
| Subscriber, Push | the sweep that pushes changes by a paging cursor, its failures and its backoff; the sweep beside the inbound queue it pushes into |
| JsonEscape, RedactNeedles, RedactSearch, RedactMerge, Redactor | the redactor: the strings to look for, the search, the merging of spans, and the text that comes out |
| Common | options, the newest of a list |
| EdgeDag | edges inserted and deleted by concurrent transactions, the cycle query, the inferred producer |
| Conversation, ConversationLines, ContextWindow | several parts put in one order, what each kind of record becomes, switch markers, folding and stamping; the window cut from it and fitted to a budget |
| Refusal | isolating the records a server refuses by halving the batch |
| GraphReplay | crawling a live graph while inserting it in chunks, replaying its edges, pulling kinds in turn |

How the models are made. Everything between two awaits, or inside one `with self._lock`, is
one step. A component that updates its fields in place is a datatype of its state with a
function for each step, and a class whose methods are proved to do just those steps; the
theorems are about all sequences of steps. Clocks are inputs (reals, or integers where only
the order matters). Python's lists and dictionaries are sequences and maps. Every lemma
carries `{:induction false}`: no proof leans on automatic induction.

## What was found

Where the code does not keep a promise, the model keeps the code, and a lemma says exactly
when the promise holds.

- The subscriber sweep is documented to go on forever. Its backoff computes
  `2.0**failures`, which Python refuses to compute from 1024 on, outside any `try`. The task
  is dead exactly when more than 1023 queries have failed with no sweep draining to a short
  page between them (`Subscribers.DeadIff`). An outage of 1024 queries does it, under 17
  hours with the defaults (`Subscribers.SurvivesIffShort`, `Subscribers.OutageThatKills`),
  and so do failures with an answered full page between every two
  (`Subscribers.AnswersDoNotSave`). Nothing is pushed again.
- A change whose transaction commits behind the sweep's frontier is never attempted
  (`Subscribers.AttemptedIffNotLate`; a run with one is `Subscribers.LateCommit`).
- `close_machine` is documented to end every wait of the machine. It ends just those that
  are parked and that no command has woken (`ExecTheorems.RevocationEndsWait`). A wait that
  was woken, or that is asking whether its host is current, goes on
  (`ExecTheorems.WokenWaitOutlivesRevocation`, `ExecTheorems.AskingWaitOutlivesRevocation`).
- A hold is documented to return empty once its session's lease is revoked. One that has
  only registered still looks, and so does one whose waiter is gone and that has not looked
  again: such a hold takes what is queued at that look, and every other takes nothing more
  (`Mailbox.RevokedTakesNothingIff`, `Mailbox.RevokedBeforeLookTakes`,
  `Mailbox.RevokedAfterReleaseTakes`).
- `stop_run` and `retire_run` read a lease without asking whether it has expired. A stop
  then stops a run long gone; a retirement turns away the run of the session's last poll
  instead of the one it was last placed for, which differ exactly when the last poll that
  said where its run is named another run, or is forgotten (`LeaseRuns.StopIsEagerIff`,
  `LeaseRuns.RetireIsEagerIff`, `LeaseRuns.StopAfterExpiry`, `LeaseRuns.RetireAfterExpiry`).
- `take_gone` is documented to be oldest first. The code lists sessions as their ends are
  noticed, and a sweep notices them in the order they were first polled: a session that
  polled first and last comes before one whose lease ended earlier
  (`LeaseRuns.TakenOutOfOrder`; exactly when the order holds, `LeaseRuns.OldestFirstIff`).
- An attach that raises while it waits leaves its socket as the terminal's browser with the
  gate open: live bytes reach it with a gap before them, unless nothing was left to send
  (`TerminalStream.RaisedHasAllIffNothingUnsent`, `TerminalStream.StoppedAttachLeavesGap`).
- A part is said to keep its own order whatever the others do. It does between two records
  exactly when the moments filled in for them do not go back
  (`Conversations.PartKeepsOrderIff`; a part that comes out reversed is
  `Conversations.SetBackIsReversed`).
- `infer_produced_endpoints` calls its inference universal over edge kinds. The code infers
  exactly where a `narrows`, `requires` or `supersedes` edge joins the pair and no
  `produced_by` does (`EdgeDag.InferProducedStable`); a citation alone infers nothing
  (`EdgeDag.CitationInfersNothing`).
- The marker of `cut_text` names the bytes cut only when no character straddles a cut
  (`ContextWindows.MarkerIsExactIff`; a text with one is `ContextWindows.MarkerIsOff`).

## Model

| member | source | states |
|---|---|---|
| `ExecHubs.ExecHub.Queue` | trackinizer/server/execs.py:302-332 | a command is queued, refused as busy or refused as rate limited, and a queued one wakes the machine's waits |
| `ExecHubs.ExecHub.Take` | trackinizer/server/execs.py:391-404 | the oldest command no one has ended is handed out; ended ones before it are dropped |
| `ExecHubs.ExecHub.Deliver` | trackinizer/server/execs.py:244-280 | a result is accepted from the command's own machine, or as a repeat that changes nothing, and refused otherwise |
| `ExecHubs.ExecHub.CloseMachine` | trackinizer/server/execs.py:282-300 | revoking a machine ends its commands, its slots and its sleeping waits |
| `ExecHubs.ExecHub.Release` | trackinizer/server/execs.py:347-359 | a caller that leaves gives its slot up, or leaves it held when a host may be running the command |
| `ExecHubs.ExecHub.Sweep` | trackinizer/server/execs.py:361-370 | held slots and kept repeats end at their times |
| `ExecHubs.Hub.SkippedTakeable` | trackinizer/server/execs.py:395-398 | what `_take` skips could not be handed out, and what it stops at can |
| `ExecRuns.StepKeeps` | trackinizer/server/execs.py:180-404 | every step of callers, waits, hosts, clock and revocations keeps the whole invariant |
| `ExecRuns.RunKeeps` | trackinizer/server/execs.py:180-404 | so does every run |
| `ExecTheorems.HandedOnceInOrder` | trackinizer/server/execs.py:202-242 | no command is handed out twice, a wait gets at most one, and a machine's commands go out oldest first |
| `ExecTheorems.ErrorsAreTruthful` | trackinizer/server/execs.py:334-345 | an error saying the command was not taken means no host got or ever will get it; one saying it was means exactly one handout |
| `ExecTheorems.NoWakeupIsLost` | trackinizer/server/execs.py:225-242 | while a registered wait sleeps, its machine has nothing to take |
| `ExecTheorems.RevocationEndsWait` | trackinizer/server/execs.py:225-242 | of the waits of a revoked machine that are not over, just those parked and not yet woken end as revoked, whatever others do before their next step |
| `ExecTheorems.WokenWaitOutlivesRevocation` | trackinizer/server/execs.py:282-300 | a run in which a woken wait goes back to sleep after the revocation |
| `ExecTheorems.AskingWaitOutlivesRevocation` | trackinizer/server/execs.py:379-389 | a run in which a wait asking whether its host is current parks after the revocation |
| `ExecTheorems.SlotsAreBounded` | trackinizer/server/execs.py:309-315 | live and held commands of a machine are disjoint and together never pass its limit |
| `ExecTheorems.LeavingKeepsSlot` | trackinizer/server/execs.py:347-359 | a caller that leaves a command a host may be running leaves its slot taken |
| `ExecTheorems.SlotIsHeld` | trackinizer/server/execs.py:361-365 | a held slot stays, through any run, until reported, revoked or due |
| `ExecTheorems.ResultIsFirstAccepted` | trackinizer/server/execs.py:262-280 | a caller's result is the first one accepted from its own machine, and it was handed out exactly once |
| `ExecTheorems.RepeatIsAccepted` | trackinizer/server/execs.py:247-263 | within the keep time a repeated result is accepted and changes nothing |
| `ExecTheorems.StartsAreLimited` | trackinizer/server/execs.py:302-308 | no minute holds more of a user's starts than the limit, and a start is limited exactly when the full history says so |
| `ExecProgress.QueuedIff` | trackinizer/server/execs.py:302-324 | in any run a submission is queued exactly when the last minute's full history of its user is under the limit and the machine's calls still waited for and those left running are too few to be busy |
| `ExecProgress.SubmissionWakes` | trackinizer/server/execs.py:326-332 | a submission that is queued wakes every sleeping wait of its machine |
| `ExecProgress.QueuedIsAskedFor` | trackinizer/server/execs.py:225-242 | a wait that starts or wakes while a command is queued for its machine goes on to ask for it, and none sleeps then |
| `ExecProgress.OldestIsHanded` | trackinizer/server/execs.py:379-404 | a current host that asks gets the oldest command no one has ended |
| `ExecProgress.ReportReachesCaller` | trackinizer/server/execs.py:244-280 | in any run, the report of a handed out command whose machine was not revoked becomes its caller's result, unless another came first; one from any other machine changes nothing for the caller |
| `ExecProgress.RevokedCallEnds` | trackinizer/server/execs.py:282-300 | in any run, a revocation ends every call to the machine that is still waited for: as revoked, saying whether it was handed out, or with the result that came first |
| `ExecProgress.CallTimesOut` | trackinizer/server/execs.py:334-345 | a call with no result and no revocation ends as lost exactly at its deadline, the offer's before it is taken and the run's after |
| `ExecProgress.LeftSlotIff` | trackinizer/server/execs.py:347-359 | a caller that leaves keeps its slot taken exactly when the command was handed out, not reported, not revoked and not yet due |
| `ExecProgress.LateReportFreesSlot` | trackinizer/server/execs.py:262-280 | a report of such a command is accepted and frees its slot |
| `RateLimits.PruneCounts` | trackinizer/server/terminals.py:694-698 | what pruning leaves is exactly the last minute |
| `RateLimits.PruningDecidesAsFull` | trackinizer/server/terminals.py:293-309 | a pruned history decides every attempt as the full one, so no minute admits more than the limit |
| `RateLimits.AdmittedIff` | trackinizer/server/terminals.py:293-309 | an attempt is admitted exactly when nothing else blocks it and the admitted one a limit before it, if any, is a minute old |
| `RateLimits.OpenRate.Check` | trackinizer/server/terminals.py:293-309 | an open is refused exactly when the last minute holds the limit |
| `RateLimits.OpenRate.Open` | trackinizer/server/terminals.py:324-361 | an admitted open is counted, and the history kept stands in for the full one |
| `RateLimits.SignalRate.SignalAllowed` | trackinizer/server/terminals.py:694-705 | a signal is let through by its size and the last minute; the history stands in for the full one |
| `RateLimits.Rate.CountAndDelay` | trackinizer/server/terminals.py:85-91 | the counters' new values and the delay asked for |
| `RateLimits.BytesAreBounded` | trackinizer/server/terminals.py:77-91 | a sender that waits as told passes at most (floor(s)+2)(limit+largest) bytes in any s seconds |
| `RateLimits.NoNeedlessWait` | trackinizer/server/terminals.py:77-91 | in any sequence of asks no wait passes a second, and there is none while the last second's bytes are within the limit |
| `TerminalStream.Ring.Append` | trackinizer/lib/posix/ring.py:24-28 | the ring holds the newest bytes of the stream up to its capacity |
| `TerminalStream.Ring.Since` | trackinizer/lib/posix/ring.py:35-49 | the bytes from an offset on, where they start, and whether older ones were lost |
| `TerminalStream.Terminal.AttachBrowser` | trackinizer/server/terminals.py:461-471 | a claim takes the browser's place, reads the ring and shuts the gate |
| `TerminalStream.Terminal.Continue` | trackinizer/server/terminals.py:472-493 | what an attach does after each of its sends, replaced or not |
| `TerminalStream.Terminal.Relay` | trackinizer/server/terminals.py:574-580 | a frame goes to the ring and to the browser of that moment, once no replay is under way |
| `TerminalStream.StepKeeps` | trackinizer/server/terminals.py:442-499 | every step keeps the ring, the gate and what each browser has been sent |
| `TerminalStream.ReplayThenLive` | trackinizer/server/terminals.py:442-493 | after its header a browser gets the host's bytes from its resume offset on, with no gap, repeat or reordering |
| `TerminalStream.BrowserHasAllIffReplayed` | trackinizer/server/terminals.py:472-493 | an attached browser has every byte exactly when its replay ran to the end |
| `TerminalStream.RaisedHasAllIffNothingUnsent` | trackinizer/server/terminals.py:472-493 | an attach that raises leaves an attached browser with every byte exactly when nothing was left to send as it raised |
| `TerminalStream.StoppedAttachLeavesGap` | trackinizer/server/terminals.py:490-493 | an attach that raised leaves a browser that gets live bytes with no replay before them |
| `TerminalStream.GateHolds` | trackinizer/server/terminals.py:574-579 | the gate is shut only for an attach still under way, and nothing reaches the ring while it is |
| `TerminalStream.ReplayEnds` | trackinizer/server/terminals.py:472-493 | no attach keeps the gate shut past five steps of its own, whatever happens between them |
| `TerminalStream.ClaimResumes` | trackinizer/server/terminals.py:463-471 | a new attach takes the browser's place and the gate; its replay is exactly the stream from the resume offset on, and lost is set exactly when older bytes are gone |
| `TerminalStream.TakeoverCloses` | trackinizer/server/terminals.py:473-474 | a takeover closes the browser before it |
| `TerminalOutput.OutputReachesStream` | trackinizer/server/terminals.py:574-580 | in any run, the frames taken from the host are the stream and the frame in hand, each once and in order, until the terminal ends |
| `TerminalOutput.OpenGateLets` | trackinizer/server/terminals.py:574-580 | once the gate is open the frame in hand reaches the stream, and the next is taken when its send is over, or at once with no browser there |
| `TerminalOutput.EndedIffEnd` | trackinizer/server/terminals.py:576-577 | output ends only by the terminal's end |
| `TerminalOutput.BrowserStays` | trackinizer/server/terminals.py:495-499 | an attached browser stays so until it detaches, its socket is gone or another attaches |
| `TerminalOutput.SendDetachesGone` | trackinizer/server/terminals.py:574-580 | a send to a browser whose socket is gone detaches it |
| `TerminalOutput.OverGetsNothing` | trackinizer/server/terminals.py:461-499 | a leg that is not the browser and whose attach is over never gets anything again, in any run |
| `TerminalStartup.Terminal.ToHost` | trackinizer/server/terminals.py:766-779 | before the start a frame is buffered within the bound, after it the frame is sent |
| `TerminalStartup.Terminal.StartHost` | trackinizer/server/terminals.py:781-791 | the start sends the geometry and then the buffered input, once |
| `TerminalStartup.Terminal.HostConnected` | trackinizer/server/terminals.py:501-536 | a host claims the terminal exactly when it has not ended and has none, or one still starting, which it replaces |
| `TerminalStartup.Terminal.HostLost` | trackinizer/server/terminals.py:538-551 | a host lost while starting frees the terminal, one lost later ends it, and a replaced one changes nothing |
| `TerminalStartup.StepKeeps` | trackinizer/server/terminals.py:501-566 | every step keeps what each host has been sent tied to the frames in the order they came |
| `TerminalStartup.StartedHostGetsAll` | trackinizer/server/terminals.py:766-799 | the host that started gets the latest geometry, the buffered keys and every later frame, each once and in order, and no other host gets any |
| `TerminalStartup.NothingSentBeforeStart` | trackinizer/server/terminals.py:769-778 | before the start nothing but the acknowledgement is sent, and the buffer is what was typed |
| `TerminalStartup.TypingArrives` | trackinizer/server/terminals.py:766-799 | every key typed arrives, once and in order, exactly when those typed before the start fit one frame |
| `TerminalStartup.AllKeptIffFits` | trackinizer/server/terminals.py:772-777 | the buffer keeps every key exactly when together they fit |
| `TerminalStartup.BufferIsBounded` | trackinizer/server/terminals.py:143-144 | the buffer never passes one frame |
| `TerminalStartup.BufferTakesWhole` | trackinizer/server/terminals.py:769-778 | before the start a typed frame joins the buffer whole when it still fits, and else changes nothing |
| `TerminalStartup.GeometryIsLatest` | trackinizer/server/terminals.py:770-771 | the geometry kept is that of the last frame that named one |
| `TerminalStartup.AllIsHandedOver` | trackinizer/server/terminals.py:766-799 | from any state of a started terminal, sends that end well and the lock's wakeups get the host every frame sent so far |
| `TerminalStartup.EndedIff` | trackinizer/server/terminals.py:538-551 | in any run a terminal has ended exactly when the hub ended it, a send to its host failed, or the host that was started was lost |
| `TerminalStartup.ClaimedIff` | trackinizer/server/terminals.py:501-536 | in any run a new host gets the terminal exactly while it has not ended and no host was started, and takes over the buffer |
| `TerminalStartup.HostIsThere` | trackinizer/server/terminals.py:527-551 | in any run no terminal that goes on has a host whose acknowledgement failed or whose socket is gone |
| `TerminalStartup.LostHostIsReplaced` | trackinizer/server/terminals.py:547-549 | after a host was lost before its start, the next new host gets the terminal and all that was buffered, whatever happened in between |
| `TerminalStartup.HostStarts` | trackinizer/server/terminals.py:501-566 | a new host that dials in, gets its acknowledgement and confirms is the one started, whatever the others do meanwhile |
| `Leases.LazyRefinesEager` | trackinizer/server/inbound.py:288-345 | over any run, every query answers as if each lease ended the instant it expired, as long as no stop or retirement reads an expired lease that says more than what is left |
| `Leases.OpOk` | trackinizer/server/inbound.py:288-599 | each operation, a timely stop or retirement included, keeps the lazy book and the eager one in agreement, and answers alike |
| `Leases.LeaseQueue.MarkPoller` | trackinizer/server/inbound.py:288-314 | a poll renews the lease, keeping the state of the same run, or starts one after noting the end of an expired one; past the size limit it sweeps |
| `Leases.LeaseQueue.Sweep` | trackinizer/server/inbound.py:340-345 | every expired lease is ended and noted, in the dictionary's order |
| `Leases.LeaseQueue.TakeGone` | trackinizer/server/inbound.py:436-450 | the CLI sessions whose leases ended since the last take, in the order they were noticed |
| `Leases.LeaseQueue.ReportState` | trackinizer/server/inbound.py:413-434 | a state is kept exactly when the unexpired lease of the session is the reporting run's; an expired one is ended and noted |
| `Leases.LeaseQueue.HeldByAnother` | trackinizer/server/inbound.py:480-514 | true for a replaced run, or when an unexpired lease names another run of the same CLI |
| `Leases.LeaseQueue.ForgetPoller` | trackinizer/server/inbound.py:593-596 | the lease is revoked and, when it was a CLI's, noted as gone |
| `Leases.LeaseQueue.StopRun` | trackinizer/server/inbound.py:572-586 | the run the lease names, expired or not, is remembered as stopped and the lease is revoked |
| `Leases.LeaseQueue.RetireRun` | trackinizer/server/inbound.py:524-546 | the run the lease names, expired or not, or else the one last placed, is remembered as replaced and the lease is revoked |
| `Dicts.FilledGet` | trackinizer/server/inbound.py:308-312 | a bounded dictionary has a key exactly when fewer others than there is room for were put since, and then what was put last |
| `LeaseRuns.TakenOnce` | trackinizer/server/inbound.py:436-450 | in any run a take lists each session once |
| `LeaseRuns.TakenIs` | trackinizer/server/inbound.py:340-345 | after any run a take lists what was noted before and has not ended again, then what it notices in the order of first polls, of all these the newest there is room for |
| `LeaseRuns.OldestFirstIff` | trackinizer/server/inbound.py:436-450 | after any run a take lists the oldest end first exactly when, of those there is room for, the ends noted before rise, those it notices rise, and none of these is before one of those |
| `LeaseRuns.TakenOutOfOrder` | trackinizer/server/inbound.py:340-345 | a run in which a lease renewed later is listed before one that ended earlier |
| `LeaseRuns.StoppedIff` | trackinizer/server/inbound.py:572-591 | after any run just the run that the session's last stop found is stopped, while fewer others were stopped since than are remembered |
| `LeaseAnswers.LiveIsLastPoll` | trackinizer/server/inbound.py:288-325 | in any run a session has a live lease exactly when its last poll is recent enough and nothing revoked it since, and the lease says what that poll said |
| `LeaseAnswers.HeldIff` | trackinizer/server/inbound.py:480-514 | in any run a drain is held off exactly for the retired run that is remembered, or when the session's last live poll named the same CLI and another run |
| `LeaseAnswers.PollerAnswers` | trackinizer/server/inbound.py:359-434 | in any run a poller is told as its last live poll placed it, with the state its run reported since; a report is kept exactly from that run |
| `LeaseAnswers.ListedIff` | trackinizer/server/inbound.py:452-478 | in any run a session is listed exactly when its last live poll fits what is asked, account names compared in any case |
| `LeaseAnswers.OnlyLiveLeasesPile` | trackinizer/server/inbound.py:313-314 | in any run a poll leaves more leases than the limit only when every one of them still runs |
| `LeaseRuns.StopIsEagerIff` | trackinizer/server/inbound.py:572-586 | a stop is answered ever after as if leases ended on time exactly when no expired lease names a run, or one stopped already |
| `LeaseRuns.RetireIsEagerIff` | trackinizer/server/inbound.py:524-546 | a retirement turns away the run it would had leases ended on time exactly when the lease has not expired, or the last poll and the last remembered placing name one run |
| `LeaseRuns.RetiredAnswersIff` | trackinizer/server/inbound.py:524-546 | and is answered so ever after exactly then, or when one of the two is none and the other was turned away already |
| `LeaseRuns.StopAfterExpiry` | trackinizer/server/inbound.py:579-586 | a run in which a session's long gone run is stopped |
| `LeaseRuns.RetireAfterExpiry` | trackinizer/server/inbound.py:538-546 | a run in which a retirement turns away another run than it would had the lease ended on time |
| `Mailbox.QueueIsNewest` | trackinizer/server/inbound.py:706-730 | a queue is the newest messages appended since its last drain, up to the cap, in order |
| `Mailbox.NoWakeupIsLost` | trackinizer/server/inbound.py:732-800 | a parked hold of a session with messages has its event set or about to be set |
| `Mailbox.RevokedTakesNothingIff` | trackinizer/server/inbound.py:757-780 | a revoked hold takes nothing more exactly when no look is ahead of it or nothing is queued at that look; what the look finds is what it takes |
| `Mailbox.RevokedBeforeLookTakes` | trackinizer/server/inbound.py:758-765 | one revoked before its first look takes all that is queued |
| `Mailbox.RevokedAfterReleaseTakes` | trackinizer/server/inbound.py:769-776 | a run in which one revoked after its waiter is gone takes what is queued |
| `Mailbox.SeenIsNewest` | trackinizer/server/inbound.py:679-683 | the receipts kept are those of the newest sends carried out, up to the cap |
| `Mailbox.ReceiptKeptIff` | trackinizer/server/inbound.py:679-683 | after any run a receipt is kept exactly when its send is among the newest carried out |
| `Mailbox.CarriedOutOnce` | trackinizer/server/inbound.py:640-683 | a key is carried out again only after more than a full set of newer receipts |
| `Mailbox.RetryReplays` | trackinizer/server/inbound.py:640-662 | after any run with fewer newer sends than receipts kept, a retry changes nothing: it repeats the first answer, or is refused when it says something else |
| `MailboxHolds.HoldReturnsWhatItTook` | trackinizer/server/inbound.py:732-776 | in any run a hold comes back with just what its looks took out of the queue |
| `MailboxHolds.WokenIffCalled` | trackinizer/server/inbound.py:792-798 | in any run a hold is woken exactly when something came for its session, or the session was revoked, while it waited |
| `MailboxHolds.ParkedHoldEnds` | trackinizer/server/inbound.py:732-776 | a parked hold with messages queued comes back with all of them unless revoked, and one whose time runs out with none |
| `MailboxHolds.RevokedHoldEnds` | trackinizer/server/inbound.py:593-599 | a revocation wakes a parked hold, which comes back with nothing and leaves the queue |
| `MailboxHolds.SendNamesTargets` | trackinizer/server/inbound.py:640-662 | a send that is carried out answers with its targets' sessions in order |
| `Mailbox.MailQueue.SendOnce` | trackinizer/server/inbound.py:601-662 | one send to every target, or the answer the receipt holds |
| `Mailbox.MailQueue.AppendCapped` | trackinizer/server/inbound.py:706-717 | the message goes last and the oldest over the cap are dropped |
| `Subscribers.Drain` | trackinizer/server/subscriber.py:139-184 | a drain attempts exactly the changes past its cursor, in order, and moves to the last, whatever the page size |
| `Subscribers.Page` | trackinizer/server/store/read.py:781-827 | the oldest changes past the cursor, up to the page size |
| `Subscribers.AttemptsRise` | trackinizer/server/subscriber.py:149-184 | over any run, failures included, attempts rise strictly: no change twice, none out of order |
| `Subscribers.AttemptedIffNotLate` | trackinizer/server/subscriber.py:149-184 | a committed change the frontier has passed was attempted exactly when it did not commit behind it |
| `Subscribers.LateCommit` | trackinizer/server/subscriber.py:149-184 | a run with a change committed behind the frontier |
| `Subscribers.LateStaysLate` | trackinizer/server/subscriber.py:149-184 | one committed behind the frontier never is |
| `Subscribers.SweepDrains` | trackinizer/server/subscriber.py:72-73 | a sweep that succeeds has attempted all its last query could see |
| `Subscribers.DeadIff` | trackinizer/server/subscriber.py:106-128 | in any run the task is dead exactly when more than 1023 queries failed with no drain to a short page between them |
| `Subscribers.SurvivesIffShort` | trackinizer/server/subscriber.py:106-128 | an outage that starts with no failures kills the task exactly when it is longer than 1023 queries |
| `Subscribers.AnswersDoNotSave` | trackinizer/server/subscriber.py:106-128 | a run of 1024 failures that dies with an answered full page between every two |
| `Subscribers.DeadIsFinal` | trackinizer/server/subscriber.py:106-128 | a dead task attempts nothing more |
| `Subscribers.OutageThatKills` | trackinizer/server/subscriber.py:123-128 | with the defaults that outage lasts 61,083 seconds |
| `Subscribers.OutageIsSlow` | trackinizer/server/subscriber.py:125-128 | from the capped delay on each failing query costs the most |
| `Pushes.OneCopyIffPushed` | trackinizer/server/subscriber.py:186-232 | in any run of the sweep beside every other use of the queue, a session gets exactly one copy of a change for a subscriber when a push got to it, and else none |
| `Pushes.AtMostOneCopy` | trackinizer/server/subscriber.py:197-217 | a change sent any number of times adds at most one copy while no more sends are carried out than receipts are kept, and one |
| `Pushes.NoCopyWhileKept` | trackinizer/server/inbound.py:640-648 | and none while its receipt is kept |
| `JsonEscape.EscapeDecodes` | trackinizer/runs/redact.py:85-88 | both JSON forms decode to the value |
| `JsonEscape.EscapeJoins` | trackinizer/runs/redact.py:85-88 | a value inside a string is written inside the string's form |
| `JsonEscape.EscapeIsAscii` | trackinizer/runs/redact.py:85-88 | the ASCII form holds only printable ASCII |
| `JsonEscape.EscapeIsShortest` | trackinizer/runs/redact.py:85-88 | no string that decodes to the value is shorter than its form |
| `JsonEscape.EscapeIsOnlyShortest` | trackinizer/runs/redact.py:85-88 | and of those as short, with lower-case digits, it is the only one |
| `JsonEscape.EscapeIsLower` | trackinizer/runs/redact.py:85-88 | every numbered unit in it has lower-case digits |
| `RedactNeedles.Build` | trackinizer/runs/redact.py:79-92 | the table of the secrets, or the first one with an empty value |
| `RedactNeedles.TableIsForms` | trackinizer/runs/redact.py:84-92 | the table's strings are exactly the forms of values and long lines, each under every name it has |
| `RedactNeedles.FormOfIff` | trackinizer/runs/redact.py:80-92 | a value is looked for as itself, as each of its several lines that is long enough, and as these written inside a JSON string, in ASCII or not; and as nothing else |
| `RedactNeedles.MatchableIsLongLine` | trackinizer/runs/redact.py:250-256 | the extra parts of a value of several lines are exactly its long enough stripped lines |
| `RedactNeedles.StripIsStripped` | trackinizer/runs/redact.py:255-256 | stripping takes off all blanks at the ends and nothing more |
| `RedactSearch.Starts` | trackinizer/runs/redact.py:277-282 | every place a needle occurs, overlaps included, in order |
| `RedactSearch.Cuts` | trackinizer/runs/redact.py:259-274 | exactly the places where a line's text can have been cut off, each once |
| `RedactSearch.CutPrefixes` | trackinizer/runs/redact.py:285-305 | the bounded search finds exactly the proper prefixes, long enough and past any framing, that a search of the whole line finds at each cut |
| `RedactSearch.FramingIsArmour` | trackinizer/runs/redact.py:294-296 | the framing skipped is exactly a line of PEM armour at the needle's start |
| `RedactMerge.MergeIsOk` | trackinizer/runs/redact.py:113-130 | the pieces tile the text, and each block is a maximal chain of overlapping spans with the names found in it |
| `RedactMerge.VerbatimIsUncovered` | trackinizer/runs/redact.py:113-130 | a character is copied, in order, exactly when no span covers it |
| `RedactMerge.SameBlockIffLinked` | trackinizer/runs/redact.py:118-127 | two spans share a block exactly when a chain of overlapping spans links them; touching ones stay apart |
| `Redactors.SpansOf` | trackinizer/runs/redact.py:107-110 | the spans of one needle, whole and cut off |
| `Redactors.FindAll` | trackinizer/runs/redact.py:104-110 | the spans of all needles, each with the names that fit it |
| `Redactors.Redact` | trackinizer/runs/redact.py:94-130 | the output is the text with each block replaced by its placeholders |
| `Redactors.RedactionIsUnique` | trackinizer/runs/redact.py:94-130 | the specification has one output for a table and a text |
| `Redactors.VerbatimIffUnhit` | trackinizer/runs/redact.py:94-130 | a character is copied exactly when no needle hits it |
| `Redactors.VerbatimRises` | trackinizer/runs/redact.py:94-130 | copied characters keep their order and none is written twice |
| `Redactors.BlockNamesSecret` | trackinizer/runs/redact.py:123-128 | every block has a placeholder, and each names a secret found in the block |
| `Redactors.PlaceholdersJoin` | trackinizer/runs/redact.py:123-130 | a block is written as one placeholder for each of its names, in order |
| `Redactors.SecretIsMasked` | trackinizer/runs/redact.py:1-10 | no character of any occurrence of any form of a secret is copied |
| `Redactors.PrintedInJsonIsMasked` | trackinizer/runs/redact.py:3-6 | nor of a secret inside a longer string printed as JSON |
| `Redactors.LongLineIsForm` | trackinizer/runs/redact.py:8-10 | a long enough line of a value is one of its forms |
| `Redactors.CutIsMasked` | trackinizer/runs/redact.py:12-16 | nor of a beginning cut off at the end of a line |
| `Redactors.CleanTextKept` | trackinizer/runs/redact.py:111-112 | text with nothing in it comes back as it is |
| `EdgeDag.Descendants` | trackinizer/server/primitives.py:581-592 | the recursive query ends with exactly what can be reached, on any graph, cycles included |
| `EdgeDag.AddKeepsAcyclic` | trackinizer/server/primitives.py:557-596 | the check admits an edge exactly when the graph with it has no cycle |
| `EdgeDag.StepKeepsInv` | trackinizer/server/primitives.py:331-397 | every step of any transaction keeps the invariant |
| `EdgeDag.EveryRunIsAcyclic` | trackinizer/server/primitives.py:557-596 | in every run the committed edges of every kind but `cites_paper` have no cycle, nor does what the holder of the kind's lock sees, and it has one holder |
| `EdgeDag.InsertLandsIff` | trackinizer/server/primitives.py:331-397 | with the lock free, an insert and its commit leave what the transaction saw, and the edge exactly when it is no self-loop and is a citation of a paper or closes no cycle |
| `EdgeDag.NothingWithoutCommit` | trackinizer/server/primitives.py:331-397 | what a transaction changes reaches the committed edges by its commit alone |
| `EdgeDag.FreshDatabaseInv` | trackinizer/server/primitives.py:550-556 | with no transaction open the invariant is just that there is no cycle |
| `EdgeDag.UnionIsAcyclic` | trackinizer/server/primitives.py:557-596 | after every run in which no transaction inserts once it has deleted, as none of the source's does, the committed edges of an enforcing kind with any open transaction's own have no cycle |
| `EdgeDag.UnionIsAcyclicIff` | trackinizer/server/primitives.py:557-596 | in any reachable state of any run the committed edges with the lock holder's own have no cycle exactly when none that the holder deleted closes one among them |
| `EdgeDag.InsertKeepsUnionIff` | trackinizer/server/primitives.py:364-387 | an insert keeps them so exactly when the edge was there already or its target does not reach its source through them |
| `EdgeDag.EdgeStore.CheckCycle` | trackinizer/server/primitives.py:581-596 | the query finds a cycle exactly when the edge's target reaches its source in what the transaction sees |
| `EdgeDag.InferProducedStable` | trackinizer/server/primitives.py:400-463 | the inferred pair does not depend on the order asked, the producer is the older one, the strongest kind labels it, and there is one exactly where a narrows, requires or supersedes joins the pair and no produced_by does |
| `EdgeDag.CitationInfersNothing` | trackinizer/server/primitives.py:442-448 | a pair joined by a citation alone, for which nothing is inferred |
| `EdgeDag.YoungerToOlderIsAcyclic` | trackinizer/server/primitives.py:408-414 | edges that all point to the older node have no cycle |
| `Conversations.Moments` | trackinizer/client/conversation.py:484-492 | each record's own stamp, else the nearest before it in its part, else the first in the part |
| `ConversationLines.MomentIs` | trackinizer/client/conversation.py:484-492 | by place in the part: the nearest stamp at or before the record, else the first stamp after it, else the earliest moment |
| `ConversationLines.ListedIff` | trackinizer/client/conversation.py:274-300 | just every record of every part is placed, with its part, its place in it, its provider and its moment |
| `Conversations.Sort` | trackinizer/client/conversation.py:299-300 | the records in time order, those of one moment as they came |
| `Conversations.OrderIff` | trackinizer/client/conversation.py:274-300 | of two records the one given first stays first exactly when it is not later |
| `Conversations.PartKeepsOrderIff` | trackinizer/client/conversation.py:482-492 | a part's own order holds between two records exactly when their moments do not go back |
| `Conversations.SetBackIsReversed` | trackinizer/client/conversation.py:482-492 | a part with two records that come out in reverse |
| `Conversations.Neutralize` | trackinizer/client/conversation.py:328-345 | the loop with its running answerer computes the neutral conversation |
| `Conversations.NeutralJoins` | trackinizer/client/conversation.py:328-345 | reading two stretches in turn, the second from the first's last answerer, is reading them as one |
| `Conversations.MarkersAreSwitches` | trackinizer/client/conversation.py:337-343 | a marker stands just before each answer whose provider differs from the last one's, and nowhere else |
| `Conversations.UnmarkedIsKept` | trackinizer/client/conversation.py:303-345 | nothing but markers is added, and nothing that has a neutral form is lost |
| `ConversationLines.TypedLineIff` | trackinizer/client/conversation.py:548-566 | a line typed at the terminal becomes one person's line with its own text and stamp exactly when it says something and no harness mark begins it |
| `ConversationLines.DeliveredLineIff` | trackinizer/client/conversation.py:566-590 | a delivered line becomes one person's line: what was said without its wrapping, credited to the attested sender; a queued one always, a user's turn unless a harness mark begins it |
| `ConversationLines.SpokenIsOne` | trackinizer/client/conversation.py:465-479 | what a delivered line says is one text: without the room, the sender and all from the trailer on |
| `ConversationLines.PersonIsKept` | trackinizer/client/conversation.py:514-523 | a credited line keeps its words, its sender and what was attached |
| `ConversationLines.AnswerIsKept` | trackinizer/client/conversation.py:528-537 | an answer that says something and every call are kept under their provider's tag, after a marker when another provider answered last |
| `ConversationLines.ResultIsKept` | trackinizer/client/conversation.py:538-544 | a result keeps its call, its texts and whether it failed |
| `ConversationLines.RestIsDropped` | trackinizer/client/conversation.py:506-545 | every other record adds nothing |
| `Conversations.FoldedIsApart` | trackinizer/client/conversation.py:705-723 | no two turns of one role are left side by side |
| `Conversations.ApartIsKept` | trackinizer/client/conversation.py:705-723 | turns already apart are kept as they are |
| `Conversations.FoldedSaysTheSame` | trackinizer/client/conversation.py:705-723 | folding loses no word of either role |
| `Conversations.OwnedAfterResults` | trackinizer/client/conversation.py:691-723 | every user turn after a tool result is marked, folding included |
| `Conversations.Stamped` | trackinizer/client/conversation.py:729-743 | every record gets a stamp, its own or the last one before it |
| `ConversationLines.StampIs` | trackinizer/client/conversation.py:729-743 | by place: its own stamp, else the nearest one before it, else the time of writing; an incomplete record is left as it is |
| `ContextWindows.OpensWithClear` | trackinizer/client/context_window.py:449-456 | a part was begun by a clear exactly when a user line has the command before any answer |
| `ContextWindows.WindowOpening` | trackinizer/client/context_window.py:406-446 | the last opening wins, whichever part holds it |
| `ContextWindows.CutIsRight` | trackinizer/client/context_window.py:406-446 | what is skipped, the opening and the records partition the order; no summary and no start of a cleared part is left after the cut; the opening is the clear with the compaction before it, or the cleared part's start |
| `ContextWindows.NoOpeningIff` | trackinizer/client/context_window.py:406-446 | no window opens exactly when no clear carries a summary and no part was begun by a clear |
| `ContextWindows.CarriedIs` | trackinizer/client/context_window.py:215-257 | the kept turns of the clear are carried in order, placed where it is |
| `ContextWindows.MakeWindow` | trackinizer/client/context_window.py:215-257 | history and records, converted apart, are one pass over both |
| `ContextWindows.OnePass` | trackinizer/client/context_window.py:232-257 | switch markers included |
| `ContextWindows.WeightIsUtf8` | trackinizer/client/context_window.py:360-370 | a record weighs as many bytes as the UTF-8 of all its text that a target reads |
| `ContextWindows.Newest` | trackinizer/client/context_window.py:498-505 | the longest suffix that fits |
| `ContextWindows.NewestTurns` | trackinizer/client/context_window.py:510-523 | the longest suffix of whole turns that fits |
| `ContextWindows.Trimmed` | trackinizer/client/context_window.py:531-556 | the person's line, the last answer and as many of the newest calls, with their results, as fit |
| `ContextWindows.TrimmedKeepsIff` | trackinizer/client/context_window.py:531-556 | by position: the person's line, the last answer, the calls from a cut on and the last result of each of those, and nothing else |
| `ContextWindows.NoResultAlone` | trackinizer/client/context_window.py:541-556 | a trimmed turn keeps no result without its call |
| `ContextWindows.Fitted` | trackinizer/client/context_window.py:459-495 | everything when it fits, else the longest fitting suffixes; the weight's bound, the counts and the newest record left out |
| `ContextWindows.HeadFits` | trackinizer/client/context_window.py:387-388 | a cut text's head is the longest that fits whole characters |
| `ContextWindows.TailFits` | trackinizer/client/context_window.py:387-388 | so is its tail |
| `ContextWindows.CutIsBounded` | trackinizer/client/context_window.py:373-389 | a cut text keeps two ends that do not meet and is not much longer than they are |
| `ContextWindows.MarkerIsExactIff` | trackinizer/client/context_window.py:386-389 | the marker names the bytes cut exactly when no character straddles a cut |
| `ContextWindows.DecimalReads` | trackinizer/client/context_window.py:386-389 | the marker's number is written in decimal digits that read back as it |
| `ContextWindows.NamesOne` | trackinizer/client/context_window.py:386-389 | a cut text names one number |
| `ContextWindows.MarkerIsOff` | trackinizer/client/context_window.py:386-389 | a text whose marker is wrong |
| `ContextWindows.CutTwice` | trackinizer/client/context_window.py:373-389 | cutting again changes nothing |
| `Refusal.StoresImage` | trackinizer/runs/refusal.py:48-80 | against a server that refuses by content, what is accepted is the records with the bad ones replaced, or after an outage a prefix of that; the bad ones come back in order |
| `Refusal.ReturnsWithoutOutage` | trackinizer/runs/refusal.py:57-80 | with no outage the call returns exactly the bad records |
| `Refusal.SendsAreFew` | trackinizer/runs/refusal.py:67-80 | k bad records of n cost at most 1 + 2k*ceil(log2 n) + k sends |
| `Refusal.CeilLog2Exact` | trackinizer/runs/refusal.py:75-79 | the logarithm in that bound is the one rounded up |
| `Refusal.ReplacesRefusedAlone` | trackinizer/runs/refusal.py:48-80 | against any server, refusals by size included, what is accepted is the records with exactly those refused alone replaced, or a prefix of that when an error stops it, and just those are returned |
| `Refusal.FirstAnswerDecides` | trackinizer/runs/refusal.py:30-80 | only a 400, 413 or 422 is a refusal: a lone record is then stood in for, a larger batch halved; any other error ends the call at once |
| `Refusal.ReturnsUnlessStopped` | trackinizer/runs/refusal.py:57-80 | any server that never fails but by refusing and takes stand-ins makes every non-empty call return |
| `Refusal.ThreeSendsEach` | trackinizer/runs/refusal.py:67-80 | against any server n records cost at most 3n - 1 sends |
| `Refusal.TooDeepOnlyWhenEmpty` | trackinizer/runs/refusal.py:67-80 | halving ends for every batch and server, but for an empty batch that is refused |
| `GraphReplay.CrawlAndInsert` | trackinizer/tools/replay_live_graph.py:282-322 | exactly the reachable nodes are offered, each once, in full chunks but the last; each edge whose ends landed is tried, twice when they were offered in one chunk and else once, and no other |
| `GraphReplay.Flush` | trackinizer/tools/replay_live_graph.py:261-277 | the waiting nodes go in as one chunk, oldest first, and the edges that became due are tried |
| `GraphReplay.InsertChunk` | trackinizer/tools/replay_live_graph.py:331-370 | the accepted rows land, and every edge with both ends landed has been tried, once or twice by whether its ends share a chunk |
| `GraphReplay.ClosedHasReachable` | trackinizer/tools/replay_live_graph.py:309-317 | a set closed under neighbours that has the seeds has all they reach |
| `GraphReplay.ReplayTraversal` | trackinizer/tools/replay_live_graph.py:540-571 | with no edge from a node to itself, the edges tried are a permutation of those listed |
| `GraphReplay.PullNodes` | trackinizer/tools/replay_live_graph.py:195-217 | without a limit every node, kind by kind; under one the kinds take turns, none is more than one node ahead of another that has more, and all is pulled or the limit met |

## Left out

- Leases.LazyRefinesEager: the answers of `take_gone` and the listings are compared as sets, and `take_gone` below the cap `max_gone`, past which the code drops the oldest; a stop or retirement that reads an expired lease has its own theorems; each operation reads the clock once.
- EdgeDag.UnionIsAcyclic: for runs in which no transaction inserts an edge of a kind once it has deleted one; `remove_edge` and `purge`, which delete, are transactions that insert none.
- ContextWindows.CutTwice: for texts whose length has at most 1,980 decimal digits.
- GraphReplay.CrawlAndInsert: the source is fixed while it is crawled and lists an edge at both its ends; which rows the target accepts is an input.
- Pushes.OneCopyIffPushed: a change lists each subscriber once, a subscriber each live session once, and the keys of two changes or subscribers are two keys.
- TerminalStartup.StartedHostGetsAll: for the acknowledged handshake (`ready=True`); a host that is not asked to acknowledge clears `starting` before it waits for the close of the one before it.
- TerminalStream.ReplayThenLive: one host's output; the direct link and the ring reset it causes are not modelled.
- Mailbox.QueueIsNewest: without `drop_conversation`, the lines handed out, and the turns.
- Conversations.PartKeepsOrderIff: reading a timestamp is an input, a moment or none for each text.
- ExecHub: waits sit in one map by id rather than a list a machine, and command ids are drawn in order instead of at random.
- Terminals: the wait for an open, tickets, the expiry sweep and `stop` beyond its effect on sends.
- InboundQueue: refusals, and the runs `stopped` reports beyond which run is stopped; account names are compared after ASCII lower-casing only.
- Redactor: `redact_json`, `redact_mapping` and bytes under `py/b64` apply `redact` to each string; lone surrogates are outside Dafny's characters.
- Edges: annotation columns, priorities and valence; Postgres is only committed rows, a lock a kind, commit and abort, each statement reading committed edges and its own.
- Conversation: `projected` as a whole, `lines`, and reading parts from the server; residuals are the few fields the reader looks at.
- Context window: `cli_records`, which assembles the target's file around the fit, `_shortened`, and the line budget of the bot's history.
- Refusal: the payload fields a stand-in does not carry.
- Subscriber: the payload's text and which sessions are live; a delivery that raises part way leaves the later subscribers of that change out.
- Routes, WebSockets, the HTTP client, argument parsing, authentication, SQL text, configuration and secrets files.
