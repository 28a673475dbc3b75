# Verified model of the logistics platform's core protocols

A Dafny 4.11 model of the parts of the platform in which a wrong order of steps, a lost race or a wrong digit would
go unnoticed: the agent loop, consolidation scanning and container manifests, bin packing, the boot-time migration
lock, the journey executor, the Kafka consumer loop, and the printed numbers (AWBs, piece labels, invoice numbers).
`dafny verify dfyconfig.toml` checks everything.

## How it is organised

| files | what they model |
|---|---|
| `Runner`, `Transcripts`, `Endings`, `AgentRunners`, `Sessions` | the agent loop against an arbitrary model, tool box, clock and caller: transcript, allowlist, audit log, saves, endings, resume |
| `Consolidation` | any number of concurrent scanners as a transition system with one SQL statement per step and failing statements, beside everything else that touches the container |
| `Containers`, `Loadings`, `ContainerSaves` | the container operations one call at a time; the same loads statement by statement, interleaved and failing, and the container repository; the routes that read a container and save it whole, beside those |
| `BinPack`, `Packings`, `Trucks` | extreme-point packing with wrapping 32-bit coordinates and 64-bit totals, which trucks it is safe for, and what a packed plan means for scanning |
| `Migrations`, `AdvisoryKey` | callers that boot at once around a non-atomic check-then-create, the advisory lock, the FNV-1a key |
| `Journeys`, `JourneyExecutor`, `JourneyRuns`, `JourneyEnrolment`, `JourneyService` | journeys as graphs, any number of overlapping executors, the consumer and the route that enrol, the repository |
| `Consumer` | one partition with handler failures, unreadable messages, lost commits and restarts |
| `Luhn`, `Charset`, `Awbs`, `Typing`, `Pieces` | base-34 check characters, AWB printing and parsing, typing errors, piece labels |
| `Invoices` | invoice numbers and counter keys |
| `Geo` | nearest-neighbour stop order over an arbitrary real distance |
| `Text`, `Seqs`, `Outcome` | ASCII text, sequences, optional values |

Where the program changes an object or loops, a class or a method does the same and is proved equal to a function of
its old state; what is promised is then proved of that function, over all runs where it is about runs. Parts whose
behaviour is outside the program (the language model, tools, handlers, SQL row order, request interleaving, failures)
are parameters of the statements, so the statements hold for every behaviour of theirs.

## Where the program does not do what it says

Each of these is stated by a lemma that says exactly when the promise is kept, most with a concrete input or run beside it.

- A load is four statements without a transaction. When its last update fails, or the request ends before it, the pallet
  is loaded but its AWBs are missing from the manifest, and every retry is refused (`Loadings.FailedUpdateHidesPallet`,
  `Loadings.ManifestNamesExactly`, `Loadings.NamedLaterExactly`); and a load that passed its status check changes a
  container that has departed since (`Loadings.DepartedStillLoads`, `Loadings.DepartedChangesExactly`).
- A sealed manifest is documented to take no more loading (`services/hub-ops/src/bootstrap.rs:1239`); it does, until
  one of four later statuses (`Containers.SealedManifestStillLoads`, `Containers.LoadingIsOpenExactly`).
- The route that loads a sealed pallet, and all steps after departure, save the whole container as they read it before.
  A name can be lost from the manifest, and a departed container can be taken back to planning, exactly while a request
  that read the older row is still to write; and a name the parser spells otherwise is lost by any save
  (`ContainerSaves.NameLostExactly`, `ContainerSaves.FallsBackExactly`, `ContainerSaves.StaleSaveUndoesDeparture`).
- The container routes store any text as a loose piece, and those other routes cannot read a container whose piece is no
  piece label: it can never be recorded as arrived (`ContainerSaves.ArrivesExactly`,
  `ContainerSaves.WrongLabelStrands`). A container that can be read takes loads again after its arrival
  (`ContainerSaves.DepartedTakesInExactly`).
- A scan whose count or mark statement fails after the last piece was stored loses the completion for good, since a
  repeated scan is turned away before it counts (`Consolidation.FailedCountLosesPlan`,
  `Consolidation.CompletionOpenExactly`).
- A plan counts placements, scans count distinct AWBs: a plan in which an AWB is placed twice can never be loaded
  (`Packings.PackedPlanLoadsExactly`). A plan whose container is empty when the last piece is scanned, or is sealed by
  somebody else first, never publishes its event (`Consolidation.EmptyContainerLosesTheEvent`,
  `Consolidation.EventOpenExactly`).
- The consumer notes that a failed message will be redelivered; a later message's commit passes it
  (`Consumer.FailedMessageIsLost`, `Consumer.RedeliverableExactly`).
- A failed lookup is documented to count as no; for `not_opened` it counts as yes (`JourneyExecutor.BlindYesExactly`).
- Auto-enrolment is meant not to reset progress; two consumers that both checked first do
  (`JourneyEnrolment.RaceOverwritesExactly`, `JourneyEnrolment.RaceSendsTwice`).
- A stored current step is meant to be a step of the journey. The enrol route stores 1 without a look, so in an active
  journey that holds exactly when it has a step 1 (`JourneyRuns.StoredStepsExactly`).
- Journey executors do not lock the rows they fetch, and every replica runs one: two that fetch a row before either has
  updated it both send its campaign (`JourneyEnrolment.TwoExecutorsSendTwice`). An enrolment keeps to its path exactly
  when each landed handling meets the row standing where it was read (`JourneyRuns.PathExactly`).
- An executor sends before it updates. On an enrolment that keeps to its path the campaigns sent are those of the path
  exactly when no handling that sends one failed to land (`JourneyRuns.SendsExactly`,
  `JourneyEnrolment.FailedUpdateSendsTwice`). A row whose updates always fail, as in `JourneyRuns.FailingTicks`, keeps
  every row that falls due after it from being handled, by whatever executors (`JourneyRuns.FailingRowBlocks`).
- An agent conversation that was handed to a human, failed or ran out of turns resumes with a transcript the model's
  protocol does not allow (`Endings.ResumeConformsExactly`, `Endings.EscalatedChatBreaksOnResume`), and a chat counts
  as resolved by a human whoever completed it (`Sessions.ResolvedByHumanExactly`, `Endings.AgentLooksHuman`).
- `Awb::parse` and `ChildAwb::parse` accept texts on which accessors panic (`Awbs.SequenceIsTotalExactly`,
  `Pieces.AccessorsAreSoundExactly`).
- An invoice number generated for a year outside 2020..2099 is rejected by its own parser
  (`Invoices.GenerateRoundTripsExactly`).
- After a failed unlock, callers of that key on other sessions wait for good; a caller gets in if and only if its key is
  not stray, or stray on its own session (`Migrations.FailedUnlockWedges`, `Migrations.CallerWaitsExactly`). The source
  expects the wait of the session that kept the lock; advisory locks are re-entrant, so it is every other one that waits.
- The bounds and overlap tests of the packing wrap at 2^32. Because larger boxes go first, that matters in a truck if
  and only if its volume in cubic centimetres plus its longest side reaches 2^32, some 4,290 cubic metres
  (`Trucks.TruckIsSafeExactly`); every larger truck has two boxes that leave it (`Trucks.UnsafeTruckFails`).

What the migration key has to be stable for is shown apart from this: with two keys for one schema, which one build of
the program never derives, callers would race in spite of their locks (`Migrations.DisagreeingKeysRace`).

## Model

| member | source | states |
|---|---|---|
| `Endings.HowItEnds` | libs/agent-runtime/src/runner.rs:90-227 | For every model, tool box and starting session the loop ends within 20 requests in one of four ways, each tied to the last reply, with every field of the session stated: API failure (the error after its prefix as reason), completion (the answer's text as outcome, the confidence), handover at the first call of the batch that asked for a human (the tool's reason whenever it gave one; the outcome is what was said exactly if that is not blank), or 20 fully answered turns (the fixed reason). In every answered turn each result pushed carries the rendered output and error flag of the tool's answer to that call, or the fixed refusal; the log says of each issued call its tool, input, that output and success; exactly the permitted ones were executed; the saves form a chain that ends in the returned session, and every transcript after the first was saved before it was sent |
| `Endings.FreshRunEnds` | libs/agent-runtime/src/runner.rs:54-71 | A fresh run either stops on the store's refusal with nothing asked, executed or logged, or ends as every loop does |
| `Endings.StartsWith` | libs/agent-runtime/src/runner.rs:58-88 | What a fresh and a resumed run start from, field by field |
| `Runner.TextOfAnswer` | libs/agent-runtime/src/claude.rs:38-48 | The text of an answer, by its laws: none of nothing, the text of one text block, and a line break between the texts of two parts that have one |
| `Runner.CallsOfAnswer` | libs/agent-runtime/src/claude.rs:51-57 | The calls of an answer, by the same laws |
| `Endings.FreshRequestsConform` | libs/agent-runtime/src/runner.rs:90-227 | In every fresh run each request carries a transcript that starts and ends with the user, alternates, and follows every message with tool calls at once by one result per call, same ids, same order |
| `Endings.ResumeConformsExactly` | libs/agent-runtime/src/runner.rs:73-88 | After a run that began with a conforming transcript, all requests of the resumed run conform if and only if the session was completed by a message without tool calls; and then the resumed run again begins conforming |
| `Endings.EscalatedChatBreaksOnResume` | libs/agent-runtime/src/runner.rs:186-205 | A concrete conversation, handed over in its first turn, whose resumption sends a transcript that breaks the form |
| `Endings.RefusedExactly` | libs/agent-runtime/src/runner.rs:163-178 | Over every fresh run: each executed call is permitted by the role, and an action is recorded as refused exactly when its tool is not permitted |
| `Endings.AgentLooksHuman` | libs/agent-runtime/src/session.rs:173-190 | A session with an escalation reason that a resumed agent completes by itself still reports resolved by a human |
| `Transcripts.TurnKeeps` | libs/agent-runtime/src/runner.rs:104-223 | A turn that continues extends the transcript by exactly one answer and, call by call, what each tool answered, the log by exactly the answer's calls and the saves by one, and keeps everything that holds at the head of a turn |
| `Transcripts.LastTurn` | libs/agent-runtime/src/runner.rs:103-109 | Every loop has a last turn, or passes the limit, reached from the start through states that keep that invariant |
| `Transcripts.RunCallsKeeps` | libs/agent-runtime/src/runner.rs:161-216 | A batch stops at the first permitted call whose result asks for a human and nowhere else, with the reason that tool gave; otherwise result k is the tool's answer to call k, or the fixed refusal for a tool the role does not permit; log entry k has call k's tool and input, that output, and succeeded exactly when the result was no error |
| `AgentRunners.AgentRunner.Batch` | libs/agent-runtime/src/runner.rs:159-216 | The loop over tool calls, updating session and results in place, does what the batch function says, early return included |
| `AgentRunners.AgentRunner.TakeTurn` | libs/agent-runtime/src/runner.rs:112-222 | One pass of the turn loop in place is one step of the turn function |
| `AgentRunners.AgentRunner.Drive` | libs/agent-runtime/src/runner.rs:90-227 | The imperative loop over the session object returns with the session, requests, executed calls and saves that the loop function computes |
| `AgentRunners.AgentRunner.Run` | libs/agent-runtime/src/runner.rs:42-71 | The entry point on a new session object matches the run function, refusal of the first save included |
| `AgentRunners.AgentRunner.Resume` | libs/agent-runtime/src/runner.rs:76-88 | Reopening and appending to an existing session object matches the resume function |
| `Sessions.OfferedExactlyPermitted` | libs/agent-runtime/src/tools.rs:34-44 | The definitions sent to the model are exactly those whose name the role permits, each position once, in their original order |
| `Sessions.TransitionsKeep` | libs/agent-runtime/src/session.rs:120-145 | Over any sequence of transitions a completion time is set exactly when the session is not running, and an escalation reason is never cleared |
| `Sessions.ResolvedByHumanExactly` | libs/agent-runtime/src/session.rs:173-190 | The resolved-by-human flag holds exactly when the last transition completed the session and some earlier one failed or escalated it |
| `Sessions.RecoveredAgentLooksHuman` | libs/agent-runtime/src/session.rs:126-145 | Failing once and then completing by itself makes an agent look resolved by a human |
| `Sessions.AgentSession.Complete` | libs/agent-runtime/src/session.rs:120-125 | Assigns exactly the fields a completion sets |
| `Sessions.AgentSession.Fail` | libs/agent-runtime/src/session.rs:127-131 | Assigns exactly the fields a failure sets |
| `Sessions.AgentSession.Escalate` | libs/agent-runtime/src/session.rs:133-137 | Assigns exactly the fields an escalation sets |
| `Sessions.AgentSession.Reopen` | libs/agent-runtime/src/session.rs:139-144 | Back to running with no completion time, everything else kept |
| `Consolidation.RunKeepsInv` | services/hub-ops/src/bootstrap.rs:1717-1871 | In every interleaving of scanners with failing statements, and with loads, sealing, departure and whole-row saves of the container: the rows are a duplicate-free part of the placed AWBs, every handler finds what its next statement relies on, and nothing is published before a seal |
| `Consolidation.OneWinnerOneEvent` | services/hub-ops/src/bootstrap.rs:637-670 | Over every run at most one handler moves the plan to loaded, and the event goes out at most once, from that handler, after a non-empty container was sealed, which it still is unless a whole-row save has put planning back |
| `Consolidation.OnlySavesRestore` | services/hub-ops/src/infrastructure/db/mod.rs:686-705 | While no whole-row save takes a step, nothing takes a container back to planning |
| `Consolidation.QuietMeansDecided` | services/hub-ops/src/bootstrap.rs:1757-1792 | Once no handler is before its mark step, the plan is loaded exactly when enough rows are stored |
| `Consolidation.NoCompletionLost` | services/hub-ops/src/bootstrap.rs:1757-1792 | If the piece count is at most the number of distinct placed AWBs, all of them were scanned and all handlers are past their mark step without a failure in between, the plan is loaded, in every interleaving |
| `Consolidation.CompletionOpenExactly` | services/hub-ops/src/bootstrap.rs:1757-1792 | In every reachable state, a plan that is not loaded and counts no more pieces than distinct AWBs can still be loaded if and only if an AWB is not stored yet or a handler is between its insert and its mark |
| `Consolidation.FailedCountLosesPlan` | services/hub-ops/src/bootstrap.rs:1757-1776 | A run in which one failed count leaves a fully scanned plan unloaded in every continuation |
| `Consolidation.OvercountedPlanNeverLoads` | services/hub-ops/src/bootstrap.rs:1757-1792 | With more pieces counted than distinct AWBs placed no run loads the plan |
| `Consolidation.LoadableExactly` | services/hub-ops/src/bootstrap.rs:1717-1792 | Some run loads the plan if and only if something is placed and the count is at most the number of distinct AWBs |
| `Consolidation.MissedEventIsMissedForGood` | services/hub-ops/src/bootstrap.rs:1794-1857 | When the winner has answered without publishing, no continuation ever publishes |
| `Consolidation.EventOpenExactly` | services/hub-ops/src/bootstrap.rs:1794-1857 | For a loaded plan without its event, some continuation publishes it if and only if the winner is on its way and is about to publish, or the container is in planning, or a save that read it in planning is still to write |
| `Consolidation.AnswerExactly` | services/hub-ops/src/bootstrap.rs:1717-1871 | A handler's next statement ends it with each of the six answers if and only if that answer's condition holds of the stored plan, rows and container and of the statement's failure |
| `Consolidation.GoesOnExactly` | services/hub-ops/src/bootstrap.rs:1717-1871 | It goes on to each other statement, with the values it carries, if and only if that statement's condition holds |
| `Consolidation.AnswersAreTrue` | services/hub-ops/src/bootstrap.rs:1757-1870 | Over every run each answered handler had the cause of its answer at its last statement; a reported count is the number of rows stored when it counted; loaded is reported exactly of a count that reaches the piece count |
| `Consolidation.ReportedIsStored` | services/hub-ops/src/bootstrap.rs:1858-1870 | The status a handler reports is the one stored at that moment |
| `Consolidation.EmptyContainerLosesTheEvent` | services/hub-ops/src/bootstrap.rs:386-408 | A concrete plan on a new container is loaded by its scan and never publishes |
| `Consolidation.FinishEffect` | services/hub-ops/src/bootstrap.rs:1717-1871 | A handler left alone answers, disturbs no other handler, and leaves its placed AWB stored or the plan loaded |
| `Consolidation.ScanService.InsertRow` | services/hub-ops/src/bootstrap.rs:649-661 | Insert-if-absent: reports and stores the AWB exactly when it was not stored |
| `Consolidation.ScanService.MarkLoaded` | services/hub-ops/src/bootstrap.rs:637-647 | Compare-and-set: reports a transition exactly when the plan was confirmed |
| `Consolidation.ScanService.SealContainer` | services/hub-ops/src/bootstrap.rs:386-408 | Seals exactly a non-empty container in planning |
| `Consolidation.ScanService.Scan` | services/hub-ops/src/bootstrap.rs:1717-1871 | The handler on the stored rows does what the transition system does for one undisturbed handler; each answer is given if and only if its condition holds of the old status, placements, rows and container; the reported count is the number of stored rows and the reported status the stored one; and the new rows, status, container and events, outright |
| `Consolidation.ScanService.Complete` | services/hub-ops/src/bootstrap.rs:1789-1857 | The part after a full count, against the transition system and outright |
| `Containers.ManifestIsExact` | services/hub-ops/src/bootstrap.rs:281-408 | With calls that follow one another and do not fail, after any sequence of attempts on a new container the manifest names exactly the AWBs of the accepted loadings, each once, and a container past planning was non-empty |
| `Containers.FrozenAfterDeparture` | services/hub-ops/src/bootstrap.rs:254-408 | No call that starts after the departure changes the container |
| `Containers.AttemptExactly` | services/hub-ops/src/bootstrap.rs:254-408 | What each container operation is refused for, and all that it changes otherwise |
| `Loadings.RunKeepsInv` | services/hub-ops/src/bootstrap.rs:310-384 | Over every interleaving of load statements with sealing, departure and failures, every stored AWB is named or owed by a request that stopped between its insert and its update |
| `Loadings.RowsAreStored` | services/hub-ops/src/bootstrap.rs:336-373 | In every run the pallet and piece rows are exactly those of the stored loads |
| `Loadings.AnswerExactly` | services/hub-ops/src/bootstrap.rs:310-384 | A load request's next statement ends it with each answer if and only if that answer's condition holds |
| `Loadings.StatementExactly` | services/hub-ops/src/bootstrap.rs:310-384 | Which statement follows which, and what each changes in the container |
| `Loadings.ManifestNamesExactly` | services/hub-ops/src/bootstrap.rs:310-384 | In every such run the manifest repeats nothing, names only AWBs of stored loads, and names all of them if and only if every request stopped or standing between insert and update has had its AWBs named by another |
| `Loadings.NamedLaterExactly` | services/hub-ops/src/bootstrap.rs:329-348 | A missing AWB can still be named, other than by a new load that carries it, if and only if a request carrying it is past its insert, or before it with the row free and the checks it still faces passing; retries never help |
| `Loadings.FailedUpdateHidesPallet` | services/hub-ops/src/bootstrap.rs:336-348 | A run in which one failed update leaves a loaded pallet out of the manifest whatever is retried |
| `Loadings.DepartedChangesExactly` | services/hub-ops/src/bootstrap.rs:317-348 | A departed container can still change if and only if some request past its status check has a free row to insert or a missing AWB to name |
| `Loadings.DepartedStillLoads` | services/hub-ops/src/bootstrap.rs:310-349 | A run that loads a pallet into a departed container |
| `Loadings.SoloIsExecution` | services/hub-ops/src/bootstrap.rs:310-384 | A request whose statements run without another in between does what its execution function says, for every failure |
| `Loadings.CleanIsApply` | services/hub-ops/src/bootstrap.rs:310-384 | Without failures that execution is the serial operation, and the answer reports its success |
| `Loadings.AnswerIsTrue` | services/hub-ops/src/bootstrap.rs:310-384 | A reported success has its row and its names; an error leaves the row behind exactly when the insert took effect |
| `Containers.SealedManifestStillLoads` | services/hub-ops/src/bootstrap.rs:310-349 | A run that seals a container and then loads it |
| `Loadings.ContainerRepository.InsertRow` | services/hub-ops/src/bootstrap.rs:336-338 | The guarded insert in place, failing before or after its effect |
| `Loadings.ContainerRepository.LoadPallet` | services/hub-ops/src/bootstrap.rs:310-349 | The four statements in place, any of which may fail, against the execution function |
| `Loadings.ContainerRepository.LoadLoosePiece` | services/hub-ops/src/bootstrap.rs:351-384 | The same for the three statements of a loose piece |
| `Loadings.ContainerRepository.Finalise` | services/hub-ops/src/bootstrap.rs:386-408 | Seals exactly a non-empty container in planning, and changes nothing else |
| `Loadings.ContainerRepository.MarkDeparted` | services/hub-ops/src/bootstrap.rs:254-279 | Departs exactly from manifested or sealed, and changes nothing else |
| `ContainerSaves.RunKeepsInv` | services/hub-ops/src/infrastructure/db/mod.rs:660-748 | With whole-row saves among the writers: every stored AWB is named, owed by a stopped request or erased by a save; what a request has read or is to write is spelled as the parser spells what came with loads and saves |
| `ContainerSaves.ManifestWithSavesExactly` | services/hub-ops/src/infrastructure/db/mod.rs:684-748 | In every run from a new container the manifest names all stored AWBs if and only if those of stopped requests and those erased by saves are named again; every name came with a load or a save, up to spelling |
| `ContainerSaves.NameLostExactly` | services/hub-ops/src/infrastructure/db/mod.rs:632-705 | A name in the manifest can be lost if and only if a request that read the container without it is still to write, or it is not spelled as the parser spells it and the container can be read and edited at all |
| `ContainerSaves.FallsBackExactly` | services/hub-ops/src/infrastructure/db/mod.rs:684-705 | A container that has reached some phase falls back below it if and only if a request holding an earlier status is still to write |
| `ContainerSaves.ArrivesExactly` | services/hub-ops/src/infrastructure/db/mod.rs:621-682 | A container in transit can be taken further if and only if all its loose pieces are piece labels, or a request is already about to write that |
| `ContainerSaves.DepartedTakesInExactly` | services/hub-ops/src/bootstrap.rs:317-384 | What a departed container holds can change if and only if it can be read, so that it arrives and opens again, or a load is in flight, or a save is about to write other names, an open status or a pallet |
| `ContainerSaves.SavedLoadIsLoad` | services/hub-ops/src/application/services/pallet_service.rs:270-301 | Undisturbed, on a readable container with parser spelling, the pallet route does what the container route does for the parsed AWBs, in the statuses its own guard admits, and refuses elsewhere |
| `ContainerSaves.StaleSaveUndoesDeparture` | services/hub-ops/src/infrastructure/db/mod.rs:684-705 | A run in which a save takes a departed container back to planning and empties its manifest |
| `ContainerSaves.WrongLabelStrands` | services/hub-ops/src/infrastructure/db/mod.rs:621-631 | A run after which a container is in transit in every continuation |
| `ContainerSaves.ContainerEntity.LoadPallet` | services/hub-ops/src/domain/entities/container.rs:75-88 | The loop that adds a pallet's AWBs in memory, with its two refusals |
| `ContainerSaves.ContainerEntity.Arrive` | services/hub-ops/src/domain/entities/container.rs:134-146 | Delivered exactly from in transit |
| `ContainerSaves.ContainerEntity.ArriveAtPort` | services/hub-ops/src/domain/entities/container.rs:149-167 | At port exactly from in transit and not by road |
| `ContainerSaves.ContainerEntity.EnterCustoms` | services/hub-ops/src/domain/entities/container.rs:170-180 | Customs exactly from port |
| `ContainerSaves.ContainerEntity.ClearCustoms` | services/hub-ops/src/domain/entities/container.rs:185-195 | Released exactly from customs |
| `ContainerSaves.ContainerEntity.ReleaseDomestic` | services/hub-ops/src/domain/entities/container.rs:199-214 | Released exactly from in transit by road |
| `ContainerSaves.ContainerEntity.Deconsolidate` | services/hub-ops/src/domain/entities/container.rs:220-230 | Deconsolidated exactly from released |
| `Packings.FirstFitExactly` | services/hub-ops/src/domain/algorithms/bin_pack.rs:119-156 | An item is placed if and only if some extreme point takes it in one of its two orientations |
| `Packings.FirstFitIsFirst` | services/hub-ops/src/domain/algorithms/bin_pack.rs:119-156 | It goes to the earliest such point and is turned only where it does not fit unturned |
| `BinPack.PointsAscend` | services/hub-ops/src/domain/algorithms/bin_pack.rs:60-63 | Of two points the one with less z is tried first, of equal z the one with less x, of equal z and x the one with less y, and none twice |
| `BinPack.LargestFirst` | services/hub-ops/src/domain/algorithms/bin_pack.rs:69-75 | Items are handled by non-increasing volume as computed in 64 bits |
| `BinPack.EqualsKeepOrder` | services/hub-ops/src/domain/algorithms/bin_pack.rs:69-75 | Items of one volume are handled in the order given |
| `Packings.LowestSpot` | services/hub-ops/src/domain/algorithms/bin_pack.rs:115-156 | A placed box stands no higher than any point that would take it, among those of that height at the least x, then y; and is turned only where it does not fit unturned |
| `Packings.PointsAfter` | services/hub-ops/src/domain/algorithms/bin_pack.rs:137-167 | The points after a placement are those before and its three corners, by wrapping sums, that lie in the truck |
| `Packings.AcceptedExactly` | services/hub-ops/src/domain/algorithms/bin_pack.rs:121-129 | As long as no sum wraps, a spot passes the tests if and only if the box there is inside and shares no space |
| `Packings.PackOneIs` | services/hub-ops/src/domain/algorithms/bin_pack.rs:85-176 | Each item is left over for the first reason that applies, or placed at a point that takes it, and nothing else changes |
| `Packings.EveryItemOnce` | services/hub-ops/src/domain/algorithms/bin_pack.rs:66-185 | The placements and the leftovers together account for every item exactly once, with its identity, weight, height and its footprint up to a quarter turn |
| `Packings.TotalsAreSums` | services/hub-ops/src/domain/algorithms/bin_pack.rs:95-133 | Reported weight and volume are the sums over the placements in 64 bits, and the reported weight is within the payload |
| `Packings.PayloadIsKept` | services/hub-ops/src/domain/algorithms/bin_pack.rs:95-102 | With a payload limit not within 2^32 of 2^64 the boxes placed really weigh no more than it |
| `Trucks.TruckIsSafeExactly` | services/hub-ops/src/domain/algorithms/bin_pack.rs:66-185 | Whatever is packed, all boxes lie inside the truck and no two overlap, if and only if the truck's volume plus its longest side is below 2^32 |
| `Trucks.SafeTruckPacksWell` | services/hub-ops/src/domain/algorithms/bin_pack.rs:66-185 | In such a truck, for items in descending 64-bit volume, no far corner ever wraps, since a box let through by wrapping would be larger than one already inside |
| `Trucks.UnsafeTruckFails` | services/hub-ops/src/domain/algorithms/bin_pack.rs:121-129 | For every other truck, two items whose packing is not sound |
| `Trucks.SafeTruckReportsVolume` | services/hub-ops/src/domain/algorithms/bin_pack.rs:131-133 | In a safe truck the reported volume is that of the boxes and no more than the truck's |
| `Packings.SoundExactly` | services/hub-ops/src/domain/algorithms/bin_pack.rs:121-129 | Of one packing: all boxes lie inside and apart if and only if no placed far corner passes 2^32 |
| `Packings.SmallItemsPackSoundly` | services/hub-ops/src/domain/algorithms/bin_pack.rs:66-185 | For items whose dimensions added to the truck's stay below 2^32 the packing always lies inside and apart |
| `Trucks.WrappedBoxIsPacked` | services/hub-ops/src/domain/algorithms/bin_pack.rs:121-126 | A concrete truck of 5000 a side and two boxes whose packing leaves it |
| `Packings.VolumeWithinBin` | services/hub-ops/src/domain/algorithms/bin_pack.rs:131-133 | The volume of the boxes of a sound packing is at most the truck's, by counting unit cells, and is the volume reported if the truck's fits 64 bits |
| `Packings.PackedPlanLoadsExactly` | services/hub-ops/src/application/services/consolidation_service.rs:188-212 | The plan made from a packing can be loaded by scanning if and only if something was placed and no AWB was placed twice |
| `BinPack.OverlapsAny` | services/hub-ops/src/domain/algorithms/bin_pack.rs:187-201 | The loop finds a collision exactly when there is one |
| `BinPack.FindSpot` | services/hub-ops/src/domain/algorithms/bin_pack.rs:119-156 | The nested search over points and orientations, against the first-fit function |
| `BinPack.OfferCorners` | services/hub-ops/src/domain/algorithms/bin_pack.rs:158-167 | The loop that admits new points, against its function |
| `BinPack.ComputePack` | services/hub-ops/src/domain/algorithms/bin_pack.rs:66-185 | The whole packing loop, against the packing function the lemmas are about |
| `Migrations.OneInsiderPerKey` | libs/common/src/migrations.rs:46-90 | No two callers with one key, hence none with one schema, are between lock and unlock |
| `Migrations.RunKeepsInv` | libs/common/src/migrations.rs:24-93 | Over every interleaving of half-steps and failures: insiders hold their key, sessions are not shared, what a caller learnt is still true when it acts on it, and held keys belong to insiders unless an unlock failed |
| `Migrations.NoDuplicateObject` | libs/common/src/migrations.rs:46-75 | Over every run from boot no create meets an existing object, and who reports success finds schema and table in place |
| `Migrations.OutcomeExactly` | libs/common/src/migrations.rs:46-90 | Over every run from boot a finished caller reports success if and only if none of its own statements failed, and each failure if and only if that statement of its own failed (a failed unlock gives way to a failed creation) |
| `Migrations.LeakedExactly` | libs/common/src/migrations.rs:80-88 | Lock state is left behind if and only if some caller's unlock failed |
| `Migrations.FinishedCallersHoldNothing` | libs/common/src/migrations.rs:78-89 | Unless an unlock statement failed, every held key is held by a caller still inside |
| `Migrations.StepsAreBounded` | libs/common/src/migrations.rs:24-93 | No run makes more than 7 steps per caller that change anything |
| `Migrations.SomebodyCanStep` | libs/common/src/migrations.rs:46-90 | No deadlock: while somebody is unfinished and no unlock has failed, somebody can go on |
| `Migrations.StuckMeansFinished` | libs/common/src/migrations.rs:46-90 | Where no step is left and no unlock has failed, all have finished |
| `Migrations.DisagreeingKeysRace` | libs/common/src/migrations.rs:95-101 | Why the key must be stable: two callers with different keys for one schema, as the comment fears of two builds, collide on a create |
| `Migrations.CallerWaitsExactly` | libs/common/src/migrations.rs:51-89 | At any point of any run from boot, a caller about to lock can still get in if and only if its key is held no more often than its holder accounts for, or by its own session |
| `Migrations.NothingStrayUnlessLeaked` | libs/common/src/migrations.rs:78-89 | A key is held beyond its holder only after an unlock has failed |
| `Migrations.FailedUnlockWedges` | libs/common/src/migrations.rs:78-89 | A run from boot, with the derived key, after which the second caller gets in in no continuation |
| `AdvisoryKey.WrappingMulInverts` | libs/common/src/migrations.rs:101-108 | Wrapping multiplication by the FNV prime has an inverse on 64 bits |
| `AdvisoryKey.HashIs` | libs/common/src/migrations.rs:101-108 | The hash starts from the published basis; each byte is first combined with the low eight bits, then the whole multiplied by the prime modulo 2^64; the key is that number or the same less 2^64 |
| `AdvisoryKey.XorBitsAt` | libs/common/src/migrations.rs:101-108 | The combination has a bit exactly where the two differ |
| `AdvisoryKey.KnownHash` | libs/common/src/migrations.rs:101-108 | The published FNV-1a value of "a" |
| `AdvisoryKey.MixIsInjective` | libs/common/src/migrations.rs:101-108 | One hash step is injective in the state for a fixed byte and in the byte for a fixed state |
| `AdvisoryKey.SuffixKeepsDifference` | libs/common/src/migrations.rs:101-108 | A common suffix keeps different hashes different and equal ones equal |
| `AdvisoryKey.OneByteApartNeverCollide` | libs/common/src/migrations.rs:101-108 | Two names of equal length that differ in exactly one byte never share a key |
| `AdvisoryKey.ComputeKey` | libs/common/src/migrations.rs:101-108 | The byte loop with its signed result, against the hash function |
| `Journeys.AlwaysEndsExactly` | services/marketing/src/bootstrap.rs:510-605 | Whatever the answers, an enrolment ends within as many processings as the journey has steps (one if it has none) if and only if no reachable step leads back to itself |
| `Journeys.FindStepIsFirst` | services/marketing/src/bootstrap.rs:533-537 | Of several steps of one order the first is taken |
| `Journeys.ForwardEnds` | services/marketing/src/bootstrap.rs:533-602 | Branches that only lead to later steps guarantee that |
| `Journeys.ForwardClimbs` | services/marketing/src/bootstrap.rs:533-602 | With forward branches every processing moves on by at least one order |
| `JourneyExecutor.HandleIsEdge` | services/marketing/src/bootstrap.rs:524-602 | Each branch of the executor is one edge of the graph, and triggers the campaign of its step and no other |
| `JourneyExecutor.HandleExactly` | services/marketing/src/bootstrap.rs:523-602 | What each step type triggers, where the row goes and when, and when it finishes |
| `JourneyExecutor.ConditionExactly` | services/marketing/src/bootstrap.rs:432-508 | A condition is answered yes if and only if it holds of what was reported: opened (the default) and clicked of the send, not_opened with a campaign and a service and no reported opening, the customer value of a score above 60; never for another type |
| `JourneyExecutor.CampaignAskedIs` | services/marketing/src/bootstrap.rs:453-460 | The campaign asked about is the step's own, else that of the send step with the greatest order before it |
| `JourneyExecutor.NearestSendIs` | services/marketing/src/bootstrap.rs:455-460 | The fallback picks the send step with the greatest order below the condition, the last of several, or none if there is none |
| `JourneyExecutor.BlindYesExactly` | services/marketing/src/bootstrap.rs:432-508 | With every lookup failing the answer is yes exactly for not_opened with a campaign to ask about and a service configured |
| `JourneyRuns.HandleRowAt` | services/marketing/src/bootstrap.rs:523-603 | A handling moves its own row if its update lands, triggers its own campaign in any case, and touches no other row |
| `JourneyRuns.PathExactly` | services/marketing/src/bootstrap.rs:510-605 | In every interleaving of any number of executors, failing updates and others' enrolments, the landed handlings of an enrolment follow the path their answers choose if and only if each met the row standing where its executor had read it; and then the row stands at the end of that path |
| `JourneyRuns.TriggersAreHandlings` | services/marketing/src/bootstrap.rs:540-556 | In every such run the campaigns triggered for an enrolment are those of the steps handled, whether or not the updates landed |
| `JourneyRuns.SendsExactly` | services/marketing/src/bootstrap.rs:540-560 | For an enrolment whose landed handlings met it standing, the campaigns triggered are exactly those of the steps on the path its answers choose if and only if every handling that did not land sends nothing |
| `JourneyRuns.ApartIsStanding` | services/marketing/src/bootstrap.rs:519-523 | If no two executors hold the row at once, every handling meets it standing |
| `JourneyRuns.ExecutorFollowsPath` | services/marketing/src/bootstrap.rs:510-605 | If no two executors hold the row at once and its updates land, the campaigns triggered are exactly those of the steps on the path its answers choose, and its row stands at the end of that path |
| `JourneyRuns.OneExecutorFollowsPath` | services/marketing/src/bootstrap.rs:510-605 | That is so for every enrolment when a single executor runs |
| `JourneyRuns.TickIsARun` | services/marketing/src/bootstrap.rs:519-603 | A tick that nothing interrupts is a fetch and its handlings |
| `JourneyRuns.CompletesInTime` | services/marketing/src/bootstrap.rs:510-605 | If all walks end, an enrolment whose landed handlings met it standing is moved at most as often as there are steps and is then completed |
| `JourneyRuns.StoredStepsExist` | services/marketing/src/bootstrap.rs:510-605 | After any run, overlapping executors and both ways of enrolling included, the stored current step of every unfinished enrolment in an active journey exists, or is the 1 that the enrol route puts |
| `JourneyRuns.StoredStepsExactly` | services/marketing/src/api/http/mod.rs:673-697 | In an active journey every stored current step exists, in every run from an empty table, if and only if the journey has a step 1 |
| `JourneyRuns.NobodyStarves` | services/marketing/src/infrastructure/db/mod.rs:550-570 | While a due enrolment is fetched by nobody, each executor lands at most as many handlings as rows were ahead of it, whatever the others do and whoever is enrolled |
| `JourneyRuns.FailingRowBlocks` | services/marketing/src/bootstrap.rs:510-605 | A row whose handlings never land keeps every row that falls due after it from being handled at all, over every run of any number of executors |
| `JourneyRuns.WaitIsKept` | services/marketing/src/bootstrap.rs:565-575 | After a wait step was handled, no executor fetches the enrolment before its days have passed, unless somebody touches it |
| `JourneyEnrolment.EnrolAllIs` | services/marketing/src/bootstrap.rs:339-363 | A trigger enrols the customer in every matched journey, changes no existing row and adds no other |
| `JourneyEnrolment.RepeatedTriggerIsNoOp` | services/marketing/src/infrastructure/db/mod.rs:517-528 | A repeated trigger changes nothing |
| `JourneyEnrolment.EnrolEachIs` | services/marketing/src/api/http/mod.rs:673-697 | The enrol route puts every listed customer at step 1, however far they were, and changes no other row |
| `JourneyEnrolment.RaceOverwritesExactly` | services/marketing/src/infrastructure/db/mod.rs:530-547 | A save that follows its check overwrites a row if and only if another save for that customer and journey came in between |
| `JourneyEnrolment.RaceSendsTwice` | services/marketing/src/infrastructure/db/mod.rs:530-547 | A run of two such consumers in which one campaign goes out twice |
| `JourneyEnrolment.TwoExecutorsSendTwice` | services/marketing/src/bootstrap.rs:519-560 | A run of two executors that fetched the same row in which one campaign goes out twice |
| `JourneyEnrolment.FailedUpdateSendsTwice` | services/marketing/src/bootstrap.rs:552-560 | A run of one executor in which a failed update makes one campaign go out twice |
| `JourneyService.JourneyRepository.Process` | services/marketing/src/bootstrap.rs:524-602 | The loop body of the executor on the table, branch by branch, against the effect function; and a condition step moves the row to its yes target exactly when the condition holds of what was reported |
| `JourneyService.JourneyRepository.ExecuteDueJourneys` | services/marketing/src/bootstrap.rs:510-605 | The executor's loop over the rows it read, ended early by a failing update, against the tick function |
| `JourneyService.JourneyRepository.HandleEngagementTrigger` | services/marketing/src/bootstrap.rs:320-364 | The consumer's loop over matched journeys, against the trigger function |
| `JourneyService.JourneyRepository.EnrollJourney` | services/marketing/src/api/http/mod.rs:673-697 | The loop over customers with its refusals, ended early by a failing save, against the route function |
| `JourneyService.JourneyRepository.AdvanceEnrolment` | services/marketing/src/infrastructure/db/mod.rs:572-586 | Moves exactly the addressed row |
| `JourneyService.JourneyRepository.CompleteEnrolment` | services/marketing/src/infrastructure/db/mod.rs:588-596 | Completes exactly the addressed row |
| `JourneyService.JourneyRepository.SaveEnrolment` | services/marketing/src/infrastructure/db/mod.rs:530-547 | Inserts, or overwrites the row of the same journey and customer |
| `Consumer.RunKeepsInv` | libs/events/src/consumer.rs:34-70 | Over every run of a partition the committed offset never moves back and is zero or one past a message whose handler succeeded |
| `Consumer.BrokerSteps` | libs/events/src/consumer.rs:34-70 | What landed and lost commits, receive errors and a restart do to the offsets |
| `Consumer.PassedPrecedesHandled` | libs/events/src/consumer.rs:34-70 | A message below the committed offset that was never handled precedes one that was |
| `Consumer.RestartRedelivers` | libs/events/src/consumer.rs:15-30 | After a restart every message from the committed offset on is delivered again, in order, without a gap |
| `Consumer.RedeliverableExactly` | libs/events/src/consumer.rs:56-66 | A message can be delivered again in some continuation if and only if the committed offset has not passed it |
| `Consumer.FailedMessageIsLost` | libs/events/src/consumer.rs:63-66 | A run after which a failed message is handled in no continuation |
| `Consumer.KafkaConsumer.Receive` | libs/events/src/consumer.rs:42-67 | One received message in place: skipped when unreadable, committed only after success |
| `Consumer.KafkaConsumer.Run` | libs/events/src/consumer.rs:34-70 | The receive loop over any sequence of broker and handler events, against the run function |
| `Luhn.FoldedDoubling` | libs/types/src/awb.rs:49-52 | The division-and-remainder fold is the closed form used in the proofs |
| `Luhn.WeightIsInjective` | libs/types/src/awb.rs:43-59 | Doubling modulo the fold permutes 0..33 |
| `Luhn.SubstitutionDetected` | libs/types/src/awb.rs:43-59 | Replacing any one digit by another changes the check digit |
| `Luhn.SwapDeltaVanishes` | libs/types/src/awb.rs:43-59 | Among all pairs of digits the doubling is blind to the order of 0 and 33 only |
| `Luhn.SwapDetectedExactly` | libs/types/src/awb.rs:43-59 | Swapping different neighbours changes the check digit if and only if they are not 0 and 33 |
| `Luhn.LastSwapUndetected` | libs/types/src/awb.rs:43-59 | Swapping the last payload digit with the check digit always stays valid |
| `Charset.CharsetInOrder` | libs/types/src/awb.rs:26-38 | Digits and characters correspond in the order of the charset |
| `Charset.ComputeChecksum` | libs/types/src/awb.rs:43-59 | The loop from the right computes the character that completes the sum, or reports the first offending character from the right |
| `Awbs.TenantIsCoded` | libs/types/src/awb.rs:125-136 | A tenant code is accepted exactly when its upper case lies in the charset and has three characters |
| `Awbs.SlugNeedsThreeUsable` | libs/types/src/awb.rs:167-177 | A slug yields a code exactly when it has three usable characters, namely the first three in upper case |
| `Awbs.CheckAcceptsExactly` | libs/types/src/awb.rs:215-237 | Behind the normalisation exactly the well-formed texts are accepted, unchanged |
| `Awbs.ParseAcceptsExactly` | libs/types/src/awb.rs:215-295 | The parser yields a number if and only if it is well-formed and the input is its dash or compact form up to case and surrounding spaces |
| `Awbs.BothFormsParse` | libs/types/src/awb.rs:240-295 | Both printed forms of a well-formed number parse back to it |
| `Awbs.GenerateRoundTrips` | libs/types/src/awb.rs:204-295 | For every tenant, service and sequence 1..9,999,999 both printed forms parse back to the number and all three parts are recovered |
| `Awbs.GenerateLayout` | libs/types/src/awb.rs:204-213 | What stands where in a printed number |
| `Awbs.KnownNumber` | libs/types/src/awb.rs:43-59 | The number of booking 1234 of tenant PH1 by standard service, and its compact form |
| `Awbs.ParseRefusesExactly` | libs/types/src/awb.rs:215-261 | Which error each refused text gets, in the order of the checks |
| `Awbs.GenerateIsInjective` | libs/types/src/awb.rs:204-213 | Different bookings never share a number |
| `Awbs.SequenceIsTotalExactly` | libs/types/src/awb.rs:275-278 | `sequence()` answers on an accepted number if and only if its sequence part is numeric |
| `Awbs.LetterSequenceIsAccepted` | libs/types/src/awb.rs:215-237 | An accepted number on which `sequence()` panics |
| `Typing.OneCharacterApart` | libs/types/src/awb.rs:215-237 | No two well-formed numbers differ in exactly one character |
| `Typing.TypoRejected` | libs/types/src/awb.rs:215-295 | Any single character of the dash form mistyped as any other ASCII character, up to case, is rejected |
| `Typing.CompactTypoRejected` | libs/types/src/awb.rs:245-295 | The same for the compact form |
| `Typing.SubstitutionIsAChecksumError` | libs/types/src/awb.rs:228-236 | A charset character typed for another is reported as a checksum error |
| `Typing.SwapAcceptedExactly` | libs/types/src/awb.rs:43-59 | Two different neighbours of the dash form swapped are accepted if and only if they are 0 and Z, or the last payload and the check character |
| `Typing.CompactSwapAcceptedExactly` | libs/types/src/awb.rs:43-59 | The same for the compact form, where tenant and service are neighbours too |
| `Pieces.LabelRoundTrips` | libs/types/src/awb.rs:323-364 | For every valid master and piece 1..999 the label parses back to itself and gives back master and number |
| `Pieces.NewExactly` | libs/types/src/awb.rs:323-329 | A label is made for the pieces 1..999, and what it reads |
| `Pieces.ParseChildRefuses` | libs/types/src/awb.rs:331-350 | Which error each refused label gets |
| `Pieces.LabelsAreDistinct` | libs/types/src/awb.rs:323-329 | Labels are equal only for equal master and piece |
| `Pieces.AccessorsAreSoundExactly` | libs/types/src/awb.rs:331-364 | On an accepted label both accessors are right if and only if characters 2 and 16 are dashes |
| `Pieces.SpacedLabelPanics` | libs/types/src/awb.rs:331-364 | A family of accepted labels whose piece number panics |
| `Pieces.CompactLabelHasNoMaster` | libs/types/src/awb.rs:331-364 | A family of accepted labels whose master is not a number |
| `Invoices.GenerateRoundTripsExactly` | libs/types/src/invoice.rs:120-159 | A generated number parses back to itself if and only if its year is in 2020..2099, and is an invalid format otherwise |
| `Invoices.GenerateExactly` | libs/types/src/invoice.rs:120-207 | What a number is refused for, what it reads, and what its counter key reads |
| `Invoices.TenantEdges` | libs/types/src/invoice.rs:210-215 | Letters and digits make a tenant code and the characters next to them in the code table do not |
| `Invoices.KnownNumber` | libs/types/src/invoice.rs:120-207 | Invoice 891 of tenant PH1 in April 2026 and its key |
| `Invoices.ParseRefusesExactly` | libs/types/src/invoice.rs:142-159 | Which error each refused text gets, in the order of the checks |
| `Invoices.AccessorsRecover` | libs/types/src/invoice.rs:173-196 | From year 0 on the accessors give back type, tenant, period and sequence |
| `Invoices.AcceptedNumbersAreStable` | libs/types/src/invoice.rs:142-159 | Whatever is accepted is accepted again as the same number |
| `Invoices.CanonicalExactly` | libs/types/src/invoice.rs:142-196 | An accepted number is the one generated from its own components if and only if its year, month and sequence fill 4, 2 and 5 characters without a plus sign |
| `Invoices.AccessorsAreTotal` | libs/types/src/invoice.rs:173-196 | All four accessors answer, in range, on every accepted number |
| `Invoices.KeyIsInjective` | libs/types/src/invoice.rs:199-207 | Equal counter keys mean equal type, tenant up to case, year and month |
| `Invoices.NumbersCollideExactly` | libs/types/src/invoice.rs:120-207 | Two generated numbers are equal if and only if their counter keys and their sequences are |
| `Geo.NearestNeighborOrder` | libs/geo/src/lib.rs:124-143 | The order is a permutation of all stop indices in which every entry is the lowest-indexed nearest unvisited stop from the entry before it |
| `Geo.Nearest` | libs/geo/src/lib.rs:131-134 | The selection finds the first of the nearest unvisited stops, and none exactly when all are visited |
| `Geo.GreedyIsUnique` | libs/geo/src/lib.rs:124-143 | That rule determines the order: no other order of the same length satisfies it |
| `Geo.GreedyIsPermutation` | libs/geo/src/lib.rs:124-143 | Any full-length order that obeys the rule names every stop exactly once |

## Left out

- Non-ASCII text: trimming, case mapping and slicing are modelled on ASCII, JSON values as the text they render to.
- Timestamps, ids and the confidence heuristic are arbitrary values; the store's later saves cannot fail visibly, as the program ignores their errors.
- Machine overflow outside the packing: the 32-bit checksum sum and an order of 2147483647 in a journey are not wrapped.
- PayloadIsKept: leaves out payload limits within 2^32 of 2^64 grams, where the 64-bit sum of weights could wrap; only the reported weight is shown to be within those.
- Loss of a database connection or cancellation of a task between lock and unlock, `validate_schema_ident` and sqlx's own migration runner.
- Plan confirmation races and edits of placements after confirmation: runs start from a confirmed plan with fixed placements.
- Changes to a journey during a run.
- ManifestIsExact: calls follow one another and do not fail; `ManifestNamesExactly` and `ManifestWithSavesExactly` have them interleave and fail.
- FrozenAfterDeparture: only calls that start after the departure; `DepartedTakesInExactly` has the others.
- Loadings.RunKeepsInv: the container routes only, until the arrival is recorded; `ContainerSaves` has its own, with whole-row saves.
- ManifestNamesExactly: the container routes only; `ManifestWithSavesExactly` has the whole-row saves.
- NamedLaterExactly: the container routes only; a whole-row save may also bring a missing name back, from what it read or by respelling another.
- DepartedChangesExactly: the container routes only; `DepartedTakesInExactly` has the whole-row saves and the arrival.
- Of a whole-row save, the two queries for pallets and pieces count as one statement; timestamps, the customs manifest and events after the save are not modelled.
- Permission and tenant checks of the enrol route.
- Other tables' constraints on loading (known pallets, a piece loose in one container only) in the runs of one container; the repository has them.
- ExecutorFollowsPath: covers enrolments that no later save overwrites; `RaceOverwritesExactly` says when one does.
- Partition rebalancing is a restart; log compaction and several partitions at once are not modelled.
- Floating-point rounding, NaN and the trigonometry of `haversine_km`: distances and scores are real numbers.
- HTTP routing, permissions, broadcasts, billing clearance, tracing, and the services and clients in other languages: no state of their own that these properties depend on.
