# Verified models of the Python components

This project models eleven components of the repository in Dafny and proves what they are for. Each module
stands for one source file, or for one part of a large one.

| module | component |
|---|---|
| `DurableReceiver` | the demo webhook receiver, which stores an event durably before it acknowledges it |
| `Journal` | the durable journal that workflow programs run on: keyed commits, checkpoints, crashes and replay |
| `AgentRecovery` | the bounded agent loop of the recovery example |
| `BatchController` | the batched fan-out controller of the workflow fixture |
| `MixedWorkflow` | the workflow with one local step and two branches, as a system of three workflows |
| `Fulfillment` | the fulfillment investigation, from four feeds to an approved publication |
| `LatencyHistogram` | the latency buckets of the load generator |
| `ArrivalSchedule` | its settings and its schedule of arrivals |
| `LoadDispatcher` | its open-loop dispatcher |
| `StatementDelta` | its difference of two snapshots of statement counters |
| `ControlRecord` | the parser of Debian source control records |
| `SourceArchive` | the verification and the generation of corresponding-source archives |
| `Dependencies` | the dependency closure of the Python client and the generation of its lock |
| `DecisionClient` | the approval decision command, kept in a file across retries |
| `Common` | shared values: options, results, decimal numbers |

`dafny verify dfyconfig.toml` checks the project.

## How the models are built

**Storage.** The receiver's disk is the file its name resolves to now, together with every file the name may resolve
to after a power loss. A rename adds a possible survivor, a directory fsync that succeeds leaves only the visible
file, and a directory fsync that fails settles nothing. Each system call of a request works, raises an error, or is
the point where the process dies. `Receiver.Post` is the handler's statements over that disk, proved against
`Posted`, which states the outcome of a request without the order of the statements; runs interleave requests,
deaths, restarts and power losses.

**Workflows.** The orchestrator itself is not part of this model; `Journal` states the rules that the programs rely
on. An operation with a record returns it. One without is executed, and its result is used only once committed.
A process may die at any point, before or after a commit, with the acknowledgement lost; the activation is then run
again with its committed records. `continue_`, `suspend`, `join`, `wait_event` and `request_approval` commit a
checkpoint and start a new activation. `CrashesChangeNothing` shows, for every program, that the database only ever
holds states that a run in which no process dies reaches; the results about the single programs are about runs with
crashes.
The assumptions are that a commit of a stale attempt is fenced off, that branch outcomes and wake-ups arrive as
documented, and that an approval carries the action that was saved with it.

**Statistics.** Latencies, rates and times are exact reals. The histogram is compared with the true order statistics
of all samples that were ever added.

**Texts.** Control records are parsed character by character, with the line breaks, spaces and word splitting of the
original. JSON and UTF-8 decoding of manifests and inventories, and SHA-256, are parameters; where a result needs
it, the digest is assumed to be free of collisions. Paths are parsed as the path library does.

**Files and crashes of the decision client.** Any number of invocations, with any arguments, take single steps over
one file of bytes. A power loss ends them all, and may leave of an unsynced file any beginning of its text, or
nothing; what is there afterwards is durable. A parameter says whether syncing a new file also makes its name
durable, since the client never syncs the directory. A workflow is assumed to have one immutable proposal under the
approval key where a result says so (docs/workflow-approvals.md:343-345).

**Corollaries.** `RedeliveryBindsNothing` (an identical redelivery binds nothing, a conflicting one is refused),
`FailedChildNeverCompletes` (nothing commits while a child has no result), `ClosureIsTheNeeded` (a closure is what every
closed set has) and `SafeSendsOneCommand` (in a safe state all sent commands are one) follow from a definition each,
and are stated for reference.

## What does not hold

Four properties that one might expect fail; each has an input or a run, and an exact condition, here.

* *Every decision that is sent is the command in the decision file, across power losses.* It holds exactly as long
  as no power loss takes a sent command away (`SafeExactlyWithoutHarm`), which no power loss can do exactly when the
  text and the name of the file are durable (`HarmlessExactlyWhenDurable`). An invocation that finds the file before
  its writer has synced it sends the command at once. After a power loss, an invocation with other arguments can
  then send its own: approve first, and reject afterwards (`EarlyReaderCanBreak`). It finds the approval still pending
  only when the first send was not accepted, because it was lost or late. Where syncing a file does not make
  its name durable, one invocation at a time is enough (`VanishedNameCanBreak`). While only durable commands are sent
  it holds (`DurableSendsAreSafe`). With the same arguments it cannot come to two commands: a workflow has one
  immutable proposal under the key, so that two sends carry the same command exactly when their arguments are the
  same, whatever dies and whatever is lost (`SameArgumentsSameCommand`).
* *A sent command can be sent again.* An invocation that measures the whole file can send it exactly when the text
  that it measured is at most 32 KiB (`ResendsExactlyWhenMeasuredSmall`), and every command that is read was measured
  so before (`ReadWasMeasuredSmall`). The size is checked before the file is read, and not when it is written: a
  larger command is sent by its writer, and again only by an invocation that measured the file while it was still
  short (`EarlyMeasurerResends`).
* *A control record says the same bare and inside a signed message.* The parser unescapes after it has split at every
  line break that Python knows, and not at line feeds only. It reads the same lines exactly when no later piece of a
  line begins with "- " (`SignedLinesAreBareLines`), and then the answers agree (`SignedParsesLikeBare`). A vertical
  tab in a line is enough to hide a field from one of the two readings (`SignedRecordCanDiffer`). A signed message
  with CR LF line ends is refused, as it has no two line feeds in a row (`CrLfMessageIsRefused`).
* *A manifest pins the whole archive.* It pins everything but the readme (`ManifestPinsContents`), which can be
  replaced freely (`ReadmeIsFree`).

## Model

| member | source | states |
|---|---|---|
| `DurableReceiver.Receiver.constructor` | deploy/local/receiver.py:16-16 | Loading the module reads the bindings of the stored file, and memory then equals the visible store. |
| `DurableReceiver.Receiver.Post` | deploy/local/receiver.py:32-74 | For every request and every way its system calls may end: the reply, the visible file, what a power loss may leave, memory and liveness are those of `Posted`. |
| `DurableReceiver.Receiver.WriteTemporary` | deploy/local/receiver.py:54-59 | A temporary file is handed to the rename only when it was opened, written, synced and closed without an error, and then holds exactly the new bindings. |
| `DurableReceiver.Receiver.SyncDirectory` | deploy/local/receiver.py:64-69 | The barrier settles the visible file exactly when the directory was opened and synced; a later failing close changes the reply only. |
| `DurableReceiver.StepKeepsInv` | deploy/local/receiver.py:49-69 | Requests, deaths, restarts and power losses keep: every possible survivor is a readable synced store, and a live memory equals the visible store. |
| `DurableReceiver.RunKeepsInv` | deploy/local/receiver.py:16-69 | The same for every state of every run. |
| `DurableReceiver.KeyIsInjective` | deploy/local/receiver.py:47-47 | Two admitted events have the same key exactly when they have the same id. |
| `DurableReceiver.AcknowledgedIsDurable` | deploy/local/receiver.py:64-70 | An answer of 204, also one that came from a retried barrier, is given only when no later start can lack the event. |
| `DurableReceiver.StepKeepsDurable` | deploy/local/receiver.py:49-69 | No request, death, restart or power loss unbinds, replaces or makes losable an event that no later start can lack. |
| `DurableReceiver.AcknowledgedSurvives` | deploy/local/receiver.py:46-70 | After an acknowledgement, in every later state of every run, every store a restart can load holds the same event. |
| `DurableReceiver.DurableExactlyAfterBarrier` | deploy/local/receiver.py:61-70 | A request makes its event durable if and only if it was durable before or the request passed the barrier with the event bound. |
| `DurableReceiver.VisibleBindingStays` | deploy/local/receiver.py:49-63 | While there is no power loss, no step changes a visible binding. |
| `DurableReceiver.CapacityIsKept` | deploy/local/receiver.py:51-53 | A run started with at most 256 bindings never has more, in memory or in any possible survivor. |
| `DurableReceiver.NewEventIsAccepted` | deploy/local/receiver.py:51-70 | When every call works the answer is 204 if and only if the event neither conflicts nor meets a full store, and then it is bound and settled. |
| `Journal.StepKeepsInv` | examples/agent-recovery/check.py:19-37 | Executions, commits with or without an acknowledgement, checkpoints and deaths keep: the database is what a crash-free log leads to, and a live attempt sees exactly its journal. |
| `Journal.CrashesAreInvisible` | examples/agent-recovery/check.py:39-64 | For every program: wherever processes die and whatever lost executions returned, the database is what a log of permitted commits leads to. |
| `Journal.LegalLogRunsSmoothly` | examples/agent-recovery/check.py:19-37 | Every log of permitted commits is the log of a run without a crash and with every commit acknowledged. |
| `Journal.CrashesChangeNothing` | examples/agent-recovery/check.py:39-64 | Every state that a run with crashes commits is committed, entry by entry, by a run in which no process dies. |
| `Journal.RunsOn` | examples/agent-recovery/check.py:39-64 | Any run can go on with any permitted continuation of its log, by a new process after whatever was live has died. |
| `Journal.RecordsAreAnswered` | examples/agent-recovery/program.py:52-55 | Every journaled record holds a value that its operation may return for the request it is bound to. |
| `Journal.KeyCommitsOnce` | examples/agent-recovery/check.py:39-64 | Within an activation a key commits at most once, whatever is executed again. |
| `AgentRecovery.FinishedRunIsTheConversation` | examples/agent-recovery/program.py:39-71 | For any adapter and any crashes: the checkpoint is a prefix of the one conversation over the committed responses, with 1 + 2 * round messages, and a result is that conversation's result. |
| `AgentRecovery.SameResponsesSameResult` | examples/agent-recovery/program.py:39-71 | Two runs with the same committed responses finish with the same result, however their processes died. |
| `AgentRecovery.CommittedResponses` | examples/agent-recovery/program.py:52-64 | The log of every run is explained by one model response and one tool result for each round. |
| `AgentRecovery.CommitsAreBounded` | examples/agent-recovery/program.py:49-71 | At most MAX_TURNS model commits, MAX_TURNS tool commits and MAX_TURNS checkpoints, over all attempts of a run together. |
| `AgentRecovery.KeysCommitOnce` | examples/agent-recovery/program.py:52-64 | No key commits twice in a whole run, across activations too. |
| `AgentRecovery.ReplayNeverMismatches` | examples/agent-recovery/program.py:52-64 | Replay never meets a record bound to another request: an activation raises if and only if the journaled call is of the tool with arguments that do not bind. |
| `AgentRecovery.CanFinishUnlessUnbindable` | examples/agent-recovery/program.py:39-71 | From every reachable state of every run some continuation has a result, if and only if the run is not at such a call. |
| `AgentRecovery.InvalidInputCallsNothing` | examples/agent-recovery/program.py:41-44 | With an invalid order id no operation is ever committed, and the run can only fail as invalid input. |
| `AgentRecovery.ScriptedRunAnswers` | examples/agent-recovery/program.py:21-36 | With the scripted model and the fixture tool a valid run can only finish with the documented answer after two turns. |
| `BatchController.Distributed` | tools/check-workflows.py:91-103 | The loop of one activation computes the checkpoint, the total and the batch of the controller's specification, and raises for a missing result. |
| `BatchController.SumIsTotal` | tools/check-workflows.py:94-97 | The per-batch sums add up to the total over all items up to the offset. |
| `BatchController.FanOutIsExact` | tools/check-workflows.py:91-103 | For every count, under crashes and replays: items are launched once each in order, at most 50 are awaited together, and a finished run used ceil(count/50) + 1 activations. |
| `BatchController.CommittedResults` | tools/check-workflows.py:95-97 | The results that came back are those of one function of the item, for every log: no item is awaited twice. |
| `BatchController.ReportedIsTheSum` | tools/check-workflows.py:94-99 | A finished run reports the sum of the results of all its items, one for each. |
| `BatchController.IndicesAddUp` | tools/check-workflows.py:97-99 | When every child returns its index, a finished run reports count * (count - 1) / 2. |
| `MixedWorkflow.MoveKeepsInv` | examples/mixed-workflow/program.py:32-83 | Every move of the parent, of a branch, of the timer and of a failing or cancelled branch keeps the system invariant. |
| `MixedWorkflow.CompletedIsExact` | examples/mixed-workflow/program.py:18-83 | Under every interleaving and every crash, a completed run has count, sum, twice and three times the sum of the validated input, with a sum within 10^9, and both branches succeeded. |
| `MixedWorkflow.ClosedBranchNeverCompletes` | examples/mixed-workflow/program.py:73-80 | Once a branch failed or was cancelled the parent can only finish as failed, in that and every later state. |
| `MixedWorkflow.CompletesUnlessClosed` | examples/mixed-workflow/program.py:32-83 | From every reachable unfinished state some continuation completes, if and only if the input is valid and no branch has failed or was cancelled. |
| `MixedWorkflow.SchedulesAgree` | examples/mixed-workflow/program.py:32-83 | Two completed runs on one input have the same output: the schedule never decides it. |
| `MixedWorkflow.SumIsBounded` | examples/mixed-workflow/program.py:22-24 | The sum of values within a bound is within the bound times their number. |
| `Fulfillment.Filled` | examples/fulfillment-investigator/program.py:89-91 | Gathering keeps the earlier receipts and puts the new ones over them, source by source. |
| `Fulfillment.FillReceipts` | examples/fulfillment-investigator/program.py:89-91 | The loop over the sources computes exactly that map. |
| `Fulfillment.FilledIsGathered` | examples/fulfillment-investigator/program.py:84-93 | After an initial round every feed has its own initial receipt; after a correction the warehouse has the corrected one. |
| `Fulfillment.ToolRoundKeepsAgent` | examples/fulfillment-investigator/program.py:165-181 | A tool round keeps: distinct call ids, one per round, one tool message each, all of them evidence of the pinned snapshot. |
| `Fulfillment.EveryStepIsLegitimate` | examples/fulfillment-investigator/program.py:66-217 | Whatever any entrypoint commits, parks at or finishes with follows the edges of the workflow and keeps its checkpoint well formed. |
| `Fulfillment.LogKeepsTrack` | examples/fulfillment-investigator/program.py:66-217 | Every log of the workflow keeps the fork, snapshot, transcript, wait and activation counts that the results below read off. |
| `Fulfillment.PublishedIsApprovedAndInvestigated` | examples/fulfillment-investigator/program.py:184-217 | A published run published the approved candidate, which is the reviewed one, built from the only ready snapshot with its evidence for every topic, after an agent turn had read all of it. |
| `Fulfillment.PublishedRunExists` | examples/fulfillment-investigator/program.py:66-217 | Every report that the verification accepts is published by some run. |
| `Fulfillment.AgentStatesAreConsistent` | examples/fulfillment-investigator/program.py:154-181 | In every reachable agent state call ids are distinct and round, call ids and tool messages are equally many, with evidence of the one snapshot only. |
| `Fulfillment.CoordinationIsBounded` | examples/fulfillment-investigator/program.py:54-130 | Under crashes: at most one wait for a correction, each fork key once, one ready snapshot, and at most MAX_TURNS + 6 activations. |
| `Fulfillment.AssembledFromEveryReceipt` | examples/fulfillment-investigator/program.py:89-93 | Whenever a snapshot is assembled every feed has its receipt, with the corrected warehouse one exactly when the correction was forked. |
| `LatencyHistogram.Histogram.constructor` | tools/check-performance.py:53-56 | An empty histogram describes no samples. |
| `LatencyHistogram.Histogram.Add` | tools/check-performance.py:58-65 | A nonnegative value is added to the described samples, with every bucket count, count, total, minimum and maximum; a negative one changes nothing. |
| `LatencyHistogram.Histogram.Quantile` | tools/check-performance.py:68-74 | The bucket loop returns None without samples, and else the reported value of the order statistic of rank ceil(count * fraction). |
| `LatencyHistogram.Histogram.Summarize` | tools/check-performance.py:67-78 | The summary has the count, minimum, maximum and mean of the samples, and the quantiles for 0.5, 0.95 and 0.99, which are in order. |
| `LatencyHistogram.RankOfOrderStatistic` | tools/check-performance.py:67-74 | At least rank samples are at most the order statistic and fewer than rank are below it. |
| `LatencyHistogram.FirstBucketReached` | tools/check-performance.py:70-73 | The first bucket whose cumulative count reaches the rank is the bucket of the order statistic. |
| `LatencyHistogram.ReportedIsTight` | tools/check-performance.py:52-74 | Each reported quantile is at least the true order statistic, and less than 1.1 times it above 0.01 and below the overflow bucket. |
| `LatencyHistogram.ReportedIsMonotone` | tools/check-performance.py:67-78 | A higher fraction never reports a lower value. |
| `LatencyHistogram.BucketsAddUp` | tools/check-performance.py:61-62 | The bucket counts add up to the number of samples. |
| `ArrivalSchedule.GenerateArrivals` | tools/check-performance.py:90-95 | The generator yields the offsets of all phases, and its last filter never drops one. |
| `ArrivalSchedule.OffsetBeforeEnd` | tools/check-performance.py:92-95 | Every arrival that a phase counts lies inside that phase. |
| `ArrivalSchedule.ScheduleIsExact` | tools/check-performance.py:81-123 | For validated settings there are exactly as many arrivals as validation counted, strictly increasing across phases, all in [0, duration). |
| `ArrivalSchedule.SpacingInPhase` | tools/check-performance.py:93-93 | Consecutive arrivals of a phase are next to one another in the schedule and exactly 1/rate apart. |
| `ArrivalSchedule.ChainIncreases` | tools/check-performance.py:90-95 | Offsets increase over any chain of phases without gaps, and are as many as the phases count. |
| `LoadDispatcher.Load.Collect` | tools/check-performance.py:223-232 | Finished submissions leave the pending set with one journal row each, taken from what they returned, and the conservation laws are kept; an exception aborts. |
| `LoadDispatcher.Load.Take` | tools/check-performance.py:224-232 | One finished submission is recorded; an exception aborts before anything is counted, and a latency that cannot be sampled after its kind was counted. |
| `LoadDispatcher.Load.Record` | tools/check-performance.py:227-232 | One result is counted under its kind, sampled, journaled and forgotten. |
| `LoadDispatcher.Load.Offer` | tools/check-performance.py:242-253 | One arrival is dropped for lateness, dropped for want of a submitter, or submitted once, with the counters of exactly that case. |
| `LoadDispatcher.Load.TakeTurn` | tools/check-performance.py:236-253 | One turn of the arrival loop keeps the laws, records its delay, and counts it late or sends it only within the limit. |
| `LoadDispatcher.Load.OfferAll` | tools/check-performance.py:235-253 | Every arrival is offered once, in order, with its own delay; exactly the late ones are counted as such, and none of them is sent. |
| `LoadDispatcher.Load.Drain` | tools/check-performance.py:260-263 | Waiting for the rest keeps the conservation laws. |
| `LoadDispatcher.Load.Run` | tools/check-performance.py:216-266 | A normal return has offered every arrival and leaves nothing pending; its report is `Complete`. |
| `LoadDispatcher.NothingPendingIsComplete` | tools/check-performance.py:260-266 | With nothing pending: offered = sent + dropped, sent = accepted + error + uncertain = rows = latency samples = distinct submissions. |
| `LoadDispatcher.RowsAreDistinct` | tools/check-performance.py:229-232 | No submission has two journal rows. |
| `LoadDispatcher.RecordIsConsistent` | tools/check-performance.py:223-232 | Recording keeps the balance of the counters, the tally of the journal and the place of every submission. |
| `LoadDispatcher.SendIsConsistent` | tools/check-performance.py:250-253 | Sending keeps them, with the in-flight maximum within the submitters. |
| `LoadDispatcher.KindsPartition` | tools/check-performance.py:228-229 | Accepted, error and uncertain rows partition the journal. |
| `StatementDelta.StatementDelta` | tools/check-performance.py:334-373 | The reasons are what went wrong between the snapshots, completeness is their absence, and totals exist exactly then and are the second snapshot's sums minus the first's. |
| `StatementDelta.MovedRows` | tools/check-performance.py:351-361 | The loop finds exactly the moved statements, and notices every reset and every decrease. |
| `StatementDelta.KeyedSize` | tools/check-performance.py:338-348 | The dictionary is as long as the list if and only if no identity is repeated. |
| `StatementDelta.CompleteTotals` | tools/check-performance.py:352-368 | The sorted rows of a complete delta add up to the difference of the two snapshots. |
| `StatementDelta.CompleteDeltasCompose` | tools/check-performance.py:340-363 | Complete deltas from a to b and from b to c make a complete delta from a to c, whose totals add. |
| `StatementDelta.RowsAreTheMoved` | tools/check-performance.py:356-362 | A row is reported if and only if its statement's counters moved, with exactly that difference. |
| `StatementDelta.SortDescends` | tools/check-performance.py:362-362 | The rows are sorted by descending total time. |
| `StatementDelta.SortKeepsEach` | tools/check-performance.py:362-362 | The sort keeps every row as often as it occurs. |
| `StatementDelta.SortIsStable` | tools/check-performance.py:362-362 | The sort keeps rows of one total time in their order. |
| `ControlRecord.ParseDsc` | deploy/distribution/image_sources.py:142-177 | The parser's two loops compute `Parsed`, refusals included. |
| `ControlRecord.UnwrapUndoesWrapping` | deploy/distribution/image_sources.py:147-150 | Unwrapping the dash-escaped signed form (section 7.1 of RFC 4880) of a record gives its received lines: lines that end at line feeds, whatever other breaks they hold, when none contains the signature marker. |
| `ControlRecord.ReceivedAsGiven` | deploy/distribution/image_sources.py:150-153 | The received lines are the lines that the parser makes of the bare record if and only if no later piece of a line looks escaped. |
| `ControlRecord.SignedLinesAreBareLines` | deploy/distribution/image_sources.py:146-153 | Bare and inside a signed message the parser reads the same lines, but for a blank last one, if and only if that holds. |
| `ControlRecord.SignedParsesLikeBare` | deploy/distribution/image_sources.py:146-177 | Then the answers are the same, refusals included. |
| `ControlRecord.OneLineIsIntact` | deploy/distribution/image_sources.py:150-153 | A line without another break, also one that ends in CR LF, meets the condition. |
| `ControlRecord.SignedRecordCanDiffer` | deploy/distribution/image_sources.py:146-177 | Records that are refused bare and accepted inside a signed message, since a vertical tab makes a piece that is unescaped though it was never escaped. |
| `ControlRecord.CrLfMessageIsRefused` | deploy/distribution/image_sources.py:147-148 | A signed message whose line feeds all follow a carriage return is refused. |
| `ControlRecord.RenderedRecordParses` | deploy/distribution/image_sources.py:151-177 | Rendering a package, a version and its payloads as a record and parsing it returns the same payloads. |
| `ControlRecord.DebianFormatIsValid` | deploy/distribution/image_sources.py:147-167 | The markers and field names that the parser is written with satisfy what the results above ask of them. |
| `SourceArchive.ReadMembers` | deploy/distribution/image_sources.py:369-392 | The loop accepts exactly the readable archives, and collects the size and digest of every member and the content of the metadata. |
| `SourceArchive.ValidNameMeans` | deploy/distribution/image_sources.py:376-379 | A name is valid if and only if it has no backslash and no component that is empty, a dot or two dots. |
| `SourceArchive.ReadRecords` | deploy/distribution/image_sources.py:405-413 | The loop accepts exactly the lists of valid records with distinct paths, and collects those paths. |
| `SourceArchive.CheckPayloads` | deploy/distribution/image_sources.py:416-417 | Agreement means that every record has the size and digest that was observed. |
| `SourceArchive.CheckSources` | deploy/distribution/image_sources.py:433-440 | Agreement means that every source has one control record, which declares exactly its other files. |
| `SourceArchive.CheckPins` | deploy/distribution/image_sources.py:405-420 | The records pass if and only if they and the reserved names are all the files, each with its true size and digest. |
| `SourceArchive.CheckManifest` | deploy/distribution/image_sources.py:397-441 | The manifest passes if and only if it describes the files: complete, pinned, covering the inventory, with agreeing control records. |
| `SourceArchive.VerifyArchive` | deploy/distribution/image_sources.py:364-441 | The check accepts an archive if and only if it is acceptable, and returns its manifest and its inventory. |
| `SourceArchive.ManifestPinsContents` | deploy/distribution/image_sources.py:393-417 | With a collision-free digest, accepted archives with one manifest have the same members and the same contents but for the readme. |
| `SourceArchive.ReservedNamesAreSound` | deploy/distribution/image_sources.py:368-385 | The reserved names differ and the readme is no metadata, as the results about replacing it ask. |
| `SourceArchive.ReadmeIsFree` | deploy/distribution/image_sources.py:368-368 | In an accepted archive the content of the readme may be replaced by anything, and the archive is still accepted. |
| `SourceArchive.EveryPackageHasItsSource` | deploy/distribution/image_sources.py:421-440 | In an accepted archive every installed package has its source, whose control record is there, with every payload it declares present in size and digest. |
| `SourceArchive.ArchiveTree` | deploy/distribution/image_sources.py:229-240 | The loop makes one regular member of every file of the tree, and none of a directory. |
| `SourceArchive.ArchivedIsReadable` | deploy/distribution/image_sources.py:229-240 | The archive of a tree is readable if and only if the tree lists each file once, with valid names and small metadata, and it has the tree's contents. |
| `SourceArchive.ArchivedTreeIsAccepted` | deploy/distribution/image_sources.py:229-441 | The archive of a tree is accepted if and only if the tree can be listed and its manifest describes it. |
| `Dependencies.SatisfiesEvery` | tools/check-python-client-dependencies.py:65-76 | A version satisfies a specification if and only if it meets every bound of it. |
| `Dependencies.ArtifactForIsTheOne` | tools/check-python-client-dependencies.py:110-113 | The wheel of a target is the only artifact that serves it. |
| `Dependencies.Closure` | tools/check-python-client-dependencies.py:116-138 | The worklist ends on every graph; it returns the least closed set, with only acceptable packages, or fails for a needed package that is not acceptable. |
| `Dependencies.ClosureIsUnique` | tools/check-python-client-dependencies.py:118-138 | There is at most one such set, and no failure beside it: the order of the worklist does not matter. |
| `Dependencies.ClosureIsCompatible` | tools/check-python-client-dependencies.py:123-137 | Every member has one wheel, supports the target's Python, and has each active requirement met by a pinned member. |
| `Dependencies.BelowApplies` | tools/check-python-client-dependencies.py:79-107 | A marker of a Python version below a limit applies exactly on the targets below the limit. |
| `Dependencies.LineApplies` | tools/check-python-client-dependencies.py:151-155 | The line of a package applies on exactly the reviewed targets that selected it. |
| `Dependencies.LineHashes` | tools/check-python-client-dependencies.py:156-157 | The hashes of a line are exactly those of the wheels that its targets select. |
| `Dependencies.SelectAll` | tools/check-python-client-dependencies.py:142-142 | The selections are the closures of all the targets, or the lock is impossible. |
| `Dependencies.LockText` | tools/check-python-client-dependencies.py:141-158 | A lock is generated if and only if every needed package is acceptable and needed on a reviewed choice of targets; its lines are sorted, one for each needed package; a repeated package name keeps the last. |
| `Dependencies.LockNamesTheClosure` | tools/check-python-client-dependencies.py:149-157 | On every locked target the lines that apply name exactly the closure of that target. |
| `Dependencies.LockHashesAreSelected` | tools/check-python-client-dependencies.py:156-157 | Each line holds the hash of the wheel that each of its targets selects, and no other. |
| `DecisionClient.DecisionFile.Decide` | examples/fulfillment-investigator/client.py:77-103 | One invocation: an existing file is never changed, a command is sent only when the whole of it is in the file and agrees with the arguments, and exactly when is stated for both branches. |
| `DecisionClient.CompleteIsReadable` | sdk/python-client/src/ledgence/client/workflows.py:292-318 | Reading gives the command exactly when at most the final newline is missing and the workflow is the handle's. |
| `DecisionClient.SameArgumentsSameCommand` | examples/fulfillment-investigator/client.py:77-103 | With one proposal for each workflow, in every run with any deaths and power losses, a sent command is fixed by the arguments of its sender: two sends carry the same command if and only if their arguments are the same. |
| `DecisionClient.StepKeepsTied` | examples/fulfillment-investigator/client.py:87-99 | Every step keeps the file, every command in the making and every command sent tied to the proposal of their workflow. |
| `DecisionClient.ResendsExactlyWhenMeasuredSmall` | examples/fulfillment-investigator/client.py:80-102 | An invocation that measures a whole matching command can come to send it, in some run, if and only if the measured text is at most 32 KiB. |
| `DecisionClient.ReadWasMeasuredSmall` | examples/fulfillment-investigator/client.py:80-83 | In every run an invocation that read the file had measured at most 32 KiB before. |
| `DecisionClient.EarlyMeasurerResends` | examples/fulfillment-investigator/client.py:80-102 | A run without power loss in which a command of any size is sent twice, since the second sender measured the file while it was short. |
| `DecisionClient.StepKeepsInv` | examples/fulfillment-investigator/client.py:77-103 | Every step of any of the invocations keeps: one writer at most, whose command is the file's, and everything loaded or sent is the command in the file. |
| `DecisionClient.SafeExactlyWithoutHarm` | examples/fulfillment-investigator/client.py:77-103 | In every run, every sent command is the one in the file and agrees with its sender, if and only if no power loss takes away a command that was sent. |
| `DecisionClient.HarmlessExactlyWhenDurable` | examples/fulfillment-investigator/client.py:89-103 | Once a command was sent, no power loss can do harm if and only if the text and the name of the file are durable. |
| `DecisionClient.DurableSendsAreSafe` | examples/fulfillment-investigator/client.py:89-103 | While only commands in a durable file are sent, no power loss does harm. |
| `DecisionClient.SyncedIsDurable` | examples/fulfillment-investigator/client.py:90-94 | Where syncing makes the name durable, a file is durable as soon as it is synced, in every run. |
| `DecisionClient.CanFinish` | examples/fulfillment-investigator/client.py:91-102 | A writer that got its whole text out can sync and send. |
| `DecisionClient.CanResend` | examples/fulfillment-investigator/client.py:80-102 | A new invocation that finds a whole small command sends it, without a fetch. |
| `DecisionClient.LossAllowsAnotherCommand` | examples/fulfillment-investigator/client.py:80-102 | Once the file is lost, an invocation can send the command of its own arguments for the same proposal. |
| `DecisionClient.EarlyReaderCanBreak` | examples/fulfillment-investigator/client.py:80-102 | For any two different arguments, one proposal and a first text within the limit, an early reader and a power loss lead to two different commands: an unsafe run. |
| `DecisionClient.VanishedNameCanBreak` | examples/fulfillment-investigator/client.py:89-102 | Where names are not durable, synced sends alone lead to two different commands: an unsafe run. |

## Left out

- The orchestrator, the workers, their leases and the database: `Journal` states their contract, and assumes that a
  commit of an attempt that lost its lease is refused.
- Sockets, HTTP, clocks, threads, subprocesses and SQL: they are inputs, or steps in any order.
- A reply that cannot be written, and the receiver's GET pages.
- Rounding, NaN and infinities of floating-point numbers: latencies, rates, delays and times are exact reals.
- JSON text: bodies, manifests, inventories and saved commands are values, with their canonical equality; of the
  decision file it is assumed that a proper beginning of the text is not readable, but for the missing final newline.
- `validate_inventory`, `collect_debian`, `Downloader` and `restore_seed`, and the staging of payloads by
  `verify_archive`: reading an inventory is a parameter that fails when it is not valid.
- Compression and the tar format: an archive is the sequence of its members, and a tree holds no links.
- Digits outside ASCII, which Python's `isdigit` and `\d` accept too.
- The syntax of requirements and markers: they are parsed values, with a case for syntax that was not reviewed.
- The rest of `check_inventory`: each of its checks is settled by reading one line.
- The helpers of the fulfillment package: assembling, analysing and building a candidate are operations that return
  any value of their kind, and the quality counters of a snapshot other than the named ones are one number.
- The settings of the metrics endpoint and of the delivery queue.
- The HTTP classification in `Submitter`: a submission ends with one of its three kinds, or raises.
- The server of a decision: it is not saved in the file, so that one command may be sent to two servers.
- `examples/codex-change-review` and the other acceptance scripts, whose claims are settled by reading one branch.
- LoadDispatcher.Load.Drain: ends with the record of polls that it is given, because waiting for a reply has no
  bound of its own; `Load.Run` then reports that submissions are still pending.
- ControlRecord.ParseDsc: starts from the decoded text, and takes ASCII digits only for a size.
- SourceArchive.VerifyArchive: does not stage payloads, and takes the reading of manifest and inventory as parameters.
- SourceArchive.ArchiveTree: takes the entries in the order of the traversal, and leaves out the normalised owner,
  time and mode of a member, which the verification does not look at.
- Dependencies.SatisfiesEvery: starts from the bounds of a specification, parsed from its text.
- Dependencies.LockText: returns the lines as values, in order, and not their rendering.
- DecisionClient.DecisionFile.Decide: takes a workflow and its scope as one name, and leaves out the server.
- DecisionClient.CompleteIsReadable: has the checks of the fields of a saved command inside the reading of its text.
