# A verified model of Distributed WBPP's cluster logic

Distributed WBPP spreads one image-processing run over several PCs. A server grafts itself onto the
pre-processing engine, keeps a share of the frames, and hands the rest to workers through a small agent.
This project models the decisions that make such a run correct and proves properties of them:

- two schedulers: whole integrations placed greedily on machines (`Scheduling`), and frames split by
  largest remainder between workers (`Sharding`) and by learned cost between server and cluster
  (`Smoothing`, `AdaptiveSplit`);
- the lease and pull protocol, as a transition system of one worker (`PullQueue`) and of the whole cluster
  (`Routing`), proved over every run;
- the fallback state machines: which frames of a group succeed (`FrameFate`), what a pass over the operation
  queue with look-ahead batches completes, how often and in which order (`QueuePass`), who measures a frame
  and what the counters say (`Measurements`), and the fan-out of one job (`FanOut`);
- caches and windows against a simple specification: the replay cache (`ReplayWindow`), the peer registry
  (`Registry`) and the checksum-cached transfers (`DataStore`);
- data transformations: the byte shuffle (`ByteShuffle`) and process descriptions (`ProcessSerializer`).

Code that updates state in place is modelled by classes and loops, each proved equal to a specification
function; the properties are lemmas about those functions. `dafny verify dfyconfig.toml` checks everything.

## How to read the model

- Numbers: real numbers stand for floating point. The greedy scheduler counts in tenths of a worker frame, so
  the factor 0.7 of the server is 7 against 10. Job sizes are unbounded integers.
- The world: native executions, captures, waits, finalizers, the disk and the network are inputs. They are
  recorded in one value per run (`World`, `Queue`, `Outcome`, `Fault`), and every lemma holds for all of them.
- Hashes and signatures: a checksum stands for the bytes it was computed from, signatures cannot be forged,
  and the compressor is lossless wherever a round trip is stated.
- Atomicity: a method of a class is one section that nothing interrupts. A run of `ReplayWindow` lists the
  sections that own the cache in their order; each brings the clock value read before it, so these values may
  be out of order. Where a lemma needs them in order, or nearly, it says so.
- Routing: the calm runs of `Routing` are those in which a send returns only after the worker's call has
  returned, at most one sharded job is in flight, sharded and whole jobs carry different operations, and one
  node id is one worker. `PullQueue` drops all of these.
- `QueuePass` takes native runs not to throw. Capture attempts are not completions.

Where the code and its own words disagree, the model follows the code:

- "We never lose frames" holds unless the wait for the cluster returns normally and not one client output is
  there: the repair pass runs only when some outputs are present (`FrameFate.NoFrameLostUnlessAbandoned`, with
  a lost frame in `FrameFate.AbandonedFrameFails`).
- A call that times out can hand its late report to a newer call under the same job id; exactly which ids are
  safe is `PullQueue.RoutingIsRightIffNoIdTwice`.
- An upload skipped by the checksum cache leaves an old `<name>.part` behind, which an upload would have
  removed (`DataStore.SkippedPushKeepsOldPart`; exactly when the stores agree is
  `DataStore.CacheEqualsUploadAll`). An encoded upload that decodes but cannot be written leaves one too, though
  the handler says nothing is kept on failure (`DataStore.HalfWrittenPartStays`; exactly when is
  `DataStore.NothingIsKeptUnless`).
- A file named as the part of a file sent after it is lost (`DataStore.PartNamedFileIsLost`; exactly when a file
  holds is `DataStore.FileHoldsExactly`).
- The measurement counters drop the cache hits of the leftover and fallback passes, and count a client's
  frames twice when the leftover pass throws (`Measurements.CountersAgainstFrames`, with
  `Measurements.CacheHitsAreDropped` and `Measurements.OneFrameCountedTwice`).
- If calibration operations are left out of the distribution, a flat calibration gathered into a batch runs
  again at its own turn (`QueuePass.EveryOperationCompletesOnce`).
- Pruning is invisible to reads, but not to the "new peer" answer of an announcement
  (`Registry.AnnouncedAsNew`).
- A table row that is a string is sent as a row of its letters (`ProcessSerializer.StringRowBecomesLetters`).

## Model

| member | source | states |
|---|---|---|
| Scheduling.GreedyWithinTwelveSevenths | pjsr/lib/WBPPShim.js:535-550 | for every batch and every other assignment to the same machines, 7 times the greedy makespan is at most 12 times the other's |
| Scheduling.AnyOrderWithinSeventeenSevenths | pjsr/lib/WBPPShim.js:542-549 | without the sort, feeding the cheapest machine in any order stays within 17/7 |
| Scheduling.AssignMachines | pjsr/lib/WBPPShim.js:535-550 | the scheduler's loops give a greedy assignment: largest job first, each to the first cheapest machine |
| Scheduling.SortBatch | pjsr/lib/WBPPShim.js:541 | the order is a permutation of the batch by descending size, equal sizes in batch order |
| Scheduling.LargestFirst | pjsr/lib/WBPPShim.js:541-542 | a larger job is placed before a smaller one, and equal jobs in batch order |
| Scheduling.CheapestMachine | pjsr/lib/WBPPShim.js:544-546 | the chosen machine costs no more than any, and strictly less than every machine before it |
| Scheduling.TurnExtendsRun | pjsr/lib/WBPPShim.js:542-549 | placing one job keeps the run greedy and changes only the chosen machine's load |
| Scheduling.CheapestBelowAnyMakespan | pjsr/lib/WBPPShim.js:544-546 | by averaging, the cheapest machine at any moment costs no more than any assignment's makespan |
| Scheduling.DoublingUp | pjsr/lib/WBPPShim.js:541-549 | by pigeonhole on the sorted order, once every machine is busy any assignment puts two jobs as large as the next one together |
| Scheduling.TurnWithinBound | pjsr/lib/WBPPShim.js:542-549 | one turn keeps the chosen machine within 12/7 of any assignment |
| Scheduling.LoadsAddUp | pjsr/lib/WBPPShim.js:548 | the machines' loads add up to the frames of the jobs placed |
| Scheduling.GreedyCanMissTheOptimum | pjsr/lib/WBPPShim.js:535-550 | a batch of three jobs on which greedy needs 4/3 of the best makespan |
| Sharding.LargestRemainderIsOptimal | sidecar/weighting.go:59-78 | among all integer vectors with the same sum, the counts minimise the sum of squared deviations from the exact shares |
| Sharding.CountsMeetQuota | sidecar/weighting.go:59-78 | every count is the floor or the ceiling of its exact share |
| Sharding.LargestRemainderIsUnique | sidecar/weighting.go:68-78 | the remainder rule with its tie-break determines the counts |
| Sharding.FasterNeverGetsFewer | sidecar/weighting.go:59-78 | a worker with a larger share never gets fewer inputs |
| Sharding.EarlierGetsTheSpare | sidecar/weighting.go:68-78 | of two workers with equal shares the earlier one gets the spare input |
| Sharding.SharesFollowThroughput | sidecar/weighting.go:48-78 | the throughput table alone decides: shares of measured workers are as their rates, an unmeasured worker counts as one at one frame per second, the shares add up to all inputs, and every count is less than one away from its share |
| Sharding.FasterWorkersGetMore | sidecar/weighting.go:48-78 | a worker measured strictly faster than another never gets fewer inputs |
| Sharding.TwiceAsFastGetsTwiceAsMany | sidecar/weighting.go:48-78 | nine inputs for rates two and one can only be cut into six and three |
| Sharding.SharesAddUp | sidecar/weighting.go:48-67 | the exact shares add up to the number of inputs |
| Sharding.LeftoverBound | sidecar/weighting.go:61-68 | rounding down leaves at least 0 and fewer than n inputs for the remainder loop |
| Sharding.SomeoneNotRoundedUp | sidecar/weighting.go:68-78 | while inputs are left over, some worker has not been rounded up, so the loop never picks one twice |
| Sharding.Throughput.RoundDown | sidecar/weighting.go:56-67 | whole parts and fractions of the exact shares, and how much is given |
| Sharding.Throughput.Counts | sidecar/weighting.go:59-78 | the two loops end with the largest-remainder counts |
| Sharding.Throughput.Cut | sidecar/weighting.go:80-85 | the shards have the computed sizes and concatenate back to the inputs in order |
| Sharding.Throughput.WeightedShard | sidecar/weighting.go:41-86 | the shards are a largest-remainder split of the inputs, with exact shares in the ratio of the measured rates, one frame per second for an unmeasured worker; a faster worker never gets fewer; empty without workers or inputs |
| Sharding.Throughput.Record | sidecar/weighting.go:19-30 | the table changes only for this worker, to the smoothed rate, and stays positive |
| Smoothing.EmaStaysInRange | pjsr/lib/WBPPShim.js:80 | a smoothed value stays within the range of its samples |
| Smoothing.EmaConverges | pjsr/lib/WBPPShim.js:80 | under constant samples the error shrinks by exactly 0.6 per update |
| AdaptiveSplit.CostsAreSmoothedSamples | pjsr/lib/WBPPShim.js:103-113 | after any run of groups, each operation's cost is the smoothed value of exactly its own usable samples |
| AdaptiveSplit.LearnedCostsStayInRange | pjsr/lib/WBPPShim.js:103-113 | learned costs are positive and within their samples' range; the carried server share stays strictly between 0 and 1 |
| AdaptiveSplit.CarriedShareBalances | pjsr/lib/WBPPShim.js:109-112 | after any run of groups the carried server share is the smoothed value of one sample for every group after which both costs of its operation are known, and each sample makes the two lanes of that operation take the same time |
| AdaptiveSplit.SlowServerKeepsLess | pjsr/lib/WBPPShim.js:95-112 | a share that balances two lanes is below half exactly when the server is the slower one; then it keeps at most half of any later group's frames, and exactly when fewer |
| AdaptiveSplit.SlightlySlowerServerKeepsHalf | pjsr/lib/WBPPShim.js:95-96 | a slower server that still keeps half of two frames |
| AdaptiveSplit.SlowServerExample | pjsr/lib/WBPPShim.js:95-112 | ten seconds a frame on the server and one on the cluster: share 1/11, and ten of the next 110 frames |
| AdaptiveSplit.SamplesAreTimePerFrame | pjsr/lib/WBPPShim.js:105-108 | exactly when a lane gives a sample, and that the sample times the frames is the lane's time, in seconds and in milliseconds |
| AdaptiveSplit.RoundIsNearest | pjsr/lib/WBPPShim.js:94-96 | a split is rounded to the nearest number of frames, up from the middle |
| AdaptiveSplit.MeasuredSplitBalances | pjsr/lib/WBPPShim.js:89-100 | the measured split keeps the lanes within half a frame of each other, and no split, even fractional, beats it by more than half a frame of the slower lane |
| AdaptiveSplit.CostModel.ServerCount | pjsr/lib/WBPPShim.js:89-100 | the three-way choice, always between 0 and the number of frames |
| AdaptiveSplit.CostModel.LearnCosts | pjsr/lib/WBPPShim.js:103-113 | one in-place update equals one learning step, and validity is kept |
| AdaptiveSplit.EvenCount | pjsr/lib/WBPPShim.js:98 | the cold start keeps as many frames as fit equally on every machine |
| PullQueue.MixUpNeedsReusedId | sidecar/pullexecutor.go:45-121 | in every run, timeouts and lost jobs included, a call returns another manifest's report only if both carried one job id |
| PullQueue.OutcomeIsHowTheWorkWent | sidecar/pullexecutor.go:45-121 | in every run a call times out exactly when it gave up; a report it returns says success exactly when the one step that finished the work on that manifest did |
| PullQueue.EveryReportWasFinished | sidecar/pullexecutor.go:90-121 | every report on its way or returned comes from a step that finished the work on its manifest, with its outcome |
| PullQueue.FinishedOnce | sidecar/pullexecutor.go:76-85 | the work on one manifest is finished at most once in a run |
| PullQueue.FirstInFirstOut | sidecar/pullexecutor.go:56-85 | the client takes manifests in the order in which they were sent, and the pending ones are the rest |
| PullQueue.AtMost64Pending | sidecar/pullexecutor.go:38-60 | at most 64 manifests wait, and a registered call goes on exactly while fewer do |
| PullQueue.EveryRunRoutesById | sidecar/pullexecutor.go:45-121 | in every run every report, slot and outcome carries the job id of its call |
| PullQueue.RoutingIsRightIffNoIdTwice | sidecar/pullexecutor.go:45-121 | timeouts and lost jobs included: every run that hands out the given ids returns only own reports if and only if no two manifests share an id |
| PullQueue.LateReportReachesNewerCall | sidecar/pullexecutor.go:48-69 | for any two manifests and any id they share there is a run with a timeout in which the newer call returns the older report |
| PullQueue.CalmStepStaysOrderly | sidecar/pullexecutor.go:45-121 | without mishaps and with ids unused among live calls, every step keeps: one waiting entry per live call, one place per manifest, own reports only |
| PullQueue.NoDeadlock | sidecar/pullexecutor.go:45-121 | while a call is live some step that is no mishap is possible, a full pending channel included |
| PullQueue.AllCallsCanReturn | sidecar/pullexecutor.go:45-121 | from every orderly worker there is a schedule after which all live calls have returned |
| PullQueue.EveryScheduleReturnsAllCalls | sidecar/pullexecutor.go:45-121 | without new calls and mishaps every schedule of steps ends after the same number of them, and every call that was live is still live or has returned its own report; what that report says is `PullQueue.OutcomeIsHowTheWorkWent` |
| PullQueue.EveryStepAdvances | sidecar/pullexecutor.go:45-121 | each such step brings the worker exactly one step closer to that end |
| PullQueue.PullExecutor.Enter | sidecar/pullexecutor.go:46-49 | registering a call overwrites the waiting entry of its job id |
| PullQueue.PullExecutor.TryPark | sidecar/pullexecutor.go:56-60 | the manifest joins the pending queue exactly when fewer than 64 wait |
| PullQueue.PullExecutor.TryReceive | sidecar/pullexecutor.go:62-67 | receiving empties the call's own slot |
| PullQueue.PullExecutor.Exit | sidecar/pullexecutor.go:50-54 | leaving removes the entry under the job id, whoever owns it |
| PullQueue.PullExecutor.Pull | sidecar/pullexecutor.go:76-85 | the oldest pending manifest is handed out |
| PullQueue.PullExecutor.Lookup | sidecar/pullexecutor.go:112-118 | a report's job id finds the channel registered under it, or is unknown |
| PullQueue.PullExecutor.TryDeliver | sidecar/pullexecutor.go:119 | a report fills the slot exactly when it is empty |
| Routing.EndToEndRouting | sidecar/distribute.go:194-206 | in every calm run each part is answered with the report of its own manifest, which says success exactly when the work on that manifest did; live calls on a worker have different job ids, and no report is unknown |
| Routing.AnswerIsHowTheWorkWent | sidecar/distribute.go:194-206 | the answer of one part carries the id of the part, and its outcome is that of the one finishing step of its own manifest on its worker |
| Routing.EveryPartIsKnown | sidecar/distribute.go:194-206 | in every run the manifest of a part that was sent is known to the worker of that part, as live or as returned |
| Routing.NoJobIsStuck | sidecar/distribute.go:121-145 | while a job is in flight, a part of it can be sent, one of its workers can go on, an answer can be collected, or it can be closed |
| Routing.WhatGoesWhole | pjsr/lib/WBPPShim.js:571-574 | the operations sent as one whole job |
| Routing.QueuesNeverBlock | sidecar/api.go:141-144 | in every calm run at most two manifests wait on a worker, no post blocks, and a live call can always go on |
| Routing.EveryRunIsSafe | sidecar/api.go:145-175 | leases, ownership of calls and answers stay consistent in every calm run |
| Routing.LeasesAreExact | sidecar/api.go:226-235 | in every calm run a node is leased if and only if a whole job in flight holds it, and never by two |
| Routing.PartsHaveOwnIds | sidecar/distribute.go:195 | the lease makes any two parts in flight on one node carry different ids |
| Routing.SentIdIsUnused | sidecar/distribute.go:194-195 | the part about to be sent has an id no live call on its node carries |
| Routing.JobIdTellsOpAndIndex | sidecar/distribute.go:195 | the rendered job id determines operation and worker index, whatever the operation is called |
| Routing.DecimalDenotes | sidecar/distribute.go:195 | the rendered index denotes the worker's index in decimal |
| Routing.JobIdLooksLikeThis | sidecar/distribute.go:195 | the id of part 12 of a registration |
| Routing.AtMostTwoPending | sidecar/pullexecutor.go:40 | at most two manifests wait on a worker |
| Routing.MoveStaysSafe | sidecar/api.go:226-237 | opening, sending, answering, closing and every worker step keep the invariant |
| Routing.ControlApi.TryAcquire | sidecar/api.go:149-158 | the first free worker on the list is leased, or all are busy |
| Routing.ControlApi.Release | sidecar/api.go:171-175 | releasing frees exactly this worker |
| FrameFate.FateOfEveryFrame | pjsr/lib/WBPPShim.js:1436-1502 | when the local runs that take place yield their outputs, a server frame always succeeds and a client frame unless the cluster was abandoned |
| FrameFate.NoFrameLostUnlessAbandoned | pjsr/lib/WBPPShim.js:1434-1469 | no frame fails if and only if the cluster was not abandoned; otherwise exactly the client frames fail |
| FrameFate.AbandonedFrameFails | pjsr/lib/WBPPShim.js:1457-1464 | a world in which the one client frame is lost |
| FrameFate.AbandonedMeansNothingLanded | pjsr/lib/WBPPShim.js:1457-1464 | for new, distinct outputs the exception is: clients had frames, the wait returned, nothing of theirs landed |
| FrameFate.Engine.Run | pjsr/lib/WBPPShim.js:1315-1511 | exactly when the operation runs natively instead, and the disk it then finds; otherwise the final disk, every frame's fate by its own output file, both counts and the status; the file list is restored |
| FrameFate.Engine.RecoverMissing | pjsr/lib/WBPPShim.js:1455-1469 | the missing frames run again exactly when some but not all client outputs are missing |
| FrameFate.Engine.JudgeFrames | pjsr/lib/WBPPShim.js:1471-1510 | each frame is judged by its own output on disk; FAILED exactly when some failed and none succeeded |
| FrameFate.CountsCover | pjsr/lib/WBPPShim.js:1472-1502 | successes and failures add up to the active frames |
| FrameFate.MissingIsWhatIsNotThere | pjsr/lib/WBPPShim.js:1457-1463 | the missing list is exactly the client frames without an output |
| FrameFate.StemIsTheName | pjsr/lib/WBPPShim.js:1460 | the name of a frame is what stands between its directory and its extension, whatever dots it holds |
| FrameFate.OutputIsAt | pjsr/lib/WBPPShim.js:1457-1476 | the output of a frame is the output directory, a slash, prefix, name, postfix and extension |
| FrameFate.OutputsCollideIffNamesAgree | pjsr/lib/WBPPShim.js:1457-1476 | two frames of a group have one output exactly when their names agree, wherever they lie |
| FrameFate.JudgedByItsOwnFile | pjsr/lib/WBPPShim.js:1476-1502 | a frame succeeds exactly when that file is there, and gets a drizzle file exactly when drizzle is asked for and the .xdrz of that name is there |
| FrameFate.DottedFrameIsFound | pjsr/lib/WBPPShim.js:1476-1502 | the frame /in/a.b.xisf succeeds exactly when /out/a.b_r.xisf is there |
| FrameFate.WhatIsOnDisk | pjsr/lib/WBPPShim.js:1415-1469 | exactly which files are there when the frames are judged, what landed before the wait threw included |
| FrameFate.WhatIsDistributed | pjsr/lib/WBPPShim.js:1315-1340 | only light groups with frames and without fast integration are distributed, and all of those when nothing goes wrong |
| FrameFate.FallbackKeepsDisk | pjsr/lib/WBPPShim.js:1315-1511 | a run sent back to the native one takes no file away |
| QueuePass.EveryOperationCompletesOnce | pjsr/lib/WBPPShim.js:555-618 | over a whole pass, for any failures, an operation completes exactly once, unless it is an unwrapped flat calibration that an earlier batch ran: then twice |
| QueuePass.UnwrappedCalibrationRunsTwice | pjsr/lib/WBPPShim.js:1272-1278 | a queue on which an unwrapped flat calibration completes twice |
| QueuePass.OnlyBatchMembersAreOvertaken | pjsr/lib/WBPPShim.js:1219-1256 | an operation overtakes an earlier named one only inside one batch, never a flat calibration, and nothing crosses a named operation outside the batch |
| QueuePass.SkipsOnlyLogBlocks | pjsr/lib/WBPPShim.js:444-467 | only unnamed operations are stepped over; members are named operations of the family or flat calibrations |
| QueuePass.EveryCompletionHasOneSource | pjsr/lib/WBPPShim.js:593-613 | in a whole pass every completion is by the cluster with DONE if and only if its turn took over a batch with it as a member and it was given to a worker, submitted and collected; otherwise it is native with the native status |
| QueuePass.StatusIsRight | pjsr/lib/WBPPShim.js:593-613 | the status an operation ends with is decided by the last turn that completed it: DONE if the cluster did, the native one otherwise |
| QueuePass.TwoLightsUseTheCluster | pjsr/lib/WBPPShim.js:555-618 | two ready light integrations and one worker: the second is completed by the cluster with DONE, although its native run would fail |
| QueuePass.ServerBeforeCluster | pjsr/lib/WBPPShim.js:561-615 | in a batch, what could not be submitted completes first, then the server's members, then the cluster's |
| QueuePass.WhatABatchTakes | pjsr/lib/WBPPShim.js:444-1238 | exactly which operations each family takes: three frames that are all there for masters, no fast integration for lights, every LN reference and flat master, every flat calibration with the flats |
| QueuePass.WhatStartsABatch | pjsr/lib/WBPPShim.js:411-1004 | exactly which operations start a batch of which family |
| QueuePass.BatchIsMaximal | pjsr/lib/WBPPShim.js:444-467 | a batch holds an operation if and only if it takes it and every named operation on the way is taken too |
| QueuePass.TakesOverTwoOrMore | pjsr/lib/WBPPShim.js:1199-1215 | a turn takes over exactly when there is a worker and a batch of at least two operations |
| QueuePass.DispatchTimes | pjsr/lib/WBPPShim.js:555-618 | a dispatch completes every member as often as it is listed, whatever fails |
| QueuePass.PastIsCompleted | pjsr/lib/WBPPShim.js:1276-1290 | after its turn every operation has completed |
| QueuePass.AheadIsClosed | pjsr/lib/WBPPShim.js:444-467 | what is completed ahead of the current turn is closed: no named operation is left out in front of it |
| QueuePass.AheadIsTaken | pjsr/lib/WBPPShim.js:1243-1256 | only batch members and flat calibrations complete ahead of their turn |
| QueuePass.DoneIsCompletedAhead | pjsr/lib/WBPPShim.js:419-420 | a kept status exists exactly for operations completed ahead, and is the status they completed with |
| QueuePass.LaterTurnKeepsStatus | pjsr/lib/WBPPShim.js:1278-1279 | an operation's status is settled by its own turn |
| QueuePass.CalibrationsComeFirst | pjsr/lib/WBPPShim.js:1248-1254 | inside a batch a flat calibration completes before everything after it in the queue |
| QueuePass.Engine.Gather | pjsr/lib/WBPPShim.js:1219-1238 | the gathering loop returns the members and the flat calibrations up to the boundary |
| QueuePass.Engine.Submit | pjsr/lib/WBPPShim.js:561-584 | cluster members are submitted; what cannot be captured or submitted runs natively at once |
| QueuePass.Engine.RunServerShare | pjsr/lib/WBPPShim.js:585-590 | the server's members run natively once |
| QueuePass.Engine.CollectAll | pjsr/lib/WBPPShim.js:591-615 | each submitted member is finalized as DONE or, if nothing could be collected, run natively; which of the two is `QueuePass.EveryCompletionHasOneSource` |
| QueuePass.Engine.Dispatch | pjsr/lib/WBPPShim.js:555-618 | the events of a batch, in order, and local plus cluster count is the batch length |
| QueuePass.Engine.RunCalibrations | pjsr/lib/WBPPShim.js:1248-1253 | the flat calibrations not done yet run once each, in order |
| QueuePass.Engine.Run | pjsr/lib/WBPPShim.js:1199-1256 | one turn: the kept status, a batch, or the native run, with the status the operation completed with |
| QueuePass.RunQueue | pjsr/lib/WBPPShim.js:1258-1309 | a whole pass leaves the specified trace, and every turn returns the right status: DONE if the cluster completed its operation, the native status otherwise |
| Measurements.CountersAgainstFrames | pjsr/lib/WBPPShim.js:353-396 | the counters add up to the frames, less dropped cache hits, plus frames counted twice; they are right exactly when those are equal |
| Measurements.EachCounter | pjsr/lib/WBPPShim.js:353-397 | each counter by itself: cached is the server's own, measured is one for every frame a client measured and what the native calls that took place measured, failed is what those calls failed |
| Measurements.WhoMeasuredWhat | pjsr/lib/WBPPShim.js:337-390 | the server measures the first frames, the clients those of the others whose row came back valid, and the leftover pass or the fallback the rest, in order |
| Measurements.ValidIs | pjsr/lib/WBPPShim.js:370-376 | a frame counts as returned exactly when its own file name came back with a valid row |
| Measurements.WhenARunGoesThrough | pjsr/lib/WBPPShim.js:337-390 | exactly when a distributed run goes through, in terms of what the wait, the rows and the native calls did |
| Measurements.TimesLearnedFrom | pjsr/lib/WBPPShim.js:395 | the sample of each lane times the frames it had is that lane's time, and exactly when there is a sample |
| Measurements.OneFrameCountedTwice | pjsr/lib/WBPPShim.js:384-389 | two frames of which the counters make three |
| Measurements.CacheHitsAreDropped | pjsr/lib/WBPPShim.js:377-382 | two frames of which the counters make none |
| Measurements.EveryFrameMeasuredOnce | pjsr/lib/WBPPShim.js:353-390 | unless the leftover pass threw, every frame is measured exactly once |
| Measurements.RepeatedFrames | pjsr/lib/WBPPShim.js:370-389 | after the leftover pass threw, exactly the frames a client had measured are measured twice |
| Measurements.LaneMeasuresOnce | pjsr/lib/WBPPShim.js:360-390 | the client lane measures each of its frames once, by client rows or by the pass that follows |
| Measurements.Analyzer.Distribute | pjsr/lib/WBPPShim.js:324-398 | how many frames the server keeps; exactly when the distributed run goes through, its counters, who measured which frame, and what is learned from the times |
| Measurements.Analyzer.Join | pjsr/lib/WBPPShim.js:360-390 | the client lane with its two fallbacks |
| Measurements.Analyzer.AttachRows | pjsr/lib/WBPPShim.js:365-376 | frames with a valid row are attached, the others are left over |
| Measurements.Analyzer.ComputeDescriptors | pjsr/lib/WBPPShim.js:313-329 | small groups and an idle server stay native, a run that throws is repeated natively, and who measured what in each case |
| FanOut.OrderDoesNotMatter | sidecar/distribute.go:121-145 | the final multiset of records does not depend on the merge order |
| FanOut.ReportHoldsEveryRecord | sidecar/distribute.go:121-145 | whatever the order, the report holds every part's records once and no others |
| FanOut.ReportTellsEverything | sidecar/distribute.go:204-237 | a record is in the final report if and only if it tells of a reported pair, under both its names with the verdict of its checksum, or of a file of a failed part by its name, for one of the workers that got files |
| FanOut.RecordsTell | sidecar/distribute.go:204-237 | the same for one worker's part, and how many records it ends in |
| FanOut.TallyCounts | sidecar/distribute.go:216-226 | the tally is the number of records that are verified, or are not |
| FanOut.EachWorkerLearnedOnce | sidecar/distribute.go:134-136 | with several workers of different ids, in any merge order: each one's rate moves once, by its verified records per second, or stays |
| FanOut.ReachedIs | sidecar/distribute.go:88-104 | the job goes to every worker that answered the handshake and to no other |
| FanOut.MatchMeansSame | sidecar/main.go:469-481 | versions match only when all three are the same |
| FanOut.CountersAddUp | sidecar/distribute.go:137-141 | in every reachable report the two counters add up to the outputs |
| FanOut.FinalCounters | sidecar/distribute.go:55-63 | the counters add up to the inputs plus the surplus of workers that reported another number of outputs |
| FanOut.JobReport.Merge | sidecar/distribute.go:137-141 | merging appends a part's records and keeps collected = verified and failed = the rest |
| FanOut.RunWorkerShard | sidecar/distribute.go:151-229 | a part ends in one record per reported output, or one error per file |
| FanOut.ShardError | sidecar/distribute.go:232-237 | every file of a failed part is marked |
| FanOut.Handshake | sidecar/distribute.go:88-109 | unreachable workers are skipped in order; without force the first mismatch refuses the job and only matching workers remain |
| FanOut.DistributeJob | sidecar/distribute.go:73-146 | the refusals, and otherwise a weighted split of the inputs over the reachable workers with every non-empty part merged once, the report's sizes, and the throughput learned |
| FanOut.Learn | sidecar/distribute.go:134-136 | throughput is recorded for this worker only, and only when several workers share the job |
| ReplayWindow.AcceptedAtMostOnce | sidecar/security.go:335-385 | in every run with clock reads in order a request, identified by date and nonce, passes at most once |
| ReplayWindow.WhatPasses | sidecar/security.go:317-385 | what passes is signed, dated within ten minutes either way and has a nonce of 32 characters; such a request with a nonce never spent passes unless the cache is full |
| ReplayWindow.ExactAtFirst | sidecar/security.go:317-385 | over the first 200000 requests, whatever the clock does, a request passes if and only if it is so and its nonce was never spent |
| ReplayWindow.WhyRefused | sidecar/security.go:321-366 | each refusal names the first check that failed |
| ReplayWindow.PassingTwiceNeedsLateClock | sidecar/security.go:341-385 | whatever the order of the clock reads, a request passes twice only if a section between brought a later clock value than the second |
| ReplayWindow.AtMostOnceWithinGap | sidecar/security.go:341-385 | with clock reads out of order by at most a gap, a request passes at most once while not older than the skew limit less the gap |
| ReplayWindow.ShortGapsBoundDisorder | sidecar/security.go:341-367 | sections entered within a gap after their clock read have reads out of order by at most that gap |
| ReplayWindow.SpentIsRemembered | sidecar/security.go:363-385 | a spent nonce is remembered, unless a section in between brought a clock value more than two skew limits later |
| ReplayWindow.CacheStaysWithinCap | sidecar/security.go:372-383 | the cache never exceeds its cap |
| ReplayWindow.EntryWasSpent | sidecar/security.go:383 | every remembered nonce was spent at the recorded time |
| ReplayWindow.ReplayRefusalIsJustified | sidecar/security.go:369-371 | what is called replayed was spent before |
| ReplayWindow.RoomRefusalIsJustified | sidecar/security.go:372-382 | a refusal for lack of room means a full cache of nonces spent within two skew limits |
| ReplayWindow.ClusterSecurity.Prune | sidecar/security.go:374-378 | the loop drops exactly the entries before the cutoff |
| ReplayWindow.ClusterSecurity.RecordNonce | sidecar/security.go:363-385 | one nonce check changes the cache as specified and refuses as specified |
| ReplayWindow.ClusterSecurity.Authenticate | sidecar/security.go:317-360 | the ordered checks of one request |
| Registry.PruningIsInvisible | sidecar/discovery.go:35-85 | every later read reports what an unpruned history would give within the time to live |
| Registry.ReportsWhatWasSeenRecently | sidecar/discovery.go:72-85 | a key is reported if and only if it was seen within the last thirty seconds, with its latest announcement |
| Registry.AnnouncedAsNew | sidecar/discovery.go:62-69 | an announcement counts as new if and only if every earlier sighting was found expired by a read in between |
| Registry.ReadsShowOnlyInAnnouncements | sidecar/discovery.go:62-85 | two runs with one history that differ in that answer |
| Registry.PeerRegistry.Upsert | sidecar/discovery.go:62-69 | a peer is recorded or refreshed; new means absent from the table |
| Registry.PeerRegistry.Alive | sidecar/discovery.go:72-85 | the fresh entries are kept and listed, each once |
| Registry.PeerRegistry.NoteIncompatible | sidecar/discovery.go:35-42 | the same for an address with a reason |
| Registry.PeerRegistry.IncompatibleNodes | sidecar/discovery.go:45-59 | the fresh incompatible nodes are kept and listed, each once |
| Registry.PruneAndList | sidecar/discovery.go:76-83 | visiting the table in any order drops the expired entries and lists the rest |
| DataStore.CacheEqualsUploadAll | sidecar/transport.go:417-438 | for any store and any files, cached pushes leave the store of plain uploads if and only if every sent file's part name is settled; all other names always agree |
| DataStore.CacheEqualsUploadAllPlain | sidecar/transport.go:417-438 | when no file is named as a part, they agree if and only if every sent name whose part file is there is pushed once with other bytes or without an answer |
| DataStore.CachedPushIsUploadUnless | sidecar/transport.go:417-428 | one cached push equals an upload if and only if it was not skipped or no part file was there |
| DataStore.SkippedPushKeepsOldPart | sidecar/transport.go:417-428 | a store on which a skipped push and an upload differ |
| DataStore.EveryFileHolds | sidecar/distribute.go:157-189 | when the manifest is sent, every file holds the sender's bytes if and only if files sent under one name are the same and none is lost as a part file |
| DataStore.FileHoldsExactly | sidecar/distribute.go:157-189 | one file holds if and only if the last file under its name has the same bytes and no real upload removes it afterwards as its part file |
| DataStore.NoClashNothingLost | sidecar/distribute.go:157-189 | when no file is named as the part of a later one, none is lost |
| DataStore.PartNamedFileIsLost | sidecar/transport.go:198-248 | two files of which the first is lost |
| DataStore.NothingIsKeptUnless | sidecar/transport.go:182-253 | a rejected upload leaves a new file if and only if it is the part file of an encoded upload that decoded but could not be written |
| DataStore.HalfWrittenPartStays | sidecar/transport.go:214-217 | a rejected upload that leaves a half-written part file |
| DataStore.RejectedUploadKeepsDestination | sidecar/transport.go:182-253 | the store after a rejected upload agrees with the one before on every name but the part name, the destination included |
| DataStore.AcceptedMeansChecked | sidecar/transport.go:182-253 | an upload is accepted if and only if nothing fails, its name may be stored and its checksum is that of its bytes; then exactly these bytes are stored |
| DataStore.NamesAreNoPaths | sidecar/transport.go:50-52 | the names that may be stored hold no separator and are not empty, dot or dot-dot |
| DataStore.TransportServer.HandleUpload | sidecar/transport.go:182-253 | exactly when an upload is accepted, and the store after it, accepted or not |
| DataStore.TransportServer.WritePart | sidecar/transport.go:201-240 | the part file and the failures of both encodings |
| DataStore.TransportServer.HandleHave | sidecar/transport.go:258-271 | yes exactly when the named file has the asked checksum |
| DataStore.TransportServer.HandleDownload | sidecar/transport.go:275-294 | the stored bytes with their own checksum, packed or not |
| DataStore.UploadData | sidecar/transport.go:443-469 | accepted exactly for a valid name and no fault, compressed or not |
| DataStore.UploadFileCached | sidecar/transport.go:417-428 | skips exactly what the worker already holds |
| DataStore.PushShard | sidecar/distribute.go:157-189 | shared files and frames are pushed in order until one fails |
| DataStore.Collector.DownloadFile | sidecar/transport.go:473-497 | bytes are written only when they match the reply's checksum |
| DataStore.EveryFileComesBack | sidecar/transport.go:417-497 | after any pushes every file can be downloaded as it was sent when none is overwritten or lost, and comes back as sent only if it holds; the reply is packed exactly when asked |
| ByteShuffle.PlanesAreABijection | sidecar/compress.go:30-36 | the index map of the shuffle and its inverse undo each other on the prefix |
| ByteShuffle.UnshuffleUndoesShuffle | sidecar/compress.go:22-56 | unshuffling a shuffled sequence of any length gives it back |
| ByteShuffle.ShuffleUndoesUnshuffle | sidecar/compress.go:22-56 | and the other way round |
| ByteShuffle.ShuffleKeepsBytes | sidecar/compress.go:22-38 | the shuffle is a permutation and leaves the tail of length n mod 4 in place |
| ByteShuffle.ShuffledIsSpread | sidecar/compress.go:30-36 | the specification places every byte where the nested loops write it |
| ByteShuffle.ShuffleBytes | sidecar/compress.go:22-38 | the nested loops compute the shuffle |
| ByteShuffle.UnshuffleBytes | sidecar/compress.go:40-56 | the nested loops compute its inverse |
| ByteShuffle.PackedFrameRoundTrip | sidecar/compress.go:59-67 | with a lossless compressor, unpacking a packed frame gives the frame back, and what is compressed is the planes |
| ProcessSerializer.RoundTrip | pjsr/lib/ProcessSerializer.js:85-149 | the worker accepts the description and rebuilds every parameter if and only if each value is portable and of the default's kind, or has no plain copy and equals the default |
| ProcessSerializer.FiniteProcessesSurvive | pjsr/lib/ProcessSerializer.js:85-149 | finite scalars of the default's type and tables of finite scalar rows all arrive |
| ProcessSerializer.PortableValuesSurvive | pjsr/lib/ProcessSerializer.js:57-79 | exactly the portable values survive the plain copy and the wire |
| ProcessSerializer.AcceptedKeepsKinds | pjsr/lib/ProcessSerializer.js:122-147 | a description of an allowed process is accepted if and only if it is the expected one and changes known parameters only: a number to a number, a boolean to a boolean, a string to a string, anything else to a table |
| ProcessSerializer.NotFiniteRejectsJob | pjsr/lib/ProcessSerializer.js:57-147 | a number that is not finite, by itself or in a table, makes every worker refuse the job |
| ProcessSerializer.TablesHavePlainCopies | pjsr/lib/ProcessSerializer.js:57-79 | exactly numbers, booleans, strings and tables have a plain copy |
| ProcessSerializer.FiveProcessesAllowed | pjsr/lib/ProcessSerializer.js:22-28 | the five allowed processes |
| ProcessSerializer.StringRowBecomesLetters | pjsr/lib/ProcessSerializer.js:64-76 | a table with a string for a row arrives as a row of letters |
| ProcessSerializer.CopyPlain | pjsr/lib/ProcessSerializer.js:57-79 | the loops of the plain copy compute it, or report that there is none |
| ProcessSerializer.SerializeProcess | pjsr/lib/ProcessSerializer.js:85-99 | the description holds exactly the parameters that have a plain copy; other processes are refused |
| ProcessSerializer.DeserializeProcess | pjsr/lib/ProcessSerializer.js:113-149 | exactly which descriptions are accepted, and the process they build |

## Left out

- PixInsight itself, FITS keywords, master finalization and window handling: outcomes of the model's world.
- Sockets, TLS, certificates, multicast, HTTP routing and body limits: only the ordered checks and the store
  effects of the handlers are modelled; the signature covers request and response as a whole.
- SHA-256, HMAC and zstd (RFC 8878): replaced by the assumptions above.
- Floating point rounding, and the saturation of durations at the ends of the representable time range.
- Dialogs, dashboards, logs, temporary files, browser launch and packaging; the once-a-minute log filter.
- The manifest checks of the work endpoint and the name and key formatting helpers are not modelled.
- The unused round-robin `shard` helper.
- The `.xdrz` path rewriting and the content of finalized masters; JSON text (parameter values are a datatype).
- Registry.PeerRegistry.IncompatibleNodes: the sort of the listing by address and reason is not modelled.
- ReplayWindow.ClusterSecurity.Authenticate: the body limit and the check of the body hash while the handler reads
  the body, which follow, are not modelled; the clock value is a parameter.
- FanOut.RunWorkerShard: the pushes and the work call are its inputs (`DataStore.PushShard`, `Routing`), and the
  local path of a record is left out.
- Exceptions thrown by native runs inside a batch: `QueuePass` takes native runs not to throw.
- Routing.EndToEndRouting: states nothing about runs with timeouts, cancellation, lost connections or two
  sharded jobs at once; `PullQueue.RoutingIsRightIffNoIdTwice` says when routing is right with timeouts and lost jobs.
- Routing.ControlApi.TryAcquire: one pass of the polling loop; the waiting, its 20 second deadline and the
  cancellation of the request are not modelled. The busy map, whose values are only ever true, is the set of its keys.
- QueuePass.Engine.Run: fields that the source stores on each operation are maps keyed by the operation's
  index; the machine of an operation is any number, `Scheduling` says which one the scheduler picks.
- FanOut.DistributeJob: the elapsed time of the report is left out, and throughput is recorded in the order of the
  merges. The workers' runs are inputs and their merges are interleaved in an arbitrary order;
  goroutines and the lock are not modelled as such.
- FrameFate.Engine.Run: the number of frames the server keeps is any number up to the group's size, which
  `AdaptiveSplit.CostModel.ServerCount` guarantees. The cost learning after the wait is left out here.
- ProcessSerializer.DeserializeProcess: native setters that convert or refuse an assigned value are not
  modelled; an assignment stores the value.
