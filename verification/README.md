# Capacity control for self-hosted runners: a verified model

These files model, in Dafny, the logic that decides how many EC2 instances of the runner fleet exist, who owns
them, and who may destroy them. `dafny verify dfyconfig.toml` checks everything.

The model has five parts.

* **The warm pool.** `WarmIndex` is the lease table in DynamoDB: every store method is one conditional write, and
  everything proved about it holds for all interleavings of any number of callers. `WarmActivation` is one scale-up
  invocation that claims, tags, starts and registers warm instances. `WarmProtocol` puts the index, EC2, scale-up
  invocations, pool runs and sweeps together as a state machine. `StandbyRead` reads the indexed instances back and
  brings the index in line; `WarmPool` evicts and refills.
* **Placement and launching.** `WarmPlacement` ranks instance types and subnets, `WarmLaunch` spends the shares.
* **Scale sets.** `RunnerStates` matches GitHub's observations with instances, `ScaleSetInventory`, `ScaleSetScaleUp`,
  `ScaleSetScaleDown` and `ScaleSetProvider` are one reconciliation, `ReconcileState` its counters and the controller's
  check of the result, `LifecycleMemory` what the controller remembers between messages.
* **Conservation.** `RunnerCreation` follows each requested runner through failover, registration and the warm and
  cold split; `ScaleUpBatch` does so for the messages of an SQS batch.
* **Rotation and memory.** `IdleConfirmation` is scale-down over many cycles, `RegistrationJanitor` the rotating page
  scans, `AppSelection` and `AppFailover` the choice between GitHub Apps.

`Prelude` and `StableSort` hold the shared vocabulary. `StableSort.Sort` stands for `Array.prototype.sort`: it is proved
to be sorted and stable, and no other arrangement is both (`StableSortIsUnique`).

**How the outside world appears.** Calls to AWS, GitHub and the clock are total functions of the number of the call (or
of what is asked), and every theorem is about all such functions, so about all runs. The logs the theorems speak of hold
the numbers of the calls, and the contracts tie what they record to the answers of those calls. What such a call guarantees is a
named predicate (`Ec2KeepsContract`, `CreationConserves`, `WellBehaved`, `LaunchKeepsContract`). A call that fails has no
effect.

**Where the code promises more than it keeps.** The code is modelled as it is; each of these has a concrete run that
shows the failure, and a lemma that says when the promise holds: for the first under four assumptions none of which
can be dropped, for the others if and only if a condition holds.

* `docs/warm-pool.md:24` says that the pool never destroys a claimed instance. That holds of an instance when scale-up
  acts on it within its lease time, it carries no activation tag of a failed rollback when it is claimed, no second pool
  run rewrites its entry after the first has won it, and it is not claimed if AWS launched it in place of another one
  (`ClaimedInstancesAreSafe`). None of the four can be dropped: `LateTagStrikes`, `LeftoverTagStrikes`,
  `StaleRewriteStrikes`, `ReplacementStrikes`. The defaults (a scale-up timeout far below ten minutes, one pool run at a
  time) meet the first and the third, and the fourth as long as spot requests are cancelled before their instances end.
* `lambdas/functions/control-plane/src/scale-runners/scale-down.ts:276-281` says that a busy reading resets the idle window. It
  does not when the deadline cuts the evaluation short, another reading fails, or the tag is not written:
  `LateBusyReadingIsForgotten`, and `IdleThroughout` for the exact condition, in terms of these answers.
* `lambdas/functions/control-plane/src/scale-runners/scale-up.ts:338-342` and 409-412 return messages by position, so the message of
  a finished job can come back in place of a waiting one: `RunFullHouse`, and `ReturnedAreWaiting` for the exact
  condition: no more messages return than are queued in front of the first finished one.

The memory of a spent app (`ExhaustionIsRemembered`) supposes a clock past its first minute, which every real clock is.

## Model

| member | source | states |
|---|---|---|
| WarmIndex.WarmIndexStore.Query | lambdas/libs/compute-providers/aws/ec2/src/warm-index.ts:159-181 | the paging loop returns every instance row of every page, in order, and no row that is the reconcile marker or carries no id |
| WarmIndex.WarmIndexStore.Update | lambdas/libs/compute-providers/aws/ec2/src/warm-index.ts:183-197 | the write is the guarded step of the table: fields are set, absent ones kept, an activated entry is left as it is |
| WarmIndex.WarmIndexStore.MarkWarm | lambdas/libs/compute-providers/aws/ec2/src/warm-index.ts:199-213 | succeeds exactly on a PRIMING entry, and then sets it WARM |
| WarmIndex.WarmIndexStore.Remove | lambdas/libs/compute-providers/aws/ec2/src/warm-index.ts:215-217 | unconditional deletion of one entry |
| WarmIndex.WarmIndexStore.RemoveUnclaimed | lambdas/libs/compute-providers/aws/ec2/src/warm-index.ts:219-229 | deletes and answers true exactly when no live claim is on the entry |
| WarmIndex.WarmIndexStore.Claim | lambdas/libs/compute-providers/aws/ec2/src/warm-index.ts:231-250 | wins exactly on a WARM entry without a live claim, and then leases it to the caller for the claim time |
| WarmIndex.WarmIndexStore.Release | lambdas/libs/compute-providers/aws/ec2/src/warm-index.ts:252-264 | ends the caller's own claim and nobody else's |
| WarmIndex.WarmIndexStore.ReleaseWithCooldown | lambdas/libs/compute-providers/aws/ec2/src/warm-index.ts:266-282 | ends the caller's own claim, starts the cooldown and counts the failed start |
| WarmIndex.WarmIndexStore.MarkActivated | lambdas/libs/compute-providers/aws/ec2/src/warm-index.ts:284-294 | makes the entry ACTIVATED and unclaimed, even if it was gone |
| WarmIndex.WarmIndexStore.MarkUnusable | lambdas/libs/compute-providers/aws/ec2/src/warm-index.ts:296-309 | turns the caller's own claimed entry into GARBAGE |
| WarmIndex.WarmIndexStore.MarkSpotRequestBound | lambdas/libs/compute-providers/aws/ec2/src/warm-index.ts:360-373 | binds an existing entry's spot request and forgets its failures |
| WarmIndex.WarmIndexStore.RecordSpotBindFailure | lambdas/libs/compute-providers/aws/ec2/src/warm-index.ts:375-388 | counts one more failure on an existing entry |
| WarmIndex.ApplyKeepsConsistent | lambdas/libs/compute-providers/aws/ec2/src/warm-index.ts:183-309 | every write keeps: a claim owner goes with a claim time, an activation time with ACTIVATED, and an activated entry has no claim |
| WarmIndex.RunKeepsConsistent | lambdas/libs/compute-providers/aws/ec2/src/warm-index.ts:183-309 | the same after every history of writes by any callers |
| WarmIndex.ActivatedUntilDeleted | lambdas/libs/compute-providers/aws/ec2/src/warm-index.ts:284-309 | in every history an activated entry stays activated and unclaimed until it is deleted, although markUnusable does not test the state |
| WarmIndex.LeavesActivatedIffDeleted | lambdas/libs/compute-providers/aws/ec2/src/warm-index.ts:183-309 | one write ends ACTIVATED if and only if it deletes the entry |
| WarmIndex.LiveLeaseIsPrivate | lambdas/libs/compute-providers/aws/ec2/src/warm-index.ts:219-309 | nobody else's conditional write can move or end a live lease |
| WarmIndex.LeaseMutualExclusion | lambdas/libs/compute-providers/aws/ec2/src/warm-index.ts:231-309 | two successful claims of one instance without a deletion between them are separated by the first owner giving up or by more than 600 seconds, and no activation lies between them |
| WarmIndex.NoClaimBeforeRewrite | lambdas/libs/compute-providers/aws/ec2/src/warm-index.ts:219-250 | after a successful removeUnclaimed no claim succeeds until an update has written the entry again |
| WarmIndex.ClaimsAreOwnDoing | lambdas/libs/compute-providers/aws/ec2/src/warm-index.ts:231-309 | an owner's claims in the table are always among those its own calls left it with, whatever the others do |
| WarmIndex.FailedStartLeavesMark | lambdas/libs/compute-providers/aws/ec2/src/warm-index.ts:266-282 | whatever anybody writes after a release with cooldown, until the entry is deleted its cooldown ends no earlier than ten minutes after the failure and the failure stays counted; right after it exactly then, with one failure more and no claim |
| WarmActivation.CandidatesAreNewestFirst | lambdas/libs/compute-providers/aws/ec2/src/control-plane/warm-activation.ts:163-190 | the candidates are exactly the WARM entries whose request is bound, whose lease and cooldown are over and that outlive the next ten minutes, with the data of their rows, newest first (no launch time counts as the oldest), ties in index order |
| WarmActivation.CandidatesAreDistinct | lambdas/libs/compute-providers/aws/ec2/src/control-plane/warm-activation.ts:163-190 | an instance is a candidate once |
| WarmActivation.CoolingDownIsNotOffered | lambdas/libs/compute-providers/aws/ec2/src/control-plane/warm-activation.ts:163-190 | an instance whose start failed for lack of capacity is no candidate for ten minutes, whatever is written meanwhile, unless its entry is deleted |
| WarmActivation.Activation.ClaimWarmInstances | lambdas/libs/compute-providers/aws/ec2/src/control-plane/warm-activation.ts:206-231 | tries the candidates in order until enough are won, all are tried, or the index does not answer; the claimed ones are exactly those whose claims were won; on an index failure gives everything back; holds exactly what it returns |
| WarmActivation.Activation.RollbackActivation | lambdas/libs/compute-providers/aws/ec2/src/control-plane/warm-activation.ts:350-371 | removes the tag and ends the claim in the way the failure calls for |
| WarmActivation.Activation.ActivateBatch | lambdas/libs/compute-providers/aws/ec2/src/control-plane/warm-activation.ts:233-300 | what starts, is stale, is left to a cold launch or is exhausted afterwards is what the answers to tagging and starting make of it; if the registration throws nobody counts as started and every running instance is destroyed, otherwise exactly those it names are, in order; everything claimed is counted once; tags and claims of what does not run are taken back |
| WarmActivation.Activation.ActivateWarmRunners | lambdas/libs/compute-providers/aws/ec2/src/control-plane/warm-activation.ts:83-161 | result and reported reasons are those of a sequence of turns that the answers determine, made until nothing is needed, nobody is left, a turn claims nobody or the index fails; on every exit path instances, retryable and cold runners add up to the request, the cold count is never negative and is the sum of the reasons; the retryable ones are exactly the instances destroyed because their registration failed; no candidate is tried twice; if no index write was lost nothing stays claimed |
| WarmActivation.NobodyIsLeftOut | lambdas/libs/compute-providers/aws/ec2/src/control-plane/warm-activation.ts:83-161 | a slot is left to a cold launch for want of a warm instance only when the index answered throughout and every candidate was tried or is of a pair without capacity |
| WarmActivation.NoPairIsStartedAgain | lambdas/libs/compute-providers/aws/ec2/src/control-plane/warm-activation.ts:192-300 | within a batch, an instance whose type and zone read the same as those of one that EC2 had no capacity for is not asked to start |
| WarmActivation.OnlyFoundPairsAreExhausted | lambdas/libs/compute-providers/aws/ec2/src/control-plane/warm-activation.ts:192-300 | and none is passed over but for such an answer to an earlier start |
| WarmActivation.ExhaustedStays | lambdas/libs/compute-providers/aws/ec2/src/control-plane/warm-activation.ts:131-155 | and what one batch found exhausted is so for all later ones |
| WarmActivation.NothingLeftClaimed | lambdas/libs/compute-providers/aws/ec2/src/control-plane/warm-activation.ts:83-161 | seen from the shared table: in every history of everybody's writes in which an invocation made the calls it recorded, and they leave nothing held, no entry carries its claim |
| WarmProtocol.NextKeepsInv | lambdas/libs/compute-providers/aws/ec2/src/control-plane/pool.ts:273-300 | every step of every actor keeps the invariant of the protocol: in every world a consistent index and agreeing expiry, and for an instance, as long as the assumptions are met for it, the lease behind its holder and decisions that still stand |
| WarmProtocol.RunKeepsInv | lambdas/libs/compute-providers/aws/ec2/src/control-plane/warm-activation.ts:206-300 | the invariant holds of an instance after every interleaving whose steps respect the four assumptions as far as they concern it |
| WarmProtocol.WarmEntriesExpireAsTagged | lambdas/libs/compute-providers/aws/ec2/src/control-plane/pool.ts:74-96 | in every interleaving, without any assumption, a WARM entry expires when the tag of its instance says |
| WarmProtocol.ClaimedInstancesAreSafe | lambdas/libs/compute-providers/aws/ec2/src/control-plane/scale-down.ts:65-101 | after any interleaving neither the pool (destroying an instance, destroying a replacement, cancelling a spot request) nor the sweep ends an instance that an invocation holds within the grace time of its read; the assumptions are only about that instance |
| WarmProtocol.AtMostOneHolder | lambdas/libs/compute-providers/aws/ec2/src/control-plane/warm-activation.ts:206-300 | two invocations never hold, so never start, one live instance within their time |
| WarmProtocol.StaleRewriteStrikes | lambdas/libs/compute-providers/aws/ec2/src/control-plane/pool.ts:172-183 | a run in which a second pool run rewrites a condemned entry and the first destroys a claimed instance |
| WarmProtocol.LeftoverTagStrikes | lambdas/libs/compute-providers/aws/ec2/src/control-plane/scale-down.ts:93-101 | a run in which a left-over activation tag makes the sweep destroy a claimed instance |
| WarmProtocol.LateTagStrikes | lambdas/libs/compute-providers/aws/ec2/src/control-plane/warm-activation.ts:233-300 | a run in which an invocation that tags after its lease time has the same effect |
| WarmProtocol.ReplacementStrikes | lambdas/libs/compute-providers/aws/ec2/src/control-plane/pool.ts:286-300 | a run in which the pool, cancelling the spot request of a gone instance, destroys the claimed instance that AWS launched in its place |
| WarmPlacement.GroupByZone | lambdas/libs/compute-providers/aws/ec2/src/warm-placement.ts:62-68 | one column per zone in order of appearance, holding exactly the zone's subnets in order; a subnet of unknown zone is a zone of its own |
| WarmPlacement.InterleaveByAz | lambdas/libs/compute-providers/aws/ec2/src/warm-placement.ts:62-74 | ends; a permutation of the subnets in which every zone's k-th subnet comes before any zone's (k+1)-th, and within a round the zones stand in the order of their first subnets |
| WarmPlacement.ComparatorIsConsistent | lambdas/libs/compute-providers/aws/ec2/src/warm-placement.ts:102-121 | one comparator, infinities and NaN included, orders by a key |
| WarmPlacement.RankingIsTotalPreorder | lambdas/libs/compute-providers/aws/ec2/src/warm-placement.ts:102-121 | the ranking comparator is a total preorder whichever scores and prices are missing |
| WarmPlacement.RanksAsStrategySays | lambdas/libs/compute-providers/aws/ec2/src/warm-placement.ts:102-121 | the comparators of a strategy put one pair strictly before another if and only if it has the better known score, or with an equal one the higher priority or the lower known price, or only the lower price, as the strategy has it |
| WarmPlacement.ProductPermutes | lambdas/libs/compute-providers/aws/ec2/src/warm-placement.ts:89-100 | reordering types and subnets only reorders their pairs |
| WarmPlacement.ProductAt | lambdas/libs/compute-providers/aws/ec2/src/warm-placement.ts:89-100 | types are outermost: the position of each pair, which carries the score of its zone and the price of its type there, and neither without a named zone |
| WarmPlacement.TypesStandByPriority | lambdas/libs/compute-providers/aws/ec2/src/warm-placement.ts:84-86 | with capacity-optimized-prioritized on spot, or prioritized on demand, types stand by priority (the configured one, else the position), equal ones in configured order; otherwise as configured |
| WarmPlacement.PlanWarmPlacement | lambdas/libs/compute-providers/aws/ec2/src/warm-placement.ts:80-124 | the plan is a permutation of types times subnets, sorted by the ranking and stable with respect to the base order |
| WarmPlacement.PlanFollowsStrategy | lambdas/libs/compute-providers/aws/ec2/src/warm-placement.ts:80-124 | the strategy is the configured one if EC2 knows it for the capacity type, else the lowest price; on spot no pair stands behind one it outranks |
| WarmPlacement.PlanIsDetermined | lambdas/libs/compute-providers/aws/ec2/src/warm-placement.ts:115-123 | these conditions leave no second plan |
| WarmPlacement.SharesAddUp | lambdas/libs/compute-providers/aws/ec2/src/warm-placement.ts:127-131 | shares add up to the count exactly, none is negative, and when spreading they differ by at most one |
| WarmLaunch.Refill.Round | lambdas/libs/compute-providers/aws/ec2/src/standby.ts:416-460 | one round deals what is missing to the pairs left and asks them in order; it never brings more, and without another error than capacity brings all or leaves fewer pairs |
| WarmLaunch.Refill.LaunchWarmInstances | lambdas/libs/compute-providers/aws/ec2/src/standby.ts:373-484 | ends; the requests are those of rounds, each over the pairs that have not fallen short, in the order of the plan, for shares of what is then missing; every request is answered as the launch of its number; never launches more than requested; fewer only after an error that is not about capacity or after every planned pair fell short; a pair that fell short is not asked again |
| WarmLaunch.BestPairIsFirst | lambdas/libs/compute-providers/aws/ec2/src/standby.ts:416-460 | the best pair of the plan is asked first: for everything without spreading, for the even share rounded up with it |
| WarmLaunch.PairsAreAskedInOrder | lambdas/libs/compute-providers/aws/ec2/src/standby.ts:416-460 | without spreading the pairs are asked in the order of the plan, each once and for all that the ones before did not bring |
| StandbyRead.DescribeById | lambdas/libs/compute-providers/aws/ec2/src/standby.ts:592-617 | returns the existing ids in order and exactly the others as missing, however errors name them, and nothing only when a call failed for another reason or named none of its ids |
| StandbyRead.ReadStandbyInstances | lambdas/libs/compute-providers/aws/ec2/src/standby.ts:698-800 | each indexed entry goes into the one list its fate names, in index order, and a failed lookup of spot requests is reported |
| StandbyRead.ListsShareOut | lambdas/libs/compute-providers/aws/ec2/src/standby.ts:698-800 | of what a read returns, for distinct ids: an id is in at most one of the three lists; classified if and only if its instance is live and was never activated; released if and only if it is gone or settled and no live spot request is possible, a failed lookup leaving it possible; orphaned if and only if it is gone or settled with a live request that may be cancelled; a young activation is in none |
| StandbyRead.StandbysAreRead | lambdas/libs/compute-providers/aws/ec2/src/standby.ts:226-260 | each classified instance is live, was never activated and carries EC2's data; it is WARM if and only if it stopped itself and its spot request, as far as AWS tells of it, is live and was not reclaimed, and PRIMING if and only if it is pending, running or stopping |
| StandbyRead.OrphansAreRead | lambdas/libs/compute-providers/aws/ec2/src/standby.ts:698-800 | each orphan names the request of an indexed instance, and as replacement exactly the other instance AWS gave that request |
| StandbyRead.SyncIndex | lambdas/libs/compute-providers/aws/ec2/src/control-plane/pool.ts:172-183 | only released entries disappear, entries the read does not list are untouched, activated ones are never written, and when all writes work exactly the entries that differ from their reading are written and carry it |
| StandbyRead.ReadAndSync | lambdas/libs/compute-providers/aws/ec2/src/control-plane/pool.ts:201-213 | read and write-back together, on whatever the index has become since: the entry of a live unactivated instance stays, that of a young activation is as it was, and one disappears only if its instance is gone or settled and no live request is possible, a failed lookup leaving it possible; when all writes work the index carries the reading |
| WarmPool.SelectEvictions | lambdas/libs/compute-providers/aws/ec2/src/control-plane/warm-pool.ts:108-122 | every instance with a fault of its own goes, in order, then the WARM ones beyond the target; each recorded reason is true of its instance, by state, age, failures, binding and image, and no graver one is |
| WarmPool.ReasonIsRight | lambdas/libs/compute-providers/aws/ec2/src/control-plane/warm-pool.ts:124-152 | an instance has a reason to go if and only if it is faulty by these data, and then the gravest |
| WarmPool.EvictionsAreDistinct | lambdas/libs/compute-providers/aws/ec2/src/control-plane/warm-pool.ts:108-145 | no instance is evicted twice, and as many are over target as exceed it |
| WarmPool.OverTargetAreOldest | lambdas/libs/compute-providers/aws/ec2/src/control-plane/warm-pool.ts:117-121 | no instance evicted over target was launched after a WARM one that stays |
| WarmPool.KeptWarmFitTarget | lambdas/libs/compute-providers/aws/ec2/src/control-plane/warm-pool.ts:108-122 | what stays of the faultless WARM instances is the smaller of their number and the target |
| WarmPool.CountEvictions | lambdas/libs/compute-providers/aws/ec2/src/control-plane/warm-pool.ts:60-79 | per reason, the count is the number of evictions for it whose destruction succeeded |
| WarmPool.ReconcileWarmPool | lambdas/libs/compute-providers/aws/ec2/src/control-plane/warm-pool.ts:37-106 | what is launched is the answer to a launch of exactly the deficit of the survivors, and nothing if there is none; when every call succeeds ready and preparing add up to the larger of the target and the survivors; evictions are counted per reason |
| WarmPool.SecondRunIsQuiet | lambdas/libs/compute-providers/aws/ec2/src/control-plane/warm-pool.ts:37-145 | looked at again at the same instant, a pool that got all it asked for evicts nothing and lacks nothing (with a boot timeout that is not negative) |
| RunnerStates.IndexRunnerStates | lambdas/libs/compute-providers/aws/ec2/src/scale-set/inventory.ts:136-158 | the index knows exactly the names of valid states of the scale set, the names that are ambiguous and the ids that two names share, although it keeps only the last name of an id |
| RunnerStates.MatchIsUnambiguous | lambdas/libs/compute-providers/aws/ec2/src/scale-set/inventory.ts:160-177 | a state is matched if and only if it is the only valid one with the runner's name and the only one with its id |
| ScaleSetInventory.ServingOrIdle | lambdas/libs/compute-providers/aws/ec2/src/scale-set/inventory.ts:190-233 | serving runners and retained ids share out the inventory |
| ScaleSetInventory.ServingAreKnownOrYoung | lambdas/libs/compute-providers/aws/ec2/src/scale-set/inventory.ts:190-233 | the serving runners are, in order, the published ones with name and id, at any age, and those launched less than the boot timeout ago; exactly the others are idle |
| ScaleSetProvider.Provider.IsServing | lambdas/libs/compute-providers/aws/ec2/src/scale-set/inventory.ts:200-230 | a published runner serves if and only if it has name and id or was launched less than the boot timeout ago; whoever GitHub's matching view confirms does, so that view makes no difference |
| ScaleSetProvider.Provider.ServingCapacity | lambdas/libs/compute-providers/aws/ec2/src/scale-set/inventory.ts:190-233 | returns exactly the published runners that are young or have name and id, in order, and retains each other one once |
| ScaleSetProvider.Provider.PublishConfiguration | lambdas/libs/compute-providers/aws/ec2/src/scale-set/scale-up.ts:233-267 | once publishing was tried the instance is launched or preserved, never terminated |
| ScaleSetProvider.Provider.TagAndPublish | lambdas/libs/compute-providers/aws/ec2/src/scale-set/scale-up.ts:210-267 | a registered runner is published, or GitHub is asked first to remove exactly its registration |
| ScaleSetProvider.Provider.ConfigureLaunchedRunner | lambdas/libs/compute-providers/aws/ec2/src/scale-set/scale-up.ts:175-267 | a created instance meets one of four fates, the counters move by that fate alone, its last act is publishing or terminating, and every fate but a clean launch leaves an error that names the instance |
| ScaleSetProvider.Provider.ScaleUp | lambdas/libs/compute-providers/aws/ec2/src/scale-set/scale-up.ts:269-310 | at most the count is created, and every created instance is launched, terminated, or retained with an error |
| ScaleSetScaleUp.ScaledUpStep | lambdas/libs/compute-providers/aws/ec2/src/scale-set/scale-up.ts:306-309 | configuring one more instance keeps this account of all of them |
| ScaleSetScaleUp.StoryIsSafe | lambdas/libs/compute-providers/aws/ec2/src/scale-set/scale-up.ts:175-267 | by the answers, a created instance is published or terminated, or that is tried, and never both; it counts as launched exactly when publishing succeeded |
| ScaleSetScaleUp.RegistrationIsRemoved | lambdas/libs/compute-providers/aws/ec2/src/scale-set/scale-up.ts:151-231 | before the instance of a registered runner is terminated, GitHub is asked to remove exactly that registration |
| ScaleSetScaleUp.StoriesAreTrue | lambdas/libs/compute-providers/aws/ec2/src/scale-set/scale-up.ts:175-310 | every call logged for the created instances carries the answer given to the call of that number, one call after the other, and as many instances ended as were discarded |
| ScaleSetScaleDown.VerdictIsRight | lambdas/libs/compute-providers/aws/ec2/src/scale-set/scale-down.ts:72-103 | a runner is a candidate if and only if its only observation says idle, or nobody observed its name and no runner is busy; it counts as busy if and only if its only observation says so |
| ScaleSetScaleDown.CandidatesAreRemovable | lambdas/libs/compute-providers/aws/ec2/src/scale-set/scale-down.ts:69-103 | the candidates are exactly the removable runners, each under its own name and id |
| ScaleSetScaleDown.NewestFirstIsTotalPreorder | lambdas/libs/compute-providers/aws/ec2/src/scale-set/scale-down.ts:105-108 | the order of removal is a total preorder for every locale order of ids |
| ScaleSetScaleDown.AskedAreNewest | lambdas/libs/compute-providers/aws/ec2/src/scale-set/scale-down.ts:105-117 | nobody who is not asked was launched after somebody who is |
| ScaleSetScaleDown.AllActsAreSafe | lambdas/libs/compute-providers/aws/ec2/src/scale-set/scale-down.ts:13-59 | by the logged answers, an instance is terminated only right after the call that asked GitHub to remove the runner it runs, and that was answered "removed" |
| ScaleSetScaleDown.AllActsAreTrue | lambdas/libs/compute-providers/aws/ec2/src/scale-set/scale-down.ts:13-59 | every call in the log of a scale-down carries the answer given to the call of that number |
| ScaleSetScaleDown.TerminationsAreCounted | lambdas/libs/compute-providers/aws/ec2/src/scale-set/scale-down.ts:46-50 | the attempts that succeeded are the instances that ended |
| ScaleSetProvider.Provider.TerminateKnownIdleRunner | lambdas/libs/compute-providers/aws/ec2/src/scale-set/scale-down.ts:13-59 | one attempt ends as the answers to its calls demand, the counters move by that end alone, and the log is extended by exactly the calls made, with their numbers and answers |
| ScaleSetProvider.Provider.ScaleDown | lambdas/libs/compute-providers/aws/ec2/src/scale-set/scale-down.ts:61-118 | at most `count` runners go, newest first, and fewer only if every removable one was asked; busy ones are counted, and everyone else who stays is retained |
| ScaleSetProvider.Provider.Reconcile | lambdas/libs/compute-providers/aws/ec2/src/scale-set/provider.ts:76-124 | current runners are the owned ones plus the created minus the ended; launching never takes the owned capacity above max(owned, desired + 1), removing never leaves fewer serving than desired; if at least the desired number is published with name and id nothing is created; the controller accepts the result if and only if there are at most 1000 errors |
| ScaleSetProvider.EnoughAreKnown | lambdas/libs/compute-providers/aws/ec2/src/scale-set/provider.ts:99-123 | if at least the desired number is published with name and id, no course creates anything; a run at rest retains exactly the runners that are neither known nor young |
| ScaleSetProvider.CourseIsBounded | lambdas/services/scale-set/src/reconciler.ts:631-646 | on every course the counters stay within the controller's bounds |
| ScaleSetProvider.OnlyIdleAreTerminated | lambdas/libs/compute-providers/aws/ec2/src/scale-set/scale-down.ts:13-118 | by the logged answers, nothing ends in a reconciliation but a removable runner that the call right before has made GitHub let go, or an instance created in it |
| ScaleSetProvider.ActsAreTrue | lambdas/libs/compute-providers/aws/ec2/src/scale-set/provider.ts:76-124 | every call logged in a reconciliation carries the answer given to the call of that number |
| ScaleSetProvider.TerminationsMatchActs | lambdas/libs/compute-providers/aws/ec2/src/scale-set/provider.ts:99-123 | the counter of terminated runners is the number of instances that ended |
| ReconcileState.ReconcileState.RetainUnknown | lambdas/libs/compute-providers/aws/ec2/src/scale-set/reconcile.ts:89-97 | a resource is retained and counted once, however often it is named |
| ReconcileState.ReconcileState.Finish | lambdas/libs/compute-providers/aws/ec2/src/scale-set/reconcile.ts:58-78 | the reported status is the one the controller recomputes, so the result is accepted if and only if errors and counters are within bounds |
| ReconcileState.ReportedCodeIsAcceptable | lambdas/libs/compute-providers/aws/ec2/src/scale-set/reconcile.ts:28-49 | whatever was thrown, the code is a letter followed by at most 127 letters, digits, dots, underscores or hyphens: the name of the error if it is one, else its code if that is, else a fixed one |
| LifecycleMemory.MemoryIsUpToDate | lambdas/services/scale-set/src/reconciler.ts:525-548 | after every sequence of messages the memory has each name once, stays within its limit and holds only the latest observation of a runner |
| LifecycleMemory.Memory.RememberLifecycle | lambdas/services/scale-set/src/reconciler.ts:525-538 | the map after one observation is the one the history determines: contradictions erase, the oldest make room |
| LifecycleMemory.Memory.PruneCompleted | lambdas/services/scale-set/src/reconciler.ts:540-548 | forgets a completed observation of the same runner and nothing else |
| LifecycleMemory.OnlyCompletedMayGo | lambdas/libs/compute-providers/aws/ec2/src/scale-set/scale-down.ts:72-103 | over every run of messages a runner may be removed only if the last thing heard of its name is that it completed under its own id, or while no runner at all is busy |
| LifecycleMemory.StartedRunnerStays | lambdas/services/scale-set/src/reconciler.ts:550-556 | a runner remembered as started is not removable |
| LifecycleMemory.DesiredRunners | lambdas/services/scale-set/src/reconciler.ts:579-586 | assigned work is always covered, and beyond it the target stays within the maximum |
| RunnerCreation.ToControlPlaneResult | lambdas/libs/compute-providers/aws/ec2/src/control-plane/create-result.ts:29-56 | what is missing is retryable as a whole or not at all: if and only if some code names a throttling, timeout or server error, an unreachable network, status 429 or above 499, or a configured error; nothing is lost |
| RunnerCreation.RunnerFactory.CreateEc2Runner | lambdas/libs/compute-providers/aws/ec2/src/runners.ts:431-486 | created and failed add up to the request on every path; the result holds exactly the instances the answers to its requests brought, once; there is a second request if and only if the first was a spot fleet that brought too little with a listed error and the AMI is found again, and it is on demand and for exactly what is missing; which requests are made is decided by the answers, and so are the failure codes reported |
| RunnerCreation.RunnerFactory.ProcessFleetResult | lambdas/libs/compute-providers/aws/ec2/src/runners.ts:488-550 | if the request was for spot capacity, fewer came than asked and some error of the answer is listed, there is exactly one second request, on demand and for exactly what is missing, unless the AMI lookup throws; otherwise there is none; what the first launched is kept, and the codes of the last thing tried are reported |
| RunnerCreation.RunnerFactory.CreateInstancesWithRunInstances | lambdas/libs/compute-providers/aws/ec2/src/runners.ts:706-759 | dedicated hosts: spot launches nothing, otherwise one request whose shortfall is counted as failed |
| RunnerCreation.RunnerFactory.CreateJitConfig | lambdas/functions/control-plane/src/scale-runners/github-runner.ts:260-335 | exactly the instances whose configuration failed come back, in order |
| RunnerCreation.RunnerFactory.KeepRegistered | lambdas/libs/compute-providers/aws/ec2/src/control-plane/runner-creation.ts:132-169 | exactly the instances registered by the answers are kept; the others are told to terminate and counted as retryable |
| RunnerCreation.RunnerFactory.CreateRunners | lambdas/libs/compute-providers/aws/ec2/src/control-plane/runner-creation.ts:102-170 | by the answers: kept are the instances EC2 brought and the registration kept, not retryable is what is missing without a code that triggers a retry, retryable the rest, and everything if the configuration throws; every launched instance is returned or told to terminate, never both |
| RunnerCreation.RunnerFactory.CreateScaleUpRunners | lambdas/libs/compute-providers/aws/ec2/src/control-plane/scale-up.ts:65-103 | the sums of a warm part that is the result of an activation, and a cold part that is the result of a cold creation of exactly the slots the warm one leaves, none if it leaves none; the instances launched cold are returned or told to terminate, never both |
| ScaleUpBatch.GroupsOfIsGrouping | lambdas/functions/control-plane/src/scale-runners/scale-up.ts:149-218 | one group per key, holding all accepted messages of that key in order |
| ScaleUpBatch.Batch.CheckQueued | lambdas/functions/control-plane/src/scale-runners/scale-up.ts:267-302 | with the check on, keeps exactly the messages whose job is still queued or whose check failed, so not those of an unsupported event; otherwise all |
| ScaleUpBatch.Batch.AllowedRunners | lambdas/functions/control-plane/src/scale-runners/scale-up.ts:310-331 | asks for the current runners only when there is a limit, and requests what is needed or what that answer leaves below the maximum |
| ScaleUpBatch.Batch.ScaleUpGroup | lambdas/functions/control-plane/src/scale-runners/scale-up.ts:233-420 | the first messages of the group return, as many as the answers of the provider leave open, every other queued one is published, and exactly the calls this takes are made |
| ScaleUpBatch.Batch.ScaleUp | lambdas/functions/control-plane/src/scale-runners/scale-up.ts:110-423 | over the whole batch with distinct ids, the returned ids number the unsupported messages plus what, group by group, the answers of the provider leave open, and everything else that is queued is published once |
| ScaleUpBatch.MaximumIsKept | lambdas/functions/control-plane/src/scale-runners/scale-up.ts:310-380 | for all answers: with a limit, current and created runners stay within max(current, maximum), and fewer are requested than needed only when the maximum is reached |
| ScaleUpBatch.ReturnedAddUp | lambdas/functions/control-plane/src/scale-runners/scale-up.ts:331-412 | the messages that return are the ones skipped for the limit, with ephemeral runners, and one for each retryable failure; all that were requested if the creation throws |
| ScaleUpBatch.QueuedMessageComesBack | lambdas/functions/control-plane/src/scale-runners/scale-up.ts:403-419 | every queued message of a served group either returns with the batch or is published, never both |
| ScaleUpBatch.ReturnedAreWaiting | lambdas/functions/control-plane/src/scale-runners/scale-up.ts:338-342 | the returned messages of a group are all still queued if and only if the answers let no more return than are queued in front of the first finished one |
| ScaleUpBatch.FinishedJobReturns | lambdas/functions/control-plane/src/scale-runners/scale-up.ts:338-354 | on two messages, the first of a finished job, whatever settles the batch returns the finished one and publishes the waiting one |
| ScaleUpBatch.RunFullHouse | lambdas/functions/control-plane/src/scale-runners/scale-up.ts:338-354 | the batch run on these messages ends so |
| IdleConfirmation.UseClears | lambdas/functions/control-plane/src/scale-runners/scale-down.ts:322-393 | an evaluation that keeps the runner or reads it busy takes the marker away, if all registrations answer, enough time is left and the tag is written |
| IdleConfirmation.OnlyIdleCounts | lambdas/functions/control-plane/src/scale-runners/scale-down.ts:276-347 | a marker is set, and a runner confirmed, only by an evaluation that read every registration idle |
| IdleConfirmation.MarkerHasOrigin | lambdas/functions/control-plane/src/scale-runners/scale-down.ts:276-320 | in every history a marker goes back to the evaluation that set it and has stood ever since |
| IdleConfirmation.IdleThroughout | lambdas/functions/control-plane/src/scale-runners/scale-down.ts:276-320 | a confirmed runner read idle now and at an evaluation at least the window, in seconds, before; it was not in use in between if and only if every evaluation that saw it in use had all registrations answer, enough time left and the tag written |
| IdleConfirmation.ConfirmedWereIdle | lambdas/functions/control-plane/src/scale-runners/scale-down.ts:276-393 | over a whole history in which nothing keeps the evaluations from clearing, nobody is confirmed who was in use at any time in the last 1000 times the window of milliseconds |
| IdleConfirmation.TerminatedMeansDeregistered | lambdas/functions/control-plane/src/scale-runners/scale-down.ts:347-382 | a terminated runner had only idle readings, and every registration was removed |
| IdleConfirmation.ConfirmedExactly | lambdas/functions/control-plane/src/scale-runners/scale-down.ts:276-393 | a runner is confirmed if and only if it is evaluated without quota, with a client and time for every question, all its registrations read idle, and the window is not positive or its marker is at least the window old in milliseconds |
| IdleConfirmation.TerminatedExactly | lambdas/functions/control-plane/src/scale-runners/scale-down.ts:347-382 | a confirmed runner is terminated if and only if time is left for the three steps, it is still the same one, every registration is removed and the termination works |
| IdleConfirmation.MarkedExactly | lambdas/functions/control-plane/src/scale-runners/scale-down.ts:276-320 | a marker is set if and only if an otherwise confirming evaluation with a positive window finds none that can be read, and the tag is written |
| IdleConfirmation.ClearedExactly | lambdas/functions/control-plane/src/scale-runners/scale-down.ts:322-455 | a marker is taken away if and only if there is a positive window, the tag is written, and the runner is kept by the quota or read busy with all registrations answering in time |
| IdleConfirmation.LateBusyReadingIsForgotten | lambdas/functions/control-plane/src/scale-runners/scale-down.ts:339-347 | three evaluations after which a runner is terminated that read busy within the window |
| IdleConfirmation.Sweeps.RemoveRunner | lambdas/functions/control-plane/src/scale-runners/scale-down.ts:322-393 | the early returns and branches come to the marker and event of the specification; with a positive window nothing is removed unless the marker is at least 1000 times the window of milliseconds old |
| IdleConfirmation.Sweeps.Evaluate | lambdas/functions/control-plane/src/scale-runners/scale-down.ts:415-455 | one evaluation adds one record to its runner's history, with outcome and marker as the answers demand, touches no other runner, and keeps the invariant of all histories |
| IdleConfirmation.Sweeps.EvaluateAndRemoveRunners | lambdas/functions/control-plane/src/scale-runners/scale-down.ts:395-458 | a sweep evaluates the runners in order, each from its answers and with the quota left by the one before, and goes on exactly as long as ten seconds are left before each runner and after its listing |
| IdleConfirmation.QuotaIsSpent | lambdas/functions/control-plane/src/scale-runners/scale-down.ts:415-440 | over a sweep the idle quota goes down by exactly the runners kept, and not below nothing |
| RegistrationJanitor.RotationVisitsAll | lambdas/functions/termination-watcher/src/registration-janitor.ts:131-143 | from any start the rotation comes to every page exactly once |
| RegistrationJanitor.Discovery.DiscoverGroup | lambdas/functions/termination-watcher/src/registration-janitor.ts:126-200 | ends; every call of its visits began with ten seconds left; its visits are those the answers decide, from the page count that page 1 tells and the start drawn; it is stopped only at a limit in the midst of a visit, and otherwise over exactly when three visits in a row failed, the rotation has come round, or an uncounted page is short; the candidates are those on the pages read |
| RegistrationJanitor.RotationCovers | lambdas/functions/termination-watcher/src/registration-janitor.ts:126-200 | a counted scan that was not stopped and did not fail three times in a row visits each page once, and makes as many requests as there are pages if no visit failed |
| RegistrationJanitor.StraightScanCovers | lambdas/functions/termination-watcher/src/registration-janitor.ts:126-200 | an uncounted one goes through the pages from 1 on, in order, up to the first short one |
| RegistrationJanitor.RequestsAreDistinct | lambdas/functions/termination-watcher/src/registration-janitor.ts:126-160 | no page is requested twice in a scan, however its visits end, the one it is stopped in included |
| RegistrationJanitor.Discovery.Discover | lambdas/functions/termination-watcher/src/registration-janitor.ts:122-201 | the groups are scanned in rotation from the one drawn, each as the answers from the end of the one before on decide, all of them unless stopped at a limit; the candidates are those found and stay within their limit |
| RegistrationJanitor.Confirmation.FindMember | lambdas/functions/termination-watcher/src/registration-janitor.ts:239-263 | a runner is taken for absent only after requests for page 1 and each of the others, once, as page 1 counts them, all answered and none listing it; it is found only where an answer lists it |
| RegistrationJanitor.AllPagesChecked | lambdas/functions/termination-watcher/src/registration-janitor.ts:244-260 | page 1 followed by the rotation through the others is every page once |
| RegistrationJanitor.Confirmation.Confirm | lambdas/functions/termination-watcher/src/registration-janitor.ts:215-287 | a registration is deleted if and only if it is due, listed by an answer, without resource, and still the same offline, idle runner, with time left for every call; it is given up only when it is absent from every page; otherwise nothing is deleted and the outcome names the first answer that spared it |
| AppSelection.ExhaustionIsRemembered | lambdas/functions/control-plane/src/github/auth.ts:75-93 | an app reporting nothing left until a future reset is remembered as spent until then if and only if it was known or the clock is past its first minute |
| AppSelection.FirstMinuteForgets | lambdas/functions/control-plane/src/github/auth.ts:82-88 | why the clock must be past its first minute: a report before that after which the spent app looks full |
| AppSelection.ExhaustionOutlastsReports | lambdas/functions/control-plane/src/github/auth.ts:84-88 | no sequence of later reports shortens an exhaustion |
| AppSelection.SpentAppStaysSpent | lambdas/functions/control-plane/src/github/auth.ts:75-134 | after such a report the app is not eligible for the scope and resource before the reset, whatever is reported later |
| AppSelection.SpentOutlastsReport | lambdas/functions/control-plane/src/github/auth.ts:75-134 | a report about an app known to be spent that comes before the known reset leaves it without budget until then, or until the later reset of a report that it is spent |
| AppSelection.LatestReportCounts | lambdas/functions/control-plane/src/github/auth.ts:75-134 | unless the app was known to be spent, the latest report alone is the budget of its key, until its reset or for a minute without one, and it changes no other |
| AppSelection.RateLimits.ReportAppRateLimit | lambdas/functions/control-plane/src/github/auth.ts:75-93 | the stored states become the ones of the specification |
| AppSelection.RateLimits.ReportAppSecondaryRateLimit | lambdas/functions/control-plane/src/github/auth.ts:95-101 | a cooldown is only ever prolonged, and for one app |
| AppSelection.RateLimits.SelectAppIndex | lambdas/functions/control-plane/src/github/auth.ts:109-143 | chooses an eligible app with the largest budget, the first of the rotation among equals, and nobody if and only if nobody is eligible |
| AppFailover.BarredExactlyWhileItLasts | lambdas/functions/control-plane/src/github/app-failover.ts:38-55 | if nothing else was known against the app, a remembered primary limit bars it for the resource, and a secondary one altogether, at a later time if and only if that is before the reported end plus a second, if that end lies ahead, and before a minute from now otherwise |
| AppFailover.Failover.Select | lambdas/functions/control-plane/src/github/app-failover.ts:109-125 | ends; chooses the best app not tried before, with core quota at the next question if it has no client; counts as tried exactly those it passed over for lack of core quota; chooses nobody only if nobody is eligible |
| AppFailover.Failover.RememberLimit | lambdas/functions/control-plane/src/github/app-failover.ts:144-146 | after a primary limit the app is not eligible for the resource, after a secondary one for nothing, at any time before the reported end, or before a minute from now if none lies ahead |
| AppFailover.Failover.Recover | lambdas/functions/control-plane/src/github/app-failover.ts:134-155 | after a rate limit, exactly that limit is remembered, and the next app is selected from what is then known |
| AppFailover.Failover.Attempt | lambdas/functions/control-plane/src/github/app-failover.ts:127-158 | ends; the request is a run of selections and tries in which every try came out as it was answered and every selection but the first follows a rate limit that was remembered; it succeeds exactly with the last try |
| AppFailover.EachAppOnce | lambdas/functions/control-plane/src/github/app-failover.ts:127-158 | in every run each app runs the request at most once, and every try but the last was rate limited |
| AppFailover.NobodyElseIsLeft | lambdas/functions/control-plane/src/github/app-failover.ts:109-158 | a rate limit is final only when every app has tried, was passed over at a question at which it had no client and then no core quota (never for core itself), or is not eligible by what is known at the end |
| AppFailover.LimitsAreKept | lambdas/functions/control-plane/src/github/app-failover.ts:134-158 | every limit a finished request has run into bars the app at its end and at every later time before the reported end, whatever later tries ran into and whatever the others reported |

## Left out

* Transport to AWS, DynamoDB, SSM and GitHub, abort signals, timers and response streaming: an aborted reconciliation
  or run ends without a result and is not modelled.
* DynamoDB's own TTL deletion, the reconcile marker and its claim, and the placement signal cache.
* Environment, manifest and label parsing, AMI lookup, launch template and tag contents.
* Logging, metrics and tracing.
* Error-code extraction from SDK errors and `safeFailureIdentifier`: failures arrive already classified.
* Dates that do not parse count as absent dates, except the activation time and the idle marker, which keep the difference.
* The map key of a rate-limit state is the triple it is built from; a scope or resource that makes two keys collide is not modelled.
* A throw that ends a whole scale-up invocation (failed app authentication, failed count of current runners) is not modelled; SQS then redelivers the batch.
* The orphan path of scale-down (`terminateOrphan`) and the order in which runners with a missing launch time are sorted: the order of evaluation is an input.
- WarmProtocol.ClaimedInstancesAreSafe: the documentation promises it without assumptions; it is false without any one of the four, as the four runs show.
- WarmProtocol.RunKeepsInv: a sweep's listing and its decision are one step, owner ids are unique, and a spot request shows only in the instance AWS launches for it.
- WarmActivation.Activation.ActivateWarmRunners: index writes that other invocations make meanwhile show only in the answers; the shared table is the subject of WarmProtocol.
- StandbyRead.ReadStandbyInstances: instances that are tagged but not indexed are adopted in pool.ts, which is not part of this model, nor is the binding of spot requests.
- WarmPool.ReconcileWarmPool: the cancelling of orphaned spot requests only yields a count.
- ScaleSetProvider.Provider.Reconcile: instance ids and names are assumed to be short printable text, and EC2 to return at most the requested number.
- RunnerCreation.RunnerFactory.CreateRunners: a throw of the EC2 layer after a launch (only an abort can cause it) is not modelled.
- LifecycleMemory.Memory.RememberLifecycle: the message loop and session around it are not modelled.
- IdleConfirmation.Sweeps.EvaluateAndRemoveRunners: the cache of GitHub listings is part of the answers.
- RegistrationJanitor.Discovery.DiscoverGroup: looking at one registration (name, status, existence of its resource, enqueuing) is one verdict.
- AppFailover.Failover.Attempt: reports of concurrent requests come in at the points where the code waits.
