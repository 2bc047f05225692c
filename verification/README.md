# Verification of the Spike scheduler and auto-scaler

Spike is a serverless platform: callers push function calls onto a queue, one scheduling routine
places each call on a running container instance, and a fleet manager creates and removes instances
as the sampled demand asks. Two state machines do this work, and they share two database tables.
The *placement table* holds a row for every request that occupies an instance. The *instance table*
holds a row for every instance. This project models both machines and proves what they keep.

## How the model is built

* `Protocol` is a step system of everything that runs concurrently: callers in their retry loop, the
  scheduling routine, one routine for each dispatched request, the fleet manager, and one drain
  routine for each removed instance. A step is one table query, one table update, one queue operation
  or one hand-over on a channel. `IsRun` allows any interleaving and any failing query. `History`,
  `Pairing` and `Safety` hold the inductive invariants, and `Runs` the results for every run.
  `Provenance` traces requests, responses and placements back to the actions of the run that brought them
  in, and `LiveDemand` leads from live requests to the demand computed from a sample.
  `Witnesses` and `DrainLoss` build runs in which a property fails, and prove when exactly it can fail.
* `Policies`, `Scheduler`, `Queue`, `FuncManager`, `ResScales` and `StatusRefresh` are the imperative
  code: the policies with an array sort, the scheduler, queue and fleet manager as classes, and the
  loops of the auto-scaler and of the status refresh. Each method is proved against a relation or
  function that the lemmas are about: `Placement` says what a policy may choose, `Fleet` what creation
  and scaling do, `DemandSpec` what demand is, `Window` what the window holds.
  `Scheduler.ScheduleRefinesProtocol` turns one call of the `Schedule` method into a path of the step
  system, and `Retries.CallIsAPath` the retry loop of `CallFunction` into a path of one of its callers; the
  fleet steps of the protocol are the very functions that `FuncManager` implements.
* `Stabilisation` composes the auto-scaler with scaling, `Agreement` the auto-scaler with the scheduler.

Assumptions, which the code relies on and does not check:

* Arithmetic on `float64` is arithmetic on `real`, and `int32` sums do not wrap around.
* Under the base policy the requirements of requests are not negative. This is exactly what the
  capacity result needs (`Witnesses.SafeDemandsAreNonNegative`).
* Cpu and memory of specs and instances are positive; a function has at least one spec, its shapes are
  distinct, and `0 <= MinReplica <= MaxReplica` (`Types.ValidSpecs`). The threshold is positive and the
  window length is not negative.
* Request ids and service names never repeat; they are modelled as counters. The response channel of a
  call is named by the call.
* A task runs with the size of its instance, so the capacity of an instance does not change. This is
  exactly what a status refresh needs to be a step of the protocol (`StatusRefresh.RefreshIsAStep`).
* A database operation is performed or fails without effect, and the placement table is empty when the
  server starts (the scheduler clears it then).
* One call of `CreateFunction`, `ScaleFunction` or `DeleteFunction`, and one read-and-write-back of the
  status monitor, is one step. Taking an id and pushing the request is one step, and so is popping the
  queue and starting the call routine.
* Task descriptions come back in the order in which they were asked for.

Where the code and its documentation disagree, the model follows the code: `README.md:127` says that
memory 0 in a call stands for a default value, but the scheduler takes it as a requirement of 0.

Some results say that the code does *not* do what one may expect:

* A scale-down can delete an instance under an unanswered request
  (`Witnesses.SplitScheduleCanLoseAService`), because the scheduler reads the instance table some time
  before it inserts the placement row. At most one request is hit, and only through a scheduler that held
  the service when its row was removed (`Runs.DrainedServices`). The condition is exact in every reachable
  state (`DrainLoss.LossIsExact`). For the scale-down itself it reads (`DrainLoss.ScaleDownIsExact`): a
  service that is removed can be deleted under an unanswered request if and only if, at that moment,
  the scheduler has chosen it and not yet inserted the row, or has a list of instances from which its
  policy chooses it once some of the running requests are gone; and every row now on the service belongs
  to a request that was answered or whose caller is ready to receive the answer, so that the drain can
  come to see no row.
* The capacity of an instance is respected on all demands if and only if they are not negative, or the
  policy is one task per node (`Witnesses.SafeDemandsAreNonNegative`).
* A scale-down request creates instances exactly when the function is below its minimum and the creation
  works; otherwise every scale request moves the count in its own direction and no further than asked
  (`Runs.ScalingKeepsDirection`). Only a function whose creation broke off after it was registered, or
  whose deletion kept its metadata, can be below its minimum, and every creation may break off so
  (`Witnesses.BrokenCreationTurnsScaleDownUp`).
* `StatusRefresh.UpdateInstancesStatus`: an instance without tasks is written back as NOT_CREATED only if
  some other instance in the same batch has a task, and the description of tasks works.

## Model

| member | source | states |
|---|---|---|
| Runs.InvariantHolds | pkg/reqscheduler/reqscheduler.go:92-250 | All inductive invariants (queue order, placements, pairing, retries, attempt counts, slots, capacity, lone fits, drains) hold in every state of every interleaving |
| Runs.CapacityIsNeverExceeded | pkg/reqscheduler/reqscheduler.go:114-169 | In every state of every run, the rows placed on any instance ever created never exceed its cpu or its memory: under the base policy for non-negative demands, under the one-task policy for all demands |
| Runs.OneRowPerService | pkg/reqscheduler/schedule.go:93-130 | Under the one-task policy no service ever has two placement rows, in any run and on any input |
| Runs.FirstInFirstOut | pkg/reqscheduler/reqscheduler.go:106-170 | Submitted is dispatched followed by queued, except between insert and pop, when the head is in both; ids are distinct; what the scheduler holds is still the head, despite pushes in between and failed inserts |
| Runs.ResponsesReachTheirAttempt | pkg/reqscheduler/reqscheduler.go:172-250 | The unanswered attempts of a caller are exactly the one it waits for, or none if it does not wait; a routine that has not answered has its caller waiting for that very attempt |
| Runs.CallsReturnFirstSuccessOrLastError | pkg/reqscheduler/reqscheduler.go:197-229 | In every state, the requests pushed for a call are at most its attempts so far, which are at most MaxRetry; a returned call gives the first success, or the error of the last attempt allowed |
| Provenance.AnswersReachTheirCaller | pkg/reqscheduler/reqscheduler.go:232-240 | In every run, what the worker answered to a request becomes the next outcome of the very call that pushed it when the routine responds; a success is returned at once |
| Provenance.OutcomesAreTraced | pkg/reqscheduler/reqscheduler.go:197-240 | Every outcome a call ever recorded is the error of one of its own failed submissions, or what a worker answered to one of its own requests earlier in the run |
| Provenance.SuccessesComeFromWorkers | pkg/reqscheduler/reqscheduler.go:227-240 | A call returns a payload only if a worker answered one of its own requests with that payload |
| Provenance.RequestsCarryTheirCalls | pkg/reqscheduler/reqscheduler.go:172-185 | In every run, each request pushed carries the function, payload, cpu and memory its call was made with |
| Provenance.RequestsGoToRunningInstances | pkg/reqscheduler/reqscheduler.go:114-169 | In every state, each placement row and call routine carries its request as submitted, field by field, and the service and address of an instance of its function that had the status RUNNING at some earlier moment |
| Runs.FailuresChangeNothing | pkg/reqscheduler/reqscheduler.go:111-165 | A failing operation changes no table, no queue and no caller |
| Runs.DrainedServices | pkg/funcmanager/funcmanager.go:234-268 | A deleted service has no instance row; at most one unanswered request is on it, and none unless the scheduler already held the service when its row was removed |
| Runs.WholeSchedulesExposeNothing | pkg/funcmanager/funcmanager.go:232-247 | If no scaling falls between the scheduler's instance read and its insert, the scheduler holds no service at the moment it is removed |
| Runs.WholeSchedulesDrainSafely | pkg/funcmanager/funcmanager.go:234-268 | In such runs a removed service never gets another row, and it is deleted only when no unanswered request is on it |
| Runs.ReplicasStayWithinLimits | pkg/funcmanager/funcmanager.go:131-247 | Over every run each spec keeps at most MaxReplica and, once fully created and until it is deleted, at least MinReplica instances; if the pools differ its hot instances stay exactly MinReplica |
| Runs.ScalingKeepsDirection | pkg/funcmanager/funcmanager.go:190-247 | In every reachable state, for every request and every outcome of the outside calls, the count in the table moves in the direction asked for and no further than asked, if and only if it is not a working scale-down of a function below its minimum; fully created functions are never below it |
| Runs.ScalingStopsAtTheLimits | pkg/funcmanager/funcmanager.go:190-247 | In every reachable state a working scale-up ends at the smaller of the count asked for and the maximum; a scale-down at the largest of the count asked for, the minimum and the instances outside the cold pool, or at the minimum if it started below; instances outside the cold pool stay |
| Runs.SnapshotsNeverUndercount | pkg/funcmanager/funcmanager.go:505-530 | With any steps between the queue read and the table read, a request live throughout is sampled; each id occurs once for each read it was live at, so at most twice; each sample has the function, cpu and memory of the submitted request |
| Runs.LiveUntilTheTableIsRead | pkg/reqscheduler/reqscheduler.go:161-166 | Insert before pop: a request that left the queue before the first read and is live at the second has its row |
| LiveDemand.DemandCoversWhatIsLive | pkg/funcmanager/funcmanager.go:505-587 | For any different requests live throughout the two reads, the demand computed from the sample is at least the demand of these requests alone, for every function and spec |
| Runs.QueueOnlyAdvances | pkg/reqscheduler/reqqueue.go:79-91 | Along any run the popped count and the submitted history only grow |
| Witnesses.SplitScheduleCanLoseAService | pkg/reqscheduler/reqscheduler.go:114-169 | A run in which Schedule is split around a scale-down and a service is deleted under an unanswered request |
| Witnesses.NegativeDemandBreaksCapacity | pkg/reqscheduler/schedule.go:72-85 | For all lower bounds on demands of which one is negative, there is a run within these bounds that overloads a node |
| Witnesses.SafeDemandsAreNonNegative | pkg/reqscheduler/schedule.go:72-110 | All runs with demands above given bounds respect capacity if and only if the bounds are non-negative or the policy is one task per node |
| Witnesses.BrokenCreationTurnsScaleDownUp | pkg/funcmanager/funcmanager.go:121-206 | From any reachable state, creating any new function can break off so that every scale-down of a spec with a positive minimum then creates that minimum of instances |
| DrainLoss.LossIsExact | pkg/funcmanager/funcmanager.go:251-268 | In every reachable state, in every phase of scheduler and drain and with any rows: some continuation deletes a removed service under an unanswered request if and only if the service is losable, a condition on that state alone |
| DrainLoss.ScaleDownIsExact | pkg/funcmanager/funcmanager.go:232-268 | A service that a scale-down removes in a reachable state can be lost if and only if the scheduler may still insert on it without a new read, and all its rows can go |
| DrainLoss.LosableBackwards | pkg/reqscheduler/reqscheduler.go:114-169 | No step of any goroutine makes a removed service losable that was not losable before |
| DrainLoss.NoLossWithoutTheScheduler | pkg/funcmanager/funcmanager.go:251-268 | A drain that still polls, whatever rows its service has, deletes it under no request in any continuation, if the scheduler does not hold the service |
| History.FifoStep | pkg/reqscheduler/reqscheduler.go:106-194 | Every step keeps the order of submissions, dispatches and the queue |
| History.PlacementsStep | pkg/reqscheduler/reqscheduler.go:161-169 | Every step keeps: rows are dispatched requests with their own demands, each once, and every unanswered routine still has its row |
| History.SubmittedIsDispatchedThenQueued | pkg/reqscheduler/reqscheduler.go:161-166 | The conservation law of the queue, in both phases of the scheduler |
| Pairing.PairedStep | pkg/reqscheduler/reqscheduler.go:172-250 | Every step keeps the pairing of waiting callers with queued or unanswered attempts, with stale rows of earlier attempts around |
| Pairing.RespondEndsOneWait | pkg/reqscheduler/reqscheduler.go:232-241 | Handing over a response ends the wait of the caller that awaits exactly this attempt and records that response; every other caller and routine stays as it is |
| Pairing.OneUnansweredAttempt | pkg/reqscheduler/reqscheduler.go:197-226 | Given the pairing, the set of unanswered attempts of a caller is the singleton of its awaited id, or empty |
| Pairing.EndAttemptOk | pkg/reqscheduler/reqscheduler.go:205-226 | Ending an attempt keeps: loop counter equals the number of failures so far, and a return is the first success or the last allowed error |
| Pairing.CountedStep | pkg/reqscheduler/reqscheduler.go:172-229 | Every step keeps: no more requests were pushed for a call than attempts of it ended or are awaited |
| Safety.CapacityStep | pkg/reqscheduler/reqscheduler.go:123-165 | Every step keeps the load within capacity, and also the room for the choice the scheduler holds |
| Safety.SoloStep | pkg/reqscheduler/schedule.go:101-110 | Under the one-task policy every step keeps: each placed request fits its instance on its own, on any demands |
| Safety.SlotsStep | pkg/funcmanager/funcmanager.go:131-268 | Every step keeps: rows and the scheduler's lists refer to created instances of their own function, drains are exactly the removed services, replica limits hold |
| Safety.DrainsStep | pkg/funcmanager/funcmanager.go:251-268 | Every step keeps: rows inserted after a removal plus those still to come are at most what the scheduler held then; after the drain saw no rows, only such late rows exist |
| Safety.ScalingStartsFreshDrains | pkg/funcmanager/funcmanager.go:234-247 | Scaling hands over each removed service once and leaves the drains that run alone |
| Safety.DeletedServiceCarriesAtMostOne | pkg/funcmanager/funcmanager.go:251-268 | Two unanswered requests on a deleted service are the same request, placed after the removal by a scheduler that held the service |
| Tables.LoadOfFunction | pkg/reqscheduler/reqscheduler.go:123-129 | Reading only the rows of the function loses no load of an instance of that function |
| Tables.LoadOfDelete | pkg/storage/mysql.go:220-222 | Deleting the row of a request lowers each load by that row and nothing else |
| Tables.LoadCoversRow | pkg/reqscheduler/schedule.go:44-49 | With non-negative rows, the load of a service is at least any one row on it |
| Placement.ChoiceRespectsCapacity | pkg/reqscheduler/schedule.go:73-85 | Whatever either policy chooses, the load with the new row is within the capacity it guards |
| Placement.SuitableMeans | pkg/reqscheduler/schedule.go:73-110 | An instance has room under the base policy exactly if neither sum exceeds its cpu or memory, and is available under the one-task policy exactly if it has no row and is large enough |
| Placement.BestFitIsSmallestThenBusiest | pkg/reqscheduler/schedule.go:62-85 | A best fit has the least cpu, then the least memory, then the highest cpu load of all instances with room |
| Placement.BestFitIsUnique | pkg/reqscheduler/schedule.go:62-70 | Shape and load of a best fit do not depend on the order in which the map is visited |
| Sorting.BeforeIsStrictWeakOrder | pkg/reqscheduler/schedule.go:62-70 | The comparator is irreflexive, asymmetric and negatively transitive |
| Sorting.SortSlice | pkg/reqscheduler/schedule.go:62-70 | The slice ends as a sorted permutation of itself |
| Policies.AddUsage | pkg/reqscheduler/schedule.go:44-49 | The usage loop gives every instance the sum of its rows, for cpu and memory, and skips unknown services |
| Policies.FirstWithRoomIsBestFit | pkg/reqscheduler/schedule.go:62-85 | In any list sorted by the comparator, the first entry with room is minimal in cpu and memory and most loaded among equals |
| Policies.BaseSchedule | pkg/reqscheduler/schedule.go:42-88 | Nil exactly if no running instance has room; otherwise a best fit, returned with its service and address |
| Policies.OneTaskSchedule | pkg/reqscheduler/schedule.go:94-130 | For every random number: nil exactly if every large enough instance has a row; otherwise an instance without rows that holds the request |
| Policies.AvailableNodes | pkg/reqscheduler/schedule.go:101-110 | The list holds exactly the unscheduled nodes that satisfy both requirements |
| Queue.ReqQueue.Pop | pkg/reqscheduler/reqqueue.go:79-85 | The former front followed by the new queue is the former queue; an empty queue stays empty |
| Queue.ReqQueue.Snapshot | pkg/reqscheduler/reqqueue.go:93-111 | One sample for each queued request, in order, with its id, function, cpu and memory |
| Queue.GetAllReq | pkg/funcmanager/funcmanager.go:505-531 | The samples of the queue followed by those of the table, each with the id, function, cpu and memory of its entry; or nothing if the table cannot be read |
| Scheduler.ReqScheduler.Schedule | pkg/reqscheduler/reqscheduler.go:106-170 | Chooses as the policy must from the tables; then either nothing changed, or the head left the queue, its row was appended and its routine started |
| Scheduler.ReqScheduler.CallFunction | pkg/reqscheduler/reqscheduler.go:197-229 | For all failing submissions and responses, the retry loop returns the first success, or the error of the last attempt allowed after all earlier ones failed, or a fixed error when no attempt is allowed |
| Retries.CallFunctionRefinesProtocol | pkg/reqscheduler/reqscheduler.go:197-229 | For every retry limit, outcomes and a result satisfy the contract of the retry loop if and only if the caller of the protocol has a path of moves on which it collects these outcomes and returns that result |
| Retries.CallIsAPath | pkg/reqscheduler/reqscheduler.go:172-229 | The attempts of the loop, each a failing submission or a push, a trigger hand-over and a response, are in this order a path of the caller of the protocol to the result of the loop |
| Retries.EveryStepIsAMove | pkg/reqscheduler/reqscheduler.go:172-250 | Each step of any goroutine leaves a caller alone or is one of its moves |
| Retries.RunsFollow | pkg/reqscheduler/reqscheduler.go:172-250 | What a caller goes through between any two states of a run is a path of its moves |
| Scheduler.ScheduleRefinesProtocol | pkg/reqscheduler/reqscheduler.go:106-170 | What one call of Schedule does is a path of protocol steps from any agreeing state to an agreeing state, for every combination of failing queries |
| FleetProofs.ClampedKeepsDirection | pkg/funcmanager/funcmanager.go:191-206 | The clamped number keeps sign and bound of a request if and only if the present count is on the right side of the limit it is compared with |
| FleetProofs.LimitsOfSpec | pkg/funcmanager/funcmanager.go:180-190 | The limit lookup finds the one spec of the shape, and -1 if there is none |
| FleetProofs.ScaleTally | pkg/funcmanager/funcmanager.go:159-249 | Scaling moves the count of its own function and shape by the clamped change, less only for lack of cold instances, not at all when the call it needs fails, and no other count |
| FleetProofs.NothingIsScaled | pkg/funcmanager/funcmanager.go:159-231 | Failing reads, an unknown function, an unknown shape, or a failing creation leave the whole fleet as it is |
| FleetProofs.ScaledInstancesWait | pkg/funcmanager/funcmanager.go:208-231 | Rows that scaling enters are of the requested function and shape, in the cold pool, and do not run yet |
| FleetProofs.RemoveColdOnly | pkg/funcmanager/funcmanager.go:234-247 | Scale-down removes only cold instances of the requested function and shape; every instance it removes is drained, and every service it drains was in the table and has no row left |
| FleetProofs.RemoveColdTally | pkg/funcmanager/funcmanager.go:234-247 | It removes as many as asked for, or all the cold ones |
| FleetProofs.MatchingKeepsOrder | pkg/funcmanager/funcmanager.go:166-169 | The instances that scaling looks at come in the order of the table |
| FleetProofs.RemoveColdTakesTheFirst | pkg/funcmanager/funcmanager.go:234-247 | It takes the first cold instances of the list, in the order of the list |
| FleetProofs.RemoveColdKeepsOthers | pkg/funcmanager/funcmanager.go:234-247 | It changes no count of another function, shape or pool |
| FleetProofs.HotTally | pkg/funcmanager/funcmanager.go:131-151 | Creation gives each spec exactly MinReplica hot instances |
| FleetProofs.CreationWorks | pkg/funcmanager/funcmanager.go:75-157 | A working creation of an unknown function registers its specs, enters exactly the minimum of hot instances of each, none of them running, and leaves the rest alone |
| FleetProofs.ScaleKeepsOk | pkg/funcmanager/funcmanager.go:208-247 | Scaling keeps the instance table consistent with the history of creations and removals, which only grows |
| FleetProofs.ScaleKeepsBounded | pkg/funcmanager/funcmanager.go:159-249 | Scaling by any count, working or failing, keeps the replica limits of all specs |
| FleetProofs.CreateKeepsBounded | pkg/funcmanager/funcmanager.go:75-157 | Creation, complete or broken off, keeps the replica limits of all specs |
| FleetProofs.DeleteKeepsOk | pkg/funcmanager/funcmanager.go:375-403 | Deletion keeps the instance table consistent with the history of creations and removals, whether or not the metadata goes |
| FleetProofs.DeleteKeepsBounded | pkg/funcmanager/funcmanager.go:375-403 | Deletion keeps the replica limits of all other functions |
| FleetProofs.DeletionWorks | pkg/funcmanager/funcmanager.go:375-403 | A working deletion makes the function unknown, takes exactly its instances out of the table, and allows it to be created again |
| FuncManager.FuncManager.CreateFunction | pkg/funcmanager/funcmanager.go:75-157 | The loops over specs and replicas implement the creation function of the fleet, with its failures |
| FuncManager.FuncManager.FindLimits | pkg/funcmanager/funcmanager.go:180-185 | The scan returns the limits of the last spec with the shape |
| FuncManager.FuncManager.DeleteCold | pkg/funcmanager/funcmanager.go:234-247 | The loop that counts up while deleting implements the removal of the first cold instances in table order |
| FuncManager.FuncManager.ScaleFunction | pkg/funcmanager/funcmanager.go:159-249 | Implements the scaling function of the fleet; reports success exactly if reads work, the spec exists and a needed creation works |
| FuncManager.FuncManager.DeleteFunction | pkg/funcmanager/funcmanager.go:375-403 | Removes all instance rows of a known function, and its metadata unless that fails; drains nothing and changes nothing else |
| FuncManager.FuncManager.PushSnapshot | pkg/funcmanager/funcmanager.go:466-472 | Pushes at the front, trims to the window length, and says whether the window is full; the trimming ends |
| FuncManager.FuncManager.AutoScaleTick | pkg/funcmanager/funcmanager.go:456-495 | A failed read leaves everything alone; otherwise the window advances, and a full window applies a plan that wants target less present count for every spec of every function, in whatever order the map is visited and whichever requests fail |
| StatusRefresh.UpdateInstancesStatus | pkg/funcmanager/funcmanager.go:290-373 | Writes nothing exactly if no task is listed or the description fails; otherwise each refreshed row shows the name, size, statuses and the wanted address of the first newest of its own tasks and keeps service, function and pool, or gets the status NOT_CREATED alone |
| StatusRefresh.RefreshedRowsRun | pkg/funcmanager/funcmanager.go:342-370 | After the write-back a refreshed row is among the running instances of its function if and only if the first newest of its own tasks has the status RUNNING |
| StatusRefresh.DueExactly | pkg/funcmanager/funcmanager.go:295-303 | An instance is refreshed exactly if its status is not the desired one or its row is stale, and the listing of its tasks works |
| StatusRefresh.CollectTasks | pkg/funcmanager/funcmanager.go:291-321 | The index lists cut the flat task list into consecutive ascending runs in instance order, each pointing at the tasks of its instance |
| StatusRefresh.OwnTasks | pkg/funcmanager/funcmanager.go:342-352 | Descriptions at the positions recorded for an instance are those of its own tasks |
| StatusRefresh.FindNewest | pkg/funcmanager/funcmanager.go:343-353 | The scan keeps the newest task of the indices, or none |
| StatusRefresh.NewestIsFirstMaximum | pkg/funcmanager/funcmanager.go:344-353 | The kept task is a newest one, and the first of the newest |
| StatusRefresh.RefreshIsAStep | pkg/storage/mysql.go:162-173 | Writing the batch back changes only status, task and address of existing rows, and so is a step of the protocol, if and only if every newest task runs with the size of its instance |
| ResScales.CalResScale | pkg/funcmanager/funcmanager.go:533-623 | For every function, a count for every spec in sorted order: the target of the demand specification less the instances present |
| ResScales.CountCurrent | pkg/funcmanager/funcmanager.go:561-568 | The nested map counts the instances of every function and shape |
| ResScales.ChooseSpec | pkg/funcmanager/funcmanager.go:575-582 | The scan with break finds the first fitting spec or the last one; what the request counts there is exactly the least number of instances of that shape that hold it |
| ResScales.SnapshotDemand | pkg/funcmanager/funcmanager.go:570-587 | The accumulated map is the demand of the specification for every function and shape; unknown functions are skipped |
| ResScales.AverageDemand | pkg/funcmanager/funcmanager.go:589-597 | The accumulated averages are those of the specification for every shape |
| ResScales.SortedSpecsAreUsable | pkg/funcmanager/funcmanager.go:546-552 | Sorting valid specs gives a strictly ascending order, so that "last" is "largest" |
| DemandSpec.BucketIsLeastFit | pkg/funcmanager/funcmanager.go:574-582 | A request is charged to the lexicographically least spec that holds it, or to the largest spec if none does |
| DemandSpec.BucketInNumbers | pkg/funcmanager/funcmanager.go:546-582 | The bucket has the least cpu, then the least memory, of all specs with room, or the most of all specs if none has room |
| DemandSpec.RatioIsLeastHold | pkg/funcmanager/funcmanager.go:576-581 | A number of instances of a shape holds the cpu and the memory of a request if and only if it is at least what the request counts |
| DemandSpec.ChargedExactlyOnce | pkg/funcmanager/funcmanager.go:583-583 | It counts towards one spec of its function and no other |
| DemandSpec.DemandCoversLoad | pkg/funcmanager/funcmanager.go:574-583 | For every snapshot and bucket, demand times cpu is at least the cpu charged to it, and demand times memory the memory |
| DemandSpec.DemandIsLeast | pkg/funcmanager/funcmanager.go:570-587 | No assignment that gives each charged request enough instances to hold it adds up to less than the demand |
| DemandSpec.DemandIsAtMostBothLoads | pkg/funcmanager/funcmanager.go:574-583 | Demand is at most the sum of the two ratios of charged load to shape, and never negative |
| DemandSpec.DemandIgnoresRequestOrder | pkg/funcmanager/funcmanager.go:573-585 | Permuting the requests of a snapshot changes no demand |
| DemandSpec.AverageIgnoresSnapshotOrder | pkg/funcmanager/funcmanager.go:589-597 | Permuting the snapshots of the window changes no average |
| DemandSpec.TargetIgnoresRequestOrder | pkg/funcmanager/funcmanager.go:570-603 | Permuting the requests of any snapshot of the window changes no target |
| DemandSpec.TargetIgnoresSnapshotOrder | pkg/funcmanager/funcmanager.go:589-603 | Permuting the snapshots of the window changes no target |
| DemandSpec.OneMoreRequest | pkg/funcmanager/funcmanager.go:570-603 | One more request in any snapshot lowers no target and moves at most that of the spec it is charged to |
| DemandSpec.AverageIsMeanByThreshold | pkg/funcmanager/funcmanager.go:589-597 | Adding shares snapshot by snapshot gives the mean demand divided by the threshold |
| DemandSpec.MeanWithinDemands | pkg/funcmanager/funcmanager.go:589-597 | The mean lies between the bounds of the single demands |
| DemandSpec.RoundIsNearest | pkg/funcmanager/funcmanager.go:603-603 | Rounding gives n exactly within one half of n, a tie going away from zero |
| DemandSpec.TargetIsNearest | pkg/funcmanager/funcmanager.go:603-603 | The target is the one number within the limits that is nearest to the rounded average |
| DemandSpec.TargetTracksMean | pkg/funcmanager/funcmanager.go:589-603 | With the clamp inactive, target times threshold is within half a threshold of the mean demand |
| DemandSpec.ConstantDemand | pkg/funcmanager/funcmanager.go:589-603 | A constant demand d gives exactly the rounded and clamped d divided by the threshold, and a target within one half of it where the clamp is inactive |
| Stabilisation.WantedIsNotClamped | pkg/funcmanager/funcmanager.go:599-610 | What CalResScale asks for is applied unchanged: the second clamp never acts, from any fleet |
| Stabilisation.PlanScalesOnce | pkg/funcmanager/funcmanager.go:478-495 | In a plan, each spec ends where its one request alone would take it, whatever the order and whichever requests fail |
| Stabilisation.OneRoundReachesTargets | pkg/funcmanager/funcmanager.go:478-495 | From any fleet one round leaves each spec whose request takes effect at exactly the larger of its target and its number of non-cold instances, and a spec whose request fails as it was, whatever becomes of the other specs |
| Stabilisation.SecondRoundIsIdle | pkg/funcmanager/funcmanager.go:478-495 | After a round that worked, a second one on the same window leaves the whole fleet as it is, in any order of specs and whichever of its requests fail |
| Window.WindowIsNewest | pkg/funcmanager/funcmanager.go:461-472 | After any history of ticks the window is the newest successful snapshots, at most windowLen, newest first |
| Window.SuccessesInOrder | pkg/funcmanager/funcmanager.go:461-466 | The successful snapshots of a history are those of its later part followed by those of its earlier part |
| Window.ScalingUsesFullWindows | pkg/funcmanager/funcmanager.go:466-473 | Scaling starts with the successful tick number windowLen; the average is the mean of the last windowLen demands divided by the threshold |
| Agreement.SchedulerAndScalerAgree | pkg/reqscheduler/schedule.go:72-87 | On an idle fleet with every spec running, the scheduler picks the shape the auto-scaler charges; if no spec fits it picks none and the largest spec is charged |
| Agreement.ReachableFleetsAgree | pkg/reqscheduler/reqscheduler.go:113-145 | The same for what Schedule reads in any reachable state: that its instances have the shapes of the specs is proved of every run, not assumed |

## Left out

- FuncManager.FuncManager.CreateFunction: task definitions and image names are not modelled, and a failing part-way creation adds no instance row; `BatchCreateInstance` leaves services behind in that case (pkg/funcmanager/awsclient.go:97-114).
- FuncManager.FuncManager.DeleteCold: assumes that the row of a removed instance is really deleted; the source logs a failed delete and drains the service anyway.
- Scheduler.ReqScheduler.CallFunction: takes submission errors and responses as functions of the attempt; what produces them are steps of the protocol, which the loop follows by `Retries.CallIsAPath`.
- Scheduler.ReqScheduler.Schedule: statistics are values in a map that is reassigned; that the source's map and its sorted list share pointers is not modelled.
- Queue.ReqQueue.Pop: the queue is a sequence changed in one step, which stands for the linked list under its lock.
- Sorting.SortSlice: an insertion sort; the library's sort is replaced, and the policy results hold for every sorted order of equals.
- StatusRefresh.UpdateInstancesStatus: the addresses of a task are fields of its description, without the look-up of network interfaces; staleness of a row is an input instead of a clock.
- `SubmitRequest`, `CallInstanceFunctionRoutine` and `AsyncDeleteFuncInstance` appear as steps of the protocol only, not as methods.
- FuncManager.FuncManager.DeleteFunction: assumes that the instance rows are really deleted; the source logs a failed delete and goes on to the metadata. The services are deleted at once without a drain, so the drain results, which speak of the services that scaling removed, say nothing about requests on them.
- Interleavings inside one `ScaleFunction`, `CreateFunction`, `DeleteFunction` or status refresh: two overlapping scale calls could pass the maximum, and a refresh could write back a removed row.
- Eventual dispatch of a queued request: a head that fits nowhere blocks the queue by design, so no such claim holds.
- The worker call itself, AWS, HTTP and gRPC endpoints, the database driver, logging, configuration and the Java SDK.
- `GetStat`, the field-copy converters, conversions of launch types and random strings: no branching to prove anything about.
- Rounding of floating-point numbers, wrap-around of 32-bit sums, wall-clock time, tickers and sleeps.
