# Drone delivery: the transaction protocol and its guards, verified

A Dafny model of the delivery back end: the orders, drones and jobs tables, the six cross-table
transactions over them, the single-row operations, and the four guards in front of them (rate
limiter, circuit breaker, location cache, idempotency store). Run
`dafny verify dfyconfig.toml` to check everything.

## How it is put together

* `Domain`, `Protocol`: the rows, and each operation as a guard (`Verdict`, which also fixes which
  error wins) with an atomic effect on the three tables. A run is any sequence of operations from
  empty tables; failing operations change nothing.
* `Invariant`, `Consequences`, `Histories`, `Counting`: the coupling invariant that the source relies
  on without stating it, what it says about reachable states, and theorems over whole runs.
* `Chronicle`, `Refusals`: the guards and effects seen the other way round: for every column the operations
  that write it, and for every error the requests that get it.
* `Aggregates`, `Repositories`, `Delivery`, `Services`: the code in its own shape. Objects are loaded
  from rows, changed through guarded transitions and written back inside a transaction that works on
  its own copy of the tables. Each method is proved against `Protocol` for every content of the tables;
  the reservation alone assumes the foreign keys of the schema.
  Any statement may go unanswered (`Uptime`); inside a transaction the guarantee then is rollback.
* `Transactions`, `Claims`, `Serializability`: the same transactions as interleaved step machines with row
  locks and buffered writes, together with the single-row requests that read without a lock and write
  later, and the proof that they commit, and fail, exactly as `Protocol` does. `Completeness`: the converse.
* `UnlockedReads`: what a write without a lock does, exactly, when its row has changed since it was read.
* `Places`: where drones are recorded to be, in every interleaved run.
* `CacheAgreement`, `RateLimiter`, `CircuitBreaker`, `Idempotency`: the guards.

Identifiers drawn at random, clock readings and the answer of the geographic zone test are
parameters. A drawn identifier that is already taken is a primary-key error, so no freshness is
assumed. Of the time stamps two are kept, with no assumption on either: a drone's last heartbeat, and
a job's creation time, to show that the query sorting by it does not depend on it.

## Where code and documentation differ

* The documentation says that DELETE withdraws a pending order. The code writes a status `CANCELLED`,
  which is not among the order's statuses, from every unfinished status, and overwrites the submitter
  (internal/order/repository.go:105-107). `CancelExactly` and `CancelAgreesWithWithdraw` say exactly when.
* The documentation draws BROKEN as reachable from any state. A drone whose order was cancelled under it
  can never report itself broken (`BreakExactly`, `StrandedForever`); `CancelStrandsExactly` says which
  cancellations cause this, and `GuardedRunStrandsNoDrone` that the unused `Withdraw` would not.
* The admin update refuses terminal orders, but `CANCELLED` is not one of them: `FinalChangesExactly` says
  that this is the only way a finished order ever changes, and when.
* A heartbeat is meant to create an unknown drone. It takes every failing read for an unknown drone, so a
  known one may be reset while it carries an order (`EnsureExists`, `ResetKeepsCouplingExactly`,
  `ResetHeartbeatIsAtomicExactly`).
* Heartbeat, mark-fixed and admin update read without a lock and write the whole row back later. That is
  an atomic operation exactly when the columns they carry along have not changed (`StoreIsAtomicExactly`).
* The location cache is meant to follow the table. Cache writes that come late or are lost, resets and stale
  fixes break this; `CacheAgreesExactly` and `SerialAgreesExactly` say exactly when.
* The documentation calls the rate limiter a token bucket; the code is a sliding window that also counts
  rejected calls (`DecidesAsFullLog`).
* The rate limit holds per window of millisecond stamps; `NanosecondBoundExactly` says what remains of it in
  real time.
* The circuit breaker is meant to let one probe decide. Any request admitted earlier decides too, at once
  (`LeavesOpenExactly`, `HalfOpenDecidedBy`, `ClosesUnprobedExactly`).
* Idempotency keys protect retries one after the other, not overlapping ones (`ExecutesAgainExactly`), and
  separate users only if no name, with a colon after it, begins another (`UsersCollideExactly`). They do
  not name an endpoint, so one key used for two gets the first one's response (`NextIsMisansweredExactly`).

## Model

| member | source | states |
|---|---|---|
| `Serializability.Serializable` | internal/delivery/repo.go:37-285 | For any number of interleaved transactions (row locks, reads, buffered writes, commit or abort at any point) and single-row requests (unlocked read, later write), as long as every such write finds the columns it carries along as they were read, the committed tables are those of the serial run of the committed requests in commit order, each of which succeeds there; so they are reachable and coupled |
| `Serializability.TransactionsAreSerializable` | internal/delivery/repo.go:37-285 | The six transactions alone meet that proviso in every run |
| `Serializability.CommitsAreAtomic` | internal/delivery/repo.go:37-285 | In every run, single-row requests in time or not, each COMMIT has the guard and the effect of its request issued atomically on the tables committed at that moment |
| `Serializability.CoupledExactly` | internal/delivery/repo.go:37-285 | In every run the tables are coupled at every point if and only if every single-row write in it is harmless |
| `Serializability.WriteKeepsCouplingExactly` | internal/drone/service.go:62-86 | Which writes are harmless on coupled tables, if and only if: a reset or a fix of a drone without an order, a heartbeat that carries the order back with the status that matters, an admin update that carries back the drone and an indistinguishable status |
| `Serializability.StoreIsAtomicExactly` | internal/drone/service.go:62-86 | A write without a lock, by a heartbeat (its upsert of a drone it took for missing included), a fix or an admin update, is an atomic successful request if and only if what it does not mean to change is still as read |
| `Completeness.Drive` | internal/delivery/repo.go:37-285 | A running transaction at any statement, whose request would succeed now and the row locks of whose request nobody else holds, can be brought to a COMMIT with exactly that effect |
| `Completeness.AsksForWanted` | internal/delivery/repo.go:37-285 | The locks a transaction asks for on its way to success are among those its request determines on the committed tables |
| `Completeness.Serve` | internal/delivery/repo.go:37-285 | Every request that would succeed can be served by some sequence of statements |
| `Completeness.SameReach` | internal/delivery/repo.go:37-285 | The tables that interleaved runs commit are exactly the tables that serial runs reach |
| `Completeness.UndividedHeartbeat` | internal/drone/service.go:62-86 | A heartbeat whose statements nobody comes between: refused without a trace outside latitudes -90 to 90, longitudes -180 to 180 or the zone; the atomic heartbeat if its SELECT finds the drone; otherwise, also for a known drone whose SELECT is not answered, first the reset and then the heartbeat |
| `Completeness.UndividedUpdate` | internal/order/service.go:84-111 | A fix or an admin update whose statements nobody comes between is the atomic one if it succeeds and its SELECT is answered, and nothing otherwise |
| `Claims.CommitIsAtomic` | internal/delivery/repo.go:37-285 | A commit has exactly the guard and the effect of the atomic operation on the tables committed at that moment |
| `Serializability.FailuresAreAtomic` | internal/delivery/repo.go:37-285 | In every run, single-row requests in time or not, a transaction that ends itself with an error does so only when its request, issued atomically on the tables committed at that moment, would fail with the same error |
| `Claims.FailureIsAtomic` | internal/delivery/repo.go:37-285 | The same for one transaction at any of its statements, precedence of errors included |
| `Claims.NeverStuck` | internal/delivery/repo.go:37-285 | Nothing but a row lock ever keeps a transaction from executing its next statement |
| `Serializability.JobsChangeOnlyUnderLock` | internal/delivery/repo.go:37-285 | In every run the set of live jobs of an order changes only at a COMMIT of a transaction holding that order's row lock |
| `Claims.CommitFootprint` | internal/delivery/repo.go:37-285 | A commit changes only rows whose locks it holds, and jobs of an order only together with that order's lock |
| `Claims.ClaimSurvives` | internal/delivery/repo.go:79-285 | What a transaction has read and buffered stays what the atomic operation would read and write, whatever others commit meanwhile |
| `Claims.CancellingStep` | internal/job/repository.go:150-165 | One row of the multi-row cancelling UPDATE: its repeated WHERE check still matches, and done plus remaining rows stay the live jobs |
| `Claims.CancelledAll` | internal/job/repository.go:150-165 | The UPDATE done row by row under locks publishes the same jobs table as the UPDATE in one go, and matched at least one row |
| `UnlockedReads.WriteBackIsAtomicExactly` | internal/drone/service.go:62-86 | Reading a drone without lock and writing it back whole with location and time stamp equals the atomic heartbeat if and only if status and order are still as read |
| `UnlockedReads.WriteBackFixedIsAtomicExactly` | internal/admin/service.go:38-47 | Mark-fixed, which reads without lock and writes the row back as idle, is an atomic fix if and only if the drone is still broken and has sent no heartbeat |
| `UnlockedReads.WriteBackKeepsCouplingExactly` | internal/drone/service.go:62-86 | Exactly which stale rows a heartbeat may carry back without breaking the coupling of coupled tables |
| `UnlockedReads.PutKeepsCouplingExactly` | internal/drone/repository.go:60-66 | The same for an UPDATE of a whole drone row with anything at all |
| `UnlockedReads.WriteBackFixedKeepsCouplingExactly` | internal/admin/service.go:38-47 | A stale mark-fixed keeps the coupling if and only if the drone holds no order by now |
| `UnlockedReads.HeartbeatLosesReservation` | internal/drone/service.go:71-79 | A heartbeat that read before any reservation and writes after it leaves the drone idle on an assigned order, and the pick-up fails |
| `UnlockedReads.WriteBackOrderIsAtomicExactly` | internal/order/service.go:84-111 | An admin update's write-back equals the atomic update if and only if everything it does not set is still as read |
| `UnlockedReads.WriteBackOrderKeepsCouplingExactly` | internal/order/service.go:84-111 | A stale admin update keeps the coupling if and only if the order's drone is as read and its status is the same, both waiting for a drone, both delivered or failed, or both called off with no drone recorded |
| `UnlockedReads.AdminUpdateLosesReservation` | internal/order/service.go:85-109 | An admin update that read before any reservation and writes after it leaves the order waiting for a drone already on its way: it can be neither grabbed nor reserved again |
| `UnlockedReads.ResetKeepsCouplingExactly` | internal/drone/service.go:41-50 | EnsureExists upserts over an existing drone when its read fails; that keeps the coupling if and only if the drone holds no order |
| `UnlockedReads.ResetHeartbeatIsAtomicExactly` | internal/drone/service.go:71-79 | A heartbeat over such a reset is the atomic heartbeat if and only if the drone was unknown, or idle without an order |
| `Invariant.StepKeeps` | internal/delivery/repo.go:37-285 | Every one of the operations keeps the coupling invariant between orders, drones and jobs |
| `Invariant.RunKeeps` | internal/delivery/repo.go:37-285 | The invariant holds after every prefix of every run from empty tables |
| `Invariant.CallOffKeeps` | internal/delivery/repo.go:58-74 | Calling an order off together with its live job keeps the invariant, for the SQL cancellation and for the guarded withdrawal |
| `Invariant.HandOffKeeps` | internal/delivery/repo.go:259-282 | A handoff keeps the invariant |
| `Invariant.CancelLiveIsSingle` | internal/job/repository.go:150-165 | Under the invariant the cancelling UPDATE touches exactly one row |
| `Protocol.RunForeignKeys` | internal/repo/postgres/migrations/003_create_jobs.up.sql:1-8 | Every state of every run satisfies the foreign keys, which is all the reservation assumes of the tables |
| `Protocol.ForeignKeysKept` | internal/repo/postgres/migrations/003_create_jobs.up.sql:1-8 | The references between the tables survive every operation |
| `Consequences.AssignedIffCurrent` | internal/delivery/repo.go:79-285 | An order records a drone if and only if that drone records the order, cancelled orders included |
| `Consequences.LookupByDroneUnambiguous` | internal/order/repository.go:122-130 | The unordered single-row query by drone has at most one row to return |
| `Consequences.FullCoupling` | internal/delivery/repo.go:37-285 | Status by status: the exact set of jobs of an order that are not cancelled, their status and reserver, and the status of its drone |
| `Protocol.ReturnsNewest` | internal/job/repository.go:121-129 | The completing SELECT may return a job of the order that is not cancelled and than which none such is newer, any of them on ties, and no row if and only if there is none |
| `Consequences.PickIsUnique` | internal/job/repository.go:121-129 | For a picked-up order ORDER BY/LIMIT can return exactly one row, the job reserved by the order's drone, whatever the time stamps |
| `Consequences.ReserveNeverFailsAtTheOrder` | internal/delivery/repo.go:86-130 | Reserving succeeds if and only if the job is open and the drone exists and is idle: the later checks never fire |
| `Consequences.GrabNeverFailsAtTheDrone` | internal/delivery/repo.go:148-173 | Grabbing succeeds if and only if the order is assigned to the caller: the drone check never fires |
| `Consequences.CompleteNeverFailsLate` | internal/delivery/repo.go:188-231 | Completing succeeds if and only if the order is picked up by the caller; then the unguarded GoIdle hits a drone delivering this order, and the job is reserved by the caller |
| `Consequences.BreakExactly` | internal/delivery/repo.go:245-282 | A broken report succeeds if and only if the drone exists, is not broken and its order, if any, is not cancelled (and the new job id is free) |
| `Consequences.LiveJobIffUnfinished` | internal/job/repository.go:150-165 | An order has a live job if and only if it is pending, awaiting handoff, assigned or picked up |
| `Consequences.CancelExactly` | internal/delivery/repo.go:65-73 | A cancellation succeeds if and only if the order is unfinished; for a delivered or failed order the zero-row job UPDATE rolls it back |
| `Consequences.CancelAgreesWithWithdraw` | internal/order/model.go:41-48 | The SQL cancellation and the aggregate's PENDING-only Withdraw agree if and only if the order is not assigned, picked up or awaiting handoff |
| `Consequences.Progress` | internal/delivery/repo.go:79-231 | From every reachable state, reserve, grab and complete by any idle drone carry any waiting order to DELIVERED and the drone back to IDLE |
| `Consequences.BreakThenFix` | internal/admin/service.go:38-47 | Broken then fixed returns an en-route drone to IDLE with its order waiting on one fresh open job, unless that order was cancelled, when neither step does anything |
| `Refusals.NotFoundExactly` | internal/delivery/repo.go:79-260 | In every reachable state a request is answered NOT_FOUND if and only if the row it names first does not exist |
| `Refusals.ForbiddenExactly` | internal/delivery/repo.go:148-195 | A request is answered FORBIDDEN if and only if it is a pick-up or completion of an existing order by a drone that the order does not record |
| `Refusals.AlreadyReservedExactly` | internal/job/model.go:40-48 | A request is answered ALREADY_RESERVED if and only if it reserves an existing job that is not open |
| `Refusals.AlreadyBrokenExactly` | internal/drone/model.go:52-65 | A request is answered ALREADY_BROKEN if and only if it reports a broken drone |
| `Refusals.ValidationExactly` | internal/common/location.go:113-121 | A request is answered with a validation error if and only if the first of its locations that is not accepted is outside latitudes -90 to 90 or longitudes -180 to 180 |
| `Refusals.OutOfZoneExactly` | internal/order/service.go:41-50 | A request is answered OUT_OF_ZONE if and only if that location is in range but outside the zone |
| `Refusals.InvalidTransitionExactly` | internal/order/model.go:41-117 | In every reachable state a request is answered INVALID_TRANSITION if and only if the one row whose status decides is in the wrong one, operation by operation |
| `Refusals.InternalExactly` | internal/delivery/repo.go:37-285 | In every reachable state a request is answered with an internal error if and only if a drawn identifier is taken, the order to cancel is unknown or finished, or the reserving drone is unknown |
| `Histories.FinalForever` | internal/order/repository.go:105-120 | Delivered, failed and withdrawn rows never change again; of a cancelled row only the two locations can |
| `Histories.FinalChangesExactly` | internal/order/model.go:99-117 | A finished order changes if and only if it is cancelled and a successful admin update gives it a different location |
| `Histories.SubmitterExactly` | internal/order/repository.go:105-120 | In every run an order's submitter is its creator until a cancellation overwrites it, then whoever cancelled it |
| `Histories.OnlyOnce` | internal/order/repository.go:30-36 | In no run is an order created twice, cancelled twice or created after being cancelled |
| `Chronicle.ContentExactly` | internal/delivery/repo.go:37-285 | At every point of every serial run, each column of the three tables (status, drone, origin and destination of an order; status and order of a drone; status, reserver, order and creation time of a job) holds a value if and only if the latest successful operation that writes the column wrote it; `Writes` lists the writers from the requests alone |
| `Chronicle.StepWrites` | internal/delivery/repo.go:37-285 | One successful operation writes exactly those columns and leaves every other as it was |
| `Chronicle.EndsExactly` | internal/delivery/repo.go:188-207 | In every run an order is DELIVERED if and only if a successful completion reported it delivered, and FAILED if and only if one reported it not delivered |
| `Chronicle.OriginExactly` | internal/order/service.go:84-111 | In every run an order's origin is the one its creation gave until the latest successful admin update that gives one, then that; nothing else moves it |
| `Chronicle.DestinationExactly` | internal/order/model.go:18-31 | The same for its destination |
| `Histories.LocationExactly` | internal/drone/service.go:62-86 | In every serial run of whole operations a drone has a location and heartbeat stamp if and only if its latest accepted heartbeat reported them; `Places.PlaceExactly` is about all runs, resets and stale fixes included |
| `Histories.UnheardAtOrigin` | internal/drone/model.go:13-21 | A drone that has sent no heartbeat is at the origin point, unstamped |
| `Places.PlaceExactly` | internal/drone/repository.go:60-66 | In every interleaved run, whatever goes unanswered, a drone has a location and stamp if and only if the latest write of its row without a lock put them there: a heartbeat its own, the reset of a drone taken for missing none at the origin point, a fix those it had read |
| `Places.OnlyPutsMove` | internal/delivery/repo.go:37-285 | In every interleaved run no transaction and no admin update moves, stamps, creates or forgets a drone |
| `Places.PlacesAreReported` | internal/drone/service.go:62-86 | In every interleaved run, no drone is recorded at a place and stamp, or carried there by a stale row, that it has not itself reported in an accepted heartbeat, but for the origin point |
| `Histories.StaysInZone` | internal/order/service.go:41-50 | In every run whose orders are placed through the handler, every stored order location and every location of a drone heard from has latitude -90 to 90, longitude -180 to 180 and lies in the zone |
| `Histories.CancelStrandsExactly` | internal/order/repository.go:105-120 | A cancellation leaves an en-route drone on a cancelled order if and only if the order was assigned or picked up |
| `Histories.StrandedForever` | internal/delivery/repo.go:250-268 | Such a drone keeps its status and its order under every later step, broken reports included |
| `Histories.StrandedExample` | internal/order/repository.go:105-107 | Four ordinary requests reach such a state |
| `Histories.GuardedRunStrandsNoDrone` | internal/order/model.go:41-48 | In every run whose cancellations use Withdraw, an en-route drone holds an assigned or picked-up order and can report itself broken |
| `Histories.Attribution` | internal/delivery/repo.go:181-232 | A successful completion was preceded by the caller's reservation and then its pick-up of this order, the latest of either, with no break in between; the completed job records the caller |
| `Histories.Trails` | internal/delivery/repo.go:79-176 | Every carried order has such a trail at every point of every run |
| `Counting.WorkStep` | internal/order/model.go:50-97 | Every successful reserve, grab, complete or cancel lowers the summed rank of the orders; creations raise it by 3, broken reports by at most 2 |
| `Counting.BoundedWork` | internal/delivery/repo.go:37-285 | Over any run, those successes plus the remaining rank are at most 3 per creation and 2 per broken report |
| `Counting.EnRouteConserved` | internal/delivery/repo.go:79-285 | At every point of any run, en-route drones are the reserved jobs plus the cancelled orders still recording a drone |
| `Counting.BrokenConserved` | internal/admin/service.go:38-47 | Broken drones plus successful fixes are the successful broken reports |
| `Counting.JobsConserved` | internal/delivery/repo.go:237-285 | An order has one job and one more per handoff; its cancelled jobs are its handoffs, and one more once it is called off |
| `Delivery.Repository.CreateOrderAndJob` | internal/delivery/repo.go:37-54 | Commits order and open job exactly when neither id is taken; any error leaves every table unchanged |
| `Delivery.Repository.CancelOrderAndJob` | internal/delivery/repo.go:58-74 | Statement by statement, the SQL cancellation with the protocol's guard, effect and rollback |
| `Delivery.Repository.ReserveJobAndAssign` | internal/delivery/repo.go:79-136 | Statement by statement, the reservation with the protocol's guard (foreign key checked at the job UPDATE), effect and rollback; returns the reserved job |
| `Delivery.Repository.ReserveDrone` | internal/delivery/repo.go:114-130 | Ensure the drone exists, creating it idle if not, then reserve it: only an idle drone, and no other row changes |
| `Delivery.Repository.GrabOrder` | internal/delivery/repo.go:141-176 | Statement by statement, the pick-up with the protocol's guard, effect and rollback |
| `Delivery.Repository.CompleteDelivery` | internal/delivery/repo.go:181-232 | Statement by statement, the completion of whatever job the query returned, with the protocol's guard, effect and rollback |
| `Delivery.Repository.CloseOrder` | internal/delivery/repo.go:188-207 | The order's part: ownership, then delivered or failed, letting go of the drone |
| `Delivery.Repository.CompleteJob` | internal/delivery/repo.go:219-229 | The job's part: the row returned by the query is completed if it was reserved |
| `Delivery.Repository.HandleDroneBroken` | internal/delivery/repo.go:237-285 | Statement by statement, the broken report with or without an order, with the protocol's guard, effect and rollback |
| `Delivery.Repository.HandOff` | internal/delivery/repo.go:259-282 | The handoff part: order waiting again, live jobs cancelled, one fresh job |
| `Repositories.Ext.CreateOrder` | internal/order/repository.go:30-36 | Insert; a taken primary key is an error |
| `Repositories.Ext.GetOrder` | internal/order/repository.go:48-56 | The stored row, or no rows |
| `Repositories.Ext.GetOrderByDrone` | internal/order/repository.go:122-130 | Some order recording the drone, or no rows exactly when there is none |
| `Repositories.Ext.UpdateOrder` | internal/order/repository.go:58-62 | Overwrites every column of an existing row but the submitter; a missing row is not an error |
| `Repositories.Ext.CancelOrder` | internal/order/repository.go:105-120 | Status and submitter of a row that is not yet cancelled; zero rows is an error |
| `Repositories.Ext.UpsertDrone` | internal/drone/repository.go:26-38 | Insert or overwrite, under the foreign key of the current order |
| `Repositories.Ext.GetDrone` | internal/drone/repository.go:50-58 | The stored row, or no rows |
| `Repositories.Ext.UpdateDrone` | internal/drone/repository.go:60-66 | Overwrites an existing row, under the foreign key of the current order |
| `Repositories.Ext.CreateJob` | internal/job/repository.go:32-37 | Insert; a taken primary key, an unknown order or an unknown reserver is an error |
| `Repositories.Ext.GetJob` | internal/job/repository.go:51-59 | The stored row, or no rows |
| `Repositories.Ext.GetJobOfOrder` | internal/job/repository.go:121-129 | An active job of the order with the greatest creation stamp, any of them on ties |
| `Repositories.Ext.UpdateJob` | internal/job/repository.go:62-66 | Overwrites status and reserver of an existing row; the foreign key of the reserver is checked here |
| `Repositories.Ext.CancelJobsOfOrder` | internal/job/repository.go:150-165 | Cancels every live job of the order and clears its reserver; zero rows is an error |
| `Repositories.OrderRefExactly` | internal/repo/postgres/migrations/002_create_drones.up.sql:1-10 | On tables that satisfy the references, the check of a written drone row fails if and only if the references would not hold afterwards |
| `Repositories.DroneRefExactly` | internal/repo/postgres/migrations/003_create_jobs.up.sql:1-8 | The same for the reserver of a written job row |
| `Aggregates.Order.Withdraw` | internal/order/model.go:41-48 | Only a pending order; an error changes nothing |
| `Aggregates.Order.Assign` | internal/order/model.go:50-58 | Only a pending order or one awaiting handoff; an error changes nothing |
| `Aggregates.Order.MarkPickedUp` | internal/order/model.go:60-67 | Only an assigned order; the drone stays recorded; an error changes nothing |
| `Aggregates.Order.MarkDelivered` | internal/order/model.go:69-77 | Only a picked-up order; the drone is cleared; an error changes nothing |
| `Aggregates.Order.MarkFailed` | internal/order/model.go:79-87 | Only a picked-up order; the drone is cleared; an error changes nothing |
| `Aggregates.Order.AwaitHandoff` | internal/order/model.go:89-97 | Only an assigned or picked-up order; the drone is cleared; an error changes nothing |
| `Aggregates.Order.UpdateOrigin` | internal/order/model.go:99-107 | Refused in the three terminal statuses, which do not include CANCELLED; an error changes nothing |
| `Aggregates.Order.UpdateDestination` | internal/order/model.go:109-117 | Refused in the three terminal statuses; an error changes nothing |
| `Aggregates.Drone.Reserve` | internal/drone/model.go:27-35 | Only an idle drone; an error changes nothing |
| `Aggregates.Drone.StartDelivery` | internal/drone/model.go:37-44 | Only on the way to a pick-up; the order stays recorded |
| `Aggregates.Drone.GoIdle` | internal/drone/model.go:46-50 | Unguarded: from any status, and the order is cleared |
| `Aggregates.Drone.MarkBroken` | internal/drone/model.go:52-65 | Refused when broken; reports the order held and clears it |
| `Aggregates.Drone.MarkFixed` | internal/drone/model.go:67-75 | Only a broken drone |
| `Aggregates.Drone.UpdateLocation` | internal/drone/model.go:77-83 | Sets the location and the time of the last heartbeat and nothing else |
| `Aggregates.Job.Reserve` | internal/job/model.go:40-48 | Only an open job; an error changes nothing |
| `Aggregates.Job.Complete` | internal/job/model.go:50-57 | Only a reserved job; the reserver stays recorded; an error changes nothing |
| `Aggregates.Job.Cancel` | internal/job/model.go:59-67 | Refused when completed or cancelled; the reserver is cleared; an error changes nothing |
| `Services.DroneService.EnsureExists` | internal/drone/service.go:41-50 | A drone whose read succeeds is left alone; if the read fails, for an unknown drone or because it is not answered, the upsert leaves a new idle drone at the origin point, a known one reset; if that fails too, an error and no change |
| `Services.DroneService.Heartbeat` | internal/drone/service.go:62-86 | Validation first: an error for latitudes outside -90 to 90 or longitudes outside -180 to 180, then for the zone; then ensure the drone exists, then table, then cache. Success means the heartbeat on the table with the drone created, or reset if the read was not answered; a failing update or cache write is reported although the table may have changed |
| `Services.DroneService.GetDroneLocation` | internal/drone/service.go:89-107 | Unexpired cached position, else the table's, which is then cached; nothing for an unknown drone |
| `Services.LocationCache.Set` | internal/redis/drone_cache.go:32-43 | Overwrites the entry and its expiry |
| `Services.AdminService.MarkDroneFixed` | internal/admin/service.go:38-47 | Only a broken drone returns to idle; any error leaves the tables unchanged |
| `Services.AdminService.UpdateDroneStatus` | internal/admin/service.go:61-70 | Dispatches to the broken report or the fix; anything else is a validation error without effect |
| `Services.OrderHandler.PlaceOrder` | internal/order/handler.go:36-61 | Both locations are validated, each failure being a validation error without effect; then the order is created |
| `Services.OrderService.ValidateLocation` | internal/order/service.go:41-50 | A location is accepted if and only if its latitude is from -90 to 90, its longitude from -180 to 180, and it is in the zone |
| `Services.OrderService.AdminUpdateOrder` | internal/order/service.go:84-111 | Each given location is validated and then refused in a terminal status; only the given ones change |
| `CacheAgreement.CacheAgreesExactly` | internal/drone/service.go:62-107 | In every interleaved run of transactions, single-row requests, queries and cache writes, whatever goes unanswered: the cache disagrees with the table about a drone only while a heartbeat is about to correct it, at every point, if and only if no act spoils that; the four kinds of acts that do, and when, are listed (`Spoils`) |
| `CacheAgreement.CacheAgrees` | internal/drone/service.go:62-107 | In every interleaved run without a spoiling act, a query about a drone with no cache write under way answers what the table would |
| `CacheAgreement.SerialAgreesExactly` | internal/drone/service.go:62-107 | One after the other, location queries answer what the table would at every point of a run if and only if no heartbeat stops short of the cache after a reset or an update that an unexpired entry contradicts |
| `CacheAgreement.SerialCacheAgrees` | internal/drone/service.go:62-107 | One after the other, if every heartbeat that changes anything gets to the cache, a location query always answers what the table would |
| `CacheAgreement.InTimeExactly` | internal/drone/service.go:89-107 | A cache write under way is still right if and only if the drone has not been moved in the table in between, by a heartbeat, a reset or a fix, or last to the same location |
| `CacheAgreement.TableFollowsPuts` | internal/drone/service.go:71-79 | In every interleaved run the table has the location of the latest heartbeat, reset or fix of the drone |
| `CacheAgreement.LandKeepsAgreementExactly` | internal/drone/service.go:102-104 | A cache write keeps or restores agreement if and only if it says what the table says now |
| `CacheAgreement.LateQueryExactly` | internal/drone/service.go:89-107 | A query that reads the table before a heartbeat and writes the cache after it answers the old position from then on; agreement survives if and only if the drone has not moved |
| `CacheAgreement.StaleFixExactly` | internal/admin/service.go:38-47 | A fix that reads before a heartbeat and writes after it takes the table back to the old position while the cache has the new; agreement survives if and only if the drone has not moved |
| `CacheAgreement.FindsLatestWrite` | internal/redis/drone_cache.go:32-59 | A position is found if and only if it is the latest written for the drone, less than a lifetime ago, and has not been dropped since |
| `CacheAgreement.OnlyHeartbeatMoves` | internal/delivery/repo.go:37-285 | As a whole operation, no delivery transaction, fix or admin update moves or forgets a drone |
| `CacheAgreement.PutKeepsAgreementExactly` | internal/drone/service.go:76-83 | A heartbeat, a reset or a fix that writes the row of a drone keeps the agreement if and only if no unexpired entry says anything but the location written |
| `CacheAgreement.RowKeepsAgreementExactly` | internal/drone/repository.go:60-66 | An UPDATE of a known drone with any row keeps the agreement if and only if it leaves the location, or the drone has no unexpired entry |
| `CacheAgreement.ResetKeepsAgreementExactly` | internal/drone/service.go:41-50 | A reset keeps the agreement if and only if no unexpired entry says anything but the origin point |
| `RateLimiter.RateLimiter.Allow` | internal/redis/rate_limiter.go:26-44 | The four commands in order. For calls of one address in turn, whatever went before: a complete call is admitted if and only if fewer than the limit of the earlier ones, rejected ones included, have a millisecond stamp inside the window, and it counts for the next. A pipeline that fails is an error without admission, with whatever part was executed left behind |
| `RateLimiter.NextIsServed` | internal/redis/rate_limiter.go:26-44 | The step behind that: a complete call takes the server from the set of a run of calls to the set of the run with this call added |
| `RateLimiter.BrokenPipeline` | internal/redis/rate_limiter.go:31-40 | What a pipeline that breaks off leaves: old members gone, the call a member with its millisecond from the third command on, the expiry moved only by the fourth |
| `RateLimiter.RateLimit` | internal/middleware/rate_limiter.go:17-47 | A request passes if and only if the limiter fails or the count is below the limit |
| `RateLimiter.DecidesAsFullLog` | internal/redis/rate_limiter.go:26-44 | The pruned and expiring set admits exactly when fewer than the limit of all earlier calls, rejected ones included, have a stamp inside the window |
| `RateLimiter.DecidesByStamps` | internal/redis/rate_limiter.go:31-34 | With a clock that may stand still, the limiter admits exactly when fewer than the limit of distinct stamps of earlier calls are inside the window |
| `RateLimiter.DecidesAsFullLogExactly` | internal/redis/rate_limiter.go:31-34 | It then decides as the full log would, for every limit, if and only if no two calls inside the window have the same stamp |
| `RateLimiter.StandingClockAdmitsAll` | internal/redis/rate_limiter.go:34-43 | While the clock stands still, any number of calls is admitted under any limit of two or more |
| `RateLimiter.ExpiryRemovesNothingKept` | internal/redis/rate_limiter.go:32-35 | The key's expiry never removes an entry that pruning would have kept |
| `RateLimiter.SetIsFaithful` | internal/redis/rate_limiter.go:31-35 | Every entry is a call with its own stamp, and no call inside the window is missing |
| `RateLimiter.WindowBound` | internal/redis/rate_limiter.go:29-43 | Every half-open window of millisecond stamps in any run contains at most the limit of admitted calls |
| `RateLimiter.NanosecondBoundExactly` | internal/redis/rate_limiter.go:29-34 | For every window, limit and length: that many nanoseconds contain at most the limit of admitted calls in every run if and only if they are at most one millisecond less than the window plus one nanosecond, or no more than the limit, or the limit is zero |
| `RateLimiter.BurstIsAdmitted` | internal/redis/rate_limiter.go:29-34 | The calls that show it: one more than the limit, all admitted, for every window and limit |
| `CircuitBreaker.CircuitBreaker.Allow` | internal/middleware/circuit_breaker.go:36-53 | Admission and the move to half-open, from each of the three states |
| `CircuitBreaker.CircuitBreaker.RecordSuccess` | internal/middleware/circuit_breaker.go:55-61 | Counter cleared, circuit closed |
| `CircuitBreaker.CircuitBreaker.RecordFailure` | internal/middleware/circuit_breaker.go:63-72 | Counter and failure time advance; the circuit opens at the threshold |
| `CircuitBreaker.Handle` | internal/middleware/circuit_breaker.go:89-102 | One request: refused without a record, or served and recorded as failure exactly from status 500 on |
| `CircuitBreaker.CountsTrailingFailures` | internal/middleware/circuit_breaker.go:36-72 | Under any interleaving the counter is the trailing run of failed outcomes, and the circuit is closed exactly while that is below the threshold |
| `CircuitBreaker.AdmitsExactly` | internal/middleware/circuit_breaker.go:36-53 | Under any interleaving, who is admitted is a property of the log alone: the trailing run of failures is below the threshold, or the cooldown since its last one is over and nobody has been admitted since |
| `CircuitBreaker.OneProbeAtATime` | internal/middleware/circuit_breaker.go:43-50 | While not closed, two admissions have a recorded outcome between them |
| `CircuitBreaker.ProbeAfterCooldown` | internal/middleware/circuit_breaker.go:43-48 | While not closed, an admission comes more than the cooldown after the latest recorded failure |
| `CircuitBreaker.HalfOpenWaits` | internal/middleware/circuit_breaker.go:49-50 | Without an outcome a half-open circuit stays so and admits nobody |
| `CircuitBreaker.OutcomeEndsHalfOpen` | internal/middleware/circuit_breaker.go:55-72 | The next outcome closes or reopens it |
| `CircuitBreaker.HalfOpenHasOneInFlight` | internal/middleware/circuit_breaker.go:36-103 | A half-open circuit has an admitted request in flight, its probe among the unanswered ones since; so it cannot wedge if every request records an outcome |
| `CircuitBreaker.OpenProbesAfterCooldown` | internal/middleware/circuit_breaker.go:43-48 | An open circuit admits the next request, and becomes half-open, if and only if more than the cooldown has passed since the latest failed outcome |
| `CircuitBreaker.LeavesOpenExactly` | internal/middleware/circuit_breaker.go:36-72 | An open circuit becomes half-open if and only if a request is admitted, and closes if and only if a request succeeds; that request was admitted before the failure that opened the circuit |
| `CircuitBreaker.HalfOpenDecidedBy` | internal/middleware/circuit_breaker.go:55-72 | The outcome that ends the half-open state is that of the probe, or of a request admitted before the failure that opened the circuit |
| `CircuitBreaker.ClosesUnprobedExactly` | internal/middleware/circuit_breaker.go:55-61 | A circuit that is not closed can close without a cooldown or another admission if and only if an admitted request is still in flight |
| `Idempotency.IdempotencyStore.Set` | internal/redis/idempotency.go:35-42 | Stores only if nothing unexpired is stored |
| `Idempotency.Handle` | internal/middleware/idempotency.go:30-72 | No key, a failing check or an unknown key runs the handler; a known key replays with status 200; only an answer with status 200 to 299 is stored |
| `Idempotency.StoresExactlySuccesses` | internal/middleware/idempotency.go:64-71 | Under any interleaving the store changes if and only if a recorded handler ends with status 200 to 299, the store answers and nothing unexpired is stored for the key; then it holds exactly that response for its lifetime |
| `Idempotency.ReplaysExactly` | internal/redis/idempotency.go:23-42 | Under any interleaving and any store failures, the store answers at any time exactly with the first recorded success that is still within its lifetime, and not at all if there is none |
| `Idempotency.ReplayOrigin` | internal/middleware/idempotency.go:41-56 | Every replayed response comes from exactly one recorded success, whose handler was started by a request with the same key, for whichever endpoint that one asked |
| `Idempotency.RunningWasStarted` | internal/middleware/idempotency.go:41-71 | Every running handler was started by a check for its key and endpoint that found nothing or failed, and its response is recorded if and only if the check was answered |
| `Idempotency.NextIsMisansweredExactly` | internal/redis/idempotency.go:44-46 | A stored response answers the next request for the key, and that is the response to another endpoint if and only if the two ask for different endpoints |
| `Idempotency.StoredForItsLifetime` | internal/redis/idempotency.go:35-42 | Under any interleaving a stored response never changes before it expires |
| `Idempotency.NoStartAfterSuccess` | internal/middleware/idempotency.go:41-65 | After a success is stored, until it expires, a handler for the key starts only if the store does not answer its check |
| `Idempotency.SerialExecutesOnce` | internal/middleware/idempotency.go:30-72 | In serial runs a key with a stored success is executed successfully again within its lifetime only by a request whose check was not answered |
| `Idempotency.SecondSuccessOverlapped` | internal/middleware/idempotency.go:41-71 | In every run, a second success within the lifetime of the first is that of a request that was in its handler when the first was stored, or whose check was not answered |
| `Idempotency.ExecutesAgainExactly` | internal/middleware/idempotency.go:41-71 | When a success has just been stored and the store goes on answering, a second success within its lifetime is possible if and only if another request for the key is in its handler at that moment |
| `Idempotency.OverlapExecutesTwice` | internal/middleware/idempotency.go:41-71 | Overlapping requests with one key may both execute; the first response stays |
| `Idempotency.KeysAreDistinct` | internal/redis/idempotency.go:44-46 | The composed store key separates users' keys when user names contain no colon |
| `Idempotency.KeysMayCoincide` | internal/redis/idempotency.go:44-46 | With a colon in a user name two users' keys may coincide |
| `Idempotency.UsersCollideExactly` | internal/redis/idempotency.go:44-46 | Two users have keys that coincide if and only if one's name, with a colon after it, begins the other's |

## Left out

- Serializability.Serializable: a single-row request that writes after its row has changed is outside this theorem; `CommitsAreAtomic` and `CoupledExactly` are about all runs, and `StoreIsAtomicExactly` and `UnlockedReads` state exactly what such a write does.
- Serializability.Serializable: foreign-key share locks are not modelled; they only make transactions wait more.
- Deadlock freedom of the transactions: grab locks order then drone, a broken report drone then order; the database breaks such cycles by an abort, which the model allows at any point. `Completeness.Drive` is about a transaction whose locks nobody else holds.
- Interleaved statements check foreign keys on every write, the serial ones when a column changes, as the database does; on tables that satisfy the keys this is the same.
- A COMMIT whose outcome is unknown to the caller: a failing COMMIT is a rollback here. A failing statement is one that had no effect.
- Four numbered sections of transactions are methods of their own (`ReserveDrone`, `CloseOrder`, `CompleteJob`, `HandOff`); the source has them inline.
- The guarded withdrawal exists only as a protocol operation and as the aggregate's method: no transaction in the source uses it.
- Repositories: created-at and updated-at columns, except a job's creation time.
- RateLimiter.WindowBound: the runs are of one client's calls one after the other, with a strictly increasing clock that the server shares and with pipelines that complete. `DecidesAsFullLogExactly` is about a clock that stands still; overlapping pipelines and clock skew are not modelled, and calls whose pipeline fails pass, as `RateLimit` states.
- CircuitBreaker.HalfOpenWaits: a handler that panics records no outcome, and this is what follows. The map from paths to breakers is not modelled.
- Histories.LocationExactly: the reset of a known drone is no operation of the serial protocol, as it breaks the coupling; `Places.PlaceExactly` includes it.
- CacheAgreement.CacheAgreesExactly: a request whose name is that of a pending cache write waits; names only tell requests apart.
- Configured lifetimes of cached entries are positive; the client library takes zero for no expiry.
- Bulkheads, authentication, roles, token generation, logging, recovery: thin wrappers.
- Distances, travel times and the zone computation: floating-point trigonometry; the zone test's answer is a parameter.
- HTTP handlers except the placing of an order, JSON, listing and pagination queries, the unused single-table job service: only easy members.
