# Rally benchmark driver: scheduling and coordination

This project models the coordination core of Rally's benchmark driver
(`esrally/driver/driver.py`) in Dafny. It also proves what that core promises.

The driver runs a challenge's schedule. A schedule is a list of phases, and
each phase holds sub-tasks that run in parallel. The core works as follows:

- The **allocator** turns the schedule into an allocation matrix. The matrix
  has one row per client, and each cell is a task, a join point, or padding.
  From the matrix the allocator derives the join points, the operations run
  between join points, and the number of clients.
- Each **load generator** walks its row with a cursor. It skips padding, runs
  the schedule of each task it meets, and reports each join point.
- A client's **schedule** for a task is a sequence of entries. Each entry says
  when to run relative to the task's start, how to type its sample, and which
  runner and parameters to use.
- Samples are collected in a bounded **sampler** buffer.
- The **master** holds a barrier at every join point. Once every load
  generator has arrived, it either ends the benchmark or tells each client
  when to start its next task, on that client's own clock.
- After the run, the master computes the **global throughput** of each
  operation from all samples.
- The challenge to run is chosen by name.

Modules, one file each:

| file | module | models |
|---|---|---|
| `Types.dfy` | `Types` | tasks, phases, join points, cells, samples, `Sample.percent_completed` |
| `Allocator.dfy` | `Allocator` | `Allocator` (allocations, join_points, operations_per_joinpoint, clients) |
| `Scheduler.dfy` | `Scheduler` | `schedule_for`, `time_period_based`, `iteration_count_based` |
| `Sampling.dfy` | `Sampling` | `Sampler` |
| `Master.dfy` | `Master` | `Driver.joinpoint_reached`, `finished`, `update_samples`, and the allocator part of `start_benchmark` |
| `Worker.dfy` | `Worker` | `LoadGenerator.drive` |
| `Throughput.dfy` | `Throughput` | `calculate_global_throughput` |
| `Challenges.dfy` | `Challenges` | `select_challenge` |

The matrix is specified row by row by the function `Allocator.Matrix`. It is
built by the method `Allocator.Allocations`, whose loops deal the sub-task
slots round-robin as the source does. The method is proved to produce exactly
`Matrix`. All shape lemmas are then proved about `Matrix`.

`Allocator.OperationsPerJoinPoint` scans the matrix column by column, as the
source does. It is proved equal to `OperationsPerSpan`, a definition read
directly off the schedule.

The throughput loop is proved equal to a fold (`Throughput.Fold`). The
properties of the series are proved about that fold.

Clocks, the network, runners and parameter sources are not modelled
directly:

- Clock readings are parameters: the master's `perf_counter` readings in
  `Arrival`, and the client's clock in `Sampler.Add`.
- Runners and parameter sources are function parameters of
  `Scheduler.ScheduleFor`.
- Messages the master would send are reduced to an `Outcome` value.

## Model

| member | source | states |
|---|---|---|
| Types.JoinPoint.Equals | esrally/driver/driver.py:612-613 | join points are equal exactly when their ids are, which is exactly value equality |
| Types.PercentCompleted | esrally/driver/driver.py:424-426 | the error result (Python's ZeroDivisionError) occurs exactly when the total is 0; otherwise value × total = current iteration, the value lies in [0, 1] when 0 ≤ current ≤ total, and it is 1 exactly when current = total |
| Allocator.Clients | esrally/driver/driver.py:715-722 | at least 1, at least every phase's `clients`, and either 1 or equal to some phase's `clients` (the maximum, floored at 1) |
| Allocator.AppendToAll | esrally/driver/driver.py:647-650 | every row gets the cell appended; the number of rows is unchanged |
| Allocator.DealSubTask | esrally/driver/driver.py:655-657 | dealing a sub-task's `clients` slots from `start_client_index` adds, to each row, the slots whose index is that row modulo the client count |
| Allocator.PadPhase | esrally/driver/driver.py:659-665 | after dealing, the rows from `start % max_clients` to the last get one padding cell when the dealing was uneven, which completes each row's segment for the phase |
| Allocator.AllocatePhase | esrally/driver/driver.py:653-665 | one phase adds exactly each client's segment: its dealt tasks, then padding |
| Allocator.Allocations | esrally/driver/driver.py:641-672 | the matrix built by the nested loops equals the row-by-row specification `Matrix` |
| Allocator.MatrixIsRectangular | esrally/driver/driver.py:630-638 | for every schedule, one row per client and all rows of equal length |
| Allocator.MatrixRowLength | esrally/driver/driver.py:641-672 | every row has the length `RowLength`: 1 plus, for each phase, its rounds of slots plus one join point column |
| Allocator.RowStartsWithJoinPoint | esrally/driver/driver.py:645-650 | every row starts with `JoinPoint(0)` |
| Allocator.RowEndsWithJoinPoint | esrally/driver/driver.py:667-671 | every row ends with `JoinPoint(len(schedule))` |
| Allocator.SegmentHasNoJoinPoint | esrally/driver/driver.py:652-665 | the cells a phase deals and pads hold no join point |
| Allocator.JoinPointsAligned | esrally/driver/driver.py:645-671 | a column holds a join point in one row exactly when it does in every row, and then the same join point |
| Allocator.RowJoinPoints | esrally/driver/driver.py:645-671 | the join points along any row are `JoinPoint(0) .. JoinPoint(len(schedule))`, in order |
| Allocator.JoinPoints | esrally/driver/driver.py:675-679 | the join points of the first row: `len(schedule) + 1` of them, the i-th with id i |
| Allocator.ScanRows | esrally/driver/driver.py:698-712 | scanning the whole matrix column by column yields, for each phase that runs a task, that phase's set of operations, in order, and skips phases without tasks |
| Allocator.OperationsPerJoinPoint | esrally/driver/driver.py:682-712 | the nested loops over columns and clients return exactly `OperationsPerSpan(schedule)` |
| Scheduler.Classify | esrally/driver/driver.py:773 | a time-period entry's sample is warmup exactly while the elapsed time is below the warmup period; fixed classifiers always give their type |
| Scheduler.ClassifyMonotone | esrally/driver/driver.py:773 | a later elapsed time never gives a lower sample type |
| Scheduler.WaitTime | esrally/driver/driver.py:769 | when throttled, wait × throughput = 1 (and the wait is positive for a positive throughput); otherwise 0 |
| Scheduler.TimePeriodBased | esrally/driver/driver.py:759-774 | `params.size()` entries; entry k starts at wait × k, is iteration k of that size, draws the k-th parameters, and is warmup exactly while the elapsed time is below the warmup period |
| Scheduler.IterationCountBased | esrally/driver/driver.py:777-796 | RallyAssertionError exactly when warmup + iterations = 0; otherwise exactly that many entries carrying that total; entry k starts at wait × k; the first `warmup` entries are warmup with iteration k, the rest are normal with iteration k − warmup |
| Scheduler.ClientThroughput | esrally/driver/driver.py:745 | the client's throughput is throttled exactly when the task's is, times `clients` gives the task's throughput, and has the task's sign |
| Scheduler.ScheduleFor | esrally/driver/driver.py:734-756 | ZeroDivisionError when the task has no clients and either a throttled throughput or an iteration-count schedule; a time-period schedule has the partition's size; an iteration-count schedule has `warmup // clients + iterations // clients` entries and fails exactly when that is 0; every entry's offset, runner and parameters follow the per-client throughput, the operation's runner and the client's partition; an iteration-count schedule types its first `warmup // clients` entries warmup with iterations from 0 and the rest measured with iterations from 0 again; a time-period schedule numbers entries from 0 and types a sample warmup exactly while the elapsed time is below the warmup period |
| Scheduler.UnthrottledStartsAtOnce | esrally/driver/driver.py:769-796 | without a target throughput every entry's offset is 0 |
| Scheduler.ScheduleSpacing | esrally/driver/driver.py:745 | entry k of each client starts at k × clients / target throughput, so the clients together reach the task's target |
| Scheduler.OffsetsIncrease | esrally/driver/driver.py:792-796 | with a positive target throughput, later entries start strictly later |
| Sampling.Offer | esrally/driver/driver.py:389-395 | below capacity the sample is appended; a full buffer is left unchanged (no blocking, no eviction) |
| Sampling.OfferAllKeepsEarliest | esrally/driver/driver.py:387-395 | a sequence of offers keeps exactly the earliest samples, in order, up to the capacity of 1024 |
| Sampling.Sampler.constructor | esrally/driver/driver.py:383-387 | a new sampler is empty and keeps its client, operation and start time |
| Sampling.Sampler.Add | esrally/driver/driver.py:389-395 | the buffer becomes `Offer(old buffer, sample)` with the time relative to the start; the sample is dropped exactly when the buffer held 1024 |
| Sampling.Sampler.Samples | esrally/driver/driver.py:397-405 | returns exactly the queued samples in insertion order (empty when none) and leaves the buffer empty |
| Master.ClientStart | esrally/driver/driver.py:232-233 | a client's start time lies as far after its own report timestamp as the master's start lies after the master received that report; it differs from the master's start by exactly the clock offset the report exposed; so the client starts after its report exactly when the master's start is after the receipt |
| Master.StartTimes | esrally/driver/driver.py:230-236 | all clients `0 .. n-1` get start times exactly when all have a recorded arrival, each `ended + (start_next − received)`; otherwise the first client without one is reported, after the start times of the clients before it |
| Master.StartTimesStop | esrally/driver/driver.py:231-232 | once a client without an arrival is met, further clients change nothing |
| Master.Arrive | esrally/driver/driver.py:199-236 | the master waits exactly when the incremented count differs from the number of drivers, recording the arrival; otherwise the count and arrivals are reset and the step advances; the benchmark ends exactly when the new step equals the number of steps |
| Master.ArriveKeepsInvariant | esrally/driver/driver.py:199-215 | the count stays below the number of drivers and never below the number of clients with a recorded arrival |
| Master.LatestArrivals | esrally/driver/driver.py:201 | the recorded clients are exactly those that reported |
| Master.ArrivalsBeforeLast | esrally/driver/driver.py:200-204 | fewer reports than drivers only count and record, and every outcome is waiting |
| Master.RoundOfArrivals | esrally/driver/driver.py:199-236 | a full round resets the barrier to the next step; all but the last report wait; the last ends the benchmark or sends the start times from every client's latest report, 5 seconds after the master's current time |
| Master.StartCorrectsSkew | esrally/driver/driver.py:226-233 | with a fixed clock skew, and when the report arrives without delay, each client is told to start at the master's start time translated to its own clock |
| Master.SendStartTimes | esrally/driver/driver.py:230-236 | the loop over clients produces exactly `StartTimes`, stopping at the first client without a recorded arrival |
| Master.Driver.constructor | esrally/driver/driver.py:183-192 | the master holds the allocation matrix and the operations per join point, one step per phase (`len(join_points) − 1`), one driver per client, and starts before join point 0 with an empty barrier |
| Master.Driver.JoinPointReached | esrally/driver/driver.py:199-236 | the barrier state and outcome are exactly `Arrive`; the most recent samples are cleared when the step completes; nothing else changes |
| Master.Driver.Finished | esrally/driver/driver.py:238-239 | the master is finished exactly when its barrier is past the last step, the test `Arrive` applies; `JoinPointReached` reports the end of the benchmark exactly when a completed round leaves it finished |
| Master.FinishesAtLastJoinPoint | esrally/driver/driver.py:199-216 | whole rounds of reports advance the step by one each, and from the initial step −1 round `i` ends the benchmark exactly when `i` is the number of steps, i.e. at the last join point |
| Master.Driver.UpdateSamples | esrally/driver/driver.py:241-245 | the samples are appended to the raw samples, and the last one is recorded as its client's most recent; the barrier is unchanged |
| Worker.NextCell | esrally/driver/driver.py:348-351 | the first cell at or after the cursor that is not padding, with every cell skipped being padding, or none when only padding remains |
| Worker.LoadGenerator.constructor | esrally/driver/driver.py:305-313 | a new load generator starts at the first cell of its row |
| Worker.LoadGenerator.Drive | esrally/driver/driver.py:346-369 | the outcome and the new cursor are exactly `Step`: the next non-padding cell is reported as a join point or a task and the cursor moves past it; running off the row is reported |
| Worker.NeverPastLastJoinPoint | esrally/driver/driver.py:348-351 | in a row ending with a join point, driving from inside the row always finds a cell and stays within the row |
| Worker.FirstDriveReachesStart | esrally/driver/driver.py:645-650 | every client's first drive reaches `JoinPoint(0)` |
| Worker.DrivesStayInRow | esrally/driver/driver.py:346-351 | for every schedule and client, driving from inside the row never runs off its end |
| Throughput.SamplesOf | esrally/driver/driver.py:529-533 | a sample is in an operation's group exactly when it is an input sample of that operation |
| Throughput.SampleInExactlyOneGroup | esrally/driver/driver.py:529-533 | every input sample is in the group of its own operation and in no other |
| Throughput.GroupNotEmpty | esrally/driver/driver.py:529-533 | an operation's group is non-empty exactly when the operation occurs, so `current_samples[0]` exists |
| Throughput.GroupByOperation | esrally/driver/driver.py:527-533 | the keys are exactly the operations that occur, and each group is that operation's samples in input order |
| Throughput.SortByTime | esrally/driver/driver.py:543 | the same samples (as a multiset), ordered by absolute time |
| Throughput.SeriesTypesNeverDecrease | esrally/driver/driver.py:555-557 | along a series the sample type of the points never decreases |
| Throughput.AtMostOnePointPerSample | esrally/driver/driver.py:550-568 | a series has at most one point per sample |
| Throughput.PointsInDistinctBuckets | esrally/driver/driver.py:563-564 | every point is emitted at a positive time since the start, and with buckets of at least one second each point falls at least `bucket_interval_secs` whole seconds after the one before |
| Throughput.NoBucketSkipped | esrally/driver/driver.py:560-564 | after every prefix of the samples, a positive time since the start lies below the bucket the next point must reach: every bucket the time has reached has had its point, so a sample reaching the bucket emits one |
| Throughput.FirstSampleEmits | esrally/driver/driver.py:548-564 | when the first sample covers a positive period, it yields the first point |
| Throughput.SeriesOf | esrally/driver/driver.py:545-568 | the loop over one operation's sorted samples yields exactly the series of the fold |
| Throughput.SeriesOfOperation | esrally/driver/driver.py:539-568 | one operation's series is the series of its samples sorted by time |
| Throughput.CalculateGlobalThroughput | esrally/driver/driver.py:519-569 | the result has exactly the operations that occur as keys, each mapped to the series of its samples sorted by time |
| Challenges.SelectChallenge | esrally/driver/driver.py:429-435 | the first challenge with the selected name, or SystemSetupError naming it exactly when no challenge has that name |

## Left out

- Elasticsearch calls (`setup_index`, `wait_for_status`, `_do_wait`) are not modelled; they are I/O.
- `execute_schedule` is not modelled; it depends on wall-clock timing and opaque runner calls.
- The rest of `start_benchmark` is not modelled (configuration, client construction, track preparation). Only the allocator part is modelled, in `Master.Driver.constructor`.
- Actor messaging is not modelled. This covers `receiveMessage` dispatch, `send`, `createActor`, `wakeupAfter` and the thread pool. Sends become `Outcome` values.
- The `BenchmarkFailure` that `receiveMessage` sends on an exception is not modelled. The KeyError that `joinpoint_reached` raises for a client with no recorded arrival becomes `UnknownClient`, after the start times that were already sent.
- `Drive` computes a wake-up delay from `perf_counter`; that timing is not modelled.
- Progress messages and `post_process_samples` are not modelled; they are console and metrics-store output.
- Floating point is not modelled. Times, throughputs and wait times are exact reals, and nothing is claimed about IEEE rounding.
- Generators are not modelled as lazy. A schedule is the finite sequence of all its entries. `iteration_count_based` raises only when its generator is first advanced; here that is an immediate `Err`.
- `runner.runner_for` and `track.operation_parameters(...).partition(...)` are function parameters of `ScheduleFor`. `params.params()` is modelled as the k-th draw of the partition.
- The time-period classifier reads `perf_counter` itself. Here it is a function of the elapsed time.
- `schedule_for`'s docstring asks for `client_index < task.clients`, but `drive` passes the client's row index, which may be larger. The model does not require it. The index only reaches the parameter source.
- Types.JoinPoint.Equals: compares only with another join point. The source's `__eq__` reads `other.id` from whatever it is given, so comparing a join point with `None` or a task raises `AttributeError`. The driver never compares across kinds (it uses `isinstance` and `is None`), so that case is not modelled.
- The `Sampler` queue's thread safety is not modelled; the model is sequential.
- The `RallyAssertionError` for a cell that is neither a task nor a join point cannot occur. Cells are a closed datatype.
- `metrics.SampleType` is not part of this model. Warmup is taken to rank below Normal.
- Throughput.SortByTime: the contract states sortedness and the same multiset but not stability. Python's `sorted` is stable; the definition is stable too, but that is not proved.
- Dictionary iteration order is not modelled. The result of `calculate_global_throughput` and the groups are maps, so the order in which operations are processed and listed is not represented.
- Sampling.Sampler.Add: whether the sample was dropped is returned, not logged.
