/** Values shared by the driver's components: the track entities the driver reads
    (operations, tasks, phases, challenges), the cells of the allocation matrix and
    the performance samples that load generators report. */
module Types {

  datatype Option<+T> = None | Some(value: T)

  /** An operation's result or the exception the driver raises instead of it. */
  datatype Result<+T> = Ok(value: T) | Err(error: Error)

  datatype Error =
    | ZeroDivision          // Python's ZeroDivisionError
    | RallyAssertion        // exceptions.RallyAssertionError
    | SystemSetup(name: string)  // exceptions.SystemSetupError, naming the unknown challenge

  /** An operation of the track; two operations are the same when name and type agree. */
  datatype Operation = Operation(name: string, opType: string)

  /** A task of the track's schedule: what to run, on how many clients, and how long.
      `warmupTimePeriod` is present for time-period based tasks; otherwise the two
      iteration counts apply. `targetThroughput` is the throughput over all clients. */
  datatype Task = Task(
    operation: Operation,
    clients: nat,
    targetThroughput: Option<real>,
    warmupTimePeriod: Option<real>,
    warmupIterations: nat,
    iterations: nat)

  /** One top-level entry of a challenge's schedule: the sub-tasks that run in
      parallel between two join points, and the number of clients the entry declares. */
  datatype Phase = Phase(clients: nat, subTasks: seq<Task>)

  datatype Challenge = Challenge(name: string, schedule: seq<Phase>)

  /** A global coordination point that every client must reach before any goes on. */
  datatype JoinPoint = JoinPoint(id: int)
  {
    /** Join points compare by id. */
    predicate Equals(other: JoinPoint)
      ensures Equals(other) <==> id == other.id
      ensures Equals(other) <==> this == other
    {
      id == other.id
    }
  }

  /** A cell of the allocation matrix: a task to run, a join point, or the
      padding (`None` in the source) that keeps the matrix rectangular. */
  datatype Cell = TaskCell(task: Task) | JoinPointCell(jp: JoinPoint) | Empty

  /** Whether a sample counts towards the measured results. Warmup ranks below Normal. */
  datatype SampleType = Warmup | Normal
  {
    function Rank(): nat
    {
      match this
      case Warmup => 0
      case Normal => 1
    }
  }

  /** A performance sample, created once per executed operation. */
  datatype Sample = Sample(
    clientId: nat,
    absoluteTime: real,
    relativeTime: real,
    operation: Operation,
    sampleType: SampleType,
    latencyMs: real,
    serviceTimeMs: real,
    totalOps: int,
    totalOpsUnit: string,
    timePeriod: real,
    currIteration: int,
    totalIterations: int)

  /** The share of its task that a sample's client had completed when it was
      taken; Python's true division, which fails when the total is zero. */
  function PercentCompleted(s: Sample): (r: Result<real>)
    ensures r.Err? <==> s.totalIterations == 0
    ensures r.Err? ==> r.error == ZeroDivision
    ensures r.Ok? ==> r.value * (s.totalIterations as real) == s.currIteration as real
    ensures r.Ok? && 0 <= s.currIteration <= s.totalIterations ==> 0.0 <= r.value <= 1.0
    ensures r.Ok? && s.totalIterations > 0 ==> (r.value == 1.0 <==> s.currIteration == s.totalIterations)
  {
    if s.totalIterations == 0 then Err(ZeroDivision)
    else Ok((s.currIteration as real) / (s.totalIterations as real))
  }
}
