/** The schedule one client follows for one task: the operations it runs, when
    to run each relative to the start of the task, how to classify the sample
    it produces, and the parameters to run it with. The source produces these
    entries lazily as generators; here each schedule is the finite sequence of
    all of its entries. */
module Scheduler {
  import opened Types

  /** How an entry's sample is typed from the time elapsed since the task started. */
  datatype Classifier = AlwaysWarmup | AlwaysNormal | WarmupFor(period: real)

  function Classify(c: Classifier, elapsed: real): (t: SampleType)
    ensures c.WarmupFor? ==> (t == Warmup <==> elapsed < c.period)
    ensures c.AlwaysWarmup? ==> t == Warmup
    ensures c.AlwaysNormal? ==> t == Normal
  {
    match c
    case AlwaysWarmup => Warmup
    case AlwaysNormal => Normal
    case WarmupFor(period) => if elapsed < period then Warmup else Normal
  }

  /** Once a sample is typed Normal, every later sample of the same entry is too. */
  lemma ClassifyMonotone(c: Classifier, e1: real, e2: real)
    requires e1 <= e2
    ensures Classify(c, e1).Rank() <= Classify(c, e2).Rank()
  {
  }

  /** One entry of a schedule: when to start it (seconds after the task's start),
      how to type its sample, its iteration index, the number of iterations,
      the runner and the parameters. */
  datatype Entry<R, P> = Entry(offset: real, classifier: Classifier, iteration: nat, total: nat, runner: R, params: P)

  /** A client's share of an operation's parameter source: how many values it
      holds, and the value its `n`-th draw returns. */
  datatype ParamSource<P> = ParamSource(size: nat, draw: nat -> P)

  /** Python's truth value of an optional throughput: present and non-zero. */
  predicate Throttled(targetThroughput: Option<real>)
  {
    targetThroughput.Some? && targetThroughput.value != 0.0
  }

  /** The pause between consecutive entries; 0 when the throughput is not limited. */
  function WaitTime(targetThroughput: Option<real>): (w: real)
    ensures Throttled(targetThroughput) ==> w * targetThroughput.value == 1.0
    ensures !Throttled(targetThroughput) ==> w == 0.0
    ensures Throttled(targetThroughput) && targetThroughput.value > 0.0 ==> w > 0.0
  {
    if Throttled(targetThroughput) then 1.0 / targetThroughput.value else 0.0
  }

  /** The start of the entry at `position`, `waitTime` seconds after the one before it. */
  function Offset(waitTime: real, position: nat): real
  {
    waitTime * position as real
  }

  /** A schedule that runs until the parameter source is exhausted, typing
      samples as warmup during the first `warmupTimePeriod` seconds. */
  function TimePeriodBased<R, P>(targetThroughput: Option<real>, warmupTimePeriod: real, runner: R,
                                 params: ParamSource<P>): (s: seq<Entry<R, P>>)
    ensures |s| == params.size
    ensures forall k :: 0 <= k < |s| ==>
      && s[k].offset == Offset(WaitTime(targetThroughput), k)
      && s[k].iteration == k && s[k].total == params.size
      && s[k].runner == runner && s[k].params == params.draw(k)
      && (forall elapsed :: Classify(s[k].classifier, elapsed) == Warmup <==> elapsed < warmupTimePeriod)
  {
    seq(params.size, it requires 0 <= it =>
      Entry(Offset(WaitTime(targetThroughput), it), WarmupFor(warmupTimePeriod), it, params.size, runner, params.draw(it)))
  }

  /** A schedule of `warmupIterations` warmup entries followed by `iterations`
      measured ones; a schedule without any iteration is an error. */
  function IterationCountBased<R, P>(targetThroughput: Option<real>, warmupIterations: nat, iterations: nat,
                                     runner: R, params: ParamSource<P>): (r: Result<seq<Entry<R, P>>>)
    ensures r.Err? <==> warmupIterations + iterations == 0
    ensures r.Err? ==> r.error == RallyAssertion
    ensures r.Ok? ==> |r.value| == warmupIterations + iterations
    ensures r.Ok? ==> forall k :: 0 <= k < |r.value| ==>
      && r.value[k].offset == Offset(WaitTime(targetThroughput), k)
      && r.value[k].total == warmupIterations + iterations
      && r.value[k].runner == runner && r.value[k].params == params.draw(k)
      && (k < warmupIterations ==> r.value[k].classifier == AlwaysWarmup && r.value[k].iteration == k)
      && (warmupIterations <= k ==> r.value[k].classifier == AlwaysNormal && r.value[k].iteration == k - warmupIterations)
  {
    var total := warmupIterations + iterations;
    if total == 0 then
      Err(RallyAssertion)
    else
      var waitTime := WaitTime(targetThroughput);
      Ok(seq(total, k requires 0 <= k =>
        if k < warmupIterations then Entry(Offset(waitTime, k), AlwaysWarmup, k, total, runner, params.draw(k))
        else Entry(Offset(waitTime, k), AlwaysNormal, k - warmupIterations, total, runner, params.draw(k))))
  }

  /** A client's share of the task's target throughput, which the task's
      clients split evenly; absent when the throughput is not limited. */
  function ClientThroughput(task: Task): (t: Option<real>)
    requires task.clients > 0 || !Throttled(task.targetThroughput)
    ensures Throttled(t) <==> Throttled(task.targetThroughput)
    ensures Throttled(t) ==> t.value * task.clients as real == task.targetThroughput.value
    ensures Throttled(t) ==> (t.value > 0.0 <==> task.targetThroughput.value > 0.0)
  {
    if Throttled(task.targetThroughput) then Some(task.targetThroughput.value / task.clients as real) else None
  }

  /** The schedule of one client for `task`. `runnerFor` maps an operation type
      to its runner, and `partition(clientIndex, clients)` is the client's share
      of the operation's parameter source. Throughput and iteration counts are
      split evenly across the task's clients. */
  function ScheduleFor<R, P>(task: Task, clientIndex: nat, runnerFor: string -> R,
                             partition: (nat, nat) -> ParamSource<P>): (r: Result<seq<Entry<R, P>>>)
    ensures task.clients == 0 && (Throttled(task.targetThroughput) || task.warmupTimePeriod.None?) ==>
      r == Err(ZeroDivision)
    ensures task.clients > 0 && task.warmupTimePeriod.None? ==>
      (r.Err? <==> task.warmupIterations / task.clients + task.iterations / task.clients == 0)
    ensures task.warmupTimePeriod.Some? && (task.clients > 0 || !Throttled(task.targetThroughput)) ==>
      r.Ok? && |r.value| == partition(clientIndex, task.clients).size
    ensures r.Ok? && task.warmupTimePeriod.None? ==>
      |r.value| == task.warmupIterations / task.clients + task.iterations / task.clients
    ensures r.Ok? ==> forall k :: 0 <= k < |r.value| ==>
      && r.value[k].offset == Offset(WaitTime(ClientThroughput(task)), k)
      && r.value[k].runner == runnerFor(task.operation.opType)
      && r.value[k].params == partition(clientIndex, task.clients).draw(k)
    ensures r.Ok? && task.warmupTimePeriod.None? ==> forall k :: 0 <= k < |r.value| ==>
      && r.value[k].total == |r.value|
      && (k < task.warmupIterations / task.clients ==>
            r.value[k].classifier == AlwaysWarmup && r.value[k].iteration == k)
      && (task.warmupIterations / task.clients <= k ==>
            r.value[k].classifier == AlwaysNormal && r.value[k].iteration == k - task.warmupIterations / task.clients)
    ensures r.Ok? && task.warmupTimePeriod.Some? ==> forall k :: 0 <= k < |r.value| ==>
      && r.value[k].total == |r.value| && r.value[k].iteration == k
      && (forall elapsed :: Classify(r.value[k].classifier, elapsed) == Warmup <==> elapsed < task.warmupTimePeriod.value)
  {
    if Throttled(task.targetThroughput) && task.clients == 0 then
      Err(ZeroDivision)
    else
      var targetThroughput := ClientThroughput(task);
      var runner := runnerFor(task.operation.opType);
      var params := partition(clientIndex, task.clients);
      if task.warmupTimePeriod.Some? then
        Ok(TimePeriodBased(targetThroughput, task.warmupTimePeriod.value, runner, params))
      else if task.clients == 0 then
        Err(ZeroDivision)
      else
        IterationCountBased(targetThroughput, task.warmupIterations / task.clients, task.iterations / task.clients, runner, params)
  }

  /** Without a target throughput, a client starts every entry of its schedule at once. */
  lemma UnthrottledStartsAtOnce<R, P>(task: Task, clientIndex: nat, runnerFor: string -> R,
                                      partition: (nat, nat) -> ParamSource<P>, k: nat)
    requires !Throttled(task.targetThroughput)
    requires ScheduleFor(task, clientIndex, runnerFor, partition).Ok?
    requires k < |ScheduleFor(task, clientIndex, runnerFor, partition).value|
    ensures ScheduleFor(task, clientIndex, runnerFor, partition).value[k].offset == 0.0
  {
  }

  /** The per-client throughput: each client starts the entry at position `k`
      of its schedule `k * clients / targetThroughput` seconds after the start,
      so that all clients together reach the task's target throughput. */
  lemma ScheduleSpacing(task: Task, k: nat)
    requires Throttled(task.targetThroughput) && task.clients > 0
    ensures Offset(WaitTime(ClientThroughput(task)), k) * task.targetThroughput.value == (k * task.clients) as real
  {
    var t := ClientThroughput(task);
    var w, u := WaitTime(t), t.value;
    SpacingArithmetic(Offset(w, k), w, u, task.targetThroughput.value, k, task.clients);
  }

  lemma SpacingArithmetic(offset: real, w: real, u: real, total: real, k: nat, clients: nat)
    requires offset == Offset(w, k) && w * u == 1.0 && total == u * clients as real
    ensures offset * total == (k * clients) as real
  {
    var c := clients as real;
    calc {
      offset * total;
      w * (k as real) * (u * c);
      (w * u) * ((k as real) * c);
      { assert w * u == 1.0; }
      (k as real) * c;
    }
  }

  /** With a positive target throughput, a client starts its entries one after the other. */
  lemma OffsetsIncrease<R, P>(task: Task, clientIndex: nat, runnerFor: string -> R,
                              partition: (nat, nat) -> ParamSource<P>, i: nat, j: nat)
    requires Throttled(task.targetThroughput) && task.targetThroughput.value > 0.0
    requires ScheduleFor(task, clientIndex, runnerFor, partition).Ok?
    requires i < j < |ScheduleFor(task, clientIndex, runnerFor, partition).value|
    ensures ScheduleFor(task, clientIndex, runnerFor, partition).value[i].offset
      < ScheduleFor(task, clientIndex, runnerFor, partition).value[j].offset
  {
    OffsetIncreasing(WaitTime(ClientThroughput(task)), i, j);
  }

  lemma OffsetIncreasing(w: real, i: nat, j: nat)
    requires w > 0.0 && i < j
    ensures Offset(w, i) < Offset(w, j)
  {
    assert Offset(w, j) - Offset(w, i) == w * (j - i) as real;
  }
}
