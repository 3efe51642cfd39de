/** The master's coordination of the load generators: a barrier at every join
    point that, once every load generator has reached it, either ends the
    benchmark or tells each load generator when to start its next task. */
module Master {
  import opened Types
  import Allocator

  /** Seconds between the last arrival at a join point and the start of the next task. */
  const StartDelay: real := 5.0

  /** What the master does after a load generator reports a join point. */
  datatype Outcome =
    | Waiting                       // some load generators have yet to arrive
    | AllStepsCompleted             // the last step is done; the benchmark ends
    | NextStep(starts: seq<real>)   // client `i` starts its next task at `starts[i]` on its own clock
    | UnknownClient(clientId: nat, sent: seq<real>)
                                    // no arrival is recorded for `clientId`: the master fails after
                                    // sending start times to the clients before it

  /** The barrier state: arrivals counted in the current step, the last
      (client clock, master clock) pair each client reported, and the step. */
  datatype Barrier = Barrier(completed: nat, arrivals: map<nat, (real, real)>, step: int)

  /** The benchmark is over once the barrier has passed the last of `steps` steps. */
  predicate AllStepsDone(b: Barrier, steps: nat)
  {
    b.step == steps
  }

  /** When a client that reported `arrival` should start, on its own clock, so
      that it starts at master time `startNext`: the master's remaining delay
      is added to the client's own timestamp. */
  function ClientStart(arrival: (real, real), startNext: real): (start: real)
    ensures start - arrival.0 == startNext - arrival.1
    ensures start - startNext == arrival.0 - arrival.1
    ensures start > arrival.0 <==> startNext > arrival.1
  {
    arrival.0 + (startNext - arrival.1)
  }

  /** The start times for clients `0 .. n - 1`, as far as their arrivals are recorded. */
  function StartTimes(arrivals: map<nat, (real, real)>, n: nat, startNext: real): (r: Outcome)
    ensures r.NextStep? || r.UnknownClient?
    ensures r.NextStep? <==> forall i :: 0 <= i < n ==> i in arrivals
    ensures r.NextStep? ==> (|r.starts| == n &&
      forall i :: 0 <= i < n ==> r.starts[i] == ClientStart(arrivals[i], startNext))
    ensures r.UnknownClient? ==> (r.clientId < n && r.clientId !in arrivals && |r.sent| == r.clientId &&
      forall i :: 0 <= i < r.clientId ==> i in arrivals && r.sent[i] == ClientStart(arrivals[i], startNext))
  {
    if n == 0 then NextStep([])
    else
      match StartTimes(arrivals, n - 1, startNext)
      case NextStep(starts) =>
        if n - 1 in arrivals then NextStep(starts + [ClientStart(arrivals[n - 1], startNext)])
        else UnknownClient(n - 1, starts)
      case other => other
  }

  /** Once a client without a recorded arrival is met, later clients change nothing. */
  lemma {:induction false} StartTimesStop(arrivals: map<nat, (real, real)>, k: nat, n: nat, startNext: real)
    requires k <= n && StartTimes(arrivals, k, startNext).UnknownClient?
    ensures StartTimes(arrivals, n, startNext) == StartTimes(arrivals, k, startNext)
    decreases n
  {
    if k < n {
      StartTimesStop(arrivals, k, n - 1, startNext);
    }
  }

  /** One load generator's report that it reached the join point: client
      `clientId` at `clientTimestamp` on its clock, received at master time
      `receivedAt`; `now` is the master's time once all have arrived. */
  datatype Arrival = Arrival(clientId: nat, clientTimestamp: real, receivedAt: real, now: real)

  /** The barrier after one arrival, with the master's reaction. */
  function Arrive(b: Barrier, drivers: nat, steps: nat, a: Arrival): (r: (Barrier, Outcome))
    ensures r.1 == Waiting <==> b.completed + 1 != drivers
    ensures r.1 == Waiting ==> r.0 == Barrier(b.completed + 1, b.arrivals[a.clientId := (a.clientTimestamp, a.receivedAt)], b.step)
    ensures r.1 != Waiting ==> r.0 == Barrier(0, map[], b.step + 1)
    ensures r.1 == AllStepsCompleted <==> r.1 != Waiting && b.step + 1 == steps
  {
    var completed := b.completed + 1;
    var arrivals := b.arrivals[a.clientId := (a.clientTimestamp, a.receivedAt)];
    if completed == drivers then
      var next := Barrier(0, map[], b.step + 1);
      if AllStepsDone(next, steps) then (next, AllStepsCompleted)
      else (next, StartTimes(arrivals, drivers, a.now + StartDelay))
    else
      (Barrier(completed, arrivals, b.step), Waiting)
  }

  /** The count of arrivals stays below the number of load generators, and
      never falls below the number of clients with a recorded arrival. */
  ghost predicate BarrierInvariant(b: Barrier, drivers: nat)
  {
    b.completed < drivers && |b.arrivals.Keys| <= b.completed
  }

  lemma ArriveKeepsInvariant(b: Barrier, drivers: nat, steps: nat, a: Arrival)
    requires BarrierInvariant(b, drivers)
    ensures BarrierInvariant(Arrive(b, drivers, steps, a).0, drivers)
  {
    var keys := b.arrivals[a.clientId := (a.clientTimestamp, a.receivedAt)].Keys;
    assert keys == b.arrivals.Keys + {a.clientId};
  }

  /** The barrier and outcomes after a sequence of arrivals. */
  function ArriveAll(b: Barrier, drivers: nat, steps: nat, msgs: seq<Arrival>): (r: (Barrier, seq<Outcome>))
    ensures |r.1| == |msgs|
  {
    if |msgs| == 0 then (b, [])
    else
      var (before, outcomes) := ArriveAll(b, drivers, steps, msgs[..|msgs| - 1]);
      var (after, outcome) := Arrive(before, drivers, steps, msgs[|msgs| - 1]);
      (after, outcomes + [outcome])
  }

  /** The last report of each client among `msgs`. */
  function LatestArrivals(msgs: seq<Arrival>): (m: map<nat, (real, real)>)
    ensures m.Keys == set a | a in msgs :: a.clientId
  {
    if |msgs| == 0 then map[]
    else
      var last := msgs[|msgs| - 1];
      var m := LatestArrivals(msgs[..|msgs| - 1]);
      assert forall a :: a in msgs <==> a in msgs[..|msgs| - 1] || a == last;
      m[last.clientId := (last.clientTimestamp, last.receivedAt)]
  }

  /** Fewer arrivals than load generators leave the master waiting, counting
      the arrivals and remembering each client's latest report. */
  lemma {:induction false} ArrivalsBeforeLast(s: int, drivers: nat, steps: nat, msgs: seq<Arrival>)
    requires |msgs| < drivers
    ensures ArriveAll(Barrier(0, map[], s), drivers, steps, msgs).0 == Barrier(|msgs|, LatestArrivals(msgs), s)
    ensures var outcomes := ArriveAll(Barrier(0, map[], s), drivers, steps, msgs).1;
      |outcomes| == |msgs| && forall i :: 0 <= i < |msgs| ==> outcomes[i] == Waiting
  {
    if |msgs| > 0 {
      var prefix, last := msgs[..|msgs| - 1], msgs[|msgs| - 1];
      ArrivalsBeforeLast(s, drivers, steps, prefix);
      var before := Barrier(|prefix|, LatestArrivals(prefix), s);
      var step := Arrive(before, drivers, steps, last);
      assert step.1 == Waiting;
      assert step.0 == Barrier(|msgs|, LatestArrivals(msgs), s);
      assert ArriveAll(Barrier(0, map[], s), drivers, steps, msgs).1
        == ArriveAll(Barrier(0, map[], s), drivers, steps, prefix).1 + [step.1];
    }
  }

  /** A round: once as many reports as load generators have arrived, the
      master moves to the next step and either ends the benchmark or starts
      every client, each at the master time `now + StartDelay` of the last
      report, translated to the client's clock by that client's latest report;
      a client that never reported makes the master fail. */
  lemma RoundOfArrivals(s: int, drivers: nat, steps: nat, msgs: seq<Arrival>)
    requires drivers > 0 && |msgs| == drivers
    ensures var (b, outcomes) := ArriveAll(Barrier(0, map[], s), drivers, steps, msgs);
      && b == Barrier(0, map[], s + 1)
      && |outcomes| == drivers
      && (forall i :: 0 <= i < drivers - 1 ==> outcomes[i] == Waiting)
      && outcomes[drivers - 1] == (if s + 1 == steps then AllStepsCompleted
           else StartTimes(LatestArrivals(msgs), drivers, msgs[drivers - 1].now + StartDelay))
  {
    var prefix := msgs[..drivers - 1];
    ArrivalsBeforeLast(s, drivers, steps, prefix);
  }

  /** Every round holds one report per load generator. */
  predicate WholeRounds(rounds: seq<seq<Arrival>>, drivers: nat)
  {
    drivers > 0 && forall i :: 0 <= i < |rounds| ==> |rounds[i]| == drivers
  }

  lemma WholeRoundsPrefix(rounds: seq<seq<Arrival>>, drivers: nat)
    requires WholeRounds(rounds, drivers) && |rounds| > 0
    ensures WholeRounds(rounds[..|rounds| - 1], drivers)
  {
    var prefix := rounds[..|rounds| - 1];
    assert forall i :: 0 <= i < |prefix| ==> prefix[i] == rounds[i];
  }

  /** The barrier and the outcome of each round's last report, for whole
      rounds from the reset barrier at step `s`. */
  function Rounds(s: int, drivers: nat, steps: nat, rounds: seq<seq<Arrival>>): (r: (Barrier, seq<Outcome>))
    requires WholeRounds(rounds, drivers)
    ensures |r.1| == |rounds|
  {
    if |rounds| == 0 then (Barrier(0, map[], s), [])
    else
      WholeRoundsPrefix(rounds, drivers);
      var (before, outcomes) := Rounds(s, drivers, steps, rounds[..|rounds| - 1]);
      var (after, round) := ArriveAll(before, drivers, steps, rounds[|rounds| - 1]);
      (after, outcomes + [round[drivers - 1]])
  }

  /** Round after round, the step advances by one, and the benchmark ends
      exactly at the round that completes the last step: counted from the
      master's initial step -1, round `i` ends it exactly when `i == steps`,
      the round at the last join point. */
  lemma {:induction false} FinishesAtLastJoinPoint(s: int, drivers: nat, steps: nat, rounds: seq<seq<Arrival>>)
    requires WholeRounds(rounds, drivers)
    ensures Rounds(s, drivers, steps, rounds).0 == Barrier(0, map[], s + |rounds|)
    ensures forall i :: 0 <= i < |rounds| ==>
      (Rounds(s, drivers, steps, rounds).1[i] == AllStepsCompleted <==> s + i + 1 == steps)
  {
    if |rounds| > 0 {
      var n := |rounds|;
      var prefix, last := rounds[..n - 1], rounds[n - 1];
      WholeRoundsPrefix(rounds, drivers);
      FinishesAtLastJoinPoint(s, drivers, steps, prefix);
      RoundOfArrivals(s + n - 1, drivers, steps, last);
      var before := Rounds(s, drivers, steps, prefix);
      var round := ArriveAll(before.0, drivers, steps, last);
      assert Rounds(s, drivers, steps, rounds) == (round.0, before.1 + [round.1[drivers - 1]]);
    }
  }

  /** When every client reports once per round and the clocks of master and
      client differ by a fixed skew, with the report received as it is sent,
      each client is told to start exactly at the master's start time. */
  lemma StartCorrectsSkew(ended: real, skew: real, startNext: real)
    ensures ClientStart((ended, ended - skew), startNext) == startNext + skew
  {
  }

  /** Computes the start time of clients `0 .. n - 1` in turn, stopping at the
      first client without a recorded arrival. */
  method SendStartTimes(arrivals: map<nat, (real, real)>, n: nat, startNext: real) returns (outcome: Outcome)
    ensures outcome == StartTimes(arrivals, n, startNext)
  {
    var starts: seq<real> := [];
    var clientId := 0;
    while clientId < n
      invariant 0 <= clientId <= n
      invariant StartTimes(arrivals, clientId, startNext) == NextStep(starts)
    {
      if clientId !in arrivals {
        StartTimesStop(arrivals, clientId + 1, n, startNext);
        return UnknownClient(clientId, starts);
      }
      starts := starts + [ClientStart(arrivals[clientId], startNext)];
      clientId := clientId + 1;
    }
    outcome := NextStep(starts);
  }

  /** The master. */
  class Driver {
    var allocations: seq<seq<Cell>>
    var opsPerJoinPoint: seq<set<Operation>>
    var numberOfSteps: nat
    /** How many load generators there are: one per client of the allocation matrix. */
    var numberOfDrivers: nat
    var currentlyCompleted: nat
    var clientsCompletedCurrentStep: map<nat, (real, real)>
    var currentStep: int
    var rawSamples: seq<Sample>
    var mostRecentSamplePerClient: map<nat, Sample>

    function State(): Barrier
      reads this
    {
      Barrier(currentlyCompleted, clientsCompletedCurrentStep, currentStep)
    }

    ghost predicate Valid()
      reads this
    {
      numberOfDrivers > 0 && BarrierInvariant(State(), numberOfDrivers)
    }

    /** A master for `schedule`: one step per phase, one load generator per
      client of the allocation matrix, before the first join point. */
    constructor(schedule: seq<Phase>)
      ensures Valid()
      ensures allocations == Allocator.Matrix(schedule)
      ensures opsPerJoinPoint == Allocator.OperationsPerSpan(schedule)
      ensures numberOfSteps == |schedule| && numberOfDrivers == Allocator.Clients(schedule)
      ensures State() == Barrier(0, map[], -1)
      ensures rawSamples == [] && mostRecentSamplePerClient == map[]
    {
      var matrix := Allocator.Allocations(schedule);
      var ops := Allocator.OperationsPerJoinPoint(schedule);
      allocations := matrix;
      numberOfSteps := |Allocator.JoinPoints(schedule)| - 1;
      opsPerJoinPoint := ops;
      numberOfDrivers := Allocator.Clients(schedule);
      currentlyCompleted := 0;
      clientsCompletedCurrentStep := map[];
      currentStep := -1;
      rawSamples := [];
      mostRecentSamplePerClient := map[];
    }

    /** The benchmark is over once the last step is completed. */
    predicate Finished()
      reads this
      ensures Finished() <==> AllStepsDone(State(), numberOfSteps)
    {
      currentStep == numberOfSteps
    }

    /** Handles a load generator's report that it reached the current join point. */
    method JoinPointReached(arrival: Arrival) returns (outcome: Outcome)
      requires Valid()
      modifies this
      ensures Valid()
      ensures (State(), outcome) == Arrive(old(State()), numberOfDrivers, numberOfSteps, arrival)
      ensures mostRecentSamplePerClient == if outcome == Waiting then old(mostRecentSamplePerClient) else map[]
      ensures allocations == old(allocations) && opsPerJoinPoint == old(opsPerJoinPoint)
      ensures numberOfSteps == old(numberOfSteps) && numberOfDrivers == old(numberOfDrivers)
      ensures rawSamples == old(rawSamples)
      ensures outcome == AllStepsCompleted <==> outcome != Waiting && Finished()
    {
      ArriveKeepsInvariant(State(), numberOfDrivers, numberOfSteps, arrival);
      var completed := currentlyCompleted + 1;
      var arrivals := clientsCompletedCurrentStep[arrival.clientId := (arrival.clientTimestamp, arrival.receivedAt)];
      if completed == numberOfDrivers {
        // reset before sending, keeping this step's arrivals
        currentlyCompleted, clientsCompletedCurrentStep := 0, map[];
        mostRecentSamplePerClient := map[];
        currentStep := currentStep + 1;
        if Finished() {
          outcome := AllStepsCompleted;
        } else {
          outcome := SendStartTimes(arrivals, numberOfDrivers, arrival.now + StartDelay);
        }
      } else {
        currentlyCompleted, clientsCompletedCurrentStep := completed, arrivals;
        outcome := Waiting;
      }
    }

    /** Stores the samples a load generator sent and remembers the newest one of its client. */
    method UpdateSamples(samples: seq<Sample>)
      modifies this
      ensures rawSamples == old(rawSamples) + samples
      ensures mostRecentSamplePerClient == if |samples| == 0 then old(mostRecentSamplePerClient)
        else old(mostRecentSamplePerClient)[samples[|samples| - 1].clientId := samples[|samples| - 1]]
      ensures State() == old(State())
      ensures allocations == old(allocations) && opsPerJoinPoint == old(opsPerJoinPoint)
      ensures numberOfSteps == old(numberOfSteps) && numberOfDrivers == old(numberOfDrivers)
    {
      rawSamples := rawSamples + samples;
      if |samples| > 0 {
        var mostRecent := samples[|samples| - 1];
        mostRecentSamplePerClient := mostRecentSamplePerClient[mostRecent.clientId := mostRecent];
      }
    }
  }
}
