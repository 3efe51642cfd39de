/** The bounded buffer in which a load generator collects the samples of the
    task it is running until they are sent to the master. */
module Sampling {
  import opened Types

  /** The most samples a buffer holds. */
  const QueueCapacity: nat := 1024

  /** The buffer after offering it `s`: a full buffer drops the new sample
      instead of blocking or evicting an older one. */
  function Offer(q: seq<Sample>, s: Sample): (r: seq<Sample>)
    ensures |q| < QueueCapacity ==> r == q + [s]
    ensures |q| >= QueueCapacity ==> r == q
  {
    if |q| < QueueCapacity then q + [s] else q
  }

  /** Offering samples one after the other. */
  function OfferAll(q: seq<Sample>, xs: seq<Sample>): seq<Sample>
    decreases |xs|
  {
    if |xs| == 0 then q else OfferAll(Offer(q, xs[0]), xs[1..])
  }

  /** From any buffer within capacity, the buffer keeps the earliest samples
      offered, in order, up to its capacity, and drops all later ones. */
  lemma {:induction false} OfferAllKeepsEarliest(q: seq<Sample>, xs: seq<Sample>)
    requires |q| <= QueueCapacity
    ensures var n := if |q| + |xs| <= QueueCapacity then |xs| else QueueCapacity - |q|;
      OfferAll(q, xs) == q + xs[..n]
    decreases |xs|
  {
    if |xs| > 0 {
      OfferAllKeepsEarliest(Offer(q, xs[0]), xs[1..]);
      if |q| < QueueCapacity {
        var n := if |q| + |xs| <= QueueCapacity then |xs| else QueueCapacity - |q|;
        assert q + [xs[0]] + xs[1..][..n - 1] == q + xs[..n];
      } else {
        assert xs[..0] == [];
      }
    }
  }

  /** A buffer of samples for one client running one operation. */
  class Sampler {
    const clientId: nat
    const operation: Operation
    /** The client's clock reading when it started; samples carry times relative to it. */
    const startTimestamp: real
    /** The queued samples, oldest first. */
    var q: seq<Sample>

    ghost predicate Valid()
      reads this
    {
      |q| <= QueueCapacity
    }

    constructor(clientId: nat, operation: Operation, startTimestamp: real)
      ensures Valid()
      ensures this.clientId == clientId && this.operation == operation && this.startTimestamp == startTimestamp
      ensures q == []
    {
      this.clientId := clientId;
      this.operation := operation;
      this.startTimestamp := startTimestamp;
      q := [];
    }

    /** Records the sample of one executed operation, taken at wall-clock time
        `absoluteTime` and client clock reading `now`. Reports whether the
        sample was dropped because the buffer was full. */
    method Add(sampleType: SampleType, latencyMs: real, serviceTimeMs: real, totalOps: int, totalOpsUnit: string,
               timePeriod: real, currIteration: int, totalIterations: int, absoluteTime: real, now: real)
      returns (dropped: bool)
      requires Valid()
      modifies this
      ensures Valid()
      ensures dropped <==> |old(q)| == QueueCapacity
      ensures q == Offer(old(q), Sample(clientId, absoluteTime, now - startTimestamp, operation, sampleType, latencyMs,
        serviceTimeMs, totalOps, totalOpsUnit, timePeriod, currIteration, totalIterations))
    {
      var sample := Sample(clientId, absoluteTime, now - startTimestamp, operation, sampleType, latencyMs,
        serviceTimeMs, totalOps, totalOpsUnit, timePeriod, currIteration, totalIterations);
      if |q| < QueueCapacity {
        q := q + [sample];
        dropped := false;
      } else {
        dropped := true;
      }
    }

    /** Takes every queued sample, oldest first, leaving the buffer empty. */
    method Samples() returns (samples: seq<Sample>)
      requires Valid()
      modifies this
      ensures Valid()
      ensures samples == old(q) && q == []
    {
      samples := [];
      while |q| > 0
        invariant samples + q == old(q)
        decreases |q|
      {
        samples := samples + [q[0]];
        q := q[1..];
      }
    }
  }
}
