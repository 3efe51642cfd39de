/** The throughput the master reports over all load generators: samples are
    grouped by operation, each group is ordered by time, and one throughput
    point is emitted whenever the time since the group's start crosses into a
    new bucket. Times are exact reals; no claim is made about float rounding. */
module Throughput {
  import opened Types

  /** One throughput point: when, which sample type, how many operations per
      second since the start, and the unit. */
  datatype Point = Point(absoluteTime: real, relativeTime: real, sampleType: SampleType, throughput: real, unit: string)

  // ---------------------------------------------------------------------------
  // Grouping by operation
  // ---------------------------------------------------------------------------

  /** The operations that occur in `samples`. */
  function OperationsOf(samples: seq<Sample>): set<Operation>
  {
    set s | s in samples :: s.operation
  }

  /** The samples of operation `op`, in their original order. */
  function SamplesOf(samples: seq<Sample>, op: Operation): (r: seq<Sample>)
    ensures forall s :: s in r <==> s in samples && s.operation == op
    ensures |r| <= |samples|
  {
    if |samples| == 0 then []
    else
      var last := samples[|samples| - 1];
      var before := SamplesOf(samples[..|samples| - 1], op);
      assert forall s :: s in samples <==> s in samples[..|samples| - 1] || s == last;
      if last.operation == op then before + [last] else before
  }

  /** Every sample lands in the group of its own operation and in no other. */
  lemma SampleInExactlyOneGroup(samples: seq<Sample>, s: Sample, op: Operation)
    requires s in samples
    ensures s in SamplesOf(samples, op) <==> op == s.operation
  {
  }

  /** An operation has a group exactly when it occurs in the samples. */
  lemma GroupNotEmpty(samples: seq<Sample>, op: Operation)
    ensures |SamplesOf(samples, op)| > 0 <==> op in OperationsOf(samples)
  {
    var group := SamplesOf(samples, op);
    if |group| > 0 {
      assert group[0] in samples;
    }
    if op in OperationsOf(samples) {
      var s :| s in samples && s.operation == op;
      assert s in group;
    }
  }

  lemma SamplesOfSnoc(samples: seq<Sample>, s: Sample, op: Operation)
    ensures SamplesOf(samples + [s], op) == SamplesOf(samples, op) + (if s.operation == op then [s] else [])
    ensures OperationsOf(samples + [s]) == OperationsOf(samples) + {s.operation}
  {
    assert (samples + [s])[..|samples|] == samples;
  }

  /** `groups` holds, for each operation of `samples`, that operation's samples. */
  ghost predicate Grouped(samples: seq<Sample>, groups: map<Operation, seq<Sample>>)
  {
    && groups.Keys == OperationsOf(samples)
    && forall op :: op in groups ==> groups[op] == SamplesOf(samples, op)
  }

  lemma GroupedOneMore(samples: seq<Sample>, s: Sample, groups: map<Operation, seq<Sample>>, existing: seq<Sample>)
    requires Grouped(samples, groups)
    requires existing == SamplesOf(samples, s.operation)
    ensures Grouped(samples + [s], groups[s.operation := existing + [s]])
  {
    forall op {
      SamplesOfSnoc(samples, s, op);
    }
  }

  /** Groups the samples by operation, keeping their order within each group. */
  method GroupByOperation(samples: seq<Sample>) returns (groups: map<Operation, seq<Sample>>)
    ensures groups.Keys == OperationsOf(samples)
    ensures forall op :: op in groups ==> groups[op] == SamplesOf(samples, op)
  {
    groups := map[];
    var i := 0;
    while i < |samples|
      invariant 0 <= i <= |samples|
      invariant Grouped(samples[..i], groups)
    {
      var sample := samples[i];
      var k := sample.operation;
      assert samples[..i + 1] == samples[..i] + [sample];
      ghost var before := groups;
      GroupNotEmpty(samples[..i], k);
      if k !in groups {
        groups := groups[k := []];
      }
      GroupedOneMore(samples[..i], sample, before, groups[k]);
      groups := groups[k := groups[k] + [sample]];
      i := i + 1;
    }
    assert samples[..i] == samples;
  }

  // ---------------------------------------------------------------------------
  // Ordering a group by time
  // ---------------------------------------------------------------------------

  predicate SortedByTime(xs: seq<Sample>)
  {
    forall i, j :: 0 <= i < j < |xs| ==> xs[i].absoluteTime <= xs[j].absoluteTime
  }

  /** Inserts `s` into a sequence ordered by time, before the first later sample. */
  function InsertByTime(s: Sample, xs: seq<Sample>): (r: seq<Sample>)
    requires SortedByTime(xs)
    ensures SortedByTime(r)
    ensures multiset(r) == multiset(xs) + multiset{s}
    ensures |r| == |xs| + 1
    ensures r[0] == s || (|xs| > 0 && r[0] == xs[0])
  {
    if |xs| == 0 || s.absoluteTime <= xs[0].absoluteTime then
      SortedCons(s, xs);
      [s] + xs
    else
      var rest := InsertByTime(s, xs[1..]);
      assert xs == [xs[0]] + xs[1..];
      SortedCons(xs[0], rest);
      [xs[0]] + rest
  }

  lemma SortedCons(x: Sample, ys: seq<Sample>)
    requires SortedByTime(ys)
    requires |ys| > 0 ==> x.absoluteTime <= ys[0].absoluteTime
    ensures SortedByTime([x] + ys)
  {
    var r := [x] + ys;
    forall i, j | 0 <= i < j < |r|
      ensures r[i].absoluteTime <= r[j].absoluteTime
    {
      if i == 0 && j > 1 {
        assert ys[0].absoluteTime <= ys[j - 1].absoluteTime;
      }
    }
  }

  /** The samples ordered by absolute time: the same samples, sorted. */
  function SortByTime(xs: seq<Sample>): (r: seq<Sample>)
    ensures SortedByTime(r)
    ensures multiset(r) == multiset(xs)
    ensures |r| == |xs|
  {
    if |xs| == 0 then []
    else
      assert xs == [xs[0]] + xs[1..];
      InsertByTime(xs[0], SortByTime(xs[1..]))
  }

  // ---------------------------------------------------------------------------
  // The throughput series of one operation
  // ---------------------------------------------------------------------------

  /** What the computation carries from one sample to the next: the operations
      counted so far, the longest time since the start, the bucket the next
      point must reach, the sample type so far, the points emitted, and the
      time since the start at which each point was emitted. */
  datatype Acc = Acc(totalCount: int, interval: real, bucket: int, sampleType: SampleType,
                     points: seq<Point>, emittedAt: seq<real>)

  function Max(a: real, b: real): real
  {
    if a >= b then a else b
  }

  /** The state after one more sample. A sample type never goes back to a lower
      one; a point is emitted once the time since the start is positive and
      reaches the current bucket, and the next bucket then begins
      `bucketInterval` whole seconds after the one the time falls in. */
  function Advance(acc: Acc, s: Sample, startTime: real, bucketInterval: int): Acc
  {
    var sampleType := if acc.sampleType.Rank() < s.sampleType.Rank() then s.sampleType else acc.sampleType;
    var totalCount := acc.totalCount + s.totalOps;
    var interval := Max(s.absoluteTime - startTime, acc.interval);
    if interval > 0.0 && interval >= acc.bucket as real then
      var point := Point(s.absoluteTime, s.relativeTime, sampleType, totalCount as real / interval, s.totalOpsUnit + "/s");
      Acc(totalCount, interval, interval.Floor + bucketInterval, sampleType, acc.points + [point], acc.emittedAt + [interval])
    else
      Acc(totalCount, interval, acc.bucket, sampleType, acc.points, acc.emittedAt)
  }

  /** The state after the samples `xs`, in order. */
  function Fold(init: Acc, xs: seq<Sample>, startTime: real, bucketInterval: int): Acc
  {
    if |xs| == 0 then init
    else Advance(Fold(init, xs[..|xs| - 1], startTime, bucketInterval), xs[|xs| - 1], startTime, bucketInterval)
  }

  /** The start of a group: the first sample's time minus the period it covers. */
  function StartTime(xs: seq<Sample>): real
    requires |xs| > 0
  {
    xs[0].absoluteTime - xs[0].timePeriod
  }

  function Initial(xs: seq<Sample>): Acc
    requires |xs| > 0
  {
    Acc(0, 0.0, 0, xs[0].sampleType, [], [])
  }

  /** The final state of the series of a group ordered by time. */
  function SeriesAcc(xs: seq<Sample>, bucketInterval: int): Acc
    requires |xs| > 0
  {
    Fold(Initial(xs), xs, StartTime(xs), bucketInterval)
  }

  function Series(xs: seq<Sample>, bucketInterval: int): seq<Point>
    requires |xs| > 0
  {
    SeriesAcc(xs, bucketInterval).points
  }

  /** What holds of the state at every sample: one emission time per point,
      every emission at a positive time not after the longest time so far,
      each emission in a later bucket than the one before, the bucket to reach
      next, and sample types that never decrease along the points. */
  ghost predicate AccInvariant(acc: Acc, bucketInterval: int)
  {
    EmissionsInvariant(acc, bucketInterval) && TypesInvariant(acc)
  }

  ghost predicate EmissionsInvariant(acc: Acc, bucketInterval: int)
  {
    && |acc.points| == |acc.emittedAt|
    && acc.interval >= 0.0
    && (forall i :: 0 <= i < |acc.emittedAt| ==> 0.0 < acc.emittedAt[i] <= acc.interval)
    && (forall i :: 0 <= i < |acc.emittedAt| - 1 ==>
          acc.emittedAt[i + 1] >= (acc.emittedAt[i].Floor + bucketInterval) as real)
    && (|acc.emittedAt| == 0 ==> acc.bucket == 0)
    && (|acc.emittedAt| > 0 ==> acc.bucket == acc.emittedAt[|acc.emittedAt| - 1].Floor + bucketInterval)
  }

  ghost predicate TypesInvariant(acc: Acc)
  {
    && (forall i :: 0 <= i < |acc.points| ==> acc.points[i].sampleType.Rank() <= acc.sampleType.Rank())
    && (forall i, j :: 0 <= i < j < |acc.points| ==> acc.points[i].sampleType.Rank() <= acc.points[j].sampleType.Rank())
  }

  /** A step that emits nothing keeps the emissions as they are; a step that
      emits records a positive time that reaches the bucket and moves the
      bucket past it. */
  lemma EmissionsKept(acc: Acc, next: Acc, bucketInterval: int, emits: bool)
    requires EmissionsInvariant(acc, bucketInterval)
    requires next.interval >= acc.interval
    requires !emits ==> next.emittedAt == acc.emittedAt && next.bucket == acc.bucket && |next.points| == |acc.points|
    requires emits ==> && next.emittedAt == acc.emittedAt + [next.interval]
                       && next.interval > 0.0 && next.interval >= acc.bucket as real
                       && next.bucket == next.interval.Floor + bucketInterval
                       && |next.points| == |acc.points| + 1
    ensures EmissionsInvariant(next, bucketInterval)
  {
    if emits {
      EmissionKept(acc, next, bucketInterval);
    }
  }

  lemma EmissionKept(acc: Acc, next: Acc, bucketInterval: int)
    requires EmissionsInvariant(acc, bucketInterval)
    requires next.interval >= acc.interval
    requires next.emittedAt == acc.emittedAt + [next.interval]
    requires next.interval > 0.0 && next.interval >= acc.bucket as real
    requires next.bucket == next.interval.Floor + bucketInterval
    requires |next.points| == |acc.points| + 1
    ensures EmissionsInvariant(next, bucketInterval)
  {
    var n := |acc.emittedAt|;
    assert forall i :: 0 <= i < n ==> next.emittedAt[i] == acc.emittedAt[i];
    assert next.emittedAt[n] == next.interval;
    assert forall i :: 0 <= i < n + 1 ==> 0.0 < next.emittedAt[i] <= next.interval;
    assert n > 0 ==> next.emittedAt[n] >= (next.emittedAt[n - 1].Floor + bucketInterval) as real;
  }

  /** A step whose sample type is not lower, and that appends at most a point
      of that type, keeps the types ordered. */
  lemma TypesKept(acc: Acc, next: Acc, emits: bool)
    requires TypesInvariant(acc)
    requires acc.sampleType.Rank() <= next.sampleType.Rank()
    requires !emits ==> next.points == acc.points
    requires emits ==> (|next.points| == |acc.points| + 1 && next.points[..|acc.points|] == acc.points
      && next.points[|acc.points|].sampleType == next.sampleType)
    ensures TypesInvariant(next)
  {
    if emits {
      var n := |acc.points|;
      assert forall i :: 0 <= i < n ==> next.points[i] == acc.points[i];
    }
  }

  lemma AdvanceKeepsInvariant(acc: Acc, s: Sample, startTime: real, bucketInterval: int)
    requires AccInvariant(acc, bucketInterval)
    ensures AccInvariant(Advance(acc, s, startTime, bucketInterval), bucketInterval)
    ensures |Advance(acc, s, startTime, bucketInterval).points| <= |acc.points| + 1
    ensures Advance(acc, s, startTime, bucketInterval).points[..|acc.points|] == acc.points
  {
    var next := Advance(acc, s, startTime, bucketInterval);
    var emits := |next.points| > |acc.points|;
    EmissionsKept(acc, next, bucketInterval, emits);
    TypesKept(acc, next, emits);
  }

  lemma {:induction false} FoldKeepsInvariant(init: Acc, xs: seq<Sample>, startTime: real, bucketInterval: int)
    requires AccInvariant(init, bucketInterval)
    ensures AccInvariant(Fold(init, xs, startTime, bucketInterval), bucketInterval)
    ensures |Fold(init, xs, startTime, bucketInterval).points| <= |init.points| + |xs|
    ensures |init.points| <= |Fold(init, xs, startTime, bucketInterval).points|
  {
    if |xs| > 0 {
      FoldKeepsInvariant(init, xs[..|xs| - 1], startTime, bucketInterval);
      AdvanceKeepsInvariant(Fold(init, xs[..|xs| - 1], startTime, bucketInterval), xs[|xs| - 1], startTime, bucketInterval);
    }
  }

  /** Within a series, the sample type of the points never decreases: once the
      measurement samples start, no later point is typed warmup. */
  lemma SeriesTypesNeverDecrease(xs: seq<Sample>, bucketInterval: int, i: int, j: int)
    requires |xs| > 0
    requires 0 <= i < j < |Series(xs, bucketInterval)|
    ensures Series(xs, bucketInterval)[i].sampleType.Rank() <= Series(xs, bucketInterval)[j].sampleType.Rank()
  {
    FoldKeepsInvariant(Initial(xs), xs, StartTime(xs), bucketInterval);
  }

  /** A series has at most one point per sample. */
  lemma AtMostOnePointPerSample(xs: seq<Sample>, bucketInterval: int)
    requires |xs| > 0
    ensures |Series(xs, bucketInterval)| <= |xs|
  {
    FoldKeepsInvariant(Initial(xs), xs, StartTime(xs), bucketInterval);
  }

  /** With buckets of at least one second, every point falls in a later whole
      second than the one before, at least `bucketInterval` seconds later, and
      every point is emitted at a positive time since the start. */
  lemma PointsInDistinctBuckets(xs: seq<Sample>, bucketInterval: int, i: int)
    requires |xs| > 0 && bucketInterval >= 1
    requires 0 <= i < |Series(xs, bucketInterval)|
    ensures var at := SeriesAcc(xs, bucketInterval).emittedAt;
      && |at| == |Series(xs, bucketInterval)|
      && at[i] > 0.0
      && (i + 1 < |at| ==> at[i + 1].Floor >= at[i].Floor + bucketInterval && at[i + 1] > at[i])
  {
    var acc := SeriesAcc(xs, bucketInterval);
    FoldKeepsInvariant(Initial(xs), xs, StartTime(xs), bucketInterval);
    if i + 1 < |acc.emittedAt| {
      FloorAtLeast(acc.emittedAt[i + 1], acc.emittedAt[i].Floor + bucketInterval);
    }
  }

  /** No bucket goes without its point: after every prefix of the samples, a
      positive time since the start lies below the bucket the next point must
      reach, so each bucket the time has reached has had its point. */
  lemma NoBucketSkipped(xs: seq<Sample>, bucketInterval: int, k: nat)
    requires |xs| > 0 && bucketInterval >= 1 && k <= |xs|
    ensures var acc := Fold(Initial(xs), xs[..k], StartTime(xs), bucketInterval);
      acc.interval > 0.0 ==> acc.interval < acc.bucket as real
  {
    if k > 0 {
      var start := StartTime(xs);
      assert xs[..k][..k - 1] == xs[..k - 1];
      var before := Fold(Initial(xs), xs[..k - 1], start, bucketInterval);
      var acc := Advance(before, xs[k - 1], start, bucketInterval);
      assert Fold(Initial(xs), xs[..k], start, bucketInterval) == acc;
      if acc.interval > 0.0 && acc.interval >= before.bucket as real {
        assert acc.interval < (acc.interval.Floor + 1) as real;
      }
    }
  }

  lemma FloorAtLeast(x: real, n: int)
    requires x >= n as real
    ensures x.Floor >= n
  {
  }

  /** When the first sample covers a positive period, it yields the first point. */
  lemma FirstSampleEmits(xs: seq<Sample>, bucketInterval: int)
    requires |xs| > 0 && xs[0].timePeriod > 0.0
    ensures |Series(xs, bucketInterval)| >= 1
    ensures Series(xs, bucketInterval)[0].absoluteTime == xs[0].absoluteTime
  {
    var init := Initial(xs);
    var start := StartTime(xs);
    assert xs[..1][..0] == [] && xs[..1][0] == xs[0];
    var first := Fold(init, xs[..1], start, bucketInterval);
    assert Fold(init, xs[..1][..0], start, bucketInterval) == init;
    assert first == Advance(init, xs[0], start, bucketInterval);
    assert |first.points| == 1 && first.points[0].absoluteTime == xs[0].absoluteTime;
    FoldPrefix(init, xs, 1, start, bucketInterval);
  }

  /** Later samples only append points. */
  lemma {:induction false} FoldPrefix(init: Acc, xs: seq<Sample>, k: nat, startTime: real, bucketInterval: int)
    requires k <= |xs|
    ensures var before := Fold(init, xs[..k], startTime, bucketInterval).points;
      var after := Fold(init, xs, startTime, bucketInterval).points;
      |before| <= |after| && after[..|before|] == before
    decreases |xs|
  {
    if k < |xs| {
      var prefix := xs[..|xs| - 1];
      assert prefix[..k] == xs[..k];
      FoldPrefix(init, prefix, k, startTime, bucketInterval);
      var mid := Fold(init, prefix, startTime, bucketInterval);
      var next := Advance(mid, xs[|xs| - 1], startTime, bucketInterval);
      assert |next.points| >= |mid.points| && next.points[..|mid.points|] == mid.points;
    } else {
      assert xs[..k] == xs;
    }
  }

  /** Computes the throughput series of one operation's samples, ordered by time. */
  method SeriesOf(currentSamples: seq<Sample>, bucketIntervalSecs: int) returns (points: seq<Point>)
    requires |currentSamples| > 0
    ensures points == Series(currentSamples, bucketIntervalSecs)
  {
    var totalCount := 0;
    var interval := 0.0;
    var currentBucket := 0;
    var currentSampleType := currentSamples[0].sampleType;
    var startTime := currentSamples[0].absoluteTime - currentSamples[0].timePeriod;
    points := [];
    ghost var emittedAt: seq<real> := [];
    var i := 0;
    while i < |currentSamples|
      invariant 0 <= i <= |currentSamples|
      invariant Acc(totalCount, interval, currentBucket, currentSampleType, points, emittedAt)
        == Fold(Initial(currentSamples), currentSamples[..i], startTime, bucketIntervalSecs)
    {
      var sample := currentSamples[i];
      assert currentSamples[..i + 1][..i] == currentSamples[..i];
      // once we have seen a new sample type, we stick to it
      if currentSampleType.Rank() < sample.sampleType.Rank() {
        currentSampleType := sample.sampleType;
      }
      totalCount := totalCount + sample.totalOps;
      interval := Max(sample.absoluteTime - startTime, interval);
      if interval > 0.0 && interval >= currentBucket as real {
        currentBucket := interval.Floor + bucketIntervalSecs;
        var throughput := totalCount as real / interval;
        points := points + [Point(sample.absoluteTime, sample.relativeTime, currentSampleType, throughput,
          sample.totalOpsUnit + "/s")];
        emittedAt := emittedAt + [interval];
      }
      i := i + 1;
    }
    assert currentSamples[..i] == currentSamples;
  }

  /** `report` holds, for each of its operations, the series of that
      operation's samples ordered by time. */
  ghost predicate Reports(samples: seq<Sample>, bucketInterval: int, report: map<Operation, seq<Point>>)
  {
    forall op :: op in report ==>
      |SamplesOf(samples, op)| > 0 &&
      report[op] == Series(SortByTime(SamplesOf(samples, op)), bucketInterval)
  }

  lemma ReportsOneMore(samples: seq<Sample>, bucketInterval: int, report: map<Operation, seq<Point>>,
                       op: Operation, points: seq<Point>)
    requires Reports(samples, bucketInterval, report)
    requires |SamplesOf(samples, op)| > 0
    requires points == Series(SortByTime(SamplesOf(samples, op)), bucketInterval)
    ensures Reports(samples, bucketInterval, report[op := points])
  {
  }

  /** The series of one operation from its group of samples. */
  method SeriesOfOperation(samples: seq<Sample>, op: Operation, group: seq<Sample>, bucketIntervalSecs: int)
    returns (points: seq<Point>)
    requires op in OperationsOf(samples) && group == SamplesOf(samples, op)
    ensures |SamplesOf(samples, op)| > 0
    ensures points == Series(SortByTime(SamplesOf(samples, op)), bucketIntervalSecs)
  {
    GroupNotEmpty(samples, op);
    // sort all samples by time
    var currentSamples := SortByTime(group);
    points := SeriesOf(currentSamples, bucketIntervalSecs);
  }

  /** The throughput series of every operation that occurs in `samples`, each
      computed from that operation's samples ordered by time. */
  method CalculateGlobalThroughput(samples: seq<Sample>, bucketIntervalSecs: int)
    returns (globalThroughput: map<Operation, seq<Point>>)
    ensures globalThroughput.Keys == OperationsOf(samples)
    ensures Reports(samples, bucketIntervalSecs, globalThroughput)
  {
    var samplesPerOp := GroupByOperation(samples);
    globalThroughput := map[];
    var remaining := samplesPerOp.Keys;
    while remaining != {}
      invariant remaining <= samplesPerOp.Keys
      invariant globalThroughput.Keys == samplesPerOp.Keys - remaining
      invariant Reports(samples, bucketIntervalSecs, globalThroughput)
      decreases remaining
    {
      var op :| op in remaining;
      var points := SeriesOfOperation(samples, op, samplesPerOp[op], bucketIntervalSecs);
      ReportsOneMore(samples, bucketIntervalSecs, globalThroughput, op, points);
      globalThroughput := globalThroughput[op := points];
      remaining := remaining - {op};
    }
  }
}
