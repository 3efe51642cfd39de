/** The allocator: turns a challenge's schedule into the allocation matrix that
    says, client by client, which task to run and where to wait for the others,
    and derives the join points, the operations between join points and the
    number of clients from it. */
module Allocator {
  import opened Types

  // ---------------------------------------------------------------------------
  // Number of clients
  // ---------------------------------------------------------------------------

  /** The number of clients needed to run the schedule: the largest `clients`
      among its top-level entries, and at least one. */
  function Clients(schedule: seq<Phase>): (n: nat)
    ensures n >= 1
    ensures forall p :: p in schedule ==> p.clients <= n
    ensures n == 1 || exists p :: p in schedule && p.clients == n
  {
    if |schedule| == 0 then 1
    else
      var rest := Clients(schedule[..|schedule| - 1]);
      var last := schedule[|schedule| - 1];
      assert forall p :: p in schedule ==> p in schedule[..|schedule| - 1] || p == last;
      if rest >= last.clients then rest else last.clients
  }

  // ---------------------------------------------------------------------------
  // Specification of the allocation matrix
  // ---------------------------------------------------------------------------

  /** The client slots that the sub-tasks of one phase occupy, in order: every
      sub-task once for each client it asks for. Slot `k` goes to client `k % m`. */
  function Slots(subTasks: seq<Task>): seq<Task>
  {
    if |subTasks| == 0 then []
    else
      var last := subTasks[|subTasks| - 1];
      Slots(subTasks[..|subTasks| - 1]) + seq(last.clients, _ => last)
  }

  /** The task cells that client `r` of `m` receives from the slots `e`: the
      slots whose index is `r` modulo `m`, in order. */
  function Dealt(e: seq<Task>, r: int, m: nat): seq<Cell>
    requires m > 0
  {
    if |e| == 0 then []
    else Dealt(e[..|e| - 1], r, m) + (if (|e| - 1) % m == r then [TaskCell(e[|e| - 1])] else [])
  }

  /** The padding client `r` receives after the phase's tasks when the slots do
      not fill all `m` clients evenly. */
  function Padding(slotCount: nat, r: int, m: nat): seq<Cell>
    requires m > 0
  {
    if slotCount % m > 0 && slotCount % m <= r < m then [Empty] else []
  }

  /** The cells client `r` receives for one phase, before the phase's closing join point. */
  function Segment(p: Phase, r: int, m: nat): seq<Cell>
    requires m > 0
  {
    var e := Slots(p.subTasks);
    Dealt(e, r, m) + Padding(|e|, r, m)
  }

  /** Row `r` of the allocation matrix for the phases `phases` and `m` clients:
      join point 0, then for the k-th phase its segment followed by join point k. */
  function Row(phases: seq<Phase>, r: int, m: nat): seq<Cell>
    requires m > 0
  {
    if |phases| == 0 then [JoinPointCell(JoinPoint(0))]
    else
      Row(phases[..|phases| - 1], r, m)
        + Segment(phases[|phases| - 1], r, m)
        + [JoinPointCell(JoinPoint(|phases|))]
  }

  /** All rows for `m` clients. */
  function Rows(phases: seq<Phase>, m: nat): seq<seq<Cell>>
    requires m > 0
  {
    seq(m, r => Row(phases, r, m))
  }

  /** The allocation matrix of a schedule. */
  function Matrix(schedule: seq<Phase>): seq<seq<Cell>>
  {
    Rows(schedule, Clients(schedule))
  }

  // ---------------------------------------------------------------------------
  // Computing the allocation matrix
  // ---------------------------------------------------------------------------

  /** Appends `cell` to the row of every client. */
  method AppendToAll(allocations: seq<seq<Cell>>, cell: Cell) returns (result: seq<seq<Cell>>)
    ensures |result| == |allocations|
    ensures forall r :: 0 <= r < |result| ==> result[r] == allocations[r] + [cell]
  {
    result := allocations;
    var clientIndex := 0;
    while clientIndex < |result|
      invariant 0 <= clientIndex <= |result| == |allocations|
      invariant forall r :: 0 <= r < clientIndex ==> result[r] == allocations[r] + [cell]
      invariant forall r :: clientIndex <= r < |result| ==> result[r] == allocations[r]
    {
      result := result[clientIndex := result[clientIndex] + [cell]];
      clientIndex := clientIndex + 1;
    }
  }

  lemma DealtSnoc(e: seq<Task>, t: Task, r: int, m: nat)
    requires m > 0
    ensures Dealt(e + [t], r, m) == Dealt(e, r, m) + (if |e| % m == r then [TaskCell(t)] else [])
  {
    assert (e + [t])[..|e|] == e;
  }

  lemma SlotsSnoc(subTasks: seq<Task>, j: nat)
    requires j < |subTasks|
    ensures Slots(subTasks[..j + 1]) == Slots(subTasks[..j]) + seq(subTasks[j].clients, _ => subTasks[j])
  {
    assert subTasks[..j + 1][..j] == subTasks[..j];
  }

  lemma RowSnoc(phases: seq<Phase>, k: nat, r: int, m: nat)
    requires m > 0 && k < |phases|
    ensures Row(phases[..k + 1], r, m) == Row(phases[..k], r, m) + Segment(phases[k], r, m) + [JoinPointCell(JoinPoint(k + 1))]
  {
    assert phases[..k + 1][..k] == phases[..k];
  }

  /** Deals the `clients` slots of one sub-task round-robin, continuing at the
      client after the one that received the last slot dealt so far (`done`). */
  method DealSubTask(rows: seq<seq<Cell>>, subTask: Task, startClientIndex: nat,
                     ghost base: seq<seq<Cell>>, ghost done: seq<Task>)
    returns (result: seq<seq<Cell>>)
    requires |rows| > 0 && |base| == |rows| && startClientIndex == |done|
    requires forall r :: 0 <= r < |rows| ==> rows[r] == base[r] + Dealt(done, r, |rows|)
    ensures |result| == |rows|
    ensures forall r :: 0 <= r < |rows| ==>
      result[r] == base[r] + Dealt(done + seq(subTask.clients, _ => subTask), r, |rows|)
  {
    var maxClients := |rows|;
    result := rows;
    var clientIndex := startClientIndex;
    assert done + seq(0, _ => subTask) == done;
    while clientIndex < startClientIndex + subTask.clients
      invariant startClientIndex <= clientIndex <= startClientIndex + subTask.clients
      invariant |result| == maxClients
      invariant forall r :: 0 <= r < maxClients ==>
        result[r] == base[r] + Dealt(done + seq(clientIndex - startClientIndex, _ => subTask), r, maxClients)
    {
      ghost var dealt := done + seq(clientIndex - startClientIndex, _ => subTask);
      assert done + seq(clientIndex + 1 - startClientIndex, _ => subTask) == dealt + [subTask];
      forall r | 0 <= r < maxClients {
        DealtSnoc(dealt, subTask, r, maxClients);
      }
      result := result[clientIndex % maxClients := result[clientIndex % maxClients] + [TaskCell(subTask)]];
      clientIndex := clientIndex + 1;
    }
  }

  /** Pads with `Empty` the clients that the last round of dealing did not reach. */
  method PadPhase(rows: seq<seq<Cell>>, phase: Phase, ghost base: seq<seq<Cell>>)
    returns (result: seq<seq<Cell>>)
    requires |rows| > 0 && |base| == |rows|
    requires forall r :: 0 <= r < |rows| ==> rows[r] == base[r] + Dealt(Slots(phase.subTasks), r, |rows|)
    ensures |result| == |rows|
    ensures forall r :: 0 <= r < |rows| ==> result[r] == base[r] + Segment(phase, r, |rows|)
  {
    var maxClients := |rows|;
    result := rows;
    var startClientIndex := |Slots(phase.subTasks)|;
    if startClientIndex % maxClients > 0 {
      startClientIndex := startClientIndex % maxClients;
      var clientIndex := startClientIndex;
      while clientIndex < maxClients
        invariant startClientIndex <= clientIndex <= maxClients == |result|
        invariant forall r :: 0 <= r < clientIndex ==>
          result[r] == base[r] + Segment(phase, r, maxClients)
        invariant forall r :: clientIndex <= r < maxClients ==>
          result[r] == base[r] + Dealt(Slots(phase.subTasks), r, maxClients)
      {
        result := result[clientIndex := result[clientIndex] + [Empty]];
        clientIndex := clientIndex + 1;
      }
    }
  }

  /** Deals the slots of one phase's sub-tasks round-robin to the clients,
      starting with client 0, and pads the clients the last round did not reach. */
  method AllocatePhase(allocations: seq<seq<Cell>>, phase: Phase) returns (result: seq<seq<Cell>>)
    requires |allocations| > 0
    ensures |result| == |allocations|
    ensures forall r :: 0 <= r < |result| ==> result[r] == allocations[r] + Segment(phase, r, |allocations|)
  {
    var maxClients := |allocations|;
    result := allocations;
    var startClientIndex := 0;
    var j := 0;
    while j < |phase.subTasks|
      invariant 0 <= j <= |phase.subTasks|
      invariant startClientIndex == |Slots(phase.subTasks[..j])|
      invariant |result| == maxClients
      invariant forall r :: 0 <= r < maxClients ==>
        result[r] == allocations[r] + Dealt(Slots(phase.subTasks[..j]), r, maxClients)
    {
      var subTask := phase.subTasks[j];
      result := DealSubTask(result, subTask, startClientIndex, allocations, Slots(phase.subTasks[..j]));
      SlotsSnoc(phase.subTasks, j);
      startClientIndex := startClientIndex + subTask.clients;
      j := j + 1;
    }
    assert phase.subTasks[..j] == phase.subTasks;
    result := PadPhase(result, phase, allocations);
  }

  /** The allocation matrix, built row by row as the driver builds it. */
  method Allocations(schedule: seq<Phase>) returns (allocations: seq<seq<Cell>>)
    ensures allocations == Matrix(schedule)
  {
    var maxClients := Clients(schedule);
    allocations := seq(maxClients, _ => []);
    var joinPointId := 0;
    // an artificial first join point lets the master start all clients together
    allocations := AppendToAll(allocations, JoinPointCell(JoinPoint(joinPointId)));
    joinPointId := joinPointId + 1;
    var k := 0;
    while k < |schedule|
      invariant 0 <= k <= |schedule|
      invariant joinPointId == k + 1
      invariant |allocations| == maxClients
      invariant forall r :: 0 <= r < maxClients ==> allocations[r] == Row(schedule[..k], r, maxClients)
    {
      allocations := AllocatePhase(allocations, schedule[k]);
      // every client joins after each phase
      allocations := AppendToAll(allocations, JoinPointCell(JoinPoint(joinPointId)));
      forall r | 0 <= r < maxClients {
        RowSnoc(schedule, k, r, maxClients);
      }
      joinPointId := joinPointId + 1;
      k := k + 1;
    }
    assert schedule[..k] == schedule;
  }

  // ---------------------------------------------------------------------------
  // Shape of the allocation matrix
  // ---------------------------------------------------------------------------

  lemma MulAtLeast(x: int, m: int)
    requires x >= 1 && m > 0
    ensures x * m >= m
  {
    var k := x - 1;
    assert x * m == k * m + m;
  }

  lemma DivModUnique(a: int, m: int, q: int, s: int)
    requires m > 0 && 0 <= s < m && a == q * m + s
    ensures a / m == q && a % m == s
  {
    var q', s' := a / m, a % m;
    assert a == q' * m + s';
    assert (q - q') * m == q * m - q' * m;
    assert (q - q') * m == s' - s;
    if q > q' {
      MulAtLeast(q - q', m);
    } else if q < q' {
      assert (q' - q) * m == s - s';
      MulAtLeast(q' - q, m);
    }
  }

  /** How quotient and remainder by `m` change from `n` to `n + 1`. */
  lemma DivModSucc(n: nat, m: nat)
    requires m > 0
    ensures n % m == m - 1 ==> (n + 1) / m == n / m + 1 && (n + 1) % m == 0
    ensures n % m < m - 1 ==> (n + 1) / m == n / m && (n + 1) % m == n % m + 1
  {
    var q, s := n / m, n % m;
    assert n == q * m + s;
    if s == m - 1 {
      assert n + 1 == (q + 1) * m + 0;
      DivModUnique(n + 1, m, q + 1, 0);
    } else {
      DivModUnique(n + 1, m, q, s + 1);
    }
  }

  /** Client `r` receives one slot per full round of `m` slots, plus one from
      the last, partial round if the round reaches it. */
  lemma {:induction false} DealtLength(e: seq<Task>, r: int, m: nat)
    requires 0 <= r < m
    ensures |Dealt(e, r, m)| == |e| / m + (if r < |e| % m then 1 else 0)
  {
    if |e| > 0 {
      var n := |e| - 1;
      DealtLength(e[..n], r, m);
      assert e[..n] == e[..|e| - 1];
      assert |Dealt(e, r, m)| == |Dealt(e[..n], r, m)| + (if n % m == r then 1 else 0);
      DivModSucc(n, m);
    }
  }

  /** The number of columns one phase occupies in every row: its full rounds of
      slots, plus one column if the last round is partial. */
  function SegmentWidth(slotCount: nat, m: nat): nat
    requires m > 0
  {
    slotCount / m + (if slotCount % m > 0 then 1 else 0)
  }

  /** The length of every row for the phases `phases`. */
  function RowLength(phases: seq<Phase>, m: nat): nat
    requires m > 0
  {
    if |phases| == 0 then 1
    else RowLength(phases[..|phases| - 1], m) + SegmentWidth(|Slots(phases[|phases| - 1].subTasks)|, m) + 1
  }

  /** Each client's segment of a phase has the same width, padding included. */
  lemma SegmentLength(p: Phase, r: int, m: nat)
    requires 0 <= r < m
    ensures |Segment(p, r, m)| == SegmentWidth(|Slots(p.subTasks)|, m)
  {
    DealtLength(Slots(p.subTasks), r, m);
  }

  lemma {:induction false} RowLengthIs(phases: seq<Phase>, r: int, m: nat)
    requires 0 <= r < m
    ensures |Row(phases, r, m)| == RowLength(phases, m)
  {
    if |phases| > 0 {
      RowLengthIs(phases[..|phases| - 1], r, m);
      SegmentLength(phases[|phases| - 1], r, m);
    }
  }

  /** Every row begins with join point 0, at which all clients start together. */
  lemma {:induction false} RowStart(phases: seq<Phase>, r: int, m: nat)
    requires m > 0
    ensures |Row(phases, r, m)| > 0 && Row(phases, r, m)[0] == JoinPointCell(JoinPoint(0))
  {
    if |phases| > 0 {
      RowStart(phases[..|phases| - 1], r, m);
    }
  }

  lemma RowStartsWithJoinPoint(schedule: seq<Phase>, r: nat)
    requires r < Clients(schedule)
    ensures |Matrix(schedule)[r]| > 0 && Matrix(schedule)[r][0] == JoinPointCell(JoinPoint(0))
  {
    RowStart(schedule, r, Clients(schedule));
  }

  /** Every row ends with the last join point, the one after the last phase. */
  lemma RowEndsWithJoinPoint(schedule: seq<Phase>, r: nat)
    requires r < Clients(schedule)
    ensures var row := Matrix(schedule)[r];
      |row| > 0 && row[|row| - 1] == JoinPointCell(JoinPoint(|schedule|))
  {
  }

  /** The allocation matrix has one row per client and is rectangular, whatever the schedule. */
  lemma MatrixIsRectangular(schedule: seq<Phase>)
    ensures |Matrix(schedule)| == Clients(schedule)
    ensures forall r, r' :: 0 <= r < r' < |Matrix(schedule)| ==> |Matrix(schedule)[r]| == |Matrix(schedule)[r']|
  {
    MatrixRowLength(schedule);
  }

  /** Every row of the allocation matrix has the length the schedule's shape gives it. */
  lemma MatrixRowLength(schedule: seq<Phase>)
    ensures forall r :: 0 <= r < |Matrix(schedule)| ==> |Matrix(schedule)[r]| == RowLength(schedule, Clients(schedule))
  {
    var m := Clients(schedule);
    forall r | 0 <= r < m
      ensures |Matrix(schedule)[r]| == RowLength(schedule, m)
    {
      RowLengthIs(schedule, r, m);
    }
  }

  /** The cells dealt to a client are tasks of the slots. */
  lemma {:induction false} DealtCells(e: seq<Task>, r: int, m: nat, c: Cell)
    requires m > 0
    requires c in Dealt(e, r, m)
    ensures c.TaskCell? && c.task in e
  {
    var n := |e| - 1;
    if c in Dealt(e[..n], r, m) {
      DealtCells(e[..n], r, m, c);
    }
  }

  /** A segment holds no join point. */
  lemma SegmentHasNoJoinPoint(p: Phase, r: int, m: nat, j: int)
    requires m > 0 && 0 <= j < |Segment(p, r, m)|
    ensures !Segment(p, r, m)[j].JoinPointCell?
  {
    var e := Slots(p.subTasks);
    if j < |Dealt(e, r, m)| {
      DealtCells(e, r, m, Dealt(e, r, m)[j]);
    }
  }

  /** A join point at some column of one row is the same join point at that
      column of every row, and the columns hold no join point in any row otherwise. */
  lemma {:induction false} JoinPointsAligned(phases: seq<Phase>, r: int, r': int, m: nat, c: int)
    requires 0 <= r < m && 0 <= r' < m
    requires 0 <= c < RowLength(phases, m)
    ensures RowLength(phases, m) == |Row(phases, r, m)| == |Row(phases, r', m)|
    ensures Row(phases, r, m)[c].JoinPointCell? <==> Row(phases, r', m)[c].JoinPointCell?
    ensures Row(phases, r, m)[c].JoinPointCell? ==> Row(phases, r, m)[c] == Row(phases, r', m)[c]
  {
    RowLengthIs(phases, r, m);
    RowLengthIs(phases, r', m);
    if |phases| > 0 {
      var prefix := phases[..|phases| - 1];
      var last := phases[|phases| - 1];
      var len := RowLength(prefix, m);
      RowLengthIs(prefix, r, m);
      RowLengthIs(prefix, r', m);
      SegmentLength(last, r, m);
      SegmentLength(last, r', m);
      var width := SegmentWidth(|Slots(last.subTasks)|, m);
      if c < len {
        JoinPointsAligned(prefix, r, r', m, c);
        assert Row(phases, r, m)[c] == Row(prefix, r, m)[c];
        assert Row(phases, r', m)[c] == Row(prefix, r', m)[c];
      } else if c < len + width {
        SegmentHasNoJoinPoint(last, r, m, c - len);
        SegmentHasNoJoinPoint(last, r', m, c - len);
        assert Row(phases, r, m)[c] == Segment(last, r, m)[c - len];
        assert Row(phases, r', m)[c] == Segment(last, r', m)[c - len];
      }
    }
  }

  /** The join points of a row, in order. */
  function JoinPointsOf(row: seq<Cell>): seq<JoinPoint>
  {
    if |row| == 0 then []
    else JoinPointsOf(row[..|row| - 1]) + (if row[|row| - 1].JoinPointCell? then [row[|row| - 1].jp] else [])
  }

  lemma {:induction false} JoinPointsOfConcat(a: seq<Cell>, b: seq<Cell>)
    ensures JoinPointsOf(a + b) == JoinPointsOf(a) + JoinPointsOf(b)
  {
    if |b| == 0 {
      assert a + b == a;
    } else {
      JoinPointsOfConcat(a, b[..|b| - 1]);
      assert (a + b)[..|a + b| - 1] == a + b[..|b| - 1];
    }
  }

  lemma {:induction false} NoJoinPoints(cells: seq<Cell>)
    requires forall j :: 0 <= j < |cells| ==> !cells[j].JoinPointCell?
    ensures JoinPointsOf(cells) == []
  {
    if |cells| > 0 {
      NoJoinPoints(cells[..|cells| - 1]);
    }
  }

  /** The join points with ids `0 .. n - 1`, in order. */
  function FirstJoinPoints(n: nat): (jps: seq<JoinPoint>)
    ensures |jps| == n
    ensures forall i :: 0 <= i < n ==> jps[i] == JoinPoint(i)
  {
    if n == 0 then [] else FirstJoinPoints(n - 1) + [JoinPoint(n - 1)]
  }

  lemma JoinPointsOfSingle(c: Cell)
    ensures JoinPointsOf([c]) == if c.JoinPointCell? then [c.jp] else []
  {
    assert [c][..0] == [];
  }

  /** Walking any row, a client meets join points 0, 1, ..., one per phase after the first. */
  lemma {:induction false} RowJoinPoints(phases: seq<Phase>, r: int, m: nat)
    requires m > 0
    ensures JoinPointsOf(Row(phases, r, m)) == FirstJoinPoints(|phases| + 1)
  {
    var jp := JoinPointCell(JoinPoint(|phases|));
    JoinPointsOfSingle(jp);
    if |phases| > 0 {
      var prefix := phases[..|phases| - 1];
      var last := phases[|phases| - 1];
      RowJoinPoints(prefix, r, m);
      var seg := Segment(last, r, m);
      forall j | 0 <= j < |seg| ensures !seg[j].JoinPointCell? {
        SegmentHasNoJoinPoint(last, r, m, j);
      }
      NoJoinPoints(seg);
      JoinPointsOfConcat(Row(prefix, r, m), seg);
      JoinPointsOfConcat(Row(prefix, r, m) + seg, [jp]);
    }
  }

  /** The join points of the schedule, read off the first client's row: one
      more than there are phases, with ids counting up from 0. */
  function JoinPoints(schedule: seq<Phase>): (jps: seq<JoinPoint>)
    ensures |jps| == |schedule| + 1
    ensures forall i :: 0 <= i < |jps| ==> jps[i] == JoinPoint(i)
  {
    RowJoinPoints(schedule, 0, Clients(schedule));
    JoinPointsOf(Matrix(schedule)[0])
  }

  // ---------------------------------------------------------------------------
  // Operations between join points
  // ---------------------------------------------------------------------------

  /** The operations some client runs in a phase: those of its sub-tasks that
      ask for at least one client. */
  function PhaseOperations(p: Phase): set<Operation>
  {
    set t | t in p.subTasks && t.clients > 0 :: t.operation
  }

  /** For each span between consecutive join points that contains a task, the
      operations run in it, in schedule order. */
  function OperationsPerSpan(phases: seq<Phase>): seq<set<Operation>>
  {
    if |phases| == 0 then []
    else
      var last := PhaseOperations(phases[|phases| - 1]);
      OperationsPerSpan(phases[..|phases| - 1]) + (if last != {} then [last] else [])
  }

  /** What the scan over the matrix carries: the finished spans and the
      operations of the span it is in. */
  datatype ScanState = ScanState(ops: seq<set<Operation>>, current: set<Operation>)

  /** One cell of the scan: a task adds its operation to the current span; a
      join point closes the current span unless the span is still empty. */
  function CellStep(st: ScanState, cell: Cell): ScanState
  {
    match cell
    case TaskCell(t) => ScanState(st.ops, st.current + {t.operation})
    case JoinPointCell(_) => if |st.current| > 0 then ScanState(st.ops + [st.current], {}) else st
    case Empty => st
  }

  /** The scan through column `c` of the first `n` rows. */
  function ColumnScan(st: ScanState, a: seq<seq<Cell>>, c: nat, n: nat): ScanState
    requires n <= |a| && forall r :: 0 <= r < |a| ==> c < |a[r]|
  {
    if n == 0 then st else CellStep(ColumnScan(st, a, c, n - 1), a[n - 1][c])
  }

  /** The scan through the first `cols` columns, column by column. */
  function Scan(a: seq<seq<Cell>>, cols: nat): ScanState
    requires forall r :: 0 <= r < |a| ==> cols <= |a[r]|
  {
    if cols == 0 then ScanState([], {}) else ColumnScan(Scan(a, cols - 1), a, cols - 1, |a|)
  }

  /** The operations of the task cells in column `c` of the first `n` rows. */
  function ColumnOperations(a: seq<seq<Cell>>, c: nat, n: nat): set<Operation>
    requires n <= |a| && forall r :: 0 <= r < |a| ==> c < |a[r]|
  {
    set r | 0 <= r < n && a[r][c].TaskCell? :: a[r][c].task.operation
  }

  /** The operations of the task cells in columns `c0 .. c1 - 1`. */
  function SpanOperations(a: seq<seq<Cell>>, c0: nat, c1: nat): set<Operation>
    requires forall r :: 0 <= r < |a| ==> c1 <= |a[r]|
    decreases c1
  {
    if c1 <= c0 then {} else SpanOperations(a, c0, c1 - 1) + ColumnOperations(a, c1 - 1, |a|)
  }

  lemma {:induction false} SpanOperationsMember(a: seq<seq<Cell>>, c0: nat, c1: nat, op: Operation)
    requires forall r :: 0 <= r < |a| ==> c1 <= |a[r]|
    ensures op in SpanOperations(a, c0, c1) <==>
      exists r, c :: 0 <= r < |a| && c0 <= c < c1 && a[r][c].TaskCell? && a[r][c].task.operation == op
    decreases c1
  {
    if c1 > c0 {
      SpanOperationsMember(a, c0, c1 - 1, op);
    }
  }

  lemma ColumnOperationsSnoc(a: seq<seq<Cell>>, c: nat, n: nat)
    requires 0 < n <= |a| && forall r :: 0 <= r < |a| ==> c < |a[r]|
    ensures ColumnOperations(a, c, n) == ColumnOperations(a, c, n - 1)
      + (if a[n - 1][c].TaskCell? then {a[n - 1][c].task.operation} else {})
  {
    var extra := if a[n - 1][c].TaskCell? then {a[n - 1][c].task.operation} else {};
    forall op ensures op in ColumnOperations(a, c, n) <==> op in ColumnOperations(a, c, n - 1) + extra {
      if op in ColumnOperations(a, c, n) {
        var r :| 0 <= r < n && a[r][c].TaskCell? && a[r][c].task.operation == op;
        if r < n - 1 {
          assert op in ColumnOperations(a, c, n - 1);
        }
      }
    }
  }

  /** A column without join points adds the operations of its task cells to the current span. */
  lemma {:induction false} ColumnWithoutJoinPoint(st: ScanState, a: seq<seq<Cell>>, c: nat, n: nat)
    requires n <= |a| && forall r :: 0 <= r < |a| ==> c < |a[r]|
    requires forall r :: 0 <= r < n ==> !a[r][c].JoinPointCell?
    ensures ColumnScan(st, a, c, n) == ScanState(st.ops, st.current + ColumnOperations(a, c, n))
  {
    if n > 0 {
      ColumnWithoutJoinPoint(st, a, c, n - 1);
      var before := ColumnOperations(a, c, n - 1);
      var cell := a[n - 1][c];
      var extra := if cell.TaskCell? then {cell.task.operation} else {};
      ColumnOperationsSnoc(a, c, n);
      TaskStep(st.ops, st.current, before, cell);
      calc {
        ColumnScan(st, a, c, n);
        CellStep(ColumnScan(st, a, c, n - 1), cell);
        CellStep(ScanState(st.ops, st.current + before), cell);
        ScanState(st.ops, st.current + (before + extra));
        ScanState(st.ops, st.current + ColumnOperations(a, c, n));
      }
    } else {
      assert ColumnOperations(a, c, 0) == {};
    }
  }

  /** A cell that is not a join point adds its operation, if any, to the current span. */
  lemma TaskStep(ops: seq<set<Operation>>, current: set<Operation>, before: set<Operation>, cell: Cell)
    requires !cell.JoinPointCell?
    ensures CellStep(ScanState(ops, current + before), cell)
      == ScanState(ops, current + (before + (if cell.TaskCell? then {cell.task.operation} else {})))
  {
    if cell.TaskCell? {
      assert current + before + {cell.task.operation} == current + (before + {cell.task.operation});
    } else {
      assert before + {} == before;
    }
  }

  /** A column of join points closes the current span once, if it holds operations. */
  lemma {:induction false} ColumnOfJoinPoints(st: ScanState, a: seq<seq<Cell>>, c: nat, n: nat)
    requires 0 < n <= |a| && forall r :: 0 <= r < |a| ==> c < |a[r]|
    requires forall r :: 0 <= r < n ==> a[r][c].JoinPointCell?
    ensures ColumnScan(st, a, c, n) == if st.current != {} then ScanState(st.ops + [st.current], {}) else st
  {
    if n > 1 {
      ColumnOfJoinPoints(st, a, c, n - 1);
    }
  }

  /** Scans of two matrices agree on columns where their cells agree. */
  lemma {:induction false} ScanAgrees(a: seq<seq<Cell>>, b: seq<seq<Cell>>, cols: nat)
    requires |a| == |b|
    requires forall r :: 0 <= r < |a| ==> cols <= |a[r]| && cols <= |b[r]|
    requires forall r, c :: 0 <= r < |a| && 0 <= c < cols ==> a[r][c] == b[r][c]
    ensures Scan(a, cols) == Scan(b, cols)
  {
    if cols > 0 {
      ScanAgrees(a, b, cols - 1);
      ColumnScanAgrees(Scan(a, cols - 1), a, b, cols - 1, |a|);
    }
  }

  lemma {:induction false} ColumnScanAgrees(st: ScanState, a: seq<seq<Cell>>, b: seq<seq<Cell>>, c: nat, n: nat)
    requires |a| == |b| && n <= |a|
    requires forall r :: 0 <= r < |a| ==> c < |a[r]| && c < |b[r]|
    requires forall r :: 0 <= r < n ==> a[r][c] == b[r][c]
    ensures ColumnScan(st, a, c, n) == ColumnScan(st, b, c, n)
  {
    if n > 0 {
      ColumnScanAgrees(st, a, b, c, n - 1);
    }
  }

  /** Membership in the slots of a phase: exactly the sub-tasks with at least one client. */
  lemma {:induction false} SlotsMember(subTasks: seq<Task>, t: Task)
    ensures t in Slots(subTasks) <==> t in subTasks && t.clients > 0
  {
    if |subTasks| > 0 {
      var prefix := subTasks[..|subTasks| - 1];
      var last := subTasks[|subTasks| - 1];
      SlotsMember(prefix, t);
      assert subTasks == prefix + [last];
      if t == last && t.clients > 0 {
        assert seq(last.clients, _ => last)[0] == t;
      }
    }
  }

  /** Slot `k` ends up in the row of client `k % m`. */
  lemma {:induction false} DealtComplete(e: seq<Task>, k: nat, m: nat)
    requires m > 0 && k < |e|
    ensures TaskCell(e[k]) in Dealt(e, k % m, m)
  {
    var n := |e| - 1;
    if k < n {
      DealtComplete(e[..n], k, m);
      assert e[..n][k] == e[k];
    }
  }

  /** Where the cells of the last phase sit in a row. */
  lemma RowParts(phases: seq<Phase>, prefix: seq<Phase>, last: Phase, r: int, m: nat)
    requires 0 <= r < m && phases == prefix + [last]
    ensures |Row(prefix, r, m)| == RowLength(prefix, m)
    ensures |Segment(last, r, m)| == SegmentWidth(|Slots(last.subTasks)|, m)
    ensures |Row(phases, r, m)| == RowLength(phases, m)
      == RowLength(prefix, m) + SegmentWidth(|Slots(last.subTasks)|, m) + 1
    ensures Row(phases, r, m) == Row(prefix, r, m) + Segment(last, r, m) + [JoinPointCell(JoinPoint(|phases|))]
  {
    assert phases[..|phases| - 1] == prefix;
    RowLengthIs(prefix, r, m);
    RowLengthIs(phases, r, m);
    SegmentLength(last, r, m);
  }

  /** The cells of row `r` of the matrix `a` for one more phase, column by column:
      the row `b[r]` before it, the phase's segment, and the closing join point. */
  lemma RowCells(phases: seq<Phase>, prefix: seq<Phase>, last: Phase, r: int, m: nat,
                 a: seq<seq<Cell>>, b: seq<seq<Cell>>, len: nat, width: nat)
    requires 0 <= r < m && phases == prefix + [last]
    requires a == Rows(phases, m) && b == Rows(prefix, m)
    requires len == RowLength(prefix, m) && width == SegmentWidth(|Slots(last.subTasks)|, m)
    ensures |b[r]| == len && |Segment(last, r, m)| == width && |a[r]| == len + width + 1
    ensures forall c :: 0 <= c < len ==> a[r][c] == b[r][c]
    ensures forall j :: 0 <= j < width ==> a[r][len + j] == Segment(last, r, m)[j]
    ensures a[r][len + width] == JoinPointCell(JoinPoint(|phases|))
  {
    RowParts(phases, prefix, last, r, m);
    var x, y := Row(prefix, r, m), Segment(last, r, m);
    var row := Row(phases, r, m);
    assert row == x + y + [JoinPointCell(JoinPoint(|phases|))];
    forall j | 0 <= j < |y|
      ensures row[|x| + j] == y[j]
    {
      assert row[|x| + j] == (x + y)[|x| + j];
    }
  }

  /** Every operation in a phase's columns belongs to the phase. */
  lemma SegmentOperationIsPhaseOperation(last: Phase, r: int, m: nat, j: int)
    requires 0 <= r < m && 0 <= j < |Segment(last, r, m)|
    requires Segment(last, r, m)[j].TaskCell?
    ensures Segment(last, r, m)[j].task.operation in PhaseOperations(last)
  {
    var e := Slots(last.subTasks);
    if j < |Dealt(e, r, m)| {
      assert Segment(last, r, m)[j] == Dealt(e, r, m)[j];
      DealtCells(e, r, m, Dealt(e, r, m)[j]);
      SlotsMember(last.subTasks, Segment(last, r, m)[j].task);
    }
  }

  /** Every operation of a phase appears in the phase's segment of some client. */
  lemma PhaseOperationInSegment(last: Phase, m: nat, op: Operation)
    requires m > 0 && op in PhaseOperations(last)
    ensures exists r, j :: (0 <= r < m && 0 <= j < |Segment(last, r, m)|
      && Segment(last, r, m)[j].TaskCell? && Segment(last, r, m)[j].task.operation == op)
  {
    var e := Slots(last.subTasks);
    var t :| t in last.subTasks && t.clients > 0 && t.operation == op;
    SlotsMember(last.subTasks, t);
    var k :| 0 <= k < |e| && e[k] == t;
    DealtComplete(e, k, m);
    var r := k % m;
    var j :| 0 <= j < |Dealt(e, r, m)| && Dealt(e, r, m)[j] == TaskCell(t);
    assert Segment(last, r, m)[j] == TaskCell(t);
  }

  /** The facts about a matrix `a` that holds in columns `len .. len + width - 1`
      the segment of phase `last` for each of its `m` clients' rows. */
  ghost predicate HoldsSegment(a: seq<seq<Cell>>, len: nat, width: nat, last: Phase, m: nat)
    requires m > 0
  {
    && |a| == m
    && (forall r :: 0 <= r < m ==> |Segment(last, r, m)| == width && len + width <= |a[r]|)
    && (forall r, j :: 0 <= r < m && 0 <= j < width ==> a[r][len + j] == Segment(last, r, m)[j])
  }

  lemma SpanOperationInPhase(a: seq<seq<Cell>>, len: nat, width: nat, last: Phase, m: nat, r: int, c: int)
    requires m > 0 && HoldsSegment(a, len, width, last, m)
    requires 0 <= r < m && len <= c < len + width
    requires a[r][c].TaskCell?
    ensures a[r][c].task.operation in PhaseOperations(last)
  {
    var j := c - len;
    var cell := Segment(last, r, m)[j];
    assert a[r][len + j] == cell;
    SegmentOperationIsPhaseOperation(last, r, m, j);
  }

  lemma PhaseOperationInSpan(a: seq<seq<Cell>>, len: nat, width: nat, last: Phase, m: nat, op: Operation)
    requires m > 0 && HoldsSegment(a, len, width, last, m)
    requires op in PhaseOperations(last)
    ensures op in SpanOperations(a, len, len + width)
  {
    PhaseOperationInSegment(last, m, op);
    var r, j :| 0 <= r < m && 0 <= j < |Segment(last, r, m)|
      && Segment(last, r, m)[j].TaskCell? && Segment(last, r, m)[j].task.operation == op;
    assert a[r][len + j] == Segment(last, r, m)[j];
    SpanOperationsMember(a, len, len + width, op);
  }

  /** The task cells of a phase's columns, over all clients, run exactly the
      phase's operations. */
  lemma SegmentColumnsOperations(a: seq<seq<Cell>>, len: nat, width: nat, last: Phase, m: nat)
    requires m > 0 && HoldsSegment(a, len, width, last, m)
    ensures SpanOperations(a, len, len + width) == PhaseOperations(last)
  {
    forall op ensures op in SpanOperations(a, len, len + width) <==> op in PhaseOperations(last) {
      SpanOperationsMember(a, len, len + width, op);
      if op in SpanOperations(a, len, len + width) {
        var r, c :| 0 <= r < |a| && len <= c < len + width && a[r][c].TaskCell? && a[r][c].task.operation == op;
        SpanOperationInPhase(a, len, width, last, m, r, c);
      }
      if op in PhaseOperations(last) {
        PhaseOperationInSpan(a, len, width, last, m, op);
      }
    }
  }

  lemma SegmentColumnsHaveNoJoinPoint(a: seq<seq<Cell>>, len: nat, width: nat, last: Phase, m: nat)
    requires m > 0 && HoldsSegment(a, len, width, last, m)
    ensures forall r, c :: 0 <= r < m && len <= c < len + width ==> !a[r][c].JoinPointCell?
  {
    forall r, c | 0 <= r < m && len <= c < len + width ensures !a[r][c].JoinPointCell? {
      var j := c - len;
      var cell := Segment(last, r, m)[j];
      assert a[r][len + j] == cell;
      SegmentHasNoJoinPoint(last, r, m, j);
    }
  }

  /** A column without join points adds its operations to the current span. */
  lemma ScanColumnWithoutJoinPoint(a: seq<seq<Cell>>, len: nat, c: nat, ops: seq<set<Operation>>)
    requires len <= c
    requires forall r :: 0 <= r < |a| ==> c < |a[r]|
    requires forall r :: 0 <= r < |a| ==> !a[r][c].JoinPointCell?
    requires Scan(a, c) == ScanState(ops, SpanOperations(a, len, c))
    ensures Scan(a, c + 1) == ScanState(ops, SpanOperations(a, len, c + 1))
  {
    ColumnWithoutJoinPoint(Scan(a, c), a, c, |a|);
  }

  /** A column of join points ends the current span. */
  lemma ScanClosingColumn(a: seq<seq<Cell>>, c: nat, ops: seq<set<Operation>>, current: set<Operation>, jp: JoinPoint)
    requires |a| > 0
    requires forall r :: 0 <= r < |a| ==> c < |a[r]| && a[r][c] == JoinPointCell(jp)
    requires Scan(a, c) == ScanState(ops, current)
    ensures Scan(a, c + 1) == ScanState(ops + (if current != {} then [current] else []), {})
  {
    ColumnOfJoinPoints(Scan(a, c), a, c, |a|);
  }

  /** Columns without join points add their operations to the current span. */
  lemma ScanColumnsWithoutJoinPoint(a: seq<seq<Cell>>, len: nat, width: nat, ops: seq<set<Operation>>)
    requires forall r :: 0 <= r < |a| ==> len + width <= |a[r]|
    requires forall r, c :: 0 <= r < |a| && len <= c < len + width ==> !a[r][c].JoinPointCell?
    requires Scan(a, len) == ScanState(ops, {})
    ensures Scan(a, len + width) == ScanState(ops, SpanOperations(a, len, len + width))
  {
    var j := 0;
    while j < width
      invariant 0 <= j <= width
      invariant Scan(a, len + j) == ScanState(ops, SpanOperations(a, len, len + j))
    {
      ScanColumnWithoutJoinPoint(a, len, len + j, ops);
      j := j + 1;
    }
  }

  /** Scanning one more phase: after the scan of the columns before it, the
      columns without join points gather one span, which the closing column of
      join points ends. */
  lemma ScanOneMorePhase(a: seq<seq<Cell>>, len: nat, width: nat, jp: JoinPoint, ops: seq<set<Operation>>)
    requires |a| > 0
    requires forall r :: 0 <= r < |a| ==> |a[r]| == len + width + 1
    requires forall r, c :: 0 <= r < |a| && len <= c < len + width ==> !a[r][c].JoinPointCell?
    requires forall r :: 0 <= r < |a| ==> a[r][len + width] == JoinPointCell(jp)
    requires Scan(a, len) == ScanState(ops, {})
    ensures var current := SpanOperations(a, len, len + width);
      Scan(a, len + width + 1) == ScanState(ops + (if current != {} then [current] else []), {})
  {
    ScanColumnsWithoutJoinPoint(a, len, width, ops);
    // the closing join point ends the span
    ScanClosingColumn(a, len + width, ops, SpanOperations(a, len, len + width), jp);
  }

  /** The scan of the first `cols` columns of `a` ends in `st`. */
  ghost predicate ScansTo(a: seq<seq<Cell>>, cols: nat, st: ScanState)
  {
    && (forall r :: 0 <= r < |a| ==> cols <= |a[r]|)
    && Scan(a, cols) == st
  }

  /** `a` holds a phase's segment in columns `len .. len + width - 1`, closed by a column of `jp`. */
  ghost predicate ClosedSegment(a: seq<seq<Cell>>, len: nat, width: nat, last: Phase, m: nat, jp: JoinPoint)
    requires m > 0
  {
    && HoldsSegment(a, len, width, last, m)
    && (forall r :: 0 <= r < m ==> |a[r]| == len + width + 1)
    && (forall r :: 0 <= r < m ==> a[r][len + width] == JoinPointCell(jp))
  }

  /** The rows for one more phase begin with the rows before it. */
  lemma RowsExtendPrefix(phases: seq<Phase>, prefix: seq<Phase>, last: Phase, m: nat)
    requires m > 0 && phases == prefix + [last]
    ensures var a, b, len := Rows(phases, m), Rows(prefix, m), RowLength(prefix, m);
      && (forall r :: 0 <= r < m ==> |b[r]| == len <= |a[r]|)
      && (forall r, c :: 0 <= r < m && 0 <= c < len ==> a[r][c] == b[r][c])
  {
    var a, b, len := Rows(phases, m), Rows(prefix, m), RowLength(prefix, m);
    var width := SegmentWidth(|Slots(last.subTasks)|, m);
    forall r | 0 <= r < m
      ensures |b[r]| == len <= |a[r]|
      ensures forall c :: 0 <= c < len ==> a[r][c] == b[r][c]
    {
      RowCells(phases, prefix, last, r, m, a, b, len, width);
    }
  }

  /** After the rows before it, the rows for one more phase hold its segment and a closing join point. */
  lemma RowsCloseSegment(phases: seq<Phase>, prefix: seq<Phase>, last: Phase, m: nat)
    requires m > 0 && phases == prefix + [last]
    ensures RowLength(phases, m) == RowLength(prefix, m) + SegmentWidth(|Slots(last.subTasks)|, m) + 1
    ensures ClosedSegment(Rows(phases, m), RowLength(prefix, m), SegmentWidth(|Slots(last.subTasks)|, m),
      last, m, JoinPoint(|phases|))
  {
    var a, b := Rows(phases, m), Rows(prefix, m);
    var len, width := RowLength(prefix, m), SegmentWidth(|Slots(last.subTasks)|, m);
    RowParts(phases, prefix, last, 0, m);
    forall r | 0 <= r < m
      ensures |a[r]| == len + width + 1
      ensures |Segment(last, r, m)| == width
      ensures forall j :: 0 <= j < width ==> a[r][len + j] == Segment(last, r, m)[j]
      ensures a[r][len + width] == JoinPointCell(JoinPoint(|phases|))
    {
      RowCells(phases, prefix, last, r, m, a, b, len, width);
    }
    assert HoldsSegment(a, len, width, last, m);
  }

  /** A matrix that extends the rows of `b` scans its first columns as `b` does. */
  lemma ScanPrefix(a: seq<seq<Cell>>, b: seq<seq<Cell>>, len: nat, st: ScanState)
    requires |a| == |b|
    requires forall r :: 0 <= r < |a| ==> |b[r]| == len <= |a[r]|
    requires forall r, c :: 0 <= r < |a| && 0 <= c < len ==> a[r][c] == b[r][c]
    requires ScansTo(b, len, st)
    ensures ScansTo(a, len, st)
  {
    ScanAgrees(a, b, len);
  }

  /** The columns of a phase's segment, closed by a join point, add the phase's
      operations as one span, if it has any. */
  lemma ScanSegment(a: seq<seq<Cell>>, len: nat, width: nat, last: Phase, m: nat, jp: JoinPoint, ops: seq<set<Operation>>,
                    cols: nat, st: ScanState)
    requires m > 0 && ClosedSegment(a, len, width, last, m, jp)
    requires ScansTo(a, len, ScanState(ops, {}))
    requires cols == len + width + 1
    requires var current := PhaseOperations(last);
      st == ScanState(ops + (if current != {} then [current] else []), {})
    ensures ScansTo(a, cols, st)
  {
    SegmentColumnsHaveNoJoinPoint(a, len, width, last, m);
    SegmentColumnsOperations(a, len, width, last, m);
    ScanOneMorePhase(a, len, width, jp, ops);
  }

  /** Scanning the columns of one more phase adds its operations as a span, if it has any. */
  lemma ScanLastPhase(phases: seq<Phase>, prefix: seq<Phase>, last: Phase, m: nat)
    requires m > 0 && phases == prefix + [last]
    requires ScansTo(Rows(prefix, m), RowLength(prefix, m), ScanState(OperationsPerSpan(prefix), {}))
    ensures ScansTo(Rows(phases, m), RowLength(phases, m), ScanState(OperationsPerSpan(phases), {}))
  {
    var a, len := Rows(phases, m), RowLength(prefix, m);
    var width, ops, current := SegmentWidth(|Slots(last.subTasks)|, m), OperationsPerSpan(prefix), PhaseOperations(last);
    RowsExtendPrefix(phases, prefix, last, m);
    ScanPrefix(a, Rows(prefix, m), len, ScanState(ops, {}));
    RowsCloseSegment(phases, prefix, last, m);
    assert phases[..|phases| - 1] == prefix;
    ScanSegment(a, len, width, last, m, JoinPoint(|phases|), ops,
      RowLength(phases, m), ScanState(OperationsPerSpan(phases), {}));
  }

  /** Scanning the whole matrix yields the operations of every phase that runs
      a task, and ends between spans. */
  lemma {:induction false} ScanRows(phases: seq<Phase>, m: nat)
    requires m > 0
    ensures ScansTo(Rows(phases, m), RowLength(phases, m), ScanState(OperationsPerSpan(phases), {}))
  {
    if |phases| == 0 {
      ColumnOfJoinPoints(ScanState([], {}), Rows(phases, m), 0, m);
    } else {
      var prefix := phases[..|phases| - 1];
      ScanRows(prefix, m);
      ScanLastPhase(phases, prefix, phases[|phases| - 1], m);
    }
  }

  /** The operations run between consecutive join points, found by scanning the
      allocation matrix column by column. */
  method OperationsPerJoinPoint(schedule: seq<Phase>) returns (ops: seq<set<Operation>>)
    ensures ops == OperationsPerSpan(schedule)
  {
    var allocs := Allocations(schedule);
    var clients := Clients(schedule);
    MatrixRowLength(schedule);
    ScanRows(schedule, clients);
    ops := [];
    var currentOps: set<Operation> := {};
    // the matrix is rectangular, so the first row gives the number of columns
    var idx := 0;
    while idx < |allocs[0]|
      invariant 0 <= idx <= |allocs[0]|
      invariant ScanState(ops, currentOps) == Scan(allocs, idx)
    {
      var client := 0;
      while client < clients
        invariant 0 <= client <= clients
        invariant ScanState(ops, currentOps) == ColumnScan(Scan(allocs, idx), allocs, idx, client)
      {
        var task := allocs[client][idx];
        if task.TaskCell? {
          currentOps := currentOps + {task.task.operation};
        } else if task.JoinPointCell? && |currentOps| > 0 {
          ops := ops + [currentOps];
          currentOps := {};
        }
        client := client + 1;
      }
      idx := idx + 1;
    }
  }
}
