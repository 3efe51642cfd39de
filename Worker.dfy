/** A load generator's walk along its row of the allocation matrix: each time it
    is told to go on, it moves to the next task or join point, skipping padding. */
module Worker {
  import opened Types
  import Allocator

  /** What `Drive` found at the cursor. */
  datatype DriveOutcome =
    | JoinPointReached(jp: JoinPoint)   // report the join point to the master and wait
    | TaskStarted(task: Task)           // run the task's schedule
    | EndOfRow                          // the cursor ran past the row: an IndexError in the source

  /** The index of the first cell at or after `i` that is not padding. */
  function NextCell(row: seq<Cell>, i: nat): (r: Option<nat>)
    ensures r.Some? ==> i <= r.value < |row| && !row[r.value].Empty?
    ensures r.Some? ==> forall j :: i <= j < r.value ==> row[j].Empty?
    ensures r.None? ==> forall j :: i <= j < |row| ==> row[j].Empty?
    decreases |row| - i
  {
    if i >= |row| then None
    else if !row[i].Empty? then Some(i)
    else NextCell(row, i + 1)
  }

  /** The outcome of driving from cursor `i`, and the cursor afterwards. */
  function Step(row: seq<Cell>, i: nat): (r: (DriveOutcome, nat))
  {
    match NextCell(row, i)
    case None => (EndOfRow, if i <= |row| then |row| else i)
    case Some(j) =>
      var outcome := if row[j].JoinPointCell? then JoinPointReached(row[j].jp) else TaskStarted(row[j].task);
      (outcome, j + 1)
  }

  class LoadGenerator {
    const clientId: nat
    /** This client's row of the allocation matrix. */
    const tasks: seq<Cell>
    /** The index of the next cell to look at. */
    var currentTask: nat

    constructor(clientId: nat, tasks: seq<Cell>)
      ensures this.clientId == clientId && this.tasks == tasks && currentTask == 0
    {
      this.clientId := clientId;
      this.tasks := tasks;
      currentTask := 0;
    }

    /** Moves the cursor past the next task or join point of the row and reports it. */
    method Drive() returns (outcome: DriveOutcome)
      modifies this
      ensures (outcome, currentTask) == Step(tasks, old(currentTask))
    {
      // skip the padding
      while currentTask < |tasks| && tasks[currentTask].Empty?
        invariant NextCell(tasks, currentTask) == NextCell(tasks, old(currentTask))
        invariant old(currentTask) <= currentTask
        invariant currentTask == old(currentTask) || currentTask <= |tasks|
        decreases |tasks| - currentTask
      {
        currentTask := currentTask + 1;
      }
      if currentTask >= |tasks| {
        return EndOfRow;
      }
      var task := tasks[currentTask];
      currentTask := currentTask + 1;
      if task.JoinPointCell? {
        outcome := JoinPointReached(task.jp);
      } else {
        outcome := TaskStarted(task.task);
      }
    }
  }

  /** Driving never runs past the end of a row that ends with a join point,
      as long as the cursor has not passed that join point. */
  lemma NeverPastLastJoinPoint(row: seq<Cell>, i: nat)
    requires |row| > 0 && row[|row| - 1].JoinPointCell? && i < |row|
    ensures Step(row, i).0 != EndOfRow
    ensures Step(row, i).1 <= |row|
  {
  }

  /** A client's first drive reaches join point 0, whatever the schedule. */
  lemma FirstDriveReachesStart(schedule: seq<Phase>, r: nat)
    requires r < Allocator.Clients(schedule)
    ensures Step(Allocator.Matrix(schedule)[r], 0).0 == JoinPointReached(JoinPoint(0))
  {
    Allocator.RowStartsWithJoinPoint(schedule, r);
  }

  /** Every client's row ends with the last join point, so drives of any
      client stay inside its row until it reaches the last join point. */
  lemma DrivesStayInRow(schedule: seq<Phase>, r: nat, i: nat)
    requires r < Allocator.Clients(schedule)
    requires i < |Allocator.Matrix(schedule)[r]|
    ensures Step(Allocator.Matrix(schedule)[r], i).0 != EndOfRow
  {
    Allocator.RowEndsWithJoinPoint(schedule, r);
    NeverPastLastJoinPoint(Allocator.Matrix(schedule)[r], i);
  }
}
