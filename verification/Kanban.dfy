/** The order of live tasks in the columns of a task board (internal/task/repository.go). */
module Kanban {
  import opened Wrappers

  datatype Task = Task(board: int, column: int, position: int, status: string, startedAt: Option<int>,
                       completedAt: Option<int>, deleted: bool)
  datatype Column = Column(board: int, slug: string, done: bool)
  datatype Board = Board(tasks: map<int, Task>, columns: map<int, Column>)

  datatype Reply = Done | NotFound | AccessDenied | OutOfRange

  const MIN_INT32 := -0x8000_0000
  const MAX_INT32 := 0x7fff_ffff

  predicate Live(tasks: map<int, Task>, id: int) { id in tasks && !tasks[id].deleted }

  predicate In(tasks: map<int, Task>, id: int, column: int) { Live(tasks, id) && tasks[id].column == column }

  // ----- MoveTask -----

  function StatusOf(slug: string, current: string): string
  {
    if slug == "todo" || slug == "in_progress" || slug == "review" || slug == "done" then slug else current
  }

  /** The column is a 32-bit integer, and an update that leaves its range fails the transaction. */
  predicate InRange(tasks: map<int, Task>)
  {
    forall id :: id in tasks ==> MIN_INT32 <= tasks[id].position <= MAX_INT32
  }

  /** One bulk update: live rows of a column from a position on, up to another if there is one, move by a step. */
  function RangeShift(tasks: map<int, Task>, column: int, low: int, high: Option<int>, except: int,
                      step: int): map<int, Task>
  {
    map o | o in tasks ::
      if In(tasks, o, column) && low <= tasks[o].position && (high.None? || tasks[o].position <= high.value)
          && o != except
      then tasks[o].(position := tasks[o].position + step) else tasks[o]
  }

  function Checked(tasks: map<int, Task>): Option<map<int, Task>> { if InRange(tasks) then Some(tasks) else None }

  /** The bulk updates of moving task `id`, unless one fails. */
  function Shifts(tasks: map<int, Task>, id: int, toColumn: int, position: int): Option<map<int, Task>>
    requires id in tasks
  {
    var task := tasks[id];
    if task.column == toColumn then
      if task.position < position then Checked(RangeShift(tasks, toColumn, task.position + 1, Some(position), id, -1))
      else Checked(RangeShift(tasks, toColumn, position, Some(task.position - 1), id, 1))
    else
      match Checked(RangeShift(tasks, task.column, task.position + 1, None, id, -1))
      case None => None
      case Some(closed) => Checked(RangeShift(closed, toColumn, position, None, id, 1))
  }

  function Placed(task: Task, toColumn: int, column: Column, position: int, now: int): Task
  {
    task.(column := toColumn, position := position, status := StatusOf(column.slug, task.status),
          completedAt := if !column.done then None else if task.completedAt.None? then Some(now) else task.completedAt,
          startedAt := if column.slug == "in_progress" && task.startedAt.None? then Some(now) else task.startedAt)
  }

  function Move(b: Board, id: int, toColumn: int, position: int, now: int): (Board, Reply)
  {
    if !Live(b.tasks, id) || toColumn !in b.columns then (b, NotFound)
    else
      var task, column := b.tasks[id], b.columns[toColumn];
      if column.board != task.board then (b, AccessDenied)
      else if task.column == toColumn && task.position == position then (b, Done)
      else
        match Shifts(b.tasks, id, toColumn, position)
        case None => (b, OutOfRange)
        case Some(shifted) => (b.(tasks := shifted[id := Placed(task, toColumn, column, position, now)]), Done)
  }

  // ----- DeleteTask, ReorderTasks -----

  function Delete(b: Board, id: int): Board
  {
    if Live(b.tasks, id) then b.(tasks := b.tasks[id := b.tasks[id].(deleted := true)]) else b
  }

  function Reorder(tasks: map<int, Task>, column: int, ids: seq<int>): map<int, Task>
  {
    if ids == [] then tasks
    else
      var last := |ids| - 1;
      var before := Reorder(tasks, column, ids[..last]);
      if In(before, ids[last], column) then before[ids[last] := before[ids[last]].(position := last)] else before
  }

  // ----- The tables in place -----

  class Tables {
    var tasks: map<int, Task>
    var columns: map<int, Column>

    ghost function Value(): Board
      reads this
    {
      Board(tasks, columns)
    }

    /** One bulk update; `ok` is false when it fails and with it the transaction. */
    method ShiftRange(column: int, low: int, high: Option<int>, except: int, step: int) returns (ok: bool)
      modifies this`tasks
      ensures ok <==> Checked(RangeShift(old(tasks), column, low, high, except, step)).Some?
      ensures ok ==> tasks == RangeShift(old(tasks), column, low, high, except, step)
    {
      tasks := RangeShift(tasks, column, low, high, except, step);
      ok := InRange(tasks);
    }

    method MoveTask(id: int, toColumn: int, position: int, now: int) returns (reply: Reply)
      modifies this`tasks
      ensures (Value(), reply) == Move(old(Value()), id, toColumn, position, now)
    {
      if !Live(tasks, id) || toColumn !in columns {
        return NotFound;
      }
      var before, task, column := tasks, tasks[id], columns[toColumn];
      if column.board != task.board {
        return AccessDenied;
      }
      var ok;
      if task.column == toColumn {
        if task.position == position {
          return Done;
        }
        if task.position < position {
          ok := ShiftRange(toColumn, task.position + 1, Some(position), id, -1);
        } else {
          ok := ShiftRange(toColumn, position, Some(task.position - 1), id, 1);
        }
      } else {
        ok := ShiftRange(task.column, task.position + 1, None, id, -1);
        if ok {
          ok := ShiftRange(toColumn, position, None, id, 1);
        }
      }
      assert ok ==> Shifts(before, id, toColumn, position) == Some(tasks);
      if !ok {
        tasks := before;
        return OutOfRange;
      }
      var completed := task.completedAt;
      if column.done && completed.None? {
        completed := Some(now);
      }
      if !column.done && completed.Some? {
        completed := None;
      }
      var started := task.startedAt;
      if column.slug == "in_progress" && started.None? {
        started := Some(now);
      }
      tasks := tasks[id := task.(column := toColumn, position := position, status := StatusOf(column.slug, task.status),
                                 completedAt := completed, startedAt := started)];
      reply := Done;
    }

    method DeleteTask(id: int)
      modifies this`tasks
      ensures Value() == Delete(old(Value()), id)
    {
      if Live(tasks, id) {
        tasks := tasks[id := tasks[id].(deleted := true)];
      }
    }

    method ReorderTasks(column: int, ids: seq<int>)
      modifies this`tasks
      ensures tasks == Reorder(old(tasks), column, ids)
    {
      var i := 0;
      while i < |ids|
        invariant 0 <= i <= |ids|
        invariant tasks == Reorder(old(tasks), column, ids[..i])
      {
        assert ids[..i + 1][..i] == ids[..i];
        if In(tasks, ids[i], column) {
          tasks := tasks[ids[i] := tasks[ids[i]].(position := i)];
        }
        i := i + 1;
      }
      assert ids[..i] == ids;
    }
  }

  // ----- Columns as lists -----

  /** Live tasks of a column by increasing position. */
  ghost predicate Increasing(tasks: map<int, Task>, column: int, ids: seq<int>)
  {
    && (forall k :: 0 <= k < |ids| ==> In(tasks, ids[k], column))
    && (forall j, k :: 0 <= j < k < |ids| ==> tasks[ids[j]].position < tasks[ids[k]].position)
  }

  /** All the live tasks of a column by increasing position. */
  ghost predicate Listing(tasks: map<int, Task>, column: int, ids: seq<int>)
  {
    && Increasing(tasks, column, ids)
    && forall id :: In(tasks, id, column) ==> id in ids
  }

  /** No two live tasks of a column share a position. */
  ghost predicate Distinct(tasks: map<int, Task>)
  {
    forall i, j | Live(tasks, i) && Live(tasks, j) && tasks[i].column == tasks[j].column ::
      tasks[i].position == tasks[j].position ==> i == j
  }

  /** A listing without gaps from a first position on. */
  ghost predicate Dense(tasks: map<int, Task>, column: int, ids: seq<int>, first: int)
  {
    && Listing(tasks, column, ids)
    && forall k :: 0 <= k < |ids| ==> tasks[ids[k]].position == first + k
  }

  function Without(ids: seq<int>, n: nat): seq<int>
    requires n < |ids|
  {
    ids[..n] + ids[n + 1..]
  }

  function With(ids: seq<int>, n: nat, id: int): seq<int>
    requires n <= |ids|
  {
    ids[..n] + [id] + ids[n..]
  }

  /** The tasks of a list before a position, or up to and including it. */
  ghost predicate Cut(tasks: map<int, Task>, ids: seq<int>, n: nat, position: int, inclusive: bool)
    requires forall k :: 0 <= k < |ids| ==> ids[k] in tasks
  {
    && n <= |ids|
    && (forall k | 0 <= k < n ::
          tasks[ids[k]].position < position || (inclusive && tasks[ids[k]].position == position))
    && (forall k | n <= k < |ids| ::
          tasks[ids[k]].position > position || (!inclusive && tasks[ids[k]].position == position))
  }
}
