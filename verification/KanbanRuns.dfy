/** Reorders of a column, and positions over whole runs. */
module KanbanRuns {
  import opened Wrappers
  import opened Kanban
  import KanbanOrder

  /** The last place an id has in a list, or -1. */
  function LastIndex(ids: seq<int>, id: int): (k: int)
    ensures -1 <= k < |ids|
    ensures k >= 0 ==> ids[k] == id
    ensures forall j | k < j < |ids| :: ids[j] != id
  {
    if ids == [] then -1
    else if ids[|ids| - 1] == id then |ids| - 1
    else LastIndex(ids[..|ids| - 1], id)
  }

  /** A reorder by any list: each live task of the column that it names ends at its last index there; repeated and
      foreign ids are harmless, and every other row stays. */
  lemma {:induction false} ReorderPlaces(tasks: map<int, Task>, column: int, ids: seq<int>)
    ensures var after := Reorder(tasks, column, ids);
            && after.Keys == tasks.Keys
            && forall o :: o in tasks ==>
                 after[o] == if In(tasks, o, column) && LastIndex(ids, o) >= 0
                             then tasks[o].(position := LastIndex(ids, o))
                             else tasks[o]
  {
    if ids != [] {
      ReorderPlaces(tasks, column, ids[..|ids| - 1]);
    }
  }

  /** A reorder keeps positions distinct exactly when no live task of the column that it leaves out holds the last index
      of one it names. */
  lemma ReorderKeepsDistinctExactly(tasks: map<int, Task>, column: int, ids: seq<int>)
    requires Distinct(tasks)
    ensures Distinct(Reorder(tasks, column, ids))
            <==> forall o, r | In(tasks, o, column) && In(tasks, r, column)
              && LastIndex(ids, o) < 0 <= LastIndex(ids, r) ::
                   tasks[o].position != LastIndex(ids, r)
  {
    var after := Reorder(tasks, column, ids);
    ReorderPlaces(tasks, column, ids);
    if o, r :| In(tasks, o, column) && In(tasks, r, column) && LastIndex(ids, o) < 0 <= LastIndex(ids, r)
               && tasks[o].position == LastIndex(ids, r) {
      assert Live(after, o) && Live(after, r) && after[o].position == after[r].position && o != r;
    } else {
      forall i, j | Live(after, i) && Live(after, j) && after[i].column == after[j].column
          && after[i].position == after[j].position
        ensures i == j
      {
        assert In(tasks, i, tasks[i].column) && In(tasks, j, tasks[j].column);
      }
    }
  }

  /** No task twice, every task in the column. */
  ghost predicate Names(tasks: map<int, Task>, column: int, ids: seq<int>)
  {
    && (forall k :: 0 <= k < |ids| ==> In(tasks, ids[k], column))
    && (forall j, k :: 0 <= j < k < |ids| ==> ids[j] != ids[k])
  }

  /** A reorder of all the live tasks of a column, once each, makes it dense in the given order. */
  lemma FullReorderIsDense(tasks: map<int, Task>, column: int, ids: seq<int>)
    requires Names(tasks, column, ids)
    requires forall o :: In(tasks, o, column) ==> o in ids
    ensures Dense(Reorder(tasks, column, ids), column, ids, 0)
  {
    ReorderPlaces(tasks, column, ids);
    var after := Reorder(tasks, column, ids);
    forall k | 0 <= k < |ids| ensures LastIndex(ids, ids[k]) == k {
    }
    forall o | In(after, o, column) ensures o in ids {
      assert In(tasks, o, column);
    }
  }

  /** A deletion takes the task out of its column's order, closes no gap, and leaves every other row and the order of
      every other column alone. */
  lemma DeleteLeaves(b: Board, id: int, ids: seq<int>, n: nat, column: int, others: seq<int>)
    requires Live(b.tasks, id) && Listing(b.tasks, b.tasks[id].column, ids) && n < |ids| && ids[n] == id
    requires column != b.tasks[id].column && Listing(b.tasks, column, others)
    ensures var after := Delete(b, id);
            && after.columns == b.columns && after.tasks.Keys == b.tasks.Keys && !Live(after.tasks, id)
            && (forall o :: o in b.tasks && o != id ==> after.tasks[o] == b.tasks[o])
            && Listing(after.tasks, b.tasks[id].column, Without(ids, n)) && Listing(after.tasks, column, others)
  {
    KanbanOrder.WithoutListing(b.tasks, b.tasks[id].column, ids, n);
    var after, rest := Delete(b, id).tasks, Without(ids, n);
    forall o | In(after, o, b.tasks[id].column) ensures o in rest {
      assert In(b.tasks, o, b.tasks[id].column);
    }
    forall o | In(after, o, column) ensures o in others {
      assert In(b.tasks, o, column);
    }
  }

  datatype Step =
    | CreateStep(id: int, task: Task)
    | MoveStep(id: int, toColumn: int, position: int, now: int)
    | DeleteStep(id: int)
    | ReorderStep(column: int, ids: seq<int>)

  function Apply(b: Board, step: Step): Board
  {
    match step
    case CreateStep(id, task) => b.(tasks := b.tasks[id := task])
    case MoveStep(id, toColumn, position, now) => Move(b, id, toColumn, position, now).0
    case DeleteStep(id) => Delete(b, id)
    case ReorderStep(column, ids) => b.(tasks := Reorder(b.tasks, column, ids))
  }

  /** A new task takes an unused id and a position no live task of its column has; a reorder names all the live tasks of
      its column, in any list. */
  ghost predicate Allowed(b: Board, step: Step)
  {
    match step
    case CreateStep(id, task) =>
      id !in b.tasks && forall o :: In(b.tasks, o, task.column) ==> b.tasks[o].position != task.position
    case ReorderStep(column, ids) => forall o :: In(b.tasks, o, column) ==> o in ids
    case _ => true
  }

  function Run(b: Board, steps: seq<Step>): Board
  {
    if steps == [] then b else Apply(Run(b, steps[..|steps| - 1]), steps[|steps| - 1])
  }

  lemma StepKeepsDistinct(b: Board, step: Step)
    requires Distinct(b.tasks) && Allowed(b, step)
    ensures Distinct(Apply(b, step).tasks)
  {
    match step
    case MoveStep(id, toColumn, position, now) => KanbanOrder.MoveKeepsDistinct(b, id, toColumn, position, now);
    case ReorderStep(column, ids) => ReorderKeepsDistinctExactly(b.tasks, column, ids);
    case CreateStep(_, _) =>
    case DeleteStep(_) =>
  }

  /** Over any run, gaps left by deletions included, no two live tasks of a column share a position. */
  lemma {:induction false} PositionsStayDistinct(b: Board, steps: seq<Step>)
    requires Distinct(b.tasks)
    requires forall i :: 0 <= i < |steps| ==> Allowed(Run(b, steps[..i]), steps[i])
    ensures Distinct(Run(b, steps).tasks)
  {
    if steps != [] {
      var last := |steps| - 1;
      forall i | 0 <= i < last ensures Allowed(Run(b, steps[..last][..i]), steps[..last][i]) {
        assert steps[..last][..i] == steps[..i];
      }
      PositionsStayDistinct(b, steps[..last]);
      StepKeepsDistinct(Run(b, steps[..last]), steps[last]);
    }
  }
}
