/** MoveTask refines list surgery, and positions stay distinct over every run. */
module KanbanOrder {
  import opened Wrappers
  import opened Kanban

  /** A move that was not a no-op. */
  predicate Moves(b: Board, id: int, toColumn: int, position: int, now: int)
  {
    && Live(b.tasks, id) && toColumn in b.columns
    && Move(b, id, toColumn, position, now).1 == Done
    && !(b.tasks[id].column == toColumn && b.tasks[id].position == position)
  }

  /** What the bulk updates of moving task `id` add to the position of another row. */
  function Shift(id: int, task: Task, toColumn: int, position: int, other: int, row: Task): int
  {
    if row.deleted || other == id then 0
    else if task.column == toColumn then
      if row.column != toColumn then 0
      else if task.position < row.position <= position then -1
      else if position <= row.position < task.position then 1
      else 0
    else if row.column == task.column && row.position > task.position then -1
    else if row.column == toColumn && row.position >= position then 1
    else 0
  }

  /** A move, row by row: each other row shifts or stays; the moved one is completed exactly in a done column, takes the
      status of a standard column, and keeps the times it had. */
  lemma MoveByRow(b: Board, id: int, toColumn: int, position: int, now: int)
    requires Moves(b, id, toColumn, position, now)
    ensures var after := Move(b, id, toColumn, position, now).0;
            && after.columns == b.columns && after.tasks.Keys == b.tasks.Keys
            && (forall o :: o in b.tasks && o != id ==>
                  after.tasks[o] == b.tasks[o].(position := b.tasks[o].position + Shift(id, b.tasks[id], toColumn,
                      position, o, b.tasks[o])))
            && after.tasks[id].column == toColumn && after.tasks[id].position == position && !after.tasks[id].deleted
            && after.tasks[id].completedAt == (if !b.columns[toColumn].done then None
                                               else if b.tasks[id].completedAt.Some? then b.tasks[id].completedAt
                                               else Some(now))
            && after.tasks[id].startedAt == (if b.tasks[id].startedAt.Some? then b.tasks[id].startedAt
                                             else if b.columns[toColumn].slug == "in_progress" then Some(now)
                                             else None)
            && after.tasks[id].status == (if b.columns[toColumn].slug in {"todo", "in_progress", "review", "done"}
                                          then b.columns[toColumn].slug else b.tasks[id].status)
            && after.tasks[id].board == b.tasks[id].board == b.columns[toColumn].board
  {
  }

  /** On a board whose positions are 32-bit, a move to an existing column of the task's own board goes through exactly
      when no row it would shift up already holds the largest position; a refused move changes nothing, and neither does
      a move to the place the task has. */
  lemma MoveSucceedsExactly(b: Board, id: int, toColumn: int, position: int, now: int)
    requires InRange(b.tasks)
    ensures Move(b, id, toColumn, position, now).1 == Done <==>
              && Live(b.tasks, id) && toColumn in b.columns && b.columns[toColumn].board == b.tasks[id].board
              && forall o :: o in b.tasks && Shift(id, b.tasks[id], toColumn, position, o, b.tasks[o]) == 1
                             ==> b.tasks[o].position < MAX_INT32
    ensures Move(b, id, toColumn, position, now).1 != Done ==> Move(b, id, toColumn, position, now).0 == b
    ensures Live(b.tasks, id) && b.tasks[id].column == toColumn && b.tasks[id].position == position ==>
              Move(b, id, toColumn, position, now).0 == b
  {
    if Live(b.tasks, id) && toColumn in b.columns && b.columns[toColumn].board == b.tasks[id].board {
      if b.tasks[id].column == toColumn {
        SuccessWithin(b.tasks, id, position);
      } else {
        SuccessAcross(b.tasks, id, toColumn, position);
      }
    }
  }

  lemma SuccessWithin(tasks: map<int, Task>, id: int, position: int)
    requires InRange(tasks) && Live(tasks, id)
    ensures var column := tasks[id].column;
            Shifts(tasks, id, column, position).Some? <==>
              forall o :: o in tasks && Shift(id, tasks[id], column, position, o, tasks[o]) == 1 ==>
                  tasks[o].position < MAX_INT32
  {
  }

  lemma SuccessAcross(tasks: map<int, Task>, id: int, toColumn: int, position: int)
    requires InRange(tasks) && Live(tasks, id) && tasks[id].column != toColumn
    ensures Shifts(tasks, id, toColumn, position).Some? <==>
              forall o :: o in tasks && Shift(id, tasks[id], toColumn, position, o, tasks[o]) == 1 ==>
                  tasks[o].position < MAX_INT32
  {
    var closed := RangeShift(tasks, tasks[id].column, tasks[id].position + 1, None, id, -1);
    assert InRange(closed);
    var shifted := RangeShift(closed, toColumn, position, None, id, 1);
    forall o | o in tasks
      ensures shifted[o].position == tasks[o].position + Shift(id, tasks[id], toColumn, position, o, tasks[o])
    {
    }
    if o :| o in tasks && Shift(id, tasks[id], toColumn, position, o, tasks[o]) == 1 && tasks[o].position == MAX_INT32 {
      assert shifted[o].position > MAX_INT32;
    }
  }

  /** Columns other than the two, and deleted rows, are untouched. */
  lemma MoveFrame(b: Board, id: int, toColumn: int, position: int, now: int, o: int)
    requires Live(b.tasks, id) && o in b.tasks && o != id
    requires b.tasks[o].deleted || (b.tasks[o].column != b.tasks[id].column && b.tasks[o].column != toColumn)
    ensures var after := Move(b, id, toColumn, position, now).0.tasks;
            o in after && after[o] == b.tasks[o]
  {
  }

  // ----- Surgery on one column -----

  /** The positions of the other live tasks of a column after a move within it. */
  ghost predicate ShiftedWithin(tasks: map<int, Task>, after: map<int, Task>, column: int, id: int, position: int)
    requires id in tasks
  {
    && In(after, id, column) && after[id].position == position
    && (forall o :: o != id ==> (In(after, o, column) <==> In(tasks, o, column)))
    && (forall o :: o != id && In(tasks, o, column) ==>
          after[o].position == tasks[o].position + (if tasks[id].position < tasks[o].position <= position then -1
                                                    else if position <= tasks[o].position < tasks[id].position then 1
                                                    else 0))
  }

  /** Moving within a column is removing the task and inserting it at the position's cut of the rest, whatever
      gaps the column has. */
  lemma MoveWithin(b: Board, id: int, position: int, now: int, ids: seq<int>, n: nat, cut: nat)
    requires Live(b.tasks, id)
    requires Moves(b, id, b.tasks[id].column, position, now)
    requires Listing(b.tasks, b.tasks[id].column, ids) && n < |ids| && ids[n] == id
    requires Cut(b.tasks, Without(ids, n), cut, position, b.tasks[id].position < position)
    ensures Listing(Move(b, id, b.tasks[id].column, position, now).0.tasks, b.tasks[id].column,
                    With(Without(ids, n), cut, id))
  {
    var column := b.tasks[id].column;
    var after := Move(b, id, column, position, now).0.tasks;
    MoveByRow(b, id, column, position, now);
    assert ShiftedWithin(b.tasks, after, column, id, position);
    SurgeryWithin(b.tasks, after, column, id, position, ids, n, cut);
  }

  /** Shifting keeps the order of two other tasks. */
  lemma ShiftedPair(tasks: map<int, Task>, after: map<int, Task>, column: int, id: int, position: int, x: int, y: int)
    requires id in tasks && ShiftedWithin(tasks, after, column, id, position)
    requires In(tasks, x, column) && In(tasks, y, column) && x != id && y != id
    requires tasks[x].position < tasks[y].position
    requires tasks[x].position != tasks[id].position && tasks[y].position != tasks[id].position
    ensures x in after && y in after && after[x].position < after[y].position
  {
  }

  /** Shifting leaves a task on the side of the position that the cut puts it on. */
  lemma ShiftedSide(tasks: map<int, Task>, after: map<int, Task>, column: int, id: int, position: int, x: int)
    requires id in tasks && ShiftedWithin(tasks, after, column, id, position)
    requires In(tasks, x, column) && x != id
    requires tasks[x].position != tasks[id].position && tasks[id].position != position
    ensures x in after
    ensures if tasks[x].position < position || (tasks[id].position < position && tasks[x].position == position)
            then after[x].position < position else position < after[x].position
  {
  }

  lemma SurgeryWithin(tasks: map<int, Task>, after: map<int, Task>, column: int, id: int, position: int, ids: seq<int>,
                      n: nat, cut: nat)
    requires Listing(tasks, column, ids) && n < |ids| && ids[n] == id && tasks[id].position != position
    requires ShiftedWithin(tasks, after, column, id, position)
    requires Cut(tasks, Without(ids, n), cut, position, tasks[id].position < position)
    ensures Listing(after, column, With(Without(ids, n), cut, id))
  {
    var rest := Without(ids, n);
    WithoutListing(tasks, column, ids, n);
    forall k | 0 <= k < |rest| ensures tasks[rest[k]].position != tasks[id].position && In(after, rest[k], column) {
      assert rest[k] == ids[if k < n then k else k + 1];
    }
    forall j, k | 0 <= j < k < |rest| ensures after[rest[j]].position < after[rest[k]].position {
      ShiftedPair(tasks, after, column, id, position, rest[j], rest[k]);
    }
    forall k | 0 <= k < |rest|
      ensures if k < cut then after[rest[k]].position < position else position < after[rest[k]].position
    {
      ShiftedSide(tasks, after, column, id, position, rest[k]);
    }
    forall o | In(after, o, column) ensures o in With(rest, cut, id) {
      assert o == id || o in rest;
    }
    SurgeryListing(after, column, rest, cut, id);
  }

  /** The rest of a listing is increasing and holds every other task. */
  lemma WithoutListing(tasks: map<int, Task>, column: int, ids: seq<int>, n: nat)
    requires Listing(tasks, column, ids) && n < |ids|
    ensures var rest := Without(ids, n);
            && Increasing(tasks, column, rest)
            && (forall k :: 0 <= k < |rest| ==> rest[k] != ids[n])
            && (forall o :: In(tasks, o, column) && o != ids[n] ==> o in rest)
  {
  }

  /** Inserting a task between the ones before and after it keeps a listing. */
  lemma SurgeryListing(tasks: map<int, Task>, column: int, rest: seq<int>, cut: nat, id: int)
    requires cut <= |rest| && In(tasks, id, column) && Increasing(tasks, column, rest)
    requires forall k :: 0 <= k < cut ==> tasks[rest[k]].position < tasks[id].position
    requires forall k :: cut <= k < |rest| ==> tasks[id].position < tasks[rest[k]].position
    requires forall o :: In(tasks, o, column) ==> o in With(rest, cut, id)
    ensures Listing(tasks, column, With(rest, cut, id))
  {
  }

  // ----- Surgery across columns -----

  /** Moving to another column removes the task from its list and inserts it at the position's cut of the other. */
  lemma MoveAcross(b: Board, id: int, toColumn: int, position: int, now: int, from: seq<int>, n: nat, to: seq<int>,
                   cut: nat)
    requires Moves(b, id, toColumn, position, now) && b.tasks[id].column != toColumn
    requires Listing(b.tasks, b.tasks[id].column, from) && n < |from| && from[n] == id
    requires Listing(b.tasks, toColumn, to) && Cut(b.tasks, to, cut, position, false)
    ensures var after := Move(b, id, toColumn, position, now).0.tasks;
            && Listing(after, b.tasks[id].column, Without(from, n))
            && Listing(after, toColumn, With(to, cut, id))
  {
    var after, left := Move(b, id, toColumn, position, now).0.tasks, b.tasks[id].column;
    MoveByRow(b, id, toColumn, position, now);
    assert forall o :: o != id && In(b.tasks, o, left) ==>
      after[o] == b.tasks[o].(position := b.tasks[o].position - if b.tasks[o].position > b.tasks[id].position then 1
                              else 0);
    assert forall o :: o != id && In(b.tasks, o, toColumn) ==>
      after[o] == b.tasks[o].(position := b.tasks[o].position + if b.tasks[o].position >= position then 1 else 0);
    assert forall o :: In(after, o, left) <==> o != id && In(b.tasks, o, left);
    assert forall o :: In(after, o, toColumn) <==> o == id || In(b.tasks, o, toColumn);
    SurgeryAcross(b.tasks, after, id, toColumn, position, from, n, to, cut);
  }

  lemma SurgeryAcross(tasks: map<int, Task>, after: map<int, Task>, id: int, toColumn: int, position: int,
                      from: seq<int>, n: nat, to: seq<int>, cut: nat)
    requires Live(tasks, id) && tasks[id].column != toColumn
    requires Listing(tasks, tasks[id].column, from) && n < |from| && from[n] == id
    requires Listing(tasks, toColumn, to) && Cut(tasks, to, cut, position, false)
    requires forall o :: In(after, o, tasks[id].column) <==> o != id && In(tasks, o, tasks[id].column)
    requires forall o :: In(after, o, toColumn) <==> o == id || In(tasks, o, toColumn)
    requires In(after, id, toColumn) && after[id].position == position
    requires forall o | o != id && In(tasks, o, tasks[id].column) && o in after ::
               after[o].position == tasks[o].position - if tasks[o].position > tasks[id].position then 1 else 0
    requires forall o | o != id && In(tasks, o, toColumn) && o in after ::
               after[o].position == tasks[o].position + if tasks[o].position >= position then 1 else 0
    ensures Listing(after, tasks[id].column, Without(from, n)) && Listing(after, toColumn, With(to, cut, id))
  {
    var rest := Without(from, n);
    WithoutListing(tasks, tasks[id].column, from, n);
    forall k | 0 <= k < |rest| ensures tasks[rest[k]].position != tasks[id].position {
      assert rest[k] == from[if k < n then k else k + 1];
    }
    forall o | In(after, o, toColumn) ensures o in With(to, cut, id) {
      assert o == id || o in to;
    }
    SurgeryListing(after, toColumn, to, cut, id);
  }

  // ----- Dense columns -----

  lemma DenseWithin(b: Board, id: int, position: int, now: int, ids: seq<int>, n: nat, first: int)
    requires Live(b.tasks, id)
    requires Moves(b, id, b.tasks[id].column, position, now)
    requires Dense(b.tasks, b.tasks[id].column, ids, first) && n < |ids| && ids[n] == id
    requires first <= position < first + |ids|
    ensures Dense(Move(b, id, b.tasks[id].column, position, now).0.tasks, b.tasks[id].column,
                  With(Without(ids, n), position - first, id), first)
  {
    var column := b.tasks[id].column;
    var after := Move(b, id, column, position, now).0.tasks;
    MoveByRow(b, id, column, position, now);
    assert ShiftedWithin(b.tasks, after, column, id, position);
    DenseSurgery(b.tasks, after, column, id, position, ids, n, first);
  }

  /** Taking a task out and putting it back anywhere keeps the members of a column. */
  lemma SurgeryMembers(tasks: map<int, Task>, after: map<int, Task>, column: int, id: int, ids: seq<int>, n: nat,
                       cut: nat)
    requires Listing(tasks, column, ids) && n < |ids| && ids[n] == id && cut < |ids| && In(after, id, column)
    requires forall o | o != id :: In(after, o, column) <==> In(tasks, o, column)
    ensures var all := With(Without(ids, n), cut, id);
            && |all| == |ids|
            && (forall k :: 0 <= k < |all| ==> In(after, all[k], column))
            && (forall o :: In(after, o, column) ==> o in all)
  {
    var rest, all := Without(ids, n), With(Without(ids, n), cut, id);
    WithoutListing(tasks, column, ids, n);
    forall k | 0 <= k < |all| ensures In(after, all[k], column) {
      if k != cut {
        assert all[k] == rest[if k < cut then k else k - 1];
      }
    }
    forall o | In(after, o, column) ensures o in all {
      assert o == id || o in rest;
    }
  }

  lemma DenseSurgery(tasks: map<int, Task>, after: map<int, Task>, column: int, id: int, position: int, ids: seq<int>,
                     n: nat, first: int)
    requires Dense(tasks, column, ids, first) && n < |ids| && ids[n] == id && tasks[id].position != position
    requires ShiftedWithin(tasks, after, column, id, position)
    requires first <= position < first + |ids|
    ensures Dense(after, column, With(Without(ids, n), position - first, id), first)
  {
    SurgeryMembers(tasks, after, column, id, ids, n, position - first);
    DensePositions(tasks, after, column, id, position, ids, n, first);
  }

  lemma DensePositions(tasks: map<int, Task>, after: map<int, Task>, column: int, id: int, position: int,
                       ids: seq<int>, n: nat, first: int)
    requires Dense(tasks, column, ids, first) && n < |ids| && ids[n] == id && tasks[id].position != position
    requires ShiftedWithin(tasks, after, column, id, position)
    requires first <= position < first + |ids|
    ensures var all := With(Without(ids, n), position - first, id);
            forall k :: 0 <= k < |all| ==> all[k] in after && after[all[k]].position == first + k
  {
  }

  /** Both lists of a cross-column move stay dense; an empty target column becomes dense at the position. */
  lemma DenseAcross(b: Board, id: int, toColumn: int, position: int, now: int, from: seq<int>, n: nat, first: int,
                    to: seq<int>, second: int)
    requires Moves(b, id, toColumn, position, now) && b.tasks[id].column != toColumn
    requires Dense(b.tasks, b.tasks[id].column, from, first) && n < |from| && from[n] == id
    requires Dense(b.tasks, toColumn, to, second) && second <= position <= second + |to|
    ensures var after := Move(b, id, toColumn, position, now).0.tasks;
            && Dense(after, b.tasks[id].column, Without(from, n), first)
            && Dense(after, toColumn, With(to, position - second, id), second)
  {
    var after, cut := Move(b, id, toColumn, position, now).0.tasks, position - second;
    MoveAcross(b, id, toColumn, position, now, from, n, to, cut);
    forall k | 0 <= k < |from| ensures In(b.tasks, from[k], b.tasks[id].column)
        && b.tasks[from[k]].position == first + k {
    }
    forall k | 0 <= k < |to| ensures In(b.tasks, to[k], toColumn) && b.tasks[to[k]].position == second + k {
    }
    ClosedGap(b, id, toColumn, position, now, from, n, first);
    OpenedGap(b, id, toColumn, position, now, to, second);
  }

  lemma ClosedGap(b: Board, id: int, toColumn: int, position: int, now: int, from: seq<int>, n: nat, first: int)
    requires Moves(b, id, toColumn, position, now) && b.tasks[id].column != toColumn
    requires n < |from| && from[n] == id
    requires forall k | 0 <= k < |from| ::
               In(b.tasks, from[k], b.tasks[id].column) && b.tasks[from[k]].position == first + k
    ensures var after, rest := Move(b, id, toColumn, position, now).0.tasks, Without(from, n);
            forall k :: 0 <= k < |rest| ==> rest[k] in after && after[rest[k]].position == first + k
  {
  }

  lemma OpenedGap(b: Board, id: int, toColumn: int, position: int, now: int, to: seq<int>, second: int)
    requires Moves(b, id, toColumn, position, now) && b.tasks[id].column != toColumn
    requires second <= position <= second + |to|
    requires forall k :: 0 <= k < |to| ==> In(b.tasks, to[k], toColumn) && b.tasks[to[k]].position == second + k
    ensures var after, all := Move(b, id, toColumn, position, now).0.tasks, With(to, position - second, id);
            forall k :: 0 <= k < |all| ==> all[k] in after && after[all[k]].position == second + k
  {
  }

  // ----- Listings exist and are unique -----

  lemma {:induction false} ListingUnique(tasks: map<int, Task>, column: int, xs: seq<int>, ys: seq<int>)
    requires Listing(tasks, column, xs) && Listing(tasks, column, ys)
    ensures xs == ys
  {
    assert xs != [] ==> xs[0] in ys;
    assert ys != [] ==> ys[0] in xs;
    if xs != [] && ys != [] {
      var x, y := xs[|xs| - 1], ys[|ys| - 1];
      assert x in ys && y in xs;
      assert x == y;
      var fewer := tasks - {x};
      PrefixListing(tasks, column, xs);
      PrefixListing(tasks, column, ys);
      ListingUnique(fewer, column, xs[..|xs| - 1], ys[..|ys| - 1]);
      assert xs == xs[..|xs| - 1] + [x] && ys == ys[..|ys| - 1] + [y];
    }
  }

  lemma PrefixListing(tasks: map<int, Task>, column: int, xs: seq<int>)
    requires Listing(tasks, column, xs) && xs != []
    ensures Listing(tasks - {xs[|xs| - 1]}, column, xs[..|xs| - 1])
  {
    var last := |xs| - 1;
    forall o | In(tasks - {xs[last]}, o, column) ensures o in xs[..last] {
      assert In(tasks, o, column);
      var k :| 0 <= k < |xs| && xs[k] == o;
    }
  }

  lemma {:induction false} CutExists(tasks: map<int, Task>, column: int, ids: seq<int>, position: int,
                                     inclusive: bool) returns (n: nat)
    requires Increasing(tasks, column, ids)
    ensures forall k :: 0 <= k < |ids| ==> ids[k] in tasks
    ensures Cut(tasks, ids, n, position, inclusive)
  {
    assert forall k :: 0 <= k < |ids| ==> In(tasks, ids[k], column);
    n := 0;
    while n < |ids| && (tasks[ids[n]].position < position || (inclusive && tasks[ids[n]].position == position))
      invariant n <= |ids|
      invariant forall k | 0 <= k < n ::
                  tasks[ids[k]].position < position || (inclusive && tasks[ids[k]].position == position)
    {
      n := n + 1;
    }
  }

  /** While positions are distinct every column has its listing. */
  lemma {:induction false} ListingExists(tasks: map<int, Task>, column: int) returns (ids: seq<int>)
    requires Distinct(tasks)
    ensures Listing(tasks, column, ids)
    decreases |tasks|
  {
    if exists x :: In(tasks, x, column) {
      var x :| In(tasks, x, column);
      var rest := ListingExists(tasks - {x}, column);
      assert forall k :: 0 <= k < |rest| ==> In(tasks - {x}, rest[k], column);
      assert Increasing(tasks, column, rest);
      var n := CutExists(tasks, column, rest, tasks[x].position, false);
      forall k | 0 <= k < |rest| ensures tasks[rest[k]].position != tasks[x].position {
        assert Live(tasks, rest[k]) && Live(tasks, x) && rest[k] != x;
      }
      forall o | In(tasks, o, column) ensures o in With(rest, n, x) {
        assert o == x || In(tasks - {x}, o, column);
      }
      SurgeryListing(tasks, column, rest, n, x);
      ids := With(rest, n, x);
    } else {
      ids := [];
    }
  }

  /** A move within a dense column of at least two tasks leaves it dense exactly when the position is one of the
      column's own: one beyond an end leaves a gap. */
  lemma DenseWithinExactly(b: Board, id: int, position: int, now: int, ids: seq<int>, n: nat, first: int)
    requires Live(b.tasks, id)
    requires Moves(b, id, b.tasks[id].column, position, now)
    requires Dense(b.tasks, b.tasks[id].column, ids, first) && n < |ids| && ids[n] == id && |ids| >= 2
    ensures (exists xs, f :: Dense(Move(b, id, b.tasks[id].column, position, now).0.tasks, b.tasks[id].column, xs, f))
            <==> first <= position < first + |ids|
  {
    var column := b.tasks[id].column;
    var after := Move(b, id, column, position, now).0.tasks;
    if first <= position < first + |ids| {
      DenseWithin(b, id, position, now, ids, n, first);
    } else {
      MoveByRow(b, id, column, position, now);
      assert ShiftedWithin(b.tasks, after, column, id, position);
      forall xs, f | Dense(after, column, xs, f) ensures false {
        GapBeyondEnd(b.tasks, after, column, id, position, ids, n, first, xs, f);
      }
    }
  }

  /** The end of the rest that faces a task moved beyond it is not next to it. */
  lemma FacingEnd(tasks: map<int, Task>, after: map<int, Task>, column: int, id: int, position: int, ids: seq<int>,
                  n: nat, first: int)
    requires Dense(tasks, column, ids, first) && n < |ids| && ids[n] == id && |ids| >= 2
    requires ShiftedWithin(tasks, after, column, id, position)
    ensures var rest := Without(ids, n);
            && rest[0] in after && rest[|rest| - 1] in after
            && (position < first ==> after[rest[0]].position == first + 1)
            && (position >= first + |ids| ==> after[rest[|rest| - 1]].position == first + |ids| - 2)
  {
  }

  /** Beyond the ends, without the moved task everything lies on one side. */
  lemma BeyondCut(tasks: map<int, Task>, column: int, position: int, ids: seq<int>, n: nat, first: int)
    requires Dense(tasks, column, ids, first) && n < |ids|
    requires position < first || first + |ids| <= position
    ensures forall k :: 0 <= k < |Without(ids, n)| ==> Without(ids, n)[k] in tasks
    ensures Cut(tasks, Without(ids, n), if position < first then 0
                else |ids| - 1, position, tasks[ids[n]].position < position)
  {
  }

  lemma GapBeyondEnd(tasks: map<int, Task>, after: map<int, Task>, column: int, id: int, position: int, ids: seq<int>,
                     n: nat, first: int, xs: seq<int>, f: int)
    requires Dense(tasks, column, ids, first) && n < |ids| && ids[n] == id && |ids| >= 2
    requires ShiftedWithin(tasks, after, column, id, position) && tasks[id].position != position
    requires position < first || first + |ids| <= position
    ensures !Dense(after, column, xs, f)
  {
    var rest, cut := Without(ids, n), if position < first then 0 else |ids| - 1;
    var all, g := With(rest, cut, id), if position < first then 0 else |rest| - 1;
    BeyondCut(tasks, column, position, ids, n, first);
    SurgeryWithin(tasks, after, column, id, position, ids, n, cut);
    FacingEnd(tasks, after, column, id, position, ids, n, first);
    assert all[g] == (if position < first then id else rest[g])
        && all[g + 1] == (if position < first then rest[0] else id);
    assert after[all[g + 1]].position - after[all[g]].position >= 2;
    if Dense(after, column, xs, f) {
      ListingUnique(after, column, xs, all);
    }
  }

  /** A move of a task from one dense column to another leaves the first dense, and the second exactly when that was
      empty or the position is one of its own or the next. */
  lemma DenseAcrossExactly(b: Board, id: int, toColumn: int, position: int, now: int, from: seq<int>, n: nat,
                           first: int, to: seq<int>, second: int)
    requires Moves(b, id, toColumn, position, now) && b.tasks[id].column != toColumn
    requires Dense(b.tasks, b.tasks[id].column, from, first) && n < |from| && from[n] == id
    requires Dense(b.tasks, toColumn, to, second)
    ensures var after := Move(b, id, toColumn, position, now).0.tasks;
            && Dense(after, b.tasks[id].column, Without(from, n), first)
            && ((exists xs, f :: Dense(after, toColumn, xs, f)) <==> to == [] || second <= position <= second + |to|)
  {
    var after := Move(b, id, toColumn, position, now).0.tasks;
    var cut := if position < second then 0 else if position > second + |to| then |to| else position - second;
    MoveAcross(b, id, toColumn, position, now, from, n, to, cut);
    ClosedGap(b, id, toColumn, position, now, from, n, first);
    if to == [] {
      assert Dense(after, toColumn, With(to, cut, id), position);
    } else if second <= position <= second + |to| {
      DenseAcross(b, id, toColumn, position, now, from, n, first, to, second);
    } else {
      OuterEnd(b, id, toColumn, position, now, to, second);
      var all, g := With(to, cut, id), if position < second then 0 else |to| - 1;
      assert all[g] == (if position < second then id else to[g])
          && all[g + 1] == (if position < second then to[0] else id);
      forall xs, f | Dense(after, toColumn, xs, f) ensures false {
        ListingUnique(after, toColumn, xs, all);
      }
    }
  }

  /** The end of the target column that faces a task put beyond it is not next to it. */
  lemma OuterEnd(b: Board, id: int, toColumn: int, position: int, now: int, to: seq<int>, second: int)
    requires Moves(b, id, toColumn, position, now) && b.tasks[id].column != toColumn
    requires Dense(b.tasks, toColumn, to, second) && to != []
    ensures var after := Move(b, id, toColumn, position, now).0.tasks;
            && to[0] in after && to[|to| - 1] in after && id in after && after[id].position == position
            && (position < second ==> after[to[0]].position == second + 1)
            && (position > second + |to| ==> after[to[|to| - 1]].position == second + |to| - 1)
  {
    MoveByRow(b, id, toColumn, position, now);
  }

  // ----- Order and distinctness -----

  /** A move keeps the order of every two tasks it does not name. */
  lemma MoveKeepsOrder(b: Board, id: int, toColumn: int, position: int, now: int, i: int, j: int)
    requires Distinct(b.tasks) && i != id && j != id && i != j
    requires Live(b.tasks, i) && Live(b.tasks, j) && b.tasks[i].column == b.tasks[j].column
    requires b.tasks[i].position < b.tasks[j].position
    ensures var after := Move(b, id, toColumn, position, now).0.tasks;
            && Live(after, i) && Live(after, j) && after[i].column == after[j].column == b.tasks[i].column
            && after[i].position < after[j].position
  {
    if Moves(b, id, toColumn, position, now) {
      MoveByRow(b, id, toColumn, position, now);
    }
    assert Live(b.tasks, id) && b.tasks[i].column == b.tasks[id].column ==> b.tasks[i].position != b.tasks[id].position;
    assert Live(b.tasks, id) && b.tasks[j].column == b.tasks[id].column ==> b.tasks[j].position != b.tasks[id].position;
  }

  lemma MoveKeepsDistinct(b: Board, id: int, toColumn: int, position: int, now: int)
    requires Distinct(b.tasks)
    ensures Distinct(Move(b, id, toColumn, position, now).0.tasks)
  {
    var after := Move(b, id, toColumn, position, now).0.tasks;
    if Moves(b, id, toColumn, position, now) {
      MoveByRow(b, id, toColumn, position, now);
      forall i, j | Live(after, i) && Live(after, j) && after[i].column == after[j].column
          && after[i].position == after[j].position
        ensures i == j
      {
        if i != id && j != id && i != j {
          MoveKeepsOrder(b, id, toColumn, position, now, if b.tasks[i].position < b.tasks[j].position then i else j,
                         if b.tasks[i].position < b.tasks[j].position then j else i);
        }
      }
    }
  }
}
