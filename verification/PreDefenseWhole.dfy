/** A call whose steps nothing interrupts is the whole call, faults included. */
module PreDefenseWhole {
  import opened Wrappers
  import opened PreDefense
  import opened PreDefenseCalls
  import PreDefenseRuns
  import Ledger

  function Events(c: Ledger.Catalog, d: Desk, call: int, now: int, n: nat): Desk
    decreases n
  {
    if n == 0 then d else Events(c, Apply(c, d, EventStep(call, now)), call, now, n - 1)
  }

  lemma {:induction false} ClosedStays(c: Ledger.Catalog, d: Desk, call: int, now: int, n: nat)
    requires call in d.calls && !d.calls[call].Ready()
    ensures Events(c, d, call, now, n) == d
    decreases n
  {
    if n > 0 {
      ClosedStays(c, d, call, now, n - 1);
    }
  }

  /** `e` is `d` after the event loop over what the call still plans, `n` being the transactions served. */
  ghost predicate Looped(c: Ledger.Catalog, d: Desk, e: Desk, call: int, now: int, n: nat)
    requires call in d.calls && |d.calls[call].rows| <= |d.calls[call].Planned()|
  {
    var k := d.calls[call];
    var (after, outcome) := FireAll(c, d.board.ledger, k.copy.project, k.Planned()[|k.rows|..], k.actor, k.comment, now,
                                    n);
    && e.board == d.board.(ledger := after)
    && call in e.calls && e.calls[call] == k.(open := e.calls[call].open, rows := e.calls[call].rows)
    && (outcome == Advanced <==> e.calls[call].open && |e.calls[call].rows| == |k.Planned()|)
  }

  lemma FiredOnce(c: Ledger.Catalog, d: Desk, call: int, now: int)
    requires call in d.calls && d.calls[call].Ready()
    ensures var next := Apply(c, d, EventStep(call, now));
            && next == FireNext(c, d, call, now) && call in next.calls && next.calls[call].phase.Some?
            && |next.calls[call].rows| <= |next.calls[call].Planned()|
  {
  }

  lemma LoopOnce(c: Ledger.Catalog, d: Desk, e: Desk, call: int, now: int, n: nat)
    requires call in d.calls && d.calls[call].Ready()
    requires var next := FireNext(c, d, call, now);
             if next.calls[call].open then Looped(c, next, e, call, now, n) else e == next
    ensures Looped(c, d, e, call, now, n + 1)
  {
    var k := d.calls[call];
    assert k.Planned()[|k.rows|..][1..] == k.Planned()[|k.rows| + 1..];
  }

  /** The event steps of a call that nothing interrupts are the event loop. */
  lemma {:induction false} EventsAreTheLoop(c: Ledger.Catalog, d: Desk, call: int, now: int, n: nat)
    requires call in d.calls && d.calls[call].open && d.calls[call].phase.Some?
    requires |d.calls[call].rows| <= |d.calls[call].Planned()|
    ensures Looped(c, d, Events(c, d, call, now, n), call, now, n)
    decreases n
  {
    if |d.calls[call].rows| == |d.calls[call].Planned()| {
      ClosedStays(c, d, call, now, n);
    } else if n > 0 {
      var next := Apply(c, d, EventStep(call, now));
      FiredOnce(c, d, call, now);
      if next.calls[call].open {
        EventsAreTheLoop(c, next, call, now, n - 1);
      } else {
        ClosedStays(c, next, call, now, n - 1);
      }
      LoopOnce(c, d, Events(c, next, call, now, n - 1), call, now, n - 1);
    }
  }

  /** A call after its phase is read: its events, and its save unless that is lost. */
  function Rest(c: Ledger.Catalog, d: Desk, call: int, now: int, f: Faults): Board
  {
    var fired := Events(c, d, call, now, f.served);
    if f.saved then Apply(c, fired, SaveStep(call, now)).board else fired.board
  }

  lemma RestOfCall(c: Ledger.Catalog, d: Desk, call: int, now: int, f: Faults)
    requires call in d.calls && d.calls[call].open && d.calls[call].phase.Some? && d.calls[call].rows == []
    ensures var k := d.calls[call];
            var (after, outcome) := FireAll(c, d.board.ledger, k.copy.project, k.Planned(), k.actor, k.comment, now,
                                            f.served);
            Rest(c, d, call, now, f)
            == Board(if outcome == Advanced && f.saved && k.MaySave() then d.board.rows[k.id := k.Saved(now)]
                     else d.board.rows, after)
  {
    EventsAreTheLoop(c, d, call, now, f.served);
    assert d.calls[call].Planned()[0..] == d.calls[call].Planned();
  }

  lemma RestOfClosedCall(c: Ledger.Catalog, d: Desk, call: int, now: int, f: Faults)
    requires call in d.calls && !d.calls[call].open
    ensures Rest(c, d, call, now, f) == d.board
  {
    ClosedStays(c, d, call, now, f.served);
  }

  // ----- Completions -----

  /** What a completion acts on: a graded row, or a final one with the same or no result. */
  predicate Completable(row: Row, result: string)
  {
    row.status == "graded" || (IsFinal(row.status) && (row.result == "" || row.result == result))
  }

  lemma CompletionUnfolds(c: Ledger.Catalog, b: Board, id: int, actor: int, result: string, comment: string,
                          allowResubmission: bool, now: int, f: Faults)
    requires id in b.rows && Completable(b.rows[id], result) && CompletionOf(result, allowResubmission).Some?
    ensures var row, plan := b.rows[id], CompletionOf(result, allowResubmission).value;
            var (ledger, context) := Ledger.Submit(c, b.ledger, row.project);
            var final := IsFinal(row.status);
            Complete(c, b, id, actor, result, comment, allowResubmission, now, f).0
            == if context.None? then b.(ledger := ledger)
               else
                 var (after, outcome) := FireAll(c, ledger, row.project,
                                                 Plan(PhaseOf(context.value.stateName), plan.pass, !final),
                                                 actor, comment, now, f.served);
                 Board(if outcome == Advanced && f.saved && !final
                       then b.rows[id := Completed(row, plan.status, result, comment, now)]
                       else b.rows, after)
  {
    var row, plan := b.rows[id], CompletionOf(result, allowResubmission).value;
    var (ledger, context) := Ledger.Submit(c, b.ledger, row.project);
    if context.Some? {
      var events := Plan(PhaseOf(context.value.stateName), plan.pass, !IsFinal(row.status));
      PreDefenseRuns.FireAllFires(c, ledger, row.project, events, actor, comment, now, f.served);
    }
  }

  lemma ReadCompletion(c: Ledger.Catalog, b: Board, id: int, actor: int, result: string, comment: string,
                       allowResubmission: bool)
    requires id in b.rows && Completable(b.rows[id], result) && CompletionOf(result, allowResubmission).Some?
    ensures var row, plan := b.rows[id], CompletionOf(result, allowResubmission).value;
            var (ledger, context) := Ledger.Submit(c, b.ledger, row.project);
            var d := ReadPhase(c, BeginComplete(Desk(b, map[]), 0, id, actor, result, comment, allowResubmission), 0);
            var begun := Call(true, id, row, actor, comment, plan.status, result, plan.pass, IsFinal(row.status), false,
                              None, 0, 0, []);
            && d.board == b.(ledger := ledger) && 0 in d.calls
            && d.calls[0] == if context.Some? then Seen(begun, ledger, context.value) else begun.(open := false)
  {
  }

  /** Taken in one go the steps of a completion leave the board the whole call leaves: on a graded row or a final one,
      and with any of its event transactions and its save lost. */
  lemma CompletionInOneGo(c: Ledger.Catalog, b: Board, id: int, actor: int, result: string, comment: string,
                          allowResubmission: bool, now: int, f: Faults)
    requires id in b.rows && Completable(b.rows[id], result) && CompletionOf(result, allowResubmission).Some?
    ensures var begun := BeginComplete(Desk(b, map[]), 0, id, actor, result, comment, allowResubmission);
            Rest(c, ReadPhase(c, begun, 0), 0, now, f)
            == Complete(c, b, id, actor, result, comment, allowResubmission, now, f).0
  {
    var read := ReadPhase(c, BeginComplete(Desk(b, map[]), 0, id, actor, result, comment, allowResubmission), 0);
    ReadCompletion(c, b, id, actor, result, comment, allowResubmission);
    CompletionUnfolds(c, b, id, actor, result, comment, allowResubmission, now, f);
    if read.calls[0].open {
      RestOfCall(c, read, 0, now, f);
    } else {
      RestOfClosedCall(c, read, 0, now, f);
    }
  }

  // ----- Grades -----

  lemma GradeUnfolds(c: Ledger.Catalog, b: Board, id: int, actor: int, grade: int, comment: string, now: int, f: Faults)
    requires id in b.rows && b.rows[id].status == "scheduled" && f.notes
    ensures var row := Graded(b.rows[id], actor, grade, comment, now);
            var rows := b.rows[id := row];
            var (ledger, context) := Ledger.Submit(c, b.ledger, row.project);
            Grade(c, b, id, actor, grade, comment, now, f).0
            == if context.None? then Board(rows, ledger)
               else
                 var events := Plan(PhaseOf(context.value.stateName), true, true);
                 var (after, outcome) := FireAll(c, ledger, row.project, events, actor, comment, now, f.served);
                 Board(if outcome == Advanced && f.saved && events != []
                       then rows[id := Completed(row, "completed", "passed", comment, now)]
                       else rows, after)
  {
    var row := Graded(b.rows[id], actor, grade, comment, now);
    var (ledger, context) := Ledger.Submit(c, b.ledger, row.project);
    var done := Completed(row, "completed", "passed", comment, now);
    assert b.rows[id := row][id := done] == b.rows[id := done];
  }

  lemma ReadGrade(c: Ledger.Catalog, b: Board, id: int, actor: int, grade: int, comment: string, now: int)
    requires id in b.rows && b.rows[id].status == "scheduled"
    ensures var row := Graded(b.rows[id], actor, grade, comment, now);
            var (ledger, context) := Ledger.Submit(c, b.ledger, row.project);
            var d := ReadPhase(c, BeginGrade(Desk(b, map[]), 0, id, actor, grade, comment, now), 0);
            var begun := Call(true, id, row, actor, comment, "completed", "passed", true, false, true, None, 0, 0, []);
            && d.board == Board(b.rows[id := row], ledger) && 0 in d.calls
            && d.calls[0] == if context.Some? then Seen(begun, ledger, context.value) else begun.(open := false)
  {
  }

  /** The same for a grade, which stops after its first save when its notes are lost. */
  lemma GradeInOneGo(c: Ledger.Catalog, b: Board, id: int, actor: int, grade: int, comment: string, now: int, f: Faults)
    requires id in b.rows && b.rows[id].status == "scheduled"
    ensures var begun := BeginGrade(Desk(b, map[]), 0, id, actor, grade, comment, now);
            Grade(c, b, id, actor, grade, comment, now, f).0
            == if f.notes then Rest(c, ReadPhase(c, begun, 0), 0, now, f) else begun.board
  {
    if f.notes {
      var read := ReadPhase(c, BeginGrade(Desk(b, map[]), 0, id, actor, grade, comment, now), 0);
      ReadGrade(c, b, id, actor, grade, comment, now);
      GradeUnfolds(c, b, id, actor, grade, comment, now, f);
      if read.calls[0].open {
        RestOfCall(c, read, 0, now, f);
      } else {
        RestOfClosedCall(c, read, 0, now, f);
      }
    }
  }
}
