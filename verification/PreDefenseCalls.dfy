/** The pre-defense calls taken apart: each reads its row, reads the phase, fires its events one transaction at a time
    and saves the row it read, with anything in between. */
module PreDefenseCalls {
  import opened Wrappers
  import opened PreDefense
  import Ledger
  import LedgerRuns

  /** `copy` is the row as the call read it, `rows` the history rows it wrote so far; `seen` and `at` are the length of
      the history and the project's state when it read its phase. A recovery of a final row never saves; a grade saves
      its completion only if it moved the project. */
  datatype Call = Call(open: bool, id: int, copy: Row, actor: int, comment: string, status: string, result: string,
                       pass: bool, recovery: bool, grading: bool, phase: Option<Phase>, seen: nat, at: int,
                       rows: seq<nat>)
  {
    function Planned(): seq<string>
    {
      if phase.None? then [] else Plan(phase.value, pass, !recovery)
    }

    predicate Ready() { open && phase.Some? && |rows| < |Planned()| }

    predicate Saves() { open && phase.Some? && |rows| == |Planned()| && !recovery && (grading ==> Planned() != []) }

    /** It has not given up the save: a grade outside the pre-defense phases has. */
    predicate MaySave() { open && !recovery && (grading && phase.Some? ==> Planned() != []) }

    function Saved(now: int): Row { Completed(copy, status, result, comment, now) }
  }

  datatype Desk = Desk(board: Board, calls: map<int, Call>)

  datatype Step =
    | OpenStep(id: int, row: Row)
    | CompleteStep(call: int, id: int, actor: int, result: string, comment: string, allowResubmission: bool)
    | GradeStep(call: int, id: int, actor: int, grade: int, comment: string, now: int)
    | PhaseStep(call: int)
    | EventStep(call: int, now: int)
    | SaveStep(call: int, now: int)
    | FailStep(call: int)
    | ScheduleStep(id: int, date: int, location: string)
    | RescheduleStep(id: int, date: int, location: string)
    | LedgerStep(step: LedgerRuns.Step)

  function BeginComplete(d: Desk, call: int, id: int, actor: int, result: string, comment: string,
                         allowResubmission: bool): Desk
    requires call !in d.calls
  {
    var plan := CompletionOf(result, allowResubmission);
    if id !in d.board.rows || plan.None? then d
    else
      var row := d.board.rows[id];
      var final := IsFinal(row.status);
      if (final && row.result != "" && row.result != result) || (!final && row.status != "graded") then d
      else
        d.(calls := d.calls[call := Call(true, id, row, actor, comment, plan.value.status, result, plan.value.pass,
                                         final, false, None, 0, 0, [])])
  }

  function BeginGrade(d: Desk, call: int, id: int, actor: int, grade: int, comment: string, now: int): Desk
    requires call !in d.calls
  {
    if id !in d.board.rows || d.board.rows[id].status != "scheduled" then d
    else
      var row := Graded(d.board.rows[id], actor, grade, comment, now);
      Desk(d.board.(rows := d.board.rows[id := row]),
           d.calls[call := Call(true, id, row, actor, comment, "completed", "passed", true, false, true, None, 0, 0,
                                [])])
  }

  function ReadPhase(c: Ledger.Catalog, d: Desk, call: int): Desk
    requires call in d.calls
  {
    var k := d.calls[call];
    var (read, context) := Ledger.Submit(c, d.board.ledger, k.copy.project);
    Desk(d.board.(ledger := read),
         d.calls[call := if context.None? then k.(open := false) else Seen(k, read, context.value)])
  }

  function Seen(k: Call, read: Ledger.Db, context: Ledger.SubmitContext): Call
  {
    k.(phase := Some(PhaseOf(context.stateName)), seen := |read.history|, at := context.stateId)
  }

  function FireNext(c: Ledger.Catalog, d: Desk, call: int, now: int): Desk
    requires call in d.calls && d.calls[call].Ready()
  {
    var k := d.calls[call];
    var (after, reply) := Ledger.Advance(c, d.board.ledger, k.copy.project, k.Planned()[|k.rows|], k.actor, k.comment,
                                         now);
    Desk(d.board.(ledger := after),
         d.calls[call := if reply == Ledger.Done then k.(rows := k.rows + [|d.board.ledger.history|])
                 else k.(open := false)])
  }

  function Save(d: Desk, call: int, now: int): Desk
    requires call in d.calls && d.calls[call].Saves()
  {
    var k := d.calls[call];
    Desk(d.board.(rows := d.board.rows[k.id := k.Saved(now)]),
         d.calls[call := k.(open := false)])
  }

  /** One step; a step that is not enabled does nothing. */
  function Apply(c: Ledger.Catalog, d: Desk, step: Step): Desk
  {
    match step
    case OpenStep(id, row) =>
      if id !in d.board.rows && row.status in {"pending", "scheduled"}
      then d.(board := d.board.(rows := d.board.rows[id := row])) else d
    case CompleteStep(call, id, actor, result, comment, allowResubmission) =>
      if call in d.calls then d else BeginComplete(d, call, id, actor, result, comment, allowResubmission)
    case GradeStep(call, id, actor, grade, comment, now) =>
      if call in d.calls then d else BeginGrade(d, call, id, actor, grade, comment, now)
    case PhaseStep(call) =>
      if call in d.calls && d.calls[call].open && d.calls[call].phase.None? then ReadPhase(c, d, call) else d
    case EventStep(call, now) => if call in d.calls && d.calls[call].Ready() then FireNext(c, d, call, now) else d
    case SaveStep(call, now) => if call in d.calls && d.calls[call].Saves() then Save(d, call, now) else d
    case FailStep(call) => if call in d.calls then d.(calls := d.calls[call := d.calls[call].(open := false)]) else d
    case ScheduleStep(id, date, location) => d.(board := Schedule(d.board, id, date, location).0)
    case RescheduleStep(id, date, location) => d.(board := Reschedule(d.board, id, date, location).0)
    case LedgerStep(inner) => d.(board := d.board.(ledger := LedgerRuns.Apply(c, d.board.ledger, inner)))
  }

  function Run(c: Ledger.Catalog, d: Desk, steps: seq<Step>): Desk
  {
    if steps == [] then d else Apply(c, Run(c, d, steps[..|steps| - 1]), steps[|steps| - 1])
  }

  // ----- One phase per call, under any interleaving -----

  /** The history rows a call wrote carry its planned events in order, all of one phase and one verdict. */
  ghost predicate Wrote(history: seq<Ledger.HistoryRow>, k: Call)
  {
    && |k.rows| <= |k.Planned()|
    && forall i | 0 <= i < |k.rows| ::
         k.rows[i] < |history| && history[k.rows[i]].event == k.Planned()[i]
           && history[k.rows[i]].project == k.copy.project
  }

  ghost predicate Apart(k: Call, l: Call)
  {
    forall i, j | 0 <= i < |k.rows| && 0 <= j < |l.rows| :: k.rows[i] != l.rows[j]
  }

  ghost predicate Inv(d: Desk)
  {
    && (forall k :: k in d.calls ==> Wrote(d.board.ledger.history, d.calls[k]))
    && (forall k, l | k in d.calls && l in d.calls && k != l :: Apart(d.calls[k], d.calls[l]))
  }

  /** Every ledger operation only appends history. */
  lemma HistoryGrows(c: Ledger.Catalog, db: Ledger.Db, step: LedgerRuns.Step)
    ensures db.history <= LedgerRuns.Apply(c, db, step).history
  {
  }

  /** A call's own change over a history that only grew. */
  lemma CallKeepsInv(d: Desk, e: Desk, call: int)
    requires Inv(d) && d.board.ledger.history <= e.board.ledger.history
    requires call in e.calls && e.calls == d.calls[call := e.calls[call]]
    requires Wrote(e.board.ledger.history, e.calls[call])
    requires call !in d.calls ==> e.calls[call].rows == []
    requires call in d.calls ==>
               || e.calls[call].rows == d.calls[call].rows
               || e.calls[call].rows == d.calls[call].rows + [|d.board.ledger.history|]
    ensures Inv(e)
  {
    forall k | k in e.calls ensures Wrote(e.board.ledger.history, e.calls[k]) {
      assert k != call ==> Wrote(d.board.ledger.history, d.calls[k]);
    }
    forall k, l | k in e.calls && l in e.calls && k != l ensures Apart(e.calls[k], e.calls[l]) {
      assert k in d.calls && l in d.calls ==> Apart(d.calls[k], d.calls[l]);
      assert k != call && k in d.calls ==> Wrote(d.board.ledger.history, d.calls[k]);
      assert l != call && l in d.calls ==> Wrote(d.board.ledger.history, d.calls[l]);
    }
  }

  lemma EventKeepsInv(c: Ledger.Catalog, d: Desk, call: int, now: int)
    requires Inv(d) && call in d.calls && d.calls[call].Ready()
    ensures Inv(FireNext(c, d, call, now))
  {
    var k, e := d.calls[call], FireNext(c, d, call, now);
    assert Wrote(d.board.ledger.history, k);
    CallKeepsInv(d, e, call);
  }

  lemma StepKeepsInv(c: Ledger.Catalog, d: Desk, step: Step)
    requires Inv(d)
    ensures Inv(Apply(c, d, step))
  {
    var e := Apply(c, d, step);
    match step
    case CompleteStep(call, _, _, _, _, _) => if e.calls != d.calls { CallKeepsInv(d, e, call); }
    case GradeStep(call, _, _, _, _, _) => if e.calls != d.calls { CallKeepsInv(d, e, call); }
    case PhaseStep(call) =>
      if e != d {
        assert Wrote(d.board.ledger.history, d.calls[call]);
        CallKeepsInv(d, e, call);
      }
    case EventStep(call, now) => if e != d { EventKeepsInv(c, d, call, now); }
    case SaveStep(call, now) => if e != d { CallKeepsInv(d, e, call); }
    case FailStep(call) => if e != d { CallKeepsInv(d, e, call); }
    case LedgerStep(inner) =>
      HistoryGrows(c, d.board.ledger, inner);
      forall k | k in e.calls ensures Wrote(e.board.ledger.history, e.calls[k]) {
        assert Wrote(d.board.ledger.history, d.calls[k]);
      }
    case _ =>
  }

  /** Over every interleaving of any number of calls with each other and with every other writer of the ledger, the rows
      each call wrote are its planned events in order, of one phase and one verdict, and no row belongs to two calls. */
  lemma {:induction false} CallsKeepToOnePhase(c: Ledger.Catalog, d: Desk, steps: seq<Step>)
    requires Inv(d)
    ensures Inv(Run(c, d, steps))
  {
    if steps != [] {
      CallsKeepToOnePhase(c, d, steps[..|steps| - 1]);
      StepKeepsInv(c, Run(c, d, steps[..|steps| - 1]), steps[|steps| - 1]);
    }
  }

  // ----- Final rows -----

  /** The step saves another row than the one stored. */
  predicate Overwrites(d: Desk, step: Step, id: int)
  {
    && step.SaveStep? && step.call in d.calls && d.calls[step.call].Saves() && d.calls[step.call].id == id
    && id in d.board.rows && d.calls[step.call].Saved(step.now) != d.board.rows[id]
  }

  /** A final row changes exactly at the save of a call that read it earlier and saves something else. */
  lemma FinalRowChanges(c: Ledger.Catalog, d: Desk, step: Step, id: int)
    requires id in d.board.rows && IsFinal(d.board.rows[id].status)
    ensures var e := Apply(c, d, step);
            id in e.board.rows && (e.board.rows[id] != d.board.rows[id] <==> Overwrites(d, step, id))
  {
  }

  /** Calls save final statuses only. */
  ghost predicate SavesFinal(d: Desk) { forall k :: k in d.calls ==> IsFinal(d.calls[k].status) }

  lemma StepStaysFinal(c: Ledger.Catalog, d: Desk, step: Step, id: int)
    requires SavesFinal(d) && id in d.board.rows && IsFinal(d.board.rows[id].status)
    ensures var e := Apply(c, d, step);
            SavesFinal(e) && id in e.board.rows && IsFinal(e.board.rows[id].status)
  {
    FinalRowChanges(c, d, step, id);
  }

  lemma {:induction false} RunStaysFinal(c: Ledger.Catalog, d: Desk, steps: seq<Step>, id: int)
    requires SavesFinal(d) && id in d.board.rows && IsFinal(d.board.rows[id].status)
    ensures var e := Run(c, d, steps);
            SavesFinal(e) && id in e.board.rows && IsFinal(e.board.rows[id].status)
  {
    if steps != [] {
      RunStaysFinal(c, d, steps[..|steps| - 1], id);
      StepStaysFinal(c, Run(c, d, steps[..|steps| - 1]), steps[|steps| - 1], id);
    }
  }

  ghost predicate OverwritesAt(c: Ledger.Catalog, d: Desk, steps: seq<Step>, i: nat, id: int)
  {
    i < |steps| && Overwrites(Run(c, d, steps[..i]), steps[i], id)
  }

  ghost predicate StillAt(c: Ledger.Catalog, d: Desk, steps: seq<Step>, i: nat, id: int)
    requires i <= |steps| && id in d.board.rows
  {
    var e := Run(c, d, steps[..i]); id in e.board.rows && e.board.rows[id] == d.board.rows[id]
  }

  /** Along any run a final row is never changed exactly when no step overwrites it. */
  lemma {:induction false} FinalRowAbsorbsExactly(c: Ledger.Catalog, d: Desk, steps: seq<Step>, id: int)
    requires SavesFinal(d) && id in d.board.rows && IsFinal(d.board.rows[id].status)
    ensures (forall i | 0 <= i <= |steps| :: StillAt(c, d, steps, i, id))
       <==> (forall i | 0 <= i < |steps| :: !OverwritesAt(c, d, steps, i, id))
  {
    if forall i | 0 <= i < |steps| :: !OverwritesAt(c, d, steps, i, id) {
      forall i | 0 <= i <= |steps| ensures StillAt(c, d, steps, i, id) {
        StillThroughout(c, d, steps, i, id);
      }
    } else {
      var i :| 0 <= i < |steps| && OverwritesAt(c, d, steps, i, id);
      OverwritingChanges(c, d, steps, i, id);
      assert !StillAt(c, d, steps, i, id) || !StillAt(c, d, steps, i + 1, id);
    }
  }

  lemma OverwritingChanges(c: Ledger.Catalog, d: Desk, steps: seq<Step>, i: nat, id: int)
    requires SavesFinal(d) && id in d.board.rows && IsFinal(d.board.rows[id].status) && i < |steps|
    ensures StillAt(c, d, steps, i, id) ==> (StillAt(c, d, steps, i + 1, id) <==> !OverwritesAt(c, d, steps, i, id))
  {
    RunStaysFinal(c, d, steps[..i], id);
    FinalRowChanges(c, Run(c, d, steps[..i]), steps[i], id);
    assert steps[..i + 1][..i] == steps[..i];
  }

  lemma {:induction false} StillThroughout(c: Ledger.Catalog, d: Desk, steps: seq<Step>, n: nat, id: int)
    requires SavesFinal(d) && id in d.board.rows && IsFinal(d.board.rows[id].status) && n <= |steps|
    requires forall i | 0 <= i < |steps| :: !OverwritesAt(c, d, steps, i, id)
    ensures StillAt(c, d, steps, n, id)
  {
    if n == 0 {
      assert steps[..0] == [];
    } else {
      StillThroughout(c, d, steps, n - 1, id);
      OverwritingChanges(c, d, steps, n - 1, id);
    }
  }

  /** An open call that read the row earlier and may still save it. */
  ghost predicate Pending(d: Desk, id: int)
  {
    exists k :: k in d.calls && d.calls[k].MaySave() && d.calls[k].id == id
  }

  /** In particular a final row that no open call may still save never changes again, whatever interleaves. */
  lemma {:induction false} SettledRowsAbsorb(c: Ledger.Catalog, d: Desk, steps: seq<Step>, id: int)
    requires id in d.board.rows && IsFinal(d.board.rows[id].status) && !Pending(d, id)
    ensures var e := Run(c, d, steps);
            id in e.board.rows && e.board.rows[id] == d.board.rows[id] && !Pending(e, id)
  {
    if steps != [] {
      var mid := Run(c, d, steps[..|steps| - 1]);
      SettledRowsAbsorb(c, d, steps[..|steps| - 1], id);
      FinalRowChanges(c, mid, steps[|steps| - 1], id);
      PendingFromBefore(c, mid, steps[|steps| - 1], id);
    }
  }

  lemma PendingFromBefore(c: Ledger.Catalog, d: Desk, step: Step, id: int)
    requires id in d.board.rows && IsFinal(d.board.rows[id].status)
    ensures Pending(Apply(c, d, step), id) ==> Pending(d, id)
  {
    var e := Apply(c, d, step);
    if k :| k in e.calls && e.calls[k].MaySave() && e.calls[k].id == id {
      assert k in d.calls && d.calls[k].MaySave() && d.calls[k].id == id;
    }
  }

  /** Two saves ready on one row: the later one overwrites the final row the earlier one wrote, its result included. */
  lemma LaterSaveWins(d: Desk, first: int, second: int, t1: int, t2: int)
    requires first != second && first in d.calls && second in d.calls && d.calls[first].Saves()
        && d.calls[second].Saves()
    requires d.calls[first].id == d.calls[second].id
    ensures var id, e := d.calls[first].id, Save(d, first, t1);
            && e.board.rows[id].result == d.calls[first].result
            && second in e.calls && e.calls[second].Saves()
            && Save(e, second, t2).board.rows[id]
               == d.calls[second].Saved(t2)
  {
  }

  /** Two completions of one graded row with opposite results, its project outside the pre-defense phases: the row is
      final as passed and then final as failed. */
  lemma FinalRowOverwritten(c: Ledger.Catalog, b: Board, id: int, actor: int, t1: int, t2: int)
    requires Ledger.WellFormed(c) && LedgerRuns.Inv(c, b.ledger)
    requires id in b.rows && b.rows[id].status == "graded" && b.rows[id].project in b.ledger.projects
    requires PhaseOf(b.ledger.projects[b.rows[id].project].stateName).Elsewhere?
    ensures var begun := BeginComplete(BeginComplete(Desk(b, map[]), 1, id, actor, "passed", "", false),
                                       2, id, actor, "failed", "", false);
            var read := ReadPhase(c, ReadPhase(c, begun, 1), 2);
            && read.calls[1].Saves() && read.calls[2].Saves()
            && var once := Save(read, 1, t1);
               && once.board.rows[id].status == "completed"
               && once.calls[2].Saves() && Save(once, 2, t2).board.rows[id].status == "failed"
  {
    LedgerRuns.SubmitReads(c, b.ledger, b.rows[id].project);
  }
}
