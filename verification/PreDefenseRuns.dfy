/** Retries, repeated calls and lost writes of the pre-defense calls. */
module PreDefenseRuns {
  import opened Wrappers
  import opened PreDefense
  import Ledger
  import LedgerRuns

  datatype Step =
    | OpenStep(id: int, row: Row)
    | ScheduleStep(id: int, date: int, location: string)
    | RescheduleStep(id: int, date: int, location: string)
    | GradeStep(id: int, actor: int, grade: int, comment: string, now: int, f: Faults)
    | CompleteStep(id: int, actor: int, result: string, comment: string, allowResubmission: bool, now: int, f: Faults)
    | LedgerStep(step: LedgerRuns.Step)

  /** A new row under an unused id is pending or scheduled; a step on a taken id does nothing. */
  function Apply(c: Ledger.Catalog, b: Board, step: Step): Board
  {
    match step
    case OpenStep(id, row) =>
      if id !in b.rows && row.status in {"pending", "scheduled"} then b.(rows := b.rows[id := row]) else b
    case ScheduleStep(id, date, location) => Schedule(b, id, date, location).0
    case RescheduleStep(id, date, location) => Reschedule(b, id, date, location).0
    case GradeStep(id, actor, grade, comment, now, f) => Grade(c, b, id, actor, grade, comment, now, f).0
    case CompleteStep(id, actor, result, comment, allowResubmission, now, f) =>
      Complete(c, b, id, actor, result, comment, allowResubmission, now, f).0
    case LedgerStep(inner) => b.(ledger := LedgerRuns.Apply(c, b.ledger, inner))
  }

  function Run(c: Ledger.Catalog, b: Board, steps: seq<Step>): Board
  {
    if steps == [] then b else Apply(c, Run(c, b, steps[..|steps| - 1]), steps[|steps| - 1])
  }

  // ----- Final rows absorb every call -----

  /** Once a row's status is final no call of any kind changes the row again. */
  lemma {:induction false} FinalRowsAbsorb(c: Ledger.Catalog, b: Board, steps: seq<Step>, id: int)
    requires id in b.rows && IsFinal(b.rows[id].status)
    ensures id in Run(c, b, steps).rows && Run(c, b, steps).rows[id] == b.rows[id]
  {
    if steps != [] {
      FinalRowsAbsorb(c, b, steps[..|steps| - 1], id);
    }
  }

  // ----- Grades and results -----

  predicate Decided(row: Row) { row.status == "graded" || IsFinal(row.status) }

  /** A row is graded exactly from its grading on, and its result is that of its final status. */
  predicate RowSound(row: Row)
  {
    && (row.grade.Some? <==> Decided(row)) && (row.gradedBy.Some? <==> Decided(row))
        && (row.gradedAt.Some? <==> Decided(row))
    && (row.completedAt.Some? <==> IsFinal(row.status))
    && row.result == (if row.status == "completed" then "passed" else if row.status == "conditional" then "conditional"
                      else if IsFinal(row.status) then "failed" else "")
  }

  /** The project of a row is fixed, and so are its grade and grader once it has them. */
  predicate Stands(row: Row, after: Row)
  {
    && after.project == row.project
    && (Decided(row) ==>
          && Decided(after)
          && after.grade == row.grade && after.gradeComment == row.gradeComment
          && after.gradedBy == row.gradedBy && after.gradedAt == row.gradedAt)
  }

  /** One row changes, soundly. */
  ghost predicate Edits(b: Board, after: Board, id: int)
  {
    && (forall k :: k in b.rows && k != id ==> k in after.rows && after.rows[k] == b.rows[k])
    && (forall k :: k in after.rows && k != id ==> k in b.rows)
    && (id in b.rows ==> id in after.rows)
    && (id in b.rows && RowSound(b.rows[id]) ==> RowSound(after.rows[id]) && Stands(b.rows[id], after.rows[id]))
    && (id !in b.rows && id in after.rows ==> RowSound(after.rows[id]))
  }

  lemma GradeEdits(c: Ledger.Catalog, b: Board, id: int, actor: int, grade: int, comment: string, now: int, f: Faults)
    ensures Edits(b, Grade(c, b, id, actor, grade, comment, now, f).0, id)
  {
  }

  lemma CompleteEdits(c: Ledger.Catalog, b: Board, id: int, actor: int, result: string, comment: string,
                      allowResubmission: bool, now: int, f: Faults)
    ensures Edits(b, Complete(c, b, id, actor, result, comment, allowResubmission, now, f).0, id)
  {
  }

  lemma StepEdits(c: Ledger.Catalog, b: Board, step: Step) returns (id: int)
    requires step.OpenStep? ==> RowSound(step.row)
    ensures Edits(b, Apply(c, b, step), id)
  {
    match step
    case GradeStep(i, actor, grade, comment, now, f) =>
      GradeEdits(c, b, i, actor, grade, comment, now, f);
      id := i;
    case CompleteStep(i, actor, result, comment, allowResubmission, now, f) =>
      CompleteEdits(c, b, i, actor, result, comment, allowResubmission, now, f);
      id := i;
    case OpenStep(i, _) => id := i;
    case ScheduleStep(i, _, _) => id := i;
    case RescheduleStep(i, _, _) => id := i;
    case LedgerStep(_) => id := 0;
  }

  ghost predicate AllSound(b: Board) { forall id :: id in b.rows ==> RowSound(b.rows[id]) }

  ghost predicate AllStand(b: Board, after: Board)
  {
    forall id :: id in b.rows ==> id in after.rows && Stands(b.rows[id], after.rows[id])
  }

  lemma EditStands(b: Board, mid: Board, after: Board, id: int)
    requires Edits(mid, after, id) && AllSound(mid) && AllStand(b, mid)
    ensures AllSound(after) && AllStand(b, after)
  {
    forall k | k in after.rows
      ensures RowSound(after.rows[k])
    {
      if k != id {
        assert k in mid.rows;
      }
    }
  }

  /** Over any run rows stay sound, and a grade, once given, stands. */
  lemma {:induction false} GradesStand(c: Ledger.Catalog, b: Board, steps: seq<Step>)
    requires AllSound(b)
    requires forall i :: 0 <= i < |steps| && steps[i].OpenStep? ==> RowSound(steps[i].row)
    ensures AllSound(Run(c, b, steps)) && AllStand(b, Run(c, b, steps))
  {
    if steps != [] {
      var last := |steps| - 1;
      GradesStand(c, b, steps[..last]);
      var mid := Run(c, b, steps[..last]);
      var edited := StepEdits(c, mid, steps[last]);
      EditStands(b, mid, Run(c, b, steps), edited);
    }
  }

  // ----- The life of a row -----

  /** The ways a step changes a row: scheduled while waiting, rescheduled and graded while scheduled, completed while
      graded, each with the values of its call. */
  predicate Lives(row: Row, after: Row, step: Step, id: int)
  {
    match step
    case ScheduleStep(i, date, location) =>
      && i == id && (row.status == "pending" || row.status == "rescheduled") && after.status == "scheduled"
      && after.scheduledDate == Some(date) && after.location == location && SameGrade(row, after)
      && SameResult(row, after)
    case RescheduleStep(i, date, location) =>
      && i == id && row.status == "scheduled" && after.status == "scheduled" && after.scheduledDate == Some(date)
      && after.location == (if location == "" then row.location else location) && SameGrade(row, after)
      && SameResult(row, after)
    case GradeStep(i, actor, grade, comment, now, _) =>
      && i == id && row.status == "scheduled" && after.grade == Some(grade) && after.gradeComment == comment
      && after.gradedBy == Some(actor) && after.gradedAt == Some(now)
      && (after.status != "completed" ==> after.status == "graded" && SameResult(row, after))
      && (after.status == "completed" ==>
            after.result == "passed" && after.resultComment == comment && after.completedAt == Some(now))
    case CompleteStep(i, _, result, comment, allowResubmission, now, _) =>
      && i == id && row.status == "graded" && SameGrade(row, after)
      && after.result == result && after.resultComment == comment && after.completedAt == Some(now)
      && (result == "passed" ==> after.status == "completed")
      && (result == "conditional" ==> after.status == "conditional")
      && (result == "failed" ==> after.status == (if allowResubmission then "failed_resubmit" else "failed"))
      && (result == "passed" || result == "conditional" || result == "failed")
    case _ => false
  }

  predicate SameGrade(row: Row, after: Row)
  {
    after.grade == row.grade && after.gradeComment == row.gradeComment && after.gradedBy == row.gradedBy
    && after.gradedAt == row.gradedAt
  }

  predicate SameResult(row: Row, after: Row)
  {
    after.result == row.result && after.resultComment == row.resultComment && after.completedAt == row.completedAt
  }

  lemma StepLives(c: Ledger.Catalog, b: Board, step: Step, id: int)
    requires id in b.rows
    ensures var after := Apply(c, b, step).rows;
            && id in after && after[id].project == b.rows[id].project
            && (after[id] != b.rows[id] ==> Lives(b.rows[id], after[id], step, id))
  {
    match step
    case GradeStep(_, _, _, _, _, _) => GradeLives(c, b, step, id);
    case CompleteStep(_, _, _, _, _, _, _) => CompleteLives(c, b, step, id);
    case _ =>
  }

  lemma GradeLives(c: Ledger.Catalog, b: Board, step: Step, id: int)
    requires id in b.rows && step.GradeStep?
    ensures var after := Apply(c, b, step).rows;
            && id in after && after[id].project == b.rows[id].project
            && (after[id] != b.rows[id] ==> Lives(b.rows[id], after[id], step, id))
  {
  }

  lemma CompleteLives(c: Ledger.Catalog, b: Board, step: Step, id: int)
    requires id in b.rows && step.CompleteStep?
    ensures var after := Apply(c, b, step).rows;
            && id in after && after[id].project == b.rows[id].project
            && (after[id] != b.rows[id] ==> Lives(b.rows[id], after[id], step, id))
  {
  }

  /** Over any run a row changes only in one of these ways, and its project never. */
  lemma RowsLiveInOrder(c: Ledger.Catalog, b: Board, steps: seq<Step>, i: nat, id: int)
    requires i < |steps| && id in Run(c, b, steps[..i]).rows
    ensures var before, after := Run(c, b, steps[..i]).rows, Run(c, b, steps[..i + 1]).rows;
            && id in after && after[id].project == before[id].project
            && (after[id] != before[id] ==> Lives(before[id], after[id], steps[i], id))
  {
    assert steps[..i + 1][..i] == steps[..i];
    StepLives(c, Run(c, b, steps[..i]), steps[i], id);
  }

  // ----- What one call fires -----

  /** The rows `after` adds to `before` are this project's and carry a prefix of these events. */
  ghost predicate Fired(before: Ledger.Db, after: Ledger.Db, project: int, events: seq<string>)
  {
    && before.history <= after.history
    && |after.history| <= |before.history| + |events|
    && forall j :: |before.history| <= j < |after.history| ==>
         after.history[j].project == project && after.history[j].event == events[j - |before.history|]
  }

  lemma {:induction false} FireAllFires(c: Ledger.Catalog, db: Ledger.Db, project: int, events: seq<string>, actor: int,
                                        comment: string, now: int, served: nat)
    ensures var (after, outcome) := FireAll(c, db, project, events, actor, comment, now, served);
            && outcome != Stayed
            && Fired(db, after, project, events)
            && (outcome == Advanced <==> |after.history| == |db.history| + |events|)
    decreases events
  {
    if events != [] && served != 0 && Ledger.Advance(c, db, project, events[0], actor, comment, now).1 == Ledger.Done {
      var mid := Ledger.Advance(c, db, project, events[0], actor, comment, now).0;
      FireAllFires(c, mid, project, events[1..], actor, comment, now, served - 1);
      var after := FireAll(c, db, project, events, actor, comment, now, served).0;
      assert after.history[|db.history|] == mid.history[|db.history|];
    }
  }

  /** What a call plans, its project being in this phase. */
  lemma AdvancePhaseFires(c: Ledger.Catalog, db: Ledger.Db, project: int, actor: int, comment: string, pass: bool,
                          fromMaterials: bool, now: int, served: nat) returns (phase: Phase)
    ensures phase.Review? || phase.Materials? ==> phase.k == 1 || phase.k == 2
    ensures Fired(db, AdvancePhase(c, db, project, actor, comment, pass, fromMaterials, now, served).0, project,
                  Plan(phase, pass, fromMaterials))
  {
    var (read, context) := Ledger.Submit(c, db, project);
    phase := Elsewhere;
    if context.Some? {
      phase := PhaseOf(context.value.stateName);
      FireAllFires(c, read, project, Plan(phase, pass, fromMaterials), actor, comment, now, served);
    }
  }

  /** All rows a call added belong to one phase, and their gate events to one verdict. */
  ghost predicate OnePhase(before: Ledger.Db, after: Ledger.Db, project: int, pass: bool)
  {
    && before.history <= after.history
    && |after.history| <= |before.history| + 2
    && (FromPhase(before, after, project, 1, pass) || FromPhase(before, after, project, 2, pass))
  }

  ghost predicate FromPhase(before: Ledger.Db, after: Ledger.Db, project: int, k: int, pass: bool)
  {
    forall j :: |before.history| <= j < |after.history| ==>
      && after.history[j].project == project
      && (after.history[j].event == SubmittedEvent(k) || after.history[j].event == GateEvent(k, pass))
  }

  lemma AdvancePhaseIsOnePhase(c: Ledger.Catalog, db: Ledger.Db, project: int, actor: int, comment: string, pass: bool,
                               fromMaterials: bool, now: int, served: nat)
    ensures OnePhase(db, AdvancePhase(c, db, project, actor, comment, pass, fromMaterials, now, served).0, project,
                     pass)
  {
    var phase := AdvancePhaseFires(c, db, project, actor, comment, pass, fromMaterials, now, served);
    var after := AdvancePhase(c, db, project, actor, comment, pass, fromMaterials, now, served).0;
    var k := if phase.Elsewhere? then 1 else phase.k;
    forall e | e in Plan(phase, pass, fromMaterials) ensures e == SubmittedEvent(k) || e == GateEvent(k, pass) {
    }
    assert FromPhase(db, after, project, k, pass);
  }

  /** A grade or a completion fires events of one phase only, and a failing result no passing event. */
  lemma CallsFireOnePhase(c: Ledger.Catalog, b: Board, id: int, actor: int, grade: int, result: string, comment: string,
                          allowResubmission: bool, now: int, f: Faults)
    requires id in b.rows
    ensures OnePhase(b.ledger, Grade(c, b, id, actor, grade, comment, now, f).0.ledger, b.rows[id].project, true)
    ensures OnePhase(b.ledger, Complete(c, b, id, actor, result, comment, allowResubmission, now, f).0.ledger,
                     b.rows[id].project, result != "failed")
  {
    GradeFiresOnePhase(c, b, id, actor, grade, comment, now, f);
    CompleteFiresOnePhase(c, b, id, actor, result, comment, allowResubmission, now, f);
  }

  lemma NothingFired(db: Ledger.Db, project: int, pass: bool)
    ensures OnePhase(db, db, project, pass)
  {
    assert FromPhase(db, db, project, 1, pass);
  }

  lemma GradeFiresOnePhase(c: Ledger.Catalog, b: Board, id: int, actor: int, grade: int, comment: string, now: int,
                           f: Faults)
    requires id in b.rows
    ensures OnePhase(b.ledger, Grade(c, b, id, actor, grade, comment, now, f).0.ledger, b.rows[id].project, true)
  {
    NothingFired(b.ledger, b.rows[id].project, true);
    AdvancePhaseIsOnePhase(c, b.ledger, b.rows[id].project, actor, comment, true, true, now, f.served);
  }

  lemma CompleteFiresOnePhase(c: Ledger.Catalog, b: Board, id: int, actor: int, result: string, comment: string,
                              allowResubmission: bool, now: int, f: Faults)
    requires id in b.rows
    ensures OnePhase(b.ledger, Complete(c, b, id, actor, result, comment, allowResubmission, now, f).0.ledger,
                     b.rows[id].project, result != "failed")
  {
    var project := b.rows[id].project;
    NothingFired(b.ledger, project, result != "failed");
    AdvancePhaseIsOnePhase(c, b.ledger, project, actor, comment, result != "failed", true, now, f.served);
    AdvancePhaseIsOnePhase(c, b.ledger, project, actor, comment, result != "failed", false, now, f.served);
  }

  /** A repeated completion fires at most the gate event of a review state, never a submission. */
  lemma RepeatedCompleteFires(c: Ledger.Catalog, b: Board, id: int, actor: int, result: string, comment: string,
                              allowResubmission: bool, now: int, f: Faults)
    requires Ledger.WellFormed(c) && LedgerRuns.Inv(c, b.ledger)
    requires id in b.rows && b.rows[id].project in b.ledger.projects && IsFinal(b.rows[id].status)
    ensures var before, after := b.ledger,
        Complete(c, b, id, actor, result, comment, allowResubmission, now, f).0.ledger;
            var phase := PhaseOf(before.projects[b.rows[id].project].stateName);
            && before.history <= after.history
            && (after.history == before.history
                || (phase.Review? && |after.history| == |before.history| + 1
                    && after.history[|before.history|].event == GateEvent(phase.k, result != "failed")))
  {
    var before, after := b.ledger, Complete(c, b, id, actor, result, comment, allowResubmission, now, f).0.ledger;
    var project := b.rows[id].project;
    LedgerRuns.SubmitReads(c, before, project);
    var phase := PhaseOf(before.projects[project].stateName);
    if phase.Review? {
      FireAllFires(c, before, project, Plan(phase, result != "failed", false), actor, comment, now, f.served);
      if after.history != before.history {
        assert after == FireAll(c, before, project, Plan(phase, result != "failed", false), actor, comment, now,
                                f.served).0;
      }
    }
  }

  // ----- Retry after a failure between the two events -----

  /** On a sound project the phase is read off the stored state name. */
  lemma PhaseOfProject(c: Ledger.Catalog, db: Ledger.Db, project: int, actor: int, comment: string, pass: bool,
                       fromMaterials: bool, now: int, served: nat)
    requires Ledger.WellFormed(c) && LedgerRuns.Inv(c, db) && project in db.projects
    ensures var events := Plan(PhaseOf(db.projects[project].stateName), pass, fromMaterials);
            AdvancePhase(c, db, project, actor, comment, pass, fromMaterials, now, served)
            == if events == [] then (db, Stayed) else FireAll(c, db, project, events, actor, comment, now, served)
  {
    LedgerRuns.SubmitReads(c, db, project);
  }

  lemma AdvanceStaysSound(c: Ledger.Catalog, db: Ledger.Db, project: int, event: string, actor: int, comment: string,
                          now: int)
    requires Ledger.WellFormed(c) && LedgerRuns.Inv(c, db) && project in db.projects
    ensures var (after, reply) := Ledger.Advance(c, db, project, event, actor, comment, now);
            LedgerRuns.Inv(c, after) && project in after.projects && (reply != Ledger.Done ==> after == db)
  {
    LedgerRuns.StepKeepsInv(c, db, LedgerRuns.AdvanceStep(project, event, actor, comment, now));
  }

  /** The submission event of a phase leads to the phase's review state. */
  ghost predicate SubmissionsLeadToReview(c: Ledger.Catalog)
  {
    forall e, t, k | e in c.edges && t in c.states && (k == 1 || k == 2) ::
      e.event == SubmittedEvent(k) && t.id == e.to ==> PhaseOf(t.name) == Review(k)
  }

  /** An advance by a submission event leaves the project in review of that phase. */
  lemma SubmittedIsInReview(c: Ledger.Catalog, db: Ledger.Db, project: int, k: int, actor: int, comment: string,
                            now: int)
    requires Ledger.WellFormed(c) && LedgerRuns.Inv(c, db) && SubmissionsLeadToReview(c) && project in db.projects
    requires k == 1 || k == 2
    requires Ledger.Advance(c, db, project, SubmittedEvent(k), actor, comment, now).1 == Ledger.Done
    ensures var after := Ledger.Advance(c, db, project, SubmittedEvent(k), actor, comment, now).0;
            && LedgerRuns.Inv(c, after)
            && project in after.projects && PhaseOf(after.projects[project].stateName) == Review(k)
  {
    LedgerRuns.AdvanceFollowsEdge(c, db, project, SubmittedEvent(k), actor, comment, now);
    AdvanceStaysSound(c, db, project, SubmittedEvent(k), actor, comment, now);
  }

  /** The time of an advance only matters to the topic approval. */
  lemma AdvanceIgnoresTime(c: Ledger.Catalog, db: Ledger.Db, project: int, event: string, actor: int, comment: string,
                           t1: int, t2: int)
    requires event != "TOPIC_APPROVED"
    ensures Ledger.Advance(c, db, project, event, actor, comment, t1)
        == Ledger.Advance(c, db, project, event, actor, comment, t2)
  {
  }

  lemma TwoEvents(c: Ledger.Catalog, db: Ledger.Db, project: int, first: string, second: string, actor: int,
                  comment: string, now: int, served: nat)
    ensures var (mid, reply) := Ledger.Advance(c, db, project, first, actor, comment, now);
            && FireAll(c, db, project, [first, second], actor, comment, now, 1) == (mid, Broken)
            && FireAll(c, db, project, [first, second], actor, comment, now, served + 1)
               == if reply != Ledger.Done then (mid, Broken)
                 else FireAll(c, mid, project, [second], actor, comment, now, served)
  {
  }

  /** From a materials state: one pass over both events is the submission event followed by the review's pass. */
  lemma MaterialsSplit(c: Ledger.Catalog, db: Ledger.Db, project: int, actor: int, comment: string, pass: bool,
                       t1: int, t2: int, served: nat)
    requires Ledger.WellFormed(c) && LedgerRuns.Inv(c, db) && SubmissionsLeadToReview(c) && project in db.projects
    requires PhaseOf(db.projects[project].stateName).Materials?
    requires served > 0
    ensures var phase := PhaseOf(db.projects[project].stateName);
            var (mid, reply) := Ledger.Advance(c, db, project, SubmittedEvent(phase.k), actor, comment, t1);
            && AdvancePhase(c, db, project, actor, comment, pass, true, t1, 1) == (mid, Broken)
            && (reply != Ledger.Done ==> mid == db)
            && (reply == Ledger.Done ==>
                  AdvancePhase(c, mid, project, actor, comment, pass, true, t2, served)
                  == AdvancePhase(c, db, project, actor, comment, pass, true, t2, served + 1))
  {
    var k := PhaseOf(db.projects[project].stateName).k;
    var first, gate := SubmittedEvent(k), GateEvent(k, pass);
    PhaseOfProject(c, db, project, actor, comment, pass, true, t1, 1);
    PhaseOfProject(c, db, project, actor, comment, pass, true, t2, served + 1);
    TwoEvents(c, db, project, first, gate, actor, comment, t1, served);
    TwoEvents(c, db, project, first, gate, actor, comment, t2, served);
    AdvanceIgnoresTime(c, db, project, first, actor, comment, t1, t2);
    AdvanceStaysSound(c, db, project, first, actor, comment, t1);
    var (mid, reply) := Ledger.Advance(c, db, project, first, actor, comment, t1);
    if reply == Ledger.Done {
      SubmittedIsInReview(c, db, project, k, actor, comment, t1);
      PhaseOfProject(c, mid, project, actor, comment, pass, true, t2, served);
    }
  }

  /** A completion that fails after its submission event and is retried ends with the rows, the project state and
      the history of one successful call. */
  lemma RetryEqualsSingleCall(c: Ledger.Catalog, b: Board, id: int, actor: int, result: string, comment: string,
                              allowResubmission: bool, t1: int, t2: int, served: nat, notes: bool, saved: bool)
    requires Ledger.WellFormed(c) && LedgerRuns.Inv(c, b.ledger) && SubmissionsLeadToReview(c)
    requires id in b.rows && b.rows[id].project in b.ledger.projects && b.rows[id].status == "graded" && served > 0
    requires PhaseOf(b.ledger.projects[b.rows[id].project].stateName).Materials?
    requires CompletionOf(result, allowResubmission).Some?
    ensures var (failed, reply) := Complete(c, b, id, actor, result, comment, allowResubmission, t1,
                                            Faults(notes, 1, saved));
            && reply == Refused && failed.rows == b.rows
            && (failed.ledger != b.ledger ==>
                  Complete(c, failed, id, actor, result, comment, allowResubmission, t2, Faults(notes, served, saved))
                  == Complete(c, b, id, actor, result, comment, allowResubmission, t2,
                              Faults(notes, served + 1, saved)))
  {
    var plan := CompletionOf(result, allowResubmission).value;
    MaterialsSplit(c, b.ledger, b.rows[id].project, actor, comment, plan.pass, t1, t2, served);
  }

  // ----- A grade that advanced, then completions -----

  /** The passing gates do not lead to a review state. */
  ghost predicate PassesLeaveReview(c: Ledger.Catalog)
  {
    forall e, t, k | e in c.edges && t in c.states && (k == 1 || k == 2) ::
      e.event == GateEvent(k, true) && t.id == e.to ==> !PhaseOf(t.name).Review?
  }

  lemma PassedIsOutsideReview(c: Ledger.Catalog, db: Ledger.Db, project: int, k: int, actor: int, comment: string,
                              now: int)
    requires Ledger.WellFormed(c) && LedgerRuns.Inv(c, db) && PassesLeaveReview(c) && project in db.projects
    requires k == 1 || k == 2
    requires Ledger.Advance(c, db, project, GateEvent(k, true), actor, comment, now).1 == Ledger.Done
    ensures var after := Ledger.Advance(c, db, project, GateEvent(k, true), actor, comment, now).0;
            project in after.projects && !PhaseOf(after.projects[project].stateName).Review?
  {
    LedgerRuns.AdvanceFollowsEdge(c, db, project, GateEvent(k, true), actor, comment, now);
  }

  /** Events that all fired, the last one a passing gate, end outside review in a sound ledger. */
  lemma {:induction false} PassingEndsOutsideReview(c: Ledger.Catalog, db: Ledger.Db, project: int, events: seq<string>,
                                                    k: int, actor: int, comment: string, now: int, served: nat)
    requires Ledger.WellFormed(c) && LedgerRuns.Inv(c, db) && PassesLeaveReview(c) && project in db.projects
    requires (k == 1 || k == 2) && events != [] && events[|events| - 1] == GateEvent(k, true)
    requires FireAll(c, db, project, events, actor, comment, now, served).1 == Advanced
    ensures var after := FireAll(c, db, project, events, actor, comment, now, served).0;
            && LedgerRuns.Inv(c, after)
            && project in after.projects && !PhaseOf(after.projects[project].stateName).Review?
    decreases events
  {
    AdvanceStaysSound(c, db, project, events[0], actor, comment, now);
    var mid := Ledger.Advance(c, db, project, events[0], actor, comment, now).0;
    if |events| > 1 {
      PassingEndsOutsideReview(c, mid, project, events[1..], k, actor, comment, now, served - 1);
    } else {
      PassedIsOutsideReview(c, db, project, k, actor, comment, now);
      assert FireAll(c, mid, project, events[1..], actor, comment, now, served - 1).0 == mid;
    }
  }

  /** Outside review a completed row's completions do nothing. */
  lemma CompleteOutsideReview(c: Ledger.Catalog, b: Board, id: int, actor: int, result: string, comment: string,
                              allowResubmission: bool, now: int, f: Faults)
    requires Ledger.WellFormed(c) && LedgerRuns.Inv(c, b.ledger)
    requires id in b.rows && b.rows[id].project in b.ledger.projects && IsFinal(b.rows[id].status)
    requires !PhaseOf(b.ledger.projects[b.rows[id].project].stateName).Review?
    ensures Complete(c, b, id, actor, result, comment, allowResubmission, now, f).0 == b
  {
    LedgerRuns.SubmitReads(c, b.ledger, b.rows[id].project);
  }

  lemma {:induction false} CompletesOutsideReview(c: Ledger.Catalog, b: Board, id: int, steps: seq<Step>)
    requires Ledger.WellFormed(c) && LedgerRuns.Inv(c, b.ledger)
    requires id in b.rows && b.rows[id].project in b.ledger.projects && IsFinal(b.rows[id].status)
    requires !PhaseOf(b.ledger.projects[b.rows[id].project].stateName).Review?
    requires forall i :: 0 <= i < |steps| ==> steps[i].CompleteStep? && steps[i].id == id
    ensures Run(c, b, steps) == b
  {
    if steps != [] {
      var last := steps[|steps| - 1];
      CompletesOutsideReview(c, b, id, steps[..|steps| - 1]);
      CompleteOutsideReview(c, b, id, last.actor, last.result, last.comment, last.allowResubmission, last.now, last.f);
    }
  }

  lemma GradeEndsOutsideReview(c: Ledger.Catalog, b: Board, id: int, actor: int, grade: int, comment: string, now: int,
                               f: Faults)
    requires Ledger.WellFormed(c) && LedgerRuns.Inv(c, b.ledger) && PassesLeaveReview(c)
    requires id in b.rows && b.rows[id].project in b.ledger.projects && b.rows[id].status == "scheduled"
    ensures var graded := Grade(c, b, id, actor, grade, comment, now, f).0;
            && id in graded.rows && graded.rows[id].project == b.rows[id].project
            && (graded.rows[id].status == "completed" ==>
                  && LedgerRuns.Inv(c, graded.ledger)
                  && b.rows[id].project in graded.ledger.projects
                  && !PhaseOf(graded.ledger.projects[b.rows[id].project].stateName).Review?)
  {
    var project := b.rows[id].project;
    PhaseOfProject(c, b.ledger, project, actor, comment, true, true, now, f.served);
    var phase := PhaseOf(b.ledger.projects[project].stateName);
    var events := Plan(phase, true, true);
    if events != [] && FireAll(c, b.ledger, project, events, actor, comment, now, f.served).1 == Advanced {
      PassingEndsOutsideReview(c, b.ledger, project, events, phase.k, actor, comment, now, f.served);
    }
  }

  /** After a grade that advanced the project, any number of completions of any result leave the project and
      the pre-defense as the grade left them. */
  lemma GradeThenCompletes(c: Ledger.Catalog, b: Board, id: int, actor: int, grade: int, comment: string, now: int,
                           f: Faults, steps: seq<Step>)
    requires Ledger.WellFormed(c) && LedgerRuns.Inv(c, b.ledger) && PassesLeaveReview(c)
    requires id in b.rows && b.rows[id].project in b.ledger.projects && b.rows[id].status == "scheduled"
    requires forall i :: 0 <= i < |steps| ==> steps[i].CompleteStep? && steps[i].id == id
    ensures var graded := Grade(c, b, id, actor, grade, comment, now, f).0;
            id in graded.rows && (graded.rows[id].status == "completed" ==> Run(c, graded, steps) == graded)
  {
    GradeEndsOutsideReview(c, b, id, actor, grade, comment, now, f);
    var graded := Grade(c, b, id, actor, grade, comment, now, f).0;
    if graded.rows[id].status == "completed" {
      CompletesOutsideReview(c, graded, id, steps);
    }
  }

  // ----- When a call moves the project -----

  /** A phase advance moves the project exactly when the phase plans an event the current state has an edge for. */
  lemma PhaseMovesExactly(c: Ledger.Catalog, db: Ledger.Db, project: int, actor: int, comment: string, pass: bool,
                          fromMaterials: bool, now: int, served: nat)
    requires Ledger.WellFormed(c) && LedgerRuns.Inv(c, db) && project in db.projects && served > 0
    ensures AdvancePhase(c, db, project, actor, comment, pass, fromMaterials, now, served).0.history != db.history
            <==> HasNextEvent(c, db.projects[project], pass, fromMaterials)
  {
    var events := Plan(PhaseOf(db.projects[project].stateName), pass, fromMaterials);
    PhaseOfProject(c, db, project, actor, comment, pass, fromMaterials, now, served);
    if events != [] {
      LedgerRuns.AdvanceFollowsEdge(c, db, project, events[0], actor, comment, now);
      var (mid, reply) := Ledger.Advance(c, db, project, events[0], actor, comment, now);
      if reply == Ledger.Done {
        FireAllFires(c, mid, project, events[1..], actor, comment, now, served - 1);
        assert |FireAll(c, mid, project, events[1..], actor, comment, now, served - 1).0.history| > |db.history|;
      }
    }
  }

  /** The project is in a pre-defense phase whose first planned event leaves its current state. */
  ghost predicate HasNextEvent(c: Ledger.Catalog, p: Ledger.Project, pass: bool, fromMaterials: bool)
  {
    var events := Plan(PhaseOf(p.stateName), pass, fromMaterials);
    events != [] && exists e :: e in c.edges && e.workflow == p.workflow && e.event == events[0] && e.from == p.stateId
  }

  lemma AdvancePhaseSound(c: Ledger.Catalog, db: Ledger.Db, project: int, actor: int, comment: string, pass: bool,
                          fromMaterials: bool, now: int, served: nat)
    requires Ledger.WellFormed(c) && LedgerRuns.Inv(c, db) && project in db.projects
    ensures var after := AdvancePhase(c, db, project, actor, comment, pass, fromMaterials, now, served).0;
            LedgerRuns.Inv(c, after) && project in after.projects
  {
    PhaseOfProject(c, db, project, actor, comment, pass, fromMaterials, now, served);
    FireAllSound(c, db, project, Plan(PhaseOf(db.projects[project].stateName), pass, fromMaterials), actor, comment,
                 now, served);
  }

  lemma {:induction false} FireAllSound(c: Ledger.Catalog, db: Ledger.Db, project: int, events: seq<string>, actor: int,
                                        comment: string, now: int, served: nat)
    requires Ledger.WellFormed(c) && LedgerRuns.Inv(c, db) && project in db.projects
    ensures var after := FireAll(c, db, project, events, actor, comment, now, served).0;
            LedgerRuns.Inv(c, after) && project in after.projects
    decreases events
  {
    if events != [] && served != 0 {
      AdvanceStaysSound(c, db, project, events[0], actor, comment, now);
      var (after, reply) := Ledger.Advance(c, db, project, events[0], actor, comment, now);
      if reply == Ledger.Done {
        FireAllSound(c, after, project, events[1..], actor, comment, now, served - 1);
      }
    }
  }
}
