/** Pre-defense scheduling, grading and completion (internal/admin/service_pre_defense.go) on top of the
    project ledger. Each call makes several separate writes, and `Faults` says which of them fail. */
module PreDefense {
  import opened Wrappers
  import Text
  import Ledger

  datatype Row = Row(project: int, status: string, result: string, resultComment: string, grade: Option<int>,
                     gradeComment: string, gradedBy: Option<int>, gradedAt: Option<int>, completedAt: Option<int>,
                     scheduledDate: Option<int>, location: string)
  datatype Board = Board(rows: map<int, Row>, ledger: Ledger.Db)

  /** `notes`: the member grades and the note of a grade are written; `served`: how many workflow transactions
      succeed before the database fails one; `saved`: the row's final save succeeds. */
  datatype Faults = Faults(notes: bool, served: nat, saved: bool)

  datatype Reply = Done | NotFound | Refused | InvalidResult | Internal

  // ----- Phases and events -----

  datatype Phase = Review(k: int) | Materials(k: int) | Elsewhere

  /** The phase a state name belongs to, tested in the source's order. */
  function PhaseOf(stateName: string): Phase
  {
    var state := Text.Upper(Text.TrimSpace(stateName));
    if Text.Contains(state, "PRE_DEFENSE_1_REVIEW") then Review(1)
    else if Text.Contains(state, "PRE_DEFENSE_2_REVIEW") then Review(2)
    else if Text.Contains(state, "PRE_DEFENSE_1") then Materials(1)
    else if Text.Contains(state, "PRE_DEFENSE_2") then Materials(2)
    else Elsewhere
  }

  function SubmittedEvent(k: int): string { if k == 1 then "PREDEFENSE1_SUBMITTED" else "PREDEFENSE2_SUBMITTED" }

  function GateEvent(k: int, pass: bool): (event: string)
    ensures k == 1 ==> event == if pass then "PREDEFENSE1_PASSED" else "PREDEFENSE1_FAILED"
    ensures k == 2 ==> event == if pass then "PREDEFENSE2_PASSED" else "PREDEFENSE2_FAILED"
  {
    if k == 1 && pass then "PREDEFENSE1_PASSED"
    else if k == 1 then "PREDEFENSE1_FAILED"
    else if k == 2 && pass then "PREDEFENSE2_PASSED"
    else "PREDEFENSE2_FAILED"
  }

  /** The events one call fires from a phase. */
  function Plan(phase: Phase, pass: bool, fromMaterials: bool): seq<string>
  {
    match phase
    case Review(k) => [GateEvent(k, pass)]
    case Materials(k) => if fromMaterials then [SubmittedEvent(k), GateEvent(k, pass)] else []
    case Elsewhere => []
  }

  datatype Outcome = Advanced | Stayed | Broken

  /** The events in turn, each one transaction, until one fails. */
  function FireAll(c: Ledger.Catalog, db: Ledger.Db, project: int, events: seq<string>, actor: int, comment: string,
                   now: int, served: nat): (Ledger.Db, Outcome)
    decreases events
  {
    if events == [] then (db, Advanced)
    else if served == 0 then (db, Broken)
    else
      var (after, reply) := Ledger.Advance(c, db, project, events[0], actor, comment, now);
      if reply != Ledger.Done then (after, Broken)
      else FireAll(c, after, project, events[1..], actor, comment, now, served - 1)
  }

  /** advancePreDefenseCurrentPhase. */
  function AdvancePhase(c: Ledger.Catalog, db: Ledger.Db, project: int, actor: int, comment: string, pass: bool,
                        fromMaterials: bool, now: int, served: nat): (Ledger.Db, Outcome)
  {
    var (read, context) := Ledger.Submit(c, db, project);
    if context.None? then (read, Broken)
    else
      var events := Plan(PhaseOf(context.value.stateName), pass, fromMaterials);
      if events == [] then (read, Stayed) else FireAll(c, read, project, events, actor, comment, now, served)
  }

  // ----- The calls -----

  predicate IsFinal(status: string)
  {
    status == "completed" || status == "conditional" || status == "failed" || status == "failed_resubmit"
  }

  datatype CompletionPlan = CompletionPlan(status: string, pass: bool)

  /** buildPreDefenseCompletionPlan, without the status of the ordinary submission. */
  function CompletionOf(result: string, allowResubmission: bool): Option<CompletionPlan>
  {
    if result == "passed" then Some(CompletionPlan("completed", true))
    else if result == "conditional" then Some(CompletionPlan("conditional", true))
    else if result == "failed"
        then Some(CompletionPlan(if allowResubmission then "failed_resubmit" else "failed", false))
    else None
  }

  function Schedule(b: Board, id: int, date: int, location: string): (Board, Reply)
  {
    if id !in b.rows then (b, NotFound)
    else if b.rows[id].status != "pending" && b.rows[id].status != "rescheduled" then (b, Refused)
    else (b.(rows := b.rows[id := b.rows[id].(scheduledDate := Some(date), location := location,
                                              status := "scheduled")]), Done)
  }

  function Reschedule(b: Board, id: int, date: int, location: string): (Board, Reply)
  {
    if id !in b.rows then (b, NotFound)
    else if b.rows[id].status != "scheduled" then (b, Refused)
    else (b.(rows := b.rows[id := b.rows[id].(scheduledDate := Some(date),
                                              location := if location != "" then location
                                                else b.rows[id].location)]), Done)
  }

  function Graded(row: Row, actor: int, grade: int, comment: string, now: int): Row
  {
    row.(status := "graded", grade := Some(grade), gradeComment := comment, gradedBy := Some(actor),
         gradedAt := Some(now))
  }

  function Completed(row: Row, status: string, result: string, comment: string, now: int): Row
  {
    row.(status := status, result := result, resultComment := comment, completedAt := Some(now))
  }

  /** GradePreDefense: a grade advances the project, and a project that moved completes the row as passed. */
  function Grade(c: Ledger.Catalog, b: Board, id: int, actor: int, grade: int, comment: string, now: int,
                 f: Faults): (Board, Reply)
  {
    if id !in b.rows then (b, NotFound)
    else if b.rows[id].status != "scheduled" then (b, Refused)
    else
      var row := Graded(b.rows[id], actor, grade, comment, now);
      var graded := b.(rows := b.rows[id := row]);
      if !f.notes then (graded, Internal)
      else
        var (ledger, outcome) := AdvancePhase(c, b.ledger, row.project, actor, comment, true, true, now, f.served);
        var moved := graded.(ledger := ledger);
        if outcome != Advanced then (moved, Done)
        else if !f.saved then (moved, Internal)
        else (moved.(rows := b.rows[id := Completed(row, "completed", "passed", comment, now)]), Done)
  }

  /** CompletePreDefense: on a final row only the recovery of a project stuck in review. */
  function Complete(c: Ledger.Catalog, b: Board, id: int, actor: int, result: string, comment: string,
                    allowResubmission: bool, now: int, f: Faults): (Board, Reply)
  {
    if id !in b.rows then (b, NotFound)
    else
      var row, plan := b.rows[id], CompletionOf(result, allowResubmission);
      if plan.None? then (b, InvalidResult)
      else if IsFinal(row.status) then
        if row.result != "" && row.result != result then (b, Refused)
        else (b.(ledger := AdvancePhase(c, b.ledger, row.project, actor, comment, plan.value.pass, false, now,
                                        f.served).0), Done)
      else if row.status != "graded" then (b, Refused)
      else
        var (ledger, outcome) := AdvancePhase(c, b.ledger, row.project, actor, comment, plan.value.pass, true, now,
                                              f.served);
        var moved := b.(ledger := ledger);
        if outcome == Broken then (moved, Refused)
        else if !f.saved then (moved, Internal)
        else (moved.(rows := b.rows[id := Completed(row, plan.value.status, result, comment, now)]), Done)
  }

  // ----- The tables in place -----

  class Service {
    var rows: map<int, Row>
    var ledger: Ledger.Db

    ghost function Value(): Board
      reads this
    {
      Board(rows, ledger)
    }

    method SchedulePreDefense(id: int, date: int, location: string) returns (reply: Reply)
      modifies this
      ensures (Value(), reply) == Schedule(old(Value()), id, date, location)
    {
      if id !in rows {
        return NotFound;
      }
      var row := rows[id];
      if row.status != "pending" && row.status != "rescheduled" {
        return Refused;
      }
      row := row.(scheduledDate := Some(date), location := location);
      rows := rows[id := row.(status := "scheduled")];
      reply := Done;
    }

    method ReschedulePreDefense(id: int, date: int, location: string) returns (reply: Reply)
      modifies this
      ensures (Value(), reply) == Reschedule(old(Value()), id, date, location)
    {
      if id !in rows {
        return NotFound;
      }
      var row := rows[id];
      if row.status != "scheduled" {
        return Refused;
      }
      row := row.(scheduledDate := Some(date));
      if location != "" {
        row := row.(location := location);
      }
      rows := rows[id := row];
      reply := Done;
    }

    method AdvanceCurrentPhase(c: Ledger.Catalog, project: int, actor: int, comment: string, pass: bool,
                               fromMaterials: bool, now: int, served: nat) returns (outcome: Outcome)
      modifies this`ledger
      ensures (ledger, outcome)
          == AdvancePhase(c, old(ledger), project, actor, comment, pass, fromMaterials, now, served)
    {
      var (read, context) := Ledger.Submit(c, ledger, project);
      ledger := read;
      if context.None? {
        return Broken;
      }
      var events := Plan(PhaseOf(context.value.stateName), pass, fromMaterials);
      if events == [] {
        return Stayed;
      }
      outcome := FireEvents(c, project, events, actor, comment, now, served);
    }

    method FireEvents(c: Ledger.Catalog, project: int, events: seq<string>, actor: int, comment: string, now: int,
                      served: nat)
      returns (outcome: Outcome)
      modifies this`ledger
      ensures (ledger, outcome) == FireAll(c, old(ledger), project, events, actor, comment, now, served)
    {
      var i := 0;
      while i < |events|
        invariant 0 <= i <= |events| && i <= served
        invariant FireAll(c, old(ledger), project, events, actor, comment, now, served)
                  == FireAll(c, ledger, project, events[i..], actor, comment, now, served - i)
      {
        if i == served {
          return Broken;
        }
        assert events[i..][1..] == events[i + 1..];
        var (after, reply) := Ledger.Advance(c, ledger, project, events[i], actor, comment, now);
        ledger := after;
        if reply != Ledger.Done {
          return Broken;
        }
        i := i + 1;
      }
      outcome := Advanced;
    }

    method GradePreDefense(c: Ledger.Catalog, id: int, actor: int, grade: int, comment: string, now: int, f: Faults)
      returns (reply: Reply)
      modifies this
      ensures (Value(), reply) == Grade(c, old(Value()), id, actor, grade, comment, now, f)
    {
      if id !in rows {
        return NotFound;
      }
      var row := rows[id];
      if row.status != "scheduled" {
        return Refused;
      }
      row := row.(status := "graded", grade := Some(grade), gradeComment := comment, gradedBy := Some(actor),
                  gradedAt := Some(now));
      rows := rows[id := row];
      if !f.notes {
        return Internal;
      }
      var outcome := AdvanceCurrentPhase(c, row.project, actor, comment, true, true, now, f.served);
      if outcome != Advanced {
        return Done;
      }
      if !f.saved {
        return Internal;
      }
      row := row.(status := "completed", result := "passed", resultComment := comment, completedAt := Some(now));
      rows := rows[id := row];
      assert rows == old(rows)[id := row];
      reply := Done;
    }

    method CompletePreDefense(c: Ledger.Catalog, id: int, actor: int, result: string, comment: string,
                              allowResubmission: bool, now: int, f: Faults) returns (reply: Reply)
      modifies this
      ensures (Value(), reply) == Complete(c, old(Value()), id, actor, result, comment, allowResubmission, now, f)
    {
      if id !in rows {
        return NotFound;
      }
      var row := rows[id];
      var plan := CompletionOf(result, allowResubmission);
      if plan.None? {
        return InvalidResult;
      }
      if IsFinal(row.status) {
        if row.result != "" && row.result != result {
          return Refused;
        }
        var _ := AdvanceCurrentPhase(c, row.project, actor, comment, plan.value.pass, false, now, f.served);
        return Done;
      }
      if row.status != "graded" {
        return Refused;
      }
      var outcome := AdvanceCurrentPhase(c, row.project, actor, comment, plan.value.pass, true, now, f.served);
      if outcome == Broken {
        return Refused;
      }
      if !f.saved {
        return Internal;
      }
      row := row.(result := result, resultComment := comment, completedAt := Some(now));
      rows := rows[id := row.(status := plan.value.status)];
      reply := Done;
    }
  }
}
