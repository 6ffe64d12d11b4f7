/** Where every verdict leads on the seeded workflow (db/migrations/000016_review_config_and_transitions.up.sql). */
module PreDefenseSeeded {
  import opened Wrappers
  import opened PreDefense
  import opened PreDefenseHazards
  import PreDefenseDoubleClick
  import PreDefenseRuns
  import Ledger

  /** The pre-defense states in order: materials and review of the first, materials and review of the second. */
  predicate Stands(db: Ledger.Db, project: int, m: nat) { m <= 3 && At(db, project, SEEDED.states[m]) }

  /** A failed pre-defense goes back to its own materials; a passed one goes on to the second, then to norm control. */
  function Target(m: nat, pass: bool): Ledger.WfState
  {
    if pass then if m <= 1 then MATERIALS_2 else NORM_CONTROL else if m <= 1 then MATERIALS_1 else MATERIALS_2
  }

  function Gate(m: nat, pass: bool): string
  {
    if m <= 1 then if pass then "PREDEFENSE1_PASSED" else "PREDEFENSE1_FAILED"
    else if pass then "PREDEFENSE2_PASSED" else "PREDEFENSE2_FAILED"
  }

  /** The events a call fires on its way: from the materials the submission first. */
  function Path(m: nat, pass: bool): seq<string>
  {
    if m == 0 then ["PREDEFENSE1_SUBMITTED", Gate(m, pass)]
    else if m == 2 then ["PREDEFENSE2_SUBMITTED", Gate(m, pass)]
    else [Gate(m, pass)]
  }

  // ----- The edges -----

  lemma SecondReview()
    ensures PhaseOf("PRE_DEFENSE_2_REVIEW") == Review(2)
  {
    var s := "PRE_DEFENSE_2_REVIEW";
    PlainName(s);
    NamesDiffer();
    ContainsNeedsRoom(s, "PRE_DEFENSE_1_REVIEW");
  }

  lemma FromReview2Fails(db: Ledger.Db, project: int, actor: int, comment: string, now: int)
    requires At(db, project, REVIEW_2)
    ensures var (after, reply) := Ledger.Advance(SEEDED, db, project, "PREDEFENSE2_FAILED", actor, comment, now);
            reply == Ledger.Done && After(db, after, project, "PREDEFENSE2_FAILED", MATERIALS_2)
  {
    NamesDiffer();
    PlainName("PRE_DEFENSE_2");
    AdvanceAlong(SEEDED, db, project, 5, 3, 2, actor, comment, now);
  }

  /** The gate of a review state. */
  lemma GateLeads(db: Ledger.Db, project: int, m: nat, pass: bool, actor: int, comment: string, now: int)
    requires (m == 1 || m == 3) && Stands(db, project, m)
    ensures var (after, reply) := Ledger.Advance(SEEDED, db, project, Gate(m, pass), actor, comment, now);
            reply == Ledger.Done && After(db, after, project, Gate(m, pass), Target(m, pass))
  {
    if m == 1 {
      if pass {
        FromReview1(db, project, actor, comment, now);
      } else {
        PreDefenseDoubleClick.FromReview1Fails(db, project, actor, comment, now);
      }
    } else if pass {
      FromReview2(db, project, actor, comment, now);
    } else {
      FromReview2Fails(db, project, actor, comment, now);
    }
  }

  /** The submission event of a materials state. */
  lemma SubmissionLeads(db: Ledger.Db, project: int, m: nat, pass: bool, actor: int, comment: string, now: int)
    requires (m == 0 || m == 2) && Stands(db, project, m)
    ensures var (after, reply) := Ledger.Advance(SEEDED, db, project, Path(m, pass)[0], actor, comment, now);
            reply == Ledger.Done && After(db, after, project, Path(m, pass)[0], SEEDED.states[m + 1])
  {
    if m == 0 {
      PreDefenseDoubleClick.FromMaterials1(db, project, actor, comment, now);
    } else {
      FromMaterials2(db, project, actor, comment, now);
    }
  }

  lemma Phases(m: nat)
    requires m <= 3
    ensures PhaseOf(SEEDED.states[m].name) == if m == 0 then Materials(1) else if m == 1 then Review(1)
                                              else if m == 2 then Materials(2) else Review(2)
  {
    if m == 0 {
      PreDefenseDoubleClick.FirstMaterials();
    } else if m == 1 {
      FirstReview();
    } else if m == 2 {
      SecondMaterials();
    } else {
      SecondReview();
    }
  }

  // ----- A whole advance -----

  lemma OneEvent(c: Ledger.Catalog, db: Ledger.Db, project: int, event: string, actor: int, comment: string, now: int,
                 served: nat)
    requires served > 0 && Ledger.Advance(c, db, project, event, actor, comment, now).1 == Ledger.Done
    ensures FireAll(c, db, project, [event], actor, comment, now, served)
            == (Ledger.Advance(c, db, project, event, actor, comment, now).0, Advanced)
  {
    var after := Ledger.Advance(c, db, project, event, actor, comment, now).0;
    assert [event][1..] == [];
    assert FireAll(c, after, project, [], actor, comment, now, served - 1) == (after, Advanced);
  }

  lemma ReviewFires(db: Ledger.Db, project: int, m: nat, pass: bool, actor: int, comment: string, now: int, served: nat)
    requires (m == 1 || m == 3) && Stands(db, project, m) && served > 0
    ensures var (after, outcome) := FireAll(SEEDED, db, project, [Gate(m, pass)], actor, comment, now, served);
            && outcome == Advanced && At(after, project, Target(m, pass))
            && Events(after) == Events(db) + [Gate(m, pass)]
  {
    GateLeads(db, project, m, pass, actor, comment, now);
    OneEvent(SEEDED, db, project, Gate(m, pass), actor, comment, now, served);
  }

  lemma MaterialsFire(db: Ledger.Db, project: int, m: nat, pass: bool, actor: int, comment: string, now: int,
                      served: nat)
    requires (m == 0 || m == 2) && Stands(db, project, m) && served > 1
    ensures var (after, outcome) := FireAll(SEEDED, db, project, Path(m, pass), actor, comment, now, served);
            && outcome == Advanced && At(after, project, Target(m, pass))
            && Events(after) == Events(db) + Path(m, pass)
  {
    SubmissionLeads(db, project, m, pass, actor, comment, now);
    var mid := Ledger.Advance(SEEDED, db, project, Path(m, pass)[0], actor, comment, now).0;
    ReviewFires(mid, project, m + 1, pass, actor, comment, now, served - 1);
    assert Path(m, pass) == [Path(m, pass)[0], Gate(m + 1, pass)];
    PreDefenseRuns.TwoEvents(SEEDED, db, project, Path(m, pass)[0], Gate(m + 1, pass), actor, comment, now, served - 1);
  }

  /** A whole phase advance, from any pre-defense state with any verdict. */
  lemma PhaseLeads(db: Ledger.Db, project: int, m: nat, pass: bool, fromMaterials: bool, actor: int, comment: string,
                   now: int, served: nat)
    requires Stands(db, project, m) && served > 1 && (fromMaterials || m == 1 || m == 3)
    ensures var (after, outcome) := AdvancePhase(SEEDED, db, project, actor, comment, pass, fromMaterials, now, served);
            && outcome == Advanced && At(after, project, Target(m, pass))
            && Events(after) == Events(db) + Path(m, pass)
  {
    SeededRead(db, project, m);
    Phases(m);
    var plan := Plan(PhaseOf(SEEDED.states[m].name), pass, fromMaterials);
    assert plan == Path(m, pass);
    if m == 1 || m == 3 {
      ReviewFires(db, project, m, pass, actor, comment, now, served);
    } else {
      MaterialsFire(db, project, m, pass, actor, comment, now, served);
    }
  }

  // ----- The calls -----

  /** A completion of a graded row with nothing lost: a failed one leaves the project in the materials state of its own
      phase, a passed or conditional one in the next, and the row is final with the result's status. */
  lemma CompletionLeads(b: Board, id: int, m: nat, actor: int, result: string, comment: string, allowResubmission: bool,
                        now: int, f: Faults)
    requires id in b.rows && b.rows[id].status == "graded" && Stands(b.ledger, b.rows[id].project, m)
    requires result in {"passed", "conditional", "failed"} && f.served > 1 && f.saved
    ensures var project, pass := b.rows[id].project, result != "failed";
            var (e, reply) := Complete(SEEDED, b, id, actor, result, comment, allowResubmission, now, f);
            && reply == Done
            && At(e.ledger, project, Target(m, pass)) && Events(e.ledger) == Events(b.ledger) + Path(m, pass)
            && id in e.rows && e.rows - {id} == b.rows - {id}
            && var row := e.rows[id];
               && row.result == result && row.resultComment == comment && row.completedAt == Some(now)
               && row.grade == b.rows[id].grade && row.project == project
               && row.status == (if result == "passed" then "completed"
                                 else if result == "conditional" then "conditional"
                                 else if allowResubmission then "failed_resubmit" else "failed")
  {
    PhaseLeads(b.ledger, b.rows[id].project, m, result != "failed", true, actor, comment, now, f.served);
  }

  /** A grade with nothing lost passes the pre-defense and completes its row. */
  lemma GradeLeads(b: Board, id: int, m: nat, actor: int, grade: int, comment: string, now: int, f: Faults)
    requires id in b.rows && b.rows[id].status == "scheduled" && Stands(b.ledger, b.rows[id].project, m)
    requires f.notes && f.served > 1 && f.saved
    ensures var project := b.rows[id].project;
            var (e, reply) := Grade(SEEDED, b, id, actor, grade, comment, now, f);
            && reply == Done
            && At(e.ledger, project, Target(m, true)) && Events(e.ledger) == Events(b.ledger) + Path(m, true)
            && id in e.rows && e.rows - {id} == b.rows - {id}
            && var row := e.rows[id];
               && row.status == "completed" && row.result == "passed" && row.resultComment == comment
               && row.grade == Some(grade) && row.gradeComment == comment && row.gradedBy == Some(actor)
               && row.gradedAt == row.completedAt == Some(now) && row.project == project
  {
    PhaseLeads(b.ledger, b.rows[id].project, m, true, true, actor, comment, now, f.served);
  }

  /** A repeated completion of a final row of the same result recovers a project stuck in review, and leaves the row. */
  lemma RecoveryLeads(b: Board, id: int, m: nat, actor: int, comment: string, allowResubmission: bool, now: int,
                      f: Faults)
    requires id in b.rows && IsFinal(b.rows[id].status) && b.rows[id].result in {"passed", "conditional", "failed"}
    requires (m == 1 || m == 3) && Stands(b.ledger, b.rows[id].project, m) && f.served > 1
    ensures var row := b.rows[id];
            var (e, reply) := Complete(SEEDED, b, id, actor, row.result, comment, allowResubmission, now, f);
            && reply == Done && e.rows == b.rows
            && At(e.ledger, row.project, Target(m, row.result != "failed"))
            && Events(e.ledger) == Events(b.ledger) + [Gate(m, row.result != "failed")]
  {
    PhaseLeads(b.ledger, b.rows[id].project, m, b.rows[id].result != "failed", false, actor, comment, now, f.served);
  }
}
