/** Two interleaved completions of one row on the seeded workflow, with no write lost. */
module PreDefenseDoubleClick {
  import opened Wrappers
  import opened PreDefense
  import opened PreDefenseCalls
  import opened H = PreDefenseHazards
  import Ledger

  // ----- A call from the stored state -----

  /** A completion that has read a row of the project and nothing else. */
  predicate Begun(d: Desk, call: int, project: int, pass: bool)
  {
    && call in d.calls
    && var k := d.calls[call];
       && k.open && k.phase.None? && k.rows == [] && k.pass == pass && !k.recovery && !k.grading
       && k.copy.project == project
  }

  /** The same with its phase read. */
  predicate Read(d: Desk, call: int, project: int, pass: bool, phase: Phase, fired: nat)
  {
    && call in d.calls
    && var k := d.calls[call];
       && k.open && k.phase == Some(phase) && |k.rows| == fired && k.pass == pass && !k.recovery && !k.grading
       && k.copy.project == project
  }

  lemma Reads(d: Desk, call: int, project: int, pass: bool, m: nat)
    requires Begun(d, call, project, pass) && m <= 3 && At(d.board.ledger, project, SEEDED.states[m])
    ensures var e := Apply(SEEDED, d, PhaseStep(call));
            && Read(e, call, project, pass, PhaseOf(SEEDED.states[m].name), 0)
            && e.board == d.board && e.calls == d.calls[call := e.calls[call]]
            && e.calls[call].id == d.calls[call].id && e.calls[call].copy == d.calls[call].copy
            && e.calls[call].status == d.calls[call].status && e.calls[call].result == d.calls[call].result
  {
    SeededRead(d.board.ledger, project, m);
  }

  /** An event step whose event leads to a state. */
  lemma Fires(d: Desk, call: int, project: int, pass: bool, phase: Phase, fired: nat, now: int, s: Ledger.WfState)
    requires Read(d, call, project, pass, phase, fired) && fired < |Plan(phase, pass, true)|
    requires var event := Plan(phase, pass, true)[fired];
             var (after, reply) := Ledger.Advance(SEEDED, d.board.ledger, project, event, d.calls[call].actor,
                                                  d.calls[call].comment, now);
             reply == Ledger.Done && After(d.board.ledger, after, project, event, s)
    ensures var e := Apply(SEEDED, d, EventStep(call, now));
            && Read(e, call, project, pass, phase, fired + 1)
            && e.board.rows == d.board.rows && e.calls == d.calls[call := e.calls[call]]
            && e.calls[call] == d.calls[call].(rows := e.calls[call].rows)
            && After(d.board.ledger, e.board.ledger, project, Plan(phase, pass, true)[fired], s)
  {
  }

  // ----- The double click -----

  /** The desk after both calls have read the graded row. */
  function Clicked(db: Ledger.Db, row: Row, actor: int, result: string, comment: string): Desk
  {
    var d := Desk(Board(map[1 := row], db), map[]);
    var one := Apply(SEEDED, d, CompleteStep(1, 1, actor, result, comment, false));
    Apply(SEEDED, one, CompleteStep(2, 1, actor, result, comment, false))
  }

  lemma BothBegun(db: Ledger.Db, row: Row, actor: int, result: string, comment: string)
    requires row.status == "graded" && CompletionOf(result, false).Some?
    ensures var d := Clicked(db, row, actor, result, comment);
            && d.board == Board(map[1 := row], db)
            && Begun(d, 1, row.project, result != "failed") && Begun(d, 2, row.project, result != "failed")
            && d.calls[1].id == 1 && d.calls[1].copy == row && d.calls[1].result == result
            && d.calls[1].status == CompletionOf(result, false).value.status
  {
  }

  /** The first click: one completion of a row in the first review, served in full. */
  function FirstClick(d: Desk, now: int): Desk
  {
    Apply(SEEDED, Apply(SEEDED, Apply(SEEDED, d, PhaseStep(1)), EventStep(1, now)), SaveStep(1, now))
  }

  /** The save of a call that has fired its one event. */
  lemma SavesAfter(d: Desk, call: int, project: int, pass: bool, k: int, now: int)
    requires Read(d, call, project, pass, Review(k), 1)
    ensures var e := Apply(SEEDED, d, SaveStep(call, now));
            && e.board == Board(d.board.rows[d.calls[call].id := d.calls[call].Saved(now)], d.board.ledger)
            && e.calls == d.calls[call := d.calls[call].(open := false)]
  {
    assert Plan(Review(k), pass, true) == [GateEvent(k, pass)];
    assert d.calls[call].Saves();
  }

  lemma ReadsReview1(d: Desk, call: int, project: int, pass: bool)
    requires Begun(d, call, project, pass) && At(d.board.ledger, project, REVIEW_1)
    ensures var e := Apply(SEEDED, d, PhaseStep(call));
            && Read(e, call, project, pass, Review(1), 0) && e.board == d.board
            && e.calls == d.calls[call := e.calls[call]]
            && e.calls[call].id == d.calls[call].id && e.calls[call].status == d.calls[call].status
  {
    FirstReview();
    assert SEEDED.states[1] == REVIEW_1;
    Reads(d, call, project, pass, 1);
  }

  lemma FirstClickReads(d: Desk, project: int)
    requires Begun(d, 1, project, true) && Begun(d, 2, project, true) && At(d.board.ledger, project, REVIEW_1)
    ensures var e := Apply(SEEDED, d, PhaseStep(1));
            && e.board == d.board && Read(e, 1, project, true, Review(1), 0) && Begun(e, 2, project, true)
            && e.calls[1].id == d.calls[1].id && e.calls[1].status == d.calls[1].status
  {
    ReadsReview1(d, 1, project, true);
  }

  lemma FirstClickFires(d: Desk, project: int, now: int)
    requires Read(d, 1, project, true, Review(1), 0) && Begun(d, 2, project, true)
    requires At(d.board.ledger, project, REVIEW_1)
    ensures var e := Apply(SEEDED, d, EventStep(1, now));
            && After(d.board.ledger, e.board.ledger, project, "PREDEFENSE1_PASSED", MATERIALS_2)
            && Read(e, 1, project, true, Review(1), 1) && Begun(e, 2, project, true)
            && e.calls[1].id == d.calls[1].id && e.calls[1].status == d.calls[1].status
  {
    assert Plan(Review(1), true, true) == [GateEvent(1, true)];
    FromReview1(d.board.ledger, project, d.calls[1].actor, d.calls[1].comment, now);
    Fires(d, 1, project, true, Review(1), 0, now, MATERIALS_2);
  }

  lemma FirstClickPasses(d: Desk, project: int, now: int)
    requires Begun(d, 1, project, true) && Begun(d, 2, project, true) && At(d.board.ledger, project, REVIEW_1)
    ensures var e := FirstClick(d, now);
            && After(d.board.ledger, e.board.ledger, project, "PREDEFENSE1_PASSED", MATERIALS_2)
            && Begun(e, 2, project, true)
            && d.calls[1].id in e.board.rows && e.board.rows[d.calls[1].id].status == d.calls[1].status
  {
    FirstClickReads(d, project);
    FirstClickFires(Apply(SEEDED, d, PhaseStep(1)), project, now);
    SavesAfter(Apply(SEEDED, Apply(SEEDED, d, PhaseStep(1)), EventStep(1, now)), 1, project, true, 1, now);
  }

  function SecondClick(d: Desk, now: int): Desk
  {
    Apply(SEEDED, Apply(SEEDED, Apply(SEEDED, d, PhaseStep(2)), EventStep(2, now)), EventStep(2, now))
  }

  lemma SecondClickPasses(d: Desk, project: int, now: int)
    requires Begun(d, 2, project, true) && At(d.board.ledger, project, MATERIALS_2)
    ensures var e := SecondClick(d, now);
            && At(e.board.ledger, project, NORM_CONTROL)
            && Events(e.board.ledger) == Events(d.board.ledger) + ["PREDEFENSE2_SUBMITTED", "PREDEFENSE2_PASSED"]
  {
    SecondMaterials();
    Reads(d, 2, project, true, 2);
    SecondClickFires(Apply(SEEDED, d, PhaseStep(2)), project, now);
  }

  lemma SecondClickFires(d: Desk, project: int, now: int)
    requires Read(d, 2, project, true, Materials(2), 0) && At(d.board.ledger, project, MATERIALS_2)
    ensures var e := Apply(SEEDED, Apply(SEEDED, d, EventStep(2, now)), EventStep(2, now));
            && At(e.board.ledger, project, NORM_CONTROL)
            && Events(e.board.ledger) == Events(d.board.ledger) + ["PREDEFENSE2_SUBMITTED", "PREDEFENSE2_PASSED"]
  {
    FromMaterials2(d.board.ledger, project, d.calls[2].actor, d.calls[2].comment, now);
    Fires(d, 2, project, true, Materials(2), 0, now, REVIEW_2);
    var mid := Apply(SEEDED, d, EventStep(2, now));
    FromReview2(mid.board.ledger, project, mid.calls[2].actor, mid.calls[2].comment, now);
    Fires(mid, 2, project, true, Materials(2), 1, now, NORM_CONTROL);
  }

  /** Two "passed" completions read one graded row; the first goes through in full, the second reads its phase after it.
      The project ends in norm control with the gate events of both phases, and the second pre-defense was never
      held. */
  lemma DoubleClickSkips(db: Ledger.Db, row: Row, actor: int, comment: string, t1: int, t2: int)
    requires At(db, row.project, REVIEW_1) && row.status == "graded"
    ensures var e := SecondClick(FirstClick(Clicked(db, row, actor, "passed", comment), t1), t2);
            && At(e.board.ledger, row.project, NORM_CONTROL)
            && Events(e.board.ledger)
               == Events(db) + ["PREDEFENSE1_PASSED", "PREDEFENSE2_SUBMITTED", "PREDEFENSE2_PASSED"]
  {
    var d := Clicked(db, row, actor, "passed", comment);
    BothBegun(db, row, actor, "passed", comment);
    FirstClickPasses(d, row.project, t1);
    SecondClickPasses(FirstClick(d, t1), row.project, t2);
  }

  // ----- A phase read early -----

  lemma FirstMaterials()
    ensures PhaseOf("PRE_DEFENSE_1") == Materials(1)
  {
    var s := "PRE_DEFENSE_1";
    PlainName(s);
    ContainsNeedsRoom(s, "PRE_DEFENSE_1_REVIEW");
    ContainsNeedsRoom(s, "PRE_DEFENSE_2_REVIEW");
  }

  lemma FromMaterials1(db: Ledger.Db, project: int, actor: int, comment: string, now: int)
    requires At(db, project, MATERIALS_1)
    ensures var (after, reply) := Ledger.Advance(SEEDED, db, project, "PREDEFENSE1_SUBMITTED", actor, comment, now);
            reply == Ledger.Done && After(db, after, project, "PREDEFENSE1_SUBMITTED", REVIEW_1)
  {
    PlainName("PRE_DEFENSE_1_REVIEW");
    AdvanceAlong(SEEDED, db, project, 0, 0, 1, actor, comment, now);
  }

  lemma FromReview1Fails(db: Ledger.Db, project: int, actor: int, comment: string, now: int)
    requires At(db, project, REVIEW_1)
    ensures var (after, reply) := Ledger.Advance(SEEDED, db, project, "PREDEFENSE1_FAILED", actor, comment, now);
            reply == Ledger.Done && After(db, after, project, "PREDEFENSE1_FAILED", MATERIALS_1)
  {
    NamesDiffer();
    PlainName("PRE_DEFENSE_1");
    AdvanceAlong(SEEDED, db, project, 2, 1, 0, actor, comment, now);
  }

  function BothRead(d: Desk): Desk { Apply(SEEDED, Apply(SEEDED, d, PhaseStep(1)), PhaseStep(2)) }

  function FirstFails(d: Desk, now: int): Desk
  {
    Apply(SEEDED, Apply(SEEDED, d, EventStep(1, now)), EventStep(1, now))
  }

  lemma BothReadMaterials(d: Desk, project: int)
    requires Begun(d, 1, project, false) && Begun(d, 2, project, false) && At(d.board.ledger, project, MATERIALS_1)
    ensures var e := BothRead(d);
            && e.board == d.board
            && Read(e, 1, project, false, Materials(1), 0) && Read(e, 2, project, false, Materials(1), 0)
  {
    FirstMaterials();
    Reads(d, 1, project, false, 0);
    Reads(Apply(SEEDED, d, PhaseStep(1)), 2, project, false, 0);
  }

  lemma FirstFailsBack(d: Desk, project: int, now: int)
    requires Read(d, 1, project, false, Materials(1), 0) && Read(d, 2, project, false, Materials(1), 0)
    requires At(d.board.ledger, project, MATERIALS_1)
    ensures var e := FirstFails(d, now);
            && At(e.board.ledger, project, MATERIALS_1)
            && Events(e.board.ledger) == Events(d.board.ledger) + ["PREDEFENSE1_SUBMITTED", "PREDEFENSE1_FAILED"]
            && Read(e, 2, project, false, Materials(1), 0)
  {
    FromMaterials1(d.board.ledger, project, d.calls[1].actor, d.calls[1].comment, now);
    Fires(d, 1, project, false, Materials(1), 0, now, REVIEW_1);
    var mid := Apply(SEEDED, d, EventStep(1, now));
    FromReview1Fails(mid.board.ledger, project, mid.calls[1].actor, mid.calls[1].comment, now);
    Fires(mid, 1, project, false, Materials(1), 1, now, MATERIALS_1);
  }

  /** Both "failed" completions read their phase before either moves the project. The first leads it through review back
      to the materials, and the second moves it again on the phase it read before. */
  lemma EarlyReadMovesAgain(db: Ledger.Db, row: Row, actor: int, comment: string, t1: int, t2: int)
    requires At(db, row.project, MATERIALS_1) && row.status == "graded"
    ensures var back := FirstFails(BothRead(Clicked(db, row, actor, "failed", comment)), t1);
            var e := Apply(SEEDED, back, EventStep(2, t2));
            && At(e.board.ledger, row.project, REVIEW_1)
            && Events(e.board.ledger)
               == Events(db) + ["PREDEFENSE1_SUBMITTED", "PREDEFENSE1_FAILED", "PREDEFENSE1_SUBMITTED"]
  {
    var d := Clicked(db, row, actor, "failed", comment);
    BothBegun(db, row, actor, "failed", comment);
    BothReadMaterials(d, row.project);
    var read := BothRead(d);
    FirstFailsBack(read, row.project, t1);
    var back := FirstFails(read, t1);
    FromMaterials1(back.board.ledger, row.project, back.calls[2].actor, back.calls[2].comment, t2);
    Fires(back, 2, row.project, false, Materials(1), 0, t2, REVIEW_1);
  }
}
