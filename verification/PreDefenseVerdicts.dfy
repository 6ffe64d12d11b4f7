/** Which verdict reaches the workflow: a failing result never fires a passing event, nor a passing one a failing
    event. */
module PreDefenseVerdicts {
  import opened PreDefense
  import PreDefenseCalls
  import PreDefenseRuns
  import Ledger

  // ----- The events of a verdict -----

  predicate Passes(event: string) { event == "PREDEFENSE1_PASSED" || event == "PREDEFENSE2_PASSED" }

  predicate Fails(event: string) { event == "PREDEFENSE1_FAILED" || event == "PREDEFENSE2_FAILED" }

  predicate Submits(event: string) { event == "PREDEFENSE1_SUBMITTED" || event == "PREDEFENSE2_SUBMITTED" }

  lemma NoEventIsTwo(event: string)
    ensures !(Passes(event) && Fails(event)) && !(Submits(event) && (Passes(event) || Fails(event)))
  {
    if Passes(event) {
      assert |event| == 18 && event[12] == 'P';
    }
    if Fails(event) {
      assert |event| == 18 && event[12] == 'F';
    }
    if Submits(event) {
      assert |event| == 21;
    }
  }

  /** The event belongs to the verdict. */
  predicate Fits(event: string, pass: bool) { Submits(event) || if pass then Passes(event) else Fails(event) }

  /** What a call adds to the history fits its verdict. */
  ghost predicate AddsOnly(before: Ledger.Db, after: Ledger.Db, pass: bool)
  {
    before.history <= after.history
    && forall j | |before.history| <= j < |after.history| :: Fits(after.history[j].event, pass)
  }

  lemma OnePhaseFits(before: Ledger.Db, after: Ledger.Db, project: int, pass: bool)
    requires PreDefenseRuns.OnePhase(before, after, project, pass)
    ensures AddsOnly(before, after, pass)
  {
    var k := if PreDefenseRuns.FromPhase(before, after, project, 1, pass) then 1 else 2;
    assert Fits(SubmittedEvent(k), pass) && Fits(GateEvent(k, pass), pass);
  }

  /** One grade or completion. */
  lemma CallFitsItsVerdict(c: Ledger.Catalog, b: Board, id: int, actor: int, grade: int, result: string,
                           comment: string, allowResubmission: bool, now: int, f: Faults)
    ensures AddsOnly(b.ledger, Grade(c, b, id, actor, grade, comment, now, f).0.ledger, true)
    ensures AddsOnly(b.ledger, Complete(c, b, id, actor, result, comment, allowResubmission, now, f).0.ledger,
                     result != "failed")
  {
    if id in b.rows {
      PreDefenseRuns.GradeFiresOnePhase(c, b, id, actor, grade, comment, now, f);
      PreDefenseRuns.CompleteFiresOnePhase(c, b, id, actor, result, comment, allowResubmission, now, f);
      var project := b.rows[id].project;
      OnePhaseFits(b.ledger, Grade(c, b, id, actor, grade, comment, now, f).0.ledger, project, true);
      OnePhaseFits(b.ledger, Complete(c, b, id, actor, result, comment, allowResubmission, now, f).0.ledger, project,
                   result != "failed");
    }
  }

  /** A call on a final row fires for the row's own result or not at all. */
  lemma RecoveryFitsTheRow(c: Ledger.Catalog, b: Board, id: int, actor: int, result: string, comment: string,
                           allowResubmission: bool, now: int, f: Faults)
    requires id in b.rows && IsFinal(b.rows[id].status) && b.rows[id].result != ""
    ensures var (e, reply) := Complete(c, b, id, actor, result, comment, allowResubmission, now, f);
            && e.rows == b.rows && AddsOnly(b.ledger, e.ledger, b.rows[id].result != "failed")
            && (result != b.rows[id].result ==> e == b && reply != Done)
  {
    CallFitsItsVerdict(c, b, id, actor, 0, result, comment, allowResubmission, now, f);
  }

  /** Who may have written a row of a run: a passing event a grade or a completion that did not fail, a failing event a
      failed completion, either of them the ledger's other writers. */
  predicate Accounts(step: PreDefenseRuns.Step, event: string)
  {
    && (Passes(event) ==>
          step.LedgerStep? || step.GradeStep? || (step.CompleteStep? && step.result in {"passed", "conditional"}))
    && (Fails(event) ==> step.LedgerStep? || (step.CompleteStep? && step.result == "failed"))
  }

  /** Over any run of grades and completions with any writes lost, and of all other ledger steps. */
  lemma VerdictsReachTheWorkflow(c: Ledger.Catalog, b: Board, steps: seq<PreDefenseRuns.Step>, i: nat, j: nat)
    requires i < |steps|
    requires var before, after := PreDefenseRuns.Run(c, b, steps[..i]).ledger.history,
                                  PreDefenseRuns.Run(c, b, steps[..i + 1]).ledger.history;
             |before| <= j < |after|
    ensures Accounts(steps[i], PreDefenseRuns.Run(c, b, steps[..i + 1]).ledger.history[j].event)
  {
    var before := PreDefenseRuns.Run(c, b, steps[..i]);
    assert steps[..i + 1][..i] == steps[..i];
    StepAccounts(c, before, steps[i], j);
  }

  lemma StepAccounts(c: Ledger.Catalog, b: Board, step: PreDefenseRuns.Step, j: nat)
    requires |b.ledger.history| <= j < |PreDefenseRuns.Apply(c, b, step).ledger.history|
    ensures Accounts(step, PreDefenseRuns.Apply(c, b, step).ledger.history[j].event)
  {
    match step
    case GradeStep(id, actor, grade, comment, now, f) =>
      CallFitsItsVerdict(c, b, id, actor, grade, "passed", comment, false, now, f);
      NoEventIsTwo(PreDefenseRuns.Apply(c, b, step).ledger.history[j].event);
    case CompleteStep(_, _, _, _, _, _, _) => CompleteAccounts(c, b, step, j);
    case _ =>
  }

  lemma CompleteAccounts(c: Ledger.Catalog, b: Board, step: PreDefenseRuns.Step, j: nat)
    requires step.CompleteStep? && |b.ledger.history| <= j < |PreDefenseRuns.Apply(c, b, step).ledger.history|
    ensures Accounts(step, PreDefenseRuns.Apply(c, b, step).ledger.history[j].event)
  {
    CallFitsItsVerdict(c, b, step.id, step.actor, 0, step.result, step.comment, step.allowResubmission, step.now,
                       step.f);
    NoEventIsTwo(PreDefenseRuns.Apply(c, b, step).ledger.history[j].event);
    assert step.result in {"passed", "conditional", "failed"} by {
      KnownResultFires(c, b, step.id, step.actor, step.result, step.comment, step.allowResubmission, step.now, step.f);
    }
  }

  lemma KnownResultFires(c: Ledger.Catalog, b: Board, id: int, actor: int, result: string, comment: string,
                         allowResubmission: bool, now: int, f: Faults)
    ensures Complete(c, b, id, actor, result, comment, allowResubmission, now, f).0 != b ==>
              result in {"passed", "conditional", "failed"}
  {
  }

  // ----- The calls taken apart -----

  /** A call's verdict is that of its result, and its phase is one of the two. */
  predicate Judges(k: PreDefenseCalls.Call)
  {
    && k.result in {"passed", "conditional", "failed"} && (k.pass <==> k.result != "failed")
    && (k.result == "passed" ==> k.status == "completed") && (k.result == "conditional" ==> k.status == "conditional")
    && (k.result == "failed" ==> k.status == "failed" || k.status == "failed_resubmit")
    && (k.grading ==> k.result == "passed")
    && (k.phase.Some? && !k.phase.value.Elsewhere? ==> k.phase.value.k == 1 || k.phase.value.k == 2)
  }

  ghost predicate AllJudge(d: PreDefenseCalls.Desk) { forall k :: k in d.calls ==> Judges(d.calls[k]) }

  lemma CompleteJudges(d: PreDefenseCalls.Desk, call: int, id: int, actor: int, result: string, comment: string,
                       allowResubmission: bool)
    requires AllJudge(d) && call !in d.calls
    ensures AllJudge(PreDefenseCalls.BeginComplete(d, call, id, actor, result, comment, allowResubmission))
  {
  }

  lemma GradeJudges(d: PreDefenseCalls.Desk, call: int, id: int, actor: int, grade: int, comment: string, now: int)
    requires AllJudge(d) && call !in d.calls
    ensures AllJudge(PreDefenseCalls.BeginGrade(d, call, id, actor, grade, comment, now))
  {
  }

  lemma PhaseJudges(c: Ledger.Catalog, d: PreDefenseCalls.Desk, call: int)
    requires AllJudge(d) && call in d.calls && d.calls[call].phase.None?
    ensures AllJudge(PreDefenseCalls.ReadPhase(c, d, call))
  {
  }

  lemma EventJudges(c: Ledger.Catalog, d: PreDefenseCalls.Desk, call: int, now: int)
    requires AllJudge(d) && call in d.calls && d.calls[call].Ready()
    ensures AllJudge(PreDefenseCalls.FireNext(c, d, call, now))
  {
  }

  lemma StepJudges(c: Ledger.Catalog, d: PreDefenseCalls.Desk, step: PreDefenseCalls.Step)
    requires AllJudge(d)
    ensures AllJudge(PreDefenseCalls.Apply(c, d, step))
  {
    if PreDefenseCalls.Apply(c, d, step).calls != d.calls {
      match step
      case CompleteStep(call, id, actor, result, comment, allowResubmission) =>
        CompleteJudges(d, call, id, actor, result, comment, allowResubmission);
      case GradeStep(call, id, actor, grade, comment, now) => GradeJudges(d, call, id, actor, grade, comment, now);
      case PhaseStep(call) => PhaseJudges(c, d, call);
      case EventStep(call, now) => EventJudges(c, d, call, now);
      case _ =>
    }
  }

  lemma {:induction false} RunJudges(c: Ledger.Catalog, d: PreDefenseCalls.Desk, steps: seq<PreDefenseCalls.Step>)
    requires AllJudge(d)
    ensures AllJudge(PreDefenseCalls.Run(c, d, steps))
  {
    if steps != [] {
      RunJudges(c, d, steps[..|steps| - 1]);
      StepJudges(c, PreDefenseCalls.Run(c, d, steps[..|steps| - 1]), steps[|steps| - 1]);
    }
  }

  /** Whatever interleaves, the history rows of a failing call carry submissions and FAILED gates only, those of a
      passing one submissions and PASSED gates only. */
  lemma InterleavedVerdicts(c: Ledger.Catalog, d: PreDefenseCalls.Desk, steps: seq<PreDefenseCalls.Step>, k: int,
                            i: nat)
    requires PreDefenseCalls.Inv(d) && AllJudge(d)
    requires var e := PreDefenseCalls.Run(c, d, steps); k in e.calls && i < |e.calls[k].rows|
    ensures var e := PreDefenseCalls.Run(c, d, steps);
            var call := e.calls[k];
            && call.rows[i] < |e.board.ledger.history|
            && var event := e.board.ledger.history[call.rows[i]].event;
               && Fits(event, call.result != "failed")
               && !(if call.result == "failed" then Passes(event) else Fails(event))
  {
    PreDefenseCalls.CallsKeepToOnePhase(c, d, steps);
    RunJudges(c, d, steps);
    var e := PreDefenseCalls.Run(c, d, steps);
    var call := e.calls[k];
    assert PreDefenseCalls.Wrote(e.board.ledger.history, call) && Judges(call);
    PlannedFits(call, i);
    NoEventIsTwo(e.board.ledger.history[call.rows[i]].event);
  }

  lemma PlannedFits(call: PreDefenseCalls.Call, i: nat)
    requires Judges(call) && i < |call.Planned()|
    ensures Fits(call.Planned()[i], call.result != "failed")
  {
    var phase := call.phase.value;
    assert call.Planned()[i] == SubmittedEvent(phase.k) || call.Planned()[i] == GateEvent(phase.k, call.pass);
  }
}
