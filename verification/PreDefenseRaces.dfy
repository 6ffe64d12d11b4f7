/** Which of several interleaved pre-defense calls move a project. */
module PreDefenseRaces {
  import opened Wrappers
  import opened PreDefense
  import opened PreDefenseCalls
  import PreDefenseRuns
  import Ledger
  import LedgerRuns

  /** An edge of the event leaves the state. */
  ghost predicate Leaves(c: Ledger.Catalog, workflow: int, event: string, from: int)
  {
    exists e :: e in c.edges && e.workflow == workflow && e.event == event && e.from == from
  }

  // ----- Every step is a ledger step, or none -----

  function LedgerStepOf(d: Desk, step: Step): Option<LedgerRuns.Step>
  {
    match step
    case PhaseStep(call) =>
      if call in d.calls && d.calls[call].open && d.calls[call].phase.None?
      then Some(LedgerRuns.SubmitStep(d.calls[call].copy.project)) else None
    case EventStep(call, now) =>
      if call in d.calls && d.calls[call].Ready()
      then
        var k := d.calls[call];
        Some(LedgerRuns.AdvanceStep(k.copy.project, k.Planned()[|k.rows|], k.actor, k.comment, now))
      else None
    case LedgerStep(inner) => Some(inner)
    case _ => None
  }

  lemma LedgerMoves(c: Ledger.Catalog, d: Desk, step: Step)
    ensures Apply(c, d, step).board.ledger
            == if LedgerStepOf(d, step).None? then d.board.ledger
               else LedgerRuns.Apply(c, d.board.ledger, LedgerStepOf(d, step).value)
  {
  }

  /** Ledger steps obey the ledger's own hypotheses, and a new row belongs to a known project. */
  ghost predicate Allowed(c: Ledger.Catalog, d: Desk, step: Step)
  {
    match step
    case LedgerStep(inner) => LedgerRuns.Allowed(c, d.board.ledger, inner)
    case OpenStep(_, row) => row.project in d.board.ledger.projects
    case _ => true
  }

  ghost predicate AllowedRun(c: Ledger.Catalog, d: Desk, steps: seq<Step>)
  {
    forall i | 0 <= i < |steps| :: Allowed(c, Run(c, d, steps[..i]), steps[i])
  }

  lemma AllowedPrefix(c: Ledger.Catalog, d: Desk, steps: seq<Step>, n: nat)
    requires AllowedRun(c, d, steps) && n <= |steps|
    ensures AllowedRun(c, d, steps[..n])
  {
    forall i | 0 <= i < n
      ensures Allowed(c, Run(c, d, steps[..n][..i]), steps[..n][i])
    {
      assert steps[..n][..i] == steps[..i];
    }
  }

  // ----- What a call knows about the project -----

  /** The call's first row left the state that the history since its phase was read leads to from the state it read, by
      an edge of its first planned event. */
  ghost predicate FirstRow(c: Ledger.Catalog, db: Ledger.Db, k: Call)
    requires k.rows != [] && k.copy.project in db.projects && k.Planned() != []
  {
    var r, project := k.rows[0], k.copy.project;
    && k.seen <= r < |db.history| && db.history[r].project == project
    && db.history[r].fromId == LedgerRuns.LastTo(db.history[k.seen..r], project, k.at)
    && Leaves(c, db.projects[project].workflow, k.Planned()[0], db.history[r].fromId)
  }

  ghost predicate Tracked(c: Ledger.Catalog, db: Ledger.Db, k: Call)
  {
    && k.copy.project in db.projects
    && |k.rows| <= |k.Planned()|
    && (k.phase.Some? ==>
          && k.seen <= |db.history|
          && if k.rows != [] then FirstRow(c, db, k)
             else db.projects[k.copy.project].stateId
                  == LedgerRuns.LastTo(db.history[k.seen..], k.copy.project, k.at))
  }

  ghost predicate Sound(c: Ledger.Catalog, d: Desk)
  {
    && LedgerRuns.Inv(c, d.board.ledger)
    && (forall id :: id in d.board.rows ==> d.board.rows[id].project in d.board.ledger.projects)
    && (forall k :: k in d.calls ==> Tracked(c, d.board.ledger, d.calls[k]))
  }

  lemma TrackedOn(c: Ledger.Catalog, db: Ledger.Db, after: Ledger.Db, k: Call)
    requires Tracked(c, db, k) && LedgerRuns.Follows(db, after, k.copy.project)
    ensures Tracked(c, after, k)
  {
    if k.phase.Some? {
      if k.rows == [] {
        LedgerRuns.FollowsOn(db, after, k.copy.project, k.seen, k.at);
      } else {
        assert after.history[k.seen..k.rows[0]] == db.history[k.seen..k.rows[0]];
      }
    }
  }

  lemma LedgerFollows(c: Ledger.Catalog, d: Desk, step: Step, project: int)
    requires Ledger.WellFormed(c) && LedgerRuns.Inv(c, d.board.ledger) && Allowed(c, d, step)
    requires project in d.board.ledger.projects
    ensures LedgerRuns.Follows(d.board.ledger, Apply(c, d, step).board.ledger, project)
    ensures LedgerRuns.Inv(c, Apply(c, d, step).board.ledger)
  {
    var db := d.board.ledger;
    LedgerMoves(c, d, step);
    if LedgerStepOf(d, step).None? {
      assert db.history[|db.history|..] == [];
    } else {
      LedgerRuns.StateFollows(c, db, LedgerStepOf(d, step).value, project);
      LedgerRuns.StepKeepsInv(c, db, LedgerStepOf(d, step).value);
    }
  }

  lemma LedgerStaysSound(c: Ledger.Catalog, d: Desk, step: Step)
    requires Ledger.WellFormed(c) && LedgerRuns.Inv(c, d.board.ledger) && Allowed(c, d, step)
    ensures LedgerRuns.Inv(c, Apply(c, d, step).board.ledger)
  {
    LedgerMoves(c, d, step);
    if LedgerStepOf(d, step).Some? {
      LedgerRuns.StepKeepsInv(c, d.board.ledger, LedgerStepOf(d, step).value);
    }
  }

  /** An event step writes a row exactly when an edge of the next planned event leaves the project's state. */
  lemma FireExactly(c: Ledger.Catalog, d: Desk, call: int, now: int)
    requires Ledger.WellFormed(c) && Sound(c, d) && call in d.calls && d.calls[call].Ready()
    ensures var k, e := d.calls[call], FireNext(c, d, call, now);
            var p, before, after := d.board.ledger.projects[k.copy.project], d.board.ledger.history,
                                    e.board.ledger.history;
            && call in e.calls
            && (e.calls[call].rows != k.rows <==> Leaves(c, p.workflow, k.Planned()[|k.rows|], p.stateId))
            && (e.calls[call].rows != k.rows ==>
                  && e.calls[call] == k.(rows := k.rows + [|before|])
                  && before < after && after[|before|].project == k.copy.project && after[|before|].fromId == p.stateId)
            && (e.calls[call].rows == k.rows ==> e.calls[call] == k.(open := false))
  {
    var k := d.calls[call];
    LedgerRuns.AdvanceFollowsEdge(c, d.board.ledger, k.copy.project, k.Planned()[|k.rows|], k.actor, k.comment, now);
  }

  lemma FireTracked(c: Ledger.Catalog, d: Desk, call: int, now: int)
    requires Ledger.WellFormed(c) && Sound(c, d) && call in d.calls && d.calls[call].Ready()
    ensures var e := FireNext(c, d, call, now);
            call in e.calls && Tracked(c, e.board.ledger, e.calls[call])
  {
    var k, e := d.calls[call], FireNext(c, d, call, now);
    var project, db, after := k.copy.project, d.board.ledger, e.board.ledger;
    assert Tracked(c, db, k);
    LedgerFollows(c, d, EventStep(call, now), project);
    TrackedOn(c, db, after, k);
    FireExactly(c, d, call, now);
    if e.calls[call].rows != k.rows && k.rows == [] {
      assert after.history[k.seen..|db.history|] == db.history[k.seen..];
    }
  }

  lemma ReadTracked(c: Ledger.Catalog, d: Desk, call: int)
    requires Ledger.WellFormed(c) && Sound(c, d) && call in d.calls && d.calls[call].phase.None?
    ensures var e := ReadPhase(c, d, call);
            && e.board == d.board && call in e.calls && Tracked(c, e.board.ledger, e.calls[call])
            && var k, p := d.calls[call], d.board.ledger.projects[d.calls[call].copy.project];
               e.calls[call]
               == k.(phase := Some(PhaseOf(p.stateName)), seen := |d.board.ledger.history|, at := p.stateId)
  {
    var k := d.calls[call];
    assert Tracked(c, d.board.ledger, k);
    LedgerRuns.SubmitReads(c, d.board.ledger, k.copy.project);
    assert d.board.ledger.history[|d.board.ledger.history|..] == [];
  }

  lemma CallStaysTracked(c: Ledger.Catalog, d: Desk, step: Step, k: int)
    requires Ledger.WellFormed(c) && Sound(c, d) && Allowed(c, d, step) && k in Apply(c, d, step).calls
    ensures Tracked(c, Apply(c, d, step).board.ledger, Apply(c, d, step).calls[k])
  {
    var e := Apply(c, d, step);
    if k in d.calls {
      assert Tracked(c, d.board.ledger, d.calls[k]);
      LedgerFollows(c, d, step, d.calls[k].copy.project);
      TrackedOn(c, d.board.ledger, e.board.ledger, d.calls[k]);
      if e.calls[k].(open := true) != d.calls[k].(open := true) {
        MovedCallTracked(c, d, step, k);
      }
    } else {
      assert e.calls[k].phase.None? && e.calls[k].rows == [] && e.calls[k].copy.project in d.board.ledger.projects;
    }
  }

  lemma MovedCallTracked(c: Ledger.Catalog, d: Desk, step: Step, k: int)
    requires Ledger.WellFormed(c) && Sound(c, d) && k in d.calls && k in Apply(c, d, step).calls
    requires Apply(c, d, step).calls[k].(open := true) != d.calls[k].(open := true)
    ensures Tracked(c, Apply(c, d, step).board.ledger, Apply(c, d, step).calls[k])
  {
    WhoMoves(c, d, step, k);
    if step.PhaseStep? {
      ReadTracked(c, d, k);
    } else {
      FireTracked(c, d, k, step.now);
    }
  }

  /** Only reading its phase and firing an event changes more of a call than whether it is open. */
  lemma WhoMoves(c: Ledger.Catalog, d: Desk, step: Step, k: int)
    requires k in d.calls && k in Apply(c, d, step).calls
    requires Apply(c, d, step).calls[k].(open := true) != d.calls[k].(open := true)
    ensures || (step == PhaseStep(k) && d.calls[k].phase.None? && Apply(c, d, step) == ReadPhase(c, d, k))
            || (step.EventStep? && step.call == k && d.calls[k].Ready()
                && Apply(c, d, step) == FireNext(c, d, k, step.now))
  {
  }

  lemma RowsStayHomed(c: Ledger.Catalog, d: Desk, step: Step, id: int)
    requires Ledger.WellFormed(c) && Sound(c, d) && Allowed(c, d, step) && id in Apply(c, d, step).board.rows
    ensures Apply(c, d, step).board.rows[id].project in Apply(c, d, step).board.ledger.projects
  {
    var e := Apply(c, d, step);
    assert e.board.rows[id].project in d.board.ledger.projects by {
      if step.SaveStep? && step.call in d.calls {
        assert Tracked(c, d.board.ledger, d.calls[step.call]);
      }
    }
    LedgerFollows(c, d, step, e.board.rows[id].project);
  }

  lemma StepKeepsSound(c: Ledger.Catalog, d: Desk, step: Step)
    requires Ledger.WellFormed(c) && Sound(c, d) && Allowed(c, d, step)
    ensures Sound(c, Apply(c, d, step))
  {
    var e := Apply(c, d, step);
    LedgerStaysSound(c, d, step);
    forall id | id in e.board.rows ensures e.board.rows[id].project in e.board.ledger.projects {
      RowsStayHomed(c, d, step, id);
    }
    forall k | k in e.calls ensures Tracked(c, e.board.ledger, e.calls[k]) {
      CallStaysTracked(c, d, step, k);
    }
  }

  lemma {:induction false} RunKeepsSound(c: Ledger.Catalog, d: Desk, steps: seq<Step>)
    requires Ledger.WellFormed(c) && Sound(c, d) && AllowedRun(c, d, steps)
    ensures Sound(c, Run(c, d, steps))
  {
    if steps != [] {
      var last := |steps| - 1;
      AllowedPrefix(c, d, steps, last);
      RunKeepsSound(c, d, steps[..last]);
      StepKeepsSound(c, Run(c, d, steps[..last]), steps[last]);
    }
  }

  // ----- When a call moves the project -----

  /** An event step of the call at a state that its next planned event leaves. */
  ghost predicate Fires(c: Ledger.Catalog, d: Desk, step: Step, call: int)
  {
    && step.EventStep? && step.call == call && call in d.calls && d.calls[call].Ready()
    && var k := d.calls[call];
       && k.copy.project in d.board.ledger.projects
       && var p := d.board.ledger.projects[k.copy.project];
          Leaves(c, p.workflow, k.Planned()[|k.rows|], p.stateId)
  }

  ghost predicate FiresAt(c: Ledger.Catalog, d: Desk, steps: seq<Step>, i: nat, call: int)
  {
    i < |steps| && Fires(c, Run(c, d, steps[..i]), steps[i], call)
  }

  predicate Moved(d: Desk, call: int) { call in d.calls && d.calls[call].rows != [] }

  lemma StepMoves(c: Ledger.Catalog, d: Desk, step: Step, call: int)
    requires Ledger.WellFormed(c) && Sound(c, d)
    ensures Moved(Apply(c, d, step), call) <==> Moved(d, call) || Fires(c, d, step, call)
  {
    if step.EventStep? && step.call in d.calls && d.calls[step.call].Ready() {
      assert Tracked(c, d.board.ledger, d.calls[step.call]);
      FireExactly(c, d, step.call, step.now);
    }
  }

  ghost predicate FiresIn(c: Ledger.Catalog, d: Desk, steps: seq<Step>, call: int)
  {
    exists i | 0 <= i < |steps| :: FiresAt(c, d, steps, i, call)
  }

  lemma FiresEarlierOrLast(c: Ledger.Catalog, d: Desk, steps: seq<Step>, call: int)
    requires steps != []
    ensures var last := |steps| - 1;
            FiresIn(c, d, steps, call)
            <==> FiresIn(c, d, steps[..last], call) || Fires(c, Run(c, d, steps[..last]), steps[last], call)
  {
    var last := |steps| - 1;
    forall i | 0 <= i < last
      ensures FiresAt(c, d, steps, i, call) <==> FiresAt(c, d, steps[..last], i, call)
    {
      assert steps[..last][..i] == steps[..i];
    }
    assert FiresAt(c, d, steps, last, call) <==> Fires(c, Run(c, d, steps[..last]), steps[last], call);
  }

  /** Over any run a call writes history rows exactly when one of its event steps finds such a state. */
  lemma {:induction false} MovesExactly(c: Ledger.Catalog, d: Desk, steps: seq<Step>, call: int)
    requires Ledger.WellFormed(c) && Sound(c, d) && AllowedRun(c, d, steps) && call !in d.calls
    ensures Moved(Run(c, d, steps), call) <==> FiresIn(c, d, steps, call)
  {
    if steps != [] {
      var last := |steps| - 1;
      AllowedPrefix(c, d, steps, last);
      MovesExactly(c, d, steps[..last], call);
      RunKeepsSound(c, d, steps[..last]);
      StepMoves(c, Run(c, d, steps[..last]), steps[last], call);
      FiresEarlierOrLast(c, d, steps, call);
    }
  }

  /** A call that reads its phase and fires with nothing in between moves the project exactly when the state it read is
      a pre-defense state with an edge for its first planned event. */
  lemma ReadThenFireExactly(c: Ledger.Catalog, d: Desk, call: int, now: int)
    requires Ledger.WellFormed(c) && Sound(c, d)
    requires call in d.calls && d.calls[call].open && d.calls[call].phase.None?
    ensures var k := d.calls[call];
            Moved(Apply(c, Apply(c, d, PhaseStep(call)), EventStep(call, now)), call)
            <==> PreDefenseRuns.HasNextEvent(c, d.board.ledger.projects[k.copy.project], k.pass, !k.recovery)
  {
    var read := Apply(c, d, PhaseStep(call));
    assert Tracked(c, d.board.ledger, d.calls[call]);
    ReadTracked(c, d, call);
    StepKeepsSound(c, d, PhaseStep(call));
    StepMoves(c, read, EventStep(call, now), call);
  }

  // ----- Two calls on one project -----

  /** `l` read its phase after the first row of `k`, in a state that its first planned event leaves. */
  ghost predicate ReadAfter(c: Ledger.Catalog, workflow: int, k: Call, l: Call)
  {
    k.rows != [] && l.Planned() != [] && k.rows[0] < l.seen && Leaves(c, workflow, l.Planned()[0], l.at)
  }

  /** From the first row of `k` on, after `l` read its phase and before its own first row if it has one, a row of the
      project led to a state that the first planned event of `l` leaves. */
  ghost predicate LedBack(c: Ledger.Catalog, db: Ledger.Db, k: Call, l: Call)
    requires k.copy.project in db.projects
  {
    && k.rows != [] && l.Planned() != []
    && exists j {:trigger db.history[j]} ::
         && k.rows[0] <= j < |db.history| && l.seen <= j && (l.rows != [] ==> j < l.rows[0])
         && db.history[j].project == k.copy.project
         && Leaves(c, db.projects[k.copy.project].workflow, l.Planned()[0], db.history[j].toId)
  }

  ghost predicate MovesAgain(c: Ledger.Catalog, db: Ledger.Db, k: Call, l: Call)
    requires k.copy.project in db.projects
  {
    ReadAfter(c, db.projects[k.copy.project].workflow, k, l) || LedBack(c, db, k, l)
  }

  /** Among the rows since `l` read its phase a row of the project leads where they all lead. */
  lemma LastLed(c: Ledger.Catalog, db: Ledger.Db, k: Call, l: Call, i: nat)
    requires Tracked(c, db, k) && Tracked(c, db, l) && k.copy.project == l.copy.project
    requires k.rows != [] && l.rows != [] && k.rows[0] < l.rows[0]
    requires l.seen + i < l.rows[0] && k.rows[0] <= l.seen + i && db.history[l.seen + i].project == l.copy.project
    ensures LedBack(c, db, k, l)
  {
    var project, since := l.copy.project, db.history[l.seen..l.rows[0]];
    assert since[i] == db.history[l.seen + i];
    LedgerRuns.ReturnRow(since, i, project, l.at);
    var j :| i <= j < |since| && since[j].project == project
             && since[j].toId == LedgerRuns.LastTo(since, project, l.at);
    assert db.history[l.seen + j] == since[j];
  }

  lemma LaterMover(c: Ledger.Catalog, db: Ledger.Db, k: Call, l: Call)
    requires Tracked(c, db, k) && Tracked(c, db, l) && k.copy.project == l.copy.project
    requires k.rows != [] && l.rows != [] && k.rows[0] < l.rows[0]
    ensures MovesAgain(c, db, k, l)
  {
    var project, since := l.copy.project, db.history[l.seen..l.rows[0]];
    if l.seen <= k.rows[0] {
      LastLed(c, db, k, l, k.rows[0] - l.seen);
    } else if i :| 0 <= i < |since| && since[i].project == project {
      assert since[i] == db.history[l.seen + i];
      LastLed(c, db, k, l, i);
    } else {
      LedgerRuns.LastToForeign(since, project, l.at);
    }
  }

  /** Two calls on one project both move it exactly when each has an event step at a state its next planned event
      leaves. Then the later one read its phase after the other's first row, in a state that its first planned event
      leaves, or a row since then led back to such a state. */
  lemma TwoCallsMoveExactly(c: Ledger.Catalog, d: Desk, steps: seq<Step>, k: int, l: int)
    requires Ledger.WellFormed(c) && Sound(c, d) && PreDefenseCalls.Inv(d) && AllowedRun(c, d, steps)
    requires k != l && k !in d.calls && l !in d.calls
    requires var e := Run(c, d, steps);
             k in e.calls && l in e.calls && e.calls[k].copy.project == e.calls[l].copy.project
    ensures var e := Run(c, d, steps);
            && (Moved(e, k) && Moved(e, l) <==> FiresIn(c, d, steps, k) && FiresIn(c, d, steps, l))
            && e.calls[k].copy.project in e.board.ledger.projects
            && (Moved(e, k) && Moved(e, l) ==>
                  || MovesAgain(c, e.board.ledger, e.calls[k], e.calls[l])
                  || MovesAgain(c, e.board.ledger, e.calls[l], e.calls[k]))
  {
    var e := Run(c, d, steps);
    MovesExactly(c, d, steps, k);
    MovesExactly(c, d, steps, l);
    RunKeepsSound(c, d, steps);
    CallsKeepToOnePhase(c, d, steps);
    assert Tracked(c, e.board.ledger, e.calls[k]) && Tracked(c, e.board.ledger, e.calls[l]);
    if Moved(e, k) && Moved(e, l) {
      assert Apart(e.calls[k], e.calls[l]);
      assert e.calls[k].rows[0] != e.calls[l].rows[0];
      if e.calls[k].rows[0] < e.calls[l].rows[0] {
        LaterMover(c, e.board.ledger, e.calls[k], e.calls[l]);
      } else {
        LaterMover(c, e.board.ledger, e.calls[l], e.calls[k]);
      }
    }
  }

  /** Otherwise at most one of them moves the project. */
  lemma AtMostOneMoves(c: Ledger.Catalog, d: Desk, steps: seq<Step>, k: int, l: int)
    requires Ledger.WellFormed(c) && Sound(c, d) && PreDefenseCalls.Inv(d) && AllowedRun(c, d, steps)
    requires k != l && k !in d.calls && l !in d.calls
    requires var e := Run(c, d, steps);
             && k in e.calls && l in e.calls && e.calls[k].copy.project == e.calls[l].copy.project
             && e.calls[k].copy.project in e.board.ledger.projects
             && !MovesAgain(c, e.board.ledger, e.calls[k], e.calls[l])
             && !MovesAgain(c, e.board.ledger, e.calls[l], e.calls[k])
    ensures !Moved(Run(c, d, steps), k) || !Moved(Run(c, d, steps), l)
  {
    TwoCallsMoveExactly(c, d, steps, k, l);
  }
}
