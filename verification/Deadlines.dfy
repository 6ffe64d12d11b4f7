/** The deadline scheduler (internal/project/deadline_scheduler.go) interleaved with every other ledger writer. */
module Deadlines {
  import opened Wrappers
  import opened Ledger
  import opened LedgerRuns
  import opened LedgerWrites

  // ----- Fired at most once -----

  /** WorkflowDeadlineReached events of a project. */
  function Reached(outbox: seq<OutboxEvent>, project: int): nat
  {
    if outbox == [] then 0
    else
      var last := outbox[|outbox| - 1];
      Reached(outbox[..|outbox| - 1], project) + (if last.DeadlineReached? && last.project == project then 1 else 0)
  }

  /** Whether a deadline waits to fire. */
  function Pending(db: Db, id: int): nat
  {
    if id in db.projects && db.projects[id].deadlineAt.Some? && !db.projects[id].deadlineProcessed then 1 else 0
  }

  /** Whether a step arms a deadline of the project: a creation with one, or a successful commit that sets one. */
  function Arms(db: Db, step: Step, project: int): nat
  {
    match step
    case CreateStep(id, _, states, now) =>
      if id == project && states != [] && InitialDeadline(InitialState(states), now).Some? then 1 else 0
    case CommitStep(req) =>
      if req.project == project && req.newDeadline.Some? && Commit(db, req).1 == Done then 1 else 0
    case _ => 0
  }

  function Armings(c: Catalog, db: Db, steps: seq<Step>, project: int): nat
  {
    if steps == [] then 0
    else
      var before := steps[..|steps| - 1];
      Armings(c, db, before, project) + Arms(Run(c, db, before), steps[|steps| - 1], project)
  }

  lemma {:induction false} ReachedUnchanged(before: seq<OutboxEvent>, more: seq<OutboxEvent>, project: int)
    requires forall e :: e in more ==> !e.DeadlineReached?
    ensures Reached(before + more, project) == Reached(before, project)
  {
    if more == [] {
      assert before + more == before;
    } else {
      var last := |more| - 1;
      assert (before + more)[..|before + more| - 1] == before + more[..last];
      ReachedUnchanged(before, more[..last], project);
    }
  }

  /** No deadline event is ever early. */
  ghost predicate OnTime(outbox: seq<OutboxEvent>)
  {
    forall e :: e in outbox && e.DeadlineReached? ==> e.deadlineAt <= e.at
  }

  lemma {:induction false} NeverEarly(c: Catalog, db: Db, steps: seq<Step>)
    requires OnTime(db.outbox)
    ensures OnTime(Run(c, db, steps).outbox)
  {
    if steps != [] {
      var last := |steps| - 1;
      NeverEarly(c, db, steps[..last]);
      if steps[last].CommitStep? {
        PostEventsExactly(steps[last].req.project, steps[last].req.toId, steps[last].req.postActions);
      }
    }
  }

  /** The project is neither completed, cancelled nor archived, and has an unprocessed deadline that has come. */
  predicate Due(db: Db, project: int, now: int)
  {
    && project in db.projects
    && var p := db.projects[project];
       && p.status != "completed" && p.status != "cancelled" && p.status != "archived"
       && !p.deadlineProcessed && p.deadlineAt.Some? && p.deadlineAt.value <= now
  }

  /** The scheduler lists the due projects whose deadline is strictly past. */
  lemma ListedAreDue(db: Db, id: int, now: int)
    ensures id in Expired(db, now) <==> Due(db, id, now) && db.projects[id].deadlineAt.value < now
  {
  }

  /** A scheduler transaction does something exactly to a due project: it marks the deadline processed, changes nothing
      else of any project, and writes no history. */
  lemma FireWrites(db: Db, id: int, now: int)
    ensures var after := Fire(db, id, now);
            && (after != db <==> Due(db, id, now))
            && after.history == db.history
            && (after != db ==>
                  && id in after.projects && OthersKept(db, after, id)
                  && var p, q := db.projects[id], after.projects[id];
                     && q.deadlineProcessed && q.deadlineAt == p.deadlineAt && q.workflow == p.workflow
                     && q.stateId == p.stateId && q.stateName == p.stateName && q.status == p.status
                     && q.topicRegisteredAt == p.topicRegisteredAt
                     && after.outbox == db.outbox + [DeadlineReached(id, p.stateId, p.deadlineAt.value, now)])
  {
  }

  /** Over any run a project's deadline events grow only at a scheduler transaction on that project, and exactly when
      the project is then active with an unprocessed deadline that has come: never for a completed, cancelled or
      archived one. */
  lemma EventsOnlyWhileActive(c: Catalog, db: Db, steps: seq<Step>, i: nat, project: int)
    requires i < |steps|
    ensures var before, after := Run(c, db, steps[..i]), Run(c, db, steps[..i + 1]);
            && Reached(after.outbox, project) >= Reached(before.outbox, project)
            && (Reached(after.outbox, project) > Reached(before.outbox, project) <==>
                  steps[i].FireStep? && steps[i].project == project && Due(before, project, steps[i].now))
            && (Reached(after.outbox, project) > Reached(before.outbox, project) ==>
                  var p, now := before.projects[project], steps[i].now;
                  after.outbox == before.outbox + [DeadlineReached(project, p.stateId, p.deadlineAt.value, now)])
  {
    RunPrefix(c, db, steps, i);
    StepEvents(c, Run(c, db, steps[..i]), steps[i], project);
  }

  lemma StepEvents(c: Catalog, db: Db, step: Step, project: int)
    ensures Reached(Apply(c, db, step).outbox, project)
            == Reached(db.outbox, project)
               + if step.FireStep? && step.project == project && Fire(db, project, step.now) != db then 1 else 0
  {
    match step
    case CreateStep(id, _, states, now) =>
      if states != [] {
        ReachedUnchanged(db.outbox, [ProjectCreated(id, InitialState(states).id)], project);
      }
    case CommitStep(req) =>
      PostEventsExactly(req.project, req.toId, req.postActions);
      ReachedUnchanged(db.outbox, PostEvents(req.project, req.toId, req.postActions), project);
    case FireStep(id, now) =>
      if Fire(db, id, now) != db {
        assert Fire(db, id, now).outbox[..|db.outbox|] == db.outbox;
      }
    case _ =>
  }

  lemma {:induction false} SweepProcesses(db: Db, list: seq<int>, clock: nat -> int, now: int)
    requires forall i :: now <= clock(i)
    ensures Expired(Sweep(db, list, clock), now) == Expired(db, now) - set id | id in list
  {
    if list != [] {
      var last := |list| - 1;
      SweepProcesses(db, list[..last], clock, now);
      var mid := Sweep(db, list[..last], clock);
      assert (set id | id in list) == (set id | id in list[..last]) + {list[last]};
      assert now <= clock(last);
      assert Expired(Fire(mid, list[last], clock(last)), now) == Expired(mid, now) - {list[last]};
    }
  }

  /** A pass over the list read at a time, undisturbed, leaves nothing expired at that time. */
  lemma SweepEmptiesTheList(db: Db, list: seq<int>, clock: nat -> int, now: int)
    requires forall id :: id in Expired(db, now) ==> id in list
    requires forall i :: now <= clock(i)
    ensures Expired(Sweep(db, list, clock), now) == {}
  {
    SweepProcesses(db, list, clock, now);
    forall id | id in Expired(db, now) ensures id in (set other | other in list) {
      assert id in list;
    }
  }

  // ----- Armed deadlines do fire -----

  /** A commit that sets a deadline arms it, whatever fired before: once it has passed the project is listed, and the
      next scheduler transaction emits its event for the state the commit entered. */
  lemma ArmedDeadlineFires(db: Db, req: CommitRequest, now: int)
    requires Commit(db, req).1 == Done && req.newDeadline.Some? && req.newDeadline.value < now
    requires Active(if req.setStatus != "" then req.setStatus else req.toName)
    ensures var after := Commit(db, req).0;
            && req.project in Expired(after, now)
            && Fire(after, req.project, now).outbox
               == after.outbox + [DeadlineReached(req.project, req.toId, req.newDeadline.value, now)]
            && req.project !in Expired(Fire(after, req.project, now), now)
  {
  }

  // ----- Nothing else ends a waiting deadline -----

  /** Whether a step puts a new deadline, or a new project, in the place of a deadline that waits. */
  function Replaces(db: Db, step: Step, project: int): nat
  {
    if Pending(db, project) == 0 then 0
    else
      match step
      case CreateStep(id, _, states, _) => if id == project && states != [] then 1 else 0
      case _ => Arms(db, step, project)
  }

  function Replacements(c: Catalog, db: Db, steps: seq<Step>, project: int): nat
  {
    if steps == [] then 0
    else
      var before := steps[..|steps| - 1];
      Replacements(c, db, before, project) + Replaces(Run(c, db, before), steps[|steps| - 1], project)
  }

  lemma StepConserves(c: Catalog, db: Db, step: Step, project: int)
    ensures var after := Apply(c, db, step);
            Reached(after.outbox, project) + Pending(after, project) + Replaces(db, step, project)
            == Reached(db.outbox, project) + Pending(db, project) + Arms(db, step, project)
  {
    StepEvents(c, db, step, project);
    match step
    case AdvanceStep(id, event, actor, comment, now) => AdvanceWrites(c, db, id, event, actor, comment, now);
    case CommitStep(req) => CommitWrites(db, req);
    case _ =>
  }

  /** Over any run from any state every deadline that waited or was armed has fired, still waits, or was replaced while
      it waited, and each in one way only. */
  lemma {:induction false} DeadlinesConserved(c: Catalog, db: Db, steps: seq<Step>, project: int)
    ensures var after := Run(c, db, steps);
            Reached(after.outbox, project) + Pending(after, project) + Replacements(c, db, steps, project)
            == Reached(db.outbox, project) + Pending(db, project) + Armings(c, db, steps, project)
  {
    if steps != [] {
      var last := |steps| - 1;
      DeadlinesConserved(c, db, steps[..last], project);
      StepConserves(c, Run(c, db, steps[..last]), steps[last], project);
    }
  }

  /** Each armed deadline fires at most once: what has fired and what still waits never exceeds what waited at the start
      and what was armed since. */
  lemma DeadlinesFireOnce(c: Catalog, db: Db, steps: seq<Step>, project: int)
    ensures var after := Run(c, db, steps);
            Reached(after.outbox, project) + Pending(after, project)
            <= Reached(db.outbox, project) + Pending(db, project) + Armings(c, db, steps, project)
  {
    DeadlinesConserved(c, db, steps, project);
  }

  /** The scheduler transaction that fires the project's deadline. */
  ghost predicate FiresAt(c: Catalog, db: Db, steps: seq<Step>, i: nat, project: int)
  {
    && i < |steps| && steps[i].FireStep? && steps[i].project == project
    && Due(Run(c, db, steps[..i]), project, steps[i].now)
  }

  lemma {:induction false} FiredSomewhere(c: Catalog, db: Db, steps: seq<Step>, project: int)
    ensures Reached(Run(c, db, steps).outbox, project) >= Reached(db.outbox, project)
    ensures Reached(Run(c, db, steps).outbox, project) > Reached(db.outbox, project)
            <==> exists i | 0 <= i < |steps| :: FiresAt(c, db, steps, i, project)
  {
    if steps != [] {
      var last := |steps| - 1;
      FiredSomewhere(c, db, steps[..last], project);
      EventsOnlyWhileActive(c, db, steps, last, project);
      assert steps[..last + 1] == steps;
      var fires := steps[last].FireStep? && steps[last].project == project
                   && Due(Run(c, db, steps[..last]), project, steps[last].now);
      assert FiresAt(c, db, steps, last, project) <==> fires;
      forall i | 0 <= i < last
        ensures FiresAt(c, db, steps, i, project) <==> FiresAt(c, db, steps[..last], i, project)
      {
        assert steps[..last][..i] == steps[..i];
      }
    }
  }

  /** Without a new deadline of its own nothing is replaced. */
  lemma {:induction false} ReplacedOnlyByArming(c: Catalog, db: Db, steps: seq<Step>, project: int)
    requires AllowedRun(c, db, steps) && project in db.projects
    ensures Replacements(c, db, steps, project) <= Armings(c, db, steps, project)
  {
    if steps != [] {
      var last := |steps| - 1;
      AllowedPrefix(c, db, steps, last);
      ReplacedOnlyByArming(c, db, steps[..last], project);
      RunGrows(c, db, steps[..last]);
    }
  }

  /** A waiting deadline that no commit replaces waits, with its own date, exactly until the scheduler transaction that
      fires it; advances by events, submit contexts and other projects' steps leave it alone. */
  lemma {:induction false} WaitingDeadlineStays(c: Catalog, db: Db, steps: seq<Step>, project: int)
    requires WellFormed(c) && Inv(c, db) && AllowedRun(c, db, steps)
    requires Pending(db, project) == 1 && Armings(c, db, steps, project) == 0
    ensures var after := Run(c, db, steps);
            && project in after.projects && after.projects[project].deadlineAt == db.projects[project].deadlineAt
            && Reached(after.outbox, project) == Reached(db.outbox, project) + (1 - Pending(after, project))
            && (after.projects[project].deadlineProcessed <==>
                  exists i | 0 <= i < |steps| :: FiresAt(c, db, steps, i, project))
  {
    DeadlinesConserved(c, db, steps, project);
    ReplacedOnlyByArming(c, db, steps, project);
    FiredSomewhere(c, db, steps, project);
    DeadlineDrifts(c, db, steps, project);
  }

  // ----- The state an event names -----

  /** A step that does not arm the project keeps its deadline. */
  lemma StepDrifts(c: Catalog, db: Db, step: Step, project: int)
    requires WellFormed(c) && Inv(c, db) && Allowed(c, db, step) && project in db.projects
    requires Arms(db, step, project) == 0
    ensures var after := Apply(c, db, step);
            && Follows(db, after, project)
            && after.projects[project].deadlineAt == db.projects[project].deadlineAt
  {
    StateFollows(c, db, step, project);
  }

  lemma {:induction false} DeadlineDrifts(c: Catalog, db: Db, steps: seq<Step>, project: int)
    requires WellFormed(c) && Inv(c, db) && AllowedRun(c, db, steps) && project in db.projects
    requires Armings(c, db, steps, project) == 0
    ensures var after := Run(c, db, steps);
            && Follows(db, after, project)
            && after.projects[project].deadlineAt == db.projects[project].deadlineAt
  {
    if steps == [] {
      assert db.history[|db.history|..] == [];
    } else {
      var last := |steps| - 1;
      AllowedPrefix(c, db, steps, last);
      DeadlineDrifts(c, db, steps[..last], project);
      HistoryIsAPath(c, db, steps[..last]);
      var mid, after := Run(c, db, steps[..last]), Run(c, db, steps);
      StepDrifts(c, mid, steps[last], project);
      FollowsOn(mid, after, project, |db.history|, db.projects[project].stateId);
    }
  }

  /** A deadline armed in one state and not replaced fires with its own date for the state the history since then leads
      to: the state it was armed in exactly when that history leads back there. */
  lemma EventNamesLaterState(c: Catalog, db: Db, steps: seq<Step>, project: int, now: int)
    requires WellFormed(c) && Inv(c, db) && AllowedRun(c, db, steps) && project in db.projects
    requires Armings(c, db, steps, project) == 0 && Fire(Run(c, db, steps), project, now) != Run(c, db, steps)
    ensures var armed, mid := db.projects[project], Run(c, db, steps);
            && db.history <= mid.history && armed.deadlineAt.Some?
            && Fire(mid, project, now).outbox
               == mid.outbox + [DeadlineReached(project, LastTo(mid.history[|db.history|..], project, armed.stateId),
                                                armed.deadlineAt.value, now)]
  {
    DeadlineDrifts(c, db, steps, project);
  }

  /** A commit without a deadline of its own leaves the old one armed, which then fires for the state the commit
      entered. */
  lemma OldDeadlineNamesNewState(db: Db, req: CommitRequest, now: int)
    requires Commit(db, req).1 == Done && req.newDeadline.None? && req.toId != req.expectedFrom
    requires Active(if req.setStatus != "" then req.setStatus else req.toName)
    requires Pending(db, req.project) == 1 && db.projects[req.project].deadlineAt.value <= now
    ensures var after := Commit(db, req).0;
            Fire(after, req.project, now).outbox
            == after.outbox + [DeadlineReached(req.project, req.toId, db.projects[req.project].deadlineAt.value, now)]
  {
  }
}
