/** What each writer of the ledger stores, field by field, and what follows for names and times over runs. */
module LedgerWrites {
  import opened Wrappers
  import opened Ledger
  import opened LedgerRuns
  import Text

  // ----- One call -----

  /** No other project changed. */
  ghost predicate OthersKept(db: Db, after: Db, id: int)
  {
    after.projects.Keys == db.projects.Keys + {id}
    && forall k :: k in db.projects && k != id ==> after.projects[k] == db.projects[k]
  }

  /** The project took an edge to its target: its state, name and status are the target's, its deadline is as it was,
      and one row records the move. */
  ghost predicate Took(db: Db, after: Db, id: int, e: Edge, target: WfState, actor: int, comment: string, now: int)
    requires id in db.projects
  {
    && id in after.projects && OthersKept(db, after, id)
    && after.outbox == db.outbox
    && var p, q := db.projects[id], after.projects[id];
       && q.workflow == p.workflow && q.stateId == target.id && q.stateName == target.name && q.status == target.name
       && q.deadlineAt == p.deadlineAt && q.deadlineProcessed == p.deadlineProcessed
       && q.topicRegisteredAt == (if p.topicRegisteredAt.None? && e.event == "TOPIC_APPROVED" then Some(now)
                                  else p.topicRegisteredAt)
       && |after.history| == |db.history| + 1 && db.history <= after.history
       && var row := after.history[|db.history|];
          && row.project == id && row.event == e.event && row.fromId == e.from && row.toId == target.id
          && row.fromName == Text.TrimSpace(p.stateName) && row.toName == target.name
          && row.changedBy == actor && row.comment == Text.TrimSpace(comment)
  }

  /** Any successful advance takes an edge of its event in the project's workflow; a refused one writes nothing. */
  lemma AdvanceWrites(c: Catalog, db: Db, id: int, event: string, actor: int, comment: string, now: int)
    ensures var (after, reply) := Advance(c, db, id, event, actor, comment, now);
            && (reply != Done ==> after == db)
            && (reply == Done ==>
                  && id in db.projects
                  && exists e, t :: && e in c.edges && e.workflow == db.projects[id].workflow && e.event == event
                                    && t in c.states && t.id == e.to && Took(db, after, id, e, t, actor, comment, now))
  {
    var (after, reply) := Advance(c, db, id, event, actor, comment, now);
    if reply == Done {
      var p := db.projects[id];
      FirstEdgeFinds(c, c.edges, p, event, true);
      FirstEdgeFinds(c, c.edges, p, event, false);
      var e := FindEdge(c, p, event).value;
      FindStateFinds(c.states, e.to);
      var t := FindState(c.states, e.to).value;
      assert Took(db, after, id, e, t, actor, comment, now);
    }
  }

  /** A commit goes through exactly when the project is still where the client saw it. The deadline is replaced and
      waits again exactly when the request has one; without a status of its own the project takes the target's name. */
  lemma CommitWrites(db: Db, req: CommitRequest)
    ensures var (after, reply) := Commit(db, req);
            && (reply == Done <==> req.project in db.projects && db.projects[req.project].stateId == req.expectedFrom)
            && (reply != Done ==> after == db)
            && (reply == Done ==>
                  && req.project in after.projects && OthersKept(db, after, req.project)
                  && var p, q := db.projects[req.project], after.projects[req.project];
                     && q.workflow == p.workflow && q.stateId == req.toId && q.stateName == req.toName
                     && q.status == (if req.setStatus == "" then req.toName else req.setStatus)
                     && q.deadlineAt == (if req.newDeadline.Some? then req.newDeadline else p.deadlineAt)
                     && q.deadlineProcessed == (p.deadlineProcessed && req.newDeadline.None?)
                     && q.topicRegisteredAt == p.topicRegisteredAt
                     && |after.history| == |db.history| + 1 && db.history <= after.history
                     && db.outbox <= after.outbox
                     && var row := after.history[|db.history|];
                        && row.project == req.project && row.event == req.event && row.changedBy == req.changedBy
                        && row.fromId == req.expectedFrom && row.toId == req.toId
                        && row.fromName == p.stateName && row.toName == req.toName && row.comment == req.comment)
  {
  }

  /** A new project stands in a state of the list with that state's name, its deadline waiting: so many days of 86400
      seconds from now, or the state's fixed date. */
  lemma CreateWrites(db: Db, id: int, workflow: int, states: seq<WfState>, now: int)
    requires id !in db.projects
    ensures var (after, reply) := CreateProject(db, id, workflow, states, now);
            && (reply == Done <==> states != [])
            && (reply != Done ==> after == db)
            && (reply == Done ==>
                  && id in after.projects && OthersKept(db, after, id) && after.history == db.history
                  && exists s :: && s in states && (s.isInitial || forall t :: t in states ==> !t.isInitial)
                                 && after.outbox == db.outbox + [ProjectCreated(id, s.id)]
                                 && var q := after.projects[id];
                                    && q.workflow == workflow && q.stateId == s.id && q.stateName == q.status == s.name
                                    && !q.deadlineProcessed && q.topicRegisteredAt.None?
                                    && (s.durationDays > 0 ==> q.deadlineAt == Some(now + 86400 * s.durationDays))
                                    && (s.durationDays <= 0 ==> q.deadlineAt == s.fixedDeadline))
  {
    if states != [] {
      assert InitialState(states) in states;
    }
  }

  /** A live state of the project's workflow with the project's state name, display name or status, up to case. */
  predicate ByName(p: Project, s: WfState)
  {
    s.live && s.workflow == p.workflow
    && (|| Text.Upper(s.name) == Text.Upper(p.stateName) || Text.Upper(s.displayName) == Text.Upper(p.stateName)
        || Text.Upper(s.name) == Text.Upper(p.status))
  }

  predicate ByAntiplagiat(p: Project, s: WfState)
  {
    s.live && s.workflow == p.workflow
    && var name := Text.Upper(s.name);
       || name == "ANTIPLAGIAT" || name == "ANTIPLAGIAT_UPLOAD" || name == "ANTI_PLAGIAT" || name == "ANTIPLAGIAT_CHECK"
       || name == "CHECK_ANTIPLAGIAT"
  }

  /** Kept by a query and first in its order. */
  ghost predicate First(states: seq<WfState>, keep: WfState -> bool, s: WfState)
  {
    s in states && keep(s) && forall t :: t in states && keep(t) ==> s.order <= t.order
  }

  /** For an empty state id a state that matches by name, by display name or by status comes first, the lowest in order;
      only without one does the lowest antiplagiat state stand in. Nothing is written either way. */
  lemma EmptyIdPrefersName(c: Catalog, db: Db, id: int)
    requires WellFormed(c) && id in db.projects && db.projects[id].stateId == 0
    ensures var p := db.projects[id];
            var (after, context) := Submit(c, db, id);
            && after == db
            && (context.None? <==> forall s :: s in c.states ==> !ByName(p, s) && !ByAntiplagiat(p, s))
            && (context.Some? ==>
                  exists s :: && context.value == ReadAt(id, p, s)
                              && if exists t :: t in c.states && ByName(p, t) then First(c.states, t => ByName(p, t), s)
                                 else First(c.states, t => ByAntiplagiat(p, t), s))
  {
    var p := db.projects[id];
    LowestByName(c, p);
    LowestAntiplagiat(c, p);
    FallbacksAreLive(c, p);
    var named, other := Lowest(c.states, s => Matches(p, s)), Lowest(c.states, s => IsAntiplagiat(p, s));
    if named.Some? {
      ReadsState(c, db, id, named.value);
    } else if other.Some? {
      ReadsState(c, db, id, other.value);
    }
  }

  lemma LowestByName(c: Catalog, p: Project)
    ensures var r := Lowest(c.states, s => Matches(p, s));
            && (r.Some? ==> First(c.states, t => ByName(p, t), r.value) && ByName(p, r.value))
            && (r.None? <==> forall s :: s in c.states ==> !ByName(p, s))
  {
    var byName := (s: WfState) => Matches(p, s);
    LowestFinds(c.states, byName);
    forall s ensures byName(s) <==> ByName(p, s) {
    }
  }

  lemma LowestAntiplagiat(c: Catalog, p: Project)
    ensures var r := Lowest(c.states, s => IsAntiplagiat(p, s));
            && (r.Some? ==> First(c.states, t => ByAntiplagiat(p, t), r.value) && ByAntiplagiat(p, r.value))
            && (r.None? <==> forall s :: s in c.states ==> !ByAntiplagiat(p, s))
  {
    var antiplagiat := (s: WfState) => IsAntiplagiat(p, s);
    LowestFinds(c.states, antiplagiat);
    forall s ensures antiplagiat(s) <==> ByAntiplagiat(p, s) {
    }
  }

  /** The context a state gives: its own name where the project stores none. */
  function ReadAt(id: int, p: Project, s: WfState): SubmitContext
  {
    SubmitContext(id, p.workflow, s.id, if p.stateName == "" then s.name else p.stateName, p.status)
  }

  lemma ReadsState(c: Catalog, db: Db, id: int, s: WfState)
    requires WellFormed(c) && s in c.states && id in db.projects
    ensures ContextOf(c, id, db.projects[id], s.id) == ReadAt(id, db.projects[id], s)
    ensures s.live && s.workflow == db.projects[id].workflow ==> OwnLive(c.states, db.projects[id].workflow, s.id)
  {
    FindStateFinds(c.states, s.id);
    OwnLiveIsLive(c, db.projects[id].workflow, s.id);
  }

  // ----- Names in the history -----

  /** A row names the two states of the project's workflow it joins; an advance writes the left one trimmed. */
  ghost predicate RowNamed(c: Catalog, workflow: int, row: HistoryRow)
  {
    && Names(c, workflow, row.toId, row.toName)
    && exists s :: && s in c.states && s.live && s.workflow == workflow && s.id == row.fromId
                   && (row.fromName == s.name || row.fromName == Text.TrimSpace(s.name))
  }

  ghost predicate AllNamed(c: Catalog, db: Db)
  {
    forall j :: 0 <= j < |db.history| ==>
      db.history[j].project in db.projects && RowNamed(c, db.projects[db.history[j].project].workflow, db.history[j])
  }

  /** One more row over projects that keep their workflow. */
  lemma RowAddsName(c: Catalog, db: Db, after: Db)
    requires AllNamed(c, db) && Grows(db, after)
    requires after.history == db.history || |after.history| == |db.history| + 1
    requires |after.history| == |db.history| + 1 ==>
               var row := after.history[|db.history|];
               row.project in after.projects && RowNamed(c, after.projects[row.project].workflow, row)
    ensures AllNamed(c, after)
  {
    forall j | 0 <= j < |after.history|
      ensures after.history[j].project in after.projects
      ensures RowNamed(c, after.projects[after.history[j].project].workflow, after.history[j])
    {
      if j < |db.history| {
        assert after.history[j] == db.history[j];
      }
    }
  }

  lemma StepNamesRows(c: Catalog, db: Db, step: Step)
    requires WellFormed(c) && Inv(c, db) && AllNamed(c, db) && Allowed(c, db, step)
    ensures AllNamed(c, Apply(c, db, step))
  {
    var after := Apply(c, db, step);
    StepGrows(c, db, step);
    match step
    case CommitStep(req) => CommitNamesRow(c, db, req);
    case AdvanceStep(id, event, actor, comment, now) =>
      if id in db.projects { AdvanceNamesRow(c, db, id, event, actor, comment, now); }
    case _ =>
    RowAddsName(c, db, after);
  }

  lemma CommitNamesRow(c: Catalog, db: Db, req: CommitRequest)
    requires Inv(c, db) && Allowed(c, db, CommitStep(req))
    ensures var (after, reply) := Commit(db, req);
            && (reply != Done ==> after == db)
            && (reply == Done ==>
                  && req.project in db.projects && |after.history| == |db.history| + 1
                  && after.history[|db.history|].project == req.project
                  && RowNamed(c, db.projects[req.project].workflow, after.history[|db.history|]))
  {
    CommitWrites(db, req);
    if req.project in db.projects {
      assert Sound(c, db, req.project);
    }
  }

  lemma AdvanceNamesRow(c: Catalog, db: Db, id: int, event: string, actor: int, comment: string, now: int)
    requires WellFormed(c) && Inv(c, db) && id in db.projects
    ensures var (after, reply) := Advance(c, db, id, event, actor, comment, now);
            && (reply != Done ==> after == db)
            && (reply == Done ==>
                  && |after.history| == |db.history| + 1
                  && after.history[|db.history|].project == id
                  && RowNamed(c, db.projects[id].workflow, after.history[|db.history|]))
  {
    AdvanceFollowsEdge(c, db, id, event, actor, comment, now);
    assert Sound(c, db, id);
  }

  /** Over any run each history row names the states it joins. */
  lemma {:induction false} HistoryRowsNamed(c: Catalog, db: Db, steps: seq<Step>)
    requires WellFormed(c) && Inv(c, db) && AllowedRun(c, db, steps) && AllNamed(c, db)
    ensures AllNamed(c, Run(c, db, steps))
  {
    if steps != [] {
      var last := |steps| - 1;
      AllowedPrefix(c, db, steps, last);
      HistoryRowsNamed(c, db, steps[..last]);
      HistoryIsAPath(c, db, steps[..last]);
      StepNamesRows(c, Run(c, db, steps[..last]), steps[last]);
    }
  }

  // ----- The registration of a topic -----

  /** A successful advance of the project by the topic approval. */
  predicate Registers(c: Catalog, db: Db, step: Step, project: int)
  {
    && step.AdvanceStep? && step.project == project && step.event == "TOPIC_APPROVED"
    && Advance(c, db, project, step.event, step.actor, step.comment, step.now).1 == Done
  }

  ghost predicate RegistersAt(c: Catalog, db: Db, steps: seq<Step>, i: nat, project: int)
  {
    i < |steps| && Registers(c, Run(c, db, steps[..i]), steps[i], project)
  }

  lemma StepRegisters(c: Catalog, db: Db, step: Step, project: int)
    requires project in db.projects && Allowed(c, db, step)
    ensures var after := Apply(c, db, step);
            && project in after.projects
            && after.projects[project].topicRegisteredAt
               == if db.projects[project].topicRegisteredAt.None? && Registers(c, db, step, project) then Some(step.now)
                  else db.projects[project].topicRegisteredAt
  {
    match step
    case AdvanceStep(id, event, actor, comment, now) => AdvanceWrites(c, db, id, event, actor, comment, now);
    case CommitStep(req) => CommitWrites(db, req);
    case _ =>
  }

  /** No time without such an advance; with one, the time of the first. */
  ghost predicate FromFirst(c: Catalog, db: Db, steps: seq<Step>, project: int, at: Option<int>)
  {
    && (at.None? <==> forall i | 0 <= i < |steps| :: !RegistersAt(c, db, steps, i, project))
    && (at.Some? ==>
          exists i | 0 <= i < |steps| && RegistersAt(c, db, steps, i, project) ::
            at == Some(steps[i].now) && forall j | 0 <= j < i :: !RegistersAt(c, db, steps, j, project))
  }

  lemma FromFirstOn(c: Catalog, db: Db, steps: seq<Step>, project: int, before: Option<int>, at: Option<int>)
    requires steps != [] && FromFirst(c, db, steps[..|steps| - 1], project, before)
    requires before.None? && RegistersAt(c, db, steps, |steps| - 1, project) ==> at == Some(steps[|steps| - 1].now)
    requires before.Some? || !RegistersAt(c, db, steps, |steps| - 1, project) ==> at == before
    ensures FromFirst(c, db, steps, project, at)
  {
    var last := |steps| - 1;
    forall i | 0 <= i < last
      ensures RegistersAt(c, db, steps, i, project) <==> RegistersAt(c, db, steps[..last], i, project)
    {
      assert steps[..last][..i] == steps[..i];
    }
  }

  /** Over any run a project that had no registration time has one exactly from its first successful topic approval by
      event on, and it is the time of that advance. */
  lemma {:induction false} RegisteredAtFirstApproval(c: Catalog, db: Db, steps: seq<Step>, project: int)
    requires AllowedRun(c, db, steps) && project in db.projects && db.projects[project].topicRegisteredAt.None?
    ensures var after := Run(c, db, steps);
            project in after.projects && FromFirst(c, db, steps, project, after.projects[project].topicRegisteredAt)
  {
    if steps != [] {
      var last := |steps| - 1;
      AllowedPrefix(c, db, steps, last);
      RegisteredAtFirstApproval(c, db, steps[..last], project);
      var mid := Run(c, db, steps[..last]);
      StepRegisters(c, mid, steps[last], project);
      FromFirstOn(c, db, steps, project, mid.projects[project].topicRegisteredAt,
                  Run(c, db, steps).projects[project].topicRegisteredAt);
    }
  }
}
