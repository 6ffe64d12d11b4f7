/** Safety of the project ledger over every run of its writers. */
module LedgerRuns {
  import opened Wrappers
  import opened Ledger
  import Text

  // ----- Runs -----

  /** Atomic steps of any number of clients, schedulers working from lists of any age included. */
  datatype Step =
    | CreateStep(id: int, workflow: int, states: seq<WfState>, now: int)
    | CommitStep(req: CommitRequest)
    | AdvanceStep(project: int, event: string, actor: int, comment: string, now: int)
    | SubmitStep(project: int)
    | FireStep(project: int, now: int)

  function Apply(c: Catalog, db: Db, step: Step): Db
  {
    match step
    case CreateStep(id, workflow, states, now) => CreateProject(db, id, workflow, states, now).0
    case CommitStep(req) => Commit(db, req).0
    case AdvanceStep(id, event, actor, comment, now) => Advance(c, db, id, event, actor, comment, now).0
    case SubmitStep(id) => Submit(c, db, id).0
    case FireStep(id, now) => Fire(db, id, now)
  }

  function Run(c: Catalog, db: Db, steps: seq<Step>): Db
  {
    if steps == [] then db else Apply(c, Run(c, db, steps[..|steps| - 1]), steps[|steps| - 1])
  }

  /** Projects get unused ids and a live initial state; a commit names a live target of the project's
      own workflow by its name. */
  ghost predicate Allowed(c: Catalog, db: Db, step: Step)
  {
    match step
    case CreateStep(id, workflow, states, _) =>
      && id !in db.projects
      && workflow > 0
      && forall s :: s in states ==> s in c.states && s.live && s.workflow == workflow
    case CommitStep(req) =>
      req.project in db.projects ==> Names(c, db.projects[req.project].workflow, req.toId, req.toName)
    case _ => true
  }

  ghost predicate Names(c: Catalog, workflow: int, id: int, name: string)
  {
    exists s :: s in c.states && s.live && s.workflow == workflow && s.id == id && s.name == name
  }

  ghost predicate AllowedRun(c: Catalog, db: Db, steps: seq<Step>)
  {
    forall i :: 0 <= i < |steps| ==> Allowed(c, Run(c, db, steps[..i]), steps[i])
  }

  lemma RunPrefix(c: Catalog, db: Db, steps: seq<Step>, i: nat)
    requires i < |steps|
    ensures Run(c, db, steps[..i + 1]) == Apply(c, Run(c, db, steps[..i]), steps[i])
  {
    assert steps[..i + 1][..i] == steps[..i];
  }

  // ----- History is a path -----

  /** Where the history leaves a project that started at `start`. */
  function LastTo(history: seq<HistoryRow>, project: int, start: int): int
  {
    if history == [] then start
    else if history[|history| - 1].project == project then history[|history| - 1].toId
    else LastTo(history[..|history| - 1], project, start)
  }

  /** Every row of the project leaves the state where its previous row, or its creation, put it. */
  ghost predicate Chained(history: seq<HistoryRow>, project: int, start: int)
  {
    forall j :: 0 <= j < |history| && history[j].project == project ==>
      history[j].fromId == LastTo(history[..j], project, start)
  }

  /** The initial state recorded in a project's creation event. */
  function Start(outbox: seq<OutboxEvent>, project: int): int
  {
    if outbox == [] then 0
    else
      var last := outbox[|outbox| - 1];
      if last.ProjectCreated? && last.project == project then last.initialState
      else Start(outbox[..|outbox| - 1], project)
  }

  ghost predicate Sound(c: Catalog, db: Db, id: int)
    requires id in db.projects
  {
    var p := db.projects[id];
    && p.workflow > 0
    && Names(c, p.workflow, p.stateId, p.stateName)
    && Chained(db.history, id, Start(db.outbox, id))
    && LastTo(db.history, id, Start(db.outbox, id)) == p.stateId
  }

  /** The ledger invariant. */
  ghost predicate Inv(c: Catalog, db: Db)
  {
    && (forall id {:trigger Sound(c, db, id)} :: id in db.projects ==> Sound(c, db, id))
    && (forall j :: 0 <= j < |db.history| ==> db.history[j].project in db.projects)
  }

  lemma {:induction false} StartUnchanged(before: seq<OutboxEvent>, more: seq<OutboxEvent>, project: int)
    requires forall e :: e in more ==> !(e.ProjectCreated? && e.project == project)
    ensures Start(before + more, project) == Start(before, project)
  {
    if more == [] {
      assert before + more == before;
    } else {
      var last := |more| - 1;
      assert (before + more)[..|before + more| - 1] == before + more[..last];
      StartUnchanged(before, more[..last], project);
    }
  }

  /** A commit's outbox events are exactly its groups that name an action. */
  lemma {:induction false} PostEventsExactly(project: int, stateId: int, groups: seq<ActionGroup>)
    ensures forall e :: e in PostEvents(project, stateId, groups) <==>
              exists g :: g in groups && g.actionIds != []
                && e == PostCommitActions(project, stateId, g.trigger, g.actionIds)
  {
    if groups != [] {
      PostEventsExactly(project, stateId, groups[..|groups| - 1]);
      assert groups == groups[..|groups| - 1] + [groups[|groups| - 1]];
    }
  }

  /** And they come in the order of the groups. */
  lemma {:induction false} PostEventsInOrder(project: int, stateId: int, a: seq<ActionGroup>, b: seq<ActionGroup>)
    ensures PostEvents(project, stateId, a + b) == PostEvents(project, stateId, a) + PostEvents(project, stateId, b)
    ensures forall g: ActionGroup :: PostEvents(project, stateId, [g])
              == if g.actionIds == [] then [] else [PostCommitActions(project, stateId, g.trigger, g.actionIds)]
  {
    forall g: ActionGroup
      ensures PostEvents(project, stateId, [g])
              == if g.actionIds == [] then [] else [PostCommitActions(project, stateId, g.trigger, g.actionIds)]
    {
      assert [g][..0] == [] && PostEvents(project, stateId, []) == [];
    }
    if b == [] {
      assert a + b == a;
    } else {
      var last := |b| - 1;
      assert (a + b)[..|a + b| - 1] == a + b[..last];
      PostEventsInOrder(project, stateId, a, b[..last]);
    }
  }

  lemma {:induction false} LastToForeign(history: seq<HistoryRow>, project: int, start: int)
    requires forall j :: 0 <= j < |history| ==> history[j].project != project
    ensures LastTo(history, project, start) == start
  {
    if history != [] {
      LastToForeign(history[..|history| - 1], project, start);
    }
  }

  lemma ChainedAppend(history: seq<HistoryRow>, row: HistoryRow, project: int, start: int)
    requires Chained(history, project, start)
    requires row.project == project ==> row.fromId == LastTo(history, project, start)
    ensures Chained(history + [row], project, start)
    ensures LastTo(history + [row], project, start)
            == if row.project == project then row.toId else LastTo(history, project, start)
  {
    var all := history + [row];
    assert all[..|history|] == history;
    forall j | 0 <= j < |all| && all[j].project == project
      ensures all[j].fromId == LastTo(all[..j], project, start)
    {
      if j < |history| {
        assert all[..j] == history[..j];
      }
    }
  }

  // ----- The edge a well-formed workflow finds -----

  lemma {:induction false} FirstEdgeFinds(c: Catalog, edges: seq<Edge>, p: Project, event: string, exact: bool)
    ensures var r := FirstEdge(c, edges, p, event, exact);
            && (r.Some? ==> r.value in edges && Eligible(c.states, p, event, r.value)
                            && (exact ==> r.value.from == p.stateId))
            && (r.None? ==> forall e :: e in edges ==>
                !(Eligible(c.states, p, event, e) && (exact ==> e.from == p.stateId)))
  {
    if edges != [] && !(Eligible(c.states, p, event, edges[0]) && (exact ==> edges[0].from == p.stateId)) {
      FirstEdgeFinds(c, edges[1..], p, event, exact);
      assert forall e :: e in edges ==> e == edges[0] || e in edges[1..];
    }
  }

  /** The edge found is the one leaving the state of the stored name, when the stored id is that state's or
      is no live state of the workflow at all. */
  lemma EdgeLeavesNamed(c: Catalog, p: Project, s: WfState, event: string, e: Edge)
    requires WellFormed(c)
    requires s in c.states && s.live && s.workflow == p.workflow && Text.Fold(s.name) == Text.Fold(p.stateName)
    requires p.stateId == s.id || !IsLive(c, p.workflow, p.stateId)
    ensures FindEdge(c, p, event) == Some(e)
            <==> e in c.edges && e.workflow == p.workflow && e.event == event && e.from == s.id
  {
    FirstEdgeFinds(c, c.edges, p, event, true);
    FirstEdgeFinds(c, c.edges, p, event, false);
    var k :| 0 <= k < |c.states| && c.states[k] == s;
    forall f | f in c.edges && Eligible(c.states, p, event, f) ensures f.from == s.id {
      var i :| 0 <= i < |c.states| && c.states[i].id == f.from && c.states[i].live
               && (f.from == p.stateId || Text.Fold(c.states[i].name) == Text.Fold(p.stateName));
      assert IsLive(c, f.workflow, f.from);
      assert c.states[i] in c.states;
    }
    if e in c.edges && e.workflow == p.workflow && e.event == event && e.from == s.id {
      assert Eligible(c.states, p, event, e);
    }
  }

  lemma {:induction false} FindStateFinds(states: seq<WfState>, id: int)
    ensures var r := FindState(states, id);
            && (r.Some? ==> r.value in states && r.value.id == id)
            && (r.None? ==> forall s :: s in states ==> s.id != id)
  {
    if states != [] && states[0].id != id {
      FindStateFinds(states[1..], id);
      assert forall s :: s in states ==> s == states[0] || s in states[1..];
    }
  }

  /** On a sound project an advance follows the edge of its event out of the current state, and fails
      exactly when there is none. */
  lemma AdvanceFollowsEdge(c: Catalog, db: Db, id: int, event: string, actor: int, comment: string, now: int)
    requires WellFormed(c) && Inv(c, db) && id in db.projects
    ensures var p := db.projects[id];
            var (after, reply) := Advance(c, db, id, event, actor, comment, now);
            && (reply == Done <==>
                  exists e :: e in c.edges && e.workflow == p.workflow && e.event == event && e.from == p.stateId)
            && (reply != Done ==> after == db)
            && (reply == Done ==>
                  exists e, t :: && e in c.edges && e.workflow == p.workflow && e.event == event && e.from == p.stateId
                                 && t in c.states && t.live && t.workflow == p.workflow && t.id == e.to
                                 && after == Moved(db, id, e, t.name, event, actor, comment, now))
  {
    var p := db.projects[id];
    assert Sound(c, db, id);
    var s :| s in c.states && s.live && s.workflow == p.workflow && s.id == p.stateId && s.name == p.stateName;
    forall e ensures FindEdge(c, p, event) == Some(e)
                     <==> e in c.edges && e.workflow == p.workflow && e.event == event && e.from == p.stateId
    {
      EdgeLeavesNamed(c, p, s, event, e);
    }
    var found := FindEdge(c, p, event);
    if found.Some? {
      var e := found.value;
      assert IsLive(c, e.workflow, e.to);
      FindStateFinds(c.states, e.to);
      var t := FindState(c.states, e.to).value;
      assert Advance(c, db, id, event, actor, comment, now)
          == (Moved(db, id, e, t.name, event, actor, comment, now), Done);
    }
  }

  /** On a sound project the submit context changes nothing and returns the stored state. */
  lemma SubmitReads(c: Catalog, db: Db, id: int)
    requires WellFormed(c) && Inv(c, db) && id in db.projects
    ensures var p := db.projects[id];
            Submit(c, db, id) == (db, Some(SubmitContext(id, p.workflow, p.stateId, p.stateName, p.status)))
  {
    var p := db.projects[id];
    assert Sound(c, db, id);
    var s :| s in c.states && s.live && s.workflow == p.workflow && s.id == p.stateId && s.name == p.stateName;
    var i :| 0 <= i < |c.states| && c.states[i] == s;
    assert OwnLive(c.states, p.workflow, p.stateId);
    assert Text.TrimSpace("") == "";
  }

  // ----- The invariant over every run -----

  lemma SoundAfterRow(c: Catalog, db: Db, after: Db, row: HistoryRow, more: seq<OutboxEvent>)
    requires Inv(c, db) && row.project in db.projects
    requires after.history == db.history + [row] && after.outbox == db.outbox + more
    requires forall e :: e in more ==> !e.ProjectCreated?
    requires row.fromId == db.projects[row.project].stateId
    requires after.projects.Keys == db.projects.Keys
    requires forall id :: id in db.projects && id != row.project ==> after.projects[id] == db.projects[id]
    requires after.projects[row.project].stateId == row.toId
    requires after.projects[row.project].workflow == db.projects[row.project].workflow
    requires Names(c, after.projects[row.project].workflow, row.toId, after.projects[row.project].stateName)
    ensures Inv(c, after)
  {
    forall id | id in after.projects ensures Sound(c, after, id) {
      assert Sound(c, db, id);
      StartUnchanged(db.outbox, more, id);
      ChainedAppend(db.history, row, id, Start(db.outbox, id));
    }
  }

  lemma CreateKeepsInv(c: Catalog, db: Db, id: int, workflow: int, states: seq<WfState>, now: int)
    requires Inv(c, db) && Allowed(c, db, CreateStep(id, workflow, states, now)) && states != []
    ensures Inv(c, CreateProject(db, id, workflow, states, now).0)
  {
    var after := CreateProject(db, id, workflow, states, now).0;
    var event := ProjectCreated(id, InitialState(states).id);
    forall other | other in after.projects ensures Sound(c, after, other) {
      if other == id {
        assert after.outbox[|after.outbox| - 1] == event;
        LastToForeign(db.history, id, event.initialState);
      } else {
        assert Sound(c, db, other);
        StartUnchanged(db.outbox, [event], other);
      }
    }
  }

  lemma CommitKeepsInv(c: Catalog, db: Db, req: CommitRequest)
    requires Inv(c, db) && Allowed(c, db, CommitStep(req)) && Commit(db, req).1 == Done
    ensures Inv(c, Commit(db, req).0)
  {
    var p := db.projects[req.project];
    PostEventsExactly(req.project, req.toId, req.postActions);
    SoundAfterRow(c, db, Commit(db, req).0,
                  HistoryRow(req.project, req.event, p.stateId, req.toId, p.stateName, req.toName, req.changedBy,
                             req.comment),
                  PostEvents(req.project, req.toId, req.postActions));
  }

  lemma MoveKeepsInv(c: Catalog, db: Db, id: int, e: Edge, t: WfState, event: string, actor: int, comment: string,
                     now: int)
    requires Inv(c, db) && id in db.projects && e.from == db.projects[id].stateId && t.id == e.to
    requires t in c.states && t.live && t.workflow == db.projects[id].workflow
    ensures Inv(c, Moved(db, id, e, t.name, event, actor, comment, now))
  {
    var after := Moved(db, id, e, t.name, event, actor, comment, now);
    assert after.outbox == db.outbox + [];
    SoundAfterRow(c, db, after,
                  HistoryRow(id, event, e.from, e.to, Text.TrimSpace(db.projects[id].stateName), t.name, actor,
                             Text.TrimSpace(comment)), []);
  }

  lemma FireKeepsInv(c: Catalog, db: Db, id: int, now: int)
    requires Inv(c, db) && Fire(db, id, now) != db
    ensures Inv(c, Fire(db, id, now))
  {
    var after := Fire(db, id, now);
    var event := after.outbox[|db.outbox|];
    forall other | other in after.projects ensures Sound(c, after, other) {
      assert Sound(c, db, other);
      StartUnchanged(db.outbox, [event], other);
    }
  }

  lemma StepKeepsInv(c: Catalog, db: Db, step: Step)
    requires WellFormed(c) && Inv(c, db) && Allowed(c, db, step)
    ensures Inv(c, Apply(c, db, step))
  {
    match step
    case CreateStep(id, workflow, states, now) =>
      if states != [] { CreateKeepsInv(c, db, id, workflow, states, now); }
    case CommitStep(req) =>
      if Commit(db, req).1 == Done { CommitKeepsInv(c, db, req); }
    case AdvanceStep(id, event, actor, comment, now) =>
      if id in db.projects {
        AdvanceFollowsEdge(c, db, id, event, actor, comment, now);
        var (after, reply) := Advance(c, db, id, event, actor, comment, now);
        if reply == Done {
          var p := db.projects[id];
          var e, t :| && e in c.edges && e.workflow == p.workflow && e.event == event && e.from == p.stateId
                      && t in c.states && t.live && t.workflow == p.workflow && t.id == e.to
                      && after == Moved(db, id, e, t.name, event, actor, comment, now);
          MoveKeepsInv(c, db, id, e, t, event, actor, comment, now);
        }
      }
    case SubmitStep(id) =>
      if id in db.projects { SubmitReads(c, db, id); }
    case FireStep(id, now) =>
      if Fire(db, id, now) != db { FireKeepsInv(c, db, id, now); }
  }

  lemma AllowedPrefix(c: Catalog, db: Db, steps: seq<Step>, n: nat)
    requires AllowedRun(c, db, steps) && n <= |steps|
    ensures AllowedRun(c, db, steps[..n])
  {
    forall i | 0 <= i < n ensures Allowed(c, Run(c, db, steps[..n][..i]), steps[..n][i]) {
      assert steps[..n][..i] == steps[..i];
    }
  }

  /** Over every allowed run each project's history is a path from its initial state to its current state,
      and its state name is the name of its state id. */
  lemma {:induction false} HistoryIsAPath(c: Catalog, db: Db, steps: seq<Step>)
    requires WellFormed(c) && Inv(c, db) && AllowedRun(c, db, steps)
    ensures Inv(c, Run(c, db, steps))
  {
    if steps != [] {
      var last := |steps| - 1;
      AllowedPrefix(c, db, steps, last);
      HistoryIsAPath(c, db, steps[..last]);
      StepKeepsInv(c, Run(c, db, steps[..last]), steps[last]);
    }
  }

  lemma EmptyIsSound(c: Catalog)
    ensures Inv(c, EMPTY)
  {
  }

  // ----- The compare-and-set -----

  /** A row of the project that leads to the state, written between two lengths of the history. */
  ghost predicate Returned(history: seq<HistoryRow>, low: int, high: int, project: int, state: int)
  {
    exists k :: 0 <= low <= k < high <= |history| && history[k].project == project && history[k].toId == state
  }

  /** The row a later one leaves from lies after any earlier row that led elsewhere. */
  lemma {:induction false} ReturnRow(history: seq<HistoryRow>, i: nat, project: int, start: int)
    requires i < |history| && history[i].project == project
    ensures exists k :: i <= k < |history| && history[k].project == project
                        && history[k].toId == LastTo(history, project, start)
  {
    var last := |history| - 1;
    if history[last].project != project {
      ReturnRow(history[..last], i, project, start);
      var k :| i <= k < last && history[..last][k].project == project
               && history[..last][k].toId == LastTo(history[..last], project, start);
      assert history[k].project == project;
    }
  }

  /** Two rows of one project, the first leading away from the state the second leaves, are separated by
      a row that led back to it. */
  lemma RowsNeedAReturn(c: Catalog, db: Db, i: nat, j: nat)
    requires Inv(c, db) && i < j < |db.history|
    requires db.history[i].project == db.history[j].project
    requires db.history[i].toId != db.history[j].fromId
    ensures Returned(db.history, i + 1, j, db.history[j].project, db.history[j].fromId)
  {
    var id := db.history[j].project;
    assert Sound(c, db, id);
    var start := Start(db.outbox, id);
    assert db.history[j].fromId == LastTo(db.history[..j], id, start);
    ReturnRow(db.history[..j], i, id, start);
    var k :| i <= k < j && db.history[..j][k].project == id
        && db.history[..j][k].toId == LastTo(db.history[..j], id, start);
    assert db.history[k].project == id && db.history[k].toId == db.history[j].fromId;
  }

  lemma {:induction false} HistoryGrows(c: Catalog, db: Db, steps: seq<Step>, i: nat)
    requires i <= |steps|
    ensures Run(c, db, steps[..i]).history <= Run(c, db, steps).history
    decreases |steps| - i
  {
    if i < |steps| {
      RunPrefix(c, db, steps, i);
      HistoryGrows(c, db, steps, i + 1);
    } else {
      assert steps[..i] == steps;
    }
  }

  /** Between two successful commits that expect the same state some row led back to that state: no two
      clients leave one visit. */
  lemma CommitsNeedAReturn(c: Catalog, db: Db, steps: seq<Step>, i: nat, j: nat)
    requires WellFormed(c) && Inv(c, db) && AllowedRun(c, db, steps) && i < j < |steps|
    requires steps[i].CommitStep? && steps[j].CommitStep?
    requires steps[i].req.project == steps[j].req.project && steps[i].req.expectedFrom == steps[j].req.expectedFrom
    requires Commit(Run(c, db, steps[..i]), steps[i].req).1 == Done
    requires Commit(Run(c, db, steps[..j]), steps[j].req).1 == Done
    ensures var before, after := Run(c, db, steps[..i]), Run(c, db, steps[..j]);
            && before.history <= after.history
            && Returned(after.history, |before.history|, |after.history|, steps[j].req.project,
                        steps[j].req.expectedFrom)
  {
    var req := steps[i].req;
    var before, after := Run(c, db, steps[..i]), Run(c, db, steps[..j]);
    CommitStays(c, db, steps, i, j);
    AllowedPrefix(c, db, steps, j);
    HistoryIsAPath(c, db, steps[..j]);
    assert Sound(c, after, req.project);
    ReturnRow(after.history, |before.history|, req.project, Start(after.outbox, req.project));
  }

  /** The row a commit wrote is still where it was put. */
  lemma CommitStays(c: Catalog, db: Db, steps: seq<Step>, i: nat, j: nat)
    requires i < j <= |steps| && steps[i].CommitStep? && Commit(Run(c, db, steps[..i]), steps[i].req).1 == Done
    ensures var before, after := Run(c, db, steps[..i]), Run(c, db, steps[..j]);
            && before.history <= after.history
            && |before.history| < |after.history|
            && after.history[|before.history|].project == steps[i].req.project
  {
    var before, mid, after := Run(c, db, steps[..i]), Run(c, db, steps[..i + 1]), Run(c, db, steps[..j]);
    RunPrefix(c, db, steps, i);
    assert steps[..j][..i + 1] == steps[..i + 1];
    HistoryGrows(c, db, steps[..j], i + 1);
    assert mid.history[|before.history|] == after.history[|before.history|];
  }

  // ----- The repair of a drifted state id -----

  lemma {:induction false} LowestFinds(states: seq<WfState>, keep: WfState -> bool)
    ensures var r := Lowest(states, keep);
            && (r.Some? ==> r.value in states && keep(r.value)
                            && forall s :: s in states && keep(s) ==> r.value.order <= s.order)
            && (r.None? ==> forall s :: s in states ==> !keep(s))
  {
    if states != [] {
      LowestFinds(states[1..], keep);
      assert forall s :: s in states ==> s == states[0] || s in states[1..];
    }
  }

  lemma OwnLiveIsLive(c: Catalog, workflow: int, id: int)
    ensures OwnLive(c.states, workflow, id) <==> IsLive(c, workflow, id)
  {
  }

  /** The two fallback queries find a live state of the project's workflow whenever one qualifies. */
  lemma FallbacksAreLive(c: Catalog, p: Project)
    requires WellFormed(c)
    ensures var named := IdOr0(Lowest(c.states, s => Matches(p, s)));
            && (named != 0 <==> exists s :: s in c.states && Matches(p, s))
            && (named != 0 ==> IsLive(c, p.workflow, named))
    ensures var other := IdOr0(Lowest(c.states, s => IsAntiplagiat(p, s)));
            && (other != 0 <==> exists s :: s in c.states && IsAntiplagiat(p, s))
            && (other != 0 ==> IsLive(c, p.workflow, other))
  {
    var byName, antiplagiat := (s: WfState) => Matches(p, s), (s: WfState) => IsAntiplagiat(p, s);
    LowestFinds(c.states, byName);
    LowestFinds(c.states, antiplagiat);
    assert forall s :: byName(s) <==> Matches(p, s);
    assert forall s :: antiplagiat(s) <==> IsAntiplagiat(p, s);
  }

  /** When a context is returned: the stored id is a live state of the project's workflow, or some live state
      matches by name, or the id is empty and the workflow has an antiplagiat state. The state it names is
      always a live state of that workflow. */
  lemma SubmitIsLive(c: Catalog, db: Db, id: int)
    requires WellFormed(c)
    ensures var context := Submit(c, db, id).1;
            && (context.Some? ==> id in db.projects && IsLive(c, db.projects[id].workflow, context.value.stateId))
            && (context.Some? <==>
                  && id in db.projects
                  && var p := db.projects[id];
                     || (p.stateId != 0 && IsLive(c, p.workflow, p.stateId))
                     || (exists s :: s in c.states && Matches(p, s))
                     || (p.stateId == 0 && exists s :: s in c.states && IsAntiplagiat(p, s)))
  {
    if id in db.projects {
      var p := db.projects[id];
      FallbacksAreLive(c, p);
      OwnLiveIsLive(c, p.workflow, p.stateId);
      OwnLiveIsLive(c, p.workflow, IdOr0(Lowest(c.states, s => Matches(p, s))));
      OwnLiveIsLive(c, p.workflow, IdOr0(Lowest(c.states, s => IsAntiplagiat(p, s))));
    }
  }

  /** The one live state a drifted project points at by its name. */
  ghost predicate DriftsTo(c: Catalog, p: Project, s: WfState)
  {
    && p.stateId != 0
    && !IsLive(c, p.workflow, p.stateId)
    && s in c.states
    && Matches(p, s)
    && Text.Upper(s.name) == Text.Upper(p.stateName)
    && forall t :: t in c.states && Matches(p, t) ==> t == s
  }

  /** The repair writes that state's id. */
  lemma RepairWritesIt(c: Catalog, db: Db, id: int, s: WfState)
    requires WellFormed(c) && id in db.projects && DriftsTo(c, db.projects[id], s)
    ensures Submit(c, db, id).0 == db.(projects := db.projects[id := db.projects[id].(stateId := s.id)])
  {
    var p := db.projects[id];
    var byName := (t: WfState) => Matches(p, t);
    LowestFinds(c.states, byName);
    assert byName(s);
    OwnLiveIsLive(c, p.workflow, p.stateId);
  }

  /** Before and after the repair an event finds the same edge. */
  lemma SameEdge(c: Catalog, p: Project, s: WfState, event: string)
    requires WellFormed(c) && DriftsTo(c, p, s)
    ensures FindEdge(c, p, event) == FindEdge(c, p.(stateId := s.id), event)
  {
    var q := p.(stateId := s.id);
    Text.FoldFollowsUpper(s.name, p.stateName);
    forall e ensures FindEdge(c, p, event) == Some(e) <==> FindEdge(c, q, event) == Some(e) {
      EdgeLeavesNamed(c, p, s, event, e);
      EdgeLeavesNamed(c, q, s, event, e);
    }
    var one, two := FindEdge(c, p, event), FindEdge(c, q, event);
    assert one.Some? ==> two == Some(one.value);
  }

  /** Repairing a drifted id and advancing by name agree: the advance succeeds without the repair exactly
      when it does after it, and then both leave the same tables. */
  lemma AdvanceAgreesWithRepair(c: Catalog, db: Db, id: int, s: WfState, event: string, actor: int, comment: string,
                                now: int)
    requires WellFormed(c) && id in db.projects && DriftsTo(c, db.projects[id], s)
    ensures var repaired := Submit(c, db, id).0;
            && repaired == db.(projects := db.projects[id := db.projects[id].(stateId := s.id)])
            && var direct, later := Advance(c, db, id, event, actor, comment, now),
                                    Advance(c, repaired, id, event, actor, comment, now);
               && direct.1 == later.1
               && (direct.1 == Done ==> direct.0 == later.0)
               && (direct.1 != Done ==> direct.0 == db && later.0 == repaired)
  {
    RepairWritesIt(c, db, id, s);
    SameEdge(c, db.projects[id], s, event);
    var edge := FindEdge(c, db.projects[id], event);
    if edge.Some? {
      var p, e := db.projects[id], edge.value;
      var repaired := db.(projects := db.projects[id := p.(stateId := s.id)]);
      forall name ensures Moved(db, id, e, name, event, actor, comment, now)
                          == Moved(repaired, id, e, name, event, actor, comment, now)
      {
        var moved := Moved(db, id, e, name, event, actor, comment, now).projects[id];
        assert db.projects[id := moved] == repaired.projects[id := moved];
      }
    }
  }

  // ----- Growth -----

  /** Steps only append history, and never change a project's workflow or the time its topic was registered. */
  ghost predicate Grows(db: Db, after: Db)
  {
    && db.history <= after.history
    && db.projects.Keys <= after.projects.Keys
    && forall id :: id in db.projects ==>
         && after.projects[id].workflow == db.projects[id].workflow
         && (db.projects[id].topicRegisteredAt.Some? ==>
             after.projects[id].topicRegisteredAt == db.projects[id].topicRegisteredAt)
  }

  lemma StepGrows(c: Catalog, db: Db, step: Step)
    requires Allowed(c, db, step)
    ensures Grows(db, Apply(c, db, step))
  {
  }

  lemma {:induction false} RunGrows(c: Catalog, db: Db, steps: seq<Step>)
    requires AllowedRun(c, db, steps)
    ensures Grows(db, Run(c, db, steps))
  {
    if steps != [] {
      var last := |steps| - 1;
      AllowedPrefix(c, db, steps, last);
      RunGrows(c, db, steps[..last]);
      StepGrows(c, Run(c, db, steps[..last]), steps[last]);
    }
  }

  // ----- The state follows the history -----

  /** The history grew, and the project's state is where the new rows lead from its old state. */
  ghost predicate Follows(db: Db, after: Db, project: int)
    requires project in db.projects
  {
    && project in after.projects && after.projects[project].workflow == db.projects[project].workflow
    && db.history <= after.history
    && after.projects[project].stateId
       == LastTo(after.history[|db.history|..], project, db.projects[project].stateId)
  }

  /** No step moves a project but by a history row of its own. */
  lemma StateFollows(c: Catalog, db: Db, step: Step, project: int)
    requires WellFormed(c) && Inv(c, db) && Allowed(c, db, step) && project in db.projects
    ensures Follows(db, Apply(c, db, step), project)
  {
    var after := Apply(c, db, step);
    match step
    case SubmitStep(id) =>
      if id in db.projects { SubmitReads(c, db, id); }
      assert after.history[|db.history|..] == [];
    case CommitStep(req) =>
      if Commit(db, req).1 == Done {
        OneRowSince(db.history, after.history);
      } else {
        assert after.history[|db.history|..] == [];
      }
    case AdvanceStep(id, event, actor, comment, now) =>
      if Advance(c, db, id, event, actor, comment, now).1 == Done {
        OneRowSince(db.history, after.history);
      } else {
        assert after.history[|db.history|..] == [];
      }
    case _ =>
      assert after.history[|db.history|..] == [];
  }

  /** A state that follows the history since some point follows it after one more step. */
  lemma FollowsOn(mid: Db, after: Db, project: int, n: nat, start: int)
    requires project in mid.projects && Follows(mid, after, project) && n <= |mid.history|
    requires mid.projects[project].stateId == LastTo(mid.history[n..], project, start)
    ensures after.projects[project].stateId == LastTo(after.history[n..], project, start)
  {
    var since, cut := after.history[n..], |mid.history| - n;
    LastToSplits(since, cut, project, start);
    assert since[..cut] == mid.history[n..] && since[cut..] == after.history[|mid.history|..];
  }

  lemma OneRowSince(before: seq<HistoryRow>, after: seq<HistoryRow>)
    requires before <= after && |after| == |before| + 1
    ensures after[|before|..] == [after[|before|]] && after[|before|..][..0] == []
  {
  }

  lemma {:induction false} LastToSplits(history: seq<HistoryRow>, n: nat, project: int, start: int)
    requires n <= |history|
    ensures LastTo(history, project, start) == LastTo(history[n..], project, LastTo(history[..n], project, start))
    decreases |history| - n
  {
    if n == |history| {
      assert history[..n] == history && history[n..] == [];
    } else {
      var last := |history| - 1;
      assert history[n..][..last - n] == history[..last][n..] && history[..last][..n] == history[..n];
      LastToSplits(history[..last], n, project, start);
    }
  }
}
