/** The project rows, their state history and the outbox, with every writer of a project's state:
    creation and CommitTransition (internal/project/service.go), AdvanceProjectByWorkflowEvent and the
    repair inside GetProjectSubmitContext (internal/admin/repository.go), and the deadline scheduler. */
module Ledger {
  import opened Wrappers
  import Text

  // ----- The workflow definition -----

  datatype WfState = WfState(id: int, workflow: int, name: string, displayName: string, order: int, live: bool,
                             isInitial: bool, durationDays: int, fixedDeadline: Option<int>)
  datatype Edge = Edge(id: int, workflow: int, event: string, from: int, to: int)
  datatype Catalog = Catalog(states: seq<WfState>, edges: seq<Edge>)

  ghost predicate IsLive(c: Catalog, workflow: int, id: int)
  {
    exists s :: s in c.states && s.live && s.workflow == workflow && s.id == id
  }

  /** The workflow hypotheses: the keys and unique indexes of the schema, edges between live states of
      their own workflow, and live names that differ by more than case and surrounding spaces. */
  ghost predicate WellFormed(c: Catalog)
  {
    && (forall s, t :: s in c.states && t in c.states && s.id == t.id ==> s == t)
    && (forall s :: s in c.states ==> 0 < s.id)
    && (forall s :: s in c.states && s.live ==> Text.TrimSpace(s.name) != "")
    && (forall s, t | s in c.states && t in c.states && s.live && t.live && s.workflow == t.workflow ::
          Text.Fold(s.name) == Text.Fold(t.name) ==> s == t)
    && (forall e :: e in c.edges ==> IsLive(c, e.workflow, e.from) && IsLive(c, e.workflow, e.to))
    && (forall e, f | e in c.edges && f in c.edges && e.workflow == f.workflow && e.event == f.event ::
          e.from == f.from ==> e == f)
  }

  function FindState(states: seq<WfState>, id: int): Option<WfState>
  {
    if states == [] then None else if states[0].id == id then Some(states[0]) else FindState(states[1..], id)
  }

  // ----- The rows -----

  datatype Project = Project(workflow: int, stateId: int, stateName: string, status: string,
                             deadlineAt: Option<int>, deadlineProcessed: bool, topicRegisteredAt: Option<int>)
  datatype HistoryRow = HistoryRow(project: int, event: string, fromId: int, toId: int, fromName: string,
                                   toName: string, changedBy: int, comment: string)
  datatype OutboxEvent =
    | ProjectCreated(project: int, initialState: int)
    | PostCommitActions(project: int, stateId: int, trigger: string, actionIds: seq<int>)
    | DeadlineReached(project: int, stateId: int, deadlineAt: int, at: int)
  datatype Db = Db(projects: map<int, Project>, history: seq<HistoryRow>, outbox: seq<OutboxEvent>)

  const EMPTY := Db(map[], [], [])

  datatype Reply = Done | NotFound | Stale | InvalidState | NoTransition | NoTarget | NoInitialState

  // ----- Creation -----

  const DAY := 86400

  /** The first state marked initial, else the first state of the list. */
  function InitialState(states: seq<WfState>): (s: WfState)
    requires states != []
    ensures s.isInitial ==>
              exists i | 0 <= i < |states| && states[i] == s :: forall j | 0 <= j < i :: !states[j].isInitial
    ensures !s.isInitial ==> s == states[0] && forall j | 0 <= j < |states| :: !states[j].isInitial
  {
    FirstInitial(states, states[0])
  }

  function FirstInitial(states: seq<WfState>, default: WfState): (s: WfState)
    ensures || (exists i | 0 <= i < |states| && states[i] == s && s.isInitial ::
                  forall j | 0 <= j < i :: !states[j].isInitial)
            || (s == default && forall j | 0 <= j < |states| :: !states[j].isInitial)
  {
    if states == [] then default else if states[0].isInitial then states[0] else FirstInitial(states[1..], default)
  }

  function InitialDeadline(s: WfState, now: int): Option<int>
  {
    if s.durationDays > 0 then Some(now + s.durationDays * DAY) else s.fixedDeadline
  }

  function CreateProject(db: Db, id: int, workflow: int, states: seq<WfState>, now: int): (Db, Reply)
  {
    if states == [] then (db, NoInitialState)
    else
      var s := InitialState(states);
      (db.(projects := db.projects[id := Project(workflow, s.id, s.name, s.name, InitialDeadline(s, now), false, None)],
           outbox := db.outbox + [ProjectCreated(id, s.id)]),
       Done)
  }

  // ----- CommitTransition -----

  datatype ActionGroup = ActionGroup(trigger: string, actionIds: seq<int>)
  datatype CommitRequest = CommitRequest(project: int, expectedFrom: int, toId: int, toName: string, event: string,
                                         newDeadline: Option<int>, setStatus: string, changedBy: int, comment: string,
                                         postActions: seq<ActionGroup>)

  /** One outbox event for each group that names an action. */
  function PostEvents(project: int, stateId: int, groups: seq<ActionGroup>): seq<OutboxEvent>
  {
    if groups == [] then []
    else
      var rest := PostEvents(project, stateId, groups[..|groups| - 1]);
      var g := groups[|groups| - 1];
      if g.actionIds == [] then rest else rest + [PostCommitActions(project, stateId, g.trigger, g.actionIds)]
  }

  function Commit(db: Db, req: CommitRequest): (Db, Reply)
  {
    if req.project !in db.projects then (db, NotFound)
    else
      var p := db.projects[req.project];
      if p.stateId != req.expectedFrom then (db, Stale)
      else
        var rearmed := if req.newDeadline.Some? then p.(deadlineAt := req.newDeadline, deadlineProcessed := false)
            else p;
        var q := rearmed.(stateId := req.toId, stateName := req.toName,
                          status := if req.setStatus != "" then req.setStatus else req.toName);
        (Db(db.projects[req.project := q],
            db.history + [HistoryRow(req.project, req.event, p.stateId, req.toId, p.stateName, req.toName,
                                     req.changedBy, req.comment)],
            db.outbox + PostEvents(req.project, req.toId, req.postActions)),
         Done)
  }

  // ----- AdvanceProjectByWorkflowEvent -----

  /** The join and filter of the edge query. */
  predicate Eligible(states: seq<WfState>, p: Project, event: string, e: Edge)
  {
    && e.workflow == p.workflow
    && e.event == event
    && exists i :: 0 <= i < |states| && states[i].id == e.from && states[i].live
                   && (e.from == p.stateId || Text.Fold(states[i].name) == Text.Fold(p.stateName))
  }

  function FirstEdge(c: Catalog, edges: seq<Edge>, p: Project, event: string, exact: bool): Option<Edge>
  {
    if edges == [] then None
    else if Eligible(c.states, p, event, edges[0]) && (exact ==> edges[0].from == p.stateId) then Some(edges[0])
    else FirstEdge(c, edges[1..], p, event, exact)
  }

  /** An edge leaving the stored id is preferred, else one leaving a state of the stored name. */
  function FindEdge(c: Catalog, p: Project, event: string): Option<Edge>
  {
    var exact := FirstEdge(c, c.edges, p, event, true);
    if exact.Some? then exact else FirstEdge(c, c.edges, p, event, false)
  }

  function Advance(c: Catalog, db: Db, id: int, event: string, actor: int, comment: string, now: int): (Db, Reply)
  {
    if id !in db.projects then (db, NotFound)
    else
      var p := db.projects[id];
      if p.workflow == 0 || p.stateId == 0 then (db, InvalidState)
      else
        match FindEdge(c, p, event)
        case None => (db, NoTransition)
        case Some(e) =>
          match FindState(c.states, e.to)
          case None => (db, NoTarget)
          case Some(t) =>
            if Text.TrimSpace(t.name) == "" then (db, NoTarget)
            else (Moved(db, id, e, t.name, event, actor, comment, now), Done)
  }

  function Moved(db: Db, id: int, e: Edge, toName: string, event: string, actor: int, comment: string, now: int): Db
    requires id in db.projects
  {
    var p := db.projects[id];
    var q := p.(stateId := e.to, stateName := toName, status := toName,
                topicRegisteredAt := if event == "TOPIC_APPROVED" && p.topicRegisteredAt.None? then Some(now)
                                     else p.topicRegisteredAt);
    db.(projects := db.projects[id := q],
        history := db.history + [HistoryRow(id, event, e.from, e.to, Text.TrimSpace(p.stateName), toName, actor,
                                            Text.TrimSpace(comment))])
  }

  // ----- GetProjectSubmitContext -----

  datatype SubmitContext = SubmitContext(project: int, workflow: int, stateId: int, stateName: string, status: string)

  /** A live state of the project's workflow whose name or display name is the stored state name, or whose
      name is the stored status. */
  predicate Matches(p: Project, s: WfState)
  {
    && s.live
    && s.workflow == p.workflow
    && (|| Text.Upper(s.name) == Text.Upper(p.stateName)
        || Text.Upper(s.displayName) == Text.Upper(p.stateName)
        || Text.Upper(s.name) == Text.Upper(p.status))
  }

  const ANTIPLAGIAT_NAMES := {"ANTIPLAGIAT", "ANTIPLAGIAT_UPLOAD", "ANTI_PLAGIAT", "ANTIPLAGIAT_CHECK",
                              "CHECK_ANTIPLAGIAT"}

  predicate IsAntiplagiat(p: Project, s: WfState)
  {
    s.live && s.workflow == p.workflow && Text.Upper(s.name) in ANTIPLAGIAT_NAMES
  }

  /** The lowest order index among the rows a query keeps, the earlier row on a tie. */
  function Lowest(states: seq<WfState>, keep: WfState -> bool): Option<WfState>
  {
    if states == [] then None
    else
      var rest := Lowest(states[1..], keep);
      if keep(states[0]) && (rest.None? || states[0].order <= rest.value.order) then Some(states[0]) else rest
  }

  function IdOr0(s: Option<WfState>): int { if s.Some? then s.value.id else 0 }

  predicate OwnLive(states: seq<WfState>, workflow: int, id: int)
  {
    exists i :: 0 <= i < |states| && states[i].id == id && states[i].workflow == workflow && states[i].live
  }

  /** The context, and the project row with its state id repaired where the stored one is dead or foreign. */
  function Submit(c: Catalog, db: Db, id: int): (Db, Option<SubmitContext>)
  {
    if id !in db.projects then (db, None)
    else
      var p := db.projects[id];
      var named := IdOr0(Lowest(c.states, s => Matches(p, s)));
      var found := if p.stateId != 0 then p.stateId
                   else if named != 0 then named
                   else IdOr0(Lowest(c.states, s => IsAntiplagiat(p, s)));
      if found == 0 then (db, None)
      else if OwnLive(c.states, p.workflow, found) then (db, Some(ContextOf(c, id, p, found)))
      else if named == 0 then (db, None)
      else (db.(projects := db.projects[id := p.(stateId := named)]), Some(ContextOf(c, id, p, named)))
  }

  function ContextOf(c: Catalog, id: int, p: Project, stateId: int): SubmitContext
  {
    var row := FindState(c.states, stateId);
    SubmitContext(id, p.workflow, stateId,
                  if p.stateName == "" && row.Some? then row.value.name else p.stateName, p.status)
  }

  // ----- The deadline scheduler -----

  predicate Active(status: string)
  {
    status != "completed" && status != "cancelled" && status != "archived"
  }

  /** GetProjectsWithExpiredDeadlines. */
  function Expired(db: Db, now: int): set<int>
  {
    set id | id in db.projects && Active(db.projects[id].status) && db.projects[id].deadlineAt.Some?
             && db.projects[id].deadlineAt.value < now && !db.projects[id].deadlineProcessed
  }

  /** The locked re-check: what one transaction of the scheduler does to one listed project. */
  function Fire(db: Db, id: int, now: int): Db
  {
    if id !in db.projects then db
    else
      var p := db.projects[id];
      if !Active(p.status) || p.deadlineProcessed || p.deadlineAt.None? then db
      else if p.deadlineAt.value > now then db
      else db.(projects := db.projects[id := p.(deadlineProcessed := true)],
               outbox := db.outbox + [DeadlineReached(id, p.stateId, p.deadlineAt.value, now)])
  }

  /** One pass over a list, `clock(i)` being the time of the i-th transaction. */
  function Sweep(db: Db, list: seq<int>, clock: nat -> int): Db
  {
    if list == [] then db
    else Fire(Sweep(db, list[..|list| - 1], clock), list[|list| - 1], clock(|list| - 1))
  }

  // ----- The tables in place -----

  /** The three tables; each method is one transaction. */
  class Store {
    var projects: map<int, Project>
    var history: seq<HistoryRow>
    var outbox: seq<OutboxEvent>

    ghost function Value(): Db
      reads this
    {
      Db(projects, history, outbox)
    }

    constructor ()
      ensures Value() == EMPTY
    {
      projects, history, outbox := map[], [], [];
    }

    method Create(id: int, workflow: int, states: seq<WfState>, now: int) returns (reply: Reply)
      requires id !in projects
      modifies this
      ensures (Value(), reply) == CreateProject(old(Value()), id, workflow, states, now)
    {
      if states == [] {
        return NoInitialState;
      }
      var initial := states[0];
      var i := 0;
      while i < |states| && !states[i].isInitial
        invariant 0 <= i <= |states|
        invariant FirstInitial(states, states[0]) == FirstInitial(states[i..], states[0])
      {
        i := i + 1;
      }
      if i < |states| {
        initial := states[i];
      }
      var deadline := initial.fixedDeadline;
      if initial.durationDays > 0 {
        deadline := Some(now + initial.durationDays * DAY);
      }
      projects := projects[id := Project(workflow, initial.id, initial.name, initial.name, deadline, false, None)];
      outbox := outbox + [ProjectCreated(id, initial.id)];
      reply := Done;
    }

    method CommitTransition(req: CommitRequest) returns (reply: Reply)
      modifies this
      ensures (Value(), reply) == Commit(old(Value()), req)
    {
      if req.project !in projects {
        return NotFound;
      }
      var p := projects[req.project];
      if p.stateId != req.expectedFrom {
        return Stale;
      }
      var fromId, fromName := p.stateId, p.stateName;
      p := p.(stateId := req.toId, stateName := req.toName);
      if req.newDeadline.Some? {
        p := p.(deadlineAt := req.newDeadline, deadlineProcessed := false);
      }
      p := p.(status := if req.setStatus != "" then req.setStatus else req.toName);
      projects := projects[req.project := p];
      history := history + [HistoryRow(req.project, req.event, fromId, p.stateId, fromName, p.stateName,
                                       req.changedBy, req.comment)];
      var i := 0;
      while i < |req.postActions|
        invariant 0 <= i <= |req.postActions|
        invariant projects == old(projects)[req.project := p]
        invariant history == old(history) + [HistoryRow(req.project, req.event, fromId, p.stateId, fromName,
                                                        p.stateName, req.changedBy, req.comment)]
        invariant outbox == old(outbox) + PostEvents(req.project, p.stateId, req.postActions[..i])
      {
        var g := req.postActions[i];
        assert req.postActions[..i + 1][..i] == req.postActions[..i];
        if g.actionIds != [] {
          outbox := outbox + [PostCommitActions(req.project, p.stateId, g.trigger, g.actionIds)];
        }
        i := i + 1;
      }
      assert req.postActions[..i] == req.postActions;
      reply := Done;
    }

    method AdvanceByEvent(c: Catalog, id: int, event: string, actor: int, comment: string,
                          now: int) returns (reply: Reply)
      modifies this
      ensures (Value(), reply) == Advance(c, old(Value()), id, event, actor, comment, now)
    {
      if id !in projects {
        return NotFound;
      }
      var p := projects[id];
      if p.workflow == 0 || p.stateId == 0 {
        return InvalidState;
      }
      var edge := FindEdge(c, p, event);
      if edge.None? {
        return NoTransition;
      }
      var target := FindState(c.states, edge.value.to);
      if target.None? || Text.TrimSpace(target.value.name) == "" {
        return NoTarget;
      }
      var registered := p.topicRegisteredAt;
      if event == "TOPIC_APPROVED" && registered.None? {
        registered := Some(now);
      }
      projects := projects[id := p.(stateId := edge.value.to, stateName := target.value.name,
                                    status := target.value.name, topicRegisteredAt := registered)];
      history := history + [HistoryRow(id, event, edge.value.from, edge.value.to, Text.TrimSpace(p.stateName),
                                       target.value.name, actor, Text.TrimSpace(comment))];
      reply := Done;
    }

    method GetSubmitContext(c: Catalog, id: int) returns (context: Option<SubmitContext>)
      modifies this
      ensures (Value(), context) == Submit(c, old(Value()), id)
    {
      if id !in projects {
        return None;
      }
      var p := projects[id];
      var stateId := p.stateId;
      if stateId == 0 {
        stateId := IdOr0(Lowest(c.states, s => Matches(p, s)));
      }
      if stateId == 0 {
        stateId := IdOr0(Lowest(c.states, s => IsAntiplagiat(p, s)));
      }
      if stateId == 0 {
        return None;
      }
      if !OwnLive(c.states, p.workflow, stateId) {
        stateId := IdOr0(Lowest(c.states, s => Matches(p, s)));
        if stateId == 0 {
          return None;
        }
        projects := projects[id := p.(stateId := stateId)];
      }
      context := Some(ContextOf(c, id, p, stateId));
    }

    /** DeadlineScheduler.check over the list it read earlier. */
    method Check(list: seq<int>, clock: nat -> int)
      modifies this
      ensures Value() == Sweep(old(Value()), list, clock)
    {
      var i := 0;
      while i < |list|
        invariant 0 <= i <= |list|
        invariant Value() == Sweep(old(Value()), list[..i], clock)
      {
        var id, now := list[i], clock(i);
        assert list[..i + 1][..i] == list[..i];
        if id in projects {
          var locked := projects[id];
          if Active(locked.status) && !locked.deadlineProcessed && locked.deadlineAt.Some?
              && locked.deadlineAt.value <= now {
            projects := projects[id := locked.(deadlineProcessed := true)];
            outbox := outbox + [DeadlineReached(id, locked.stateId, locked.deadlineAt.value, now)];
          }
        }
        i := i + 1;
      }
      assert list[..i] == list;
    }
  }
}
