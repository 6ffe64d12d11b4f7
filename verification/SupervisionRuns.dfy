/** Supervisor assignments and requests over whole runs. */
module SupervisionRuns {
  import opened Wrappers
  import opened Supervision
  import Cardinality

  datatype Step =
    | AssignStep(team: int, supervisor: int)
    | CreateStep(id: int, team: int, project: Option<int>, supervisor: int, entitled: bool)
    | RespondStep(id: int, supervisor: int, action: Action, created: Option<int>)
    | CancelStep(id: int)

  /** One call; a creation under a taken id does nothing. */
  function Apply(l: Limits, o: Office, step: Step): Office
  {
    match step
    case AssignStep(team, supervisor) => Assign(l, o, team, supervisor).0
    case CreateStep(id, team, project, supervisor, entitled) =>
      if id in o.requests then o else CreateRequest(l, o, id, team, project, supervisor, entitled).0
    case RespondStep(id, supervisor, action, created) => Respond(l, o, id, supervisor, action, created).0
    case CancelStep(id) => Cancel(o, id).0
  }

  function Run(l: Limits, o: Office, steps: seq<Step>): Office
  {
    if steps == [] then o else Apply(l, Run(l, o, steps[..|steps| - 1]), steps[|steps| - 1])
  }

  // ----- Assignments -----

  ghost predicate OneRowPerTeam(rows: seq<Assignment>)
  {
    forall i, j | 0 <= i < j < |rows| :: rows[i].team != rows[j].team
  }

  /** The teams that have a supervisor. */
  function Teams(rows: seq<Assignment>): set<int>
  {
    if rows == [] then {} else Teams(rows[..|rows| - 1]) + {rows[|rows| - 1].team}
  }

  lemma {:induction false} TeamsHaveRows(rows: seq<Assignment>, team: int)
    ensures team in Teams(rows) <==> exists i | 0 <= i < |rows| :: rows[i].team == team
  {
    if rows != [] {
      TeamsHaveRows(rows[..|rows| - 1], team);
    }
  }

  lemma {:induction false} CountAfterUpdate(rows: seq<Assignment>, i: nat, supervisor: int, other: int)
    requires i < |rows|
    ensures Count(rows[i := rows[i].(supervisor := supervisor)], other)
            == Count(rows, other) - (if rows[i].supervisor == other then 1 else 0) + (if supervisor == other then 1
                else 0)
  {
    var last, updated := |rows| - 1, rows[i := rows[i].(supervisor := supervisor)];
    if i == last {
      assert updated[..last] == rows[..last];
    } else {
      CountAfterUpdate(rows[..last], i, supervisor, other);
      assert updated[..last] == rows[..last][i := rows[i].(supervisor := supervisor)];
    }
  }

  /** An assignment takes the team's row from whoever had it and gives it to one supervisor; no row is added for a team
      that has one, and no other team's row is touched. */
  lemma AssignCounts(rows: seq<Assignment>, team: int, supervisor: int, other: int)
    ensures var i, after := Find(rows, team), Upsert(rows, team, supervisor);
            && Count(after, other) == Count(rows, other)
                 - (if i < |rows| && rows[i].supervisor == other then 1 else 0) + (if supervisor == other then 1 else 0)
            && (OneRowPerTeam(rows) ==> OneRowPerTeam(after))
            && |after| == |rows| + (if team in Teams(rows) then 0 else 1)
            && i < |after| && after[i] == Assignment(team, supervisor)
            && forall j | 0 <= j < |rows| && j != i :: after[j] == rows[j]
  {
    var i, after := Find(rows, team), Upsert(rows, team, supervisor);
    TeamsHaveRows(rows, team);
    if i < |rows| {
      CountAfterUpdate(rows, i, supervisor, other);
    } else {
      assert after[..|after| - 1] == rows;
    }
  }

  /** A step leaves the assignments alone, or assigns a known team to a supervisor with capacity left. */
  lemma StepAssigns(l: Limits, o: Office, step: Step)
    ensures var after := Apply(l, o, step);
            && after.teams == o.teams
            && (after.assignments != o.assignments ==>
                  exists t, s :: t in o.teams && HasCapacity(l, o, s, o.teams[t])
                    && after.assignments == Upsert(o.assignments, t, s))
  {
    match step
    case RespondStep(id, supervisor, action, created) => RespondAssigns(l, o, id, supervisor, action, created);
    case _ =>
  }

  lemma RespondAssigns(l: Limits, o: Office, id: int, supervisor: int, action: Action, created: Option<int>)
    ensures var after := Respond(l, o, id, supervisor, action, created).0;
            && after.teams == o.teams
            && (after.assignments != o.assignments ==>
                  && id in o.requests && o.requests[id].team in o.teams
                  && HasCapacity(l, o, supervisor, o.teams[o.requests[id].team])
                  && after.assignments == Upsert(o.assignments, o.requests[id].team, supervisor))
  {
  }

  // ----- Capacity -----

  /** Every department holds the supervisor to at most m teams. */
  ghost predicate HeldTo(l: Limits, o: Office, supervisor: int, m: int)
  {
    forall t :: t in o.teams ==> 0 < LimitOf(l, supervisor, o.teams[t]) <= m
  }

  /** Over any run a supervisor who starts within a limit that holds in every department of the teams keeps to it. */
  lemma {:induction false} LimitHolds(l: Limits, o: Office, steps: seq<Step>, supervisor: int, m: int)
    requires HeldTo(l, o, supervisor, m) && Count(o.assignments, supervisor) <= m
    ensures var after := Run(l, o, steps);
            after.teams == o.teams && Count(after.assignments, supervisor) <= m
  {
    if steps != [] {
      var last := |steps| - 1;
      LimitHolds(l, o, steps[..last], supervisor, m);
      var mid := Run(l, o, steps[..last]);
      StepAssigns(l, mid, steps[last]);
      if Apply(l, mid, steps[last]).assignments != mid.assignments {
        var t, s :| t in mid.teams && HasCapacity(l, mid, s, mid.teams[t])
                    && Apply(l, mid, steps[last]).assignments == Upsert(mid.assignments, t, s);
        AssignCounts(mid.assignments, t, s, supervisor);
      }
    }
  }

  // ----- Conservation -----

  /** The sum of the counts of these supervisors. */
  ghost function Total(rows: seq<Assignment>, supervisors: set<int>): nat
  {
    Cardinality.HasMember(supervisors);
    if supervisors == {} then 0
    else
      var s :| s in supervisors;
      Count(rows, s) + Total(rows, supervisors - {s})
  }

  lemma {:induction false} TotalOfNone(supervisors: set<int>)
    ensures Total([], supervisors) == 0
    decreases supervisors
  {
    Cardinality.HasMember(supervisors);
    if supervisors != {} {
      var s :| s in supervisors && Total([], supervisors) == Count([], s) + Total([], supervisors - {s});
      assert Count([], s) == 0;
      TotalOfNone(supervisors - {s});
    }
  }

  lemma {:induction false} TotalAdds(rows: seq<Assignment>, row: Assignment, supervisors: set<int>)
    ensures Total(rows + [row], supervisors) == Total(rows, supervisors) + if row.supervisor in supervisors then 1
        else 0
    decreases supervisors
  {
    Cardinality.HasMember(supervisors);
    if supervisors != {} {
      var all := rows + [row];
      var s :| s in supervisors && Total(all, supervisors) == Count(all, s) + Total(all, supervisors - {s})
               && Total(rows, supervisors) == Count(rows, s) + Total(rows, supervisors - {s});
      assert all[..|all| - 1] == rows;
      assert Count(all, s) == Count(rows, s) + if row.supervisor == s then 1 else 0;
      TotalAdds(rows, row, supervisors - {s});
      assert row.supervisor in supervisors <==> row.supervisor == s || row.supervisor in supervisors - {s};
    }
  }

  /** Every row is counted for exactly one supervisor. */
  lemma {:induction false} TotalIsRows(rows: seq<Assignment>, supervisors: set<int>)
    requires forall i | 0 <= i < |rows| :: rows[i].supervisor in supervisors
    ensures Total(rows, supervisors) == |rows|
  {
    if rows == [] {
      TotalOfNone(supervisors);
    } else {
      var last := |rows| - 1;
      TotalIsRows(rows[..last], supervisors);
      TotalAdds(rows[..last], rows[last], supervisors);
      assert rows == rows[..last] + [rows[last]];
    }
  }

  lemma {:induction false} TeamsOfRows(rows: seq<Assignment>)
    ensures |Teams(rows)| <= |rows|
    ensures |Teams(rows)| == |rows| <==> OneRowPerTeam(rows)
  {
    if rows != [] {
      var last := |rows| - 1;
      TeamsOfRows(rows[..last]);
      TeamsHaveRows(rows[..last], rows[last].team);
      if OneRowPerTeam(rows[..last]) && rows[last].team !in Teams(rows[..last]) {
        assert OneRowPerTeam(rows);
      }
    }
  }

  /** The counts of all supervisors sum to the number of assigned teams exactly when no team has two rows. */
  lemma SumIsTeamsExactly(rows: seq<Assignment>, supervisors: set<int>)
    requires forall i | 0 <= i < |rows| :: rows[i].supervisor in supervisors
    ensures Total(rows, supervisors) == |Teams(rows)| <==> OneRowPerTeam(rows)
  {
    TotalIsRows(rows, supervisors);
    TeamsOfRows(rows);
  }

  /** Over any run no team gets a second row, by the lookup alone. */
  lemma {:induction false} RowsStayUnique(l: Limits, o: Office, steps: seq<Step>)
    requires OneRowPerTeam(o.assignments)
    ensures OneRowPerTeam(Run(l, o, steps).assignments)
  {
    if steps != [] {
      var last := |steps| - 1;
      RowsStayUnique(l, o, steps[..last]);
      var mid := Run(l, o, steps[..last]);
      StepAssigns(l, mid, steps[last]);
      if Apply(l, mid, steps[last]).assignments != mid.assignments {
        var t, s :| t in mid.teams && HasCapacity(l, mid, s, mid.teams[t])
                    && Apply(l, mid, steps[last]).assignments == Upsert(mid.assignments, t, s);
        AssignCounts(mid.assignments, t, s, s);
      }
    }
  }

  /** Over any run the per-supervisor counts sum to the number of assigned teams. */
  lemma CountsSumToTeams(l: Limits, o: Office, steps: seq<Step>, supervisors: set<int>)
    requires OneRowPerTeam(o.assignments)
    requires forall i | 0 <= i < |Run(l, o, steps).assignments| ::
        Run(l, o, steps).assignments[i].supervisor in supervisors
    ensures var after := Run(l, o, steps).assignments;
            Total(after, supervisors) == |Teams(after)|
  {
    RowsStayUnique(l, o, steps);
    SumIsTeamsExactly(Run(l, o, steps).assignments, supervisors);
  }

  /** Assigning a team adds it to the assigned teams and to the sum of the counts; reassigning one conserves both. */
  lemma AssignConserves(l: Limits, o: Office, team: int, supervisor: int, supervisors: set<int>)
    requires Assign(l, o, team, supervisor).1 == Done && supervisor in supervisors
    requires forall i | 0 <= i < |o.assignments| :: o.assignments[i].supervisor in supervisors
    ensures var before, after := o.assignments, Assign(l, o, team, supervisor).0.assignments;
            && Total(after, supervisors) == Total(before, supervisors) + (if team in Teams(before) then 0 else 1)
            && forall t :: t in Teams(after) <==> t in Teams(before) || t == team
  {
    var before, after := o.assignments, Assign(l, o, team, supervisor).0.assignments;
    AssignCounts(before, team, supervisor, supervisor);
    TotalIsRows(before, supervisors);
    forall i | 0 <= i < |after|
      ensures after[i].supervisor in supervisors
    {
      if i < |before| && i != Find(before, team) {
        assert after[i] == before[i];
      }
    }
    TotalIsRows(after, supervisors);
    forall t
      ensures t in Teams(after) <==> t in Teams(before) || t == team
    {
      SameTeams(before, team, supervisor, t);
    }
  }

  lemma SameTeams(rows: seq<Assignment>, team: int, supervisor: int, t: int)
    ensures t in Teams(Upsert(rows, team, supervisor)) <==> t in Teams(rows) || t == team
  {
    var after := Upsert(rows, team, supervisor);
    TeamsHaveRows(rows, t);
    TeamsHaveRows(after, t);
    AssignCounts(rows, team, supervisor, supervisor);
    if i :| 0 <= i < |rows| && rows[i].team == t {
      assert after[i].team == t;
    }
  }

  // ----- Approval -----

  /** What an approval needs of its request. */
  predicate Approvable(l: Limits, o: Office, id: int, supervisor: int, created: Option<int>)
  {
    && id in o.requests
    && var r := o.requests[id];
       && r.supervisor == supervisor && r.status == Pending
       && (r.team > 0 ==> r.team in o.teams && HasCapacity(l, o, supervisor, o.teams[r.team]))
       && (NeedsProject(r) ==> r.team > 0 && created.Some?)
  }

  /** The answer to an approval is decided by its inputs, and anything but success leaves everything as it was: no
      project is created for a request that is not approved. */
  lemma ApprovalNeverStrands(l: Limits, o: Office, id: int, supervisor: int, created: Option<int>)
    ensures var (after, reply) := Respond(l, o, id, supervisor, Approve, created);
            && (reply == Done <==> Approvable(l, o, id, supervisor, created))
            && (reply != Done ==> after == o)
  {
  }

  /** A request that needs a project gets the one created, for its team; its row is approved and its team the
      supervisor's. */
  lemma ApprovalWrites(l: Limits, o: Office, id: int, supervisor: int, created: Option<int>)
    requires Approvable(l, o, id, supervisor, created)
    ensures var after, r := Respond(l, o, id, supervisor, Approve, created).0, o.requests[id];
            && after.requests == o.requests[id := r.(status := Approved, project := if NeedsProject(r) then created
                                                                                    else r.project)]
            && after.projects == (if NeedsProject(r) then o.projects[created.value := r.team] else o.projects)
            && (r.team > 0 ==> Assignment(r.team, supervisor) in after.assignments)
  {
    AssignCounts(o.assignments, o.requests[id].team, supervisor, supervisor);
  }

  /** The two halves of an approval with anything in between: the second half fails on capacity exactly when the
      supervisor has meanwhile no capacity left, and then the project the first half created stays. */
  lemma SplitApproval(l: Limits, o: Office, id: int, created: Option<int>, steps: seq<Step>)
    requires id in o.requests && o.requests[id].team > 0 && OpenApproval(l, o, id, created).1 == Done
    ensures var (halfway, _, copy) := OpenApproval(l, o, id, created);
            var mid := Run(l, halfway, steps);
            var (closed, reply) := CloseApproval(l, mid, id, copy);
            && copy.team in mid.teams
            && (NeedsProject(o.requests[id]) ==> created.Some? && created.value in mid.projects)
            && (reply == Done || reply == LimitReached)
            && (reply == LimitReached <==> !HasCapacity(l, mid, copy.supervisor, mid.teams[copy.team]))
            && (reply == LimitReached ==> closed == mid)
  {
    TeamsStay(l, OpenApproval(l, o, id, created).0, steps);
    ProjectsStay(l, OpenApproval(l, o, id, created).0, steps);
  }

  lemma {:induction false} ProjectsStay(l: Limits, o: Office, steps: seq<Step>)
    ensures o.projects.Keys <= Run(l, o, steps).projects.Keys
  {
    if steps != [] {
      ProjectsStay(l, o, steps[..|steps| - 1]);
      StepKeepsProjects(l, Run(l, o, steps[..|steps| - 1]), steps[|steps| - 1]);
    }
  }

  lemma StepKeepsProjects(l: Limits, o: Office, step: Step)
    ensures o.projects.Keys <= Apply(l, o, step).projects.Keys
  {
  }

  lemma {:induction false} TeamsStay(l: Limits, o: Office, steps: seq<Step>)
    ensures Run(l, o, steps).teams == o.teams
  {
    if steps != [] {
      TeamsStay(l, o, steps[..|steps| - 1]);
      StepAssigns(l, Run(l, o, steps[..|steps| - 1]), steps[|steps| - 1]);
    }
  }

  /** Two teams ask one supervisor with room for one: both first halves pass, and the second request stays pending
      while its team already has a project. */
  lemma InterleavedApprovalsStrand()
    ensures var l := Limits(map[], map[1 := 1]);
            var o := Office(map[10 := 1, 20 := 1], [],
                            map[1 := Request(10, None, 7, Pending), 2 := Request(20, None, 7, Pending)], map[]);
            var first := OpenApproval(l, o, 1, Some(100));
            var second := OpenApproval(l, first.0, 2, Some(200));
            var closed := CloseApproval(l, second.0, 1, first.2);
            var stuck := CloseApproval(l, closed.0, 2, second.2);
            && first.1 == second.1 == closed.1 == Done
            && stuck.1 == LimitReached
            && 200 in stuck.0.projects && stuck.0.requests[2].status == Pending
  {
    var rows := [Assignment(10, 7)];
    assert Upsert([], 10, 7) == rows;
    assert rows[..0] == [] && Count(rows, 7) == 1;
  }

  // ----- One open request per team -----

  /** Open: pending or approved. */
  predicate Open(r: Request) { r.status == Pending || r.status == Approved }

  ghost predicate OneOpen(o: Office)
  {
    forall i, j | i in o.requests && j in o.requests && Open(o.requests[i]) && Open(o.requests[j]) ::
      o.requests[i].team == o.requests[j].team ==> i == j
  }

  /** A request that left pending keeps its terminal status for good, and its team and supervisor never change. */
  ghost predicate Kept(o: Office, after: Office)
  {
    forall id :: id in o.requests ==>
      && id in after.requests
      && after.requests[id].team == o.requests[id].team && after.requests[id].supervisor == o.requests[id].supervisor
      && (o.requests[id].status != Pending ==> after.requests[id] == o.requests[id])
  }

  lemma CreateKeepsOneOpen(l: Limits, o: Office, id: int, team: int, project: Option<int>, supervisor: int,
                           entitled: bool)
    requires OneOpen(o) && id !in o.requests
    ensures var after := CreateRequest(l, o, id, team, project, supervisor, entitled).0;
            OneOpen(after) && Kept(o, after)
  {
    if CreateRequest(l, o, id, team, project, supervisor, entitled).1 == Done {
      forall i | i in o.requests && Open(o.requests[i]) ensures o.requests[i].team != team {
        assert !Has(o, team, Pending) && !Has(o, team, Approved);
      }
    }
  }

  /** A response leaves the requests alone or closes one pending request. */
  lemma RespondCloses(l: Limits, o: Office, id: int, supervisor: int, action: Action, created: Option<int>)
    ensures var after := Respond(l, o, id, supervisor, action, created).0.requests;
            after == o.requests || Closes(o.requests, after, id)
  {
  }

  /** One pending request is approved, rejected or cancelled. */
  ghost predicate Closes(requests: map<int, Request>, after: map<int, Request>, id: int)
  {
    && id in requests && requests[id].status == Pending && id in after && after[id].status != Pending
    && after[id].team == requests[id].team && after[id].supervisor == requests[id].supervisor
    && after == requests[id := after[id]]
  }

  lemma ClosingKeepsOneOpen(o: Office, after: Office, id: int)
    requires OneOpen(o) && Closes(o.requests, after.requests, id)
    ensures OneOpen(after) && Kept(o, after)
  {
  }

  lemma RespondKeepsOneOpen(l: Limits, o: Office, id: int, supervisor: int, action: Action, created: Option<int>)
    requires OneOpen(o)
    ensures var after := Respond(l, o, id, supervisor, action, created).0; OneOpen(after) && Kept(o, after)
  {
    var after := Respond(l, o, id, supervisor, action, created).0;
    RespondCloses(l, o, id, supervisor, action, created);
    if after.requests != o.requests {
      ClosingKeepsOneOpen(o, after, id);
    }
  }

  lemma StepKeepsOneOpen(l: Limits, o: Office, step: Step)
    requires OneOpen(o)
    ensures OneOpen(Apply(l, o, step)) && Kept(o, Apply(l, o, step))
  {
    match step
    case CreateStep(id, team, project, supervisor, entitled) =>
      if id !in o.requests { CreateKeepsOneOpen(l, o, id, team, project, supervisor, entitled); }
    case RespondStep(id, supervisor, action, created) => RespondKeepsOneOpen(l, o, id, supervisor, action, created);
    case _ =>
  }

  /** Over any run each team has at most one request that is pending or approved, and every request leaves
      pending at most once. */
  lemma {:induction false} RequestsStayExclusive(l: Limits, o: Office, steps: seq<Step>)
    requires OneOpen(o)
    ensures OneOpen(Run(l, o, steps)) && Kept(o, Run(l, o, steps))
  {
    if steps != [] {
      RequestsStayExclusive(l, o, steps[..|steps| - 1]);
      StepKeepsOneOpen(l, Run(l, o, steps[..|steps| - 1]), steps[|steps| - 1]);
    }
  }

  // ----- The second half of an approval -----

  /** The second half writes the request as the first half read it: it overturns a request that was closed in between
      exactly when it goes through and the request is no longer pending, and it keeps one open request per team exactly
      when the team has no other open request by then. */
  lemma SecondHalfOverwrites(l: Limits, o: Office, id: int, created: Option<int>, steps: seq<Step>)
    requires OneOpen(o) && id in o.requests && o.requests[id].status == Pending
    requires OpenApproval(l, o, id, created).1 == Done
    ensures var (halfway, _, copy) := OpenApproval(l, o, id, created);
            var mid := Run(l, halfway, steps);
            var (closed, reply) := CloseApproval(l, mid, id, copy);
            && OneOpen(mid) && id in mid.requests
            && (reply == Done ==>
                  && closed.requests == mid.requests[id := copy] && copy.status == Approved
                  && (!Kept(mid, closed) <==> mid.requests[id].status != Pending && mid.requests[id] != copy)
                  && (OneOpen(closed) <==>
                        forall j | j in mid.requests && j != id && Open(mid.requests[j]) ::
                          mid.requests[j].team != copy.team)
                  && (mid.requests[id].status == Pending ==> OneOpen(closed)))
  {
    var (halfway, _, copy) := OpenApproval(l, o, id, created);
    RequestsStayExclusive(l, halfway, steps);
    var mid := Run(l, halfway, steps);
    var (closed, reply) := CloseApproval(l, mid, id, copy);
    if reply == Done {
      SecondHalfWrites(l, mid, id, copy);
      OverwriteOpens(mid, closed, id, copy);
    }
  }

  lemma SecondHalfWrites(l: Limits, mid: Office, id: int, copy: Request)
    requires CloseApproval(l, mid, id, copy).1 == Done
    ensures CloseApproval(l, mid, id, copy).0.requests == mid.requests[id := copy]
  {
  }

  lemma OverwriteOpens(mid: Office, closed: Office, id: int, copy: Request)
    requires OneOpen(mid) && id in mid.requests
    requires closed.requests == mid.requests[id := copy] && copy.status == Approved
    requires copy.team == mid.requests[id].team && copy.supervisor == mid.requests[id].supervisor
    ensures !Kept(mid, closed) <==> mid.requests[id].status != Pending && mid.requests[id] != copy
    ensures OneOpen(closed) <==>
              forall j | j in mid.requests && j != id && Open(mid.requests[j]) :: mid.requests[j].team != copy.team
    ensures mid.requests[id].status == Pending ==> OneOpen(closed)
  {
    assert Open(copy) && closed.requests[id] == copy;
    forall j | j in mid.requests && j != id
      ensures j in closed.requests && closed.requests[j] == mid.requests[j]
    {
    }
  }

  /** A request is cancelled between the two halves of its approval and the team asks again: the second half approves
      the cancelled request, and the team has two open ones. */
  lemma CancelledRequestRevived()
    ensures var l := Limits(map[], map[]);
            var o := Office(map[10 := 1], [], map[1 := Request(10, None, 7, Pending)], map[]);
            var half := OpenApproval(l, o, 1, Some(100));
            var mid := Run(l, half.0, [CancelStep(1), CreateStep(2, 10, None, 8, true)]);
            var closed := CloseApproval(l, mid, 1, half.2);
            && half.1 == closed.1 == Done
            && 1 in mid.requests && mid.requests[1].status == Cancelled
            && 1 in closed.0.requests && closed.0.requests[1].status == Approved
            && 2 in closed.0.requests && closed.0.requests[2].status == Pending
            && !OneOpen(closed.0)
  {
    var l := Limits(map[], map[]);
    var o := Office(map[10 := 1], [], map[1 := Request(10, None, 7, Pending)], map[]);
    var half := OpenApproval(l, o, 1, Some(100));
    var steps := [CancelStep(1), CreateStep(2, 10, None, 8, true)];
    assert steps[..1] == [CancelStep(1)] && steps[..1][..0] == [];
    var cancelled := Cancel(half.0, 1).0;
    assert Run(l, half.0, steps[..1]) == cancelled;
    assert !Has(cancelled, 10, Pending) && !Has(cancelled, 10, Approved);
    var closed := CloseApproval(l, Run(l, half.0, steps), 1, half.2).0;
    assert closed.requests[1].team == closed.requests[2].team;
  }
}
