/** Supervisor requests and the team limit (internal/admin/service.go, counters in internal/admin/repository.go). */
module Supervision {
  import opened Wrappers

  datatype Status = Pending | Approved | Rejected | Cancelled
  datatype Request = Request(team: int, project: Option<int>, supervisor: int, status: Status)
  datatype Assignment = Assignment(team: int, supervisor: int)

  /** `teams` gives each team its department; `projects` records for which team an approval created a project. */
  datatype Office = Office(teams: map<int, int>, assignments: seq<Assignment>, requests: map<int, Request>,
                           projects: map<int, int>)

  /** A supervisor's own limit in a department, and the department's default; zero or absent means none. */
  datatype Limits = Limits(own: map<(int, int), int>, default: map<int, int>)

  datatype Reply = Done | NotFound | LimitReached | NotMember | HasPending | HasApproved | Denied | AlreadyHandled
                 | NoTeam | CreationFailed | UnknownAction | InvalidArgument

  function LimitOf(l: Limits, supervisor: int, department: int): int
  {
    if (supervisor, department) in l.own && l.own[(supervisor, department)] > 0 then l.own[(supervisor, department)]
    else if department in l.default then l.default[department]
    else 0
  }

  /** CountTeamsBySupervisor: the assignment rows of a supervisor. */
  function Count(rows: seq<Assignment>, supervisor: int): nat
  {
    if rows == [] then 0
    else
      var last := |rows| - 1;
      Count(rows[..last], supervisor) + if rows[last].supervisor == supervisor then 1 else 0
  }

  /** checkSupervisorCapacity. */
  predicate HasCapacity(l: Limits, o: Office, supervisor: int, department: int)
  {
    var limit := LimitOf(l, supervisor, department);
    limit > 0 ==> Count(o.assignments, supervisor) < limit
  }

  /** GetSupervisorAssignment: the first row of a team, or the number of rows. */
  function Find(rows: seq<Assignment>, team: int): (i: nat)
    ensures i <= |rows|
    ensures i < |rows| ==> rows[i].team == team
    ensures forall j | 0 <= j < i :: rows[j].team != team
  {
    if rows == [] || rows[0].team == team then 0 else 1 + Find(rows[1..], team)
  }

  /** The row found is updated; without one a row is inserted. */
  function Upsert(rows: seq<Assignment>, team: int, supervisor: int): seq<Assignment>
  {
    var i := Find(rows, team);
    if i < |rows| then rows[i := rows[i].(supervisor := supervisor)] else rows + [Assignment(team, supervisor)]
  }

  function Assign(l: Limits, o: Office, team: int, supervisor: int): (Office, Reply)
  {
    if team !in o.teams then (o, NotFound)
    else if !HasCapacity(l, o, supervisor, o.teams[team]) then (o, LimitReached)
    else (o.(assignments := Upsert(o.assignments, team, supervisor)), Done)
  }

  predicate Has(o: Office, team: int, status: Status)
  {
    exists id :: id in o.requests && o.requests[id].team == team && o.requests[id].status == status
  }

  /** CreateSupervisorRequest; `entitled` is the membership or self-claim test. */
  function CreateRequest(l: Limits, o: Office, id: int, team: int, project: Option<int>, supervisor: int,
                         entitled: bool): (Office, Reply)
  {
    if supervisor <= 0 then (o, InvalidArgument)
    else if team !in o.teams then (o, NotFound)
    else if !HasCapacity(l, o, supervisor, o.teams[team]) then (o, LimitReached)
    else if !entitled then (o, NotMember)
    else if Has(o, team, Pending) then (o, HasPending)
    else if Has(o, team, Approved) then (o, HasApproved)
    else (o.(requests := o.requests[id := Request(team, project, supervisor, Pending)]), Done)
  }

  datatype Action = Approve | Reject | Other

  predicate NeedsProject(r: Request) { r.project.None? || r.project.value <= 0 }

  /** The first half of an approval: its own capacity test, then the project if there is none. `created` is the
      project the other service creates, if it does. The copy of the request is what the second half saves. */
  function OpenApproval(l: Limits, o: Office, id: int, created: Option<int>): (Office, Reply, Request)
    requires id in o.requests
  {
    var r := o.requests[id];
    if r.team > 0 && r.team !in o.teams then (o, NotFound, r)
    else if r.team > 0 && !HasCapacity(l, o, r.supervisor, o.teams[r.team]) then (o, LimitReached, r)
    else if NeedsProject(r) && r.team <= 0 then (o, NoTeam, r)
    else if NeedsProject(r) && created.None? then (o, CreationFailed, r)
    else if NeedsProject(r) then
      (o.(projects := o.projects[created.value := r.team]), Done, r.(project := created, status := Approved))
    else (o, Done, r.(status := Approved))
  }

  /** The second half: the assignment, which tests capacity again, then the request's row. */
  function CloseApproval(l: Limits, o: Office, id: int, copy: Request): (Office, Reply)
  {
    if copy.team <= 0 then (o.(requests := o.requests[id := copy]), Done)
    else
      var (given, reply) := Assign(l, o, copy.team, copy.supervisor);
      if reply != Done then (given, reply)
      else (given.(requests := given.requests[id := copy]), Done)
  }

  /** RespondToSupervisorRequest. */
  function Respond(l: Limits, o: Office, id: int, supervisor: int, action: Action, created: Option<int>): (Office,
      Reply)
  {
    if id !in o.requests then (o, NotFound)
    else
      var r := o.requests[id];
      if r.supervisor != supervisor then (o, Denied)
      else if r.status != Pending then (o, AlreadyHandled)
      else
        match action
        case Approve =>
          var (halfway, reply, copy) := OpenApproval(l, o, id, created);
          if reply != Done then (halfway, reply) else CloseApproval(l, halfway, id, copy)
        case Reject => (o.(requests := o.requests[id := r.(status := Rejected)]), Done)
        case Other => (o, UnknownAction)
  }

  function Cancel(o: Office, id: int): (Office, Reply)
  {
    if id !in o.requests then (o, NotFound)
    else if o.requests[id].status != Pending then (o, AlreadyHandled)
    else (o.(requests := o.requests[id := o.requests[id].(status := Cancelled)]), Done)
  }

  // ----- The tables in place -----

  class Tables {
    var teams: map<int, int>
    var assignments: seq<Assignment>
    var requests: map<int, Request>
    var projects: map<int, int>

    ghost function Value(): Office
      reads this
    {
      Office(teams, assignments, requests, projects)
    }

    method CheckCapacity(l: Limits, supervisor: int, department: int) returns (ok: bool)
      ensures ok == HasCapacity(l, Value(), supervisor, department)
    {
      var count := 0;
      for i := 0 to |assignments|
        invariant count == Count(assignments[..i], supervisor)
      {
        assert assignments[..i + 1][..i] == assignments[..i];
        if assignments[i].supervisor == supervisor {
          count := count + 1;
        }
      }
      assert assignments[..|assignments|] == assignments;
      var limit := 0;
      if (supervisor, department) in l.own && l.own[(supervisor, department)] > 0 {
        limit := l.own[(supervisor, department)];
      } else if department in l.default {
        limit := l.default[department];
      }
      ok := !(limit > 0 && count >= limit);
    }

    method AssignSupervisor(l: Limits, team: int, supervisor: int) returns (reply: Reply)
      modifies this`assignments
      ensures (Value(), reply) == Assign(l, old(Value()), team, supervisor)
    {
      if team !in teams {
        return NotFound;
      }
      var ok := CheckCapacity(l, supervisor, teams[team]);
      if !ok {
        return LimitReached;
      }
      var i := 0;
      while i < |assignments| && assignments[i].team != team
        invariant i <= |assignments|
        invariant forall j | 0 <= j < i :: assignments[j].team != team
      {
        i := i + 1;
      }
      if i < |assignments| {
        assignments := assignments[i := assignments[i].(supervisor := supervisor)];
      } else {
        assignments := assignments + [Assignment(team, supervisor)];
      }
      reply := Done;
    }

    method CreateSupervisorRequest(l: Limits, id: int, team: int, project: Option<int>, supervisor: int, entitled: bool)
      returns (reply: Reply)
      requires id !in requests
      modifies this`requests
      ensures (Value(), reply) == CreateRequest(l, old(Value()), id, team, project, supervisor, entitled)
    {
      if supervisor <= 0 {
        return InvalidArgument;
      }
      if team !in teams {
        return NotFound;
      }
      var ok := CheckCapacity(l, supervisor, teams[team]);
      if !ok {
        return LimitReached;
      }
      if !entitled {
        return NotMember;
      }
      if exists r :: r in requests && requests[r].team == team && requests[r].status == Pending {
        return HasPending;
      }
      if exists r :: r in requests && requests[r].team == team && requests[r].status == Approved {
        return HasApproved;
      }
      requests := requests[id := Request(team, project, supervisor, Pending)];
      reply := Done;
    }

    method RespondToRequest(l: Limits, id: int, supervisor: int, action: Action,
                            created: Option<int>) returns (reply: Reply)
      modifies this
      ensures (Value(), reply) == Respond(l, old(Value()), id, supervisor, action, created)
    {
      if id !in requests {
        return NotFound;
      }
      var r := requests[id];
      if r.supervisor != supervisor {
        return Denied;
      }
      if r.status != Pending {
        return AlreadyHandled;
      }
      match action {
        case Approve =>
          if r.team > 0 {
            if r.team !in teams {
              return NotFound;
            }
            var ok := CheckCapacity(l, r.supervisor, teams[r.team]);
            if !ok {
              return LimitReached;
            }
          }
          if r.project.None? || r.project.value <= 0 {
            if r.team <= 0 {
              return NoTeam;
            }
            if created.None? {
              return CreationFailed;
            }
            projects := projects[created.value := r.team];
            r := r.(project := created);
          }
          r := r.(status := Approved);
          if r.team > 0 {
            reply := AssignSupervisor(l, r.team, r.supervisor);
            if reply != Done {
              return;
            }
          }
        case Reject =>
          r := r.(status := Rejected);
        case Other =>
          return UnknownAction;
      }
      requests := requests[id := r];
      reply := Done;
    }

    method CancelRequest(id: int) returns (reply: Reply)
      modifies this`requests
      ensures (Value(), reply) == Cancel(old(Value()), id)
    {
      if id !in requests {
        return NotFound;
      }
      if requests[id].status != Pending {
        return AlreadyHandled;
      }
      requests := requests[id := requests[id].(status := Cancelled)];
      reply := Done;
    }
  }
}
