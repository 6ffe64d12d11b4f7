/** What becomes of a supervisor request: exactly which calls create, approve, reject and cancel it. */
module SupervisionFates {
  import opened Wrappers
  import opened Supervision
  import opened SupervisionRuns

  // ----- One call -----

  /** The capacity test in its three cases: a positive limit of the supervisor's own, else a positive default of the
      department, else none. */
  lemma CapacityExactly(l: Limits, o: Office, supervisor: int, department: int)
    ensures var own, teams := (supervisor, department), Count(o.assignments, supervisor);
            && (own in l.own && l.own[own] > 0 ==> (HasCapacity(l, o, supervisor, department) <==> teams < l.own[own]))
            && (!(own in l.own && l.own[own] > 0) && department in l.default && l.default[department] > 0 ==>
                  (HasCapacity(l, o, supervisor, department) <==> teams < l.default[department]))
            && (!(own in l.own && l.own[own] > 0) && !(department in l.default && l.default[department] > 0) ==>
                  HasCapacity(l, o, supervisor, department))
  {
  }

  /** Nothing but the one request row changed, and of it only the status. */
  ghost predicate OnlyStatus(o: Office, after: Office, id: int, status: Status)
  {
    && after.teams == o.teams && after.assignments == o.assignments && after.projects == o.projects
    && after.requests.Keys == o.requests.Keys && id in o.requests
    && (forall k :: k in o.requests && k != id ==> after.requests[k] == o.requests[k])
    && after.requests[id].team == o.requests[id].team && after.requests[id].supervisor == o.requests[id].supervisor
    && after.requests[id].project == o.requests[id].project && after.requests[id].status == status
  }

  predicate PendingFor(o: Office, id: int, supervisor: int)
  {
    id in o.requests && o.requests[id].supervisor == supervisor && o.requests[id].status == Pending
  }

  /** Only the supervisor of a pending request responds to it. A rejection always succeeds, marks the row rejected and
      touches nothing else; an approval never rejects and a refused response writes nothing. */
  lemma ResponsesExactly(l: Limits, o: Office, id: int, supervisor: int, action: Action, created: Option<int>)
    ensures var (after, reply) := Respond(l, o, id, supervisor, action, created);
            && (reply == Done ==> PendingFor(o, id, supervisor) && action != Other)
            && (reply != Done ==> after == o)
            && (action == Reject ==>
                  && (reply == Done <==> PendingFor(o, id, supervisor))
                  && (reply == Done ==> OnlyStatus(o, after, id, Rejected)))
            && (id in o.requests && o.requests[id].supervisor != supervisor ==> reply == Denied)
            && (id in o.requests && o.requests[id].supervisor == supervisor && o.requests[id].status != Pending ==>
                  reply == AlreadyHandled)
  {
  }

  lemma CancelsExactly(o: Office, id: int)
    ensures var (after, reply) := Cancel(o, id);
            && (reply == Done <==> id in o.requests && o.requests[id].status == Pending)
            && (reply != Done ==> after == o)
            && (reply == Done ==> OnlyStatus(o, after, id, Cancelled))
  {
  }

  /** A request is created exactly for a known team without an open request, by an entitled caller, with a supervisor
      who has room; it starts pending. */
  lemma CreatesExactly(l: Limits, o: Office, id: int, team: int, project: Option<int>, supervisor: int, entitled: bool)
    requires id !in o.requests
    ensures var (after, reply) := CreateRequest(l, o, id, team, project, supervisor, entitled);
            && (reply == Done <==>
                  && supervisor > 0 && team in o.teams && HasCapacity(l, o, supervisor, o.teams[team]) && entitled
                  && forall k :: k in o.requests && o.requests[k].team == team ==> !Open(o.requests[k]))
            && (reply != Done ==> after == o)
            && (reply == Done ==>
                  && after == o.(requests := after.requests) && after.requests - {id} == o.requests
                  && id in after.requests && after.requests[id].status == Pending && after.requests[id].team == team
                  && after.requests[id].supervisor == supervisor && after.requests[id].project == project)
  {
  }

  lemma AssignsExactly(l: Limits, o: Office, team: int, supervisor: int)
    ensures var (after, reply) := Assign(l, o, team, supervisor);
            && (reply == Done <==> team in o.teams && HasCapacity(l, o, supervisor, o.teams[team]))
            && (reply != Done ==> after == o)
            && (reply == Done ==>
                  && after == o.(assignments := after.assignments) && Assignment(team, supervisor) in after.assignments)
  {
    AssignCounts(o.assignments, team, supervisor, supervisor);
  }

  // ----- Over every run -----

  /** The step gives the request this terminal status. */
  predicate Decides(l: Limits, o: Office, step: Step, id: int, status: Status)
  {
    match status
    case Approved =>
      step.RespondStep? && step.id == id && step.action == Approve
      && Approvable(l, o, id, step.supervisor, step.created)
    case Rejected => step.RespondStep? && step.id == id && step.action == Reject && PendingFor(o, id, step.supervisor)
    case Cancelled => step.CancelStep? && step.id == id && id in o.requests && o.requests[id].status == Pending
    case Pending => false
  }

  ghost predicate DecidesAt(l: Limits, o: Office, steps: seq<Step>, i: nat, id: int, status: Status)
  {
    i < |steps| && Decides(l, Run(l, o, steps[..i]), steps[i], id, status)
  }

  predicate Stored(o: Office, id: int, status: Status) { id in o.requests && o.requests[id].status == status }

  lemma StepDecides(l: Limits, o: Office, step: Step, id: int, status: Status)
    requires status != Pending
    ensures Stored(Apply(l, o, step), id, status) <==> Stored(o, id, status) || Decides(l, o, step, id, status)
  {
    match step
    case RespondStep(other, supervisor, Approve, created) => ApprovalDecides(l, o, step, id, status);
    case RespondStep(other, supervisor, action, created) => ResponsesExactly(l, o, other, supervisor, action, created);
    case CancelStep(other) => CancelsExactly(o, other);
    case _ =>
  }

  lemma ApprovalDecides(l: Limits, o: Office, step: Step, id: int, status: Status)
    requires status != Pending && step.RespondStep? && step.action == Approve
    ensures Stored(Apply(l, o, step), id, status) <==> Stored(o, id, status) || Decides(l, o, step, id, status)
  {
    ApprovalNeverStrands(l, o, step.id, step.supervisor, step.created);
    if Approvable(l, o, step.id, step.supervisor, step.created) {
      ApprovalWrites(l, o, step.id, step.supervisor, step.created);
    }
  }

  /** Over any run a request is approved exactly when it was so at the start or an approval by its own supervisor went
      through, rejected exactly when its own supervisor rejected it while pending, and cancelled exactly when it was
      cancelled while pending. */
  lemma {:induction false} FateExactly(l: Limits, o: Office, steps: seq<Step>, id: int, status: Status)
    requires status != Pending
    ensures Stored(Run(l, o, steps), id, status)
       <==> Stored(o, id, status) || exists i | 0 <= i < |steps| :: DecidesAt(l, o, steps, i, id, status)
  {
    if steps != [] {
      var last := |steps| - 1;
      FateExactly(l, o, steps[..last], id, status);
      var mid := Run(l, o, steps[..last]);
      StepDecides(l, mid, steps[last], id, status);
      assert DecidesAt(l, o, steps, last, id, status) <==> Decides(l, mid, steps[last], id, status);
      forall i | 0 <= i < last
        ensures DecidesAt(l, o, steps, i, id, status) <==> DecidesAt(l, o, steps[..last], i, id, status)
      {
        assert steps[..last][..i] == steps[..i];
      }
    }
  }
}
