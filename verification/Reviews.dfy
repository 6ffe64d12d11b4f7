/** Norm control (internal/admin/service_norm_control.go) and antiplagiat review
    (internal/admin/service_antiplagiat.go): two machines of one shape over the project ledger. An approval is
    a saga of separate transactions, so its calls are kept in the state with the phase they have reached. */
module Reviews {
  import opened Wrappers
  import Ledger

  datatype Kind = Norm | Antiplag

  /** The name of the workflow step a kind reviews. */
  function StepName(kind: Kind): string { if kind.Norm? then "NORM_CONTROL" else "ANTIPLAGIAT" }

  function ApproveEvent(kind: Kind): string { if kind.Norm? then "NORMCONTROL_SUBMITTED" else "ANTIPLAGIAT_SUBMITTED" }

  datatype Status = Submitted | InReview | Returned | Approved

  /** A check row; only antiplagiat rows use the two scores. */
  datatype Check = Check(kind: Kind, project: int, status: Status, checker: Option<int>, comment: string,
                         startedAt: Option<int>, reviewedAt: Option<int>, plagiarism: Option<int>, ai: Option<int>,
                         updatedAt: int)
  datatype Submission = Submission(step: string, project: int, status: string, reviewer: Option<int>, comment: string,
                                   reviewedAt: Option<int>, updatedAt: int)
  datatype Issue = Issue(submission: int, category: string, severity: string, description: string, resolved: bool,
                         resolvedAt: Option<int>)
  datatype IssueUpdate = IssueUpdate(category: string, severity: string, description: string, resolved: bool)

  const MIN_ORIGINALITY := 70
  const MAX_AI := 70

  /** An approve call between two of its transactions. `found` and `foundSub` are the rows its own
      transaction overwrote at time `at`. */
  datatype Call =
    | Guarded(kind: Kind, submission: int, actor: int, comment: string)
    | Waiting(submission: int, actor: int, comment: string, at: int, found: Check, foundSub: Submission)
    | Failed(submission: int, actor: int, comment: string, at: int, found: Check, foundSub: Submission)
  {
    /** The call has approved its check and has neither advanced nor compensated. */
    predicate Open() { Waiting? || Failed? }
  }

  /** `receipts` records, for each check whose approve call advanced the project, the history row that call
      wrote; `abandoned` the checks whose call gave up after approving. */
  datatype Desk = Desk(checks: map<int, Check>, submissions: map<int, Submission>, issues: map<int, Issue>,
                       calls: map<int, Call>, ledger: Ledger.Db, receipts: map<int, nat>, abandoned: set<int>)

  datatype Reply = Done | Unauthenticated | InvalidArgument | NotFound | WrongStep | WrongState | NotSubmitted
                 | NotInReview | NotChecker | CriticalIssues | ScoresMissing | LowOriginality | HighAi | Internal

  // ----- Guards shared by the calls -----

  /** The submission belongs to the kind's step and its project is in that state. */
  function Guard(d: Desk, kind: Kind, sub: int): Reply
  {
    if sub !in d.submissions then NotFound
    else if d.submissions[sub].step != StepName(kind) then WrongStep
    else
      var project := d.submissions[sub].project;
      if project <= 0 then InvalidArgument
      else if project !in d.ledger.projects then Internal
      else if d.ledger.projects[project].stateName != StepName(kind) then WrongState
      else Done
  }

  function NewCheck(kind: Kind, project: int, now: int): Check
  {
    Check(kind, project, Submitted, None, "", None, None, None, None, now)
  }

  /** Ensure...CheckForSubmission: a missing check row is created. */
  function Ensure(d: Desk, kind: Kind, sub: int, now: int): Desk
    requires sub in d.submissions
  {
    if sub in d.checks then d
    else d.(checks := d.checks[sub := NewCheck(kind, d.submissions[sub].project, now)])
  }

  /** The row lock's two tests: in review, by the assigned checker. */
  function HeldBy(check: Check, actor: int): Reply
  {
    if check.status != InReview then NotInReview else if check.checker != Some(actor) then NotChecker else Done
  }

  // ----- Review -----

  function StartReview(d: Desk, kind: Kind, sub: int, actor: int, now: int): (Desk, Reply)
  {
    if actor <= 0 then (d, Unauthenticated)
    else if Guard(d, kind, sub) != Done then (d, Guard(d, kind, sub))
    else
      var e := Ensure(d, kind, sub, now);
      var check := e.checks[sub];
      if check.status != Submitted then (e, NotSubmitted)
      else
        (e.(checks := e.checks[sub := check.(status := InReview, startedAt := Some(now), checker := Some(actor),
                                             updatedAt := now)],
            submissions := e.submissions[sub := e.submissions[sub].(reviewer := Some(actor), updatedAt := now)]),
         Done)
  }

  function AddIssue(d: Desk, sub: int, actor: int, id: int, category: string, severity: string, description: string,
                    now: int)
    : (Desk, Reply)
  {
    if actor <= 0 then (d, Unauthenticated)
    else if category == "" || severity == "" || description == "" then (d, InvalidArgument)
    else if Guard(d, Norm, sub) != Done then (d, Guard(d, Norm, sub))
    else
      var e := Ensure(d, Norm, sub, now);
      if HeldBy(e.checks[sub], actor) != Done then (e, HeldBy(e.checks[sub], actor))
      else (e.(issues := e.issues[id := Issue(sub, category, severity, description, false, None)]), Done)
  }

  function Updated(issue: Issue, u: IssueUpdate, now: int): Issue
  {
    issue.(category := if u.category != "" then u.category else issue.category,
           severity := if u.severity != "" then u.severity else issue.severity,
           description := if u.description != "" then u.description else issue.description,
           resolved := u.resolved,
           resolvedAt := if u.resolved && !issue.resolved then Some(now)
                         else if !u.resolved && issue.resolved then None
                         else issue.resolvedAt)
  }

  /** The check row an issue call reads: present and held by the actor. */
  function IssueGuard(d: Desk, id: int, actor: int): Reply
  {
    if actor <= 0 then Unauthenticated
    else if id !in d.issues || d.issues[id].submission !in d.checks then NotFound
    else HeldBy(d.checks[d.issues[id].submission], actor)
  }

  function UpdateIssue(d: Desk, id: int, actor: int, u: IssueUpdate, now: int): (Desk, Reply)
  {
    if IssueGuard(d, id, actor) != Done then (d, IssueGuard(d, id, actor))
    else (d.(issues := d.issues[id := Updated(d.issues[id], u, now)]), Done)
  }

  function DeleteIssue(d: Desk, id: int, actor: int): (Desk, Reply)
  {
    if IssueGuard(d, id, actor) != Done then (d, IssueGuard(d, id, actor))
    else (d.(issues := d.issues - {id}), Done)
  }

  predicate InPercent(score: Option<int>) { score.Some? ==> 0 <= score.value <= 100 }

  function SetScores(d: Desk, sub: int, actor: int, plagiarism: Option<int>, ai: Option<int>, now: int): (Desk, Reply)
  {
    if actor <= 0 then (d, Unauthenticated)
    else if (plagiarism.None? && ai.None?) || !InPercent(plagiarism) || !InPercent(ai) then (d, InvalidArgument)
    else if Guard(d, Antiplag, sub) != Done then (d, Guard(d, Antiplag, sub))
    else
      var e := Ensure(d, Antiplag, sub, now);
      var check := e.checks[sub];
      if HeldBy(check, actor) != Done then (e, HeldBy(check, actor))
      else
        (e.(checks := e.checks[sub := check.(plagiarism := if plagiarism.Some? then plagiarism else check.plagiarism,
                                             ai := if ai.Some? then ai else check.ai, updatedAt := now)]),
         Done)
  }

  /** The two machines leave different submission rows: only norm control asks for a revision and names the reviewer. */
  function ReturnedSubmission(kind: Kind, row: Submission, actor: int, comment: string, now: int): Submission
  {
    var noted := row.(comment := comment, reviewedAt := Some(now), updatedAt := now);
    if kind.Norm? then noted.(status := "revision_requested", reviewer := Some(actor)) else noted.(status := "pending")
  }

  function ReturnedCheck(check: Check, comment: string, now: int): Check
  {
    check.(status := Returned, comment := comment, reviewedAt := Some(now), updatedAt := now)
  }

  function Return(d: Desk, kind: Kind, sub: int, actor: int, comment: string, now: int): (Desk, Reply)
  {
    if actor <= 0 then (d, Unauthenticated)
    else if Guard(d, kind, sub) != Done then (d, Guard(d, kind, sub))
    else
      var e := Ensure(d, kind, sub, now);
      var check, row := e.checks[sub], e.submissions[sub];
      if HeldBy(check, actor) != Done then (e, HeldBy(check, actor))
      else
        (e.(checks := e.checks[sub := ReturnedCheck(check, comment, now)],
            submissions := e.submissions[sub := ReturnedSubmission(kind, row, actor, comment, now)]),
         Done)
  }

  // ----- The approve saga -----

  predicate UnresolvedCritical(issues: map<int, Issue>, sub: int)
  {
    exists id :: id in issues && issues[id].submission == sub && issues[id].severity == "critical"
      && !issues[id].resolved
  }

  /** What the review found, tested by the approve transaction. */
  function Verdict(issues: map<int, Issue>, sub: int, check: Check): Reply
  {
    if check.kind.Norm? then if UnresolvedCritical(issues, sub) then CriticalIssues else Done
    else if check.plagiarism.None? || check.ai.None? then ScoresMissing
    else if check.plagiarism.value < MIN_ORIGINALITY then LowOriginality
    else if check.ai.value > MAX_AI then HighAi
    else Done
  }

  /** The reads before the approve transaction. */
  function BeginApprove(d: Desk, call: int, kind: Kind, sub: int, actor: int, comment: string, now: int): (Desk, Reply)
  {
    if actor <= 0 then (d, Unauthenticated)
    else if Guard(d, kind, sub) != Done then (d, Guard(d, kind, sub))
    else
      var e := Ensure(d, kind, sub, now);
      (e.(calls := e.calls[call := Guarded(kind, sub, actor, comment)]), Done)
  }

  function ApprovedCheck(found: Check, comment: string, now: int): Check
  {
    found.(status := Approved, comment := comment, reviewedAt := Some(now), updatedAt := now)
  }

  function ApprovedSubmission(found: Submission, actor: int, comment: string, now: int): Submission
  {
    found.(status := "approved", reviewer := Some(actor), comment := comment, reviewedAt := Some(now), updatedAt := now)
  }

  /** The approve transaction; a call it rejects is over. */
  function ApproveTx(d: Desk, call: int, now: int): (Desk, Reply)
    requires call in d.calls && d.calls[call].Guarded?
  {
    var g := d.calls[call];
    var over := d.(calls := d.calls - {call});
    if g.submission !in d.checks || g.submission !in d.submissions then (over, NotFound)
    else
      var check, row := d.checks[g.submission], d.submissions[g.submission];
      if HeldBy(check, g.actor) != Done then (over, HeldBy(check, g.actor))
      else if Verdict(d.issues, g.submission, check) != Done then (over, Verdict(d.issues, g.submission, check))
      else
        (d.(checks := d.checks[g.submission := ApprovedCheck(check, g.comment, now)],
            submissions := d.submissions[g.submission := ApprovedSubmission(row, g.actor, g.comment, now)],
            calls := d.calls[call := Waiting(g.submission, g.actor, g.comment, now, check, row)]),
         Done)
  }

  /** A call gives up after approving: it could not read the approved row back, or its compensation did not commit. */
  function Abandon(d: Desk, call: int): Desk
    requires call in d.calls && d.calls[call].Open()
  {
    d.(calls := d.calls - {call}, abandoned := d.abandoned + {d.calls[call].submission})
  }

  function ToFailed(d: Desk, call: int): Desk
    requires call in d.calls && d.calls[call].Waiting?
  {
    var w := d.calls[call];
    d.(calls := d.calls[call := Failed(w.submission, w.actor, w.comment, w.at, w.found, w.foundSub)])
  }

  /** The workflow advance of a waiting call; `served` is false when the team leader cannot be resolved or the
      database fails the transaction. */
  function AdvanceCall(c: Ledger.Catalog, d: Desk, call: int, served: bool, now: int): (Desk, Reply)
    requires call in d.calls && d.calls[call].Waiting? && d.calls[call].submission in d.checks
  {
    var w := d.calls[call];
    var check := d.checks[w.submission];
    if !served then (ToFailed(d, call), Internal)
    else
      var (ledger, reply) := Ledger.Advance(c, d.ledger, check.project, ApproveEvent(check.kind), w.actor, w.comment,
                                            now);
      if reply != Ledger.Done then (ToFailed(d, call), Internal)
      else
        (d.(ledger := ledger, calls := d.calls - {call}, receipts := d.receipts[w.submission := |d.ledger.history|]),
         Done)
  }

  /** The hand-written compensation. */
  function Compensate(d: Desk, call: int, now: int): Desk
    requires call in d.calls && d.calls[call].Failed?
    requires d.calls[call].submission in d.checks && d.calls[call].submission in d.submissions
  {
    var sub := d.calls[call].submission;
    d.(checks := d.checks[sub := d.checks[sub].(status := InReview, comment := "", reviewedAt := None,
                                                updatedAt := now)],
       submissions := d.submissions[sub := d.submissions[sub].(status := "pending", reviewer := None, comment := "",
                                                               reviewedAt := None, updatedAt := now)],
       calls := d.calls - {call})
  }

  // ----- The tables in place -----

  class Tables {
    var checks: map<int, Check>
    var submissions: map<int, Submission>
    var issues: map<int, Issue>
    var calls: map<int, Call>
    var ledger: Ledger.Db
    ghost var receipts: map<int, nat>
    ghost var abandoned: set<int>

    ghost function Value(): Desk
      reads this
    {
      Desk(checks, submissions, issues, calls, ledger, receipts, abandoned)
    }

    /** NormStartReview and AntiplagStartReview. */
    method Start(kind: Kind, sub: int, actor: int, now: int) returns (reply: Reply)
      modifies this
      ensures (Value(), reply) == StartReview(old(Value()), kind, sub, actor, now)
    {
      if actor <= 0 {
        return Unauthenticated;
      }
      reply := CheckGuard(kind, sub);
      if reply != Done {
        return;
      }
      EnsureCheck(kind, sub, now);
      var check := checks[sub];
      if check.status != Submitted {
        return NotSubmitted;
      }
      check := check.(status := InReview, startedAt := Some(now));
      check := check.(checker := Some(actor), updatedAt := now);
      checks := checks[sub := check];
      submissions := submissions[sub := submissions[sub].(reviewer := Some(actor), updatedAt := now)];
    }

    /** assertNormSubmission with assertProjectInNormControl, and their antiplagiat twins. */
    method CheckGuard(kind: Kind, sub: int) returns (reply: Reply)
      ensures reply == Guard(Value(), kind, sub)
      ensures reply == Done <==>
                && sub in submissions && submissions[sub].step == StepName(kind)
                && submissions[sub].project > 0 && submissions[sub].project in ledger.projects
                && ledger.projects[submissions[sub].project].stateName == StepName(kind)
    {
      if sub !in submissions {
        return NotFound;
      }
      var row := submissions[sub];
      if row.step != StepName(kind) {
        return WrongStep;
      }
      if row.project <= 0 {
        return InvalidArgument;
      }
      if row.project !in ledger.projects {
        return Internal;
      }
      reply := if ledger.projects[row.project].stateName != StepName(kind) then WrongState else Done;
    }

    method EnsureCheck(kind: Kind, sub: int, now: int)
      requires sub in submissions
      modifies this`checks
      ensures Value() == Ensure(old(Value()), kind, sub, now)
    {
      if sub !in checks {
        checks := checks[sub := NewCheck(kind, submissions[sub].project, now)];
      }
    }

    /** NormAddIssue, with the issue stored under an unused id. */
    method Add(sub: int, actor: int, id: int, category: string, severity: string, description: string, now: int)
      returns (reply: Reply)
      requires id !in issues
      modifies this
      ensures (Value(), reply) == AddIssue(old(Value()), sub, actor, id, category, severity, description, now)
    {
      if actor <= 0 {
        return Unauthenticated;
      }
      if description == "" || category == "" || severity == "" {
        return InvalidArgument;
      }
      reply := CheckGuard(Norm, sub);
      if reply != Done {
        return;
      }
      EnsureCheck(Norm, sub, now);
      if checks[sub].status != InReview {
        return NotInReview;
      }
      if checks[sub].checker != Some(actor) {
        return NotChecker;
      }
      issues := issues[id := Issue(sub, category, severity, description, false, None)];
    }

    /** NormUpdateIssue. */
    method Update(id: int, actor: int, u: IssueUpdate, now: int) returns (reply: Reply)
      modifies this
      ensures (Value(), reply) == UpdateIssue(old(Value()), id, actor, u, now)
    {
      if actor <= 0 {
        return Unauthenticated;
      }
      if id !in issues || issues[id].submission !in checks {
        return NotFound;
      }
      var issue := issues[id];
      reply := HeldBy(checks[issue.submission], actor);
      if reply != Done {
        return;
      }
      if u.category != "" {
        issue := issue.(category := u.category);
      }
      if u.severity != "" {
        issue := issue.(severity := u.severity);
      }
      if u.description != "" {
        issue := issue.(description := u.description);
      }
      if u.resolved && !issue.resolved {
        issue := issue.(resolved := true, resolvedAt := Some(now));
      } else if !u.resolved && issue.resolved {
        issue := issue.(resolved := false, resolvedAt := None);
      }
      issues := issues[id := issue];
    }

    /** NormDeleteIssue. */
    method Delete(id: int, actor: int) returns (reply: Reply)
      modifies this
      ensures (Value(), reply) == DeleteIssue(old(Value()), id, actor)
    {
      if actor <= 0 {
        return Unauthenticated;
      }
      if id !in issues || issues[id].submission !in checks {
        return NotFound;
      }
      reply := HeldBy(checks[issues[id].submission], actor);
      if reply == Done {
        issues := issues - {id};
      }
    }

    /** AntiplagSetScores. */
    method Score(sub: int, actor: int, plagiarism: Option<int>, ai: Option<int>, now: int) returns (reply: Reply)
      modifies this
      ensures (Value(), reply) == SetScores(old(Value()), sub, actor, plagiarism, ai, now)
    {
      if actor <= 0 {
        return Unauthenticated;
      }
      if (plagiarism.None? && ai.None?) || !InPercent(plagiarism) || !InPercent(ai) {
        return InvalidArgument;
      }
      reply := CheckGuard(Antiplag, sub);
      if reply != Done {
        return;
      }
      EnsureCheck(Antiplag, sub, now);
      var check := checks[sub];
      reply := HeldBy(check, actor);
      if reply != Done {
        return;
      }
      if plagiarism.Some? {
        check := check.(plagiarism := plagiarism);
      }
      if ai.Some? {
        check := check.(ai := ai);
      }
      checks := checks[sub := check.(updatedAt := now)];
    }

    /** NormReturn and AntiplagReturn. */
    method SendBack(kind: Kind, sub: int, actor: int, comment: string, now: int) returns (reply: Reply)
      modifies this
      ensures (Value(), reply) == Return(old(Value()), kind, sub, actor, comment, now)
    {
      if actor <= 0 {
        return Unauthenticated;
      }
      reply := CheckGuard(kind, sub);
      if reply != Done {
        return;
      }
      EnsureCheck(kind, sub, now);
      var check, row := checks[sub], submissions[sub];
      reply := HeldBy(check, actor);
      if reply != Done {
        return;
      }
      checks := checks[sub := check.(status := Returned, comment := comment, reviewedAt := Some(now),
                                     updatedAt := now)];
      row := row.(comment := comment, reviewedAt := Some(now), updatedAt := now);
      if kind.Norm? {
        row := row.(status := "revision_requested", reviewer := Some(actor));
      } else {
        row := row.(status := "pending");
      }
      submissions := submissions[sub := row];
    }

    /** NormApprove and AntiplagApprove up to the approve transaction. */
    method Begin(call: int, kind: Kind, sub: int, actor: int, comment: string, now: int) returns (reply: Reply)
      requires call !in calls
      modifies this
      ensures (Value(), reply) == BeginApprove(old(Value()), call, kind, sub, actor, comment, now)
    {
      if actor <= 0 {
        return Unauthenticated;
      }
      reply := CheckGuard(kind, sub);
      if reply != Done {
        return;
      }
      EnsureCheck(kind, sub, now);
      calls := calls[call := Guarded(kind, sub, actor, comment)];
    }

    /** The approve transaction. */
    method Transact(call: int, now: int) returns (reply: Reply)
      requires call in calls && calls[call].Guarded?
      modifies this
      ensures (Value(), reply) == ApproveTx(old(Value()), call, now)
    {
      var g := calls[call];
      calls := calls - {call};
      if g.submission !in checks || g.submission !in submissions {
        return NotFound;
      }
      var check, row := checks[g.submission], submissions[g.submission];
      reply := HeldBy(check, g.actor);
      if reply != Done {
        return;
      }
      reply := Verdict(issues, g.submission, check);
      if reply != Done {
        return;
      }
      checks := checks[g.submission := check.(status := Approved, comment := g.comment, reviewedAt := Some(now),
                                              updatedAt := now)];
      submissions := submissions[g.submission := row.(status := "approved", reviewer := Some(g.actor),
                                                      comment := g.comment, reviewedAt := Some(now), updatedAt := now)];
      calls := calls[call := Waiting(g.submission, g.actor, g.comment, now, check, row)];
      assert calls == old(calls)[call := calls[call]];
    }

    /** The workflow advance after the approve transaction. */
    method AdvanceWorkflow(c: Ledger.Catalog, call: int, served: bool, now: int) returns (reply: Reply)
      requires call in calls && calls[call].Waiting? && calls[call].submission in checks
      modifies this
      ensures (Value(), reply) == AdvanceCall(c, old(Value()), call, served, now)
    {
      var w := calls[call];
      var check := checks[w.submission];
      if served {
        var (after, advanced) := Ledger.Advance(c, ledger, check.project, ApproveEvent(check.kind), w.actor, w.comment,
                                                now);
        if advanced == Ledger.Done {
          receipts := receipts[w.submission := |ledger.history|];
          ledger := after;
          calls := calls - {call};
          return Done;
        }
      }
      calls := calls[call := Failed(w.submission, w.actor, w.comment, w.at, w.found, w.foundSub)];
      reply := Internal;
    }

    /** The read back of the approved row; a call that fails it is over. */
    method ReadBack(call: int, found: bool) returns (reply: Reply)
      requires call in calls && calls[call].Waiting?
      modifies this
      ensures Value() == if found then old(Value()) else Abandon(old(Value()), call)
    {
      if found {
        return Done;
      }
      abandoned := abandoned + {calls[call].submission};
      calls := calls - {call};
      reply := Internal;
    }

    /** The compensation, rollbackAntiplagApprove for antiplagiat, which ends the call whether it commits or not. */
    method Undo(call: int, committed: bool, now: int)
      requires call in calls && calls[call].Failed?
      requires calls[call].submission in checks && calls[call].submission in submissions
      modifies this
      ensures Value() == if committed then Compensate(old(Value()), call, now) else Abandon(old(Value()), call)
    {
      var sub := calls[call].submission;
      if committed {
        var check, row := checks[sub], submissions[sub];
        checks := checks[sub := check.(status := InReview, comment := "", reviewedAt := None, updatedAt := now)];
        submissions := submissions[sub := row.(status := "pending", reviewer := None, comment := "", reviewedAt := None,
                                               updatedAt := now)];
      } else {
        abandoned := abandoned + {sub};
      }
      calls := calls - {call};
    }
  }
}
