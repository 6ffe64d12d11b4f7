/** Who may change a review, and what a check, its submission and its history row say of each other. */
module ReviewRights {
  import opened Wrappers
  import opened Reviews
  import opened ReviewRuns
  import Ledger
  import LedgerRuns
  import ReviewOutcomes
  import Text

  // ----- Exactly when a call goes through -----

  /** The submission belongs to the kind's step and its project stands in that state. */
  predicate InItsState(d: Desk, kind: Kind, sub: int)
  {
    var name := if kind.Norm? then "NORM_CONTROL" else "ANTIPLAGIAT";
    && sub in d.submissions && d.submissions[sub].step == name
    && d.submissions[sub].project > 0 && d.submissions[sub].project in d.ledger.projects
    && d.ledger.projects[d.submissions[sub].project].stateName == name
  }

  /** The check is in review by this checker. */
  predicate Checks(d: Desk, sub: int, actor: int)
  {
    sub in d.checks && d.checks[sub].status == InReview && d.checks[sub].checker == Some(actor)
  }

  /** Nothing stored before a call changed; a call may still have created a missing check row. */
  ghost predicate Untouched(d: Desk, e: Desk)
  {
    && e.submissions == d.submissions && e.issues == d.issues && e.ledger == d.ledger
    && e.receipts == d.receipts && e.abandoned == d.abandoned
    && forall s :: s in d.checks ==> s in e.checks && e.checks[s] == d.checks[s]
  }

  /** No check but this one changed, and nothing else did but the submissions. */
  ghost predicate OneCheck(d: Desk, e: Desk, sub: int)
  {
    && sub in e.checks && e.checks.Keys == d.checks.Keys + {sub}
    && (forall s :: s in d.checks && s != sub ==> e.checks[s] == d.checks[s])
    && e.issues == d.issues && e.ledger == d.ledger && e.receipts == d.receipts && e.abandoned == d.abandoned
  }

  lemma GuardExactly(d: Desk, kind: Kind, sub: int)
    ensures Guard(d, kind, sub) == Done <==> InItsState(d, kind, sub)
  {
    if kind.Norm? {
      assert StepName(kind) == "NORM_CONTROL";
    } else {
      assert StepName(kind) == "ANTIPLAGIAT";
    }
  }

  /** A review is started by any signed-in user, once: the starter becomes the checker. */
  lemma StartExactly(d: Desk, kind: Kind, sub: int, actor: int, now: int)
    ensures var (e, reply) := StartReview(d, kind, sub, actor, now);
            && (reply == Done <==>
                  actor > 0 && InItsState(d, kind, sub) && (sub in d.checks ==> d.checks[sub].status == Submitted))
            && (reply != Done ==> Untouched(d, e) && e.calls == d.calls)
            && (reply == Done ==>
                  && OneCheck(d, e, sub) && Checks(e, sub, actor) && e.checks[sub].startedAt == Some(now)
                  && e.submissions.Keys == d.submissions.Keys && e.submissions[sub].reviewer == Some(actor)
                  && e.submissions[sub].status == d.submissions[sub].status)
  {
    GuardExactly(d, kind, sub);
  }

  /** Only the checker of a check in review adds an issue to it. */
  lemma AddIssueExactly(d: Desk, sub: int, actor: int, id: int, category: string, severity: string, description: string,
                        now: int)
    requires id !in d.issues
    ensures var (e, reply) := AddIssue(d, sub, actor, id, category, severity, description, now);
            && (reply == Done <==>
                  && actor > 0 && category != "" && severity != "" && description != ""
                  && InItsState(d, Norm, sub) && Checks(d, sub, actor))
            && (reply != Done ==> Untouched(d, e))
            && (reply == Done ==>
                  && Untouched(d, e.(issues := d.issues)) && e.checks == d.checks && e.issues - {id} == d.issues
                  && id in e.issues && e.issues[id] == Issue(sub, category, severity, description, false, None))
  {
    GuardExactly(d, Norm, sub);
  }

  /** Only the checker of the issue's check changes the issue, while that check is in review. */
  lemma UpdateIssueExactly(d: Desk, id: int, actor: int, u: IssueUpdate, now: int)
    ensures var (e, reply) := UpdateIssue(d, id, actor, u, now);
            && (reply == Done <==> actor > 0 && id in d.issues && Checks(d, d.issues[id].submission, actor))
            && (reply != Done ==> e == d)
            && (reply == Done ==>
                  && e == d.(issues := e.issues) && e.issues - {id} == d.issues - {id} && id in e.issues
                  && var before, after := d.issues[id], e.issues[id];
                     && after.submission == before.submission && after.resolved == u.resolved
                     && after.category == (if u.category == "" then before.category else u.category)
                     && after.severity == (if u.severity == "" then before.severity else u.severity)
                     && after.description == (if u.description == "" then before.description else u.description)
                     && after.resolvedAt == (if u.resolved == before.resolved then before.resolvedAt
                                          else if u.resolved then Some(now) else None))
  {
  }

  /** Only that checker deletes it. */
  lemma DeleteIssueExactly(d: Desk, id: int, actor: int)
    ensures var (e, reply) := DeleteIssue(d, id, actor);
            && (reply == Done <==> actor > 0 && id in d.issues && Checks(d, d.issues[id].submission, actor))
            && (reply != Done ==> e == d)
            && (reply == Done ==> e == d.(issues := e.issues) && id !in e.issues && e.issues == d.issues - {id})
  {
  }

  /** Only the checker scores a check in review; the status, the checker and a score not given stay. */
  lemma ScoresExactly(d: Desk, sub: int, actor: int, plagiarism: Option<int>, ai: Option<int>, now: int)
    ensures var (e, reply) := SetScores(d, sub, actor, plagiarism, ai, now);
            && (reply == Done <==>
                  && actor > 0 && (plagiarism.Some? || ai.Some?) && InPercent(plagiarism) && InPercent(ai)
                  && InItsState(d, Antiplag, sub) && Checks(d, sub, actor))
            && (reply != Done ==> Untouched(d, e))
            && (reply == Done ==>
                  && OneCheck(d, e, sub) && e.submissions == d.submissions && Checks(e, sub, actor)
                  && e.checks[sub].plagiarism == (if plagiarism.Some? then plagiarism else d.checks[sub].plagiarism)
                  && e.checks[sub].ai == (if ai.Some? then ai else d.checks[sub].ai))
  {
    GuardExactly(d, Antiplag, sub);
  }

  /** Only the checker returns a check in review. The check keeps its checker and scores; norm control asks for a
      revision and names the reviewer, antiplagiat puts the submission back to pending. */
  lemma ReturnExactly(d: Desk, kind: Kind, sub: int, actor: int, comment: string, now: int)
    ensures var (e, reply) := Return(d, kind, sub, actor, comment, now);
            && (reply == Done <==> actor > 0 && InItsState(d, kind, sub) && Checks(d, sub, actor))
            && (reply != Done ==> Untouched(d, e))
            && (reply == Done ==>
                  && OneCheck(d, e, sub) && e.submissions.Keys == d.submissions.Keys
                  && (forall s :: s in d.submissions && s != sub ==> e.submissions[s] == d.submissions[s])
                  && var check, row := e.checks[sub], e.submissions[sub];
                     && check.status == Returned && check.checker == Some(actor) && check.comment == comment
                     && check.reviewedAt == Some(now)
                     && check.plagiarism == d.checks[sub].plagiarism && check.ai == d.checks[sub].ai
                     && row.comment == comment && row.reviewedAt == Some(now)
                     && row.status == (if kind.Norm? then "revision_requested" else "pending")
                     && row.reviewer == (if kind.Norm? then Some(actor) else d.submissions[sub].reviewer))
  {
    GuardExactly(d, kind, sub);
    ReturnLands(d, kind, sub, actor, comment, now);
  }

  lemma ReturnLands(d: Desk, kind: Kind, sub: int, actor: int, comment: string, now: int)
    ensures var (e, reply) := Return(d, kind, sub, actor, comment, now);
            && (reply == Done <==> actor > 0 && Guard(d, kind, sub) == Done && Checks(d, sub, actor))
            && (reply != Done ==> Untouched(d, e))
            && (reply == Done ==>
                  sub in d.submissions
                  && e == d.(checks := d.checks[sub := ReturnedCheck(d.checks[sub], comment, now)],
                             submissions := d.submissions[sub := ReturnedSubmission(kind, d.submissions[sub], actor,
                                                                                    comment, now)]))
  {
  }

  /** An approval is begun for a submission in its state, and only registers the call. */
  lemma BeginExactly(d: Desk, call: int, kind: Kind, sub: int, actor: int, comment: string, now: int)
    requires call !in d.calls
    ensures var (e, reply) := BeginApprove(d, call, kind, sub, actor, comment, now);
            && (reply == Done <==> actor > 0 && InItsState(d, kind, sub))
            && Untouched(d, e) && (reply != Done ==> e == d)
            && (reply == Done ==>
                  && call in e.calls && e.calls - {call} == d.calls && e.calls[call].Guarded?
                  && e.calls[call].kind == kind && e.calls[call].submission == sub && e.calls[call].actor == actor
                  && e.calls[call].comment == comment)
  {
    GuardExactly(d, kind, sub);
  }

  /** What an approve transaction needs of the rows it locks. */
  ghost predicate Approvable(d: Desk, sub: int, actor: int)
  {
    && sub in d.submissions && Checks(d, sub, actor)
    && var check := d.checks[sub];
       if check.kind.Norm?
       then forall id | id in d.issues && d.issues[id].submission == sub && d.issues[id].severity == "critical" ::
              d.issues[id].resolved
       else check.plagiarism.Some? && check.plagiarism.value >= 70 && check.ai.Some? && check.ai.value <= 70
  }

  /** Only the checker approves, a check in review whose findings allow it; a refused transaction ends its call and
      touches no row. */
  lemma ApproveExactly(d: Desk, call: int, now: int)
    requires call in d.calls && d.calls[call].Guarded?
    ensures var g := d.calls[call];
            var (e, reply) := ApproveTx(d, call, now);
            var sub := g.submission;
            && (reply == Done <==> Approvable(d, sub, g.actor))
            && (reply != Done ==> e == d.(calls := d.calls - {call}))
            && (reply == Done ==>
                  && OneCheck(d, e, sub) && e.submissions.Keys == d.submissions.Keys
                  && e.checks[sub].status == Approved && e.checks[sub].checker == Some(g.actor)
                  && e.checks[sub].comment == g.comment && e.checks[sub].reviewedAt == Some(now)
                  && e.submissions[sub].status == "approved" && e.submissions[sub].reviewer == Some(g.actor)
                  && e.submissions[sub].comment == g.comment && e.submissions[sub].reviewedAt == Some(now))
  {
  }

  /** An actor who is not the checker of the check in review is answered so and changes nothing. */
  lemma StrangersAreRefused(d: Desk, kind: Kind, sub: int, actor: int, call: int, comment: string, now: int)
    requires actor > 0 && InItsState(d, kind, sub) && call !in d.calls
    requires sub in d.checks && d.checks[sub].status == InReview && d.checks[sub].checker != Some(actor)
    ensures Return(d, kind, sub, actor, comment, now) == (d, NotChecker)
    ensures var (begun, reply) := BeginApprove(d, call, kind, sub, actor, comment, now);
            reply == Done && call in begun.calls && begun.calls[call].Guarded?
            && ApproveTx(begun, call, now) == (d, NotChecker)
  {
    GuardExactly(d, kind, sub);
    var begun := BeginApprove(d, call, kind, sub, actor, comment, now).0;
    assert begun == d.(calls := d.calls[call := Guarded(kind, sub, actor, comment)]);
    assert begun.calls - {call} == d.calls;
  }

  // ----- Over every run -----

  /** Who makes a step; an approve call acts for the one who began it. */
  function Actor(d: Desk, step: Step): Option<int>
  {
    match step
    case StartStep(_, _, actor, _) => Some(actor)
    case AddIssueStep(_, actor, _, _, _, _, _) => Some(actor)
    case UpdateIssueStep(_, actor, _, _) => Some(actor)
    case DeleteIssueStep(_, actor) => Some(actor)
    case ScoresStep(_, actor, _, _, _) => Some(actor)
    case ReturnStep(_, _, actor, _, _) => Some(actor)
    case TxStep(call, _) => if call in d.calls then Some(d.calls[call].actor) else None
    case _ => None
  }

  /** A new, changed or deleted issue of a submission. */
  predicate IssueChanged(d: Desk, e: Desk, id: int, sub: int)
  {
    || (id in d.issues && d.issues[id].submission == sub && (id !in e.issues || e.issues[id] != d.issues[id]))
    || (id in e.issues && e.issues[id].submission == sub && (id !in d.issues || e.issues[id] != d.issues[id]))
  }

  /** How one step may change the status of a check. */
  predicate MovesStatus(d: Desk, e: Desk, step: Step, sub: int)
    requires sub in d.checks && sub in e.checks
  {
    match (d.checks[sub].status, e.checks[sub].status)
    case (Submitted, InReview) => step.StartStep? && step.submission == sub && e.checks[sub].checker == Some(step.actor)
    case (InReview, Returned) => step.ReturnStep? && step.submission == sub && d.checks[sub].checker == Some(step.actor)
    case (InReview, Approved) =>
      step.TxStep? && step.call in d.calls && d.calls[step.call].submission == sub
      && d.checks[sub].checker == Some(d.calls[step.call].actor)
    case (Approved, InReview) =>
      step.CompensateStep? && step.call in d.calls && d.calls[step.call].Failed? && d.calls[step.call].submission == sub
    case (from, to) => from == to
  }

  predicate IsEdit(step: Step)
  {
    || step.AddIssueStep? || step.UpdateIssueStep? || step.DeleteIssueStep?
    || step.StartStep? || step.ScoresStep? || step.ReturnStep?
  }

  lemma StepByChecker(c: Ledger.Catalog, d: Desk, step: Step, sub: int)
    requires Inv(c, d) && sub in d.checks
    ensures ByChecker(d, Apply(c, d, step), step, sub)
  {
    if Enabled(d, step) {
      if IsEdit(step) {
        EditByChecker(c, d, step, sub);
      } else {
        CallByChecker(c, d, step, sub);
      }
    }
  }

  lemma CallByChecker(c: Ledger.Catalog, d: Desk, step: Step, sub: int)
    requires Inv(c, d) && sub in d.checks && Enabled(d, step) && !IsEdit(step)
    ensures ByChecker(d, Apply(c, d, step), step, sub)
  {
    match step
    case TxStep(_, _) => TxByChecker(c, d, step, sub);
    case CompensateStep(call, now) => assert CallSound(d, d.calls[call]);
    case _ =>
  }

  lemma TxByChecker(c: Ledger.Catalog, d: Desk, step: Step, sub: int)
    requires step.TxStep? && Enabled(d, step) && sub in d.checks
    ensures ByChecker(d, Apply(c, d, step), step, sub)
  {
    ApproveExactly(d, step.call, step.now);
  }

  lemma EditByChecker(c: Ledger.Catalog, d: Desk, step: Step, sub: int)
    requires sub in d.checks && Enabled(d, step) && IsEdit(step)
    ensures ByChecker(d, Apply(c, d, step), step, sub)
  {
    match step
    case StartStep(_, _, _, _) => StartByChecker(c, d, step, sub);
    case ReturnStep(_, _, _, _, _) => ReturnByChecker(c, d, step, sub);
    case ScoresStep(_, _, _, _, _) => ScoresByChecker(c, d, step, sub);
    case AddIssueStep(_, _, _, _, _, _, _) => AddIssueByChecker(c, d, step, sub);
    case _ =>
  }

  /** A step moves a check's status as it may, and a check in review changes by its checker only. */
  predicate ByChecker(d: Desk, e: Desk, step: Step, sub: int)
    requires sub in d.checks
  {
    && sub in e.checks && MovesStatus(d, e, step, sub)
    && (d.checks[sub].status == InReview && e.checks[sub] != d.checks[sub] ==>
          d.checks[sub].checker.Some? && Actor(d, step) == d.checks[sub].checker)
  }

  lemma StartByChecker(c: Ledger.Catalog, d: Desk, step: Step, sub: int)
    requires step.StartStep? && sub in d.checks
    ensures ByChecker(d, Apply(c, d, step), step, sub)
  {
    StartExactly(d, step.kind, step.submission, step.actor, step.now);
  }

  lemma ReturnByChecker(c: Ledger.Catalog, d: Desk, step: Step, sub: int)
    requires step.ReturnStep? && sub in d.checks
    ensures ByChecker(d, Apply(c, d, step), step, sub)
  {
    ReturnExactly(d, step.kind, step.submission, step.actor, step.comment, step.now);
  }

  lemma ScoresByChecker(c: Ledger.Catalog, d: Desk, step: Step, sub: int)
    requires step.ScoresStep? && sub in d.checks
    ensures ByChecker(d, Apply(c, d, step), step, sub)
  {
    ScoresExactly(d, step.submission, step.actor, step.plagiarism, step.ai, step.now);
  }

  lemma AddIssueByChecker(c: Ledger.Catalog, d: Desk, step: Step, sub: int)
    requires step.AddIssueStep? && Enabled(d, step) && sub in d.checks
    ensures ByChecker(d, Apply(c, d, step), step, sub)
  {
    AddIssueExactly(d, step.submission, step.actor, step.id, step.category, step.severity, step.description, step.now);
  }

  lemma IssuesByChecker(c: Ledger.Catalog, d: Desk, step: Step, id: int, sub: int)
    requires IssueChanged(d, Apply(c, d, step), id, sub)
    ensures sub in d.checks && d.checks[sub].status == InReview
    ensures d.checks[sub].checker.Some? && Actor(d, step) == d.checks[sub].checker
  {
    match step
    case AddIssueStep(s, actor, other, category, severity, description, now) =>
      AddIssueExactly(d, s, actor, other, category, severity, description, now);
    case UpdateIssueStep(other, actor, u, now) => UpdateIssueExactly(d, other, actor, u, now);
    case DeleteIssueStep(other, actor) => DeleteIssueExactly(d, other, actor);
    case StartStep(kind, s, actor, now) => StartExactly(d, kind, s, actor, now);
    case ScoresStep(s, actor, plagiarism, ai, now) => ScoresExactly(d, s, actor, plagiarism, ai, now);
    case ReturnStep(kind, s, actor, comment, now) => ReturnExactly(d, kind, s, actor, comment, now);
    case TxStep(call, now) => if Enabled(d, step) { ApproveExactly(d, call, now); }
    case _ =>
  }

  /** Over any run a check in review, and the issues of any check, change only by that check's checker while it is in
      review; a status changes only by start, return, approval and compensation of that very check. */
  lemma OnlyTheCheckerActs(c: Ledger.Catalog, d: Desk, steps: seq<Step>, i: nat, sub: int, id: int)
    requires Ledger.WellFormed(c) && Inv(c, d) && AllowedRun(c, d, steps) && i < |steps|
    ensures var before, after := Run(c, d, steps[..i]), Run(c, d, steps[..i + 1]);
            && (sub in before.checks ==> ByChecker(before, after, steps[i], sub))
            && (IssueChanged(before, after, id, sub) ==>
                  && sub in before.checks && before.checks[sub].status == InReview
                  && before.checks[sub].checker.Some? && Actor(before, steps[i]) == before.checks[sub].checker)
  {
    AllowedPrefix(c, d, steps, i);
    RunKeepsInv(c, d, steps[..i]);
    var before := Run(c, d, steps[..i]);
    assert steps[..i + 1][..i] == steps[..i];
    if sub in before.checks {
      StepByChecker(c, before, steps[i], sub);
    }
    if IssueChanged(before, Apply(c, before, steps[i]), id, sub) {
      IssuesByChecker(c, before, steps[i], id, sub);
    }
  }

  // ----- The two rows of a document -----

  /** What a check and its submission say of each other. */
  predicate Agree(check: Check, row: Submission)
  {
    && row.step == (if check.kind.Norm? then "NORM_CONTROL" else "ANTIPLAGIAT") && row.project == check.project
    && (check.checker.Some? <==> check.status != Submitted) && (check.startedAt.Some? <==> check.status != Submitted)
    && (check.reviewedAt.Some? <==> check.status == Returned || check.status == Approved)
    && match check.status
       case Submitted => true
       case InReview => row.reviewer == check.checker || row.reviewer.None?
       case Returned =>
         && row.comment == check.comment && row.reviewedAt == check.reviewedAt
         && (check.kind.Norm? ==> row.status == "revision_requested" && row.reviewer == check.checker)
         && (check.kind.Antiplag? ==> row.status == "pending")
       case Approved =>
         && row.status == "approved" && row.reviewer == check.checker && row.comment == check.comment
         && row.reviewedAt == check.reviewedAt
  }

  ghost predicate RowsAgree(d: Desk)
  {
    forall s :: s in d.checks ==> s in d.submissions && Agree(d.checks[s], d.submissions[s])
  }

  lemma StartAgrees(d: Desk, kind: Kind, sub: int, actor: int, now: int)
    requires RowsAgree(d)
    ensures RowsAgree(StartReview(d, kind, sub, actor, now).0)
  {
    GuardExactly(d, kind, sub);
  }

  lemma ScoresAgree(d: Desk, sub: int, actor: int, plagiarism: Option<int>, ai: Option<int>, now: int)
    requires RowsAgree(d)
    ensures RowsAgree(SetScores(d, sub, actor, plagiarism, ai, now).0)
  {
    GuardExactly(d, Antiplag, sub);
  }

  lemma ReturnAgrees(d: Desk, kind: Kind, sub: int, actor: int, comment: string, now: int)
    requires RowsAgree(d)
    ensures RowsAgree(Return(d, kind, sub, actor, comment, now).0)
  {
    GuardExactly(d, kind, sub);
    ReturnExactly(d, kind, sub, actor, comment, now);
  }

  lemma AddIssueAgrees(d: Desk, step: Step)
    requires RowsAgree(d) && step.AddIssueStep? && Enabled(d, step)
    ensures RowsAgree(AddIssue(d, step.submission, step.actor, step.id, step.category, step.severity, step.description,
                               step.now).0)
  {
    GuardExactly(d, Norm, step.submission);
  }

  lemma BeginAgrees(d: Desk, call: int, kind: Kind, sub: int, actor: int, comment: string, now: int)
    requires RowsAgree(d)
    ensures RowsAgree(BeginApprove(d, call, kind, sub, actor, comment, now).0)
  {
    GuardExactly(d, kind, sub);
  }

  lemma TxAgrees(d: Desk, call: int, now: int)
    requires RowsAgree(d) && call in d.calls && d.calls[call].Guarded?
    ensures RowsAgree(ApproveTx(d, call, now).0)
  {
  }

  lemma CompensateAgrees(c: Ledger.Catalog, d: Desk, call: int, now: int)
    requires Inv(c, d) && RowsAgree(d) && Enabled(d, CompensateStep(call, now))
    ensures RowsAgree(Compensate(d, call, now))
  {
    assert CallSound(d, d.calls[call]);
  }

  lemma StepAgrees(c: Ledger.Catalog, d: Desk, step: Step)
    requires Inv(c, d) && RowsAgree(d)
    ensures RowsAgree(Apply(c, d, step))
  {
    if Enabled(d, step) {
      match step
      case StartStep(kind, sub, actor, now) => StartAgrees(d, kind, sub, actor, now);
      case AddIssueStep(_, _, _, _, _, _, _) => AddIssueAgrees(d, step);
      case ScoresStep(sub, actor, plagiarism, ai, now) => ScoresAgree(d, sub, actor, plagiarism, ai, now);
      case ReturnStep(kind, sub, actor, comment, now) => ReturnAgrees(d, kind, sub, actor, comment, now);
      case BeginStep(call, kind, sub, actor, comment, now) => BeginAgrees(d, call, kind, sub, actor, comment, now);
      case TxStep(call, now) => TxAgrees(d, call, now);
      case CompensateStep(call, now) => CompensateAgrees(c, d, call, now);
      case _ =>
    }
  }

  /** Over any run the submission row says what its check says: approved by the checker with the checker's comment and
      time, returned with them, and under review for the checker or, after a compensation, for nobody. */
  lemma {:induction false} RowsStayInAgreement(c: Ledger.Catalog, d: Desk, steps: seq<Step>)
    requires Ledger.WellFormed(c) && Inv(c, d) && AllowedRun(c, d, steps) && RowsAgree(d)
    ensures RowsAgree(Run(c, d, steps))
  {
    if steps != [] {
      var last := |steps| - 1;
      AllowedPrefix(c, d, steps, last);
      RowsStayInAgreement(c, d, steps[..last]);
      RunKeepsInv(c, d, steps[..last]);
      StepAgrees(c, Run(c, d, steps[..last]), steps[last]);
    }
  }

  // ----- The history row of an approval -----

  /** A check's receipt names a row its checker signed with the check's comment, of the kind's own event; open calls act
      for the checker. */
  ghost predicate Signed(d: Desk)
  {
    && (forall s :: s in d.receipts ==> SignedReceipt(d, s))
    && (forall k :: k in d.calls && d.calls[k].Open() ==> SignedCall(d, d.calls[k]))
  }

  predicate SignedReceipt(d: Desk, s: int)
    requires s in d.receipts
  {
    && s in d.checks && d.receipts[s] < |d.ledger.history|
    && var check, row := d.checks[s], d.ledger.history[d.receipts[s]];
       && row.project == check.project && Some(row.changedBy) == check.checker
       && row.comment == Text.TrimSpace(check.comment)
       && row.event == (if check.kind.Norm? then "NORMCONTROL_SUBMITTED" else "ANTIPLAGIAT_SUBMITTED")
  }

  predicate SignedCall(d: Desk, call: Call)
    requires call.Open()
  {
    && call.submission in d.checks && d.checks[call.submission].checker == Some(call.actor)
    && d.checks[call.submission].comment == call.comment
  }

  /** A step that leaves receipts alone, and opens no call but for the checker. */
  lemma SignaturesStay(d: Desk, e: Desk)
    requires Signed(d) && Settled(d, e) && e.receipts == d.receipts
    requires forall k | k in e.calls && e.calls[k].Open() :: SignedCall(e, e.calls[k])
    ensures Signed(e)
  {
    forall s | s in e.receipts
      ensures SignedReceipt(e, s)
    {
      assert SignedReceipt(d, s);
      assert e.ledger.history[d.receipts[s]] == d.ledger.history[d.receipts[s]];
    }
  }

  /** A call that was open before the step and still is. */
  lemma CallStaysSigned(d: Desk, e: Desk, k: int)
    requires Signed(d) && Settled(d, e) && k in d.calls && d.calls[k].Open() && k in e.calls && e.calls[k].Open()
    requires e.calls[k].submission == d.calls[k].submission && e.calls[k].actor == d.calls[k].actor
    requires e.calls[k].comment == d.calls[k].comment
    requires e.calls[k].submission in e.checks && e.checks[e.calls[k].submission].comment == e.calls[k].comment
    ensures SignedCall(e, e.calls[k])
  {
    assert SignedCall(d, d.calls[k]);
  }

  lemma AdvanceSigns(c: Ledger.Catalog, d: Desk, call: int, served: bool, now: int)
    requires Signed(d) && Enabled(d, AdvanceStep(call, served, now))
    requires Settled(d, AdvanceCall(c, d, call, served, now).0)
    requires forall k, l | k in d.calls && l in d.calls && d.calls[k].Open() && d.calls[l].Open() ::
               d.calls[k].submission == d.calls[l].submission ==> k == l
    ensures Signed(AdvanceCall(c, d, call, served, now).0)
  {
    var (e, reply) := AdvanceCall(c, d, call, served, now);
    assert SignedCall(d, d.calls[call]);
    forall k | k in e.calls && e.calls[k].Open()
      ensures SignedCall(e, e.calls[k])
    {
      assert SignedCall(d, d.calls[k]);
    }
    forall s | s in e.receipts
      ensures SignedReceipt(e, s)
    {
      if s != d.calls[call].submission || reply != Done {
        assert SignedReceipt(d, s);
        assert e.ledger.history[d.receipts[s]] == d.ledger.history[d.receipts[s]];
      }
    }
  }

  lemma TxSigns(d: Desk, call: int, now: int)
    requires Signed(d) && call in d.calls && d.calls[call].Guarded? && Settled(d, ApproveTx(d, call, now).0)
    requires var e := ApproveTx(d, call, now).0; forall k :: k in e.calls ==> CallSound(e, e.calls[k])
    ensures Signed(ApproveTx(d, call, now).0)
  {
    var e := ApproveTx(d, call, now).0;
    ApproveExactly(d, call, now);
    forall k | k in e.calls && e.calls[k].Open()
      ensures SignedCall(e, e.calls[k])
    {
      assert CallSound(e, e.calls[k]);
      if k != call {
        CallStaysSigned(d, e, k);
      }
    }
    SignaturesStay(d, e);
  }

  /** Receipts stay, and no call opens. */
  ghost predicate OpensNothing(d: Desk, e: Desk)
  {
    && e.receipts == d.receipts
    && forall k :: k in e.calls && e.calls[k].Open() ==> k in d.calls && e.calls[k] == d.calls[k]
  }

  lemma OthersOpenNothing(c: Ledger.Catalog, d: Desk, step: Step)
    requires Enabled(d, step) && !step.TxStep? && !step.AdvanceStep?
    ensures OpensNothing(d, Apply(c, d, step))
  {
    if IsEdit(step) {
      EditsOpenNothing(c, d, step);
    }
  }

  lemma EditsOpenNothing(c: Ledger.Catalog, d: Desk, step: Step)
    requires Enabled(d, step) && IsEdit(step)
    ensures OpensNothing(d, Apply(c, d, step))
  {
    match step
    case StartStep(kind, s, actor, now) => StartKeepsCalls(d, kind, s, actor, now);
    case ScoresStep(s, actor, plagiarism, ai, now) => ScoresKeepCalls(d, s, actor, plagiarism, ai, now);
    case ReturnStep(kind, s, actor, comment, now) => ReturnKeepsCalls(d, kind, s, actor, comment, now);
    case AddIssueStep(_, _, _, _, _, _, _) => AddIssueKeepsCalls(d, step);
    case _ =>
  }

  lemma AddIssueKeepsCalls(d: Desk, step: Step)
    requires step.AddIssueStep?
    ensures var e := AddIssue(d, step.submission, step.actor, step.id, step.category, step.severity, step.description,
                              step.now).0;
            e.calls == d.calls && e.receipts == d.receipts
  {
  }

  lemma StartKeepsCalls(d: Desk, kind: Kind, sub: int, actor: int, now: int)
    ensures var e := StartReview(d, kind, sub, actor, now).0; e.calls == d.calls && e.receipts == d.receipts
  {
  }

  lemma ScoresKeepCalls(d: Desk, sub: int, actor: int, plagiarism: Option<int>, ai: Option<int>, now: int)
    ensures var e := SetScores(d, sub, actor, plagiarism, ai, now).0; e.calls == d.calls && e.receipts == d.receipts
  {
  }

  lemma ReturnKeepsCalls(d: Desk, kind: Kind, sub: int, actor: int, comment: string, now: int)
    ensures var e := Return(d, kind, sub, actor, comment, now).0; e.calls == d.calls && e.receipts == d.receipts
  {
    ReturnLands(d, kind, sub, actor, comment, now);
  }

  lemma OtherSigns(c: Ledger.Catalog, d: Desk, step: Step)
    requires Signed(d) && Enabled(d, step) && !step.TxStep? && !step.AdvanceStep? && Settled(d, Apply(c, d, step))
    requires var e := Apply(c, d, step); forall k :: k in e.calls ==> CallSound(e, e.calls[k])
    ensures Signed(Apply(c, d, step))
  {
    var e := Apply(c, d, step);
    OthersOpenNothing(c, d, step);
    forall k | k in e.calls && e.calls[k].Open()
      ensures SignedCall(e, e.calls[k])
    {
      assert CallSound(e, e.calls[k]);
      CallStaysSigned(d, e, k);
    }
    SignaturesStay(d, e);
  }

  lemma StepSigns(c: Ledger.Catalog, d: Desk, step: Step)
    requires Ledger.WellFormed(c) && Inv(c, d) && Signed(d)
    requires step.LedgerStep? ==> LedgerRuns.Allowed(c, d.ledger, step.step)
    ensures Signed(Apply(c, d, step))
  {
    if Enabled(d, step) {
      StepKeepsInv(c, d, step);
      Standing(c, d);
      Standing(c, Apply(c, d, step));
      StepSettles(c, d, step);
      match step
      case TxStep(call, now) => TxSigns(d, call, now);
      case AdvanceStep(call, served, now) => AdvanceSigns(c, d, call, served, now);
      case _ => OtherSigns(c, d, step);
    }
  }

  /** Over any run the history row of an advanced approval is of the kind's event and carries the checker of the check
      and the check's comment. */
  lemma {:induction false} ApprovalsAreSigned(c: Ledger.Catalog, d: Desk, steps: seq<Step>)
    requires Ledger.WellFormed(c) && Inv(c, d) && AllowedRun(c, d, steps) && Signed(d)
    ensures Signed(Run(c, d, steps))
  {
    if steps != [] {
      var last := |steps| - 1;
      AllowedPrefix(c, d, steps, last);
      ApprovalsAreSigned(c, d, steps[..last]);
      RunKeepsInv(c, d, steps[..last]);
      StepSigns(c, Run(c, d, steps[..last]), steps[last]);
    }
  }

  /** Both laws hold in every state a run reaches from the initial tables. */
  lemma ReachableReviewsAgree(c: Ledger.Catalog, d: Desk, steps: seq<Step>)
    requires Ledger.WellFormed(c) && ReviewOutcomes.Initial(c, d) && AllowedRun(c, d, steps)
    ensures RowsAgree(Run(c, d, steps)) && Signed(Run(c, d, steps))
  {
    ReviewOutcomes.InitialIsSound(c, d);
    RowsStayInAgreement(c, d, steps);
    ApprovalsAreSigned(c, d, steps);
  }
}
