/** What a whole review leads to: scores and issues decide an approval. */
module ReviewOutcomes {
  import opened Wrappers
  import opened Reviews
  import ReviewRuns
  import Ledger
  import LedgerRuns

  /** An approve call up to its transaction. */
  function TryApprove(d: Desk, call: int, kind: Kind, sub: int, actor: int, comment: string, now: int): Reply
  {
    var (begun, reply) := BeginApprove(d, call, kind, sub, actor, comment, now);
    if reply != Done then reply else ApproveTx(begun, call, now).1
  }

  /** A review of this kind is under way and held by the actor. */
  predicate Held(d: Desk, kind: Kind, sub: int, actor: int)
  {
    actor > 0 && Guard(d, kind, sub) == Done && sub in d.checks && HeldBy(d.checks[sub], actor) == Done
  }

  lemma HeldDecides(d: Desk, call: int, kind: Kind, sub: int, actor: int, comment: string, now: int)
    requires call !in d.calls && Held(d, kind, sub, actor)
    ensures TryApprove(d, call, kind, sub, actor, comment, now) == Verdict(d.issues, sub, d.checks[sub])
  {
  }

  lemma StartedIsHeld(d: Desk, kind: Kind, sub: int, actor: int, now: int)
    requires KindMatches(d, sub, kind) && StartReview(d, kind, sub, actor, now).1 == Done
    ensures var e := StartReview(d, kind, sub, actor, now).0;
            && Held(e, kind, sub, actor) && e.checks[sub].kind == kind
            && e.calls == d.calls && e.issues == d.issues
  {
  }

  lemma ScoresHeld(d: Desk, sub: int, actor: int, plagiarism: Option<int>, ai: Option<int>, now: int)
    requires Held(d, Antiplag, sub, actor)
    requires (plagiarism.Some? || ai.Some?) && InPercent(plagiarism) && InPercent(ai)
    ensures var e := SetScores(d, sub, actor, plagiarism, ai, now).0;
            && Held(e, Antiplag, sub, actor) && e.calls == d.calls
            && e.checks[sub].kind == d.checks[sub].kind
            && e.checks[sub].plagiarism == (if plagiarism.Some? then plagiarism else d.checks[sub].plagiarism)
            && e.checks[sub].ai == (if ai.Some? then ai else d.checks[sub].ai)
  {
  }

  /** The check row of a submission, if any, is of the kind its step says. */
  predicate KindMatches(d: Desk, sub: int, kind: Kind) { sub in d.checks ==> d.checks[sub].kind == kind }

  /** A started antiplagiat review whose checker gives the two scores one by one, in either order, is approved exactly
      within the limits. */
  lemma ScoredApproval(d: Desk, call: int, sub: int, actor: int, originality: int, ai: int, originalityFirst: bool,
                       comment: string, now: int)
    requires call !in d.calls && KindMatches(d, sub, Antiplag)
    requires 0 <= originality <= 100 && 0 <= ai <= 100
    requires StartReview(d, Antiplag, sub, actor, now).1 == Done
    ensures var started := StartReview(d, Antiplag, sub, actor, now).0;
            var half := if originalityFirst then SetScores(started, sub, actor, Some(originality), None, now).0
                        else SetScores(started, sub, actor, None, Some(ai), now).0;
            var scored := if originalityFirst then SetScores(half, sub, actor, None, Some(ai), now).0
                          else SetScores(half, sub, actor, Some(originality), None, now).0;
            TryApprove(scored, call, Antiplag, sub, actor, comment, now)
            == if originality < 70 then LowOriginality else if ai > 70 then HighAi else Done
  {
    var first := if originalityFirst then (Some(originality), None) else (None, Some(ai));
    var second := if originalityFirst then (None, Some(ai)) else (Some(originality), None);
    var started := StartReview(d, Antiplag, sub, actor, now).0;
    var half := SetScores(started, sub, actor, first.0, first.1, now).0;
    StartedIsHeld(d, Antiplag, sub, actor, now);
    ScoresHeld(started, sub, actor, first.0, first.1, now);
    ScoresHeld(half, sub, actor, second.0, second.1, now);
    HeldDecides(SetScores(half, sub, actor, second.0, second.1, now).0, call, Antiplag, sub, actor, comment, now);
  }

  /** A critical issue blocks a norm-control approval until it is resolved or deleted. */
  lemma CriticalBlocks(d: Desk, call: int, sub: int, actor: int, id: int, category: string, description: string,
                       comment: string, now: int)
    requires call !in d.calls && KindMatches(d, sub, Norm) && id !in d.issues && category != "" && description != ""
    requires StartReview(d, Norm, sub, actor, now).1 == Done && !UnresolvedCritical(d.issues, sub)
    ensures var added := AddIssue(StartReview(d, Norm, sub, actor, now).0, sub, actor, id, category, "critical",
                                  description, now).0;
            && TryApprove(added, call, Norm, sub, actor, comment, now) == CriticalIssues
            && TryApprove(UpdateIssue(added, id, actor, IssueUpdate("", "", "", true), now).0, call, Norm, sub, actor,
                          comment, now) == Done
            && TryApprove(UpdateIssue(added, id, actor, IssueUpdate("", "minor", "", false), now).0, call, Norm, sub,
                          actor, comment, now) == Done
            && TryApprove(DeleteIssue(added, id, actor).0, call, Norm, sub, actor, comment, now) == Done
  {
    var started := StartReview(d, Norm, sub, actor, now).0;
    StartedIsHeld(d, Norm, sub, actor, now);
    var issue := Issue(sub, category, "critical", description, false, None);
    var added := AddIssue(started, sub, actor, id, category, "critical", description, now).0;
    assert added == started.(issues := d.issues[id := issue]);
    CriticalLifts(started, added, call, sub, actor, id, issue, comment, now);
  }

  lemma CriticalLifts(started: Desk, added: Desk, call: int, sub: int, actor: int, id: int, issue: Issue,
                      comment: string, now: int)
    requires Held(started, Norm, sub, actor) && started.checks[sub].kind == Norm && call !in started.calls
    requires id !in started.issues && !UnresolvedCritical(started.issues, sub)
    requires issue.submission == sub && issue.severity == "critical" && !issue.resolved
    requires added == started.(issues := started.issues[id := issue])
    ensures TryApprove(added, call, Norm, sub, actor, comment, now) == CriticalIssues
    ensures TryApprove(UpdateIssue(added, id, actor, IssueUpdate("", "", "", true), now).0, call, Norm, sub, actor,
                       comment, now) == Done
    ensures TryApprove(UpdateIssue(added, id, actor, IssueUpdate("", "minor", "", false), now).0, call, Norm, sub,
                       actor, comment, now) == Done
    ensures TryApprove(DeleteIssue(added, id, actor).0, call, Norm, sub, actor, comment, now) == Done
  {
    IssueVerdict(started, added, call, sub, actor, id, comment, now);
    var resolved := UpdateIssue(added, id, actor, IssueUpdate("", "", "", true), now).0;
    IssueVerdict(started, resolved, call, sub, actor, id, comment, now);
    var eased := UpdateIssue(added, id, actor, IssueUpdate("", "minor", "", false), now).0;
    IssueVerdict(started, eased, call, sub, actor, id, comment, now);
    IssueVerdict(started, DeleteIssue(added, id, actor).0, call, sub, actor, id, comment, now);
  }

  /** With no other blocking issue the one issue decides. */
  lemma IssueVerdict(d: Desk, e: Desk, call: int, sub: int, actor: int, id: int, comment: string, now: int)
    requires Held(d, Norm, sub, actor) && d.checks[sub].kind == Norm && call !in d.calls && id !in d.issues
    requires !UnresolvedCritical(d.issues, sub)
    requires e == d.(issues := e.issues)
        && (forall k :: k in e.issues && k != id ==> k in d.issues && e.issues[k] == d.issues[k])
    ensures TryApprove(e, call, Norm, sub, actor, comment, now)
            == if id in e.issues && e.issues[id].submission == sub && e.issues[id].severity == "critical"
              && !e.issues[id].resolved
               then CriticalIssues else Done
  {
    HeldDecides(e, call, Norm, sub, actor, comment, now);
  }

  // ----- Resolution times -----

  /** An issue has a resolution time exactly while it is resolved. */
  ghost predicate Dated(d: Desk)
  {
    forall id :: id in d.issues ==> (d.issues[id].resolved <==> d.issues[id].resolvedAt.Some?)
  }

  lemma StepKeepsDates(c: Ledger.Catalog, d: Desk, step: ReviewRuns.Step)
    requires Dated(d)
    ensures Dated(ReviewRuns.Apply(c, d, step))
  {
    if !step.AddIssueStep? && !step.UpdateIssueStep? && !step.DeleteIssueStep? {
      OthersKeepIssues(c, d, step);
    }
  }

  lemma OthersKeepIssues(c: Ledger.Catalog, d: Desk, step: ReviewRuns.Step)
    requires !step.AddIssueStep? && !step.UpdateIssueStep? && !step.DeleteIssueStep?
    ensures ReviewRuns.Apply(c, d, step).issues == d.issues
  {
    match step
    case StartStep(kind, sub, actor, now) => ReviewRuns.StartLeaves(d, kind, sub, actor, now);
    case ScoresStep(sub, actor, plagiarism, ai, now) => ReviewRuns.ScoresLeaves(d, sub, actor, plagiarism, ai, now);
    case ReturnStep(kind, sub, actor, comment, now) => ReviewRuns.ReturnLeaves(d, kind, sub, actor, comment, now);
    case TxStep(call, now) => if ReviewRuns.Enabled(d, step) { ReviewRuns.TxLeaves(d, call, now); }
    case _ =>
  }

  lemma {:induction false} IssuesStayDated(c: Ledger.Catalog, d: Desk, steps: seq<ReviewRuns.Step>)
    requires Dated(d)
    ensures Dated(ReviewRuns.Run(c, d, steps))
  {
    if steps != [] {
      IssuesStayDated(c, d, steps[..|steps| - 1]);
      StepKeepsDates(c, ReviewRuns.Run(c, d, steps[..|steps| - 1]), steps[|steps| - 1]);
    }
  }

  // ----- Reachable states -----

  /** The two machines before any call, over any submissions and a sound ledger. */
  ghost predicate Initial(c: Ledger.Catalog, d: Desk)
  {
    && d.checks == map[] && d.issues == map[] && d.calls == map[] && d.receipts == map[] && d.abandoned == {}
    && LedgerRuns.Inv(c, d.ledger)
  }

  lemma InitialIsSound(c: Ledger.Catalog, d: Desk)
    requires Initial(c, d)
    ensures ReviewRuns.Inv(c, d)
  {
  }

  /** In every reachable state an approved norm check has no unresolved critical issue, an approved antiplagiat check
      has originality in 70..100 and an AI score in 0..70, and a check has a checker exactly from review start on. */
  lemma ReachableApprovalsAreDeserved(c: Ledger.Catalog, d: Desk, steps: seq<ReviewRuns.Step>, s: int)
    requires Ledger.WellFormed(c) && Initial(c, d) && ReviewRuns.AllowedRun(c, d, steps)
    requires s in ReviewRuns.Run(c, d, steps).checks
    ensures var e := ReviewRuns.Run(c, d, steps);
            var check := e.checks[s];
            && (check.checker.Some? <==> check.status != Submitted)
            && (check.status == Approved && check.kind == Norm ==> !UnresolvedCritical(e.issues, s))
            && (check.status == Approved && check.kind == Antiplag ==>
                  && check.plagiarism.Some? && 70 <= check.plagiarism.value <= 100
                  && check.ai.Some? && 0 <= check.ai.value <= 70)
  {
    InitialIsSound(c, d);
    ReviewRuns.RunKeepsInv(c, d, steps);
    assert ReviewRuns.Deserved(ReviewRuns.Run(c, d, steps), s);
  }

  /** A norm-control document is reviewed and approved, the approved row cannot be read back, and the call returns: the
      check is approved, no history row was written for it, and the project is where it was. */
  lemma UnreadApprovalStands(c: Ledger.Catalog, d: Desk, sub: int, actor: int, call: int, comment: string, now: int)
    requires Initial(c, d) && actor > 0 && Guard(d, Norm, sub) == Done
    ensures var steps := [ReviewRuns.StartStep(Norm, sub, actor, now),
                          ReviewRuns.BeginStep(call, Norm, sub, actor, comment, now),
                          ReviewRuns.TxStep(call, now), ReviewRuns.ReadBackStep(call)];
            var e := ReviewRuns.Run(c, d, steps);
            && ReviewRuns.Quiet(e) && sub in e.checks && e.checks[sub].status == Approved
            && sub !in e.receipts && e.ledger == d.ledger
  {
    RunFour(c, d, ReviewRuns.StartStep(Norm, sub, actor, now),
            ReviewRuns.BeginStep(call, Norm, sub, actor, comment, now),
            ReviewRuns.TxStep(call, now), ReviewRuns.ReadBackStep(call));
    UnreadApproval(d, sub, actor, call, comment, now);
  }

  lemma RunFour(c: Ledger.Catalog, d: Desk, s: ReviewRuns.Step, t: ReviewRuns.Step, u: ReviewRuns.Step,
                v: ReviewRuns.Step)
    ensures ReviewRuns.Run(c, d, [s, t, u, v])
            == ReviewRuns.Apply(c, ReviewRuns.Apply(c, ReviewRuns.Apply(c, ReviewRuns.Apply(c, d, s), t), u), v)
  {
    RunTwo(c, d, s, t);
    RunAppends(c, d, [s, t], u);
    RunAppends(c, d, [s, t, u], v);
    assert [s, t] + [u] == [s, t, u] && [s, t, u] + [v] == [s, t, u, v];
  }

  lemma RunTwo(c: Ledger.Catalog, d: Desk, s: ReviewRuns.Step, t: ReviewRuns.Step)
    ensures ReviewRuns.Run(c, d, [s, t]) == ReviewRuns.Apply(c, ReviewRuns.Apply(c, d, s), t)
  {
    RunAppends(c, d, [], s);
    RunAppends(c, d, [s], t);
    assert [] + [s] == [s] && [s] + [t] == [s, t];
  }

  lemma RunAppends(c: Ledger.Catalog, d: Desk, steps: seq<ReviewRuns.Step>, step: ReviewRuns.Step)
    ensures ReviewRuns.Run(c, d, steps + [step]) == ReviewRuns.Apply(c, ReviewRuns.Run(c, d, steps), step)
  {
    assert (steps + [step])[..|steps|] == steps;
  }

  lemma UnreadApproval(d: Desk, sub: int, actor: int, call: int, comment: string, now: int)
    requires d.checks == map[] && d.issues == map[] && d.calls == map[] && d.receipts == map[]
    requires actor > 0 && Guard(d, Norm, sub) == Done
    ensures var begun := BeginApprove(StartReview(d, Norm, sub, actor, now).0, call, Norm, sub, actor, comment, now).0;
            && call in begun.calls && begun.calls[call].Guarded?
            && var e := ApproveTx(begun, call, now).0;
               && call in e.calls && e.calls[call].Waiting? && e.calls.Keys == {call} && e.calls[call].submission == sub
               && sub in e.checks && e.checks[sub].status == Approved && sub !in e.receipts && e.ledger == d.ledger
  {
    var started := StartReview(d, Norm, sub, actor, now).0;
    StartedIsHeld(d, Norm, sub, actor, now);
    HeldDecides(started, call, Norm, sub, actor, comment, now);
  }

  // ----- The guard -----

  /** The submission a step starts, edits, scores, returns or begins to approve, with its kind. */
  function Subject(step: ReviewRuns.Step): Option<(Kind, int)>
  {
    match step
    case StartStep(kind, sub, _, _) => Some((kind, sub))
    case AddIssueStep(sub, _, _, _, _, _, _) => Some((Norm, sub))
    case ScoresStep(sub, _, _, _, _) => Some((Antiplag, sub))
    case ReturnStep(kind, sub, _, _, _) => Some((kind, sub))
    case BeginStep(_, kind, sub, _, _, _) => Some((kind, sub))
    case _ => None
  }

  /** Such a step does nothing at all unless the submission belongs to the kind's step and its project is in that
      state. */
  lemma ReviewsOnlyInTheirState(c: Ledger.Catalog, d: Desk, step: ReviewRuns.Step)
    requires Subject(step).Some? && ReviewRuns.Apply(c, d, step) != d
    ensures var (kind, sub) := Subject(step).value;
            && sub in d.submissions && d.submissions[sub].step == StepName(kind)
            && d.submissions[sub].project > 0 && d.submissions[sub].project in d.ledger.projects
            && d.ledger.projects[d.submissions[sub].project].stateName == StepName(kind)
  {
  }
}
