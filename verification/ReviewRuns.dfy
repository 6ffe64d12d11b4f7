/** Safety of the review machines over every interleaving of their calls with each other and with every
    other writer of the ledger. */
module ReviewRuns {
  import opened Wrappers
  import opened Reviews
  import Ledger
  import LedgerRuns
  import Cardinality

  datatype Step =
    | StartStep(kind: Kind, submission: int, actor: int, now: int)
    | AddIssueStep(submission: int, actor: int, id: int, category: string, severity: string, description: string,
                   now: int)
    | UpdateIssueStep(id: int, actor: int, u: IssueUpdate, now: int)
    | DeleteIssueStep(id: int, actor: int)
    | ScoresStep(submission: int, actor: int, plagiarism: Option<int>, ai: Option<int>, now: int)
    | ReturnStep(kind: Kind, submission: int, actor: int, comment: string, now: int)
    | BeginStep(call: int, kind: Kind, submission: int, actor: int, comment: string, now: int)
    | TxStep(call: int, now: int)
    | ReadBackStep(call: int)
    | LostUndoStep(call: int)
    | AdvanceStep(call: int, served: bool, now: int)
    | CompensateStep(call: int, now: int)
    | LedgerStep(step: LedgerRuns.Step)

  predicate Enabled(d: Desk, step: Step)
  {
    match step
    case AddIssueStep(_, _, id, _, _, _, _) => id !in d.issues
    case BeginStep(call, _, _, _, _, _) => call !in d.calls
    case TxStep(call, _) => call in d.calls && d.calls[call].Guarded?
    case ReadBackStep(call) => call in d.calls && d.calls[call].Waiting?
    case LostUndoStep(call) => call in d.calls && d.calls[call].Failed?
    case AdvanceStep(call, _, _) => call in d.calls && d.calls[call].Waiting? && d.calls[call].submission in d.checks
    case CompensateStep(call, _) =>
      call in d.calls && d.calls[call].Failed? && d.calls[call].submission in d.checks
        && d.calls[call].submission in d.submissions
    case _ => true
  }

  /** One step; a step that is not enabled does nothing. */
  function Apply(c: Ledger.Catalog, d: Desk, step: Step): Desk
  {
    if !Enabled(d, step) then d
    else
      match step
      case StartStep(kind, sub, actor, now) => StartReview(d, kind, sub, actor, now).0
      case AddIssueStep(sub, actor, id, category, severity, description, now) =>
        AddIssue(d, sub, actor, id, category, severity, description, now).0
      case UpdateIssueStep(id, actor, u, now) => UpdateIssue(d, id, actor, u, now).0
      case DeleteIssueStep(id, actor) => DeleteIssue(d, id, actor).0
      case ScoresStep(sub, actor, plagiarism, ai, now) => SetScores(d, sub, actor, plagiarism, ai, now).0
      case ReturnStep(kind, sub, actor, comment, now) => Return(d, kind, sub, actor, comment, now).0
      case BeginStep(call, kind, sub, actor, comment, now) => BeginApprove(d, call, kind, sub, actor, comment, now).0
      case TxStep(call, now) => ApproveTx(d, call, now).0
      case ReadBackStep(call) => Abandon(d, call)
      case LostUndoStep(call) => Abandon(d, call)
      case AdvanceStep(call, served, now) => AdvanceCall(c, d, call, served, now).0
      case CompensateStep(call, now) => Compensate(d, call, now)
      case LedgerStep(inner) => d.(ledger := LedgerRuns.Apply(c, d.ledger, inner))
  }

  function Run(c: Ledger.Catalog, d: Desk, steps: seq<Step>): Desk
  {
    if steps == [] then d else Apply(c, Run(c, d, steps[..|steps| - 1]), steps[|steps| - 1])
  }

  /** Ledger steps obey the ledger's own hypotheses; everything else is unrestricted. */
  ghost predicate AllowedRun(c: Ledger.Catalog, d: Desk, steps: seq<Step>)
  {
    forall i :: 0 <= i < |steps| && steps[i].LedgerStep? ==>
      LedgerRuns.Allowed(c, Run(c, d, steps[..i]).ledger, steps[i].step)
  }

  // ----- The invariant -----

  /** A call has approved the check and is neither advanced nor compensated. */
  ghost predicate InFlight(d: Desk, sub: int)
  {
    exists k :: k in d.calls && d.calls[k].Open() && d.calls[k].submission == sub
  }

  /** What a row of each status looks like. */
  predicate Shape(check: Check)
  {
    && (check.status == Submitted <==> check.checker.None?)
    && (check.status in {Submitted, InReview} ==> check.comment == "" && check.reviewedAt.None?)
    && InPercent(check.plagiarism) && InPercent(check.ai)
  }

  /** An approved norm check has no unresolved critical issue; an approved antiplagiat check has originality in
      70..100 and an AI score in 0..70. */
  ghost predicate Deserved(d: Desk, sub: int)
    requires sub in d.checks
  {
    var check := d.checks[sub];
    check.status == Approved ==>
      if check.kind.Norm?
      then forall id | id in d.issues && d.issues[id].submission == sub && d.issues[id].severity == "critical" ::
             d.issues[id].resolved
      else check.plagiarism.Some? && 70 <= check.plagiarism.value <= 100 && check.ai.Some? && 0 <= check.ai.value <= 70
  }

  /** An open call's rows are exactly the ones it wrote over what it found. */
  ghost predicate CallSound(d: Desk, call: Call)
  {
    call.Open() ==>
      && call.submission in d.checks && call.submission in d.submissions
      && d.checks[call.submission] == ApprovedCheck(call.found, call.comment, call.at)
      && d.submissions[call.submission] == ApprovedSubmission(call.foundSub, call.actor, call.comment, call.at)
      && call.found.status == InReview && Shape(call.found)
      && call.submission !in d.receipts && call.submission !in d.abandoned
  }

  /** The history row a receipt names: the check's project crossing an edge of the approve event. */
  ghost predicate ReceiptSound(c: Ledger.Catalog, d: Desk, sub: int)
    requires sub in d.receipts
  {
    && sub in d.checks
    && d.receipts[sub] < |d.ledger.history|
    && var check, row := d.checks[sub], d.ledger.history[d.receipts[sub]];
       && check.status == Approved
       && row.project == check.project && row.event == ApproveEvent(check.kind)
       && row.project in d.ledger.projects
       && Crossed(c, d.ledger.projects[row.project].workflow, row)
  }

  ghost predicate Crossed(c: Ledger.Catalog, workflow: int, row: Ledger.HistoryRow)
  {
    exists e :: e in c.edges && e.workflow == workflow && e.event == row.event && e.from == row.fromId
      && e.to == row.toId
  }

  ghost predicate Inv(c: Ledger.Catalog, d: Desk)
  {
    && LedgerRuns.Inv(c, d.ledger)
    && (forall sub :: sub in d.checks ==> Shape(d.checks[sub]) && Deserved(d, sub) && sub in d.submissions)
    && (forall sub :: sub in d.checks ==>
          (d.checks[sub].status == Approved <==> sub in d.receipts || sub in d.abandoned || InFlight(d, sub)))
    && (forall k :: k in d.calls ==> CallSound(d, d.calls[k]))
    && (forall k, l | k in d.calls && l in d.calls && d.calls[k].Open() && d.calls[l].Open() ::
          d.calls[k].submission == d.calls[l].submission ==> k == l)
    && (forall sub :: sub in d.receipts ==> ReceiptSound(c, d, sub))
    && (forall s, t | s in d.receipts && t in d.receipts :: d.receipts[s] == d.receipts[t] ==> s == t)
    && d.abandoned <= d.checks.Keys && d.abandoned !! d.receipts.Keys
  }

  // ----- Each step keeps it -----

  /** A change confined to one check that is not approved before or after, and to its submission. */
  lemma EditKeepsInv(c: Ledger.Catalog, d: Desk, e: Desk, sub: int)
    requires Inv(c, d) && sub in d.submissions
    requires sub in d.checks ==> d.checks[sub].status != Approved
    requires e.checks.Keys == d.checks.Keys + {sub} && e.submissions.Keys == d.submissions.Keys
    requires forall s :: s in d.checks && s != sub ==> e.checks[s] == d.checks[s]
    requires forall s :: s in d.submissions && s != sub ==> e.submissions[s] == d.submissions[s]
    requires Shape(e.checks[sub]) && e.checks[sub].status != Approved
    requires e.issues == d.issues && e.ledger == d.ledger && e.receipts == d.receipts && e.abandoned == d.abandoned
    requires forall k :: k in e.calls && e.calls[k].Open() <==> k in d.calls && d.calls[k].Open()
    requires forall k :: k in d.calls && d.calls[k].Open() ==> e.calls[k] == d.calls[k]
    ensures Inv(c, e)
  {
    forall s
      ensures InFlight(e, s) <==> InFlight(d, s)
    {
      if k :| k in d.calls && d.calls[k].Open() && d.calls[k].submission == s {
        assert e.calls[k] == d.calls[k];
      }
    }
    forall k | k in e.calls
      ensures CallSound(e, e.calls[k])
    {
      if e.calls[k].Open() {
        assert e.calls[k] == d.calls[k] && CallSound(d, d.calls[k]);
      }
    }
    forall s | s in d.receipts
      ensures ReceiptSound(c, e, s)
    {
      assert ReceiptSound(c, d, s);
    }
  }

  lemma IssueEditKeepsInv(c: Ledger.Catalog, d: Desk, e: Desk, sub: int)
    requires Inv(c, d)
    requires sub in d.checks && d.checks[sub].status != Approved
    requires e == d.(issues := e.issues)
    requires forall id | id in e.issues && e.issues[id].submission != sub ::
               id in d.issues && e.issues[id] == d.issues[id]
    ensures Inv(c, e)
  {
  }

  lemma TxKeepsInv(c: Ledger.Catalog, d: Desk, call: int, now: int)
    requires Inv(c, d) && call in d.calls && d.calls[call].Guarded?
    ensures Inv(c, ApproveTx(d, call, now).0)
  {
    if ApproveTx(d, call, now).1 != Done {
      DropGuarded(c, d, call);
    } else {
      var e := ApproveTx(d, call, now).0;
      var sub := d.calls[call].submission;
      OpenCall(d, e, call);
      forall k | k in e.calls ensures CallSound(e, e.calls[k]) {
        assert k != call ==> CallSound(d, d.calls[k]);
      }
      forall k | k in d.calls && d.calls[k].Open() ensures d.calls[k].submission != sub {
        assert CallSound(d, d.calls[k]);
      }
      forall s | s in e.receipts ensures ReceiptSound(c, e, s) {
        assert ReceiptSound(c, d, s);
      }
      TxDeserves(c, d, call, now);
    }
  }

  /** A call that has just approved is in flight, as are the ones that were. */
  lemma OpenCall(d: Desk, e: Desk, call: int)
    requires call in d.calls && !d.calls[call].Open() && call in e.calls && e.calls[call].Open()
    requires e.calls == d.calls[call := e.calls[call]]
    ensures forall s :: InFlight(e, s) <==> InFlight(d, s) || s == e.calls[call].submission
  {
    forall s ensures InFlight(e, s) <==> InFlight(d, s) || s == e.calls[call].submission {
      if InFlight(d, s) {
        var k :| k in d.calls && d.calls[k].Open() && d.calls[k].submission == s;
        assert k in e.calls && e.calls[k].Open();
      }
      if InFlight(e, s) {
        var k :| k in e.calls && e.calls[k].Open() && e.calls[k].submission == s;
        assert k == call || (k in d.calls && d.calls[k].Open());
      }
    }
  }

  lemma TxDeserves(c: Ledger.Catalog, d: Desk, call: int, now: int)
    requires Inv(c, d) && call in d.calls && d.calls[call].Guarded? && ApproveTx(d, call, now).1 == Done
    ensures var e := ApproveTx(d, call, now).0;
            forall s :: s in e.checks ==> Deserved(e, s) && Shape(e.checks[s])
  {
  }

  lemma DropGuarded(c: Ledger.Catalog, d: Desk, call: int)
    requires Inv(c, d) && call in d.calls && d.calls[call].Guarded?
    ensures Inv(c, d.(calls := d.calls - {call}))
  {
    var e := d.(calls := d.calls - {call});
    forall s ensures InFlight(e, s) <==> InFlight(d, s) {
      if InFlight(d, s) {
        var k :| k in d.calls && d.calls[k].Open() && d.calls[k].submission == s;
        assert k in e.calls && e.calls[k].Open();
      }
    }
    RestUnchanged(c, d, e);
  }

  /** The parts of the invariant that look at receipts and checks only. */
  lemma RestUnchanged(c: Ledger.Catalog, d: Desk, e: Desk)
    requires Inv(c, d)
    requires e.checks == d.checks && e.issues == d.issues && e.ledger == d.ledger && e.submissions == d.submissions
    ensures forall s :: s in e.checks ==> Deserved(e, s)
    ensures forall s :: s in d.receipts && s in e.receipts && e.receipts[s] == d.receipts[s] ==> ReceiptSound(c, e, s)
    ensures forall k :: k in d.calls && d.calls[k].submission !in e.receipts && d.calls[k].submission !in e.abandoned
                        ==> CallSound(e, d.calls[k])
  {
  }

  lemma AbandonKeepsInv(c: Ledger.Catalog, d: Desk, call: int)
    requires Inv(c, d) && call in d.calls && d.calls[call].Open()
    ensures Inv(c, Abandon(d, call))
  {
    var e := Abandon(d, call);
    var sub := d.calls[call].submission;
    assert CallSound(d, d.calls[call]);
    CloseCall(d, e, call);
    forall k | k in e.calls ensures CallSound(e, e.calls[k]) {
      assert CallSound(d, d.calls[k]);
      assert d.calls[k].Open() ==> d.calls[k].submission != sub;
    }
    forall s | s in e.receipts ensures ReceiptSound(c, e, s) {
      assert ReceiptSound(c, d, s);
    }
    forall s | s in e.checks ensures Deserved(e, s) {
      assert Deserved(d, s);
    }
    forall s | s in e.checks
      ensures e.checks[s].status == Approved <==> s in e.receipts || s in e.abandoned || InFlight(e, s)
    {
      assert d.checks[s].status == Approved <==> s in d.receipts || s in d.abandoned || InFlight(d, s);
    }
  }

  /** Closing an open call frees its submission only. */
  lemma CloseCall(d: Desk, e: Desk, call: int)
    requires call in d.calls && d.calls[call].Open() && e.calls == d.calls - {call}
    requires forall k, l | k in d.calls && l in d.calls && d.calls[k].Open() && d.calls[l].Open() ::
               d.calls[k].submission == d.calls[l].submission ==> k == l
    ensures forall s :: InFlight(e, s) <==> InFlight(d, s) && s != d.calls[call].submission
  {
    forall s ensures InFlight(e, s) <==> InFlight(d, s) && s != d.calls[call].submission {
      if InFlight(d, s) && s != d.calls[call].submission {
        var k :| k in d.calls && d.calls[k].Open() && d.calls[k].submission == s;
        assert k in e.calls && e.calls[k].Open();
      }
      if InFlight(e, s) {
        var k :| k in e.calls && e.calls[k].Open() && e.calls[k].submission == s;
        assert k in d.calls && d.calls[k].Open() && k != call;
      }
    }
  }

  lemma ToFailedKeepsInv(c: Ledger.Catalog, d: Desk, call: int)
    requires Inv(c, d) && call in d.calls && d.calls[call].Waiting?
    ensures Inv(c, ToFailed(d, call))
  {
    var e := ToFailed(d, call);
    forall s ensures InFlight(e, s) <==> InFlight(d, s) {
      if InFlight(d, s) {
        var k :| k in d.calls && d.calls[k].Open() && d.calls[k].submission == s;
        assert k in e.calls && e.calls[k].Open() && e.calls[k].submission == s;
      }
      if InFlight(e, s) {
        var k :| k in e.calls && e.calls[k].Open() && e.calls[k].submission == s;
        assert k in d.calls && d.calls[k].Open() && d.calls[k].submission == s;
      }
    }
    RestUnchanged(c, d, e);
    forall k | k in e.calls ensures CallSound(e, e.calls[k]) {
      assert CallSound(d, d.calls[k]);
    }
  }

  lemma LedgerKeepsInv(c: Ledger.Catalog, d: Desk, step: LedgerRuns.Step)
    requires Ledger.WellFormed(c) && Inv(c, d) && LedgerRuns.Allowed(c, d.ledger, step)
    ensures Inv(c, d.(ledger := LedgerRuns.Apply(c, d.ledger, step)))
  {
    var e := d.(ledger := LedgerRuns.Apply(c, d.ledger, step));
    LedgerRuns.StepKeepsInv(c, d.ledger, step);
    LedgerRuns.StepGrows(c, d.ledger, step);
    forall s ensures InFlight(e, s) <==> InFlight(d, s) {
    }
    forall s | s in e.checks ensures Deserved(e, s) {
      assert Deserved(d, s);
    }
    forall k | k in e.calls ensures CallSound(e, e.calls[k]) {
      assert CallSound(d, d.calls[k]);
    }
    forall s | s in e.receipts ensures ReceiptSound(c, e, s) {
      assert ReceiptSound(c, d, s);
      assert e.ledger.history[d.receipts[s]] == d.ledger.history[d.receipts[s]];
    }
  }

  /** A waiting call closes with a receipt for the last history row. */
  lemma ReceiptKeepsInv(c: Ledger.Catalog, d: Desk, call: int)
    requires Inv(c, d) && call in d.calls && d.calls[call].Waiting? && d.calls[call].submission in d.checks
    requires 0 < |d.ledger.history|
    requires forall s :: s in d.receipts ==> d.receipts[s] < |d.ledger.history| - 1
    requires var check, row := d.checks[d.calls[call].submission], d.ledger.history[|d.ledger.history| - 1];
             && row.project == check.project && row.event == ApproveEvent(check.kind)
             && row.project in d.ledger.projects && Crossed(c, d.ledger.projects[row.project].workflow, row)
    ensures Inv(c, d.(calls := d.calls - {call},
                      receipts := d.receipts[d.calls[call].submission := |d.ledger.history| - 1]))
  {
    var w := d.calls[call];
    var e := d.(calls := d.calls - {call}, receipts := d.receipts[w.submission := |d.ledger.history| - 1]);
    assert CallSound(d, w);
    CloseCall(d, e, call);
    forall k | k in e.calls ensures CallSound(e, e.calls[k]) {
      assert CallSound(d, d.calls[k]);
      assert d.calls[k].Open() ==> d.calls[k].submission != w.submission;
    }
    forall s | s in e.receipts ensures ReceiptSound(c, e, s) {
      assert s != w.submission ==> ReceiptSound(c, d, s);
    }
    forall s | s in e.checks ensures Deserved(e, s) {
      assert Deserved(d, s);
    }
    forall s | s in e.checks
      ensures e.checks[s].status == Approved <==> s in e.receipts || s in e.abandoned || InFlight(e, s)
    {
      assert d.checks[s].status == Approved <==> s in d.receipts || s in d.abandoned || InFlight(d, s);
    }
  }

  lemma AdvanceKeepsInv(c: Ledger.Catalog, d: Desk, call: int, now: int)
    requires Ledger.WellFormed(c) && Inv(c, d) && call in d.calls && d.calls[call].Waiting?
        && d.calls[call].submission in d.checks
    ensures Inv(c, AdvanceCall(c, d, call, true, now).0)
  {
    var w := d.calls[call];
    var check := d.checks[w.submission];
    var (ledger, reply) := Ledger.Advance(c, d.ledger, check.project, ApproveEvent(check.kind), w.actor, w.comment,
                                          now);
    if reply != Ledger.Done {
      ToFailedKeepsInv(c, d, call);
    } else {
      LedgerKeepsInv(c, d, LedgerRuns.AdvanceStep(check.project, ApproveEvent(check.kind), w.actor, w.comment, now));
      AdvanceCrosses(c, d.ledger, check.project, ApproveEvent(check.kind), w.actor, w.comment, now);
      var mid := d.(ledger := ledger);
      forall s | s in d.receipts ensures d.receipts[s] < |d.ledger.history| {
        assert ReceiptSound(c, d, s);
      }
      ReceiptKeepsInv(c, mid, call);
    }
  }

  /** A successful advance appends one row, which crosses an edge of its event. */
  lemma AdvanceCrosses(c: Ledger.Catalog, db: Ledger.Db, project: int, event: string, actor: int, comment: string,
                       now: int)
    requires Ledger.WellFormed(c) && LedgerRuns.Inv(c, db)
    requires Ledger.Advance(c, db, project, event, actor, comment, now).1 == Ledger.Done
    ensures var after := Ledger.Advance(c, db, project, event, actor, comment, now).0;
            && project in after.projects
            && |after.history| == |db.history| + 1
            && db.history <= after.history
            && var row := after.history[|db.history|];
               && row.project == project && row.event == event
               && Crossed(c, after.projects[project].workflow, row)
  {
    LedgerRuns.AdvanceFollowsEdge(c, db, project, event, actor, comment, now);
  }

  lemma CompensateKeepsInv(c: Ledger.Catalog, d: Desk, call: int, now: int)
    requires Inv(c, d) && Enabled(d, CompensateStep(call, now))
    ensures Inv(c, Compensate(d, call, now))
  {
    var e := Compensate(d, call, now);
    var sub := d.calls[call].submission;
    assert CallSound(d, d.calls[call]);
    CloseCall(d, e, call);
    forall s | s in e.checks ensures Deserved(e, s) {
      assert Deserved(d, s);
    }
    forall k | k in e.calls ensures CallSound(e, e.calls[k]) {
      assert CallSound(d, d.calls[k]);
    }
    forall s | s in e.receipts ensures ReceiptSound(c, e, s) {
      assert ReceiptSound(c, d, s);
    }
  }

  lemma EnsureKeepsInv(c: Ledger.Catalog, d: Desk, kind: Kind, sub: int, now: int)
    requires Inv(c, d) && sub in d.submissions
    ensures Inv(c, Ensure(d, kind, sub, now))
  {
    if sub !in d.checks {
      EditKeepsInv(c, d, Ensure(d, kind, sub, now), sub);
    }
  }

  lemma StartKeepsInv(c: Ledger.Catalog, d: Desk, kind: Kind, sub: int, actor: int, now: int)
    requires Inv(c, d)
    ensures Inv(c, StartReview(d, kind, sub, actor, now).0)
  {
    var (e, reply) := StartReview(d, kind, sub, actor, now);
    if actor > 0 && Guard(d, kind, sub) == Done {
      EnsureKeepsInv(c, d, kind, sub, now);
      if reply == Done {
        EditKeepsInv(c, Ensure(d, kind, sub, now), e, sub);
      }
    }
  }

  lemma ScoresKeepInv(c: Ledger.Catalog, d: Desk, sub: int, actor: int, plagiarism: Option<int>, ai: Option<int>,
                      now: int)
    requires Inv(c, d)
    ensures Inv(c, SetScores(d, sub, actor, plagiarism, ai, now).0)
  {
    var (e, reply) := SetScores(d, sub, actor, plagiarism, ai, now);
    if e != d {
      EnsureKeepsInv(c, d, Antiplag, sub, now);
      if reply == Done {
        EditKeepsInv(c, Ensure(d, Antiplag, sub, now), e, sub);
      }
    }
  }

  lemma ReturnKeepsInv(c: Ledger.Catalog, d: Desk, kind: Kind, sub: int, actor: int, comment: string, now: int)
    requires Inv(c, d)
    ensures Inv(c, Return(d, kind, sub, actor, comment, now).0)
  {
    var (e, reply) := Return(d, kind, sub, actor, comment, now);
    if actor > 0 && Guard(d, kind, sub) == Done {
      EnsureKeepsInv(c, d, kind, sub, now);
      if reply == Done {
        EditKeepsInv(c, Ensure(d, kind, sub, now), e, sub);
      }
    }
  }

  lemma BeginKeepsInv(c: Ledger.Catalog, d: Desk, call: int, kind: Kind, sub: int, actor: int, comment: string,
                      now: int)
    requires Inv(c, d) && call !in d.calls
    ensures Inv(c, BeginApprove(d, call, kind, sub, actor, comment, now).0)
  {
    if actor > 0 && Guard(d, kind, sub) == Done {
      EnsureKeepsInv(c, d, kind, sub, now);
      AddGuarded(c, Ensure(d, kind, sub, now), call, Guarded(kind, sub, actor, comment));
    }
  }

  lemma AddGuarded(c: Ledger.Catalog, d: Desk, call: int, g: Call)
    requires Inv(c, d) && call !in d.calls && g.Guarded?
    ensures Inv(c, d.(calls := d.calls[call := g]))
  {
    var e := d.(calls := d.calls[call := g]);
    forall s ensures InFlight(e, s) <==> InFlight(d, s) {
      if InFlight(d, s) {
        var k :| k in d.calls && d.calls[k].Open() && d.calls[k].submission == s;
        assert k in e.calls && e.calls[k].Open();
      }
    }
    RestUnchanged(c, d, e);
    forall k | k in e.calls ensures CallSound(e, e.calls[k]) {
      assert k in d.calls ==> CallSound(d, d.calls[k]);
    }
  }

  lemma AddIssueKeepsInv(c: Ledger.Catalog, d: Desk, step: Step)
    requires Inv(c, d) && step.AddIssueStep? && Enabled(d, step)
    ensures Inv(c, Apply(c, d, step))
  {
    var e := Apply(c, d, step);
    if step.actor > 0 && Guard(d, Norm, step.submission) == Done {
      EnsureKeepsInv(c, d, Norm, step.submission, step.now);
      var mid := Ensure(d, Norm, step.submission, step.now);
      if e != d && e != mid {
        IssueEditKeepsInv(c, mid, e, step.submission);
      }
    }
  }

  lemma StepKeepsInv(c: Ledger.Catalog, d: Desk, step: Step)
    requires Ledger.WellFormed(c) && Inv(c, d)
    requires step.LedgerStep? ==> LedgerRuns.Allowed(c, d.ledger, step.step)
    ensures Inv(c, Apply(c, d, step))
  {
    if Enabled(d, step) {
      match step
      case TxStep(call, now) => TxKeepsInv(c, d, call, now);
      case ReadBackStep(call) => AbandonKeepsInv(c, d, call);
      case LostUndoStep(call) => AbandonKeepsInv(c, d, call);
      case AdvanceStep(call, served, now) =>
        if served { AdvanceKeepsInv(c, d, call, now); } else { ToFailedKeepsInv(c, d, call); }
      case CompensateStep(call, now) => CompensateKeepsInv(c, d, call, now);
      case LedgerStep(inner) => LedgerKeepsInv(c, d, inner);
      case BeginStep(call, kind, sub, actor, comment, now) => BeginKeepsInv(c, d, call, kind, sub, actor, comment, now);
      case _ => EditStepKeepsInv(c, d, step);
    }
  }

  lemma EditStepKeepsInv(c: Ledger.Catalog, d: Desk, step: Step)
    requires Inv(c, d) && Enabled(d, step)
    requires || step.AddIssueStep? || step.UpdateIssueStep? || step.DeleteIssueStep?
             || step.StartStep? || step.ScoresStep? || step.ReturnStep?
    ensures Inv(c, Apply(c, d, step))
  {
    match step
    case AddIssueStep(_, _, _, _, _, _, _) => AddIssueKeepsInv(c, d, step);
    case UpdateIssueStep(id, actor, u, now) =>
      if IssueGuard(d, id, actor) == Done { IssueEditKeepsInv(c, d, Apply(c, d, step), d.issues[id].submission); }
    case DeleteIssueStep(id, actor) =>
      if IssueGuard(d, id, actor) == Done { IssueEditKeepsInv(c, d, Apply(c, d, step), d.issues[id].submission); }
    case StartStep(kind, sub, actor, now) => StartKeepsInv(c, d, kind, sub, actor, now);
    case ScoresStep(sub, actor, plagiarism, ai, now) => ScoresKeepInv(c, d, sub, actor, plagiarism, ai, now);
    case ReturnStep(kind, sub, actor, comment, now) => ReturnKeepsInv(c, d, kind, sub, actor, comment, now);
  }

  lemma {:induction false} RunKeepsInv(c: Ledger.Catalog, d: Desk, steps: seq<Step>)
    requires Ledger.WellFormed(c) && Inv(c, d) && AllowedRun(c, d, steps)
    ensures Inv(c, Run(c, d, steps))
  {
    if steps != [] {
      var last := |steps| - 1;
      AllowedPrefix(c, d, steps, last);
      RunKeepsInv(c, d, steps[..last]);
      StepKeepsInv(c, Run(c, d, steps[..last]), steps[last]);
    }
  }

  // ----- What it means -----

  ghost predicate Quiet(d: Desk) { forall k :: k in d.calls ==> !d.calls[k].Open() }

  /** With no approval in flight, a check is approved exactly when its own call advanced the project or gave up, never
      both. */
  lemma ApprovedMeansAdvanced(c: Ledger.Catalog, d: Desk, steps: seq<Step>)
    requires Ledger.WellFormed(c) && Inv(c, d) && AllowedRun(c, d, steps)
    requires Quiet(Run(c, d, steps))
    ensures var e := Run(c, d, steps);
            && (forall s :: s in e.checks ==> (e.checks[s].status == Approved <==> s in e.receipts || s in e.abandoned))
            && e.abandoned !! e.receipts.Keys
            && (e.abandoned == d.abandoned <==> forall i | 0 <= i < |steps| :: !AbandonsAt(c, d, steps, i))
  {
    RunKeepsInv(c, d, steps);
    AbandonedExactly(c, d, steps);
    var e := Run(c, d, steps);
    forall s | s in e.checks ensures !InFlight(e, s) {
    }
  }

  /** A call gives up: a read back fails, or a compensation is lost. */
  predicate Abandons(step: Step) { step.ReadBackStep? || step.LostUndoStep? }

  ghost predicate AbandonsAt(c: Ledger.Catalog, d: Desk, steps: seq<Step>, i: nat)
  {
    i < |steps| && Abandons(steps[i]) && Enabled(Run(c, d, steps[..i]), steps[i])
  }

  /** A run abandons an approval exactly when one of its calls gives up, and no abandoned approval is ever recovered. */
  lemma {:induction false} AbandonedExactly(c: Ledger.Catalog, d: Desk, steps: seq<Step>)
    requires Ledger.WellFormed(c) && Inv(c, d) && AllowedRun(c, d, steps)
    ensures d.abandoned <= Run(c, d, steps).abandoned
    ensures Run(c, d, steps).abandoned != d.abandoned <==> exists i | 0 <= i < |steps| :: AbandonsAt(c, d, steps, i)
  {
    if steps != [] {
      var last := |steps| - 1;
      AllowedPrefix(c, d, steps, last);
      AbandonedExactly(c, d, steps[..last]);
      RunKeepsInv(c, d, steps[..last]);
      var mid := Run(c, d, steps[..last]);
      StepAbandons(c, mid, steps[last]);
      forall i | 0 <= i < last
        ensures AbandonsAt(c, d, steps, i) <==> AbandonsAt(c, d, steps[..last], i)
      {
        assert steps[..last][..i] == steps[..i];
      }
      if AbandonsAt(c, d, steps, last) {
        assert CallSound(mid, mid.calls[steps[last].call]);
        assert mid.calls[steps[last].call].submission !in d.abandoned;
      }
    }
  }

  /** An abandoned approval stands for good, and its project is never advanced for it. */
  lemma AbandonedStands(c: Ledger.Catalog, d: Desk, steps: seq<Step>, s: int)
    requires Ledger.WellFormed(c) && Inv(c, d) && AllowedRun(c, d, steps) && s in d.abandoned
    ensures var e := Run(c, d, steps);
            s in e.abandoned && s in e.checks && e.checks[s].status == Approved && s !in e.receipts
  {
    AbandonedExactly(c, d, steps);
    RunKeepsInv(c, d, steps);
    assert s in Run(c, d, steps).checks.Keys;
  }

  lemma StepAbandons(c: Ledger.Catalog, d: Desk, step: Step)
    ensures Apply(c, d, step).abandoned
            == if Abandons(step) && Enabled(d, step) then d.abandoned + {d.calls[step.call].submission} else d.abandoned
  {
    match step
    case StartStep(kind, sub, actor, now) => StartLeaves(d, kind, sub, actor, now);
    case ScoresStep(sub, actor, plagiarism, ai, now) => ScoresLeaves(d, sub, actor, plagiarism, ai, now);
    case ReturnStep(kind, sub, actor, comment, now) => ReturnLeaves(d, kind, sub, actor, comment, now);
    case TxStep(call, now) => if Enabled(d, step) { TxLeaves(d, call, now); }
    case _ =>
  }

  lemma StartLeaves(d: Desk, kind: Kind, sub: int, actor: int, now: int)
    ensures var e := StartReview(d, kind, sub, actor, now).0; e.issues == d.issues && e.abandoned == d.abandoned
  {
  }

  lemma ScoresLeaves(d: Desk, sub: int, actor: int, plagiarism: Option<int>, ai: Option<int>, now: int)
    ensures var e := SetScores(d, sub, actor, plagiarism, ai, now).0; e.issues == d.issues && e.abandoned == d.abandoned
  {
  }

  lemma ReturnLeaves(d: Desk, kind: Kind, sub: int, actor: int, comment: string, now: int)
    ensures var e := Return(d, kind, sub, actor, comment, now).0; e.issues == d.issues && e.abandoned == d.abandoned
  {
  }

  lemma TxLeaves(d: Desk, call: int, now: int)
    requires call in d.calls && d.calls[call].Guarded?
    ensures var e := ApproveTx(d, call, now).0; e.issues == d.issues && e.abandoned == d.abandoned
  {
  }

  /** The checks of a project whose approval stands. */
  function ApprovedOf(d: Desk, project: int): set<int>
  {
    set s | s in d.checks && d.checks[s].project == project && d.checks[s].status == Approved && s !in d.abandoned
  }

  /** The history rows of a project that approve calls wrote. */
  ghost function RowsOf(d: Desk, project: int): set<nat>
  {
    set s | s in d.receipts && d.receipts[s] < |d.ledger.history|
      && d.ledger.history[d.receipts[s]].project == project :: d.receipts[s]
  }

  /** With no approval in flight a project's approved checks and the rows their calls wrote match one to one. */
  lemma ApprovalsMatchRows(c: Ledger.Catalog, d: Desk, project: int)
    requires Inv(c, d) && Quiet(d)
    ensures forall s :: s in ApprovedOf(d, project) ==> s in d.receipts && d.receipts[s] in RowsOf(d, project)
    ensures forall j :: j in RowsOf(d, project) ==>
              exists s :: s in ApprovedOf(d, project) && d.receipts[s] == j
                          && d.ledger.history[j].event == ApproveEvent(d.checks[s].kind)
    ensures |ApprovedOf(d, project)| == |RowsOf(d, project)|
  {
    var approved := ApprovedOf(d, project);
    forall s | s in approved ensures s in d.receipts && ReceiptSound(c, d, s) {
      assert !InFlight(d, s);
    }
    forall j | j in RowsOf(d, project)
      ensures exists s | s in approved && d.receipts[s] == j ::
                d.ledger.history[j].event == ApproveEvent(d.checks[s].kind)
    {
      var s :| s in d.receipts && d.receipts[s] == j && d.ledger.history[j].project == project;
      assert ReceiptSound(c, d, s);
      assert s in approved;
    }
    forall s | s in approved ensures s in d.receipts.Keys {
    }
    Cardinality.InjectiveImage(d.receipts, approved);
    assert RowsOf(d, project) == set s | s in approved :: d.receipts[s];
  }

  /** Between any two states of a run: history only grows, an approval that advanced is never undone by any
      call, a started check keeps its checker, and a returned check never changes again. */
  ghost predicate Settled(d: Desk, e: Desk)
  {
    && d.ledger.history <= e.ledger.history
    && (forall s :: s in d.receipts ==> s in e.receipts && e.receipts[s] == d.receipts[s]
                                        && s in d.checks && s in e.checks && e.checks[s] == d.checks[s])
    && (forall s :: s in d.checks ==>
          && s in e.checks
          && (d.checks[s].checker.Some? ==> e.checks[s].checker == d.checks[s].checker)
          && (d.checks[s].status == Returned ==> e.checks[s] == d.checks[s]))
  }

  ghost predicate ReceiptsStand(d: Desk)
  {
    forall s :: s in d.receipts ==> s in d.checks && d.checks[s].status == Approved
  }

  /** What the settling of one step needs of the invariant. */
  lemma Standing(c: Ledger.Catalog, d: Desk)
    requires Inv(c, d)
    ensures ReceiptsStand(d)
    ensures forall k :: k in d.calls ==> CallSound(d, d.calls[k])
    ensures forall s :: s in d.checks ==> Shape(d.checks[s])
  {
  }

  lemma TxSettles(d: Desk, call: int, now: int)
    requires ReceiptsStand(d) && call in d.calls && d.calls[call].Guarded?
    ensures Settled(d, ApproveTx(d, call, now).0)
  {
  }

  lemma CompensateSettles(d: Desk, call: int, now: int)
    requires ReceiptsStand(d) && Enabled(d, CompensateStep(call, now)) && CallSound(d, d.calls[call])
    ensures Settled(d, Compensate(d, call, now))
  {
  }

  lemma BeginSettles(d: Desk, call: int, kind: Kind, sub: int, actor: int, comment: string, now: int)
    requires ReceiptsStand(d)
    ensures Settled(d, BeginApprove(d, call, kind, sub, actor, comment, now).0)
  {
  }

  /** An edit of one check that has neither advanced nor returned. */
  lemma EditSettles(d: Desk, e: Desk, sub: int)
    requires ReceiptsStand(d)
    requires e.ledger == d.ledger && e.receipts == d.receipts
    requires forall s :: s in d.checks ==> s in e.checks && (s != sub ==> e.checks[s] == d.checks[s])
    requires sub in d.checks && e.checks[sub] != d.checks[sub] ==>
               d.checks[sub].status in {Submitted, InReview}
               && (d.checks[sub].checker.Some? ==> e.checks[sub].checker == d.checks[sub].checker)
    ensures Settled(d, e)
  {
  }

  lemma StartSettles(d: Desk, kind: Kind, sub: int, actor: int, now: int)
    requires ReceiptsStand(d)
    requires sub in d.checks && d.checks[sub].status == Submitted ==> d.checks[sub].checker.None?
    ensures Settled(d, StartReview(d, kind, sub, actor, now).0)
  {
    EditSettles(d, StartReview(d, kind, sub, actor, now).0, sub);
  }

  lemma ScoresSettle(d: Desk, sub: int, actor: int, plagiarism: Option<int>, ai: Option<int>, now: int)
    requires ReceiptsStand(d)
    ensures Settled(d, SetScores(d, sub, actor, plagiarism, ai, now).0)
  {
    EditSettles(d, SetScores(d, sub, actor, plagiarism, ai, now).0, sub);
  }

  lemma ReturnSettles(d: Desk, kind: Kind, sub: int, actor: int, comment: string, now: int)
    requires ReceiptsStand(d)
    ensures Settled(d, Return(d, kind, sub, actor, comment, now).0)
  {
    ReturnEdits(d, kind, sub, actor, comment, now);
    EditSettles(d, Return(d, kind, sub, actor, comment, now).0, sub);
  }

  /** A return touches one check, which it found in review. */
  lemma ReturnEdits(d: Desk, kind: Kind, sub: int, actor: int, comment: string, now: int)
    ensures var e := Return(d, kind, sub, actor, comment, now).0;
            && e.ledger == d.ledger && e.receipts == d.receipts
            && (e.checks == d.checks || (sub in e.checks && e.checks == d.checks[sub := e.checks[sub]]))
            && (sub in d.checks && e.checks[sub] != d.checks[sub] ==>
                  d.checks[sub].status == InReview && e.checks[sub].checker == d.checks[sub].checker)
  {
    if actor > 0 && Guard(d, kind, sub) == Done {
      var held := Ensure(d, kind, sub, now);
      assert held.ledger == d.ledger && held.receipts == d.receipts && sub in held.checks;
    }
  }

  lemma AddIssueSettles(d: Desk, sub: int, actor: int, id: int, category: string, severity: string,
                        description: string, now: int)
    requires ReceiptsStand(d)
    ensures Settled(d, AddIssue(d, sub, actor, id, category, severity, description, now).0)
  {
    EditSettles(d, AddIssue(d, sub, actor, id, category, severity, description, now).0, sub);
  }

  lemma AdvanceStepSettles(c: Ledger.Catalog, d: Desk, call: int, served: bool, now: int)
    requires Ledger.WellFormed(c) && LedgerRuns.Inv(c, d.ledger) && ReceiptsStand(d)
    requires Enabled(d, AdvanceStep(call, served, now)) && CallSound(d, d.calls[call])
    ensures Settled(d, AdvanceCall(c, d, call, served, now).0)
  {
  }

  lemma StepSettles(c: Ledger.Catalog, d: Desk, step: Step)
    requires Ledger.WellFormed(c) && LedgerRuns.Inv(c, d.ledger) && ReceiptsStand(d)
    requires forall k :: k in d.calls ==> CallSound(d, d.calls[k])
    requires forall s :: s in d.checks ==> Shape(d.checks[s])
    requires step.LedgerStep? ==> LedgerRuns.Allowed(c, d.ledger, step.step)
    ensures Settled(d, Apply(c, d, step))
  {
    if Enabled(d, step) {
      match step
      case LedgerStep(inner) => LedgerRuns.StepGrows(c, d.ledger, inner);
      case AdvanceStep(call, served, now) => AdvanceStepSettles(c, d, call, served, now);
      case CompensateStep(call, now) => CompensateSettles(d, call, now);
      case TxStep(call, now) => TxSettles(d, call, now);
      case ReadBackStep(call) => EditSettles(d, Abandon(d, call), 0);
      case LostUndoStep(call) => EditSettles(d, Abandon(d, call), 0);
      case BeginStep(call, kind, sub, actor, comment, now) => BeginSettles(d, call, kind, sub, actor, comment, now);
      case _ => EditStepSettles(c, d, step);
    }
  }

  lemma EditStepSettles(c: Ledger.Catalog, d: Desk, step: Step)
    requires ReceiptsStand(d) && Enabled(d, step)
    requires forall s :: s in d.checks ==> Shape(d.checks[s])
    requires || step.AddIssueStep? || step.UpdateIssueStep? || step.DeleteIssueStep?
             || step.StartStep? || step.ScoresStep? || step.ReturnStep?
    ensures Settled(d, Apply(c, d, step))
  {
    match step
    case AddIssueStep(sub, actor, id, category, severity, description, now) =>
      AddIssueSettles(d, sub, actor, id, category, severity, description, now);
    case UpdateIssueStep(id, actor, u, now) => EditSettles(d, UpdateIssue(d, id, actor, u, now).0, 0);
    case DeleteIssueStep(id, actor) => EditSettles(d, DeleteIssue(d, id, actor).0, 0);
    case StartStep(kind, sub, actor, now) => StartSettles(d, kind, sub, actor, now);
    case ScoresStep(sub, actor, plagiarism, ai, now) => ScoresSettle(d, sub, actor, plagiarism, ai, now);
    case ReturnStep(kind, sub, actor, comment, now) => ReturnSettles(d, kind, sub, actor, comment, now);
  }

  lemma SettlesOn(d: Desk, m: Desk, e: Desk)
    requires Settled(d, m) && Settled(m, e)
    ensures Settled(d, e)
  {
  }

  lemma AllowedPrefix(c: Ledger.Catalog, d: Desk, steps: seq<Step>, n: nat)
    requires AllowedRun(c, d, steps) && n <= |steps|
    ensures AllowedRun(c, d, steps[..n])
  {
    forall i | 0 <= i < n && steps[..n][i].LedgerStep?
      ensures LedgerRuns.Allowed(c, Run(c, d, steps[..n][..i]).ledger, steps[..n][i].step)
    {
      assert steps[..n][..i] == steps[..i];
    }
  }

  lemma {:induction false} RunSettles(c: Ledger.Catalog, d: Desk, steps: seq<Step>)
    requires Ledger.WellFormed(c) && Inv(c, d) && AllowedRun(c, d, steps)
    ensures Settled(d, Run(c, d, steps))
  {
    if steps == [] {
      Standing(c, d);
    } else {
      var last := |steps| - 1;
      AllowedPrefix(c, d, steps, last);
      RunSettles(c, d, steps[..last]);
      RunKeepsInv(c, d, steps[..last]);
      var mid := Run(c, d, steps[..last]);
      Standing(c, mid);
      StepSettles(c, mid, steps[last]);
      SettlesOn(d, mid, Run(c, d, steps));
    }
  }

  /** A compensation puts back the check row the call found, with a new update time, and no other check; it puts
      back the submission row exactly when that row was pending without reviewer, comment and review time. */
  lemma CompensationRestores(c: Ledger.Catalog, d: Desk, call: int, now: int)
    requires Inv(c, d) && Enabled(d, CompensateStep(call, now))
    ensures var e, f := Compensate(d, call, now), d.calls[call];
            && e.checks == d.checks[f.submission := f.found.(updatedAt := now)]
            && e.receipts == d.receipts && f.submission !in d.receipts
            && (e.submissions == d.submissions[f.submission := f.foundSub.(updatedAt := now)]
                <==> f.foundSub.status == "pending" && f.foundSub.reviewer.None? && f.foundSub.comment == ""
                     && f.foundSub.reviewedAt.None?)
  {
    var e, f := Compensate(d, call, now), d.calls[call];
    assert CallSound(d, f);
    assert e.submissions[f.submission]
           == f.foundSub.(status := "pending", reviewer := None, comment := "", reviewedAt := None, updatedAt := now);
  }

  /** Approving, failing to advance and compensating, in terms of the rows the call found. */
  lemma FailedApproval(c: Ledger.Catalog, d: Desk, call: int, waiting: Desk, failed: Desk, now: int)
    requires call in d.calls && d.calls[call].Guarded? && ApproveTx(d, call, now) == (waiting, Done)
    requires d.calls[call].submission in waiting.checks && failed == AdvanceCall(c, waiting, call, false, now).0
    ensures Enabled(failed, CompensateStep(call, now))
    ensures var sub, undone := d.calls[call].submission, Compensate(failed, call, now);
            && sub in d.checks && sub in undone.checks && sub in undone.submissions
            && undone.checks[sub] == d.checks[sub].(status := InReview, comment := "", reviewedAt := None,
                                                    updatedAt := now)
            && undone.submissions[sub].reviewer == None
  {
  }

  lemma StartedRows(c: Ledger.Catalog, d: Desk, kind: Kind, sub: int, actor: int, now: int, started: Desk)
    requires Inv(c, d) && StartReview(d, kind, sub, actor, now) == (started, Done)
    ensures sub in started.checks && sub in started.submissions && started.submissions[sub].reviewer == Some(actor)
    ensures var check := started.checks[sub];
            check.status == InReview && check.comment == "" && check.reviewedAt.None? && check.updatedAt == now
    ensures started.calls == d.calls
  {
  }

  /** Starting a review records the reviewer in the submission, so undoing a failed approval of a started review
      puts the check back and loses the reviewer. */
  lemma CompensationLosesReviewer(c: Ledger.Catalog, d: Desk, kind: Kind, sub: int, actor: int, call: int,
                                  comment: string, now: int, started: Desk, begun: Desk, waiting: Desk, failed: Desk)
    requires Inv(c, d) && call !in d.calls
    requires StartReview(d, kind, sub, actor, now) == (started, Done)
    requires begun == BeginApprove(started, call, kind, sub, actor, comment, now).0
    requires call in begun.calls && begun.calls[call].Guarded? && ApproveTx(begun, call, now) == (waiting, Done)
    requires sub in waiting.checks && failed == AdvanceCall(c, waiting, call, false, now).0
    ensures Enabled(failed, CompensateStep(call, now))
    ensures var undone := Compensate(failed, call, now);
            && sub in undone.checks && sub in started.checks && undone.checks[sub] == started.checks[sub]
            && sub in undone.submissions && sub in started.submissions
            && started.submissions[sub].reviewer == Some(actor) && undone.submissions[sub].reviewer == None
  {
    StartedRows(c, d, kind, sub, actor, now, started);
    FailedApproval(c, begun, call, waiting, failed, now);
  }

  /** The approve event of a kind leaves one state of each workflow, and not back to it. */
  ghost predicate LeavesReview(c: Ledger.Catalog, kind: Kind)
  {
    forall e, f | e in c.edges && f in c.edges && e.event == ApproveEvent(kind) && f.event == ApproveEvent(kind) ::
      e.workflow == f.workflow ==> e.from == f.from && e.to != f.from
  }

  /** Two approvals of one project's documents cannot both come from one visit to the review state: a row led
      back to it between them. */
  lemma ApprovalsNeedAReturn(c: Ledger.Catalog, d: Desk, s: int, t: int)
    requires Inv(c, d) && s in d.receipts && t in d.receipts && d.receipts[s] < d.receipts[t]
    requires s in d.checks && t in d.checks
    requires d.checks[s].project == d.checks[t].project && d.checks[s].kind == d.checks[t].kind
    requires LeavesReview(c, d.checks[s].kind)
    ensures d.receipts[t] < |d.ledger.history|
            && LedgerRuns.Returned(d.ledger.history, d.receipts[s] + 1, d.receipts[t], d.checks[t].project,
                                   d.ledger.history[d.receipts[t]].fromId)
  {
    assert ReceiptSound(c, d, s) && ReceiptSound(c, d, t);
    LedgerRuns.RowsNeedAReturn(c, d.ledger, d.receipts[s], d.receipts[t]);
  }
}
