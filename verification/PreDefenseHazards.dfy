/** Lost final saves of the pre-defense calls, in general and on the seeded workflow
    (db/migrations/000016_review_config_and_transitions.up.sql). */
module PreDefenseHazards {
  import opened Wrappers
  import opened PreDefense
  import opened PreDefenseRuns
  import Text
  import Ledger
  import LedgerRuns

  // ----- The exact condition -----

  /** The first pass of a completion whose final save is lost, and its retry: the retry moves the project a second time
      exactly when the state the gate led to is again a pre-defense state with an edge for its first event. */
  lemma LostSaveRetry(c: Ledger.Catalog, b: Board, id: int, actor: int, result: string, comment: string,
                      allowResubmission: bool, t1: int, t2: int, f: Faults, g: Faults)
    requires Ledger.WellFormed(c) && LedgerRuns.Inv(c, b.ledger)
    requires id in b.rows && b.rows[id].project in b.ledger.projects && b.rows[id].status == "graded" && g.served > 0
    requires CompletionOf(result, allowResubmission).Some? && !f.saved
    requires Complete(c, b, id, actor, result, comment, allowResubmission, t1, f).1 == Internal
    ensures var lost := Complete(c, b, id, actor, result, comment, allowResubmission, t1, f).0;
            && lost.rows == b.rows && b.rows[id].project in lost.ledger.projects
            && (Complete(c, lost, id, actor, result, comment, allowResubmission, t2,
                         g).0.ledger.history != lost.ledger.history
                <==> HasNextEvent(c, lost.ledger.projects[b.rows[id].project], result != "failed", true))
  {
    var project, pass := b.rows[id].project, result != "failed";
    AdvancePhaseSound(c, b.ledger, project, actor, comment, pass, true, t1, f.served);
    var lost := Complete(c, b, id, actor, result, comment, allowResubmission, t1, f).0;
    PhaseMovesExactly(c, lost.ledger, project, actor, comment, pass, true, t2, g.served);
  }

  /** A grade that moved the project and lost its final save leaves the row graded; a completion of any result then
      moves the project again under the same condition, read at that result. */
  lemma LostGradeSaveComplete(c: Ledger.Catalog, b: Board, id: int, actor: int, grade: int, result: string,
                              comment: string, allowResubmission: bool, t1: int, t2: int, f: Faults, g: Faults)
    requires Ledger.WellFormed(c) && LedgerRuns.Inv(c, b.ledger)
    requires id in b.rows && b.rows[id].project in b.ledger.projects && b.rows[id].status == "scheduled" && g.served > 0
    requires CompletionOf(result, allowResubmission).Some? && f.notes && !f.saved
    requires Grade(c, b, id, actor, grade, comment, t1, f).1 == Internal
    ensures var lost := Grade(c, b, id, actor, grade, comment, t1, f).0;
            && id in lost.rows && lost.rows[id].status == "graded" && b.rows[id].project in lost.ledger.projects
            && |lost.ledger.history| > |b.ledger.history|
            && (Complete(c, lost, id, actor, result, comment, allowResubmission, t2,
                         g).0.ledger.history != lost.ledger.history
                <==> HasNextEvent(c, lost.ledger.projects[b.rows[id].project], result != "failed", true))
  {
    var project := b.rows[id].project;
    AdvancePhaseSound(c, b.ledger, project, actor, comment, true, true, t1, f.served);
    PhaseOfProject(c, b.ledger, project, actor, comment, true, true, t1, f.served);
    var events := Plan(PhaseOf(b.ledger.projects[project].stateName), true, true);
    FireAllFires(c, b.ledger, project, events, actor, comment, t1, f.served);
    var lost := Grade(c, b, id, actor, grade, comment, t1, f).0;
    PhaseMovesExactly(c, lost.ledger, project, actor, comment, result != "failed", true, t2, g.served);
  }

  // ----- The seeded workflow -----

  const MATERIALS_1 := Ledger.WfState(1, 1, "PRE_DEFENSE_1", "", 5, true, false, 0, None)
  const REVIEW_1 := Ledger.WfState(2, 1, "PRE_DEFENSE_1_REVIEW", "", 6, true, false, 14, None)
  const MATERIALS_2 := Ledger.WfState(3, 1, "PRE_DEFENSE_2", "", 7, true, false, 0, None)
  const REVIEW_2 := Ledger.WfState(4, 1, "PRE_DEFENSE_2_REVIEW", "", 8, true, false, 14, None)
  const NORM_CONTROL := Ledger.WfState(5, 1, "NORM_CONTROL", "", 9, true, false, 0, None)

  /** Its pre-defense part. */
  const SEEDED := Ledger.Catalog(
    [MATERIALS_1, REVIEW_1, MATERIALS_2, REVIEW_2, NORM_CONTROL],
    [Ledger.Edge(1, 1, "PREDEFENSE1_SUBMITTED", 1, 2),
     Ledger.Edge(2, 1, "PREDEFENSE1_PASSED", 2, 3),
     Ledger.Edge(3, 1, "PREDEFENSE1_FAILED", 2, 1),
     Ledger.Edge(4, 1, "PREDEFENSE2_SUBMITTED", 3, 4),
     Ledger.Edge(5, 1, "PREDEFENSE2_PASSED", 4, 5),
     Ledger.Edge(6, 1, "PREDEFENSE2_FAILED", 4, 3)])

  lemma {:induction false} ContainsNeedsRoom(s: string, part: string)
    ensures Text.Contains(s, part) ==> |part| <= |s|
    ensures Text.Contains(s, part) && |part| == |s| ==> part == s
  {
    if s != [] {
      ContainsNeedsRoom(s[1..], part);
    }
  }

  /** Capital letters without surrounding white space are left alone. */
  lemma PlainName(s: string)
    requires s != [] && !Text.IsWhite(s[0]) && !Text.IsWhite(s[|s| - 1])
    requires forall i | 0 <= i < |s| :: !('a' <= s[i] <= 'z')
    ensures Text.Upper(Text.TrimSpace(s)) == s && Text.Fold(s) == s && Text.TrimSpace(s) == s
  {
    assert Text.TrimSpace(s) == s && Text.TrimWith(s, Text.IsSpace) == s;
    assert Text.Upper(s) == s;
  }

  lemma FirstReview()
    ensures PhaseOf("PRE_DEFENSE_1_REVIEW") == Review(1)
  {
    PlainName("PRE_DEFENSE_1_REVIEW");
  }

  lemma SecondMaterials()
    ensures PhaseOf("PRE_DEFENSE_2") == Materials(2)
  {
    var s := "PRE_DEFENSE_2";
    PlainName(s);
    ContainsNeedsRoom(s, "PRE_DEFENSE_1_REVIEW");
    ContainsNeedsRoom(s, "PRE_DEFENSE_2_REVIEW");
    ContainsNeedsRoom(s, "PRE_DEFENSE_1");
    assert s[12] != "PRE_DEFENSE_1"[12];
  }

  lemma {:induction false} FirstEdgeAt(c: Ledger.Catalog, edges: seq<Ledger.Edge>, p: Ledger.Project, event: string,
                                       k: nat)
    requires k < |edges| && Ledger.Eligible(c.states, p, event, edges[k]) && edges[k].from == p.stateId
    requires forall j | 0 <= j < k :: edges[j].from != p.stateId || edges[j].event != event
    ensures Ledger.FirstEdge(c, edges, p, event, true) == Some(edges[k])
  {
    if k > 0 {
      FirstEdgeAt(c, edges[1..], p, event, k - 1);
    }
  }

  lemma {:induction false} FindStateAt(states: seq<Ledger.WfState>, k: nat)
    requires k < |states| && forall j | 0 <= j < k :: states[j].id != states[k].id
    ensures Ledger.FindState(states, states[k].id) == Some(states[k])
  {
    if k > 0 {
      FindStateAt(states[1..], k - 1);
    }
  }

  /** The first edge of an event out of the stored state is taken. */
  lemma AdvanceAlong(c: Ledger.Catalog, db: Ledger.Db, project: int, k: nat, from: nat, to: nat, actor: int,
                     comment: string, now: int)
    requires project in db.projects && db.projects[project].workflow != 0 && db.projects[project].stateId != 0
    requires k < |c.edges| && from < |c.states| && to < |c.states|
    requires var e, p := c.edges[k], db.projects[project];
             && e.workflow == p.workflow && e.from == p.stateId == c.states[from].id && c.states[from].live
             && e.to == c.states[to].id && Text.TrimSpace(c.states[to].name) != ""
    requires forall j | 0 <= j < k :: c.edges[j].from != c.edges[k].from || c.edges[j].event != c.edges[k].event
    requires forall j | 0 <= j < to :: c.states[j].id != c.states[to].id
    ensures var (after, reply) := Ledger.Advance(c, db, project, c.edges[k].event, actor, comment, now);
            && reply == Ledger.Done
            && After(db, after, project, c.edges[k].event, c.states[to])
  {
    FirstEdgeAt(c, c.edges, db.projects[project], c.edges[k].event, k);
    FindStateAt(c.states, to);
  }

  /** The project took an event to a state. */
  predicate After(db: Ledger.Db, after: Ledger.Db, project: int, event: string, s: Ledger.WfState)
  {
    && project in db.projects && project in after.projects
    && after.projects[project].workflow == db.projects[project].workflow
    && after.projects[project].stateId == s.id && after.projects[project].stateName == s.name
    && Events(after) == Events(db) + [event]
  }

  function Events(db: Ledger.Db): seq<string>
  {
    seq(|db.history|, i requires 0 <= i < |db.history| => db.history[i].event)
  }

  /** A project of the seeded workflow in one of its states. */
  predicate At(db: Ledger.Db, project: int, s: Ledger.WfState)
  {
    project in db.projects && db.projects[project].workflow == 1 && db.projects[project].stateId == s.id
    && db.projects[project].stateName == s.name
  }

  lemma FromReview1(db: Ledger.Db, project: int, actor: int, comment: string, now: int)
    requires At(db, project, REVIEW_1)
    ensures var (after, reply) := Ledger.Advance(SEEDED, db, project, "PREDEFENSE1_PASSED", actor, comment, now);
            reply == Ledger.Done && After(db, after, project, "PREDEFENSE1_PASSED", MATERIALS_2)
  {
    PlainName("PRE_DEFENSE_2");
    AdvanceAlong(SEEDED, db, project, 1, 1, 2, actor, comment, now);
  }

  lemma FromMaterials2(db: Ledger.Db, project: int, actor: int, comment: string, now: int)
    requires At(db, project, MATERIALS_2)
    ensures var (after, reply) := Ledger.Advance(SEEDED, db, project, "PREDEFENSE2_SUBMITTED", actor, comment, now);
            reply == Ledger.Done && After(db, after, project, "PREDEFENSE2_SUBMITTED", REVIEW_2)
  {
    PlainName("PRE_DEFENSE_2_REVIEW");
    AdvanceAlong(SEEDED, db, project, 3, 2, 3, actor, comment, now);
  }

  lemma FromReview2(db: Ledger.Db, project: int, actor: int, comment: string, now: int)
    requires At(db, project, REVIEW_2)
    ensures var (after, reply) := Ledger.Advance(SEEDED, db, project, "PREDEFENSE2_PASSED", actor, comment, now);
            reply == Ledger.Done && After(db, after, project, "PREDEFENSE2_PASSED", NORM_CONTROL)
  {
    PlainName("NORM_CONTROL");
    AdvanceAlong(SEEDED, db, project, 4, 3, 4, actor, comment, now);
  }

  lemma SeededRead(db: Ledger.Db, project: int, m: nat)
    requires m <= 3 && At(db, project, SEEDED.states[m])
    ensures var (read, context) := Ledger.Submit(SEEDED, db, project);
            read == db && context.Some? && context.value.stateName == SEEDED.states[m].name
  {
    assert SEEDED.states[m].id == m + 1 && SEEDED.states[m].live && SEEDED.states[m].workflow == 1;
    assert Ledger.OwnLive(SEEDED.states, 1, m + 1);
  }

  /** Dean's office completes a graded first pre-defense as passed, the final save is lost, and the call is repeated:
      the project passes the second pre-defense as well, which was never held. */
  lemma SecondPreDefenseSkipped(db: Ledger.Db, row: Row, actor: int, comment: string, t1: int, t2: int)
    requires At(db, row.project, REVIEW_1) && row.status == "graded"
    ensures var b := Board(map[1 := row], db);
            var (lost, first) := Complete(SEEDED, b, 1, actor, "passed", comment, false, t1, Faults(true, 1, false));
            var (again, second) := Complete(SEEDED, lost, 1, actor, "passed", comment, false, t2,
                                            Faults(true, 2, true));
            && first == Internal && lost.rows == b.rows && At(lost.ledger, row.project, MATERIALS_2)
            && second == Done && again.rows[1].status == "completed" && At(again.ledger, row.project, NORM_CONTROL)
            && Events(again.ledger) == Events(db) + ["PREDEFENSE1_PASSED", "PREDEFENSE2_SUBMITTED",
                                                     "PREDEFENSE2_PASSED"]
  {
    var b := Board(map[1 := row], db);
    LosesTheSave(b, actor, comment, t1);
    var lost := Complete(SEEDED, b, 1, actor, "passed", comment, false, t1, Faults(true, 1, false)).0;
    PassesFromMaterials(lost, actor, comment, t2);
  }

  lemma LosesTheSave(b: Board, actor: int, comment: string, now: int)
    requires 1 in b.rows && b.rows[1].status == "graded" && At(b.ledger, b.rows[1].project, REVIEW_1)
    ensures var (lost, reply) := Complete(SEEDED, b, 1, actor, "passed", comment, false, now, Faults(true, 1, false));
            reply == Internal && lost.rows == b.rows
              && After(b.ledger, lost.ledger, b.rows[1].project, "PREDEFENSE1_PASSED", MATERIALS_2)
  {
    var project := b.rows[1].project;
    FirstReview();
    SeededRead(b.ledger, project, 1);
    FirstPhase(b.ledger, project, actor, comment, now);
  }

  lemma FirstPhase(db: Ledger.Db, project: int, actor: int, comment: string, now: int)
    requires At(db, project, REVIEW_1)
    ensures var (after, outcome) := FireAll(SEEDED, db, project, [GateEvent(1, true)], actor, comment, now, 1);
            outcome == Advanced && After(db, after, project, "PREDEFENSE1_PASSED", MATERIALS_2)
  {
    FromReview1(db, project, actor, comment, now);
    var after := Ledger.Advance(SEEDED, db, project, "PREDEFENSE1_PASSED", actor, comment, now).0;
    assert FireAll(SEEDED, db, project, [GateEvent(1, true)], actor, comment, now, 1) == (after, Advanced);
  }

  lemma PassesFromMaterials(b: Board, actor: int, comment: string, now: int)
    requires 1 in b.rows && b.rows[1].status == "graded" && At(b.ledger, b.rows[1].project, MATERIALS_2)
    ensures var (again, reply) := Complete(SEEDED, b, 1, actor, "passed", comment, false, now, Faults(true, 2, true));
            && reply == Done && 1 in again.rows && again.rows[1].status == "completed"
                && At(again.ledger, b.rows[1].project, NORM_CONTROL)
            && Events(again.ledger) == Events(b.ledger) + ["PREDEFENSE2_SUBMITTED", "PREDEFENSE2_PASSED"]
  {
    PassesBoth(b.ledger, b.rows[1].project, actor, comment, now);
  }

  lemma PassesBoth(db: Ledger.Db, project: int, actor: int, comment: string, now: int)
    requires At(db, project, MATERIALS_2)
    ensures var (after, outcome) := AdvancePhase(SEEDED, db, project, actor, comment, true, true, now, 2);
            && outcome == Advanced && At(after, project, NORM_CONTROL)
            && Events(after) == Events(db) + ["PREDEFENSE2_SUBMITTED", "PREDEFENSE2_PASSED"]
  {
    SecondMaterials();
    SeededRead(db, project, 2);
    SecondPhase(db, project, actor, comment, now);
  }

  lemma SecondPhase(db: Ledger.Db, project: int, actor: int, comment: string, now: int)
    requires At(db, project, MATERIALS_2)
    ensures var (after, outcome) := FireAll(SEEDED, db, project, [SubmittedEvent(2), GateEvent(2, true)], actor,
                                            comment, now, 2);
            && outcome == Advanced && At(after, project, NORM_CONTROL)
            && Events(after) == Events(db) + ["PREDEFENSE2_SUBMITTED", "PREDEFENSE2_PASSED"]
  {
    FromMaterials2(db, project, actor, comment, now);
    var mid := Ledger.Advance(SEEDED, db, project, "PREDEFENSE2_SUBMITTED", actor, comment, now).0;
    FromReview2(mid, project, actor, comment, now);
    TwoEvents(SEEDED, db, project, SubmittedEvent(2), GateEvent(2, true), actor, comment, now, 1);
    var end := Ledger.Advance(SEEDED, mid, project, "PREDEFENSE2_PASSED", actor, comment, now).0;
    assert FireAll(SEEDED, mid, project, [GateEvent(2, true)], actor, comment, now, 1) == (end, Advanced);
  }

  // ----- The seeded workflow is well formed -----

  /** A catalog of one workflow whose states are numbered from 1. */
  lemma WellFormedByIndex(c: Ledger.Catalog)
    requires forall i | 0 <= i < |c.states| :: c.states[i].id == i + 1 && c.states[i].workflow == 1 && c.states[i].live
    requires forall i | 0 <= i < |c.states| :: Text.TrimSpace(c.states[i].name) != ""
    requires forall i, j | 0 <= i < j < |c.states| :: Text.Fold(c.states[i].name) != Text.Fold(c.states[j].name)
    requires forall i | 0 <= i < |c.edges| ::
               c.edges[i].workflow == 1 && 1 <= c.edges[i].from <= |c.states| && 1 <= c.edges[i].to <= |c.states|
    requires forall i, j | 0 <= i < j < |c.edges|
        && c.edges[i].from == c.edges[j].from :: c.edges[i].event != c.edges[j].event
    ensures Ledger.WellFormed(c)
  {
    forall e | e in c.edges
      ensures Ledger.IsLive(c, 1, e.from) && Ledger.IsLive(c, 1, e.to)
    {
      assert c.states[e.from - 1].id == e.from && c.states[e.to - 1].id == e.to;
    }
  }

  lemma FiveNames()
    ensures Text.Fold("PRE_DEFENSE_1") == Text.TrimSpace("PRE_DEFENSE_1") == "PRE_DEFENSE_1"
    ensures Text.Fold("PRE_DEFENSE_1_REVIEW") == Text.TrimSpace("PRE_DEFENSE_1_REVIEW") == "PRE_DEFENSE_1_REVIEW"
    ensures Text.Fold("PRE_DEFENSE_2") == Text.TrimSpace("PRE_DEFENSE_2") == "PRE_DEFENSE_2"
    ensures Text.Fold("PRE_DEFENSE_2_REVIEW") == Text.TrimSpace("PRE_DEFENSE_2_REVIEW") == "PRE_DEFENSE_2_REVIEW"
    ensures Text.Fold("NORM_CONTROL") == Text.TrimSpace("NORM_CONTROL") == "NORM_CONTROL"
  {
    PlainName("PRE_DEFENSE_1");
    PlainName("PRE_DEFENSE_1_REVIEW");
    PlainName("PRE_DEFENSE_2");
    PlainName("PRE_DEFENSE_2_REVIEW");
    PlainName("NORM_CONTROL");
  }

  lemma NamesDiffer()
    ensures "PRE_DEFENSE_1" != "PRE_DEFENSE_2" && "PRE_DEFENSE_1_REVIEW" != "PRE_DEFENSE_2_REVIEW"
    ensures "PREDEFENSE1_PASSED" != "PREDEFENSE1_FAILED" && "PREDEFENSE2_PASSED" != "PREDEFENSE2_FAILED"
  {
    assert "PRE_DEFENSE_1"[12] != "PRE_DEFENSE_2"[12] && "PRE_DEFENSE_1_REVIEW"[12] != "PRE_DEFENSE_2_REVIEW"[12];
    assert "PREDEFENSE1_PASSED"[12] != "PREDEFENSE1_FAILED"[12] && "PREDEFENSE2_PASSED"[12] != "PREDEFENSE2_FAILED"[12];
  }

  /** The seeded shape with any names. */
  function Shaped(n: seq<string>, v: seq<string>): Ledger.Catalog
    requires |n| == 5 && |v| == 6
  {
    Ledger.Catalog(
      [Ledger.WfState(1, 1, n[0], "", 5, true, false, 0, None),
       Ledger.WfState(2, 1, n[1], "", 6, true, false, 14, None),
       Ledger.WfState(3, 1, n[2], "", 7, true, false, 0, None),
       Ledger.WfState(4, 1, n[3], "", 8, true, false, 14, None),
       Ledger.WfState(5, 1, n[4], "", 9, true, false, 0, None)],
      [Ledger.Edge(1, 1, v[0], 1, 2), Ledger.Edge(2, 1, v[1], 2, 3), Ledger.Edge(3, 1, v[2], 2, 1),
       Ledger.Edge(4, 1, v[3], 3, 4), Ledger.Edge(5, 1, v[4], 4, 5), Ledger.Edge(6, 1, v[5], 4, 3)])
  }

  lemma ShapedIsWellFormed(n: seq<string>, v: seq<string>)
    requires |n| == 5 && |v| == 6 && v[1] != v[2] && v[4] != v[5]
    requires forall i | 0 <= i < 5 :: Text.Fold(n[i]) == Text.TrimSpace(n[i]) == n[i] && n[i] != ""
    requires forall i, j | 0 <= i < j < 5 :: n[i] != n[j]
    ensures Ledger.WellFormed(Shaped(n, v))
  {
    ShapedStates(n, v);
    ShapedEdges(n, v);
    WellFormedByIndex(Shaped(n, v));
  }

  lemma ShapedStates(n: seq<string>, v: seq<string>)
    requires |n| == 5 && |v| == 6
    ensures var c := Shaped(n, v);
            && |c.states| == 5 && |c.edges| == 6
            && forall i | 0 <= i < 5 :: c.states[i].name == n[i] && c.states[i].id == i + 1
                && c.states[i].workflow == 1 && c.states[i].live
  {
  }

  lemma ShapedEdges(n: seq<string>, v: seq<string>)
    requires |n| == 5 && |v| == 6 && v[1] != v[2] && v[4] != v[5]
    ensures var c := Shaped(n, v);
            && (forall i | 0 <= i < 6 ::
                  c.edges[i].workflow == 1 && 1 <= c.edges[i].from <= 5 && 1 <= c.edges[i].to <= 5)
            && forall i, j | 0 <= i < j < 6
                && c.edges[i].from == c.edges[j].from :: c.edges[i].event != c.edges[j].event
  {
  }

  /** The theorems about well-formed workflows speak about the seeded one. */
  lemma SeededIsWellFormed()
    ensures Ledger.WellFormed(SEEDED)
  {
    FiveNames();
    NamesDiffer();
    var n := ["PRE_DEFENSE_1", "PRE_DEFENSE_1_REVIEW", "PRE_DEFENSE_2", "PRE_DEFENSE_2_REVIEW", "NORM_CONTROL"];
    var v := ["PREDEFENSE1_SUBMITTED", "PREDEFENSE1_PASSED", "PREDEFENSE1_FAILED",
              "PREDEFENSE2_SUBMITTED", "PREDEFENSE2_PASSED", "PREDEFENSE2_FAILED"];
    ShapedIsWellFormed(n, v);
    assert SEEDED == Shaped(n, v);
  }
}
