/** What the admission list holds: the decision of each row, and exactly which rows there are. */
module AdmissionList {
  import opened Wrappers
  import opened Admission
  import opened Text

  // ----- The decision -----

  predicate Undecided(p: Project) { p.result !in {Some("passed"), Some("failed"), Some("conditional")} }

  /** A pre-defense result decides; without one a grade does, against the passing score or 0; a team without a project
      is undecided. The list's column is what the Go function says of the same project. */
  lemma StatusExactly(p: Project)
    ensures var passing := if p.passing.Some? then p.passing.value else 0;
            && (Status(Some(p)) == "admitted"
                <==> p.result == Some("passed") || (Undecided(p) && p.grade.Some? && p.grade.value >= passing))
            && (Status(Some(p)) == "not_admitted"
                <==> p.result == Some("failed") || (Undecided(p) && p.grade.Some? && p.grade.value < passing))
            && (Status(Some(p)) == "revision_required" <==> p.result == Some("conditional"))
            && (Status(Some(p)) == "not_decided" <==> Undecided(p) && p.grade.None?)
            && Status(Some(p)) == Normalize(Or(p.result, ""), p.grade, passing)
    ensures Status(None) == "not_decided"
  {
  }

  // ----- The rows -----

  /** The project joins the team, or there is none and the team has none. */
  ghost predicate JoinsProject(db: Db, team: int, project: Option<Project>)
  {
    if project.Some? then project.value in db.projects && project.value.team == Some(team)
    else forall p :: p in db.projects ==> p.team != Some(team)
  }

  /** The supervisor is assigned to the team, or it is 0 and the team has none. */
  ghost predicate JoinsSupervisor(db: Db, team: int, supervisor: int)
  {
    || Assignment(team, supervisor) in db.assignments
    || (supervisor == 0 && forall a :: a in db.assignments ==> a.team != team)
  }

  /** The row shows a live team of the department with a project and a supervisor of it. */
  ghost predicate Shows(db: Db, department: int, row: Row, team: Team)
  {
    && team in db.teams && team.department == department && !team.deleted
    && row.team == team.id && row.name == team.name
    && JoinsProject(db, team.id, row.project) && JoinsSupervisor(db, team.id, row.supervisor)
  }

  lemma {:induction false} ProjectsJoin(projects: seq<Project>, team: int, p: Project)
    ensures p in ProjectsOf(projects, team) <==> p in projects && p.team == Some(team)
  {
    if projects != [] {
      ProjectsJoin(projects[..|projects| - 1], team, p);
      assert projects == projects[..|projects| - 1] + [projects[|projects| - 1]];
    }
  }

  lemma JoinedProjects(db: Db, team: int, project: Option<Project>)
    ensures project in JoinProjects(db, team) <==> JoinsProject(db, team, project)
  {
    forall p ensures p in ProjectsOf(db.projects, team) <==> p in db.projects && p.team == Some(team) {
      ProjectsJoin(db.projects, team, p);
    }
    var ps, joined := ProjectsOf(db.projects, team), JoinProjects(db, team);
    if ps != [] {
      assert ps[0] in ps;
      assert project in joined ==> project.Some? && project.value in ps;
      if project.Some? && project.value in ps {
        var i :| 0 <= i < |ps| && ps[i] == project.value;
        assert joined[i] == project;
      }
    }
  }

  lemma {:induction false} SupervisorsJoin(assignments: seq<Assignment>, team: int, supervisor: int)
    ensures supervisor in SupervisorsOf(assignments, team) <==> Assignment(team, supervisor) in assignments
  {
    if assignments != [] {
      SupervisorsJoin(assignments[..|assignments| - 1], team, supervisor);
      assert assignments == assignments[..|assignments| - 1] + [assignments[|assignments| - 1]];
    }
  }

  lemma JoinedSupervisors(db: Db, team: int, supervisor: int)
    ensures supervisor in JoinSupervisors(db, team) <==> JoinsSupervisor(db, team, supervisor)
  {
    forall s ensures s in SupervisorsOf(db.assignments, team) <==> Assignment(team, s) in db.assignments {
      SupervisorsJoin(db.assignments, team, s);
    }
    var ss := SupervisorsOf(db.assignments, team);
    if ss != [] {
      assert ss[0] in ss;
      assert Assignment(team, ss[0]) in db.assignments;
    } else {
      forall a | a in db.assignments ensures a.team != team {
        assert a.team == team ==> Assignment(team, a.supervisor) in db.assignments;
      }
    }
  }

  lemma {:induction false} CrossHolds(team: Team, projects: seq<Option<Project>>, supervisors: seq<int>, row: Row)
    ensures row in Cross(team, projects, supervisors)
       <==> row.team == team.id && row.name == team.name && row.project in projects && row.supervisor in supervisors
  {
    if projects != [] {
      var last := |projects| - 1;
      CrossHolds(team, projects[..last], supervisors, row);
      assert projects == projects[..last] + [projects[last]];
      var rows := WithSupervisors(team, projects[last], supervisors);
      if row.supervisor in supervisors {
        var i :| 0 <= i < |supervisors| && supervisors[i] == row.supervisor;
        assert rows[i] == Row(team.id, team.name, projects[last], row.supervisor);
      }
    }
  }

  /** The rows one team gives. */
  function RowsOf(db: Db, department: int, team: Team): seq<Row>
  {
    if team.department != department || team.deleted then []
    else Cross(team, JoinProjects(db, team.id), JoinSupervisors(db, team.id))
  }

  lemma TeamRows(db: Db, department: int, team: Team, row: Row)
    requires team in db.teams
    ensures row in RowsOf(db, department, team) <==> Shows(db, department, row, team)
  {
    CrossHolds(team, JoinProjects(db, team.id), JoinSupervisors(db, team.id), row);
    JoinedProjects(db, team.id, row.project);
    JoinedSupervisors(db, team.id, row.supervisor);
  }

  lemma {:induction false} BaseHolds(db: Db, teams: seq<Team>, department: int, row: Row)
    ensures row in BaseRows(db, teams, department) <==> exists t :: t in teams && row in RowsOf(db, department, t)
  {
    if teams != [] {
      var before, last := teams[..|teams| - 1], teams[|teams| - 1];
      BaseHolds(db, before, department, row);
      assert teams == before + [last];
      assert BaseRows(db, teams, department) == BaseRows(db, before, department) + RowsOf(db, department, last);
    }
  }

  lemma {:induction false} SelectHolds(f: Filter, rows: seq<Row>, row: Row)
    ensures row in Select(f, rows) <==> row in rows && Matches(f, row)
  {
    if rows != [] {
      SelectHolds(f, rows[..|rows| - 1], row);
      assert rows == rows[..|rows| - 1] + [rows[|rows| - 1]];
    }
  }

  /** The list holds exactly the matching rows that show a live team of the department with each project and each
      supervisor it has, or with none. */
  lemma ListedExactly(db: Db, f: Filter, row: Row)
    ensures row in Listed(db, f)
       <==> Matches(f, row) && exists t :: t in db.teams && Shows(db, f.department, row, t)
  {
    SelectHolds(f, BaseRows(db, db.teams, f.department), row);
    BaseHolds(db, db.teams, f.department, row);
    forall t | t in db.teams
      ensures row in RowsOf(db, f.department, t) <==> Shows(db, f.department, row, t)
    {
      TeamRows(db, f.department, t, row);
    }
  }

  // ----- The filter -----

  predicate Blank(s: string) { TrimSpace(s) == "" }

  predicate Mentions(text: string, search: string) { Contains(Upper(text), Upper(TrimSpace(search))) }

  lemma NothingInEmpty(search: string)
    requires !Blank(search)
    ensures !Mentions("", search)
  {
    assert |Upper(TrimSpace(search))| > 0;
  }

  /** What each condition of the filter asks of a row that shows a project, for a search without wildcards: a blank
      text, no supervisor and no bound ask nothing, and a bound asks for a final grade. */
  lemma FilterOfProject(f: Filter, row: Row)
    requires Plain(Upper(TrimSpace(f.search))) && row.project.Some?
    ensures var p := row.project.value;
            Matches(f, row) <==>
              && (Blank(f.search) || Mentions(row.name, f.search) || Mentions(p.title, f.search))
              && (f.supervisor > 0 ==> row.supervisor == f.supervisor)
              && (Blank(f.stage) || p.stage == TrimSpace(f.stage)) && (Blank(f.topic) || p.topic == TrimSpace(f.topic))
              && (Blank(f.norm) || p.norm == TrimSpace(f.norm))
              && (Blank(f.antiplagiat) || p.antiplagiat == TrimSpace(f.antiplagiat))
              && (Blank(f.preDefense) || p.preDefense == TrimSpace(f.preDefense))
              && (Blank(f.admission) || Status(Some(p)) == TrimSpace(f.admission))
              && (f.minGrade.Some? ==> p.finalGrade.Some? && f.minGrade.value <= p.finalGrade.value)
              && (f.maxGrade.Some? ==> p.finalGrade.Some? && p.finalGrade.value <= f.maxGrade.value)
  {
    SearchIsContains(row.name, f.search);
    SearchIsContains(row.project.value.title, f.search);
  }

  /** A team without a project is found by its name and supervisor only, and as undecided. */
  lemma FilterWithoutProject(f: Filter, row: Row)
    requires Plain(Upper(TrimSpace(f.search))) && row.project.None?
    ensures Matches(f, row) <==>
              && (Blank(f.search) || Mentions(row.name, f.search))
              && (f.supervisor > 0 ==> row.supervisor == f.supervisor)
              && Blank(f.stage) && Blank(f.topic) && Blank(f.norm) && Blank(f.antiplagiat) && Blank(f.preDefense)
              && (Blank(f.admission) || TrimSpace(f.admission) == "not_decided")
              && f.minGrade.None? && f.maxGrade.None?
  {
    SearchIsContains(row.name, f.search);
    SearchIsContains("", f.search);
    if !Blank(f.search) {
      NothingInEmpty(f.search);
    }
  }
}
