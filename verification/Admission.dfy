/** Admission decisions in the department progress pages (internal/admin/repository_department_progress.go,
    internal/admin/service_department_progress.go): the SQL CASE and its Go twin, the paginated list and the tally.
    A project row carries what its LATERAL subqueries read. */
module Admission {
  import opened Wrappers
  import opened Text

  const ADMITTED := "admitted"
  const NOT_ADMITTED := "not_admitted"
  const REVISION_REQUIRED := "revision_required"
  const NOT_DECIDED := "not_decided"

  const MAX_INT32 := 0x7fff_ffff

  /** Go's int32 conversion. */
  function Int32(n: int): int
  {
    (n + 0x8000_0000) % 0x1_0000_0000 - 0x8000_0000
  }

  // ----- The decision -----

  /** SQL comparisons, with `None` for NULL. */
  function Equals(a: Option<string>, b: string): Option<bool> { if a.None? then None else Some(a.value == b) }

  function AtLeast(a: Option<int>, b: Option<int>): Option<bool>
  {
    if a.None? || b.None? then None else Some(a.value >= b.value)
  }

  function Below(a: Option<int>, b: Option<int>): Option<bool>
  {
    if a.None? || b.None? then None else Some(a.value < b.value)
  }

  /** SQL conjunction: false wins over NULL. */
  function And(a: Option<bool>, b: Option<bool>): Option<bool>
  {
    if a == Some(false) || b == Some(false) then Some(false) else if a.None? || b.None? then None else Some(true)
  }

  /** admissionCaseSQL; a WHEN branch is taken only when its condition is true. */
  function AdmissionCase(result: Option<string>, grade: Option<int>, passing: Option<int>): string
  {
    if Equals(result, "passed") == Some(true) then ADMITTED
    else if Equals(result, "failed") == Some(true) then NOT_ADMITTED
    else if Equals(result, "conditional") == Some(true) then REVISION_REQUIRED
    else if And(Some(grade.Some?), AtLeast(grade, passing)) == Some(true) then ADMITTED
    else if And(Some(grade.Some?), Below(grade, passing)) == Some(true) then NOT_ADMITTED
    else NOT_DECIDED
  }

  /** normalizeAdmission. */
  function Normalize(result: string, grade: Option<int>, passing: int): string
  {
    if result == "passed" then ADMITTED
    else if result == "failed" then NOT_ADMITTED
    else if result == "conditional" then REVISION_REQUIRED
    else if grade.Some? then if grade.value >= passing then ADMITTED else NOT_ADMITTED
    else NOT_DECIDED
  }

  function Or<T>(a: Option<T>, b: T): T { if a.Some? then a.value else b }

  /** The CASE and its Go twin agree on every row except an undecided one with a grade and a NULL passing score, which
      COALESCE keeps out of both queries. */
  lemma CaseAgreesExactly(result: Option<string>, grade: Option<int>, passing: Option<int>)
    ensures AdmissionCase(result, grade, passing) == Normalize(Or(result, ""), grade, Or(passing, 0))
       <==> passing.Some? || grade.None? || result in {Some("passed"), Some("failed"), Some("conditional")}
  {
  }

  // ----- The tables -----

  datatype Team = Team(id: int, department: int, deleted: bool, name: string)

  datatype Project = Project(id: int, team: Option<int>, title: string, stage: string, topic: string, norm: string,
                             antiplagiat: string, preDefense: string, result: Option<string>, grade: Option<int>,
                             passing: Option<int>, finalGrade: Option<int>)

  datatype Assignment = Assignment(team: int, supervisor: int)

  datatype Db = Db(teams: seq<Team>, projects: seq<Project>, assignments: seq<Assignment>)

  /** The primary key of teams and the unique indexes on the team of a project and of an assignment. */
  ghost predicate Consistent(db: Db)
  {
    && (forall i, j | 0 <= i < j < |db.teams| :: db.teams[i].id != db.teams[j].id)
    && (forall i, j | 0 <= i < j < |db.projects|
        && db.projects[i].team.Some? :: db.projects[i].team != db.projects[j].team)
    && (forall i, j | 0 <= i < j < |db.assignments| :: db.assignments[i].team != db.assignments[j].team)
  }

  function ProjectsOf(projects: seq<Project>, team: int): seq<Project>
  {
    if projects == [] then []
    else
      var last := projects[|projects| - 1];
      ProjectsOf(projects[..|projects| - 1], team) + if last.team == Some(team) then [last] else []
  }

  function SupervisorsOf(assignments: seq<Assignment>, team: int): seq<int>
  {
    if assignments == [] then []
    else
      var last := assignments[|assignments| - 1];
      SupervisorsOf(assignments[..|assignments| - 1], team) + if last.team == team then [last.supervisor] else []
  }

  /** LEFT JOIN: one NULL row when nothing joins. */
  function JoinProjects(db: Db, team: int): (joined: seq<Option<Project>>)
    ensures joined != []
  {
    var ps := ProjectsOf(db.projects, team);
    if ps == [] then [None] else seq(|ps|, i requires 0 <= i < |ps| => Some(ps[i]))
  }

  /** LEFT JOIN with COALESCE(supervisor_id, 0). */
  function JoinSupervisors(db: Db, team: int): (joined: seq<int>)
    ensures joined != []
  {
    var ss := SupervisorsOf(db.assignments, team);
    if ss == [] then [0] else ss
  }

  function Status(project: Option<Project>): string
  {
    match project
    case None => AdmissionCase(None, None, Some(0))
    case Some(p) => AdmissionCase(p.result, p.grade, Some(if p.grade.Some? then Or(p.passing, 0) else 0))
  }

  // ----- The list -----

  datatype Row = Row(team: int, name: string, project: Option<Project>, supervisor: int)

  function WithSupervisors(team: Team, project: Option<Project>, supervisors: seq<int>): seq<Row>
  {
    seq(|supervisors|, i requires 0 <= i < |supervisors| => Row(team.id, team.name, project, supervisors[i]))
  }

  function Cross(team: Team, projects: seq<Option<Project>>, supervisors: seq<int>): seq<Row>
  {
    if projects == [] then []
    else
      Cross(team, projects[..|projects| - 1], supervisors) + WithSupervisors(team, projects[|projects| - 1],
          supervisors)
  }

  /** The rows of the CTE for the teams of a department. */
  function BaseRows(db: Db, teams: seq<Team>, department: int): seq<Row>
  {
    if teams == [] then []
    else
      var last := teams[|teams| - 1];
      BaseRows(db, teams[..|teams| - 1], department)
      + if last.department != department || last.deleted then []
        else Cross(last, JoinProjects(db, last.id), JoinSupervisors(db, last.id))
  }

  datatype Filter = Filter(department: int, search: string, supervisor: int, stage: string, topic: string,
                           norm: string, antiplagiat: string,
                           preDefense: string, admission: string, minGrade: Option<int>, maxGrade: Option<int>)

  /** A text condition, present only when the trimmed filter is not empty. */
  predicate TextMatches(filter: string, column: string) { TrimSpace(filter) == "" || column == TrimSpace(filter) }

  /** SQL LIKE: % stands for any text, _ for any character, and a backslash takes the next character as it is. */
  predicate Like(text: string, pattern: string)
    decreases |text| + |pattern|
  {
    if pattern == [] then text == []
    else if pattern[0] == '%' then Like(text, pattern[1..]) || (text != [] && Like(text[1..], pattern))
    else if text == [] then false
    else if pattern[0] == '\\' && |pattern| > 1 then text[0] == pattern[1] && Like(text[1..], pattern[2..])
    else (pattern[0] == '_' || pattern[0] == text[0]) && Like(text[1..], pattern[1..])
  }

  /** ILIKE with the trimmed search between two % signs. */
  predicate Found(text: string, search: string) { Like(Upper(text), Upper("%" + TrimSpace(search) + "%")) }

  function Column(row: Row, f: Project -> string): string
  {
    match row.project
    case None => ""
    case Some(p) => f(p)
  }

  predicate Matches(f: Filter, row: Row)
  {
    var final := if row.project.Some? then row.project.value.finalGrade else None;
    && (TrimSpace(f.search) == "" || Found(row.name, f.search) || Found(Column(row, (p: Project) => p.title), f.search))
    && (f.supervisor <= 0 || row.supervisor == f.supervisor)
    && TextMatches(f.stage, Column(row, (p: Project) => p.stage))
    && TextMatches(f.topic, Column(row, (p: Project) => p.topic))
    && TextMatches(f.norm, Column(row, (p: Project) => p.norm))
    && TextMatches(f.antiplagiat, Column(row, (p: Project) => p.antiplagiat))
    && TextMatches(f.preDefense, Column(row, (p: Project) => p.preDefense))
    && TextMatches(f.admission, Status(row.project))
    && (f.minGrade.None? || AtLeast(final, f.minGrade) == Some(true))
    && (f.maxGrade.None? || AtLeast(f.maxGrade, final) == Some(true))
  }

  function Select(f: Filter, rows: seq<Row>): seq<Row>
  {
    if rows == [] then []
    else
      var last := rows[|rows| - 1];
      Select(f, rows[..|rows| - 1]) + if Matches(f, last) then [last] else []
  }

  function Listed(db: Db, f: Filter): seq<Row> { Select(f, BaseRows(db, db.teams, f.department)) }

  // ----- The tally -----

  function Statuses(projects: seq<Option<Project>>): seq<string>
  {
    seq(|projects|, i requires 0 <= i < |projects| => Status(projects[i]))
  }

  /** The tally's own subquery: no supervisor join. */
  function TallyRows(db: Db, teams: seq<Team>, department: int): seq<string>
  {
    if teams == [] then []
    else
      var last := teams[|teams| - 1];
      TallyRows(db, teams[..|teams| - 1], department)
      + if last.department != department || last.deleted then [] else Statuses(JoinProjects(db, last.id))
  }

  function Count(statuses: seq<string>, status: string): nat
  {
    if statuses == [] then 0
    else Count(statuses[..|statuses| - 1], status) + if statuses[|statuses| - 1] == status then 1 else 0
  }

  /** What GROUP BY may return, in any order. */
  ghost predicate Grouped(statuses: seq<string>, groups: seq<(string, int)>)
  {
    && (forall i, j | 0 <= i < j < |groups| :: groups[i].0 != groups[j].0)
    && (forall i | 0 <= i < |groups| :: groups[i].1 == Count(statuses, groups[i].0))
    && (forall k | 0 <= k < |statuses| :: exists i | 0 <= i < |groups| :: groups[i].0 == statuses[k])
  }

  function Seen(groups: seq<(string, int)>, status: string): int
  {
    if groups == [] then 0
    else
      var last := groups[|groups| - 1];
      if last.0 == status then Int32(last.1) else Seen(groups[..|groups| - 1], status)
  }

  method Tally(groups: seq<(string, int)>, ghost statuses: seq<string>)
    returns (admitted: int, notAdmitted: int, revisionRequired: int)
    requires Grouped(statuses, groups)
    ensures admitted == Int32(Count(statuses, ADMITTED))
    ensures notAdmitted == Int32(Count(statuses, NOT_ADMITTED))
    ensures revisionRequired == Int32(Count(statuses, REVISION_REQUIRED))
  {
    admitted, notAdmitted, revisionRequired := 0, 0, 0;
    for i := 0 to |groups|
      invariant admitted == Seen(groups[..i], ADMITTED)
      invariant notAdmitted == Seen(groups[..i], NOT_ADMITTED)
      invariant revisionRequired == Seen(groups[..i], REVISION_REQUIRED)
    {
      assert groups[..i + 1][..i] == groups[..i];
      var group := groups[i];
      assert |NOT_ADMITTED| != |ADMITTED| && |NOT_ADMITTED| != |REVISION_REQUIRED| && |ADMITTED| != |REVISION_REQUIRED|;
      if group.0 == ADMITTED {
        admitted := Int32(group.1);
      } else if group.0 == NOT_ADMITTED {
        notAdmitted := Int32(group.1);
      } else if group.0 == REVISION_REQUIRED {
        revisionRequired := Int32(group.1);
      }
    }
    assert groups[..|groups|] == groups;
    SeenIsCount(statuses, groups, ADMITTED);
    SeenIsCount(statuses, groups, NOT_ADMITTED);
    SeenIsCount(statuses, groups, REVISION_REQUIRED);
  }

  lemma {:induction false} SeenLast(groups: seq<(string, int)>, status: string, i: nat)
    requires i < |groups| && groups[i].0 == status
    requires forall j | i < j < |groups| :: groups[j].0 != status
    ensures Seen(groups, status) == Int32(groups[i].1)
  {
    if i < |groups| - 1 {
      SeenLast(groups[..|groups| - 1], status, i);
    }
  }

  lemma {:induction false} SeenNever(groups: seq<(string, int)>, status: string)
    requires forall i | 0 <= i < |groups| :: groups[i].0 != status
    ensures Seen(groups, status) == 0
  {
    if groups != [] {
      SeenNever(groups[..|groups| - 1], status);
    }
  }

  lemma {:induction false} CountPositive(statuses: seq<string>, status: string)
    ensures Count(statuses, status) > 0 <==> exists k | 0 <= k < |statuses| :: statuses[k] == status
  {
    if statuses != [] {
      CountPositive(statuses[..|statuses| - 1], status);
    }
  }

  lemma SeenIsCount(statuses: seq<string>, groups: seq<(string, int)>, status: string)
    requires Grouped(statuses, groups)
    ensures Seen(groups, status) == Int32(Count(statuses, status))
  {
    CountPositive(statuses, status);
    if i :| 0 <= i < |groups| && groups[i].0 == status {
      SeenLast(groups, status, i);
    } else {
      SeenNever(groups, status);
    }
  }

  lemma {:induction false} CountAdds(a: seq<string>, b: seq<string>, status: string)
    ensures Count(a + b, status) == Count(a, status) + Count(b, status)
  {
    if b == [] {
      assert a + b == a;
    } else {
      var n := |b| - 1;
      CountAdds(a, b[..n], status);
      assert (a + b)[..|a + b| - 1] == a + b[..n];
    }
  }

  lemma {:induction false} SelectAdds(f: Filter, a: seq<Row>, b: seq<Row>)
    ensures Select(f, a + b) == Select(f, a) + Select(f, b)
  {
    if b == [] {
      assert a + b == a;
    } else {
      var n := |b| - 1;
      SelectAdds(f, a, b[..n]);
      assert (a + b)[..|a + b| - 1] == a + b[..n];
    }
  }

  predicate Plain(s: string) { '%' !in s && '_' !in s && '\\' !in s }

  lemma {:induction false} PrefixLike(text: string, part: string)
    requires Plain(part)
    ensures Like(text, part + "%") <==> part <= text
    decreases |part|
  {
    if part == [] {
      AnyLike(text);
      assert part + "%" == "%";
    } else {
      assert (part + "%")[1..] == part[1..] + "%" && part[0] != '%';
      if text != [] {
        PrefixLike(text[1..], part[1..]);
        assert text == [text[0]] + text[1..] && part == [part[0]] + part[1..];
      }
    }
  }

  lemma {:induction false} AnyLike(text: string)
    ensures Like(text, "%")
  {
    if text != [] {
      AnyLike(text[1..]);
    }
  }

  /** A search without wildcards finds exactly the texts that contain it, up to case. */
  lemma SearchIsContains(text: string, search: string)
    requires Plain(Upper(TrimSpace(search)))
    ensures Found(text, search) <==> Contains(Upper(text), Upper(TrimSpace(search)))
  {
    var part := Upper(TrimSpace(search));
    assert Upper("%" + TrimSpace(search) + "%") == "%" + part + "%";
    BetweenLike(Upper(text), part);
  }

  lemma {:induction false} BetweenLike(text: string, part: string)
    requires Plain(part)
    ensures Like(text, "%" + part + "%") <==> Contains(text, part)
    decreases |text|
  {
    assert ("%" + part + "%")[1..] == part + "%";
    PrefixLike(text, part);
    if text != [] {
      BetweenLike(text[1..], part);
    }
  }

  /** The filter that asks for one class only. */
  function OnlyAdmission(department: int, status: string): Filter
  {
    Filter(department, "", 0, "", "", "", "", "", status, None, None)
  }

  predicate Class(status: string) { status in {ADMITTED, NOT_ADMITTED, REVISION_REQUIRED, NOT_DECIDED} }

  lemma OnlyAdmissionMatches(department: int, status: string, row: Row)
    requires Class(status)
    ensures Matches(OnlyAdmission(department, status), row) <==> Status(row.project) == status
  {
  }

  lemma {:induction false} OneSupervisor(assignments: seq<Assignment>, team: int)
    requires forall i, j | 0 <= i < j < |assignments| :: assignments[i].team != assignments[j].team
    ensures |SupervisorsOf(assignments, team)| <= 1
    ensures SupervisorsOf(assignments, team) != [] ==> exists i | 0 <= i < |assignments| :: assignments[i].team == team
  {
    if assignments != [] {
      OneSupervisor(assignments[..|assignments| - 1], team);
    }
  }

  lemma {:induction false} CrossCount(team: Team, projects: seq<Option<Project>>, supervisors: seq<int>,
                                      department: int, status: string)
    requires |supervisors| == 1 && Class(status)
    ensures |Select(OnlyAdmission(department, status), Cross(team, projects, supervisors))|
        == Count(Statuses(projects), status)
  {
    if projects != [] {
      var n, f := |projects| - 1, OnlyAdmission(department, status);
      CrossCount(team, projects[..n], supervisors, department, status);
      var row := Row(team.id, team.name, projects[n], supervisors[0]);
      assert WithSupervisors(team, projects[n], supervisors) == [row];
      assert Cross(team, projects, supervisors)[..|Cross(team, projects, supervisors)| - 1]
          == Cross(team, projects[..n], supervisors);
      OnlyAdmissionMatches(department, status, row);
      assert Statuses(projects)[..n] == Statuses(projects[..n]);
    }
  }

  lemma {:induction false} TallyMatchesList(db: Db, teams: seq<Team>, department: int, status: string)
    requires Consistent(db) && Class(status)
    ensures |Select(OnlyAdmission(department, status), BaseRows(db, teams, department))|
        == Count(TallyRows(db, teams, department), status)
  {
    if teams != [] {
      var init, last := teams[..|teams| - 1], teams[|teams| - 1];
      TallyMatchesList(db, init, department, status);
      if last.department == department && !last.deleted {
        var ps, ss := JoinProjects(db, last.id), JoinSupervisors(db, last.id);
        OneSupervisor(db.assignments, last.id);
        CrossCount(last, ps, ss, department, status);
        SelectAdds(OnlyAdmission(department, status), BaseRows(db, init, department), Cross(last, ps, ss));
        CountAdds(TallyRows(db, init, department), Statuses(ps), status);
      } else {
        assert TallyRows(db, teams, department) == TallyRows(db, init, department);
        assert BaseRows(db, teams, department) == BaseRows(db, init, department);
      }
    }
  }

  /** Each counter of the tally is the list's total under the filter for that class. */
  lemma TallyIsListTotal(db: Db, department: int, status: string)
    requires Consistent(db) && Class(status)
    ensures Count(TallyRows(db, db.teams, department), status) == |Listed(db, OnlyAdmission(department, status))|
  {
    TallyMatchesList(db, db.teams, department, status);
  }

  lemma {:induction false} ClassesCover(statuses: seq<string>)
    requires forall k | 0 <= k < |statuses| :: Class(statuses[k])
    ensures Count(statuses, ADMITTED) + Count(statuses, NOT_ADMITTED) + Count(statuses, REVISION_REQUIRED)
            + Count(statuses, NOT_DECIDED) == |statuses|
  {
    if statuses != [] {
      ClassesCover(statuses[..|statuses| - 1]);
      assert |NOT_ADMITTED| != |ADMITTED| && |NOT_ADMITTED| != |REVISION_REQUIRED| && |ADMITTED| != |REVISION_REQUIRED|;
      assert |NOT_ADMITTED| != |NOT_DECIDED| && |NOT_DECIDED| != |REVISION_REQUIRED| && |NOT_DECIDED| != |ADMITTED|;
    }
  }

  lemma {:induction false} TallyRowsAreClasses(db: Db, teams: seq<Team>, department: int)
    ensures forall k | 0 <= k < |TallyRows(db, teams, department)| :: Class(TallyRows(db, teams, department)[k])
  {
    if teams != [] {
      TallyRowsAreClasses(db, teams[..|teams| - 1], department);
    }
  }

  lemma {:induction false} ListLength(db: Db, teams: seq<Team>, department: int)
    requires Consistent(db)
    ensures |BaseRows(db, teams, department)| == |TallyRows(db, teams, department)|
  {
    if teams != [] {
      var last := teams[|teams| - 1];
      ListLength(db, teams[..|teams| - 1], department);
      OneSupervisor(db.assignments, last.id);
      CrossLength(last, JoinProjects(db, last.id), JoinSupervisors(db, last.id));
    }
  }

  lemma {:induction false} CrossLength(team: Team, projects: seq<Option<Project>>, supervisors: seq<int>)
    requires |supervisors| == 1
    ensures |Cross(team, projects, supervisors)| == |projects|
  {
    if projects != [] {
      CrossLength(team, projects[..|projects| - 1], supervisors);
    }
  }

  /** The list's totals under the four class filters sum to its unfiltered total. */
  lemma ClassTotalsSum(db: Db, department: int)
    requires Consistent(db)
    ensures |Listed(db, OnlyAdmission(department, ADMITTED))| + |Listed(db, OnlyAdmission(department, NOT_ADMITTED))|
            + |Listed(db, OnlyAdmission(department, REVISION_REQUIRED))| + |Listed(db,
                OnlyAdmission(department, NOT_DECIDED))|
         == |Listed(db, OnlyAdmission(department, ""))|
  {
    var tally := TallyRows(db, db.teams, department);
    TallyIsListTotal(db, department, ADMITTED);
    TallyIsListTotal(db, department, NOT_ADMITTED);
    TallyIsListTotal(db, department, REVISION_REQUIRED);
    TallyIsListTotal(db, department, NOT_DECIDED);
    TallyRowsAreClasses(db, db.teams, department);
    ClassesCover(tally);
    ListLength(db, db.teams, department);
    EmptyFilter(department, BaseRows(db, db.teams, department));
  }

  lemma {:induction false} EmptyFilter(department: int, rows: seq<Row>)
    ensures Select(OnlyAdmission(department, ""), rows) == rows
  {
    if rows != [] {
      EmptyFilter(department, rows[..|rows| - 1]);
      assert TrimSpace("") == "";
    }
  }
}
