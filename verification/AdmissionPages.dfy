/** The pages of the department progress list (internal/admin/repository_department_progress.go). Each page is its own
    query, so each sorts the rows afresh. `rank` is the sort column, `None` for NULL. */
module AdmissionPages {
  import opened Wrappers
  import opened Admission

  /** ORDER BY the column in the direction asked, NULLS LAST, team_id ASC. */
  predicate Before(rank: Row -> Option<int>, ascending: bool, a: Row, b: Row)
  {
    var x, y := rank(a), rank(b);
    if x == y then a.team < b.team
    else if x.None? then false
    else if y.None? then true
    else if ascending then x.value < y.value else x.value > y.value
  }

  ghost predicate Sorted(rank: Row -> Option<int>, ascending: bool, rows: seq<Row>)
  {
    forall i, j | 0 <= i < j < |rows| :: !Before(rank, ascending, rows[j], rows[i])
  }

  ghost predicate SortOf(rank: Row -> Option<int>, ascending: bool, rows: seq<Row>, sorted: seq<Row>)
  {
    multiset(sorted) == multiset(rows) && Sorted(rank, ascending, sorted)
  }

  function Min(a: nat, b: nat): nat { if a < b then a else b }

  /** LIMIT and OFFSET. */
  function Window(rows: seq<Row>, offset: nat, limit: nat): seq<Row>
  {
    rows[Min(offset, |rows|)..Min(offset + limit, |rows|)]
  }

  /** int((page - 1) * pageSize), multiplied as int32. */
  function Offset(page: int, pageSize: int): int { Int32((page - 1) * pageSize) }

  /** What the query for one page may return: a window of any sorted arrangement of the matching rows. */
  ghost predicate Answers(rank: Row -> Option<int>, ascending: bool, rows: seq<Row>, page: int, pageSize: nat,
                          answer: seq<Row>)
  {
    && Offset(page, pageSize) >= 0
    && exists sorted {:trigger SortOf(rank, ascending, rows, sorted)} ::
         SortOf(rank, ascending, rows, sorted) && answer == Window(sorted, Offset(page, pageSize), pageSize)
  }

  function Flatten(pages: seq<seq<Row>>): seq<Row>
  {
    if pages == [] then [] else Flatten(pages[..|pages| - 1]) + pages[|pages| - 1]
  }

  ghost predicate OneRowPerTeam(rows: seq<Row>)
  {
    forall i, j | 0 <= i < j < |rows| :: rows[i].team != rows[j].team
  }

  // ----- One row per team -----

  lemma {:induction false} OneProject(projects: seq<Project>, team: int)
    requires forall i, j | 0 <= i < j < |projects| && projects[i].team.Some? :: projects[i].team != projects[j].team
    ensures |ProjectsOf(projects, team)| <= 1
    ensures ProjectsOf(projects, team) != [] ==> exists i | 0 <= i < |projects| :: projects[i].team == Some(team)
  {
    if projects != [] {
      OneProject(projects[..|projects| - 1], team);
    }
  }

  lemma {:induction false} RowsHaveTeams(db: Db, teams: seq<Team>, department: int, k: nat)
    requires Consistent(db) && k < |BaseRows(db, teams, department)|
    ensures exists i | 0 <= i < |teams| :: teams[i].id == BaseRows(db, teams, department)[k].team
  {
    var init, last := teams[..|teams| - 1], teams[|teams| - 1];
    if k < |BaseRows(db, init, department)| {
      RowsHaveTeams(db, init, department, k);
      var i :| 0 <= i < |init| && init[i].id == BaseRows(db, init, department)[k].team;
      assert teams[i].id == BaseRows(db, teams, department)[k].team;
    } else {
      OneRow(db, last);
      assert teams[|teams| - 1].id == BaseRows(db, teams, department)[k].team;
    }
  }

  lemma OneRow(db: Db, team: Team)
    requires Consistent(db)
    ensures var rows := Cross(team, JoinProjects(db, team.id), JoinSupervisors(db, team.id));
            |rows| == 1 && rows[0].team == team.id
  {
    var ps, ss := JoinProjects(db, team.id), JoinSupervisors(db, team.id);
    OneProject(db.projects, team.id);
    OneSupervisor(db.assignments, team.id);
    assert Cross(team, ps, ss) == Cross(team, [], ss) + WithSupervisors(team, ps[0], ss);
  }

  lemma {:induction false} BaseRowsOnePerTeam(db: Db, teams: seq<Team>, department: int)
    requires Consistent(db) && forall i, j | 0 <= i < j < |teams| :: teams[i].id != teams[j].id
    ensures OneRowPerTeam(BaseRows(db, teams, department))
  {
    if teams != [] {
      var init, last := teams[..|teams| - 1], teams[|teams| - 1];
      BaseRowsOnePerTeam(db, init, department);
      OneRow(db, last);
      forall k | 0 <= k < |BaseRows(db, init, department)|
        ensures BaseRows(db, init, department)[k].team != last.id
      {
        RowsHaveTeams(db, init, department, k);
      }
    }
  }

  lemma {:induction false} SelectIsSubset(f: Filter, rows: seq<Row>)
    ensures forall r :: r in Select(f, rows) <==> r in rows && Matches(f, r)
    ensures OneRowPerTeam(rows) ==> OneRowPerTeam(Select(f, rows))
  {
    if rows != [] {
      var init := rows[..|rows| - 1];
      SelectIsSubset(f, init);
      assert rows == init + [rows[|rows| - 1]];
      if OneRowPerTeam(rows) {
        forall i | 0 <= i < |Select(f, init)|
          ensures Select(f, init)[i].team != rows[|rows| - 1].team
        {
          assert Select(f, init)[i] in init;
        }
      }
    }
  }

  lemma ListedOnePerTeam(db: Db, f: Filter)
    requires Consistent(db)
    ensures OneRowPerTeam(Listed(db, f))
  {
    BaseRowsOnePerTeam(db, db.teams, f.department);
    SelectIsSubset(f, BaseRows(db, db.teams, f.department));
  }

  // ----- Pages -----

  lemma FirstsAgree(rank: Row -> Option<int>, ascending: bool, s: seq<Row>, t: seq<Row>)
    requires s != [] && t != [] && s[0] in t && t[0] in s && OneRowPerTeam(s)
    requires Sorted(rank, ascending, s) && Sorted(rank, ascending, t)
    ensures s[0] == t[0]
  {
  }

  lemma {:induction false} SortIsUnique(rank: Row -> Option<int>, ascending: bool, s: seq<Row>, t: seq<Row>)
    requires multiset(s) == multiset(t) && OneRowPerTeam(s)
    requires Sorted(rank, ascending, s) && Sorted(rank, ascending, t)
    ensures s == t
  {
    assert |s| == |multiset(s)| == |multiset(t)| == |t|;
    if s != [] {
      assert s[0] in multiset(t) && t[0] in multiset(s);
      FirstsAgree(rank, ascending, s, t);
      TailsAgree(s, t);
      SortIsUnique(rank, ascending, s[1..], t[1..]);
      assert s == [s[0]] + s[1..] && t == [t[0]] + t[1..];
    }
  }

  lemma TailsAgree(s: seq<Row>, t: seq<Row>)
    requires s != [] && t != [] && multiset(s) == multiset(t) && s[0] == t[0]
    ensures multiset(s[1..]) == multiset(t[1..])
  {
    assert s == [s[0]] + s[1..] && t == [t[0]] + t[1..];
    assert multiset(s[1..]) == multiset(s) - multiset{s[0]};
    assert multiset(t[1..]) == multiset(t) - multiset{t[0]};
  }

  lemma OneRowPerTeamIsOrderFree(s: seq<Row>, t: seq<Row>)
    requires multiset(s) == multiset(t) && OneRowPerTeam(s)
    ensures OneRowPerTeam(t)
  {
    forall i, j | 0 <= i < j < |t|
      ensures t[i].team != t[j].team
    {
      assert t[i] in multiset(s) && t[j] in multiset(s);
      if t[i] == t[j] {
        TwiceInMultiset(t, i, j);
        OnceInMultiset(s, t[i]);
      }
    }
  }

  lemma TwiceInMultiset(t: seq<Row>, i: nat, j: nat)
    requires i < j < |t| && t[i] == t[j]
    ensures multiset(t)[t[i]] >= 2
  {
    assert t == t[..j] + t[j..];
    assert t[i] in multiset(t[..j]) && t[j] in multiset(t[j..]) by {
      assert t[..j][i] == t[i] && t[j..][0] == t[j];
    }
  }

  lemma {:induction false} OnceInMultiset(s: seq<Row>, r: Row)
    requires OneRowPerTeam(s)
    ensures multiset(s)[r] <= 1
  {
    if s != [] {
      OnceInMultiset(s[1..], r);
      assert s == [s[0]] + s[1..];
      assert s[0] !in s[1..];
    }
  }

  /** Rows before page k + 1, by counting pages. */
  function Start(k: nat, pageSize: nat): nat
  {
    if k == 0 then 0 else Start(k - 1, pageSize) + pageSize
  }

  lemma {:induction false} StartIsProduct(k: nat, pageSize: nat)
    ensures Start(k, pageSize) == k * pageSize
  {
    if k > 0 {
      StartIsProduct(k - 1, pageSize);
    }
  }

  lemma OffsetFits(k: nat, pageSize: nat)
    requires Start(k, pageSize) <= MAX_INT32
    ensures Offset(k + 1, pageSize) == Start(k, pageSize)
  {
    StartIsProduct(k, pageSize);
  }

  lemma AnswerIsWindow(rank: Row -> Option<int>, ascending: bool, rows: seq<Row>, sorted: seq<Row>, k: nat,
                       pageSize: nat, answer: seq<Row>)
    requires OneRowPerTeam(rows) && SortOf(rank, ascending, rows, sorted)
    requires Start(k, pageSize) <= MAX_INT32 && Answers(rank, ascending, rows, k + 1, pageSize, answer)
    ensures answer == Window(sorted, Start(k, pageSize), pageSize)
  {
    OffsetFits(k, pageSize);
    var own :| SortOf(rank, ascending, rows, own) && answer == Window(own, Offset(k + 1, pageSize), pageSize);
    OneRowPerTeamIsOrderFree(rows, own);
    SortIsUnique(rank, ascending, own, sorted);
  }

  lemma WindowExtends(sorted: seq<Row>, offset: nat, limit: nat)
    ensures sorted[..Min(offset, |sorted|)] + Window(sorted, offset, limit) == sorted[..Min(offset + limit, |sorted|)]
  {}

  lemma {:induction false} WindowsAreAPrefix(sorted: seq<Row>, pageSize: nat, pages: seq<seq<Row>>)
    requires forall k | 0 <= k < |pages| :: pages[k] == Window(sorted, Start(k, pageSize), pageSize)
    ensures Flatten(pages) == sorted[..Min(Start(|pages|, pageSize), |sorted|)]
    decreases pages
  {
    if pages == [] {
      assert sorted[..0] == [];
    } else {
      var k := |pages| - 1;
      forall j | 0 <= j < k
        ensures pages[..k][j] == Window(sorted, Start(j, pageSize), pageSize)
      {
      }
      WindowsAreAPrefix(sorted, pageSize, pages[..k]);
      WindowExtends(sorted, Start(k, pageSize), pageSize);
      assert Start(|pages|, pageSize) == Start(k, pageSize) + pageSize;
      assert Flatten(pages) == Flatten(pages[..k]) + pages[k];
    }
  }

  /** Pages that reach the list's total, each answered by its own query, together hold every matching row exactly once,
      in the order asked for, and no team twice. */
  lemma PagesPartition(db: Db, f: Filter, rank: Row -> Option<int>, ascending: bool, sorted: seq<Row>, pageSize: nat,
                       pages: seq<seq<Row>>)
    requires Consistent(db) && SortOf(rank, ascending, Listed(db, f), sorted)
    requires Start(|pages|, pageSize) >= |Listed(db, f)|
    requires forall k {:trigger pages[k]} | 0 <= k < |pages| ::
               Start(k, pageSize) <= MAX_INT32 && Answers(rank, ascending, Listed(db, f), k + 1, pageSize, pages[k])
    ensures Flatten(pages) == sorted
    ensures forall r :: r in Flatten(pages) <==> r in BaseRows(db, db.teams, f.department) && Matches(f, r)
    ensures OneRowPerTeam(Flatten(pages))
  {
    var rows := Listed(db, f);
    ListedOnePerTeam(db, f);
    forall k | 0 <= k < |pages|
      ensures pages[k] == Window(sorted, Start(k, pageSize), pageSize)
    {
      var page := pages[k];
      AnswerIsWindow(rank, ascending, rows, sorted, k, pageSize, page);
    }
    WindowsAreAPrefix(sorted, pageSize, pages);
    OneRowPerTeamIsOrderFree(rows, sorted);
    SameElements(rows, sorted);
    SelectIsSubset(f, BaseRows(db, db.teams, f.department));
  }

  lemma SameElements(rows: seq<Row>, sorted: seq<Row>)
    requires multiset(rows) == multiset(sorted)
    ensures |rows| == |sorted| && forall r :: r in sorted <==> r in rows
  {
    assert |sorted| == |multiset(sorted)| == |multiset(rows)| == |rows|;
    forall r
      ensures r in sorted <==> r in rows
    {
      assert r in sorted <==> r in multiset(sorted);
      assert r in rows <==> r in multiset(rows);
    }
  }

  /** With two rows for one team the pages may repeat one row and lose the other. */
  lemma TiedRowsCanRepeat(rank: Row -> Option<int>, ascending: bool, a: Row, b: Row)
    requires a != b && a.team == b.team && rank(a) == rank(b)
    ensures Answers(rank, ascending, [a, b], 1, 1, [a]) && Answers(rank, ascending, [a, b], 2, 1, [a])
  {
    assert SortOf(rank, ascending, [a, b], [a, b]);
    assert SortOf(rank, ascending, [a, b], [b, a]);
  }
}
