/** The member sync of an administrator's team update (internal/admin/repository.go): one transaction that deletes the
    members no longer requested, never the leader, and inserts the new ones. */
module Membership {
  import opened Wrappers

  datatype Row = Row(team: int, user: int, role: string)

  /** The unique indexes: a user has one row, a team one leader. */
  ghost predicate Consistent(rows: seq<Row>)
  {
    && (forall i, j | 0 <= i < j < |rows| :: rows[i].user != rows[j].user)
    && (forall i, j | 0 <= i < j < |rows| && rows[i].team == rows[j].team
        && rows[i].role == "leader" :: rows[j].role != "leader")
  }

  /** The leader's id, or 0 without a leader row. */
  function Leader(rows: seq<Row>, team: int): int
  {
    if rows == [] then 0
    else if rows[0].team == team && rows[0].role == "leader" then rows[0].user
    else Leader(rows[1..], team)
  }

  function Users(rows: seq<Row>, team: int): set<int>
  {
    set r | r in rows && r.team == team :: r.user
  }

  /** The positive requested ids and the leader. */
  function Wanted(requested: seq<int>, leader: int): set<int>
  {
    (set id | id in requested && id > 0) + (if leader > 0 then {leader} else {})
  }

  /** DELETE of a team's rows of the given users. */
  function Drop(rows: seq<Row>, team: int, gone: set<int>): seq<Row>
  {
    if rows == [] then []
    else
      var last := rows[|rows| - 1];
      Drop(rows[..|rows| - 1], team, gone) + if last.team == team && last.user in gone then [] else [last]
  }

  /** INSERT under the foreign key on users and the unique indexes; a plain member never meets the leader index. */
  function Insert(users: set<int>, rows: seq<Row>, team: int, user: int): Option<seq<Row>>
  {
    if user in users && forall r | r in rows :: r.user != user then Some(rows + [Row(team, user, "member")]) else None
  }

  function Add(users: set<int>, rows: seq<Row>, team: int, ids: seq<int>, current: set<int>): Option<seq<Row>>
  {
    if ids == [] then Some(rows)
    else
      var id := ids[|ids| - 1];
      match Add(users, rows, team, ids[..|ids| - 1], current)
      case None => None
      case Some(before) => if id <= 0 || id in current then Some(before) else Insert(users, before, team, id)
  }

  /** The table after the sync; `None` when an insert fails and the transaction rolls back. */
  function Sync(users: set<int>, rows: seq<Row>, team: int, requested: seq<int>): Option<seq<Row>>
  {
    if requested == [] then Some(rows)
    else
      var current := Users(rows, team);
      Add(users, Drop(rows, team, current - Wanted(requested, Leader(rows, team))), team, requested, current)
  }

  // ----- The table in place -----

  /** The team's user ids, as a list and as a set. */
  method Pluck(rows: seq<Row>, team: int) returns (members: seq<int>, current: set<int>)
    ensures current == Users(rows, team)
    ensures forall id :: id in members <==> id in current
  {
    members, current := [], {};
    for i := 0 to |rows|
      invariant current == Users(rows[..i], team)
      invariant forall id :: id in members <==> id in current
    {
      assert rows[..i + 1] == rows[..i] + [rows[i]];
      if rows[i].team == team {
        members, current := members + [rows[i].user], current + {rows[i].user};
      }
    }
    assert rows[..|rows|] == rows;
  }

  method Requested(requested: seq<int>, leader: int) returns (kept: set<int>)
    ensures kept == Wanted(requested, leader)
  {
    kept := {};
    for i := 0 to |requested|
      invariant kept == set id | id in requested[..i] && id > 0
    {
      assert requested[..i + 1] == requested[..i] + [requested[i]];
      if requested[i] > 0 {
        kept := kept + {requested[i]};
      }
    }
    assert requested[..|requested|] == requested;
    if leader > 0 {
      kept := kept + {leader};
    }
  }

  class Table {
    const users: set<int>
    var rows: seq<Row>

    method SyncMembers(team: int, requested: seq<int>) returns (ok: bool)
      modifies this`rows
      ensures ok == Sync(users, old(rows), team, requested).Some?
      ensures rows == if ok then Sync(users, old(rows), team, requested).value else old(rows)
    {
      if |requested| == 0 {
        return true;
      }
      var saved, leader := rows, Leader(rows, team);
      var members, current := Pluck(rows, team);
      var kept := Requested(requested, leader);
      LeaderIsMember(rows, team);
      DeleteRemoved(team, members, leader, current, kept);
      ok := AddNew(team, requested, leader, current);
      if !ok {
        rows := saved;
      }
    }

    method DeleteRemoved(team: int, members: seq<int>, leader: int, ghost current: set<int>, kept: set<int>)
      requires forall id :: id in members <==> id in current
      requires leader > 0 ==> leader in kept
      modifies this`rows
      ensures rows == Drop(old(rows), team, current - kept)
    {
      ghost var gone := {};
      DropNone(rows, team);
      for i := 0 to |members|
        invariant gone == set id | id in members[..i] && id !in kept
        invariant rows == Drop(old(rows), team, gone)
      {
        assert members[..i + 1] == members[..i] + [members[i]];
        if members[i] !in kept && !(leader > 0 && members[i] == leader) {
          DropMore(old(rows), team, gone, members[i]);
          gone := gone + {members[i]};
          rows := Drop(rows, team, {members[i]});
        }
      }
      assert members[..|members|] == members;
      forall id
        ensures id in gone <==> id in current - kept
      {}
      assert gone == current - kept;
    }

    method AddNew(team: int, requested: seq<int>, leader: int, current: set<int>) returns (ok: bool)
      requires leader > 0 ==> leader in current
      modifies this`rows
      ensures ok == Add(users, old(rows), team, requested, current).Some?
      ensures ok ==> Some(rows) == Add(users, old(rows), team, requested, current)
    {
      for i := 0 to |requested|
        invariant Add(users, old(rows), team, requested[..i], current) == Some(rows)
      {
        assert requested[..i + 1][..i] == requested[..i];
        var id := requested[i];
        if id > 0 && !(leader > 0 && id == leader) && id !in current {
          match Insert(users, rows, team, id)
          case None =>
            AddStops(users, old(rows), team, requested, current, i + 1);
            return false;
          case Some(after) =>
            rows := after;
        }
      }
      assert requested[..|requested|] == requested;
      ok := true;
    }
  }

  lemma {:induction false} DropNone(rows: seq<Row>, team: int)
    ensures Drop(rows, team, {}) == rows
  {
    if rows != [] {
      DropNone(rows[..|rows| - 1], team);
    }
  }

  lemma {:induction false} DropMore(rows: seq<Row>, team: int, gone: set<int>, id: int)
    ensures Drop(Drop(rows, team, gone), team, {id}) == Drop(rows, team, gone + {id})
  {
    if rows != [] {
      var init, last := rows[..|rows| - 1], rows[|rows| - 1];
      DropMore(init, team, gone, id);
      if last.team != team || last.user !in gone {
        assert Drop(rows, team, gone)[..|Drop(init, team, gone)|] == Drop(init, team, gone);
      } else {
        assert Drop(rows, team, gone) == Drop(init, team, gone);
      }
    }
  }

  lemma {:induction false} LeaderIsMember(rows: seq<Row>, team: int)
    ensures Leader(rows, team) == 0 || Row(team, Leader(rows, team), "leader") in rows
  {
    if rows != [] {
      LeaderIsMember(rows[1..], team);
    }
  }

  lemma {:induction false} AddStops(users: set<int>, rows: seq<Row>, team: int, ids: seq<int>, current: set<int>,
                                    i: nat)
    requires i <= |ids| && Add(users, rows, team, ids[..i], current).None?
    ensures Add(users, rows, team, ids, current).None?
    decreases |ids|
  {
    if i == |ids| {
      assert ids[..i] == ids;
    } else {
      var init := ids[..|ids| - 1];
      assert init[..i] == ids[..i];
      AddStops(users, rows, team, init, current, i);
    }
  }

  // ----- What the sync leaves -----

  lemma {:induction false} DropKeeps(rows: seq<Row>, team: int, gone: set<int>)
    ensures forall r :: r in Drop(rows, team, gone) <==> r in rows && (r.team != team || r.user !in gone)
    ensures Consistent(rows) ==> Consistent(Drop(rows, team, gone))
  {
    if rows != [] {
      DropKeeps(rows[..|rows| - 1], team, gone);
    }
  }

  /** A requested id that gets a new row. */
  predicate Newcomer(id: int, current: set<int>) { id > 0 && id !in current }

  predicate Added(r: Row, team: int, ids: seq<int>, current: set<int>)
  {
    r.user in ids && Newcomer(r.user, current) && r == Row(team, r.user, "member")
  }

  lemma {:induction false} AddKeeps(users: set<int>, rows: seq<Row>, team: int, ids: seq<int>, current: set<int>)
    requires Add(users, rows, team, ids, current).Some?
    ensures var after := Add(users, rows, team, ids, current).value;
            && (forall r :: r in after <==> r in rows || Added(r, team, ids, current))
            && (Consistent(rows) ==> Consistent(after))
  {
    if ids != [] {
      AddKeeps(users, rows, team, ids[..|ids| - 1], current);
    }
  }

  lemma {:induction false} AddSucceeds(users: set<int>, rows: seq<Row>, team: int, ids: seq<int>, current: set<int>)
    ensures Add(users, rows, team, ids, current).Some?
       <==> forall i | 0 <= i < |ids| && Newcomer(ids[i], current) ::
              ids[i] in users && (forall r | r in rows :: r.user != ids[i]) && ids[i] !in ids[..i]
  {
    if ids != [] {
      var n := |ids| - 1;
      var init := ids[..n];
      AddSucceeds(users, rows, team, init, current);
      assert forall i | 0 <= i < n :: ids[i] == init[i] && ids[..i] == init[..i];
      if Add(users, rows, team, init, current).Some? {
        AddKeeps(users, rows, team, init, current);
        if Newcomer(ids[n], current) && ids[n] in init {
          assert Row(team, ids[n], "member") in Add(users, rows, team, init, current).value;
        }
      }
    }
  }

  /** The sync succeeds exactly when every requested id that is not yet a member is a known user, belongs to no other
      team and is not requested twice. */
  lemma SyncSucceedsExactly(users: set<int>, rows: seq<Row>, team: int, requested: seq<int>)
    ensures Sync(users, rows, team, requested).Some?
       <==> forall i | 0 <= i < |requested| && Newcomer(requested[i], Users(rows, team)) ::
              && requested[i] in users
              && (forall r | r in rows && r.team != team :: r.user != requested[i])
              && requested[i] !in requested[..i]
  {
    var current := Users(rows, team);
    var gone := current - Wanted(requested, Leader(rows, team));
    var base := Drop(rows, team, gone);
    DropKeeps(rows, team, gone);
    AddSucceeds(users, base, team, requested, current);
    forall id | Newcomer(id, current)
      ensures (forall r | r in base :: r.user != id) <==> (forall r | r in rows && r.team != team :: r.user != id)
    {
      assert forall r | r in base && r.team == team :: r.user in current;
    }
  }

  /** A row of the table after a successful sync. */
  predicate Expected(r: Row, rows: seq<Row>, team: int, requested: seq<int>)
  {
    || (r in rows && (r.team != team || r.user in Wanted(requested, Leader(rows, team))))
    || Added(r, team, requested, Users(rows, team))
  }

  lemma SyncedRows(users: set<int>, rows: seq<Row>, team: int, requested: seq<int>)
    requires requested != [] && Sync(users, rows, team, requested).Some?
    ensures var after := Sync(users, rows, team, requested).value;
            && (forall r {:trigger r in after} :: r in after <==> Expected(r, rows, team, requested))
            && (Consistent(rows) ==> Consistent(after))
  {
    var current := Users(rows, team);
    var gone := current - Wanted(requested, Leader(rows, team));
    DropKeeps(rows, team, gone);
    AddKeeps(users, Drop(rows, team, gone), team, requested, current);
    forall r: Row | r in rows && r.team == team
      ensures r.user in gone <==> r.user !in Wanted(requested, Leader(rows, team))
    {
      assert r.user in current;
    }
  }

  lemma SyncedUsers(rows: seq<Row>, team: int, requested: seq<int>, after: seq<Row>, id: int)
    requires forall r {:trigger r in after} :: r in after <==> Expected(r, rows, team, requested)
    ensures id in Users(after, team) <==> id in Wanted(requested, Leader(rows, team))
  {
    LeaderIsMember(rows, team);
    if id in Wanted(requested, Leader(rows, team)) {
      if id in Users(rows, team) {
        var r :| r in rows && r.team == team && r.user == id;
        assert r in after;
      } else {
        assert Row(team, id, "member") in after;
      }
    }
  }

  /** After a successful sync a team's members are the positive requested ids and its leader: rows that stay are
      unchanged, new rows are plain members, other teams keep their rows, and the unique indexes hold. */
  lemma SyncedMembers(users: set<int>, rows: seq<Row>, team: int, requested: seq<int>)
    requires requested != [] && Sync(users, rows, team, requested).Some?
    ensures var after, wanted := Sync(users, rows, team, requested).value, Wanted(requested, Leader(rows, team));
            && Users(after, team) == wanted
            && (forall r: Row | r.team != team :: r in after <==> r in rows)
            && (forall r | r in rows && r.team == team :: r in after <==> r.user in wanted)
            && (forall r | r in after && r !in rows :: r == Row(team, r.user, "member") && r.user !in Users(rows, team))
            && (Leader(rows, team) > 0 ==> Row(team, Leader(rows, team), "leader") in after)
            && (Consistent(rows) ==> Consistent(after))
  {
    var after := Sync(users, rows, team, requested).value;
    SyncedRows(users, rows, team, requested);
    LeaderIsMember(rows, team);
    forall id
      ensures id in Users(after, team) <==> id in Wanted(requested, Leader(rows, team))
    {
      SyncedUsers(rows, team, requested, after, id);
    }
    forall r | r in rows && r.team == team
      ensures r.user in Users(rows, team)
    {}
  }

  /** Repeating a successful sync succeeds and changes nothing. */
  lemma SyncTwice(users: set<int>, rows: seq<Row>, team: int, requested: seq<int>)
    requires Consistent(rows) && Sync(users, rows, team, requested).Some?
    ensures var after := Sync(users, rows, team, requested).value;
            Sync(users, after, team, requested) == Some(after)
  {
    if requested != [] {
      SyncedMembers(users, rows, team, requested);
      var after, leader := Sync(users, rows, team, requested).value, Leader(rows, team);
      var wanted := Wanted(requested, leader);
      var again := Wanted(requested, Leader(after, team));
      LeaderIsMember(after, team);
      LeaderIsMember(rows, team);
      assert Leader(after, team) > 0 ==> Leader(after, team) in wanted;
      if leader > 0 {
        OneLeader(after, team, leader);
      }
      forall id
        ensures id in wanted ==> id in again
      {}
      assert Users(after, team) - again == {};
      DropNone(after, team);
      AddNothing(users, after, team, requested, Users(after, team));
    }
  }

  lemma {:induction false} OneLeader(rows: seq<Row>, team: int, leader: int)
    requires Consistent(rows) && Row(team, leader, "leader") in rows
    ensures Leader(rows, team) == leader
  {
    if rows[0].team == team && rows[0].role == "leader" {
      assert rows[0] == Row(team, leader, "leader");
    } else {
      OneLeader(rows[1..], team, leader);
    }
  }

  lemma {:induction false} AddNothing(users: set<int>, rows: seq<Row>, team: int, ids: seq<int>, current: set<int>)
    requires forall i | 0 <= i < |ids| :: !Newcomer(ids[i], current)
    ensures Add(users, rows, team, ids, current) == Some(rows)
  {
    if ids != [] {
      AddNothing(users, rows, team, ids[..|ids| - 1], current);
    }
  }
}
