// The friend relation over whole runs, and what ADD_FRIEND, DEL_FRIEND and the list query make of it.
module FriendGraph {
  import opened ChatTypes
  import opened Tables
  import opened Sessions
  import opened Handlers
  import opened ServerModel
  import opened Effects
  import opened Invariants
  import opened MessageTable
  import opened Delivery

  // The constraints of the table, and nobody is their own friend.
  ghost predicate GraphOk(db: Db) {
    FriendsOk(db) && forall e :: e in db.friends ==> e.user1 != e.user2
  }

  lemma {:induction false} DeleteEdgeIs(friends: seq<Edge>, e: Edge)
    ensures forall x :: x in DeleteEdge(friends, e) <==> x in friends && x != e
    ensures (forall i, j :: 0 <= i < j < |friends| ==> friends[i] != friends[j]) ==>
            forall i, j :: 0 <= i < j < |DeleteEdge(friends, e)| ==>
              DeleteEdge(friends, e)[i] != DeleteEdge(friends, e)[j]
  {
    if friends != [] {
      var before := friends[..|friends| - 1];
      var last := friends[|friends| - 1];
      DeleteEdgeIs(before, e);
      assert friends == before + [last];
      var kept := DeleteEdge(before, e);
      if forall i, j :: 0 <= i < j < |friends| ==> friends[i] != friends[j] {
        forall i | 0 <= i < |kept| ensures kept[i] != last {
          assert kept[i] in before;
        }
      }
    }
  }

  lemma AddKeepsGraph(db: Db, r: Request)
    requires GraphOk(db) && UniqueNames(db.users)
    ensures GraphOk(HandleAddFriend(db, r).0)
  {
  }

  lemma HandleKeepsGraph(w: World, cache: Cache, socket: int, r: Request, now: int, env: Env)
    requires GraphOk(w.db) && UniqueNames(w.db.users)
    ensures GraphOk(Handle(w, cache, socket, r, now, env).0.db)
  {
    match r.kind
    case Login =>
      if LoginCode(w.db, r, env) == 0 {
        LoginEffect(w, socket, r, now, env);
        PushOfflineEffect(HandleLogin(w, socket, r, now, env).0, r.username, env);
      }
    case SendMsg => SendEffect(w, r, now, env);
    case AddFriend => AddKeepsGraph(w.db, r);
    case DelFriend =>
      var a := FindUser(w.db.users, r.username);
      var b := FindUser(w.db.users, FriendTarget(r));
      if a.Some? && b.Some? { DeleteEdgeIs(w.db.friends, Edge(a.value, b.value)); }
    case _ =>
  }

  lemma StepKeepsGraph(s: Server, step: Step, env: Env)
    requires Always(s) && GraphOk(s.w.db) && Enabled(s, step)
    ensures GraphOk(Next(s, step, env).w.db)
  {
    match step
    case Receive(socket, r) =>
      var w0 := Heard(s.w, socket, r, s.now);
      HandleKeepsGraph(w0, s.cache, socket, Effective(w0.table, socket, r), s.now, env);
    case _ => NonRequestMessages(s, step, env);
  }

  // Over every run the table has no duplicate edge, no dangling edge and no self-loop.
  lemma {:induction false} GraphOverRuns(s: Server, steps: seq<Step>, env: Env)
    requires Always(s) && GraphOk(s.w.db) && ValidRun(s, steps, env)
    ensures GraphOk(Exec(s, steps, env).w.db)
  {
    if steps != [] {
      var before := steps[..|steps| - 1];
      GraphOverRuns(s, before, env);
      RunsKeepAll(s, before, env);
      StepKeepsGraph(Exec(s, before, env), steps[|steps| - 1], env);
    }
  }

  // ---- the list query ----

  ghost function Listed(rows: seq<FriendRow>, name: string): nat {
    if rows == [] then 0
    else Listed(rows[..|rows| - 1], name) + if rows[|rows| - 1].username == name then 1 else 0
  }

  lemma {:induction false} ListedAppend(a: seq<FriendRow>, b: seq<FriendRow>, name: string)
    ensures Listed(a + b, name) == Listed(a, name) + Listed(b, name)
  {
    if b == [] {
      assert a + b == a;
    } else {
      assert (a + b)[..|a + b| - 1] == a + b[..|b| - 1];
      ListedAppend(a, b[..|b| - 1], name);
    }
  }

  ghost function EdgeCount(friends: seq<Edge>, a: UserId, b: UserId): nat {
    (if Edge(a, b) in friends then 1 else 0) + (if Edge(b, a) in friends then 1 else 0)
  }

  lemma EdgeListed(users: seq<User>, e: Edge, a: UserId, b: UserId)
    requires UniqueNames(users) && b < |users| && a != b
    ensures Listed(EdgeRow(users, e, a), users[b].username) == if e == Edge(a, b) || e == Edge(b, a) then 1 else 0
  {
    var row := EdgeRow(users, e, a);
    if row != [] {
      assert row[..0] == [];
      var other := OtherEnd(e, a).value;
      assert users[other].username == users[b].username <==> other == b;
    }
  }

  lemma EdgeCountAppend(friends: seq<Edge>, e: Edge, a: UserId, b: UserId)
    requires e !in friends && a != b
    ensures EdgeCount(friends + [e], a, b) ==
            EdgeCount(friends, a, b) + if e == Edge(a, b) || e == Edge(b, a) then 1 else 0
  {
  }

  // The friend list of `a` names `b` once per directed edge between them, in either direction.
  lemma {:induction false} ListCountsEdges(users: seq<User>, friends: seq<Edge>, a: UserId, b: UserId)
    requires UniqueNames(users) && b < |users| && a != b
    requires forall i, j :: 0 <= i < j < |friends| ==> friends[i] != friends[j]
    ensures Listed(FriendRows(users, friends, a), users[b].username) == EdgeCount(friends, a, b)
  {
    if friends != [] {
      var before := friends[..|friends| - 1];
      var last := friends[|friends| - 1];
      ListCountsEdges(users, before, a, b);
      ListedAppend(FriendRows(users, before, a), EdgeRow(users, last, a), users[b].username);
      EdgeListed(users, last, a, b);
      assert last !in before;
      EdgeCountAppend(before, last, a, b);
      assert friends == before + [last];
    }
  }

  // So the list is symmetric, with a count of 0, 1 or 2.
  lemma ListIsSymmetric(db: Db, a: UserId, b: UserId)
    requires GraphOk(db) && UniqueNames(db.users) && a < |db.users| && b < |db.users| && a != b
    ensures Listed(FriendRows(db.users, db.friends, a), db.users[b].username) ==
            Listed(FriendRows(db.users, db.friends, b), db.users[a].username) <= 2
  {
    ListCountsEdges(db.users, db.friends, a, b);
    ListCountsEdges(db.users, db.friends, b, a);
  }

  // Nobody lists themselves, and every row shows the friend's current presence flag.
  lemma {:induction false} ListRowsAreUsers(users: seq<User>, friends: seq<Edge>, a: UserId)
    ensures forall row :: row in FriendRows(users, friends, a) ==>
      exists b: nat :: b < |users| && b != a && row == FriendRow(users[b].username, users[b].isOnline)
  {
    if friends != [] {
      ListRowsAreUsers(users, friends[..|friends| - 1], a);
    }
  }

  // ---- add and delete ----

  // What DEL_FRIEND is to remove, if it names two users and the first has added the second.
  function EdgeToDelete(db: Db, r: Request): Option<Edge> {
    match FindUser(db.users, r.username)
    case None => None
    case Some(a) =>
      match FindUser(db.users, FriendTarget(r))
      case None => None
      case Some(b) => if Edge(a, b) in db.friends then Some(Edge(a, b)) else None
  }

  function Refusal(db: Db, r: Request): int {
    if FriendTarget(r) == "" then 1001
    else if FindUser(db.users, r.username).None? then 2003
    else if FindUser(db.users, FriendTarget(r)).None? then 3001
    else 3004
  }

  // Deleting succeeds exactly for the user who added: seeing someone in the list is not enough, and
  // a request without a target, which then names its own user, never succeeds. On success it removes
  // that one edge and the messages of the pair in both directions, nothing else.
  lemma DeleteFriendIs(db: Db, r: Request)
    requires GraphOk(db) && UniqueNames(db.users)
    ensures var (db', code) := HandleDeleteFriend(db, r);
            && (code == 0 <==> FriendTarget(r) != "" && EdgeToDelete(db, r).Some?)
            && (code == 0 ==> r.target != "" && r.target != r.username)
            && (code != 0 ==> db' == db && code == Refusal(db, r))
            && (code == 0 ==>
                  var e := EdgeToDelete(db, r).value;
                  && db' == db.(friends := db'.friends, messages := db'.messages)
                  && (forall x :: x in db'.friends <==> x in db.friends && x != e)
                  && (forall m :: m in db'.messages <==> m in db.messages && !Between(m, e.user1, e.user2)))
  {
    if EdgeToDelete(db, r).Some? {
      var e := EdgeToDelete(db, r).value;
      DeleteEdgeIs(db.friends, e);
      DeleteBetweenIs(db.messages, e.user1, e.user2);
    }
  }

  lemma BothList(db: Db, a: UserId, b: UserId, n: nat)
    requires GraphOk(db) && UniqueNames(db.users) && a < |db.users| && b < |db.users| && a != b
    requires EdgeCount(db.friends, a, b) == n
    ensures Listed(FriendRows(db.users, db.friends, a), db.users[b].username) == n
    ensures Listed(FriendRows(db.users, db.friends, b), db.users[a].username) == n
  {
    ListCountsEdges(db.users, db.friends, a, b);
    ListIsSymmetric(db, a, b);
  }

  // A friendship is not mutual: after one ADD_FRIEND both users list each other, the added user
  // cannot delete it, and may still add the other, after which both are listed twice.
  lemma FriendshipIsDirected(db: Db, r: Request, back: Request, a: UserId, b: UserId)
    requires GraphOk(db) && UniqueNames(db.users) && a != b
    requires r.target != "" && back.username == r.target && back.target == r.username && r.username != ""
    requires FindUser(db.users, r.username) == Some(a) && FindUser(db.users, r.target) == Some(b)
    requires EdgeCount(db.friends, a, b) == 0
    ensures var (db1, code1) := HandleAddFriend(db, r);
            var (_, codeDelete) := HandleDeleteFriend(db1, back);
            var (db2, code2) := HandleAddFriend(db1, back);
            && code1 == 0 && codeDelete == 3004 && code2 == 0
            && Listed(FriendRows(db.users, db1.friends, a), r.target) == 1
            && Listed(FriendRows(db.users, db1.friends, b), r.username) == 1
            && Listed(FriendRows(db.users, db2.friends, a), r.target) == 2
            && Listed(FriendRows(db.users, db2.friends, b), r.username) == 2
  {
    var db1 := HandleAddFriend(db, r).0;
    var db2 := HandleAddFriend(db1, back).0;
    assert db1.friends == db.friends + [Edge(a, b)];
    AddKeepsGraph(db, r);
    AddKeepsGraph(db1, back);
    BothList(db1, a, b, 1);
    BothList(db2, a, b, 2);
  }
}
