// What each handler leaves unchanged and what it changes, stated once so that every invariant
// proof can use the effect instead of the handler's body.
module Effects {
  import opened ChatTypes
  import opened Tables
  import opened Sessions
  import opened Handlers
  import opened ServerModel

  // ---- names in the users table ----

  ghost function AllNames(users: seq<User>): set<string> {
    set i | 0 <= i < |users| :: users[i].username
  }

  // The presence flag, as the set of names it is raised for.
  ghost function OnlineNames(users: seq<User>): set<string> {
    set i | 0 <= i < |users| && users[i].isOnline :: users[i].username
  }

  lemma {:induction false} FindUserIsTheRow(users: seq<User>, i: nat)
    requires UniqueNames(users) && i < |users|
    ensures FindUser(users, users[i].username) == Some(i)
  {
    var r := FindUser(users, users[i].username);
    assert r.Some?;
    assert users[r.value].username == users[i].username;
  }

  lemma FindUserKnows(users: seq<User>, name: string)
    ensures FindUser(users, name).Some? <==> name in AllNames(users)
  {
  }

  // In a table with unique names, a row's flag is membership of its name among the online names.
  lemma OnlineFlag(users: seq<User>, i: nat)
    requires UniqueNames(users) && i < |users|
    ensures users[i].isOnline <==> users[i].username in OnlineNames(users)
  {
    if users[i].username in OnlineNames(users) {
      var j :| 0 <= j < |users| && users[j].isOnline && users[j].username == users[i].username;
      assert i == j;
    }
  }

  lemma SetOnlineNames(users: seq<User>, id: UserId)
    requires UniqueNames(users) && id < |users|
    ensures UniqueNames(SetOnline(users, id, true))
    ensures AllNames(SetOnline(users, id, true)) == AllNames(users)
    ensures OnlineNames(SetOnline(users, id, true)) == OnlineNames(users) + {users[id].username}
  {
    var r := SetOnline(users, id, true);
    forall i | 0 <= i < |users| ensures r[i].username == users[i].username {}
    SameNames(users, r);
    forall n | n in OnlineNames(users) + {users[id].username} ensures n in OnlineNames(r) {
      if n == users[id].username {
        assert r[id].isOnline && r[id].username == n;
      } else {
        var i :| 0 <= i < |users| && users[i].isOnline && users[i].username == n;
        assert r[i].isOnline && r[i].username == n;
      }
    }
    forall n | n in OnlineNames(r) ensures n in OnlineNames(users) + {users[id].username} {
      var i :| 0 <= i < |r| && r[i].isOnline && r[i].username == n;
      assert i == id || users[i].isOnline;
    }
  }

  lemma SetOfflineNames(users: seq<User>, name: string)
    requires UniqueNames(users)
    ensures UniqueNames(SetOnlineByName(users, name, false))
    ensures AllNames(SetOnlineByName(users, name, false)) == AllNames(users)
    ensures OnlineNames(SetOnlineByName(users, name, false)) == OnlineNames(users) - {name}
  {
    var r := SetOnlineByName(users, name, false);
    SameNames(users, r);
    forall n | n in OnlineNames(users) - {name} ensures n in OnlineNames(r) {
      var i :| 0 <= i < |users| && users[i].isOnline && users[i].username == n;
      assert r[i].isOnline && r[i].username == n;
    }
    forall n | n in OnlineNames(r) ensures n in OnlineNames(users) - {name} {
      var i :| 0 <= i < |r| && r[i].isOnline && r[i].username == n;
      assert users[i].isOnline && users[i].username == n;
    }
  }

  lemma SameNames(users: seq<User>, r: seq<User>)
    requires |r| == |users| && forall i :: 0 <= i < |users| ==> r[i].username == users[i].username
    ensures AllNames(r) == AllNames(users)
  {
    forall n | n in AllNames(users) ensures n in AllNames(r) {
      var i :| 0 <= i < |users| && users[i].username == n;
      assert r[i].username == n;
    }
    forall n | n in AllNames(r) ensures n in AllNames(users) {
      var i :| 0 <= i < |r| && r[i].username == n;
      assert users[i].username == n;
    }
  }

  lemma RegisterNames(users: seq<User>, u: User)
    requires UniqueNames(users) && FindUser(users, u.username).None? && !u.isOnline
    ensures UniqueNames(users + [u])
    ensures AllNames(users + [u]) == AllNames(users) + {u.username}
    ensures OnlineNames(users + [u]) == OnlineNames(users)
  {
    var r := users + [u];
    forall n | n in AllNames(users) + {u.username} ensures n in AllNames(r) {
      if n == u.username {
        assert r[|users|].username == n;
      } else {
        var i :| 0 <= i < |users| && users[i].username == n;
        assert r[i].username == n;
      }
    }
    forall n | n in OnlineNames(users) ensures n in OnlineNames(r) {
      var i :| 0 <= i < |users| && users[i].isOnline && users[i].username == n;
      assert r[i].isOnline && r[i].username == n;
    }
  }

  // A registered account, and no other account, accepts exactly the passwords with its hash; every
  // other login answers as before.
  lemma RegisterThenLogin(db: Db, r: Request, env: Env, login: Request)
    requires UniqueNames(db.users) && HandleRegister(db, r, env).1 == 0
    ensures var db' := HandleRegister(db, r, env).0;
            && FindUser(db.users, r.username).None? && UniqueNames(db'.users)
            && (login.username == r.username ==>
                  LoginCode(db', login, env) == if env.hash(login.password) == env.hash(r.password) then 0 else 2004)
            && (login.username != r.username ==> LoginCode(db', login, env) == LoginCode(db, login, env))
  {
    var u := User(r.username, env.hash(r.password), false);
    RegisterNames(db.users, u);
    assert (db.users + [u])[..|db.users|] == db.users;
  }

  // ---- sends ----

  // Sends are only ever added.
  ghost predicate Grew(log: seq<Sent>, log': seq<Sent>) { |log| <= |log'| && log'[..|log|] == log }

  lemma GrewTransitive(a: seq<Sent>, b: seq<Sent>, c: seq<Sent>)
    requires Grew(a, b) && Grew(b, c)
    ensures Grew(a, c)
    ensures forall k :: |a| <= k < |b| ==> c[k] == b[k]
  {
    assert c[..|a|] == c[..|b|][..|a|];
    forall k | |a| <= k < |b| ensures c[k] == b[k] { assert c[k] == c[..|b|][k]; }
  }

  // The log grew, but not by a forwarded message.
  ghost predicate QuietGrowth(log: seq<Sent>, log': seq<Sent>) {
    Grew(log, log') && forall k :: |log| <= k < |log'| ==> !log'[k].payload.ForwardMsg?
  }

  // Same tables, same sockets; only notices were sent.
  ghost predicate OnlyNotices(w: World, w': World) {
    w'.table == w.table && w'.db == w.db && w'.net.open == w.net.open && w'.net.shut == w.net.shut &&
    QuietGrowth(w.net.log, w'.net.log)
  }

  lemma {:induction false} NotifyRowsEffect(w: World, rows: seq<FriendRow>, payload: Payload, env: Env)
    requires !payload.ForwardMsg?
    ensures OnlyNotices(w, NotifyRows(w, rows, payload, env))
    decreases |rows|
  {
    if rows != [] {
      NotifyRowsEffect(NotifyRow(w, rows[0], payload, env), rows[1..], payload, env);
    }
  }

  lemma NotifyFoundEffect(w: World, user: Option<UserId>, name: string, online: bool, env: Env)
    ensures OnlyNotices(w, NotifyFound(w, user, name, online, env))
  {
    match user
    case None =>
    case Some(id) =>
      NotifyRowsEffect(w, FriendRows(w.db.users, w.db.friends, id), StatusNotify(name, online), env);
  }

  lemma NotifyFriendsEffect(w: World, name: string, online: bool, env: Env)
    ensures OnlyNotices(w, NotifyFriends(w, name, online, env))
  {
    NotifyFoundEffect(w, FindUser(w.db.users, name), name, online, env);
  }

  // ---- login ----

  // The session table and the shut sockets after a successful login.
  function LoginTable(t: SessionTable, wasOnline: bool, socket: int, name: string, now: int): SessionTable {
    var t1 := if wasOnline && SocketOf(t, name).Some? then SetUsername(t, SocketOf(t, name).value, "") else t;
    BindLogin(t1, socket, name, now)
  }

  function LoginShut(w: World, wasOnline: bool, name: string): set<int> {
    if wasOnline && SocketOf(w.table, name).Some? && SocketOf(w.table, name).value in w.net.open
    then w.net.shut + {SocketOf(w.table, name).value} else w.net.shut
  }

  // The state in which a login notifies: flag up, older session kicked, session bound.
  lemma EnterLoginEffect(w: World, id: UserId, socket: int, name: string, now: int, env: Env)
    requires id < |w.db.users|
    ensures var w' := EnterLogin(w, id, socket, name, now, env);
            var wasOnline := w.db.users[id].isOnline;
            && w'.db == w.db.(users := SetOnline(w.db.users, id, true))
            && w'.table == LoginTable(w.table, wasOnline, socket, name, now)
            && w'.net.open == w.net.open && w'.net.shut == LoginShut(w, wasOnline, name)
            && Grew(w.net.log, w'.net.log)
            && forall k :: |w.net.log| <= k < |w'.net.log| ==> w'.net.log[k].payload.Kicked?
  {
    assert SetOnline(SetOnline(w.db.users, id, false), id, true) == SetOnline(w.db.users, id, true);
  }

  lemma LoginEffect(w: World, socket: int, r: Request, now: int, env: Env)
    requires LoginCode(w.db, r, env) == 0
    ensures var w' := HandleLogin(w, socket, r, now, env).0;
            var id := FindUser(w.db.users, r.username).value;
            var wasOnline := w.db.users[id].isOnline;
            && HandleLogin(w, socket, r, now, env).1 == 0
            && w'.db == w.db.(users := SetOnline(w.db.users, id, true))
            && w'.table == LoginTable(w.table, wasOnline, socket, r.username, now)
            && w'.net.open == w.net.open
            && w'.net.shut == LoginShut(w, wasOnline, r.username)
            && QuietGrowth(w.net.log, w'.net.log)
  {
    var id := FindUser(w.db.users, r.username).value;
    EnterLoginEffect(w, id, socket, r.username, now, env);
    NotifyFriendsEffect(EnterLogin(w, id, socket, r.username, now, env), r.username, true, env);
  }

  // ---- messages ----

  // The same rows in the same order, some of them newly read.
  ghost predicate MoreRead(a: seq<Message>, b: seq<Message>) {
    |a| == |b| && forall i :: 0 <= i < |a| ==> b[i] == a[i] || b[i] == a[i].(isRead := true)
  }

  // Nothing but the read flags and the log changed.
  ghost predicate OnlyReads(w: World, w': World) {
    && w'.table == w.table
    && w'.db == w.db.(messages := w'.db.messages) && MoreRead(w.db.messages, w'.db.messages)
    && w'.net.open == w.net.open && w'.net.shut == w.net.shut
    && Grew(w.net.log, w'.net.log)
  }

  lemma {:induction false} PushRowsEffect(w: World, socket: int, rows: seq<Message>, env: Env)
    ensures OnlyReads(w, PushRows(w, socket, rows, env))
    decreases |rows|
  {
    if rows != [] {
      var w1 := PushRow(w, socket, rows[0], env);
      assert OnlyReads(w, w1);
      PushRowsEffect(w1, socket, rows[1..], env);
    }
  }

  lemma PushFoundEffect(w: World, user: Option<UserId>, name: string, env: Env)
    ensures OnlyReads(w, PushFound(w, user, name, env))
  {
    if user.Some? && SocketOf(w.table, name).Some? {
      PushRowsEffect(w, SocketOf(w.table, name).value, UnreadMessages(w.db, user.value), env);
    }
  }

  lemma PushOfflineEffect(w: World, name: string, env: Env)
    ensures OnlyReads(w, PushOffline(w, name, env))
  {
    PushFoundEffect(w, FindUser(w.db.users, name), name, env);
  }

  // ---- dispatch ----

  // Is this request a login that will succeed, and under which name?
  function LoginName(w: World, socket: int, r: Request, now: int, env: Env): Option<string> {
    var e := Effective(Heard(w, socket, r, now).table, socket, r);
    if r.kind.Login? && LoginCode(w.db, e, env) == 0 then Some(e.username) else None
  }

  lemma EffectiveName(t: SessionTable, socket: int, r: Request)
    ensures NameOn(t, socket) != "" ==> Effective(t, socket, r).username == NameOn(t, socket)
    ensures Effective(t, socket, r).kind == r.kind
  {
  }

  // What a successful login leaves behind, the push of offline messages included.
  lemma LoginAndPushEffect(w: World, cache: Cache, socket: int, r: Request, now: int, env: Env)
    requires UniqueNames(w.db.users) && LoginCode(w.db, r, env) == 0
    ensures var (w', cache', code) := LoginAndPush(w, cache, socket, r, now, env);
            var users := w.db.users;
            var wasOnline := r.username in OnlineNames(users);
            && code == 0
            && r.username in AllNames(users) && ValidUsername(r.username)
            && w'.net.open == w.net.open
            && UniqueNames(w'.db.users)
            && AllNames(users) == AllNames(w'.db.users)
            && w'.table == LoginTable(w.table, wasOnline, socket, r.username, now)
            && w'.net.shut == LoginShut(w, wasOnline, r.username)
            && cache'.Keys == cache.Keys + {r.username}
            && OnlineNames(w'.db.users) == OnlineNames(users) + {r.username}
  {
    var id := FindUser(w.db.users, r.username).value;
    OnlineFlag(w.db.users, id);
    SetOnlineNames(w.db.users, id);
    LoginEffect(w, socket, r, now, env);
    PushOfflineEffect(HandleLogin(w, socket, r, now, env).0, r.username, env);
    FindUserKnows(w.db.users, r.username);
    FindUserKnows(SetOnline(w.db.users, id, true), r.username);
  }

  lemma SendEffect(w: World, r: Request, now: int, env: Env)
    ensures var w' := HandleSend(w, r, now, env).0;
            && w'.table == w.table && w'.net.open == w.net.open && w'.net.shut == w.net.shut
            && w'.db.users == w.db.users && w'.db.friends == w.db.friends
  {
  }

  // A request that is not a successful login.
  lemma OtherRequestEffect(w: World, cache: Cache, socket: int, r: Request, now: int, env: Env)
    requires UniqueNames(w.db.users)
    requires r.kind.Login? ==> LoginCode(w.db, r, env) != 0
    ensures var (w', cache', code) := Handle(w, cache, socket, r, now, env);
            && w'.table == w.table && w'.net.open == w.net.open && w'.net.shut == w.net.shut
            && cache' == cache
            && UniqueNames(w'.db.users)
            && AllNames(w.db.users) <= AllNames(w'.db.users)
            && OnlineNames(w'.db.users) == OnlineNames(w.db.users)
  {
    if r.kind.Register? && HandleRegister(w.db, r, env).1 == 0 {
      RegisterNames(w.db.users, User(r.username, env.hash(r.password), false));
    } else if r.kind.SendMsg? {
      SendEffect(w, r, now, env);
    }
  }

  // Everything except the messages and the log, after one request.
  lemma DispatchEffect(w: World, cache: Cache, socket: int, r: Request, now: int, env: Env)
    requires UniqueNames(w.db.users)
    ensures var (w', cache') := Dispatch(w, cache, socket, r, now, env);
            var w0 := Heard(w, socket, r, now);
            var users := w.db.users;
            && w'.net.open == w.net.open
            && UniqueNames(w'.db.users)
            && AllNames(users) <= AllNames(w'.db.users)
            && match LoginName(w, socket, r, now, env)
               case None =>
                 w'.table == w0.table && w'.net.shut == w.net.shut && cache' == cache &&
                 OnlineNames(w'.db.users) == OnlineNames(users)
               case Some(name) =>
                 name in AllNames(users) && ValidUsername(name) &&
                 w'.table == LoginTable(w0.table, name in OnlineNames(users), socket, name, now) &&
                 w'.net.shut == LoginShut(w0, name in OnlineNames(users), name) &&
                 cache'.Keys == cache.Keys + {name} &&
                 OnlineNames(w'.db.users) == OnlineNames(users) + {name}
  {
    var w0 := Heard(w, socket, r, now);
    var e := Effective(w0.table, socket, r);
    EffectiveName(w0.table, socket, r);
    if LoginName(w, socket, r, now, env).Some? {
      LoginAndPushEffect(w0, cache, socket, e, now, env);
    } else {
      OtherRequestEffect(w0, cache, socket, e, now, env);
    }
  }
}
