// The users table compares names with a collation that ignores case, the server's own maps compare
// them exactly. When the two agree, over whole runs, and what breaks when they do not.
module Collation {
  import opened ChatTypes
  import opened Tables
  import opened Sessions
  import opened Handlers
  import opened ServerModel
  import opened Effects
  import opened Index
  import opened Invariants
  import opened Delivery
  import opened FriendGraph
  import opened Presence
  import opened FoldedServer

  // ---- one lookup ----

  // The account under `name` is registered in this very spelling, if at all.
  ghost predicate Canonical(users: seq<User>, c: Folding, name: string) {
    forall i :: 0 <= i < |users| && c.key(users[i].username) == c.key(name) ==> users[i].username == name
  }

  lemma KeyFindsTheRow(users: seq<User>, c: Folding, i: nat, name: string)
    requires UniqueKeys(users, c) && i < |users| && c.key(users[i].username) == c.key(name)
    ensures FindByKey(users, c, name) == Some(i)
  {
    var r := FindByKey(users, c, name);
    assert r.Some?;
  }

  // The exact lookup is the one the database makes if and only if the name is spelled as it was
  // registered.
  lemma KeyIsExactIff(users: seq<User>, c: Folding, name: string)
    requires UniqueKeys(users, c)
    ensures FindByKey(users, c, name) == FindUser(users, name) <==> Canonical(users, c, name)
  {
    var f := FindUser(users, name);
    if f.Some? {
      KeyFindsTheRow(users, c, f.value, name);
      forall i | 0 <= i < |users| && c.key(users[i].username) == c.key(name) ensures users[i].username == name {
        KeyFindsTheRow(users, c, i, name);
      }
    }
  }

  // A registered spelling is canonical.
  lemma KnownIsCanonical(users: seq<User>, c: Folding, name: string)
    requires UniqueKeys(users, c) && name in AllNames(users)
    ensures Canonical(users, c, name)
  {
    var i :| 0 <= i < |users| && users[i].username == name;
    forall j | 0 <= j < |users| && c.key(users[j].username) == c.key(name) ensures j == i {}
  }

  lemma SameFlags(users: seq<User>, c: Folding, name: string, online: bool)
    requires Canonical(users, c, name)
    ensures SetOnlineByKey(users, c, name, online) == SetOnlineByName(users, name, online)
  {
  }

  // Both depend on the spellings only.
  ghost predicate SameSpellings(users: seq<User>, users': seq<User>) {
    |users'| == |users| && forall i :: 0 <= i < |users| ==> users'[i].username == users[i].username
  }

  lemma SpellingsDecide(users: seq<User>, users': seq<User>, c: Folding, name: string)
    requires SameSpellings(users, users')
    ensures UniqueKeys(users, c) ==> UniqueKeys(users', c)
    ensures Canonical(users, c, name) ==> Canonical(users', c, name)
  {
  }

  // ---- one request ----

  // The names a handler looks up.
  function LookedUp(r: Request): set<string> {
    match r.kind
    case Register => {r.username}
    case Login => {r.username}
    case FriendList => {r.username}
    case SendMsg => {r.username, r.target}
    case AddFriend => {r.username, FriendTarget(r)}
    case DelFriend => {r.username, FriendTarget(r)}
    case _ => {}
  }

  ghost predicate AllCanonical(users: seq<User>, c: Folding, names: set<string>) {
    forall n :: n in names ==> Canonical(users, c, n)
  }

  lemma SameNotify(w: World, c: Folding, name: string, online: bool, env: Env)
    requires UniqueKeys(w.db.users, c) && Canonical(w.db.users, c, name)
    ensures NotifyByKey(w, c, name, online, env) == NotifyFriends(w, name, online, env)
  {
    KeyIsExactIff(w.db.users, c, name);
  }

  lemma SameLogin(w: World, c: Folding, cache: Cache, socket: int, r: Request, now: int, env: Env)
    requires UniqueKeys(w.db.users, c) && Canonical(w.db.users, c, r.username)
    ensures LoginAndPushByKey(w, c, cache, socket, r, now, env) == LoginAndPush(w, cache, socket, r, now, env)
  {
    KeyIsExactIff(w.db.users, c, r.username);
    if LoginCode(w.db, r, env) == 0 {
      var id := FindUser(w.db.users, r.username).value;
      var w1 := EnterLogin(w, id, socket, r.username, now, env);
      EnterLoginEffect(w, id, socket, r.username, now, env);
      SpellingsDecide(w.db.users, w1.db.users, c, r.username);
      SameNotify(w1, c, r.username, true, env);
      NotifyFriendsEffect(w1, r.username, true, env);
      KeyIsExactIff(w1.db.users, c, r.username);
    }
  }

  lemma SameHandle(w: World, c: Folding, cache: Cache, socket: int, r: Request, now: int, env: Env)
    requires UniqueKeys(w.db.users, c) && AllCanonical(w.db.users, c, LookedUp(r))
    ensures HandleByKey(w, c, cache, socket, r, now, env) == Handle(w, cache, socket, r, now, env)
  {
    forall n | n in LookedUp(r) ensures FindByKey(w.db.users, c, n) == FindUser(w.db.users, n) {
      KeyIsExactIff(w.db.users, c, n);
    }
    if r.kind.Login? { SameLogin(w, c, cache, socket, r, now, env); }
  }

  // ---- one step ----

  // The names a request makes the server look up, after the override of the username.
  function NamesOf(s: Server, step: Step): set<string> {
    match step
    case Receive(socket, r) => LookedUp(Effective(Heard(s.w, socket, r, s.now).table, socket, r))
    case _ => {}
  }

  lemma SameSignOff(s: Server, c: Folding, name: string, env: Env)
    requires UniqueKeys(s.w.db.users, c) && name in AllNames(s.w.db.users)
    ensures SignOffByKey(s, c, name, env) == SignOff(s, name, env)
    ensures GoOfflineByKey(s.w, c, name) == GoOffline(s.w, name)
  {
    KnownIsCanonical(s.w.db.users, c, name);
    SameFlags(s.w.db.users, c, name, false);
    var w1 := GoOffline(s.w, name);
    SpellingsDecide(s.w.db.users, w1.db.users, c, name);
    SameNotify(w1, c, name, false, env);
  }

  lemma SameSweepOne(s: Server, c: Folding, socket: int, env: Env)
    requires Always(s) && UniqueKeys(s.w.db.users, c)
    ensures SweepOneByKey(s, c, socket, env) == SweepOne(s, socket, env)
    ensures UniqueKeys(SweepOne(s, socket, env).w.db.users, c)
  {
    if socket in s.w.table.live && Expired(s.w.table.live[socket], s.now) {
      SameSignOff(s, c, s.w.table.live[socket].username, env);
      SweepOneEffect(s, socket, env);
      EndMessages(s, SweepOne(s, socket, env), socket);
      SpellingsDecide(s.w.db.users, SweepOne(s, socket, env).w.db.users, c, "");
    }
  }

  lemma {:induction false} SameSweep(s: Server, c: Folding, order: seq<int>, env: Env)
    requires Always(s) && UniqueKeys(s.w.db.users, c)
    ensures SweepByKey(s, c, order, env) == SweepAll(s, order, env)
    decreases |order|
  {
    if order != [] {
      SameSweepOne(s, c, order[0], env);
      SweepOneKeepsAll(s, order[0], env);
      SameSweep(SweepOne(s, order[0], env), c, order[1..], env);
    }
  }

  // The names on the sessions that Stop visits are registered, whatever it has done so far.
  lemma {:induction false} SameStop(s: Server, c: Folding, order: seq<int>, env: Env)
    requires UniqueNames(s.w.db.users) && KnownNames(s) && UniqueKeys(s.w.db.users, c)
    ensures StopByKey(s, c, order) == StopAll(s, order)
    decreases |order|
  {
    if order != [] {
      var s1 := StopOne(s, order[0]);
      StopOneEffect(s, order[0]);
      if order[0] in s.w.table.live && s.w.table.live[order[0]].username != "" {
        SameSignOff(s, c, s.w.table.live[order[0]].username, env);
      }
      SpellingsDecide(s.w.db.users, s1.w.db.users, c, "");
      SameStop(s1, c, order[1..], env);
    }
  }

  lemma SameEnd(s: Server, c: Folding, socket: int, env: Env)
    requires Always(s) && UniqueKeys(s.w.db.users, c)
    ensures DisconnectByKey(s, c, socket, env) == DisconnectClient(s, socket, env)
    ensures FailByKey(s, c, socket) == FailClient(s, socket)
  {
    var name := NameOn(s.w.table, socket);
    if name != "" {
      SameSignOff(s, c, name, env);
      SameSignOff(CloseTask(s, socket), c, name, env);
    }
  }

  // A step whose request uses canonical names is the same on both servers.
  lemma SameStep(s: Server, c: Folding, step: Step, env: Env)
    requires Always(s) && Enabled(s, step) && UniqueKeys(s.w.db.users, c)
    requires AllCanonical(s.w.db.users, c, NamesOf(s, step))
    ensures NextByKey(s, c, step, env) == Next(s, step, env)
  {
    match step
    case Receive(socket, r) =>
      var w0 := Heard(s.w, socket, r, s.now);
      SameHandle(w0, c, s.cache, socket, Effective(w0.table, socket, r), s.now, env);
    case Disconnect(socket) => SameEnd(s, c, socket, env);
    case Fail(socket) => SameEnd(s, c, socket, env);
    case Sweep(order) => SameSweep(s, c, order, env);
    case Stop(order) => SameStop(s.(running := false), c, order, env);
    case _ =>
  }

  // ---- whole runs ----

  lemma RegisterKeepsKeys(db: Db, c: Folding, r: Request, env: Env)
    requires UniqueKeys(db.users, c) && Canonical(db.users, c, r.username)
    ensures UniqueKeys(HandleRegister(db, r, env).0.users, c)
  {
    KeyIsExactIff(db.users, c, r.username);
  }

  lemma HandleKeepsKeys(w: World, c: Folding, cache: Cache, socket: int, r: Request, now: int, env: Env)
    requires UniqueKeys(w.db.users, c) && AllCanonical(w.db.users, c, LookedUp(r))
    ensures UniqueKeys(Handle(w, cache, socket, r, now, env).0.db.users, c)
  {
    match r.kind
    case Register => RegisterKeepsKeys(w.db, c, r, env);
    case Login =>
      if LoginCode(w.db, r, env) == 0 {
        LoginEffect(w, socket, r, now, env);
        PushOfflineEffect(HandleLogin(w, socket, r, now, env).0, r.username, env);
        SpellingsDecide(w.db.users, LoginAndPush(w, cache, socket, r, now, env).0.db.users, c, "");
      }
    case SendMsg => SendEffect(w, r, now, env);
    case _ =>
  }

  lemma StepKeepsKeys(s: Server, c: Folding, step: Step, env: Env)
    requires Always(s) && Enabled(s, step) && UniqueKeys(s.w.db.users, c)
    requires AllCanonical(s.w.db.users, c, NamesOf(s, step))
    ensures UniqueKeys(Next(s, step, env).w.db.users, c)
  {
    match step
    case Receive(socket, r) =>
      var w0 := Heard(s.w, socket, r, s.now);
      HandleKeepsKeys(w0, c, s.cache, socket, Effective(w0.table, socket, r), s.now, env);
    case _ =>
      NonRequestMessages(s, step, env);
      SpellingsDecide(s.w.db.users, Next(s, step, env).w.db.users, c, "");
  }

  // Every request of the run names accounts as they are registered when it arrives.
  ghost predicate CanonicalRequests(s: Server, c: Folding, steps: seq<Step>, env: Env) {
    forall k :: 0 <= k < |steps| ==>
      var b := ExecByKey(s, c, steps[..k], env);
      AllCanonical(b.w.db.users, c, NamesOf(b, steps[k]))
  }

  // If every request of a run uses the registered spelling of each account it names, or a name that
  // is registered under no spelling, the server on the case-insensitive table takes exactly the steps
  // of the exact one. All theorems over runs then hold for it.
  lemma {:induction false} SameRun(s: Server, c: Folding, steps: seq<Step>, env: Env)
    requires Initial(s) && UniqueKeys(s.w.db.users, c)
    requires ValidRunByKey(s, c, steps, env) && CanonicalRequests(s, c, steps, env)
    ensures ValidRun(s, steps, env) && ExecByKey(s, c, steps, env) == Exec(s, steps, env)
    ensures UniqueKeys(Exec(s, steps, env).w.db.users, c)
  {
    if steps != [] {
      var n := |steps| - 1;
      var before := steps[..n];
      forall k | 0 <= k < n
        ensures var b := ExecByKey(s, c, before[..k], env);
                AllCanonical(b.w.db.users, c, NamesOf(b, before[k]))
      {
        assert before[..k] == steps[..k] && before[k] == steps[k];
      }
      SameRun(s, c, before, env);
      InitialHolds(s);
      RunsKeepAll(s, before, env);
      SameStep(Exec(s, before, env), c, steps[n], env);
      StepKeepsKeys(Exec(s, before, env), c, steps[n], env);
    }
  }

  // In particular each account then has at most one live session, and its flag is up while it has one.
  lemma OneSessionPerAccount(s: Server, c: Folding, steps: seq<Step>, env: Env)
    requires Initial(s) && UniqueKeys(s.w.db.users, c)
    requires ValidRunByKey(s, c, steps, env) && CanonicalRequests(s, c, steps, env)
    requires ExecByKey(s, c, steps, env).running
    ensures var e := ExecByKey(s, c, steps, env);
            var t := e.w.table;
            && (forall x, y ::
                  x in t.live && y in t.live && x != y && t.live[x].username != "" && t.live[y].username != "" ==>
                    c.key(t.live[x].username) != c.key(t.live[y].username))
            && BoundAreOnline(e.w.db.users, c, t)
  {
    SameRun(s, c, steps, env);
    InitialHolds(s);
    RunsKeepAll(s, steps, env);
    var e := Exec(s, steps, env);
    var t := e.w.table;
    forall x, y | x in t.live && y in t.live && x != y && t.live[x].username != "" && t.live[y].username != ""
      ensures c.key(t.live[x].username) != c.key(t.live[y].username)
    {
      var u, v := t.live[x].username, t.live[y].username;
      assert t.index[u] == x && t.index[v] == y;
      KnownIsCanonical(e.w.db.users, c, u);
      var j :| 0 <= j < |e.w.db.users| && e.w.db.users[j].username == v;
    }
    forall u | u in t.index ensures Up(e.w.db.users, c, u) {
      assert t.live[t.index[u]].username == u;
      var i :| 0 <= i < |e.w.db.users| && e.w.db.users[i].isOnline && e.w.db.users[i].username == u;
      KeyFindsTheRow(e.w.db.users, c, i, u);
    }
  }

  // ---- two spellings ----

  // The account of `name` is marked online.
  predicate Up(users: seq<User>, c: Folding, name: string) {
    var r := FindByKey(users, c, name);
    r.Some? && users[r.value].isOnline
  }

  ghost predicate BoundAreOnline(users: seq<User>, c: Folding, t: SessionTable) {
    forall u :: u in t.index ==> Up(users, c, u)
  }

  // When a session ends, bound accounts stay online if and only if nobody is logged in under another
  // spelling of its name: the two share one flag.
  lemma SignOffKeepsPresenceIff(users: seq<User>, c: Folding, t: SessionTable, socket: int)
    requires UniqueKeys(users, c) && IndexExact(t) && BoundAreOnline(users, c, t) && NameOn(t, socket) != ""
    ensures var name := NameOn(t, socket);
            BoundAreOnline(SetOnlineByKey(users, c, name, false), c, RemoveSession(t, socket)) <==>
            forall u :: u in t.index && u != name ==> c.key(u) != c.key(name)
  {
    var name := NameOn(t, socket);
    var users', t' := SetOnlineByKey(users, c, name, false), RemoveSession(t, socket);
    assert forall i :: 0 <= i < |users| ==> users'[i].username == users[i].username;
    assert t.index[name] == socket;
    forall u | u in t.index && u != name ensures u in t'.index && (Up(users', c, u) <==> c.key(u) != c.key(name)) {
      var i := FindByKey(users, c, u).value;
      KeyFindsTheRow(users', c, i, u);
    }
    forall u | u in t'.index ensures u in t.index && u != name {}
  }

  // A login on a fresh socket replaces the older session of its spelling if and only if the account's
  // flag is up, and keeps the index exact if and only if it is up or nobody holds that spelling. A
  // session under another spelling stays in any case.
  lemma LoginReplacesIff(t: SessionTable, wasOnline: bool, prior: int, socket: int, name: string, now: int)
    requires IndexExact(t) && prior in t.live && socket in t.live && prior != socket && name != ""
    requires t.live[prior].username != "" && t.live[socket].username == ""
    ensures var t' := LoginTable(t, wasOnline, socket, name, now);
            && t'.live[socket].username == name
            && (t'.live[prior].username == "" <==> wasOnline && t.live[prior].username == name)
            && (t'.live[prior].username == t.live[prior].username <==> !(wasOnline && t.live[prior].username == name))
            && (IndexExact(t') <==> wasOnline || name !in t.index)
  {
    LoginKeepsIndexIff(t, wasOnline, socket, name, now);
    assert t.index[t.live[prior].username] == prior;
    if name in t.index { assert t.live[t.index[name]].username == name; }
  }

  // ---- friends ----

  function AddFriendByKey(db: Db, c: Folding, r: Request): (Db, int) {
    AddFriendFound(db, FindByKey(db.users, c, r.username), FindByKey(db.users, c, FriendTarget(r)), r)
  }

  // ADD_FRIEND makes a user their own friend if and only if the target is the user's own name in
  // another spelling: the test against oneself compares exactly, the lookups do not.
  lemma OwnFriendIff(db: Db, c: Folding, r: Request)
    requires UniqueKeys(db.users, c) && GraphOk(db)
    ensures !GraphOk(AddFriendByKey(db, c, r).0) <==>
      && FriendTarget(r) != "" && FriendTarget(r) != r.username && c.key(FriendTarget(r)) == c.key(r.username)
      && FindByKey(db.users, c, r.username).Some?
  {
    var a, b := FindByKey(db.users, c, r.username), FindByKey(db.users, c, FriendTarget(r));
    var db' := AddFriendByKey(db, c, r).0;
    if a.Some? && c.key(FriendTarget(r)) == c.key(r.username) {
      KeyFindsTheRow(db.users, c, a.value, FriendTarget(r));
    }
    if db' != db {
      assert db'.friends[|db.friends|] == Edge(a.value, b.value);
    }
  }

  lemma AnnBefriendsHerself(db: Db, c: Folding, r: Request)
    requires db.users == [User("Ann", "", true)] && db.friends == [] && c.key("ann") == c.key("Ann")
    requires r == Request(AddFriend, "Ann", "", "ann", "")
    ensures AddFriendByKey(db, c, r) == (db.(friends := [Edge(0, 0)]), 0)
  {
    KeyFindsTheRow(db.users, c, 0, "Ann");
    KeyFindsTheRow(db.users, c, 0, "ann");
    assert "Ann"[0] != "ann"[0];
    assert db.friends + [Edge(0, 0)] == [Edge(0, 0)];
  }
}
