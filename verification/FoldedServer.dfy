// The server as it runs on a table whose collation ignores case: every lookup and every update of
// the users table that goes by name goes by the key of the name, while the session table, the index
// and the friend cache go on comparing names exactly.
module FoldedServer {
  import opened ChatTypes
  import opened Tables
  import opened Sessions
  import opened Handlers
  import opened ServerModel

  // The collation: two names are the same account when they have the same key.
  datatype Folding = Folding(key: string -> string)

  // ---- the users table ----

  // UNIQUE on users.username.
  ghost predicate UniqueKeys(users: seq<User>, c: Folding) {
    forall i, j :: 0 <= i < j < |users| ==> c.key(users[i].username) != c.key(users[j].username)
  }

  // SELECT user_id FROM users WHERE username = ?
  function FindByKey(users: seq<User>, c: Folding, name: string): (r: Option<UserId>)
    ensures r.Some? ==> r.value < |users| && c.key(users[r.value].username) == c.key(name)
    ensures r.None? ==> forall i :: 0 <= i < |users| ==> c.key(users[i].username) != c.key(name)
  {
    if users == [] then None
    else if c.key(users[|users| - 1].username) == c.key(name) then Some(|users| - 1)
    else FindByKey(users[..|users| - 1], c, name)
  }

  // UPDATE users SET is_online = ? WHERE username = ?
  function SetOnlineByKey(users: seq<User>, c: Folding, name: string, online: bool): (r: seq<User>)
    ensures |r| == |users|
    ensures forall i :: 0 <= i < |users| ==>
      r[i] == if c.key(users[i].username) == c.key(name) then users[i].(isOnline := online) else users[i]
  {
    seq(|users|, i requires 0 <= i < |users| =>
      if c.key(users[i].username) == c.key(name) then users[i].(isOnline := online) else users[i])
  }

  // ---- requests ----

  function NotifyByKey(w: World, c: Folding, name: string, online: bool, env: Env): World {
    NotifyFound(w, FindByKey(w.db.users, c, name), name, online, env)
  }

  function LoginByKey(w: World, c: Folding, socket: int, r: Request, now: int, env: Env): (World, int) {
    var user := FindByKey(w.db.users, c, r.username);
    var code := LoginCodeFound(w.db, user, r, env);
    if code != 0 then (w, code)
    else (NotifyByKey(EnterLogin(w, user.value, socket, r.username, now, env), c, r.username, true, env), 0)
  }

  function LoginAndPushByKey(w: World, c: Folding, cache: Cache, socket: int, r: Request, now: int, env: Env)
    : (World, Cache, int)
  {
    var (w1, code) := LoginByKey(w, c, socket, r, now, env);
    if code != 0 then (w1, cache, code)
    else
      var user := FindByKey(w1.db.users, c, r.username);
      (PushFound(w1, user, r.username, env), CacheFound(w1.db, user, cache, r.username), 0)
  }

  function HandleByKey(w: World, c: Folding, cache: Cache, socket: int, r: Request, now: int, env: Env)
    : (World, Cache, int)
  {
    var user := FindByKey(w.db.users, c, r.username);
    match r.kind
    case Register => var (db, code) := RegisterFound(w.db, user, r, env); (w.(db := db), cache, code)
    case Login => LoginAndPushByKey(w, c, cache, socket, r, now, env)
    case SendMsg =>
      var (w1, code) := SendFound(w, user, FindByKey(w.db.users, c, r.target), r, now, env);
      (w1, cache, code)
    case AddFriend =>
      var (db, code) := AddFriendFound(w.db, user, FindByKey(w.db.users, c, FriendTarget(r)), r);
      (w.(db := db), cache, code)
    case DelFriend =>
      var (db, code) := DeleteFriendFound(w.db, user, FindByKey(w.db.users, c, FriendTarget(r)), r);
      (w.(db := db), cache, code)
    case FriendList => (w, cache, if user.None? then 2003 else 0)
    case _ => Handle(w, cache, socket, r, now, env)
  }

  function DispatchByKey(w: World, c: Folding, cache: Cache, socket: int, r: Request, now: int, env: Env): (World,
                         Cache) {
    var w0 := Heard(w, socket, r, now);
    var (w1, cache1, code) := HandleByKey(w0, c, cache, socket, Effective(w0.table, socket, r), now, env);
    (w1.(net := Send(w1.net, socket, Reply(code), env)), cache1)
  }

  // ---- clean-up, heartbeat and stop ----

  function GoOfflineByKey(w: World, c: Folding, name: string): World {
    w.(db := w.db.(users := SetOnlineByKey(w.db.users, c, name, false)))
  }

  function SignOffByKey(s: Server, c: Folding, name: string, env: Env): Server {
    s.(w := NotifyByKey(GoOfflineByKey(s.w, c, name), c, name, false, env), cache := s.cache - {name})
  }

  function DisconnectByKey(s: Server, c: Folding, socket: int, env: Env): Server {
    var name := NameOn(s.w.table, socket);
    var s1 := if name != "" then SignOffByKey(s, c, name, env) else s;
    CloseTask(if socket in s.w.table.live then DropSession(s1, socket) else s1, socket)
  }

  function FailByKey(s: Server, c: Folding, socket: int): Server {
    var s1 := CloseTask(s, socket);
    var name := NameOn(s.w.table, socket);
    var s2 := if name != "" then s1.(w := GoOfflineByKey(s1.w, c, name)) else s1;
    if socket in s.w.table.live then DropSession(s2, socket) else s2
  }

  function SweepOneByKey(s: Server, c: Folding, socket: int, env: Env): Server {
    if socket in s.w.table.live && Expired(s.w.table.live[socket], s.now)
    then DropSession(ShutSocket(SignOffByKey(s, c, s.w.table.live[socket].username, env), socket), socket)
    else s
  }

  function SweepByKey(s: Server, c: Folding, order: seq<int>, env: Env): Server
    decreases |order|
  {
    if order == [] then s else SweepByKey(SweepOneByKey(s, c, order[0], env), c, order[1..], env)
  }

  function StopOneByKey(s: Server, c: Folding, socket: int): Server {
    if socket !in s.w.table.live then s
    else
      var name := s.w.table.live[socket].username;
      ShutSocket(if name != "" then s.(w := GoOfflineByKey(s.w, c, name), cache := s.cache - {name}) else s, socket)
  }

  function StopByKey(s: Server, c: Folding, order: seq<int>): Server
    decreases |order|
  {
    if order == [] then s else StopByKey(StopOneByKey(s, c, order[0]), c, order[1..])
  }

  // ---- steps and runs ----

  function NextByKey(s: Server, c: Folding, step: Step, env: Env): Server {
    match step
    case Receive(socket, r) =>
      var (w, cache) := DispatchByKey(s.w, c, s.cache, socket, r, s.now, env);
      s.(w := w, cache := cache)
    case Disconnect(socket) => DisconnectByKey(s, c, socket, env)
    case Fail(socket) => FailByKey(s, c, socket)
    case Sweep(order) => SweepByKey(s, c, order, env).(lastSweep := s.now)
    case Stop(order) => StopByKey(s.(running := false), c, order)
    case _ => Next(s, step, env)
  }

  function ExecByKey(s: Server, c: Folding, steps: seq<Step>, env: Env): Server {
    if steps == [] then s else NextByKey(ExecByKey(s, c, steps[..|steps| - 1], env), c, steps[|steps| - 1], env)
  }

  ghost predicate ValidRunByKey(s: Server, c: Folding, steps: seq<Step>, env: Env) {
    steps != [] ==>
      && ValidRunByKey(s, c, steps[..|steps| - 1], env)
      && Enabled(ExecByKey(s, c, steps[..|steps| - 1], env), steps[|steps| - 1])
  }
}
