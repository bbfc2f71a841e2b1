// Server: its fields, and its methods one atomic step at a time, each proved to be the step of the
// state machine that the run theorems are about.
module ChatServer {
  import opened ChatTypes
  import opened Tables
  import opened Sessions
  import opened Handlers
  import opened SessionManagement
  import opened Managers
  import M = ServerModel

  class ChatServer {
    const b: Backend
    const users: UserManager
    const messages: MessageManager
    const friends: FriendManager
    var currentConnections: int
    var taskQueue: seq<int>
    var busy: set<int>
    var accepting: M.Accepting
    var running: bool
    var lastSweep: int

    ghost predicate Valid()
      reads this, b.sessions, b.sessions.cliSessionMap.Values
    {
      b.Valid() && users.b == b && messages.b == b && friends.b == b
    }

    // `now` is the clock, which the server only reads.
    ghost function View(now: int): M.Server
      reads this, friends, b.sessions, b.sessions.cliSessionMap.Values, b.db, b.net
    {
      M.Server(b.View(), friends.cachedFriendLists, currentConnections, taskQueue, busy, accepting, running, now,
        lastSweep)
    }

    constructor (b: Backend, now: int)
      requires b.Valid() && b.sessions.cliSessionMap == map[] && b.sessions.usernameToSocket == map[]
      requires b.net.View() == Net({}, {}, []) && SchemaOk(b.db.View())
      requires forall m :: m in b.db.messages ==> m.storedAt == 0
      ensures Valid() && M.Initial(View(now))
    {
      this.b := b;
      users := new UserManager(b);
      messages := new MessageManager(b);
      friends := new FriendManager(b);
      currentConnections, taskQueue, busy, accepting, running, lastSweep := 0, [], {}, M.Idle, true, now;
    }

    // ---- AcceptConnections, one pass of its loop ----

    method AcceptClient(socket: int, now: int, env: Env)
      requires Valid() && accepting.Idle? && socket !in b.net.open
      modifies this`accepting, b.net, b.sessions
      ensures Valid() && View(now) == M.Next(old(View(now)), M.Accept(socket), env)
    {
      if currentConnections >= M.MAX_CONNECTIONS {
        RefuseClient(socket, now, env);
      } else {
        TakeClient(socket, now);
      }
    }

    method RefuseClient(socket: int, now: int, env: Env)
      requires Valid()
      modifies b.net
      ensures Valid() && View(now) == M.RefuseClient(old(View(now)), socket, env)
    {
      b.net.OpenSocket(socket);
      var _ := b.net.SendData(socket, ServerBusy, env);
      b.net.CloseSocket(socket);
    }

    method TakeClient(socket: int, now: int)
      requires Valid()
      modifies this`accepting, b.net, b.sessions
      ensures Valid() && View(now) == M.TakeClient(old(View(now)), socket)
    {
      b.net.OpenSocket(socket);
      var session := new ClientSession(socket, now);
      b.sessions.AddSession(socket, session);
      accepting := M.Added(socket);
    }

    method CountAccepted(now: int, env: Env)
      requires Valid() && accepting.Added?
      modifies this`currentConnections, this`accepting
      ensures Valid() && View(now) == M.Next(old(View(now)), M.CountAccepted, env)
    {
      currentConnections := currentConnections + 1;
      accepting := M.Counted(accepting.socket);
    }

    method SubmitAccepted(now: int, env: Env)
      requires Valid() && accepting.Counted?
      modifies this`taskQueue, this`accepting
      ensures Valid() && View(now) == M.Next(old(View(now)), M.SubmitAccepted, env)
    {
      taskQueue := taskQueue + [accepting.socket];
      accepting := M.Idle;
    }

    // A worker of the thread pool takes the task of the next client.
    method StartTask(now: int, env: Env) returns (socket: int)
      requires Valid() && taskQueue != []
      modifies this`taskQueue, this`busy
      ensures Valid() && View(now) == M.Next(old(View(now)), M.StartTask, env)
      ensures socket == old(taskQueue)[0]
    {
      socket := taskQueue[0];
      taskQueue := taskQueue[1..];
      busy := busy + {socket};
    }

    // ---- DispatchRequest ----

    method DispatchRequest(socket: int, r: Request, now: int, env: Env)
      requires Valid()
      modifies b.db, b.net, b.sessions, b.sessions.cliSessionMap.Values, friends
      ensures Valid()
      ensures (b.View(), friends.cachedFriendLists) ==
              Dispatch(old(b.View()), old(friends.cachedFriendLists), socket, r, now, env)
    {
      ghost var w, cache := b.View(), friends.cachedFriendLists;
      if r.kind.Malformed? {
        SendReply(socket, 4001, env);
        DispatchIs(w, cache, socket, r, now, env, w, w, cache, 4001);
        return;
      }
      var code := AnswerRequest(socket, r, now, env);
      ghost var w1, cache1 := b.View(), friends.cachedFriendLists;
      SendReply(socket, code, env);
      DispatchIs(w, cache, socket, r, now, env, Heard(w, socket, r, now), w1, cache1, code);
    }

    // A request that parses, up to its code.
    method AnswerRequest(socket: int, r: Request, now: int, env: Env) returns (code: int)
      requires Valid() && !r.kind.Malformed?
      modifies b.db, b.net, b.sessions, b.sessions.cliSessionMap.Values, friends
      ensures Valid()
      ensures var w0 := Heard(old(b.View()), socket, r, now);
              (b.View(), friends.cachedFriendLists, code) ==
              Handle(w0, old(friends.cachedFriendLists), socket, Effective(w0.table, socket, r), now, env)
    {
      RecordHeartbeat(socket, now);
      assert b.View() == Heard(old(b.View()), socket, r, now);
      var e := EffectiveRequest(socket, r);
      code := HandleRequest(socket, e, now, env);
    }

    static lemma DispatchIs(w: World, cache: Cache, socket: int, r: Request, now: int, env: Env,
                            w0: World, w1: World, cache1: Cache, code: int)
      requires w0 == Heard(w, socket, r, now)
      requires (w1, cache1, code) == Handle(w0, cache, socket, Effective(w0.table, socket, r), now, env)
      ensures Dispatch(w, cache, socket, r, now, env) == (w1.(net := Send(w1.net, socket, Reply(code), env)), cache1)
    {
    }

    method SendReply(socket: int, code: int, env: Env)
      requires Valid()
      modifies b.net
      ensures Valid() && b.View() == old(b.View()).(net := Send(old(b.net.View()), socket, Reply(code), env))
    {
      var _ := b.net.SendData(socket, Reply(code), env);
    }

    // One request, as a step of the state machine.
    method Receive(socket: int, r: Request, now: int, env: Env)
      requires Valid()
      modifies b.db, b.net, b.sessions, b.sessions.cliSessionMap.Values, friends
      ensures Valid() && View(now) == M.Next(old(View(now)), M.Receive(socket, r), env)
    {
      DispatchRequest(socket, r, now, env);
    }

    method RecordHeartbeat(socket: int, now: int)
      requires Valid()
      modifies b.sessions.cliSessionMap.Values
      ensures Valid() && b.sessions.View() == Touch(old(b.sessions.View()), socket, now)
    {
      var session := b.sessions.GetSession(socket);
      if session != null {
        session.UpdateHeartbeat(now);
        b.sessions.EntryChanged(session);
      }
    }

    // The username a request is handled under.
    method EffectiveRequest(socket: int, r: Request) returns (e: Request)
      requires Valid()
      ensures e == Effective(b.sessions.View(), socket, r)
      ensures e.kind == r.kind && e.password == r.password && e.content == r.content
      ensures r.target != "" ==> e.target == r.target
      ensures NameOn(b.sessions.View(), socket) == "" ==> e == r
      ensures NameOn(b.sessions.View(), socket) != "" ==>
        e.username == NameOn(b.sessions.View(), socket) && (r.target == "" ==> e.target == r.username)
    {
      e := r;
      var session := b.sessions.GetSession(socket);
      if e.username == "" {
        if session != null && session.username != "" {
          e := e.(username := session.username);
        }
      } else if session != null && session.username != "" {
        if e.target == "" {
          e := e.(target := e.username);
        }
        e := e.(username := session.username);
      }
    }

    method HandleRequest(socket: int, r: Request, now: int, env: Env) returns (code: int)
      requires Valid() && !r.kind.Malformed?
      modifies b.db, b.net, b.sessions, b.sessions.cliSessionMap.Values, friends
      ensures Valid() && b.sessions.cliSessionMap == old(b.sessions.cliSessionMap)
      ensures (b.View(), friends.cachedFriendLists, code) ==
              Handle(old(b.View()), old(friends.cachedFriendLists), socket, r, now, env)
    {
      match r.kind
      case Register => code := users.HandleRegister(r, env);
      case Login => code := HandleLoginRequest(socket, r, now, env);
      case SendMsg => code := messages.HandleSendMessage(r, now, env);
      case AddFriend => code := friends.HandleAddFriend(r);
      case DelFriend => code := friends.HandleDeleteFriend(r);
      case FriendList =>
        var rows;
        code, rows := friends.HandleFriendList(r);
      case Heartbeat => code := 0;
      case Unknown => code := 4002;
    }

    method HandleLoginRequest(socket: int, r: Request, now: int, env: Env) returns (code: int)
      requires Valid()
      modifies b.db, b.net, b.sessions, b.sessions.cliSessionMap.Values, friends
      ensures Valid() && b.sessions.cliSessionMap == old(b.sessions.cliSessionMap)
      ensures (b.View(), friends.cachedFriendLists, code) ==
              LoginAndPush(old(b.View()), old(friends.cachedFriendLists), socket, r, now, env)
    {
      code := users.HandleLogin(socket, r, now, env);
      if code == 0 {
        friends.CacheFriendList(r.username);
        messages.PushOfflineMessages(r.username, env);
      }
    }

    // ---- HandleClient after its loop, and its catch block ----

    method FinishClient(socket: int, now: int, env: Env)
      requires Valid()
      modifies this`currentConnections, this`busy, b.db, b.net, b.sessions, friends
      ensures Valid() && View(now) == M.DisconnectClient(old(View(now)), socket, env)
    {
      EndSession(socket, now, env);
      CloseTask(socket, now);
    }

    method EndSession(socket: int, now: int, env: Env)
      requires Valid()
      modifies this`currentConnections, b.db, b.net, b.sessions, friends
      ensures Valid() && View(now) == M.EndSession(old(View(now)), socket, env)
    {
      var session := b.sessions.GetSession(socket);
      if session != null {
        if session.username != "" {
          SignOff(session.username, now, env);
        }
        DropSession(socket, now);
      }
    }

    method DropSession(socket: int, now: int)
      requires Valid()
      modifies this`currentConnections, b.sessions
      ensures Valid() && View(now) == M.DropSession(old(View(now)), socket)
      ensures b.sessions.cliSessionMap == old(b.sessions.cliSessionMap) - {socket}
    {
      b.sessions.RemoveSession(socket);
      currentConnections := currentConnections - 1;
    }

    method CloseTask(socket: int, now: int)
      requires Valid()
      modifies this`busy, b.net
      ensures Valid() && View(now) == M.CloseTask(old(View(now)), socket)
    {
      b.net.CloseSocket(socket);
      busy := busy - {socket};
    }

    method FailClient(socket: int, now: int)
      requires Valid()
      modifies this`currentConnections, this`busy, b.db, b.net, b.sessions
      ensures Valid() && View(now) == M.FailClient(old(View(now)), socket)
    {
      CloseTask(socket, now);
      FailSession(socket, now);
    }

    method FailSession(socket: int, now: int)
      requires Valid()
      modifies this`currentConnections, b.db, b.sessions
      ensures Valid() && View(now) == M.FailSession(old(View(now)), socket)
    {
      var session := b.sessions.GetSession(socket);
      if session != null {
        GoOffline(session.username, now);
        DropSession(socket, now);
      }
    }

    method GoOffline(name: string, now: int)
      requires Valid()
      modifies b.db
      ensures Valid()
      ensures View(now) == if name != "" then old(View(now)).(w := M.GoOffline(old(b.View()), name)) else old(View(now))
    {
      if name != "" {
        users.UpdateUserOnlineStatus(name, false);
      }
    }

    // Offline in the database, friends told, cached list dropped.
    method SignOff(name: string, now: int, env: Env)
      requires Valid()
      modifies b.db, b.net, friends
      ensures Valid() && View(now) == M.SignOff(old(View(now)), name, env)
    {
      users.UpdateUserOnlineStatus(name, false);
      users.NotifyFriendsStatusChange(name, false, env);
      friends.RemoveFriendCache(name);
    }

    // ---- HeartbeatCheckThread, one pass ----

    method HeartbeatCheck(order: seq<int>, now: int, env: Env)
      requires Valid() && M.OrderOf(order, b.sessions.cliSessionMap.Keys)
      modifies this`currentConnections, this`lastSweep, b.db, b.net, b.sessions, friends
      ensures Valid() && View(now) == M.SweepAll(old(View(now)), order, env).(lastSweep := now)
    {
      ghost var start := View(now);
      CheckSessions(order, now, env);
      lastSweep := now;
    }

    method CheckSessions(order: seq<int>, now: int, env: Env)
      requires Valid() && M.OrderOf(order, b.sessions.cliSessionMap.Keys)
      modifies this`currentConnections, b.db, b.net, b.sessions, friends
      ensures Valid() && View(now) == M.SweepAll(old(View(now)), order, env)
    {
      var sessions := b.sessions.GetAllSessions();
      ghost var start := View(now);
      var i := 0;
      assert forall k :: 0 <= k < |order| ==> order[k] in order;
      while i < |order|
        invariant 0 <= i <= |order|
        invariant Valid()
        invariant StillThere(sessions, order, i)
        invariant M.SweepAll(View(now), order[i..], env) == M.SweepAll(start, order, env)
      {
        assert order[i..][1..] == order[i + 1..];
        CheckSession(order[i], sessions[order[i]], now, env);
        i := i + 1;
      }
    }

    // The sessions of the snapshot that the loop has not reached are still the ones in the table.
    ghost predicate StillThere(sessions: map<int, ClientSession>, order: seq<int>, i: int)
      reads b.sessions
    {
      0 <= i <= |order| &&
      forall k :: i <= k < |order| ==>
        && order[k] in sessions && order[k] in b.sessions.cliSessionMap
        && b.sessions.cliSessionMap[order[k]] == sessions[order[k]]
    }

    method CheckSession(socket: int, session: ClientSession, now: int, env: Env)
      requires Valid() && socket in b.sessions.cliSessionMap && b.sessions.cliSessionMap[socket] == session
      modifies this`currentConnections, b.db, b.net, b.sessions, friends
      ensures Valid() && View(now) == M.SweepOne(old(View(now)), socket, env)
      ensures forall s :: s in old(b.sessions.cliSessionMap) && s != socket ==>
        s in b.sessions.cliSessionMap && b.sessions.cliSessionMap[s] == old(b.sessions.cliSessionMap)[s]
    {
      if session.isConnected && session.username != "" {
        if now - session.lastHeartbeat > M.IDLE_LIMIT {
          Expire(socket, session.username, now, env);
        }
      }
    }

    method Expire(socket: int, name: string, now: int, env: Env)
      requires Valid()
      modifies this`currentConnections, b.db, b.net, b.sessions, friends
      ensures Valid() && View(now) == M.Expire(old(View(now)), socket, name, env)
      ensures b.sessions.cliSessionMap == old(b.sessions.cliSessionMap) - {socket}
    {
      SignOff(name, now, env);
      ShutSocket(socket, now);
      DropSession(socket, now);
    }

    method ShutSocket(socket: int, now: int)
      requires Valid()
      modifies b.net
      ensures Valid() && View(now) == M.ShutSocket(old(View(now)), socket)
    {
      b.net.ShutdownSocket(socket);
    }

    // ---- Stop ----

    method Stop(order: seq<int>, now: int, env: Env)
      requires Valid() && M.OrderOf(order, b.sessions.cliSessionMap.Keys)
      modifies this`running, b.db, b.net, friends
      ensures Valid() && View(now) == M.StopAll(old(View(now)).(running := false), order)
    {
      running := false;
      StopSessions(order, now);
    }

    method StopSessions(order: seq<int>, now: int)
      requires Valid() && M.OrderOf(order, b.sessions.cliSessionMap.Keys)
      modifies b.db, b.net, friends
      ensures Valid() && View(now) == M.StopAll(old(View(now)), order)
    {
      var sessions := b.sessions.GetAllSessions();
      assert forall k :: 0 <= k < |order| ==> order[k] in order;
      assert order[0..] == order;
      var i := 0;
      while i < |order|
        invariant 0 <= i <= |order|
        invariant M.StopAll(View(now), order[i..]) == M.StopAll(old(View(now)), order)
      {
        assert order[i..][1..] == order[i + 1..];
        StopSession(order[i], sessions[order[i]], now);
        i := i + 1;
      }
    }

    method StopSession(socket: int, session: ClientSession, now: int)
      requires Valid() && socket in b.sessions.cliSessionMap && b.sessions.cliSessionMap[socket] == session
      modifies b.db, b.net, friends
      ensures Valid() && View(now) == M.StopOne(old(View(now)), socket)
    {
      if session.username != "" {
        users.UpdateUserOnlineStatus(session.username, false);
        friends.RemoveFriendCache(session.username);
      }
      ShutSocket(session.socket, now);
    }
  }
}
