// Runs in which no send failed: every user who is logged in has everything.
module FailureFree {
  import opened ChatTypes
  import opened Tables
  import opened Sessions
  import opened Handlers
  import opened ServerModel
  import opened Effects
  import opened Index
  import opened Invariants
  import opened OfflinePush
  import opened Delivery
  import opened ReadFlags
  import opened Recipients
  import opened ExactlyOnce

  ghost predicate NoFailure(log: seq<Sent>) { forall k :: 0 <= k < |log| ==> log[k].ok }

  // ---- the log tells what the network carried ----

  ghost predicate Honest(log: seq<Sent>, env: Env) {
    forall k :: 0 <= k < |log| && log[k].ok ==> env.carries(k)
  }

  lemma {:induction false} NotifyRowsHonest(w: World, rows: seq<FriendRow>, payload: Payload, env: Env)
    requires Honest(w.net.log, env)
    ensures Honest(NotifyRows(w, rows, payload, env).net.log, env)
    decreases |rows|
  {
    if rows != [] { NotifyRowsHonest(NotifyRow(w, rows[0], payload, env), rows[1..], payload, env); }
  }

  lemma NotifyFriendsHonest(w: World, name: string, online: bool, env: Env)
    requires Honest(w.net.log, env)
    ensures Honest(NotifyFriends(w, name, online, env).net.log, env)
  {
    match FindUser(w.db.users, name)
    case None =>
    case Some(id) => NotifyRowsHonest(w, FriendRows(w.db.users, w.db.friends, id), StatusNotify(name, online), env);
  }

  lemma CompleteLoginHonest(w: World, id: UserId, socket: int, name: string, now: int, env: Env)
    requires Honest(w.net.log, env) && id < |w.db.users|
    ensures Honest(CompleteLogin(w, id, socket, name, now, env).net.log, env)
  {
    NotifyFriendsHonest(EnterLogin(w, id, socket, name, now, env), name, true, env);
  }

  lemma {:induction false} PushRowsHonest(w: World, socket: int, rows: seq<Message>, env: Env)
    requires Honest(w.net.log, env)
    ensures Honest(PushRows(w, socket, rows, env).net.log, env)
    decreases |rows|
  {
    if rows != [] { PushRowsHonest(PushRow(w, socket, rows[0], env), socket, rows[1..], env); }
  }

  lemma LoginHonest(w: World, cache: Cache, socket: int, r: Request, now: int, env: Env)
    requires Honest(w.net.log, env)
    ensures Honest(LoginAndPush(w, cache, socket, r, now, env).0.net.log, env)
  {
    if LoginCode(w.db, r, env) == 0 {
      CompleteLoginHonest(w, FindUser(w.db.users, r.username).value, socket, r.username, now, env);
      var w1 := HandleLogin(w, socket, r, now, env).0;
      var id := FindUser(w1.db.users, r.username);
      if id.Some? && SocketOf(w1.table, r.username).Some? {
        PushRowsHonest(w1, SocketOf(w1.table, r.username).value, UnreadMessages(w1.db, id.value), env);
      }
    }
  }

  lemma HandleHonest(w: World, cache: Cache, socket: int, r: Request, now: int, env: Env)
    requires Honest(w.net.log, env)
    ensures Honest(Handle(w, cache, socket, r, now, env).0.net.log, env)
  {
    match r.kind
    case Login => LoginHonest(w, cache, socket, r, now, env);
    case SendMsg => SendHonest(w, r, now, env);
    case _ =>
  }

  lemma SendHonest(w: World, r: Request, now: int, env: Env)
    requires Honest(w.net.log, env)
    ensures Honest(HandleSend(w, r, now, env).0.net.log, env)
  {
  }

  lemma {:induction false} SweepHonest(s: Server, order: seq<int>, env: Env)
    requires Honest(s.w.net.log, env)
    ensures Honest(SweepAll(s, order, env).w.net.log, env)
    decreases |order|
  {
    if order != [] {
      if order[0] in s.w.table.live {
        var name := s.w.table.live[order[0]].username;
        NotifyFriendsHonest(GoOffline(s.w, name), name, false, env);
      }
      SweepHonest(SweepOne(s, order[0], env), order[1..], env);
    }
  }

  lemma ReceiveHonest(s: Server, socket: int, r: Request, env: Env)
    requires Honest(s.w.net.log, env)
    ensures Honest(Next(s, Receive(socket, r), env).w.net.log, env)
  {
    var w0 := Heard(s.w, socket, r, s.now);
    var e := Effective(w0.table, socket, r);
    HandleHonest(w0, s.cache, socket, e, s.now, env);
    var w1 := Handle(w0, s.cache, socket, e, s.now, env).0;
    assert Honest(w1.net.log, env);
  }

  lemma DisconnectHonest(s: Server, socket: int, env: Env)
    requires Honest(s.w.net.log, env)
    ensures Honest(DisconnectClient(s, socket, env).w.net.log, env)
  {
    var name := NameOn(s.w.table, socket);
    NotifyFriendsHonest(GoOffline(s.w, name), name, false, env);
  }

  lemma StepHonest(s: Server, step: Step, env: Env)
    requires Always(s) && Enabled(s, step) && Honest(s.w.net.log, env)
    ensures Honest(Next(s, step, env).w.net.log, env)
  {
    match step
    case Receive(socket, r) => ReceiveHonest(s, socket, r, env);
    case Disconnect(socket) => DisconnectHonest(s, socket, env);
    case Fail(socket) => FailEffect(s, socket);
    case Sweep(order) => SweepHonest(s, order, env);
    case Stop(order) => StopAllEffect(s.(running := false), order);
    case _ =>
  }

  // ---- bound to a socket that is shut ----

  ghost predicate Failed(log: seq<Sent>) { exists k :: 0 <= k < |log| && !log[k].ok }

  lemma FailedStays(log: seq<Sent>, log': seq<Sent>)
    requires Grew(log, log') && Failed(log)
    ensures Failed(log')
  {
    var k :| 0 <= k < |log| && !log[k].ok;
    assert log'[k] == log'[..|log|][k];
  }

  // In a running server nobody is bound to a socket that is shut unless a send has failed.
  ghost predicate ShutMeansFailed(s: Server) {
    s.running ==> forall u :: u in s.w.table.index && s.w.table.index[u] in s.w.net.shut ==> Failed(s.w.net.log)
  }

  // The older bindings that remain, and the shut sockets among them.
  lemma FewerShut(s: Server, s': Server)
    requires ShutMeansFailed(s) && Grew(s.w.net.log, s'.w.net.log)
    requires forall u :: u in s'.w.table.index && s'.w.table.index[u] in s'.w.net.shut ==>
      u in s.w.table.index && s.w.table.index[u] in s.w.net.shut
    requires s'.running ==> s.running
    ensures ShutMeansFailed(s')
  {
    if Failed(s.w.net.log) { FailedStays(s.w.net.log, s'.w.net.log); }
  }

  lemma EndFewerShut(s: Server, s': Server, socket: int)
    requires Always(s) && ShutMeansFailed(s) && Ended(s, s', socket) && s'.w.net.shut <= s.w.net.shut + {socket}
    ensures ShutMeansFailed(s')
  {
    RemoveKeepsIndex(s.w.table, socket);
    forall u | u in s'.w.table.index
      ensures u in s.w.table.index && s'.w.table.index[u] == s.w.table.index[u] && s'.w.table.index[u] != socket
    {
      assert s.w.table.live[s.w.table.index[u]].username == u;
    }
    FewerShut(s, s');
  }

  lemma {:induction false} SweepFewerShut(s: Server, order: seq<int>, env: Env)
    requires Always(s) && ShutMeansFailed(s)
    ensures ShutMeansFailed(SweepAll(s, order, env))
    decreases |order|
  {
    if order != [] {
      var s1 := SweepOne(s, order[0], env);
      SweepOneKeepsAll(s, order[0], env);
      if order[0] in s.w.table.live && Expired(s.w.table.live[order[0]], s.now) {
        SweepOneEffect(s, order[0], env);
        EndFewerShut(s, s1, order[0]);
      }
      SweepFewerShut(s1, order[1..], env);
    }
  }

  // The reply goes out last.
  lemma ReplyIsLast(s: Server, socket: int, r: Request, env: Env)
    ensures var net := Next(s, Receive(socket, r), env).w.net;
            && net.log != [] && net.log[|net.log| - 1].socket == socket
            && (socket in net.shut ==> !net.log[|net.log| - 1].ok)
  {
  }

  lemma LoginShutOrFailed(s: Server, s': Server, socket: int, r: Request, name: string, env: Env)
    requires Always(s) && ShutMeansFailed(s) && s.running && Received(s, s', socket, r, env)
    requires LoginName(s.w, socket, r, s.now, env) == Some(name) && socket in s.w.table.live
    requires Grew(s.w.net.log, s'.w.net.log) && (socket in s'.w.net.shut ==> Failed(s'.w.net.log))
    ensures ShutMeansFailed(s')
  {
    var t := Heard(s.w, socket, r, s.now).table;
    SameLoginsIndex(s.w.table, t);
    LoginKeepsSound(t, name in Online(s), socket, name, s.now);
    forall u | u in s'.w.table.index && s'.w.table.index[u] in s'.w.net.shut ensures Failed(s'.w.net.log) {
      if u != name {
        assert t.live[t.index[u]].username == u;
        assert s.w.table.index[u] in s.w.net.shut;
        FailedStays(s.w.net.log, s'.w.net.log);
      }
    }
  }

  lemma ReceiveShutOrFailed(s: Server, socket: int, r: Request, env: Env)
    requires Always(s) && ShutMeansFailed(s) && Enabled(s, Receive(socket, r))
    ensures ShutMeansFailed(Next(s, Receive(socket, r), env))
  {
    var s' := Next(s, Receive(socket, r), env);
    ReceiveEffect(s, socket, r, env);
    StepIsAddressed(s, Receive(socket, r), env);
    ReplyIsLast(s, socket, r, env);
    if s.running {
      match LoginName(s.w, socket, r, s.now, env)
      case None => FewerShut(s, s');
      case Some(name) => LoginShutOrFailed(s, s', socket, r, name, env);
    }
  }

  lemma StepShutOrFailed(s: Server, step: Step, env: Env)
    requires Always(s) && Enabled(s, step) && ShutMeansFailed(s)
    ensures ShutMeansFailed(Next(s, step, env))
  {
    var s' := Next(s, step, env);
    match step
    case Receive(socket, r) => ReceiveShutOrFailed(s, socket, r, env);
    case Disconnect(socket) =>
      DisconnectEffect(s, socket, env);
      EndFewerShut(s, s', socket);
    case Fail(socket) =>
      FailEffect(s, socket);
      EndFewerShut(s, s', socket);
    case Sweep(order) => SweepFewerShut(s, order, env);
    case Stop(order) => StopAllEffect(s.(running := false), order);
    case Accept(socket) => FewerShut(s, s');
    case _ =>
  }

  // ---- over runs ----

  lemma {:induction false} RunsTellFailures(s: Server, steps: seq<Step>, env: Env)
    requires Initial(s) && ValidRun(s, steps, env)
    ensures Honest(Exec(s, steps, env).w.net.log, env) && ShutMeansFailed(Exec(s, steps, env))
  {
    if steps != [] {
      var before := steps[..|steps| - 1];
      RunsTellFailures(s, before, env);
      InitialHolds(s);
      RunsKeepAll(s, before, env);
      StepHonest(Exec(s, before, env), steps[|steps| - 1], env);
      StepShutOrFailed(Exec(s, before, env), steps[|steps| - 1], env);
    }
  }

  // If no send of the run failed, whatever the environment would have done next: every message
  // stored or unread at the start has been forwarded exactly once if it is read and never if it is
  // not, and while the server runs no user who is logged in has an unread message.
  lemma DeliveredIfNothingFailed(s: Server, steps: seq<Step>, env: Env)
    requires Initial(s) && ValidRun(s, steps, env) && NoFailure(Exec(s, steps, env).w.net.log)
    ensures var e := Exec(s, steps, env);
            && (forall m :: m in e.w.db.messages && m.id !in ReadIds(s.w.db.messages) ==>
                  Forwards(e.w.net.log, m.id) == if m.isRead then 1 else 0)
            && (e.running ==> forall m :: m in e.w.db.messages && !m.isRead ==>
                  NameOf(e.w.db.users, m.receiver) !in e.w.table.index)
  {
    var log := Exec(s, steps, env).w.net.log;
    RunsTellFailures(s, steps, env);
    forall k: nat | k < |log| ensures env.carries(k) { assert log[k].ok; }
    DeliveredExactlyOnce(s, steps, env);
  }
}
