// Over whole runs on a network that never fails: each message is forwarded exactly once.
module ExactlyOnce {
  import opened ChatTypes
  import opened Tables
  import opened Sessions
  import opened Handlers
  import opened ServerModel
  import opened Effects
  import opened Index
  import opened Invariants
  import opened MessageTable
  import opened OfflinePush
  import opened Delivery
  import opened ReadFlags
  import opened Recipients

  // ---- a network that never fails: exactly once ----

  // Read means forwarded exactly once, unread means not forwarded; ids not handed out yet are untouched.
  ghost predicate Tally(w: World, pre: set<nat>) {
    && (forall m :: m in w.db.messages ==>
          (m.id in pre ==> m.isRead) &&
          Forwards(w.net.log, m.id) == if m.isRead && m.id !in pre then 1 else 0)
    && (forall id: nat :: id >= w.db.nextMessageId ==> Forwards(w.net.log, id) == 0 && id !in pre)
  }

  // Online, bound, and the socket is not shut down: the names the server forwards to.
  ghost predicate Ready(w: World, name: string) {
    name in OnlineNames(w.db.users) && name in w.table.index && w.table.index[name] !in w.net.shut
  }

  // Nobody the server forwards to has an unread message.
  ghost predicate CaughtUp(w: World) {
    forall m :: m in w.db.messages && !m.isRead ==> !Ready(w, NameOf(w.db.users, m.receiver))
  }

  ghost predicate DeliveredOnce(w: World, pre: set<nat>) { Tally(w, pre) && CaughtUp(w) }

  // Same messages, no new forward, nobody newly ready.
  lemma NothingNew(w: World, w': World, pre: set<nat>)
    requires DeliveredOnce(w, pre) && MessagesOk(w.db)
    requires forall m :: m in w'.db.messages ==> m in w.db.messages
    requires w'.db.nextMessageId == w.db.nextMessageId
    requires QuietGrowth(w.net.log, w'.net.log)
    requires forall i :: 0 <= i < |w.db.users| ==>
      i < |w'.db.users| && w'.db.users[i].username == w.db.users[i].username
    requires forall name :: Ready(w', name) ==> Ready(w, name)
    ensures DeliveredOnce(w', pre)
  {
    forall id: nat ensures Forwards(w'.net.log, id) == Forwards(w.net.log, id) {
      ForwardsQuiet(w.net.log, w'.net.log, id);
    }
  }

  // The names ready after a step, when the step only ended sessions, shut sockets or lowered flags.
  lemma FewerReady(w: World, w': World)
    requires OnlineNames(w'.db.users) <= OnlineNames(w.db.users)
    requires forall u :: u in w'.table.index ==> u in w.table.index && w'.table.index[u] == w.table.index[u]
    requires forall u :: u in w'.table.index && w.table.index[u] in w.net.shut ==> w.table.index[u] in w'.net.shut
    ensures forall name :: Ready(w', name) ==> Ready(w, name)
  {
  }

  lemma SendDelivers(w: World, r: Request, now: int, env: Env, pre: set<nat>)
    requires DeliveredOnce(w, pre) && MessagesOk(w.db) && UniqueNames(w.db.users) && IndexSound(w.table)
    requires w.table.live.Keys <= w.net.open && Reliable(env, |HandleSend(w, r, now, env).0.net.log|)
    ensures DeliveredOnce(HandleSend(w, r, now, env).0, pre)
  {
    if SendCode(w.db, r) == 0 {
      var sender := FindUser(w.db.users, r.username).value;
      var receiver := FindUser(w.db.users, r.target).value;
      StoreAndForwardDelivers(w, sender, receiver, r, now, env, pre);
    }
  }

  lemma StoreAndForwardDelivers(w: World, sender: UserId, receiver: UserId, r: Request, now: int, env: Env,
                                pre: set<nat>)
    requires DeliveredOnce(w, pre) && MessagesOk(w.db) && UniqueNames(w.db.users) && IndexSound(w.table)
    requires w.table.live.Keys <= w.net.open && sender < |w.db.users| && receiver < |w.db.users|
    requires w.db.users[receiver].username == r.target
    requires Reliable(env, |StoreAndForward(w, sender, receiver, r, now, env).net.log|)
    ensures DeliveredOnce(StoreAndForward(w, sender, receiver, r, now, env), pre)
  {
    var id := w.db.nextMessageId;
    var w1 := w.(db := StoreMessage(w.db, sender, receiver, r.content, now, |w.net.log|));
    var row := w1.db.messages[|w.db.messages|];
    OnlineFlag(w.db.users, receiver);
    StoreTallies(w, w1, row, pre);
    var to := SocketOf(w.table, r.target);
    if w.db.users[receiver].isOnline && to.Some? {
      var payload := ForwardMsg(id, sender, receiver, r.username, r.content, None);
      ForwardNewRow(w1, row, to.value, r.target, payload, env, pre);
    }
  }

  // A row just stored is unread and has not been forwarded.
  lemma StoreTallies(w: World, w1: World, row: Message, pre: set<nat>)
    requires DeliveredOnce(w, pre) && MessagesOk(w.db) && row.id == w.db.nextMessageId && !row.isRead
    requires row.sender < |w.db.users| && row.receiver < |w.db.users|
    requires w1 == w.(db := w.db.(messages := w.db.messages + [row], nextMessageId := row.id + 1))
    ensures Tally(w1, pre) && MessagesOk(w1.db) && row in w1.db.messages
    ensures forall m :: m in w1.db.messages && m != row ==> m in w.db.messages
    ensures forall m :: m in w1.db.messages && !m.isRead && m != row ==> !Ready(w1, NameOf(w1.db.users, m.receiver))
  {
    assert w1.db.messages[|w.db.messages|] == row;
    forall m | m in w1.db.messages ensures m in w.db.messages || m == row {}
    forall i, j | 0 <= i < j < |w1.db.messages| ensures w1.db.messages[i].id < w1.db.messages[j].id {
      assert w1.db.messages[i] in w.db.messages;
    }
  }

  // Forwarding the row just stored: it arrives exactly when its receiver is ready, and then it is
  // the only unread row of its pair.
  lemma ForwardNewRow(w: World, row: Message, socket: int, name: string, payload: Payload, env: Env, pre: set<nat>)
    requires Tally(w, pre) && MessagesOk(w.db) && Reliable(env, |w.net.log| + 1)
    requires row in w.db.messages && !row.isRead
    requires payload.ForwardMsg? && payload.id == row.id && payload.sender == row.sender &&
      payload.receiver == row.receiver
    requires NameOf(w.db.users, row.receiver) == name && name in OnlineNames(w.db.users)
    requires SocketOf(w.table, name) == Some(socket) && socket in w.net.open
    requires forall m :: m in w.db.messages && !m.isRead && m != row ==> !Ready(w, NameOf(w.db.users, m.receiver))
    ensures DeliveredOnce(ForwardAndNotify(w, socket, name, payload, env), pre)
  {
    var w' := ForwardAndNotify(w, socket, name, payload, env);
    var ok := socket !in w.net.shut;
    forall id: nat ensures Forwards(w'.net.log, id) == Forwards(w.net.log, id) + if ok && id == row.id then 1 else 0 {
      ForwardAdds(w, socket, name, payload, env, socket, id);
    }
    assert w'.db.messages == if ok then MarkRead(w.db.messages, row.sender, row.receiver) else w.db.messages;
    forall m' | m' in w'.db.messages
      ensures m'.id in pre ==> m'.isRead
      ensures Forwards(w'.net.log, m'.id) == if m'.isRead && m'.id !in pre then 1 else 0
      ensures !m'.isRead ==> !Ready(w', NameOf(w'.db.users, m'.receiver))
    {
      var i :| 0 <= i < |w'.db.messages| && w'.db.messages[i] == m';
      var m := w.db.messages[i];
      assert m in w.db.messages;
      if m.id == row.id { SameIdSameRow(w.db.messages, m, row); }
      assert ok ==> Ready(w, name);
    }
  }

  // The push that follows a login leaves the user with nothing unread, each message forwarded once more.
  lemma PushDelivers(w: World, name: string, id: UserId, socket: int, env: Env, pre: set<nat>)
    requires PushReady(w, name, id, socket) && socket in w.net.open
    requires Reliable(env, |PushOffline(w, name, env).net.log|)
    requires Tally(w, pre) && MessagesOk(w.db)
    requires w.table.index[name] == socket && UniqueNames(w.db.users)
    requires forall m :: m in w.db.messages && !m.isRead && m.receiver != id ==>
      !Ready(w, NameOf(w.db.users, m.receiver))
    ensures DeliveredOnce(PushOffline(w, name, env), pre)
  {
    var rows := UnreadMessages(w.db, id);
    var w' := PushOffline(w, name, env);
    PushReaches(w, name, id, socket);
    UnreadMessagesAre(w.db, id);
    PushRowsExact(w, socket, rows, env);
    forall x: nat ensures Forwards(w'.net.log, x) ==
      Forwards(w.net.log, x) + if Reachable(w.net, socket) then UnreadWithId(w.db, id, x) else 0
    {
      PushRowsForwards(w, socket, rows, env, x);
    }
    forall m' | m' in w'.db.messages
      ensures m'.id in pre ==> m'.isRead
      ensures Forwards(w'.net.log, m'.id) == if m'.isRead && m'.id !in pre then 1 else 0
      ensures !m'.isRead ==> !Ready(w', NameOf(w'.db.users, m'.receiver))
    {
      var i :| 0 <= i < |w'.db.messages| && w'.db.messages[i] == m';
      PushedRow(w, w.db.messages[i], name, id, socket, env);
    }
    forall x: nat | x >= w.db.nextMessageId ensures Forwards(w'.net.log, x) == 0 && x !in pre {
      assert !HasUnread(w.db.users, w.db.messages, id, x);
    }
  }

  // A row is marked by a reliable push exactly when it is one of the unread rows and the socket is up.
  lemma PushedRow(w: World, m: Message, name: string, id: UserId, socket: int, env: Env)
    requires PushReady(w, name, id, socket) && MessagesOk(w.db) && m in w.db.messages
    requires Reliable(env, |w.net.log| + 2 * |UnreadMessages(w.db, id)|)
    ensures UnreadWithId(w.db, id, m.id) == if IsUnreadFor(w.db.users, m, id) then 1 else 0
    ensures !m.isRead ==>
      (PairArrives(w, socket, UnreadMessages(w.db, id), m.sender, m.receiver, env) <==>
       m.receiver == id && Reachable(w.net, socket))
  {
    var rows := UnreadMessages(w.db, id);
    UnreadMessagesAre(w.db, id);
    if HasUnread(w.db.users, w.db.messages, id, m.id) {
      var u :| u in w.db.messages && u.id == m.id && IsUnreadFor(w.db.users, u, id);
      SameIdSameRow(w.db.messages, u, m);
    }
    if !m.isRead {
      if m.receiver == id && Reachable(w.net, socket) {
        assert m in rows;
        var j :| 0 <= j < |rows| && rows[j] == m;
        assert Arrives(w, socket, j, env);
      }
      if PairArrives(w, socket, rows, m.sender, m.receiver, env) {
        var j :| 0 <= j < |rows| && Arrives(w, socket, j, env) && rows[j].sender == m.sender &&
          rows[j].receiver == m.receiver;
        assert rows[j] in rows;
      }
    }
  }

  lemma LoginDelivers(w: World, cache: Cache, socket: int, r: Request, now: int, env: Env, pre: set<nat>)
    requires DeliveredOnce(w, pre) && MessagesOk(w.db) && UniqueNames(w.db.users)
    requires Reliable(env, |LoginAndPush(w, cache, socket, r, now, env).0.net.log|)
    requires LoginCode(w.db, r, env) == 0 && socket in w.table.live && socket in w.net.open
    ensures DeliveredOnce(LoginAndPush(w, cache, socket, r, now, env).0, pre)
  {
    var id := FindUser(w.db.users, r.username).value;
    var w1 := HandleLogin(w, socket, r, now, env).0;
    LoginEffect(w, socket, r, now, env);
    LoginTallies(w, w1, r.username, id, pre);
    PushDelivers(w1, r.username, id, socket, env, pre);
  }

  // After the login, before its push: only the user who came can have messages waiting.
  lemma LoginTallies(w: World, w1: World, name: string, id: UserId, pre: set<nat>)
    requires DeliveredOnce(w, pre) && MessagesOk(w.db) && UniqueNames(w.db.users)
    requires FindUser(w.db.users, name) == Some(id) && w1.db == w.db.(users := SetOnline(w.db.users, id, true))
    requires QuietGrowth(w.net.log, w1.net.log)
    requires forall u :: u != name && u in w1.table.index ==>
      u in w.table.index && w1.table.index[u] == w.table.index[u]
    requires w.net.shut <= w1.net.shut
    ensures Tally(w1, pre) && MessagesOk(w1.db) && UniqueNames(w1.db.users) && FindUser(w1.db.users, name) == Some(id)
    ensures forall m :: m in w1.db.messages && !m.isRead && m.receiver != id ==>
      !Ready(w1, NameOf(w1.db.users, m.receiver))
  {
    SetOnlineNames(w.db.users, id);
    FindUserIsTheRow(w1.db.users, id);
    forall x: nat ensures Forwards(w1.net.log, x) == Forwards(w.net.log, x) {
      ForwardsQuiet(w.net.log, w1.net.log, x);
    }
    forall m | m in w1.db.messages && !m.isRead && m.receiver != id
      ensures !Ready(w1, NameOf(w1.db.users, m.receiver))
    {
      assert m.receiver < |w.db.users|;
      assert NameOf(w1.db.users, m.receiver) == NameOf(w.db.users, m.receiver) != name;
    }
  }

  lemma DeleteDelivers(w: World, r: Request, pre: set<nat>)
    requires DeliveredOnce(w, pre) && MessagesOk(w.db)
    ensures DeliveredOnce(w.(db := HandleDeleteFriend(w.db, r).0), pre)
  {
    var a := FindUser(w.db.users, r.username);
    var b := FindUser(w.db.users, FriendTarget(r));
    if a.Some? && b.Some? { DeleteBetweenIs(w.db.messages, a.value, b.value); }
  }

  lemma RegisterDelivers(w: World, r: Request, env: Env, pre: set<nat>)
    requires DeliveredOnce(w, pre) && MessagesOk(w.db) && UniqueNames(w.db.users)
    ensures DeliveredOnce(w.(db := HandleRegister(w.db, r, env).0), pre)
  {
    var w' := w.(db := HandleRegister(w.db, r, env).0);
    if HandleRegister(w.db, r, env).1 == 0 {
      RegisterNames(w.db.users, User(r.username, env.hash(r.password), false));
    }
    NothingNew(w, w', pre);
  }

  lemma HandleDelivers(w: World, cache: Cache, socket: int, r: Request, now: int, env: Env, pre: set<nat>)
    requires DeliveredOnce(w, pre) && MessagesOk(w.db) && UniqueNames(w.db.users)
    requires Reliable(env, |Handle(w, cache, socket, r, now, env).0.net.log|)
    requires IndexSound(w.table) && w.table.live.Keys <= w.net.open
    requires r.kind.Login? ==> socket in w.table.live
    ensures DeliveredOnce(Handle(w, cache, socket, r, now, env).0, pre)
  {
    match r.kind
    case Register => RegisterDelivers(w, r, env, pre);
    case Login => if LoginCode(w.db, r, env) == 0 { LoginDelivers(w, cache, socket, r, now, env, pre); }
    case SendMsg => SendDelivers(w, r, now, env, pre);
    case AddFriend => NothingNew(w, w.(db := HandleAddFriend(w.db, r).0), pre);
    case DelFriend => DeleteDelivers(w, r, pre);
    case _ =>
  }

  lemma ReceiveDelivers(s: Server, socket: int, r: Request, env: Env, pre: set<nat>)
    requires Always(s) && Enabled(s, Receive(socket, r))
    requires Reliable(env, |Next(s, Receive(socket, r), env).w.net.log|)
    requires DeliveredOnce(s.w, pre) && MessagesOk(s.w.db)
    ensures DeliveredOnce(Next(s, Receive(socket, r), env).w, pre)
  {
    DispatchDelivers(s.w, s.cache, socket, r, s.now, env, pre);
  }

  lemma DispatchDelivers(w: World, cache: Cache, socket: int, r: Request, now: int, env: Env, pre: set<nat>)
    requires DeliveredOnce(w, pre) && MessagesOk(w.db) && UniqueNames(w.db.users)
    requires IndexSound(w.table) && w.table.live.Keys <= w.net.open && (r.kind.Login? ==> socket in w.table.live)
    requires Reliable(env, |Dispatch(w, cache, socket, r, now, env).0.net.log|)
    ensures DeliveredOnce(Dispatch(w, cache, socket, r, now, env).0, pre)
  {
    var w0 := Heard(w, socket, r, now);
    SameLoginsIndex(w.table, w0.table);
    NothingNew(w, w0, pre);
    var e := Effective(w0.table, socket, r);
    HandleDelivers(w0, cache, socket, e, now, env, pre);
    HandleEvolves(w0, cache, socket, e, now, env);
    var (w1, cache1, code) := Handle(w0, cache, socket, e, now, env);
    NothingNew(w1, w1.(net := Send(w1.net, socket, Reply(code), env)), pre);
  }

  // ---- the other steps make nobody ready ----

  lemma EndReady(s: Server, s': Server, socket: int)
    requires Always(s) && Ended(s, s', socket)
    requires s.w.net.shut - {socket} <= s'.w.net.shut
    ensures forall name :: Ready(s'.w, name) ==> Ready(s.w, name)
  {
    RemoveKeepsIndex(s.w.table, socket);
    forall u | u in s'.w.table.index
      ensures u in s.w.table.index && s'.w.table.index[u] == s.w.table.index[u] && s'.w.table.index[u] != socket
    {
      assert s.w.table.live[s.w.table.index[u]].username == u;
    }
    FewerReady(s.w, s'.w);
  }

  lemma {:induction false} SweepReady(s: Server, order: seq<int>, env: Env)
    requires Always(s)
    ensures forall name :: Ready(SweepAll(s, order, env).w, name) ==> Ready(s.w, name)
    decreases |order|
  {
    if order != [] {
      var s1 := SweepOne(s, order[0], env);
      SweepOneKeepsAll(s, order[0], env);
      if order[0] in s.w.table.live && Expired(s.w.table.live[order[0]], s.now) {
        SweepOneEffect(s, order[0], env);
        EndReady(s, s1, order[0]);
      }
      SweepReady(s1, order[1..], env);
    }
  }

  lemma NonRequestReady(s: Server, step: Step, env: Env)
    requires Always(s) && Enabled(s, step) && !step.Receive?
    ensures forall name :: Ready(Next(s, step, env).w, name) ==> Ready(s.w, name)
  {
    match step
    case Disconnect(socket) =>
      DisconnectEffect(s, socket, env);
      EndReady(s, Next(s, step, env), socket);
    case Fail(socket) =>
      FailEffect(s, socket);
      EndReady(s, Next(s, step, env), socket);
    case Sweep(order) => SweepReady(s, order, env);
    case Stop(order) =>
      StopAllEffect(s.(running := false), order);
      FewerReady(s.w, Next(s, step, env).w);
    case Accept(socket) => FewerReady(s.w, Next(s, step, env).w);
    case _ =>
  }

  lemma StepDelivers(s: Server, step: Step, env: Env, pre: set<nat>)
    requires Always(s) && Enabled(s, step) && Reliable(env, |Next(s, step, env).w.net.log|) &&
      DeliveredOnce(s.w, pre) && MessagesOk(s.w.db)
    ensures DeliveredOnce(Next(s, step, env).w, pre)
  {
    match step
    case Receive(socket, r) => ReceiveDelivers(s, socket, r, env, pre);
    case _ =>
      NonRequestMessages(s, step, env);
      NonRequestReady(s, step, env);
      NothingNew(s.w, Next(s, step, env).w, pre);
  }

  lemma InitialDelivers(s: Server)
    requires Initial(s)
    ensures MessagesOk(s.w.db) && DeliveredOnce(s.w, ReadIds(s.w.db.messages))
  {
    var pre := ReadIds(s.w.db.messages);
    forall m | m in s.w.db.messages ensures m.id in pre <==> m.isRead {
      var i :| 0 <= i < |s.w.db.messages| && s.w.db.messages[i] == m;
      assert m.isRead ==> s.w.db.messages[i].id in pre;
    }
  }

  lemma {:induction false} RunDelivers(s: Server, steps: seq<Step>, env: Env)
    requires Initial(s) && ValidRun(s, steps, env) && Reliable(env, |Exec(s, steps, env).w.net.log|)
    ensures MessagesOk(Exec(s, steps, env).w.db) && DeliveredOnce(Exec(s, steps, env).w, ReadIds(s.w.db.messages))
  {
    InitialDelivers(s);
    if steps != [] {
      var before := steps[..|steps| - 1];
      InitialHolds(s);
      RunsKeepAll(s, before, env);
      StepIsAddressed(Exec(s, before, env), steps[|steps| - 1], env);
      RunDelivers(s, before, env);
      StepDelivers(Exec(s, before, env), steps[|steps| - 1], env, ReadIds(s.w.db.messages));
      StepEvolves(Exec(s, before, env), steps[|steps| - 1], env);
    }
  }

  // Exactly-once delivery. If the network carried every send of the run: every message stored or
  // unread at the start has been forwarded exactly once if it is read and never if it is not; and
  // while the server runs, no user bound to a socket that is not shut down has an unread message.
  lemma DeliveredExactlyOnce(s: Server, steps: seq<Step>, env: Env)
    requires Initial(s) && ValidRun(s, steps, env) && Reliable(env, |Exec(s, steps, env).w.net.log|)
    ensures var e := Exec(s, steps, env);
            var pre := ReadIds(s.w.db.messages);
            && (forall m :: m in e.w.db.messages && m.id !in pre ==>
                  Forwards(e.w.net.log, m.id) == if m.isRead then 1 else 0)
            && (e.running ==> forall m :: m in e.w.db.messages && !m.isRead ==>
                  var name := NameOf(e.w.db.users, m.receiver);
                  name !in e.w.table.index || e.w.table.index[name] in e.w.net.shut)
  {
    RunDelivers(s, steps, env);
    InitialHolds(s);
    RunsKeepAll(s, steps, env);
  }
}
