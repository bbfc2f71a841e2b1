// send_time over whole runs: rows are stored in the order of the clock, so the offline push sends
// them in the order in which they were written, each with the time at which it was stored.
module SendTimes {
  import opened ChatTypes
  import opened Tables
  import opened Sessions
  import opened Handlers
  import opened ServerModel
  import opened Effects
  import opened Invariants
  import opened MessageTable
  import opened OfflinePush
  import opened Delivery
  import opened Requests

  // Rows stand in the order of their send times, and none is from the future.
  ghost predicate Timely(messages: seq<Message>, now: int) {
    SortedByTime(messages) && forall i :: 0 <= i < |messages| ==> messages[i].sendTime <= now
  }

  // ---- one step ----

  lemma MoreReadTimely(a: seq<Message>, b: seq<Message>, now: int)
    requires Timely(a, now) && MoreRead(a, b)
    ensures Timely(b, now)
  {
    assert forall i :: 0 <= i < |a| ==> b[i].sendTime == a[i].sendTime;
  }

  lemma {:induction false} DeleteTimely(messages: seq<Message>, a: UserId, b: UserId, now: int)
    requires Timely(messages, now)
    ensures Timely(DeleteBetween(messages, a, b), now)
  {
    if messages != [] {
      var before, last := messages[..|messages| - 1], messages[|messages| - 1];
      DeleteTimely(before, a, b, now);
      DeleteBetweenIs(before, a, b);
      var kept := DeleteBetween(before, a, b);
      forall i | 0 <= i < |kept| ensures kept[i].sendTime <= last.sendTime {
        assert kept[i] in before;
      }
    }
  }

  lemma StoreTimely(w: World, a: UserId, b: UserId, e: Request, now: int, env: Env)
    requires Timely(w.db.messages, now) && IndexSound(w.table) && UniqueNames(w.db.users)
    requires IsUser(w.db.users, a, e.username) && IsUser(w.db.users, b, e.target)
    ensures Timely(StoreAndForward(w, a, b, e, now, env).db.messages, now)
  {
    StoreAndForwardIs(w, a, b, e, now, env);
  }

  lemma HandleTimely(w: World, cache: Cache, socket: int, e: Request, now: int, env: Env)
    requires Timely(w.db.messages, now) && IndexSound(w.table) && UniqueNames(w.db.users)
    ensures Timely(Handle(w, cache, socket, e, now, env).0.db.messages, now)
  {
    match e.kind
    case SendMsg =>
      if SendCode(w.db, e) == 0 {
        StoreTimely(w, FindUser(w.db.users, e.username).value, FindUser(w.db.users, e.target).value, e, now, env);
      }
    case Login =>
      if LoginCode(w.db, e, env) == 0 {
        LoginEffect(w, socket, e, now, env);
        var w1 := HandleLogin(w, socket, e, now, env).0;
        PushOfflineEffect(w1, e.username, env);
        MoreReadTimely(w1.db.messages, PushOffline(w1, e.username, env).db.messages, now);
      }
    case DelFriend =>
      var a, b := FindUser(w.db.users, e.username), FindUser(w.db.users, FriendTarget(e));
      if a.Some? && b.Some? { DeleteTimely(w.db.messages, a.value, b.value, now); }
    case _ =>
  }

  lemma StepTimely(s: Server, step: Step, env: Env)
    requires Always(s) && Enabled(s, step) && Timely(s.w.db.messages, s.now)
    ensures Timely(Next(s, step, env).w.db.messages, Next(s, step, env).now) && s.now <= Next(s, step, env).now
  {
    match step
    case Receive(socket, r) =>
      var w0 := Heard(s.w, socket, r, s.now);
      SameLoginsIndex(s.w.table, w0.table);
      HandleTimely(w0, s.cache, socket, Effective(w0.table, socket, r), s.now, env);
    case Tick(d) =>
    case _ =>
      NonRequestMessages(s, step, env);
      ClockStands(s, step, env);
  }

  lemma ClockStands(s: Server, step: Step, env: Env)
    requires Always(s) && Enabled(s, step) && !step.Tick? && !step.Receive?
    ensures Next(s, step, env).now == s.now
  {
    match step
    case Disconnect(socket) => DisconnectEffect(s, socket, env);
    case Fail(socket) => FailEffect(s, socket);
    case Sweep(order) => ClockInSweep(s, order, env);
    case Stop(order) => StopAllEffect(s.(running := false), order);
    case _ =>
  }

  lemma {:induction false} ClockInSweep(s: Server, order: seq<int>, env: Env)
    ensures SweepAll(s, order, env).now == s.now
    decreases |order|
  {
    if order != [] { ClockInSweep(SweepOne(s, order[0], env), order[1..], env); }
  }

  // Over every run from tables that stand in the order of the clock, they stay so.
  lemma {:induction false} TimesOverRuns(s: Server, steps: seq<Step>, env: Env)
    requires Initial(s) && ValidRun(s, steps, env) && Timely(s.w.db.messages, s.now)
    ensures Timely(Exec(s, steps, env).w.db.messages, Exec(s, steps, env).now)
  {
    if steps != [] {
      var before := steps[..|steps| - 1];
      TimesOverRuns(s, before, env);
      InitialHolds(s);
      RunsKeepAll(s, before, env);
      StepTimely(Exec(s, before, env), steps[|steps| - 1], env);
    }
  }

  // ---- the push ----

  lemma InsertLast(rows: seq<Message>, m: Message)
    requires rows == [] || rows[|rows| - 1].sendTime <= m.sendTime
    ensures InsertByTime(rows, m) == rows + [m]
  {
  }

  lemma {:induction false} SortedStays(rows: seq<Message>)
    requires SortedByTime(rows)
    ensures OrderBySendTime(rows) == rows
  {
    if rows != [] {
      var before, last := rows[..|rows| - 1], rows[|rows| - 1];
      SortedStays(before);
      InsertLast(before, last);
      assert rows == before + [last];
    }
  }

  lemma {:induction false} UnreadInOrder(users: seq<User>, messages: seq<Message>, receiver: UserId)
    requires SortedByTime(messages) && Ascending(messages)
    ensures SortedByTime(UnreadRows(users, messages, receiver)) && Ascending(UnreadRows(users, messages, receiver))
  {
    if messages != [] {
      var before, last := messages[..|messages| - 1], messages[|messages| - 1];
      UnreadInOrder(users, before, receiver);
      UnreadRowsAre(users, before, receiver);
      var rows := UnreadRows(users, before, receiver);
      forall i | 0 <= i < |rows| ensures rows[i].sendTime <= last.sendTime && rows[i].id < last.id {
        assert rows[i] in before;
      }
    }
  }

  // What the k-th row of a push is sent as: its own id, users, text and time.
  function PushedAs(users: seq<User>, m: Message): Payload
    requires m.sender < |users|
  {
    ForwardMsg(m.id, m.sender, m.receiver, users[m.sender].username, m.content, Some(m.sendTime))
  }

  // From the n-th send on, the log holds these rows, each as its own message followed by its notice.
  ghost predicate PushedFrom(users: seq<User>, net: Net, socket: int, rows: seq<Message>, n: nat, env: Env) {
    && n + 2 * |rows| <= |net.log|
    && forall k :: 0 <= k < |rows| ==>
         && rows[k].sender < |users|
         && net.log[n + 2 * k] == Sent(socket, PushedAs(users, rows[k]), Brings(net, socket, n + 2 * k, env))
         && net.log[n + 2 * k + 1] ==
            Sent(socket, MsgNotify(users[rows[k].sender].username), Brings(net, socket, n + 2 * k + 1, env))
  }

  lemma RowsPushedInOrder(w: World, socket: int, rows: seq<Message>, env: Env)
    requires RowsReach(w, socket, rows) && forall k :: 0 <= k < |rows| ==> rows[k].sender < |w.db.users|
    ensures var net := PushRows(w, socket, rows, env).net;
            PushedFrom(w.db.users, net, socket, rows, |w.net.log|, env) && |net.log| == |w.net.log| + 2 * |rows|
  {
    PushRowsLog(w, socket, rows, env);
    PushRowsNotices(w, socket, rows, env);
  }

  // Later sends, and changes of presence flags, do not matter.
  lemma PushedStays(users: seq<User>, users': seq<User>, net: Net, net': Net, socket: int, rows: seq<Message>, n: nat,
                    env: Env)
    requires PushedFrom(users, net, socket, rows, n, env) && |users'| == |users|
    requires forall i :: 0 <= i < |users| ==> users'[i].username == users[i].username
    requires net'.open == net.open && net'.shut == net.shut && Grew(net.log, net'.log)
    ensures PushedFrom(users', net', socket, rows, n, env)
  {
    assert forall k :: 0 <= k < |net.log| ==> net'.log[k] == net.log[k] by {
      assert forall k :: 0 <= k < |net.log| ==> net'.log[..|net.log|][k] == net'.log[k];
    }
  }

  // The pending messages of a user.
  ghost predicate Pending(messages: seq<Message>, id: UserId, rows: seq<Message>) {
    && Ascending(rows) && SortedByTime(rows)
    && forall m :: m in rows <==> m in messages && m.receiver == id && !m.isRead
  }

  // They go out in the order in which they were stored: row k is the k-th unread row by id, sent with
  // the time it was stored at, and followed by its notice.
  lemma PushInStoredOrder(w: World, name: string, id: UserId, socket: int, env: Env,
                          now: int) returns (rows: seq<Message>)
    requires PushReady(w, name, id, socket) && MessagesOk(w.db) && Timely(w.db.messages, now)
    ensures Pending(w.db.messages, id, rows)
    ensures var net := PushOffline(w, name, env).net;
            PushedFrom(w.db.users, net, socket, rows, |w.net.log|, env) && |net.log| == |w.net.log| + 2 * |rows|
  {
    rows := UnreadRows(w.db.users, w.db.messages, id);
    UnreadInOrder(w.db.users, w.db.messages, id);
    SortedStays(rows);
    UnreadRowsAre(w.db.users, w.db.messages, id);
    PushReaches(w, name, id, socket);
    forall k | 0 <= k < |rows| ensures rows[k].sender < |w.db.users| { assert rows[k] in rows; }
    RowsPushedInOrder(w, socket, rows, env);
  }

  // A login ends with the push of the user's pending messages, in the order in which they were stored,
  // and the reply.
  lemma LoginPushes(s: Server, socket: int, r: Request, env: Env, a: UserId) returns (n: nat, rows: seq<Message>)
    requires Always(s) && Enabled(s, Receive(socket, r)) && MessagesOk(s.w.db) && Timely(s.w.db.messages, s.now)
    requires a < |s.w.db.users| && LoginName(s.w, socket, r, s.now, env) == Some(s.w.db.users[a].username)
    ensures Pending(s.w.db.messages, a, rows)
    ensures var net := Next(s, Receive(socket, r), env).w.net;
            && |s.w.net.log| <= n && |net.log| == n + 2 * |rows| + 1
            && PushedFrom(s.w.db.users, net, socket, rows, n, env)
            && net.log[n + 2 * |rows|] == Sent(socket, Reply(0), Brings(net, socket, n + 2 * |rows|, env))
  {
    var e, w0, w1, cache1;
    e, w0, w1, cache1, n, rows := LoginHandled(s, socket, r, env, a);
    NextAnswers(s, socket, r, env, e, w0, w1, cache1, 0);
    PushedStays(s.w.db.users, s.w.db.users, w1.net, Answered(w1, socket, 0, env).net, socket, rows, n, env);
  }

  lemma LoginHandled(s: Server, socket: int, r: Request, env: Env, a: UserId)
    returns (e: Request, w0: World, w1: World, cache1: Cache, n: nat, rows: seq<Message>)
    requires Always(s) && Enabled(s, Receive(socket, r)) && MessagesOk(s.w.db) && Timely(s.w.db.messages, s.now)
    requires a < |s.w.db.users| && LoginName(s.w, socket, r, s.now, env) == Some(s.w.db.users[a].username)
    ensures w0 == Heard(s.w, socket, r, s.now) && e == Effective(w0.table, socket, r)
    ensures Handle(w0, s.cache, socket, e, s.now, env) == (w1, cache1, 0)
    ensures Pending(s.w.db.messages, a, rows) && |s.w.net.log| <= n && |w1.net.log| == n + 2 * |rows|
    ensures PushedFrom(s.w.db.users, w1.net, socket, rows, n, env)
  {
    e, w0 := RequestIs(s, socket, r);
    n, rows := LoginPushesRows(w0, s.cache, socket, e, s.now, env, a);
    var (w', cache', code) := LoginAndPush(w0, s.cache, socket, e, s.now, env);
    w1, cache1 := w', cache';
  }

  lemma LoginPushesRows(w: World, cache: Cache, socket: int, e: Request, now: int, env: Env, a: UserId)
    returns (n: nat, rows: seq<Message>)
    requires UniqueNames(w.db.users) && MessagesOk(w.db) && Timely(w.db.messages, now) && socket in w.table.live
    requires IsUser(w.db.users, a, e.username) && LoginCode(w.db, e, env) == 0
    ensures Pending(w.db.messages, a, rows) && |w.net.log| <= n
    ensures var (w', cache', code) := LoginAndPush(w, cache, socket, e, now, env);
            code == 0 && |w'.net.log| == n + 2 * |rows| && PushedFrom(w.db.users, w'.net, socket, rows, n, env)
  {
    var w1 := HandleLogin(w, socket, e, now, env).0;
    LoginIsReady(w, w1, socket, e, now, env, a);
    n := |w1.net.log|;
    rows := PushInStoredOrder(w1, e.username, a, socket, env, now);
    var net := PushOffline(w1, e.username, env).net;
    PushedStays(w1.db.users, w.db.users, net, net, socket, rows, n, env);
  }

  lemma LoginIsReady(w: World, w1: World, socket: int, e: Request, now: int, env: Env, a: UserId)
    requires UniqueNames(w.db.users) && MessagesOk(w.db) && socket in w.table.live
    requires IsUser(w.db.users, a, e.username) && LoginCode(w.db, e, env) == 0
    requires w1 == HandleLogin(w, socket, e, now, env).0
    ensures PushReady(w1, e.username, a, socket) && w1.db == w.db.(users := w1.db.users) && MessagesOk(w1.db)
    ensures |w1.db.users| == |w.db.users| && |w.net.log| <= |w1.net.log|
    ensures forall i :: 0 <= i < |w.db.users| ==> w1.db.users[i].username == w.db.users[i].username
  {
    FindUserIsTheRow(w.db.users, a);
    LoginEffect(w, socket, e, now, env);
    SetOnlineNames(w.db.users, a);
    FindUserIsTheRow(w1.db.users, a);
  }
}
