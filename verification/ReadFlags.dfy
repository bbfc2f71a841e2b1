// The read flag over whole runs, whatever sends fail: when it is up, how often a message is
// forwarded, and when a message is lost.
module ReadFlags {
  import opened ChatTypes
  import opened Tables
  import opened Sessions
  import opened Handlers
  import opened ServerModel
  import opened Effects
  import opened Invariants
  import opened MessageTable
  import opened OfflinePush
  import opened Delivery

  // ---- read means forwarded on the pair ----

  predicate PairForward(e: Sent, sender: UserId, receiver: UserId) {
    e.ok && e.payload.ForwardMsg? && e.payload.sender == sender && e.payload.receiver == receiver
  }

  ghost predicate ForwardedSince(log: seq<Sent>, start: nat, sender: UserId, receiver: UserId) {
    exists k :: start <= k < |log| && PairForward(log[k], sender, receiver)
  }

  // `pre` holds the ids that were already read when the run began.
  ghost predicate JustifiedRow(log: seq<Sent>, m: Message, pre: set<nat>) {
    && m.storedAt <= |log|
    && (m.id !in pre ==> (m.isRead <==> ForwardedSince(log, m.storedAt, m.sender, m.receiver)))
  }

  ghost predicate Justified(w: World, pre: set<nat>) {
    forall m :: m in w.db.messages ==> JustifiedRow(w.net.log, m, pre)
  }

  lemma QuietSince(log: seq<Sent>, log': seq<Sent>, start: nat, sender: UserId, receiver: UserId)
    requires QuietGrowth(log, log') && start <= |log|
    ensures ForwardedSince(log', start, sender, receiver) <==> ForwardedSince(log, start, sender, receiver)
  {
    if ForwardedSince(log, start, sender, receiver) {
      var k :| start <= k < |log| && PairForward(log[k], sender, receiver);
      assert log'[k] == log'[..|log|][k];
    }
    if ForwardedSince(log', start, sender, receiver) {
      var k :| start <= k < |log'| && PairForward(log'[k], sender, receiver);
      assert log'[k] == log'[..|log|][k];
    }
  }

  lemma QuietJustifies(w: World, w': World, pre: set<nat>)
    requires Justified(w, pre) && QuietGrowth(w.net.log, w'.net.log)
    requires forall m :: m in w'.db.messages ==> m in w.db.messages
    ensures Justified(w', pre)
  {
    forall m | m in w'.db.messages ensures JustifiedRow(w'.net.log, m, pre) {
      QuietSince(w.net.log, w'.net.log, m.storedAt, m.sender, m.receiver);
    }
  }

  lemma SinceStep(log: seq<Sent>, e: Sent, start: nat, sender: UserId, receiver: UserId)
    requires start <= |log|
    ensures ForwardedSince(log + [e], start, sender, receiver) <==>
            ForwardedSince(log, start, sender, receiver) || PairForward(e, sender, receiver)
  {
    var log' := log + [e];
    if ForwardedSince(log, start, sender, receiver) {
      var k :| start <= k < |log| && PairForward(log[k], sender, receiver);
      assert log'[k] == log[k];
    }
    if PairForward(e, sender, receiver) { assert log'[|log|] == e; }
  }

  lemma ForwardJustifies(w: World, socket: int, receiverName: string, payload: Payload, env: Env, pre: set<nat>)
    requires payload.ForwardMsg? && Justified(w, pre) && SocketOf(w.table, receiverName).Some?
    ensures Justified(ForwardAndNotify(w, socket, receiverName, payload, env), pre)
  {
    var w' := ForwardAndNotify(w, socket, receiverName, payload, env);
    var n := |w.net.log|;
    var first, second := w'.net.log[n], w'.net.log[n + 1];
    assert w'.net.log == (w.net.log + [first]) + [second];
    forall m' | m' in w'.db.messages ensures JustifiedRow(w'.net.log, m', pre) {
      var i :| 0 <= i < |w'.db.messages| && w'.db.messages[i] == m';
      var m := w.db.messages[i];
      assert m in w.db.messages;
      SinceStep(w.net.log, first, m.storedAt, m.sender, m.receiver);
      SinceStep(w.net.log + [first], second, m.storedAt, m.sender, m.receiver);
    }
  }

  lemma {:induction false} PushJustifies(w: World, socket: int, rows: seq<Message>, env: Env, pre: set<nat>)
    requires Justified(w, pre) && RowsReach(w, socket, rows)
    ensures Justified(PushRows(w, socket, rows, env), pre)
    decreases |rows|
  {
    if rows != [] {
      var w1 := PushRow(w, socket, rows[0], env);
      PushRowExact(w, socket, rows[0], env);
      ForwardJustifies(w, socket, NameOf(w.db.users, rows[0].receiver), OfflinePayload(w.db.users, rows[0]), env, pre);
      assert RowsReach(w1, socket, rows[1..]);
      PushJustifies(w1, socket, rows[1..], env, pre);
    }
  }

  lemma SendJustifies(w: World, r: Request, now: int, env: Env, pre: set<nat>)
    requires Justified(w, pre)
    ensures Justified(HandleSend(w, r, now, env).0, pre)
  {
    if SendCode(w.db, r) == 0 {
      var sender := FindUser(w.db.users, r.username).value;
      var receiver := FindUser(w.db.users, r.target).value;
      var w1 := w.(db := StoreMessage(w.db, sender, receiver, r.content, now, |w.net.log|));
      assert Justified(w1, pre);
      if w1.db.users[receiver].isOnline && SocketOf(w1.table, r.target).Some? {
        ForwardJustifies(w1, SocketOf(w1.table, r.target).value, r.target,
          ForwardMsg(w.db.nextMessageId, sender, receiver, r.username, r.content, None), env, pre);
      }
    }
  }

  lemma LoginJustifies(w: World, cache: Cache, socket: int, r: Request, now: int, env: Env, pre: set<nat>)
    requires Justified(w, pre)
    ensures Justified(LoginAndPush(w, cache, socket, r, now, env).0, pre)
  {
    if LoginCode(w.db, r, env) == 0 {
      LoginEffect(w, socket, r, now, env);
      var w1 := HandleLogin(w, socket, r, now, env).0;
      QuietJustifies(w, w1, pre);
      var id := FindUser(w1.db.users, r.username);
      if id.Some? && SocketOf(w1.table, r.username).Some? {
        var x := SocketOf(w1.table, r.username).value;
        PushReaches(w1, r.username, id.value, x);
        PushJustifies(w1, x, UnreadMessages(w1.db, id.value), env, pre);
      }
    }
  }

  lemma HandleJustifies(w: World, cache: Cache, socket: int, r: Request, now: int, env: Env, pre: set<nat>)
    requires Justified(w, pre)
    ensures Justified(Handle(w, cache, socket, r, now, env).0, pre)
  {
    match r.kind
    case SendMsg => SendJustifies(w, r, now, env, pre);
    case Login => LoginJustifies(w, cache, socket, r, now, env, pre);
    case DelFriend =>
      var a := FindUser(w.db.users, r.username);
      var b := FindUser(w.db.users, FriendTarget(r));
      if a.Some? && b.Some? { DeleteBetweenIs(w.db.messages, a.value, b.value); }
    case _ =>
  }

  lemma StepJustifies(s: Server, step: Step, env: Env, pre: set<nat>)
    requires Always(s) && Enabled(s, step) && Justified(s.w, pre)
    ensures Justified(Next(s, step, env).w, pre)
  {
    match step
    case Receive(socket, r) =>
      var w0 := Heard(s.w, socket, r, s.now);
      var e := Effective(w0.table, socket, r);
      HandleJustifies(w0, s.cache, socket, e, s.now, env, pre);
      QuietJustifies(Handle(w0, s.cache, socket, e, s.now, env).0, Next(s, step, env).w, pre);
    case _ =>
      NonRequestMessages(s, step, env);
      QuietJustifies(s.w, Next(s, step, env).w, pre);
  }

  ghost function ReadIds(messages: seq<Message>): set<nat> {
    set i | 0 <= i < |messages| && messages[i].isRead :: messages[i].id
  }

  lemma ReadIdsAre(messages: seq<Message>)
    requires Ascending(messages)
    ensures forall m :: m in messages ==> (m.id in ReadIds(messages) <==> m.isRead)
  {
    forall m | m in messages ensures m.id in ReadIds(messages) <==> m.isRead {
      var i :| 0 <= i < |messages| && messages[i] == m;
      assert m.isRead ==> messages[i].id in ReadIds(messages);
    }
  }

  // Whatever sends fail: a message that was not read at the start is read exactly when some forward
  // on its own (sender, receiver) pair arrived after it was stored.
  lemma {:induction false} ReadIffForwarded(s: Server, steps: seq<Step>, env: Env)
    requires Initial(s) && ValidRun(s, steps, env)
    ensures Justified(Exec(s, steps, env).w, ReadIds(s.w.db.messages))
  {
    var pre := ReadIds(s.w.db.messages);
    if steps == [] {
      ReadIdsAre(s.w.db.messages);
    } else {
      var before := steps[..|steps| - 1];
      ReadIffForwarded(s, before, env);
      InitialHolds(s);
      RunsKeepAll(s, before, env);
      StepJustifies(Exec(s, before, env), steps[|steps| - 1], env, pre);
    }
  }

  // ---- at most once ----

  // No id has arrived twice, and one that arrived is read, as long as its row is there.
  ghost predicate AtMostOnce(w: World) {
    && (forall id: nat :: Forwards(w.net.log, id) <= if id < w.db.nextMessageId then 1 else 0)
    && (forall m :: m in w.db.messages && Forwards(w.net.log, m.id) == 1 ==> m.isRead)
  }

  // No new forward; rows were only dropped or became read.
  lemma QuietAtMostOnce(w: World, w': World)
    requires AtMostOnce(w) && QuietGrowth(w.net.log, w'.net.log) && w.db.nextMessageId <= w'.db.nextMessageId
    requires forall m :: m in w'.db.messages ==> m in w.db.messages
    ensures AtMostOnce(w')
  {
    forall id: nat ensures Forwards(w'.net.log, id) == Forwards(w.net.log, id) {
      ForwardsQuiet(w.net.log, w'.net.log, id);
    }
  }

  // One forward, of a row that has not arrived yet.
  lemma ForwardAtMostOnce(w: World, socket: int, receiverName: string, row: Message, payload: Payload, env: Env)
    requires AtMostOnce(w) && MessagesOk(w.db) && SocketOf(w.table, receiverName).Some?
    requires row in w.db.messages && !row.isRead
    requires payload.ForwardMsg? && payload.id == row.id && payload.sender == row.sender &&
      payload.receiver == row.receiver
    ensures AtMostOnce(ForwardAndNotify(w, socket, receiverName, payload, env))
  {
    var w' := ForwardAndNotify(w, socket, receiverName, payload, env);
    var x := SocketOf(w.table, receiverName).value;
    forall id: nat
      ensures Forwards(w'.net.log, id) ==
              Forwards(w.net.log, id) + if Delivered(w.net, x, env) && payload.id == id then 1 else 0
    {
      ForwardAdds(w, socket, receiverName, payload, env, x, id);
    }
    forall m' | m' in w'.db.messages && Forwards(w'.net.log, m'.id) == 1 ensures m'.isRead {
      var i :| 0 <= i < |w'.db.messages| && w'.db.messages[i] == m';
      assert w.db.messages[i] in w.db.messages;
      if m'.id == row.id { SameIdSameRow(w.db.messages, w.db.messages[i], row); }
    }
  }

  lemma SendAtMostOnce(w: World, r: Request, now: int, env: Env)
    requires AtMostOnce(w) && MessagesOk(w.db)
    ensures AtMostOnce(HandleSend(w, r, now, env).0)
  {
    if SendCode(w.db, r) == 0 {
      var sender := FindUser(w.db.users, r.username).value;
      var receiver := FindUser(w.db.users, r.target).value;
      var w1 := w.(db := StoreMessage(w.db, sender, receiver, r.content, now, |w.net.log|));
      StoreEvolves(w.db, sender, receiver, r.content, now, |w.net.log|);
      var row := w1.db.messages[|w.db.messages|];
      assert forall m :: m in w1.db.messages ==> m in w.db.messages || m == row;
      if w1.db.users[receiver].isOnline && SocketOf(w1.table, r.target).Some? {
        ForwardAtMostOnce(w1, SocketOf(w1.table, r.target).value, r.target, row,
          ForwardMsg(w.db.nextMessageId, sender, receiver, r.username, r.content, None), env);
      }
    }
  }

  lemma PushAtMostOnce(w: World, name: string, id: UserId, socket: int, env: Env)
    requires AtMostOnce(w) && MessagesOk(w.db) && PushReady(w, name, id, socket)
    ensures AtMostOnce(PushOffline(w, name, env))
  {
    var rows := UnreadMessages(w.db, id);
    var w' := PushOffline(w, name, env);
    PushReaches(w, name, id, socket);
    UnreadMessagesAre(w.db, id);
    PushRowsMarks(w, socket, rows, env);
    forall x: nat ensures Forwards(w'.net.log, x) <= if x < w.db.nextMessageId then 1 else 0 {
      PushForwardsOneId(w, name, id, socket, env, x);
    }
    forall m' | m' in w'.db.messages && Forwards(w'.net.log, m'.id) == 1 ensures m'.isRead {
      var i :| 0 <= i < |w'.db.messages| && w'.db.messages[i] == m';
      var m := w.db.messages[i];
      assert m in w.db.messages;
      PushForwardsOneId(w, name, id, socket, env, m.id);
      if Forwards(w.net.log, m.id) == 0 {
        var j :| 0 <= j < |rows| && rows[j].id == m.id && Arrives(w, socket, j, env);
        assert rows[j] in rows;
        SameIdSameRow(w.db.messages, rows[j], m);
        assert PairArrives(w, socket, rows, m.sender, m.receiver, env);
      }
    }
  }

  // What a push adds for one id: at most one arrival, of one of its unread rows.
  lemma PushForwardsOneId(w: World, name: string, id: UserId, socket: int, env: Env, x: nat)
    requires AtMostOnce(w) && MessagesOk(w.db) && PushReady(w, name, id, socket)
    ensures var rows, w' := UnreadMessages(w.db, id), PushOffline(w, name, env);
            && Forwards(w'.net.log, x) <= (if x < w.db.nextMessageId then 1 else 0)
            && Forwards(w.net.log, x) <= Forwards(w'.net.log, x)
            && (Forwards(w.net.log, x) < Forwards(w'.net.log, x) ==>
                  IdArrives(w, socket, rows, x, env))
  {
    var rows := UnreadMessages(w.db, id);
    PushReaches(w, name, id, socket);
    UnreadMessagesAre(w.db, id);
    PushRowsForwardsAtMost(w, socket, rows, env, x);
    if HasUnread(w.db.users, w.db.messages, id, x) {
      var u :| u in w.db.messages && u.id == x && IsUnreadFor(w.db.users, u, id);
      assert Forwards(w.net.log, x) == 0;
    }
  }

  lemma HandleAtMostOnce(w: World, cache: Cache, socket: int, r: Request, now: int, env: Env)
    requires AtMostOnce(w) && MessagesOk(w.db)
    ensures AtMostOnce(Handle(w, cache, socket, r, now, env).0)
  {
    match r.kind
    case Register => QuietAtMostOnce(w, w.(db := HandleRegister(w.db, r, env).0));
    case SendMsg => SendAtMostOnce(w, r, now, env);
    case Login =>
      if LoginCode(w.db, r, env) == 0 {
        LoginEffect(w, socket, r, now, env);
        var w1 := HandleLogin(w, socket, r, now, env).0;
        QuietAtMostOnce(w, w1);
        var id := FindUser(w1.db.users, r.username);
        if id.Some? && SocketOf(w1.table, r.username).Some? {
          SameMessagesEvolve(w.db, w1.db);
          PushAtMostOnce(w1, r.username, id.value, SocketOf(w1.table, r.username).value, env);
        }
      }
    case AddFriend => QuietAtMostOnce(w, w.(db := HandleAddFriend(w.db, r).0));
    case DelFriend =>
      var a := FindUser(w.db.users, r.username);
      var b := FindUser(w.db.users, FriendTarget(r));
      if a.Some? && b.Some? { DeleteBetweenIs(w.db.messages, a.value, b.value); }
      QuietAtMostOnce(w, w.(db := HandleDeleteFriend(w.db, r).0));
    case _ =>
  }

  lemma StepAtMostOnce(s: Server, step: Step, env: Env)
    requires Always(s) && Enabled(s, step) && AtMostOnce(s.w) && MessagesOk(s.w.db)
    ensures AtMostOnce(Next(s, step, env).w)
  {
    match step
    case Receive(socket, r) =>
      var w0 := Heard(s.w, socket, r, s.now);
      var e := Effective(w0.table, socket, r);
      HandleAtMostOnce(w0, s.cache, socket, e, s.now, env);
      QuietAtMostOnce(Handle(w0, s.cache, socket, e, s.now, env).0, Next(s, step, env).w);
    case _ =>
      NonRequestMessages(s, step, env);
      QuietAtMostOnce(s.w, Next(s, step, env).w);
  }

  // Whatever sends fail: over every run no message arrives twice.
  lemma {:induction false} NeverTwice(s: Server, steps: seq<Step>, env: Env)
    requires Initial(s) && ValidRun(s, steps, env)
    ensures AtMostOnce(Exec(s, steps, env).w)
  {
    if steps != [] {
      var before := steps[..|steps| - 1];
      NeverTwice(s, before, env);
      InitialHolds(s);
      RunsKeepAll(s, before, env);
      RunEvolves(s, before, env);
      StepAtMostOnce(Exec(s, before, env), steps[|steps| - 1], env);
    }
  }

  // ---- lost messages ----

  lemma {:induction false} ForwardsNone(log: seq<Sent>, id: nat)
    ensures Forwards(log, id) == 0 <==> forall k :: 0 <= k < |log| ==> !ForwardOk(log[k], id)
  {
    if log != [] {
      var before := log[..|log| - 1];
      ForwardsNone(before, id);
      assert log == before + [log[|log| - 1]];
    }
  }

  // When is a message lost, that is, marked read and so never pushed again, although it never
  // arrived? Exactly when a later forward on its pair arrived and none with its own id did. A
  // message that is not lost is unread, and still to come, or has arrived exactly once.
  lemma LostIff(s: Server, steps: seq<Step>, env: Env, m: Message)
    requires Initial(s) && ValidRun(s, steps, env)
    requires m in Exec(s, steps, env).w.db.messages && m.id !in ReadIds(s.w.db.messages)
    ensures var log := Exec(s, steps, env).w.net.log;
            var lost := ForwardedSince(log, m.storedAt, m.sender, m.receiver) &&
                        forall k :: 0 <= k < |log| ==> !ForwardOk(log[k], m.id);
            && (m.isRead && Forwards(log, m.id) == 0 <==> lost)
            && (!lost ==> Forwards(log, m.id) == if m.isRead then 1 else 0)
  {
    ReadIffForwarded(s, steps, env);
    NeverTwice(s, steps, env);
    ForwardsNone(Exec(s, steps, env).w.net.log, m.id);
  }

  // Does the live forward of this request arrive?
  predicate LiveArrives(w: World, r: Request, env: Env)
    requires SendCode(w.db, r) == 0
  {
    && w.db.users[FindUser(w.db.users, r.target).value].isOnline
    && match SocketOf(w.table, r.target) case None => false case Some(x) => Delivered(w.net, x, env)
  }

  // The branch that loses messages without any push: a SEND_MSG whose own forward arrives marks every
  // older unread message of its pair read, and forwards none of them.
  lemma LiveSendLosesIff(w: World, r: Request, now: int, env: Env, i: nat)
    requires MessagesOk(w.db) && SendCode(w.db, r) == 0 && i < |w.db.messages| && !w.db.messages[i].isRead
    ensures var w', m := HandleSend(w, r, now, env).0, w.db.messages[i];
            && i < |w'.db.messages|
            && w'.db.messages[i] == m.(isRead :=
                 LiveArrives(w, r, env) && FindUser(w.db.users, r.username) == Some(m.sender) &&
                 FindUser(w.db.users, r.target) == Some(m.receiver))
            && Forwards(w'.net.log, m.id) == Forwards(w.net.log, m.id)
  {
    var w', m := HandleSend(w, r, now, env).0, w.db.messages[i];
    var receiver := FindUser(w.db.users, r.target).value;
    assert m in w.db.messages;
    if w.db.users[receiver].isOnline && SocketOf(w.table, r.target).Some? {
      var sender, x := FindUser(w.db.users, r.username).value, SocketOf(w.table, r.target).value;
      var w1 := w.(db := StoreMessage(w.db, sender, receiver, r.content, now, |w.net.log|));
      var payload := ForwardMsg(w.db.nextMessageId, sender, receiver, r.username, r.content, None);
      ForwardAdds(w1, x, r.target, payload, env, x, m.id);
    }
  }

  // Ann writes to Bob, who is online on socket 5.
  ghost predicate AnnAndBob(w: World) {
    && w.db.users == [User("ann", "", true), User("bob", "", true)]
    && w.table == SessionTable(map[5 := Session("bob", 0, true)], map["bob" := 5])
    && w.net == Net({5}, {}, [])
  }

  lemma AnnAndBobAre(w: World)
    requires AnnAndBob(w)
    ensures FindUser(w.db.users, "ann") == Some(0) && FindUser(w.db.users, "bob") == Some(1)
    ensures SocketOf(w.table, "bob") == Some(5)
  {
    assert w.db.users[..1] == [User("ann", "", true)];
    assert "ann" != "bob" by { assert "ann"[0] != "bob"[0]; }
  }

  // Two messages in a row, of which the network carries only the second: the first is read, never
  // arrived, and will not be pushed.
  lemma SecondSendLosesFirst(w: World, r: Request, env: Env)
    requires AnnAndBob(w) && w.db.messages == [] && w.db.nextMessageId == 0
    requires r == Request(SendMsg, "ann", "", "bob", "hi") && (forall k: nat :: env.carries(k) <==> k != 0)
    ensures var w2 := HandleSend(HandleSend(w, r, 0, env).0, r, 0, env).0;
            && |w2.db.messages| == 2 && w2.db.messages[0].id == 0 && w2.db.messages[0].isRead
            && Forwards(w2.net.log, 0) == 0
  {
    AnnAndBobAre(w);
    assert !IsSpace("hi"[0]);
    var w1 := HandleSend(w, r, 0, env).0;
    var w2 := HandleSend(w1, r, 0, env).0;
    var first, second := w1.net.log[0], w1.net.log[1];
    assert w1.net.log == ([] + [first]) + [second];
    ForwardsStep([], first, 0);
    ForwardsStep([first], second, 0);
    assert w1.db.messages == [Message(0, 0, 1, "hi", 0, false, 0)];
    LiveSendLosesIff(w1, r, 0, env, 0);
  }

  // Two unread messages from one sender, of which the network carries only the first: the push marks
  // both read.
  lemma PushLosesSecond(w: World, first: Message, second: Message, env: Env)
    requires AnnAndBob(w) && w.db.messages == [first, second]
    requires first == Message(0, 0, 1, "hi", 0, false, 0) && second == Message(1, 0, 1, "there", 0, false, 0)
    requires (forall k: nat :: env.carries(k) <==> k != 2)
    ensures var w' := PushOffline(w, "bob", env);
            exists j :: 0 <= j < |UnreadMessages(w.db, 1)| && Lost(w, w', 5, UnreadMessages(w.db, 1), j, env)
  {
    AnnAndBobAre(w);
    UnreadMessagesAre(w.db, 1);
    var rows := UnreadMessages(w.db, 1);
    assert first in w.db.messages && second in w.db.messages;
    assert first in rows && second in rows && first != second;
    assert |rows| >= 2;
    assert rows[0] in rows && rows[1] in rows;
    assert Arrives(w, 5, 0, env) && !Arrives(w, 5, 1, env);
    PushLosesIff(w, "bob", 1, 5, env);
  }
}
