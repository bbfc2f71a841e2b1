// Where forwarded messages go: each forward names a stored row, carries its contents, and goes to
// the socket its receiver is bound to at that moment.
module Recipients {
  import opened ChatTypes
  import opened Tables
  import opened Sessions
  import opened Handlers
  import opened ServerModel
  import opened Effects
  import opened Invariants
  import opened MessageTable
  import opened OfflinePush
  import opened Delivery

  ghost predicate StoredRow(messages: seq<Message>, p: Payload)
    requires p.ForwardMsg?
  {
    exists m :: m in messages && m.id == p.id && m.sender == p.sender && m.receiver == p.receiver &&
      m.content == p.content
  }

  // A send that is not a forward, or a forward of a stored row to its receiver.
  ghost predicate WellAddressed(w: World, e: Sent) {
    e.payload.ForwardMsg? ==>
      && StoredRow(w.db.messages, e.payload)
      && e.payload.senderName == NameOf(w.db.users, e.payload.sender)
      && SocketOf(w.table, NameOf(w.db.users, e.payload.receiver)) == Some(e.socket)
  }

  // The log grew by well-addressed sends only.
  ghost predicate GrewAddressed(log: seq<Sent>, w: World) {
    Grew(log, w.net.log) && forall k :: |log| <= k < |w.net.log| ==> WellAddressed(w, w.net.log[k])
  }

  lemma QuietIsAddressed(log: seq<Sent>, w: World)
    requires QuietGrowth(log, w.net.log)
    ensures GrewAddressed(log, w)
  {
  }

  // Reading messages and sending replies does not make a send ill-addressed.
  lemma AddressStays(w: World, w': World, e: Sent)
    requires WellAddressed(w, e) && w'.table == w.table && w'.db == w.db.(messages := w'.db.messages)
    requires MoreRead(w.db.messages, w'.db.messages)
    ensures WellAddressed(w', e)
  {
    if e.payload.ForwardMsg? {
      var m :| m in w.db.messages && m.id == e.payload.id && m.sender == e.payload.sender &&
               m.receiver == e.payload.receiver && m.content == e.payload.content;
      var i :| 0 <= i < |w.db.messages| && w.db.messages[i] == m;
      assert w'.db.messages[i] in w'.db.messages;
    }
  }

  lemma GrewAddressedTrans(log: seq<Sent>, w: World, w': World)
    requires GrewAddressed(log, w) && GrewAddressed(w.net.log, w')
    requires w'.table == w.table && w'.db == w.db.(messages := w'.db.messages) &&
      MoreRead(w.db.messages, w'.db.messages)
    ensures GrewAddressed(log, w')
  {
    GrewTransitive(log, w.net.log, w'.net.log);
    forall k | |log| <= k < |w'.net.log| ensures WellAddressed(w', w'.net.log[k]) {
      if k < |w.net.log| { AddressStays(w, w', w.net.log[k]); }
    }
  }

  lemma ForwardIsAddressed(w: World, socket: int, payload: Payload, env: Env)
    requires payload.ForwardMsg? && StoredRow(w.db.messages, payload)
    requires payload.senderName == NameOf(w.db.users, payload.sender)
    requires SocketOf(w.table, NameOf(w.db.users, payload.receiver)) == Some(socket)
    ensures GrewAddressed(w.net.log, ForwardAndNotify(w, socket, NameOf(w.db.users, payload.receiver), payload, env))
  {
    var w' := ForwardAndNotify(w, socket, NameOf(w.db.users, payload.receiver), payload, env);
    var first := w'.net.log[|w.net.log|];
    assert MoreRead(w.db.messages, w'.db.messages);
    assert WellAddressed(w, first);
    AddressStays(w, w', first);
  }

  lemma {:induction false} PushIsAddressed(w: World, socket: int, rows: seq<Message>, env: Env)
    requires RowsReach(w, socket, rows)
    requires forall j :: 0 <= j < |rows| ==> StoredRow(w.db.messages, OfflinePayload(w.db.users, rows[j]))
    ensures GrewAddressed(w.net.log, PushRows(w, socket, rows, env))
    decreases |rows|
  {
    if rows != [] {
      var w1 := PushRow(w, socket, rows[0], env);
      PushRowExact(w, socket, rows[0], env);
      ForwardIsAddressed(w, socket, OfflinePayload(w.db.users, rows[0]), env);
      assert MoreRead(w.db.messages, w1.db.messages);
      forall j | 0 <= j < |rows[1..]| ensures StoredRow(w1.db.messages, OfflinePayload(w1.db.users, rows[1..][j])) {
        RowStays(w.db.messages, w1.db.messages, OfflinePayload(w.db.users, rows[j + 1]));
      }
      PushIsAddressed(w1, socket, rows[1..], env);
      PushRowsEffect(w1, socket, rows[1..], env);
      GrewAddressedTrans(w.net.log, w1, PushRows(w, socket, rows, env));
    }
  }

  lemma RowStays(messages: seq<Message>, messages': seq<Message>, p: Payload)
    requires p.ForwardMsg? && StoredRow(messages, p) && MoreRead(messages, messages')
    ensures StoredRow(messages', p)
  {
    var m :| m in messages && m.id == p.id && m.sender == p.sender && m.receiver == p.receiver &&
      m.content == p.content;
    var i :| 0 <= i < |messages| && messages[i] == m;
    assert messages'[i] in messages';
  }

  lemma SendIsAddressed(w: World, r: Request, now: int, env: Env)
    ensures GrewAddressed(w.net.log, HandleSend(w, r, now, env).0)
  {
    if SendCode(w.db, r) == 0 {
      var sender := FindUser(w.db.users, r.username).value;
      var receiver := FindUser(w.db.users, r.target).value;
      var w1 := w.(db := StoreMessage(w.db, sender, receiver, r.content, now, |w.net.log|));
      var row := w1.db.messages[|w.db.messages|];
      assert row in w1.db.messages;
      if w1.db.users[receiver].isOnline && SocketOf(w1.table, r.target).Some? {
        ForwardIsAddressed(w1, SocketOf(w1.table, r.target).value,
          ForwardMsg(w.db.nextMessageId, sender, receiver, r.username, r.content, None), env);
      }
    }
  }

  lemma LoginIsAddressed(w: World, cache: Cache, socket: int, r: Request, now: int, env: Env)
    ensures GrewAddressed(w.net.log, LoginAndPush(w, cache, socket, r, now, env).0)
  {
    if LoginCode(w.db, r, env) == 0 {
      LoginEffect(w, socket, r, now, env);
      var w1 := HandleLogin(w, socket, r, now, env).0;
      QuietIsAddressed(w.net.log, w1);
      var id := FindUser(w1.db.users, r.username);
      if id.Some? && SocketOf(w1.table, r.username).Some? {
        var x, rows := SocketOf(w1.table, r.username).value, UnreadMessages(w1.db, id.value);
        PushReaches(w1, r.username, id.value, x);
        UnreadMessagesAre(w1.db, id.value);
        forall j | 0 <= j < |rows| ensures StoredRow(w1.db.messages, OfflinePayload(w1.db.users, rows[j])) {
          assert rows[j] in rows;
        }
        PushIsAddressed(w1, x, rows, env);
        PushRowsEffect(w1, x, rows, env);
        GrewAddressedTrans(w.net.log, w1, PushRows(w1, x, rows, env));
      }
    }
  }

  lemma HandleIsAddressed(w: World, cache: Cache, socket: int, r: Request, now: int, env: Env)
    ensures GrewAddressed(w.net.log, Handle(w, cache, socket, r, now, env).0)
  {
    match r.kind
    case Login => LoginIsAddressed(w, cache, socket, r, now, env);
    case SendMsg => SendIsAddressed(w, r, now, env);
    case _ =>
  }

  lemma StepIsAddressed(s: Server, step: Step, env: Env)
    requires Always(s) && Enabled(s, step)
    ensures GrewAddressed(s.w.net.log, Next(s, step, env).w)
  {
    match step
    case Receive(socket, r) =>
      var w0 := Heard(s.w, socket, r, s.now);
      var e := Effective(w0.table, socket, r);
      HandleIsAddressed(w0, s.cache, socket, e, s.now, env);
      var w1 := Handle(w0, s.cache, socket, e, s.now, env).0;
      var w2 := Next(s, step, env).w;
      QuietIsAddressed(w1.net.log, w2);
      GrewAddressedTrans(s.w.net.log, w1, w2);
    case _ =>
      NonRequestMessages(s, step, env);
      QuietIsAddressed(s.w.net.log, Next(s, step, env).w);
  }

  // Over every run, whatever sends fail: every forward in the log was made by some step of the run,
  // and in the state that step left it names a stored row, carries its sender and content, and went
  // to the socket bound to its receiver's name.
  lemma {:induction false} ForwardsReachReceiver(s: Server, steps: seq<Step>, env: Env, k: nat) returns (i: nat)
    requires Initial(s) && ValidRun(s, steps, env) && k < |Exec(s, steps, env).w.net.log|
    ensures i < |steps|
    ensures |Exec(s, steps[..i], env).w.net.log| <= k < |Exec(s, steps[..i + 1], env).w.net.log|
    ensures WellAddressed(Exec(s, steps[..i + 1], env).w, Exec(s, steps, env).w.net.log[k])
  {
    var n := |steps| - 1;
    var before := steps[..n];
    var log := StepAddsAddressed(s, steps, env);
    if k < |log| {
      i := ForwardsReachReceiver(s, before, env, k);
      assert before[..i] == steps[..i] && before[..i + 1] == steps[..i + 1];
      assert Exec(s, steps, env).w.net.log[k] == Exec(s, steps, env).w.net.log[..|log|][k];
    } else {
      i := n;
      assert steps[..n + 1] == steps;
    }
  }

  lemma StepAddsAddressed(s: Server, steps: seq<Step>, env: Env) returns (log: seq<Sent>)
    requires Initial(s) && ValidRun(s, steps, env) && steps != []
    ensures log == Exec(s, steps[..|steps| - 1], env).w.net.log && GrewAddressed(log, Exec(s, steps, env).w)
  {
    var before := steps[..|steps| - 1];
    InitialHolds(s);
    RunsKeepAll(s, before, env);
    StepIsAddressed(Exec(s, before, env), steps[|steps| - 1], env);
    log := Exec(s, before, env).w.net.log;
  }
}
