// Message delivery over whole runs: exactly once on a network that never fails, and what is still
// true when sends fail.
module Delivery {
  import opened ChatTypes
  import opened Tables
  import opened Sessions
  import opened Handlers
  import opened ServerModel
  import opened Effects
  import opened Invariants
  import opened MessageTable
  import opened OfflinePush

  // ---- the message table over a step ----

  // Rows keep their contents, a read flag never goes back, and an id that is gone stays gone.
  ghost predicate Evolves(db: Db, db': Db) {
    && db.nextMessageId <= db'.nextMessageId && |db.users| <= |db'.users|
    && (forall m' :: m' in db'.messages && m'.id < db.nextMessageId ==>
          exists m :: m in db.messages && m.id == m'.id && (m' == m || m' == m.(isRead := true)))
  }

  lemma SameMessagesEvolve(db: Db, db': Db)
    requires MessagesOk(db) && db'.messages == db.messages && db'.nextMessageId == db.nextMessageId &&
      |db.users| <= |db'.users|
    ensures MessagesOk(db') && Evolves(db, db')
  {
  }

  lemma MoreReadEvolves(db: Db, db': Db)
    requires MessagesOk(db) && db' == db.(messages := db'.messages) && MoreRead(db.messages, db'.messages)
    ensures MessagesOk(db') && Evolves(db, db')
  {
    forall i | 0 <= i < |db'.messages| ensures db'.messages[i].id == db.messages[i].id {}
    forall m' | m' in db'.messages
      ensures m'.id < db'.nextMessageId && m'.sender < |db.users| && m'.receiver < |db.users|
      ensures exists m :: m in db.messages && m.id == m'.id && (m' == m || m' == m.(isRead := true))
    {
      var i :| 0 <= i < |db'.messages| && db'.messages[i] == m';
      assert db.messages[i] in db.messages;
    }
  }

  lemma EvolvesTransitive(a: Db, b: Db, c: Db)
    requires Evolves(a, b) && Evolves(b, c)
    ensures Evolves(a, c)
  {
    forall m'' | m'' in c.messages && m''.id < a.nextMessageId
      ensures exists m :: m in a.messages && m.id == m''.id && (m'' == m || m'' == m.(isRead := true))
    {
      var m' :| m' in b.messages && m'.id == m''.id && (m'' == m' || m'' == m'.(isRead := true));
      var m :| m in a.messages && m.id == m'.id && (m' == m || m' == m.(isRead := true));
    }
  }

  lemma StoreEvolves(db: Db, sender: UserId, receiver: UserId, content: string, now: int, sends: nat)
    requires MessagesOk(db) && sender < |db.users| && receiver < |db.users|
    ensures MessagesOk(StoreMessage(db, sender, receiver, content, now, sends))
    ensures Evolves(db, StoreMessage(db, sender, receiver, content, now, sends))
  {
    StoreKeepsOk(db, sender, receiver, content, now, sends);
  }

  lemma DeleteEvolves(db: Db, r: Request)
    requires MessagesOk(db)
    ensures MessagesOk(HandleDeleteFriend(db, r).0) && Evolves(db, HandleDeleteFriend(db, r).0)
  {
    var a := FindUser(db.users, r.username);
    var b := FindUser(db.users, FriendTarget(r));
    if a.Some? && b.Some? {
      DeleteBetweenIs(db.messages, a.value, b.value);
    }
  }

  lemma SendEvolves(w: World, r: Request, now: int, env: Env)
    requires MessagesOk(w.db)
    ensures MessagesOk(HandleSend(w, r, now, env).0.db) && Evolves(w.db, HandleSend(w, r, now, env).0.db)
  {
    if SendCode(w.db, r) == 0 {
      var sender := FindUser(w.db.users, r.username).value;
      var receiver := FindUser(w.db.users, r.target).value;
      StoreAndForwardEvolves(w, sender, receiver, r, now, env);
    }
  }

  lemma StoreAndForwardEvolves(w: World, sender: UserId, receiver: UserId, r: Request, now: int, env: Env)
    requires MessagesOk(w.db) && sender < |w.db.users| && receiver < |w.db.users|
    ensures var db' := StoreAndForward(w, sender, receiver, r, now, env).db;
            MessagesOk(db') && Evolves(w.db, db')
  {
    var db1 := StoreMessage(w.db, sender, receiver, r.content, now, |w.net.log|);
    var db' := StoreAndForward(w, sender, receiver, r, now, env).db;
    StoreEvolves(w.db, sender, receiver, r.content, now, |w.net.log|);
    assert db' == db1.(messages := db'.messages) && MoreRead(db1.messages, db'.messages);
    MoreReadEvolves(db1, db');
    EvolvesTransitive(w.db, db1, db');
  }

  lemma LoginEvolves(w: World, cache: Cache, socket: int, r: Request, now: int, env: Env)
    requires MessagesOk(w.db)
    ensures MessagesOk(LoginAndPush(w, cache, socket, r, now, env).0.db)
    ensures Evolves(w.db, LoginAndPush(w, cache, socket, r, now, env).0.db)
  {
    if LoginCode(w.db, r, env) == 0 {
      LoginEffect(w, socket, r, now, env);
      var w1 := HandleLogin(w, socket, r, now, env).0;
      SameMessagesEvolve(w.db, w1.db);
      PushOfflineEffect(w1, r.username, env);
      var w2 := PushOffline(w1, r.username, env);
      MoreReadEvolves(w1.db, w2.db);
      EvolvesTransitive(w.db, w1.db, w2.db);
    } else {
      SameMessagesEvolve(w.db, w.db);
    }
  }

  lemma HandleEvolves(w: World, cache: Cache, socket: int, r: Request, now: int, env: Env)
    requires MessagesOk(w.db)
    ensures MessagesOk(Handle(w, cache, socket, r, now, env).0.db)
    ensures Evolves(w.db, Handle(w, cache, socket, r, now, env).0.db)
  {
    match r.kind
    case Register => SameMessagesEvolve(w.db, HandleRegister(w.db, r, env).0);
    case Login => LoginEvolves(w, cache, socket, r, now, env);
    case SendMsg => SendEvolves(w, r, now, env);
    case AddFriend => SameMessagesEvolve(w.db, HandleAddFriend(w.db, r).0);
    case DelFriend => DeleteEvolves(w.db, r);
    case _ => SameMessagesEvolve(w.db, w.db);
  }

  // Steps other than requests leave the message table alone and forward nothing.
  lemma NonRequestMessages(s: Server, step: Step, env: Env)
    requires Always(s) && Enabled(s, step) && !step.Receive?
    ensures var s' := Next(s, step, env);
            && s'.w.db.messages == s.w.db.messages && s'.w.db.nextMessageId == s.w.db.nextMessageId
            && s'.w.db.friends == s.w.db.friends && |s'.w.db.users| == |s.w.db.users|
            && (forall i :: 0 <= i < |s.w.db.users| ==> s'.w.db.users[i].username == s.w.db.users[i].username)
            && QuietGrowth(s.w.net.log, s'.w.net.log)
  {
    match step
    case Disconnect(socket) =>
      DisconnectEffect(s, socket, env);
      EndMessages(s, Next(s, step, env), socket);
    case Fail(socket) =>
      FailEffect(s, socket);
      EndMessages(s, Next(s, step, env), socket);
    case Sweep(order) => SweepMessages(s, order, env);
    case Stop(order) => StopMessages(s.(running := false), order);
    case _ =>
  }

  lemma EndMessages(s: Server, s': Server, socket: int)
    requires Ended(s, s', socket)
    ensures s'.w.db == s.w.db.(users := s'.w.db.users) && |s'.w.db.users| == |s.w.db.users|
    ensures forall i :: 0 <= i < |s.w.db.users| ==> s'.w.db.users[i].username == s.w.db.users[i].username
    ensures QuietGrowth(s.w.net.log, s'.w.net.log)
  {
  }

  lemma {:induction false} SweepMessages(s: Server, order: seq<int>, env: Env)
    requires Always(s)
    ensures var s' := SweepAll(s, order, env);
            && s'.w.db == s.w.db.(users := s'.w.db.users) && |s'.w.db.users| == |s.w.db.users|
            && (forall i :: 0 <= i < |s.w.db.users| ==> s'.w.db.users[i].username == s.w.db.users[i].username)
            && QuietGrowth(s.w.net.log, s'.w.net.log)
    decreases |order|
  {
    if order != [] {
      var s1 := SweepOne(s, order[0], env);
      SweepOneKeepsAll(s, order[0], env);
      if order[0] in s.w.table.live && Expired(s.w.table.live[order[0]], s.now) { SweepOneEffect(s, order[0], env); }
      SweepMessages(s1, order[1..], env);
      var s' := SweepAll(s1, order[1..], env);
      GrewTransitive(s.w.net.log, s1.w.net.log, s'.w.net.log);
    }
  }

  lemma {:induction false} StopMessages(s: Server, order: seq<int>)
    ensures var s' := StopAll(s, order);
            && s'.w.db == s.w.db.(users := s'.w.db.users) && |s'.w.db.users| == |s.w.db.users|
            && (forall i :: 0 <= i < |s.w.db.users| ==> s'.w.db.users[i].username == s.w.db.users[i].username)
            && s'.w.net.log == s.w.net.log
    decreases |order|
  {
    if order != [] { StopMessages(StopOne(s, order[0]), order[1..]); }
  }

  lemma StepEvolves(s: Server, step: Step, env: Env)
    requires Always(s) && Enabled(s, step) && MessagesOk(s.w.db)
    ensures MessagesOk(Next(s, step, env).w.db) && Evolves(s.w.db, Next(s, step, env).w.db)
  {
    match step
    case Receive(socket, r) =>
      var w0 := Heard(s.w, socket, r, s.now);
      HandleEvolves(w0, s.cache, socket, Effective(w0.table, socket, r), s.now, env);
    case _ =>
      NonRequestMessages(s, step, env);
      SameMessagesEvolve(s.w.db, Next(s, step, env).w.db);
  }

  // Over every run and every pattern of failures: a message that is still stored has the contents it
  // was stored with, and once read it stays read.
  lemma ReadNeverReverts(s: Server, steps: seq<Step>, env: Env, m: Message, m': Message)
    requires Always(s) && MessagesOk(s.w.db) && ValidRun(s, steps, env)
    requires m in s.w.db.messages && m' in Exec(s, steps, env).w.db.messages && m'.id == m.id
    ensures m' == m || m' == m.(isRead := true)
  {
    RunEvolves(s, steps, env);
    var b :| b in s.w.db.messages && b.id == m'.id && (m' == b || m' == b.(isRead := true));
    SameIdSameRow(s.w.db.messages, m, b);
  }

  lemma {:induction false} RunEvolves(s: Server, steps: seq<Step>, env: Env)
    requires Always(s) && MessagesOk(s.w.db) && ValidRun(s, steps, env)
    ensures MessagesOk(Exec(s, steps, env).w.db) && Evolves(s.w.db, Exec(s, steps, env).w.db)
  {
    if steps == [] {
      SameMessagesEvolve(s.w.db, s.w.db);
    } else {
      var before := steps[..|steps| - 1];
      RunEvolves(s, before, env);
      RunsKeepAll(s, before, env);
      var b := Exec(s, before, env);
      StepEvolves(b, steps[|steps| - 1], env);
      EvolvesTransitive(s.w.db, b.w.db, Exec(s, steps, env).w.db);
    }
  }
}
