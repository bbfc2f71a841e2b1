// What a client gets for each request, written out: the rows, the flags, the sends and the code after
// one step of the server, in terms of the state before it.
module Requests {
  import opened ChatTypes
  import opened Tables
  import opened Sessions
  import opened Handlers
  import opened ServerModel
  import opened Effects
  import opened Index
  import opened Invariants
  import opened MessageTable
  import opened FriendGraph
  import opened Notices

  // ---- whom a request speaks for, and about ----

  // The account a request acts for: that of the session, if it is logged in.
  function Requester(s: Server, socket: int, r: Request): string {
    if NameOn(s.w.table, socket) != "" then NameOn(s.w.table, socket) else r.username
  }

  // The name it is about: the target, and on a logged-in socket the claimed username if there is none.
  function About(s: Server, socket: int, r: Request): string {
    if r.target == "" && NameOn(s.w.table, socket) != "" then r.username else r.target
  }

  // Kind, password and content never change, a target never changes, and an empty target becomes the
  // claimed username on a logged-in socket. Elsewhere nothing changes.
  lemma EffectiveIs(t: SessionTable, socket: int, r: Request)
    ensures var e, bound := Effective(t, socket, r), NameOn(t, socket);
            && e.kind == r.kind && e.password == r.password && e.content == r.content
            && (bound == "" ==> e == r)
            && (bound != "" ==> e.username == bound)
            && (r.target != "" ==> e.target == r.target)
            && (bound != "" && r.target == "" ==> e.target == r.username)
  {
  }

  ghost predicate IsUser(users: seq<User>, id: UserId, name: string) {
    id < |users| && users[id].username == name
  }

  // ---- the step behind every request ----

  // The network brings the k-th send to socket x.
  predicate Brings(net: Net, x: int, k: nat, env: Env) { x in net.open && x !in net.shut && env.carries(k) }

  // Only the heartbeat of this one session changed.
  ghost predicate Renewed(t: SessionTable, t': SessionTable, socket: int, now: int) {
    && t'.index == t.index && t'.live.Keys == t.live.Keys
    && forall x :: x in t.live ==>
         t'.live[x] == if x == socket then t.live[x].(lastHeartbeat := now) else t.live[x]
  }

  // The request that is handled, in the state in which it is handled.
  ghost predicate Handled(s: Server, socket: int, r: Request, e: Request, w0: World) {
    && w0 == s.w.(table := w0.table) && e.kind == r.kind && e.password == r.password && e.content == r.content
    && e.username == Requester(s, socket, r) && e.target == About(s, socket, r)
    && (if r.kind.Malformed? then w0.table == s.w.table else Renewed(s.w.table, w0.table, socket, s.now))
  }

  function Answered(w: World, socket: int, code: int, env: Env): World {
    w.(net := w.net.(log := w.net.log + [Sent(socket, Reply(code), Brings(w.net, socket, |w.net.log|, env))]))
  }

  lemma RequestIs(s: Server, socket: int, r: Request) returns (e: Request, w0: World)
    ensures Handled(s, socket, r, e, w0)
    ensures w0 == Heard(s.w, socket, r, s.now) && e == Effective(w0.table, socket, r)
  {
    w0 := Heard(s.w, socket, r, s.now);
    e := Effective(w0.table, socket, r);
    EffectiveIs(w0.table, socket, r);
  }

  lemma NextAnswers(s: Server, socket: int, r: Request, env: Env, e: Request, w0: World, w1: World, cache1: Cache,
                    code: int)
    requires w0 == Heard(s.w, socket, r, s.now) && e == Effective(w0.table, socket, r)
    requires Handle(w0, s.cache, socket, e, s.now, env) == (w1, cache1, code)
    ensures Next(s, Receive(socket, r), env) == s.(w := Answered(w1, socket, code, env), cache := cache1)
  {
  }

  // A step handles the request and then sends the reply.
  lemma ReceiveIs(s: Server, socket: int, r: Request, env: Env) returns (e: Request, w0: World)
    ensures Handled(s, socket, r, e, w0)
    ensures var (w1, cache1, code) := Handle(w0, s.cache, socket, e, s.now, env);
            Next(s, Receive(socket, r), env) == s.(w := Answered(w1, socket, code, env), cache := cache1)
  {
    e, w0 := RequestIs(s, socket, r);
    var (w1, cache1, code) := Handle(w0, s.cache, socket, e, s.now, env);
    NextAnswers(s, socket, r, env, e, w0, w1, cache1, code);
  }

  // The step changed the tables to `db` and sent the reply, and otherwise only renewed the heartbeat.
  ghost predicate OnlyAnswers(s: Server, s': Server, socket: int, db: Db, code: int, env: Env) {
    && s' == s.(w := s'.w)
    && Renewed(s.w.table, s'.w.table, socket, s.now)
    && s'.w.db == db
    && s'.w.net == s.w.net.(log := s.w.net.log +
         [Sent(socket, Reply(code), Brings(s.w.net, socket, |s.w.net.log|, env))])
  }

  // ---- SEND_MSG ----

  predicate Blank(c: char) { 9 <= c as int <= 13 || c as int == 32 }

  ghost predicate HasText(content: string) { exists i :: 0 <= i < |content| && !Blank(content[i]) }

  lemma TextIsContent(content: string)
    ensures HasText(content) <==> ValidContent(content)
  {
    assert forall i :: 0 <= i < |content| ==> (Blank(content[i]) <==> IsSpace(content[i]));
  }

  // The live forward of a message to `name` arrives.
  ghost predicate Reaches(w: World, name: string, env: Env) {
    && name in OnlineNames(w.db.users) && name in w.table.index
    && Brings(w.net, w.table.index[name], |w.net.log|, env)
  }

  // What is sent for a message from a to b: to an online and bound receiver the message and then its
  // notice, and the reply in any case.
  ghost function SendsFor(w: World, socket: int, a: UserId, b: UserId, content: string, env: Env): seq<Sent>
    requires a < |w.db.users| && b < |w.db.users|
  {
    var n, from, to := |w.net.log|, w.db.users[a].username, w.db.users[b].username;
    if to in OnlineNames(w.db.users) && to in w.table.index then
      var x := w.table.index[to];
      [Sent(x, ForwardMsg(w.db.nextMessageId, a, b, from, content, None), Brings(w.net, x, n, env)),
       Sent(x, MsgNotify(from), Brings(w.net, x, n + 1, env)),
       Sent(socket, Reply(0), Brings(w.net, socket, n + 2, env))]
    else [Sent(socket, Reply(0), Brings(w.net, socket, n, env))]
  }

  // One new last row, unread unless its forward arrives; no other row changes, except that the older
  // ones of the pair are read too if it does.
  ghost predicate StoredOne(w: World, w': World, a: UserId, b: UserId, content: string, now: int, env: Env)
    requires b < |w.db.users|
  {
    var rows, rows' := w.db.messages, w'.db.messages;
    var arrives := Reaches(w, w.db.users[b].username, env);
    && |rows'| == |rows| + 1
    && rows'[|rows|] == Message(w.db.nextMessageId, a, b, content, now, arrives, |w.net.log|)
    && (forall i :: 0 <= i < |rows| ==>
          rows'[i] == if arrives && rows[i].sender == a && rows[i].receiver == b
                      then rows[i].(isRead := true) else rows[i])
    && w'.db == w.db.(messages := rows', nextMessageId := w.db.nextMessageId + 1)
  }

  // A message with text, of at most 65536 characters, between two registered users is stored, whether
  // or not its receiver is online, and forwarded if the receiver is online and bound.
  lemma SendStores(s: Server, socket: int, r: Request, env: Env, a: UserId, b: UserId)
    requires Always(s) && r.kind.SendMsg? && HasText(r.content) && |r.content| <= 65536
    requires IsUser(s.w.db.users, a, Requester(s, socket, r)) && IsUser(s.w.db.users, b, About(s, socket, r))
    ensures var s' := Next(s, Receive(socket, r), env);
            && StoredOne(s.w, s'.w, a, b, r.content, s.now, env)
            && s'.w.net == s.w.net.(log := s.w.net.log + SendsFor(s.w, socket, a, b, r.content, env))
            && Renewed(s.w.table, s'.w.table, socket, s.now) && s' == s.(w := s'.w)
  {
    var e, w0, w1 := SendHandled(s, socket, r, env, a, b);
    NextAnswers(s, socket, r, env, e, w0, w1, s.cache, 0);
    SendAnswered(s, Next(s, Receive(socket, r), env), socket, r.content, w0, w1, a, b, env);
  }

  lemma SendHandled(s: Server, socket: int, r: Request, env: Env, a: UserId, b: UserId)
    returns (e: Request, w0: World, w1: World)
    requires Always(s) && r.kind.SendMsg? && HasText(r.content) && |r.content| <= 65536
    requires IsUser(s.w.db.users, a, Requester(s, socket, r)) && IsUser(s.w.db.users, b, About(s, socket, r))
    ensures Handled(s, socket, r, e, w0) && Handle(w0, s.cache, socket, e, s.now, env) == (w1, s.cache, 0)
    ensures w0 == Heard(s.w, socket, r, s.now) && e == Effective(w0.table, socket, r)
    ensures StoredOne(w0, w1, a, b, r.content, s.now, env)
    ensures w1.table == w0.table && w1.net == w0.net.(log := w1.net.log)
    ensures var sends := SendsFor(w0, 0, a, b, r.content, env);
            w1.net.log == w0.net.log + sends[..|sends| - 1]
  {
    e, w0 := RequestIs(s, socket, r);
    w1 := SendIs(w0, s.cache, socket, e, s.now, env, a, b);
  }

  lemma SendAnswered(s: Server, s': Server, socket: int, content: string, w0: World, w1: World, a: UserId, b: UserId,
                     env: Env)
    requires a < |s.w.db.users| && b < |s.w.db.users|
    requires w0 == s.w.(table := w0.table) && Renewed(s.w.table, w0.table, socket, s.now)
    requires StoredOne(w0, w1, a, b, content, s.now, env) && w1.table == w0.table &&
      w1.net == w0.net.(log := w1.net.log)
    requires var sends := SendsFor(w0, 0, a, b, content, env);
             w1.net.log == w0.net.log + sends[..|sends| - 1]
    requires s' == s.(w := Answered(w1, socket, 0, env))
    ensures StoredOne(s.w, s'.w, a, b, content, s.now, env)
    ensures s'.w.net == s.w.net.(log := s.w.net.log + SendsFor(s.w, socket, a, b, content, env))
    ensures Renewed(s.w.table, s'.w.table, socket, s.now) && s' == s.(w := s'.w)
  {
    StoredMoves(s.w, w0, w1, a, b, content, s.now, env);
    SendsAndReply(s.w, w0, w1, socket, a, b, content, env);
  }

  lemma StoredMoves(w: World, w0: World, w1: World, a: UserId, b: UserId, content: string, now: int, env: Env)
    requires w0 == w.(table := w0.table) && w0.table.index == w.table.index && b < |w.db.users|
    requires StoredOne(w0, w1, a, b, content, now, env)
    ensures StoredOne(w, w1, a, b, content, now, env)
  {
    assert Reaches(w0, w.db.users[b].username, env) <==> Reaches(w, w.db.users[b].username, env);
  }

  lemma SendIs(w: World, cache: Cache, socket: int, e: Request, now: int, env: Env, a: UserId, b: UserId)
    returns (w1: World)
    requires IndexSound(w.table) && UniqueNames(w.db.users) && e.kind.SendMsg?
    requires IsUser(w.db.users, a, e.username) && IsUser(w.db.users, b, e.target)
    requires HasText(e.content) && |e.content| <= 65536
    ensures Handle(w, cache, socket, e, now, env) == (w1, cache, 0)
    ensures StoredOne(w, w1, a, b, e.content, now, env) && w1.table == w.table && w1.net == w.net.(log := w1.net.log)
    ensures var sends := SendsFor(w, 0, a, b, e.content, env);
            w1.net.log == w.net.log + sends[..|sends| - 1]
  {
    TextIsContent(e.content);
    FindUserIsTheRow(w.db.users, a);
    FindUserIsTheRow(w.db.users, b);
    w1 := StoreAndForward(w, a, b, e, now, env);
    StoreAndForwardIs(w, a, b, e, now, env);
  }

  lemma StoreAndForwardIs(w: World, a: UserId, b: UserId, e: Request, now: int, env: Env)
    requires IndexSound(w.table) && UniqueNames(w.db.users)
    requires IsUser(w.db.users, a, e.username) && IsUser(w.db.users, b, e.target)
    ensures var w' := StoreAndForward(w, a, b, e, now, env);
            var sends := SendsFor(w, 0, a, b, e.content, env);
            && StoredOne(w, w', a, b, e.content, now, env)
            && w' == w.(db := w'.db, net := w.net.(log := w.net.log + sends[..|sends| - 1]))
  {
    OnlineFlag(w.db.users, b);
    var sends := SendsFor(w, 0, a, b, e.content, env);
    var w' := StoreAndForward(w, a, b, e, now, env);
    if w.db.users[b].isOnline && SocketOf(w.table, e.target).Some? {
      assert w'.net.log == (w.net.log + [sends[0]]) + [sends[1]];
      assert sends[..2] == [sends[0]] + [sends[1]];
    } else {
      assert sends[..0] == [];
      assert w.net.log + [] == w.net.log;
    }
  }

  // With the reply behind them the sends are complete.
  lemma SendsAndReply(w: World, w0: World, w1: World, socket: int, a: UserId, b: UserId, content: string, env: Env)
    requires w0 == w.(table := w0.table) && w0.table.index == w.table.index
    requires a < |w.db.users| && b < |w.db.users| && w1.net == w.net.(log := w1.net.log)
    requires var sends := SendsFor(w0, 0, a, b, content, env);
             w1.net.log == w0.net.log + sends[..|sends| - 1]
    ensures w1.net.log + [Sent(socket, Reply(0), Brings(w1.net, socket, |w1.net.log|, env))] ==
            w.net.log + SendsFor(w, socket, a, b, content, env)
  {
    var sends, sends0 := SendsFor(w, socket, a, b, content, env), SendsFor(w0, 0, a, b, content, env);
    assert sends[..|sends| - 1] == sends0[..|sends0| - 1];
    assert sends == sends[..|sends| - 1] + [sends[|sends| - 1]];
  }

  // A logged-in socket writes in its own name to the target it names, whatever username it claims.
  lemma BoundSendStores(s: Server, socket: int, r: Request, env: Env, a: UserId, b: UserId)
    requires Always(s) && r.kind.SendMsg? && HasText(r.content) && |r.content| <= 65536
    requires NameOn(s.w.table, socket) != "" && IsUser(s.w.db.users, a, NameOn(s.w.table, socket))
    requires r.target != "" && IsUser(s.w.db.users, b, r.target)
    ensures var rows' := Next(s, Receive(socket, r), env).w.db.messages;
            && |rows'| == |s.w.db.messages| + 1
            && rows'[|s.w.db.messages|].sender == a && rows'[|s.w.db.messages|].receiver == b
            && rows'[|s.w.db.messages|].content == r.content && rows'[|s.w.db.messages|].sendTime == s.now
  {
    SendStores(s, socket, r, env, a, b);
  }

  // Otherwise nothing is stored and nothing is forwarded, and the code says why.
  lemma SendRefused(s: Server, socket: int, r: Request, env: Env)
    requires r.kind.SendMsg?
    requires !HasText(r.content) || |r.content| > 65536 || Requester(s, socket, r) !in AllNames(s.w.db.users) ||
      About(s, socket, r) !in AllNames(s.w.db.users)
    ensures OnlyAnswers(s, Next(s, Receive(socket, r), env), socket, s.w.db,
                        if !HasText(r.content) then 4001 else if |r.content| > 65536 then 4002 else 4003, env)
  {
    var e, w0 := ReceiveIs(s, socket, r, env);
    TextIsContent(r.content);
    FindUserKnows(s.w.db.users, e.username);
    FindUserKnows(s.w.db.users, e.target);
  }

  // ---- REGISTER ----

  predicate WordChar(c: char) {
    48 <= c as int <= 57 || 65 <= c as int <= 90 || c as int == 95 || 97 <= c as int <= 122
  }

  ghost predicate GoodName(name: string) {
    3 <= |name| <= 20 && forall i :: 0 <= i < |name| ==> WordChar(name[i])
  }

  lemma GoodIsValid(name: string)
    ensures GoodName(name) <==> ValidUsername(name)
  {
    assert forall c :: WordChar(c) <==> IsNameChar(c);
  }

  // A registration adds one offline account with the hash of the password if the name has 3 to 20 word
  // characters, the password at least 6, and the name is free; otherwise nothing changes.
  lemma RegisterAnswers(s: Server, socket: int, r: Request, env: Env)
    requires r.kind.Register?
    ensures var s', name := Next(s, Receive(socket, r), env), Requester(s, socket, r);
            if !GoodName(name) || |r.password| < 6 then OnlyAnswers(s, s', socket, s.w.db, 2001, env)
            else if name in AllNames(s.w.db.users) then OnlyAnswers(s, s', socket, s.w.db, 2002, env)
            else OnlyAnswers(s, s', socket,
                   s.w.db.(users := s.w.db.users + [User(name, env.hash(r.password), false)]), 0, env)
  {
    var e, w0 := ReceiveIs(s, socket, r, env);
    GoodIsValid(e.username);
    FindUserKnows(s.w.db.users, e.username);
  }

  // ---- LOGIN ----

  // The password opens the account.
  ghost predicate Opens(users: seq<User>, name: string, password: string, env: Env) {
    exists a :: 0 <= a < |users| && users[a].username == name && users[a].passwordHash == env.hash(password)
  }

  lemma OpensIsCode(db: Db, e: Request, env: Env)
    requires UniqueNames(db.users)
    ensures LoginCode(db, e, env) ==
      if !GoodName(e.username) then 2001
      else if e.username !in AllNames(db.users) then 2003
      else if Opens(db.users, e.username, e.password, env) then 0 else 2004
  {
    GoodIsValid(e.username);
    FindUserKnows(db.users, e.username);
    if e.username in AllNames(db.users) {
      var a := FindUser(db.users, e.username).value;
      forall i | 0 <= i < |db.users| && db.users[i].username == e.username ensures i == a {
        FindUserIsTheRow(db.users, i);
      }
    }
  }

  // A login succeeds exactly with the password of a registered account, and a failed one changes nothing.
  lemma LoginSucceedsIff(s: Server, socket: int, r: Request, env: Env)
    requires Always(s) && r.kind.Login?
    ensures var s', name := Next(s, Receive(socket, r), env), Requester(s, socket, r);
            && LoginName(s.w, socket, r, s.now, env) ==
               (if GoodName(name) && Opens(s.w.db.users, name, r.password, env) then Some(name) else None)
            && (LoginName(s.w, socket, r, s.now, env).None? ==>
                  OnlyAnswers(s, s', socket, s.w.db,
                    if !GoodName(name) then 2001 else if name !in AllNames(s.w.db.users) then 2003 else 2004, env))
  {
    var e, w0 := ReceiveIs(s, socket, r, env);
    OpensIsCode(s.w.db, e, env);
    var t := Heard(s.w, socket, r, s.now).table;
    EffectiveIs(t, socket, r);
    OpensIsCode(s.w.db, Effective(t, socket, r), env);
    OpensKnows(s.w.db.users, e.username, r.password, env);
  }

  lemma OpensKnows(users: seq<User>, name: string, password: string, env: Env)
    ensures Opens(users, name, password, env) ==> name in AllNames(users)
  {
  }

  // No forced-logout notice is among the new sends.
  ghost predicate NoKick(log: seq<Sent>, log': seq<Sent>) {
    Grew(log, log') && forall k :: |log| <= k < |log'| ==> !log'[k].payload.Kicked?
  }

  lemma NoKickTransitive(a: seq<Sent>, b: seq<Sent>, c: seq<Sent>)
    requires NoKick(a, b) && NoKick(b, c)
    ensures NoKick(a, c)
  {
    GrewTransitive(a, b, c);
  }

  lemma {:induction false} NotifyKicksNobody(w: World, rows: seq<FriendRow>, payload: Payload, env: Env)
    requires payload.StatusNotify?
    ensures NoKick(w.net.log, NotifyRows(w, rows, payload, env).net.log)
    decreases |rows|
  {
    if rows != [] {
      var w1 := NotifyRow(w, rows[0], payload, env);
      NotifyKicksNobody(w1, rows[1..], payload, env);
      NoKickTransitive(w.net.log, w1.net.log, NotifyRows(w1, rows[1..], payload, env).net.log);
    }
  }

  lemma {:induction false} PushKicksNobody(w: World, socket: int, rows: seq<Message>, env: Env)
    ensures NoKick(w.net.log, PushRows(w, socket, rows, env).net.log)
    decreases |rows|
  {
    if rows != [] {
      var w1 := PushRow(w, socket, rows[0], env);
      assert NoKick(w.net.log, w1.net.log);
      PushKicksNobody(w1, socket, rows[1..], env);
      NoKickTransitive(w.net.log, w1.net.log, PushRows(w1, socket, rows[1..], env).net.log);
    }
  }

  // After the login proper: friends are told and messages pushed, nobody is kicked.
  lemma RestKicksNobody(w: World, cache: Cache, socket: int, e: Request, now: int, env: Env)
    requires LoginCode(w.db, e, env) == 0
    ensures NoKick(EnterLogin(w, FindUser(w.db.users, e.username).value, socket, e.username, now, env).net.log,
                   LoginAndPush(w, cache, socket, e, now, env).0.net.log)
  {
    var w1 := EnterLogin(w, FindUser(w.db.users, e.username).value, socket, e.username, now, env);
    var id1 := FindUser(w1.db.users, e.username);
    if id1.Some? {
      NotifyKicksNobody(w1, FriendRows(w1.db.users, w1.db.friends, id1.value), StatusNotify(e.username, true), env);
    }
    var w2 := NotifyFriends(w1, e.username, true, env);
    var id2 := FindUser(w2.db.users, e.username);
    if id2.Some? && SocketOf(w2.table, e.username).Some? {
      PushKicksNobody(w2, SocketOf(w2.table, e.username).value, UnreadMessages(w2.db, id2.value), env);
    }
    NoKickTransitive(w1.net.log, w2.net.log, PushOffline(w2, e.username, env).net.log);
  }

  // The notice that a login sends before anything else: one, to the socket that held the name.
  ghost function KickNotice(w: World, name: string, env: Env): seq<Sent> {
    if name in w.table.index
    then [Sent(w.table.index[name], Kicked, Brings(w.net, w.table.index[name], |w.net.log|, env))] else []
  }

  // A login first sends one KICKED to the socket that holds the name, if there is one, while that
  // socket is still up, and no other; then that session has no name and its socket is shut. The reply
  // comes last.
  lemma LoginKicks(s: Server, socket: int, r: Request, env: Env, name: string)
    requires Always(s) && WhileRunning(s) && s.running && Enabled(s, Receive(socket, r))
    requires LoginName(s.w, socket, r, s.now, env) == Some(name)
    ensures var s' := Next(s, Receive(socket, r), env);
            && NoKick(s.w.net.log + KickNotice(s.w, name, env), s'.w.net.log)
            && (name in s.w.table.index ==>
                  var prior := s.w.table.index[name];
                  prior in s'.w.net.shut && (prior != socket ==> NameOn(s'.w.table, prior) == ""))
            && s'.w.net.log != [] && s'.w.net.log[|s'.w.net.log| - 1].socket == socket
            && s'.w.net.log[|s'.w.net.log| - 1].payload == Reply(0)
  {
    var e, w0, w1, cache1 := KickHandled(s, socket, r, env, name);
    NextAnswers(s, socket, r, env, e, w0, w1, cache1, 0);
    NoKickTransitive(s.w.net.log + KickNotice(s.w, name, env), w1.net.log, Answered(w1, socket, 0, env).net.log);
    if name in s.w.table.index { KickedIsShut(s, socket, r, env, name); }
  }

  lemma KickHandled(s: Server, socket: int, r: Request, env: Env, name: string)
    returns (e: Request, w0: World, w1: World, cache1: Cache)
    requires Always(s) && WhileRunning(s) && s.running && LoginName(s.w, socket, r, s.now, env) == Some(name)
    ensures w0 == Heard(s.w, socket, r, s.now) && e == Effective(w0.table, socket, r)
    ensures Handle(w0, s.cache, socket, e, s.now, env) == (w1, cache1, 0)
    ensures NoKick(s.w.net.log + KickNotice(s.w, name, env), w1.net.log)
  {
    e, w0 := RequestIs(s, socket, r);
    EnterLoginKicks(s, w0, e, socket, env);
    RestKicksNobody(w0, s.cache, socket, e, s.now, env);
    var (w', cache', code) := LoginAndPush(w0, s.cache, socket, e, s.now, env);
    w1, cache1 := w', cache';
  }

  lemma KickedIsShut(s: Server, socket: int, r: Request, env: Env, name: string)
    requires Always(s) && WhileRunning(s) && s.running && Enabled(s, Receive(socket, r))
    requires LoginName(s.w, socket, r, s.now, env) == Some(name) && name in s.w.table.index
    ensures var s', prior := Next(s, Receive(socket, r), env), s.w.table.index[name];
            prior in s'.w.net.shut && (prior != socket ==> NameOn(s'.w.table, prior) == "")
  {
    ReceiveEffect(s, socket, r, env);
  }

  lemma EnterLoginKicks(s: Server, w0: World, e: Request, socket: int, env: Env)
    requires Always(s) && WhileRunning(s) && s.running && LoginCode(s.w.db, e, env) == 0
    requires w0 == s.w.(table := w0.table) && w0.table.index == s.w.table.index &&
      w0.table.live.Keys == s.w.table.live.Keys
    ensures EnterLogin(w0, FindUser(w0.db.users, e.username).value, socket, e.username, s.now, env).net.log ==
            s.w.net.log + KickNotice(s.w, e.username, env)
  {
    OnlineFlag(s.w.db.users, FindUser(s.w.db.users, e.username).value);
  }

  // ---- ADD_FRIEND, DEL_FRIEND ----

  // The name to add or delete: without a target, on a socket that is not logged in, the requester's own.
  function FriendNamed(s: Server, socket: int, r: Request): string {
    if About(s, socket, r) != "" then About(s, socket, r) else Requester(s, socket, r)
  }

  // ADD_FRIEND between two different registered users adds the one directed edge if it is not there.
  lemma AddFriendAdds(s: Server, socket: int, r: Request, env: Env, a: UserId, b: UserId)
    requires Always(s) && r.kind.AddFriend? && a != b && FriendNamed(s, socket, r) != ""
    requires IsUser(s.w.db.users, a, Requester(s, socket, r)) && IsUser(s.w.db.users, b, FriendNamed(s, socket, r))
    ensures var s' := Next(s, Receive(socket, r), env);
            if Edge(a, b) in s.w.db.friends then OnlyAnswers(s, s', socket, s.w.db, 3002, env)
            else OnlyAnswers(s, s', socket, s.w.db.(friends := s.w.db.friends + [Edge(a, b)]), 0, env)
  {
    var e, w0 := ReceiveIs(s, socket, r, env);
    FindUserIsTheRow(s.w.db.users, a);
    FindUserIsTheRow(s.w.db.users, b);
  }

  // Otherwise it changes nothing.
  lemma AddFriendRefused(s: Server, socket: int, r: Request, env: Env)
    requires r.kind.AddFriend?
    requires var name, friend := Requester(s, socket, r), FriendNamed(s, socket, r);
             friend == "" || friend == name || name !in AllNames(s.w.db.users) || friend !in AllNames(s.w.db.users)
    ensures var name, friend := Requester(s, socket, r), FriendNamed(s, socket, r);
            OnlyAnswers(s, Next(s, Receive(socket, r), env), socket, s.w.db,
              if friend == "" then 1001 else if friend == name then 3003
              else if name !in AllNames(s.w.db.users) then 2003 else 3001, env)
  {
    var e, w0 := ReceiveIs(s, socket, r, env);
    FindUserKnows(s.w.db.users, e.username);
    FindUserKnows(s.w.db.users, FriendTarget(e));
  }

  // DEL_FRIEND removes the requester's edge and the pair's messages, or changes nothing.
  lemma DeleteFriendAnswers(s: Server, socket: int, r: Request, env: Env, a: UserId, b: UserId)
    requires Always(s) && GraphOk(s.w.db) && r.kind.DelFriend? && FriendNamed(s, socket, r) != ""
    requires IsUser(s.w.db.users, a, Requester(s, socket, r)) && IsUser(s.w.db.users, b, FriendNamed(s, socket, r))
    ensures var s' := Next(s, Receive(socket, r), env);
            if Edge(a, b) !in s.w.db.friends then OnlyAnswers(s, s', socket, s.w.db, 3004, env)
            else
              && OnlyAnswers(s, s', socket, s'.w.db, 0, env)
              && s'.w.db == s.w.db.(friends := s'.w.db.friends, messages := s'.w.db.messages)
              && (forall x :: x in s'.w.db.friends <==> x in s.w.db.friends && x != Edge(a, b))
              && (forall m :: m in s'.w.db.messages <==>
                    m in s.w.db.messages && !(m.sender == a && m.receiver == b) && !(m.sender == b && m.receiver == a))
  {
    var e, w0 := ReceiveIs(s, socket, r, env);
    FindUserIsTheRow(s.w.db.users, a);
    FindUserIsTheRow(s.w.db.users, b);
    DeleteFriendIs(s.w.db, e);
  }

  // ---- the requests that change nothing ----

  lemma PlainAnswers(s: Server, socket: int, r: Request, env: Env)
    requires r.kind.Heartbeat? || r.kind.Unknown? || r.kind.FriendList?
    ensures OnlyAnswers(s, Next(s, Receive(socket, r), env), socket, s.w.db,
              if r.kind.Heartbeat? then 0 else if r.kind.Unknown? then 4002
              else if Requester(s, socket, r) in AllNames(s.w.db.users) then 0 else 2003, env)
  {
    var e, w0 := ReceiveIs(s, socket, r, env);
    FindUserKnows(s.w.db.users, e.username);
  }

  // What does not parse is answered, and does not even count as a heartbeat.
  lemma MalformedAnswers(s: Server, socket: int, r: Request, env: Env)
    requires r.kind.Malformed?
    ensures Next(s, Receive(socket, r), env) == s.(w := s.w.(net := s.w.net.(log := s.w.net.log +
      [Sent(socket, Reply(4001), Brings(s.w.net, socket, |s.w.net.log|, env))])))
  {
    var e, w0 := ReceiveIs(s, socket, r, env);
  }

  // ---- accept ----

  // At 128 connections a client gets the busy answer and is closed; otherwise it gets a session of its
  // own, heard from just now, and no answer.
  lemma AcceptAnswers(s: Server, socket: int, env: Env)
    requires Always(s) && Enabled(s, Accept(socket))
    ensures var s' := Next(s, Accept(socket), env);
            if s.connections >= 128 then
              s' == s.(w := s.w.(net := s.w.net.(log := s.w.net.log +
                [Sent(socket, ServerBusy, env.carries(|s.w.net.log|))])))
            else
              && s'.w.table == s.w.table.(live := s.w.table.live[socket := Session("", s.now, true)])
              && s'.w.net == s.w.net.(open := s.w.net.open + {socket}) && s'.w.db == s.w.db
              && s' == s.(w := s'.w, accepting := Added(socket))
  {
    var s' := Next(s, Accept(socket), env);
    if s.connections >= 128 {
      assert (s.w.net.open + {socket}) - {socket} == s.w.net.open;
      assert s.w.net.shut - {socket} == s.w.net.shut;
    }
  }
}
