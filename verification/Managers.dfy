// The data access layer and the three managers, step by step as the handlers run, each proved to
// take the state where the handler functions take it.
module Managers {
  import opened ChatTypes
  import opened Tables
  import opened Sessions
  import opened Handlers
  import opened SessionManagement
  import opened MessageTable

  // The tables, with one method for each statement a DAO runs.
  class Database {
    var users: seq<User>
    var friends: seq<Edge>
    var messages: seq<Message>
    var nextMessageId: nat

    ghost function View(): Db reads this { Db(users, friends, messages, nextMessageId) }

    method InsertUser(name: string, passwordHash: string)
      modifies this`users
      ensures users == old(users) + [User(name, passwordHash, false)]
    {
      users := users + [User(name, passwordHash, false)];
    }

    method GetUserByUsername(name: string) returns (found: bool, id: UserId, passwordHash: string)
      ensures found <==> FindUser(users, name).Some?
      ensures found ==> FindUser(users, name) == Some(id) && passwordHash == users[id].passwordHash
    {
      match FindUser(users, name)
      case None => found, id, passwordHash := false, 0, "";
      case Some(row) => found, id, passwordHash := true, row, users[row].passwordHash;
    }

    method GetUserIdByUsername(name: string) returns (found: bool, id: UserId)
      ensures found <==> FindUser(users, name).Some?
      ensures found ==> FindUser(users, name) == Some(id)
    {
      var passwordHash;
      found, id, passwordHash := GetUserByUsername(name);
    }

    method GetUserOnlineStatus(id: UserId) returns (online: bool)
      ensures online <==> id < |users| && users[id].isOnline
    {
      online := id < |users| && users[id].isOnline;
    }

    method UpdateOnlineStatus(id: UserId, online: bool)
      modifies this`users
      ensures users == SetOnline(old(users), id, online)
    {
      users := SetOnline(users, id, online);
    }

    method UpdateOnlineStatusByUsername(name: string, online: bool)
      modifies this`users
      ensures users == SetOnlineByName(old(users), name, online)
      ensures |users| == |old(users)| && forall i :: 0 <= i < |users| ==>
        && (old(users)[i].username == name ==> users[i] == old(users)[i].(isOnline := online))
        && (old(users)[i].username != name ==> users[i] == old(users)[i])
    {
      users := SetOnlineByName(users, name, online);
    }

    // The cursor loop of GetFriendList and GetFriendsOfUser, over the join.
    method GetFriendList(id: UserId) returns (rows: seq<FriendRow>)
      ensures rows == FriendRows(users, friends, id)
    {
      rows := [];
      var i := 0;
      while i < |friends|
        invariant 0 <= i <= |friends|
        invariant rows == FriendRows(users, friends[..i], id)
      {
        assert friends[..i + 1][..i] == friends[..i];
        match OtherEnd(friends[i], id) {
          case None =>
          case Some(other) =>
            if other < |users| {
              rows := rows + [FriendRow(users[other].username, users[other].isOnline)];
            }
        }
        i := i + 1;
      }
      assert friends[..i] == friends;
    }

    method CheckFriendship(a: UserId, b: UserId) returns (found: bool)
      ensures found <==> Edge(a, b) in friends
    {
      found := Edge(a, b) in friends;
    }

    method InsertFriend(a: UserId, b: UserId)
      modifies this`friends
      ensures friends == old(friends) + [Edge(a, b)]
    {
      friends := friends + [Edge(a, b)];
    }

    method DeleteFriend(a: UserId, b: UserId)
      modifies this`friends
      ensures friends == DeleteEdge(old(friends), Edge(a, b))
    {
      friends := DeleteEdge(friends, Edge(a, b));
    }

    method DeleteMessagesBetweenUsers(a: UserId, b: UserId)
      modifies this`messages
      ensures messages == DeleteBetween(old(messages), a, b)
    {
      messages := DeleteBetween(messages, a, b);
    }

    method InsertMessage(sender: UserId, receiver: UserId, content: string, now: int, sends: nat) returns (id: nat)
      modifies this`messages, this`nextMessageId
      ensures View() == Tables.StoreMessage(old(View()), sender, receiver, content, now, sends)
      ensures id == old(nextMessageId) && nextMessageId == id + 1
      ensures |messages| == |old(messages)| + 1 && messages[..|old(messages)|] == old(messages)
      ensures var row := messages[|old(messages)|];
              && row.id == id && row.sender == sender && row.receiver == receiver && row.content == content
              && row.sendTime == now && !row.isRead
      ensures old(MessagesOk(View())) && sender < |users| && receiver < |users| ==>
        MessagesOk(View()) && forall m :: m in old(messages) ==> m.id != id
    {
      id := nextMessageId;
      messages := messages + [Message(id, sender, receiver, content, now, false, sends)];
      nextMessageId := nextMessageId + 1;
      if old(MessagesOk(View())) && sender < |users| && receiver < |users| {
        StoreKeepsOk(old(View()), sender, receiver, content, now, sends);
      }
    }

    // The cursor loop of GetUnreadMessages, then ORDER BY.
    method GetUnreadMessages(receiver: UserId) returns (rows: seq<Message>)
      ensures rows == UnreadMessages(View(), receiver)
    {
      rows := [];
      var i := 0;
      while i < |messages|
        invariant 0 <= i <= |messages|
        invariant rows == UnreadRows(users, messages[..i], receiver)
      {
        assert messages[..i + 1][..i] == messages[..i];
        if IsUnreadFor(users, messages[i], receiver) {
          rows := rows + [messages[i]];
        }
        i := i + 1;
      }
      assert messages[..i] == messages;
      rows := OrderBySendTime(rows);
    }

    method MarkMessagesAsRead(sender: UserId, receiver: UserId)
      modifies this`messages
      ensures messages == MarkRead(old(messages), sender, receiver)
      ensures |messages| == |old(messages)| && forall i :: 0 <= i < |messages| ==>
        var m := old(messages)[i];
        && (m.sender == sender && m.receiver == receiver ==> messages[i] == m.(isRead := true))
        && (m.sender != sender || m.receiver != receiver ==> messages[i] == m)
    {
      messages := MarkRead(messages, sender, receiver);
    }
  }

  // The client sockets: the send callback, shutdown and close.
  class Network {
    var open: set<int>
    var shut: set<int>
    var log: seq<Sent>

    ghost function View(): Net reads this { Net(open, shut, log) }

    // accept() has handed out a descriptor.
    method OpenSocket(socket: int)
      modifies this`open
      ensures View() == old(View()).(open := old(open) + {socket})
    {
      open := open + {socket};
    }

    method SendData(socket: int, payload: Payload, env: Env) returns (ok: bool)
      modifies this`log
      ensures View() == Send(old(View()), socket, payload, env)
      ensures ok == Delivered(old(View()), socket, env)
    {
      ok := socket in open && socket !in shut && env.carries(|log|);
      log := log + [Sent(socket, payload, ok)];
    }

    method ShutdownSocket(socket: int)
      modifies this`shut
      ensures View() == Handlers.Shutdown(old(View()), socket)
    {
      if socket in open { shut := shut + {socket}; }
    }

    method CloseSocket(socket: int)
      modifies this`open, this`shut
      ensures View() == Handlers.Close(old(View()), socket)
    {
      open, shut := open - {socket}, shut - {socket};
    }
  }

  // The state the managers share by pointer.
  class Backend {
    const sessions: SessionManager
    const db: Database
    const net: Network

    ghost predicate Valid()
      reads sessions, sessions.cliSessionMap.Values
    {
      sessions.Valid()
    }

    ghost function View(): World
      reads sessions, sessions.cliSessionMap.Values, db, net
    {
      World(sessions.View(), db.View(), net.View())
    }

    constructor (sessions: SessionManager, db: Database, net: Network)
      ensures this.sessions == sessions && this.db == db && this.net == net
    {
      this.sessions, this.db, this.net := sessions, db, net;
    }
  }

  class UserManager {
    const b: Backend

    constructor (b: Backend) ensures this.b == b { this.b := b; }

    method HandleRegister(r: Request, env: Env) returns (code: int)
      modifies b.db
      ensures (b.db.View(), code) == Handlers.HandleRegister(old(b.db.View()), r, env)
    {
      if !ValidUsername(r.username) { return 2001; }
      if !ValidPassword(r.password) { return 2001; }
      var taken, _ := b.db.GetUserIdByUsername(r.username);
      if taken { return 2002; }
      b.db.InsertUser(r.username, env.hash(r.password));
      return 0;
    }

    method NotifyFriendsStatusChange(name: string, online: bool, env: Env)
      requires b.Valid()
      modifies b.net
      ensures b.View() == NotifyFriends(old(b.View()), name, online, env)
    {
      var found, id := b.db.GetUserIdByUsername(name);
      if !found { return; }
      var friends := b.db.GetFriendList(id);
      var payload := StatusNotify(name, online);
      var i := 0;
      while i < |friends|
        invariant 0 <= i <= |friends|
        invariant NotifyRows(b.View(), friends[i..], payload, env) == NotifyRows(old(b.View()), friends, payload, env)
      {
        assert friends[i..][1..] == friends[i + 1..];
        NotifyOne(friends[i], payload, env);
        i := i + 1;
      }
    }

    // The body of its loop.
    method NotifyOne(friend: FriendRow, payload: Payload, env: Env)
      requires b.Valid()
      modifies b.net
      ensures b.View() == NotifyRow(old(b.View()), friend, payload, env)
    {
      if friend.isOnline {
        var session := b.sessions.GetSessionByUsername(friend.username);
        if session != null {
          var _ := b.net.SendData(session.socket, payload, env);
        }
      }
    }

    method HandleLogin(socket: int, r: Request, now: int, env: Env) returns (code: int)
      requires b.Valid()
      modifies b.db, b.net, b.sessions, b.sessions.cliSessionMap.Values
      ensures b.Valid() && b.sessions.cliSessionMap == old(b.sessions.cliSessionMap)
      ensures (b.View(), code) == Handlers.HandleLogin(old(b.View()), socket, r, now, env)
    {
      if !ValidUsername(r.username) { return 2001; }
      var found, id, passwordHash := b.db.GetUserByUsername(r.username);
      if !found { return 2003; }
      if env.hash(r.password) != passwordHash { return 2004; }
      FinishLogin(id, socket, r.username, now, env);
      code := 0;
    }

    // HandleLogin from the presence check on.
    method FinishLogin(id: UserId, socket: int, name: string, now: int, env: Env)
      requires b.Valid() && id < |b.db.users|
      modifies b.db, b.net, b.sessions, b.sessions.cliSessionMap.Values
      ensures b.Valid() && b.sessions.cliSessionMap == old(b.sessions.cliSessionMap)
      ensures b.View() == CompleteLogin(old(b.View()), id, socket, name, now, env)
    {
      ghost var w := b.View();
      MakeRoom(id, name, env);
      ghost var w1 := b.View();
      b.db.UpdateOnlineStatus(id, true);
      BindSession(socket, name, now);
      assert b.View() == w1.(db := w1.db.(users := SetOnline(w1.db.users, id, true)),
                             table := BindLogin(w1.table, socket, name, now));
      NotifyFriendsStatusChange(name, true, env);
    }

    method MakeRoom(id: UserId, name: string, env: Env)
      requires b.Valid() && id < |b.db.users|
      modifies b.db, b.net, b.sessions.cliSessionMap.Values
      ensures b.Valid() && b.View() == Handlers.MakeRoom(old(b.View()), id, name, env)
    {
      var isOnline := b.db.GetUserOnlineStatus(id);
      if isOnline {
        b.db.UpdateOnlineStatus(id, false);
        KickOldSession(name, env);
      }
    }

    // The part of HandleLogin that logs the older session out.
    method KickOldSession(name: string, env: Env)
      requires b.Valid()
      modifies b.net, b.sessions.cliSessionMap.Values
      ensures b.Valid() && b.View() == Kick(old(b.View()), name, env)
    {
      var oldSession := b.sessions.GetSessionByUsername(name);
      if oldSession != null {
        var oldSocket := oldSession.socket;
        var _ := b.net.SendData(oldSocket, Kicked, env);
        label sent:
        oldSession.SetUsername("");
        b.sessions.EntryChanged@sent(oldSession);
        b.net.ShutdownSocket(oldSocket);
      }
    }

    // The part of HandleLogin that names the session, if the socket still has one.
    method BindSession(socket: int, name: string, now: int)
      requires b.Valid()
      modifies b.sessions, b.sessions.cliSessionMap.Values
      ensures b.Valid() && b.sessions.cliSessionMap == old(b.sessions.cliSessionMap)
      ensures b.sessions.View() == BindLogin(old(b.sessions.View()), socket, name, now)
    {
      var session := b.sessions.GetSession(socket);
      if session != null {
        label found:
        session.SetUsername(name);
        b.sessions.EntryChanged@found(session);
        b.sessions.BindUsername(socket, name);
        label bound:
        session.UpdateHeartbeat(now);
        b.sessions.EntryChanged@bound(session);
      }
    }

    method UpdateUserOnlineStatus(name: string, online: bool)
      modifies b.db
      ensures b.db.View() == old(b.db.View()).(users := SetOnlineByName(old(b.db.users), name, online))
    {
      b.db.UpdateOnlineStatusByUsername(name, online);
    }
  }

  class MessageManager {
    const b: Backend

    constructor (b: Backend) ensures this.b == b { this.b := b; }

    method ValidateMessageContent(content: string) returns (valid: bool)
      ensures valid <==> exists i :: 0 <= i < |content| && !IsSpace(content[i])
    {
      if content == "" { return false; }
      var i := 0;
      while i < |content|
        invariant 0 <= i <= |content|
        invariant forall k :: 0 <= k < i ==> IsSpace(content[k])
      {
        if !IsSpace(content[i]) { return true; }
        i := i + 1;
      }
      return false;
    }

    method ForwardMessage(receiverName: string, payload: Payload, env: Env) returns (ok: bool)
      requires b.Valid() && payload.ForwardMsg?
      modifies b.net, b.db
      ensures (b.View(), ok) == Handlers.ForwardMessage(old(b.View()), receiverName, payload, env)
    {
      var session := b.sessions.GetSessionByUsername(receiverName);
      if session == null { return false; }
      ok := b.net.SendData(session.socket, payload, env);
      if ok {
        b.db.MarkMessagesAsRead(payload.sender, payload.receiver);
      }
    }

    method SendNotification(socket: int, senderName: string, env: Env)
      modifies b.net
      ensures b.net.View() == Send(old(b.net.View()), socket, MsgNotify(senderName), env)
    {
      var _ := b.net.SendData(socket, MsgNotify(senderName), env);
    }

    method HandleSendMessage(r: Request, now: int, env: Env) returns (code: int)
      requires b.Valid()
      modifies b.net, b.db
      ensures (b.View(), code) == HandleSend(old(b.View()), r, now, env)
    {
      var valid := ValidateMessageContent(r.content);
      if !valid { return 4001; }
      if |r.content| > MAX_MESSAGE_SIZE { return 4002; }
      var found, sender := b.db.GetUserIdByUsername(r.username);
      if !found { return 4003; }
      var found', receiver := b.db.GetUserIdByUsername(r.target);
      if !found' { return 4003; }
      StoreAndForward(sender, receiver, r, now, env);
      return 0;
    }

    // HandleSendMessage once both users are known.
    method StoreAndForward(sender: UserId, receiver: UserId, r: Request, now: int, env: Env)
      requires b.Valid() && receiver < |b.db.users|
      modifies b.net, b.db
      ensures b.View() == Handlers.StoreAndForward(old(b.View()), sender, receiver, r, now, env)
    {
      var id := b.db.InsertMessage(sender, receiver, r.content, now, |b.net.log|);
      var isOnline := b.db.GetUserOnlineStatus(receiver);
      if isOnline {
        ForwardIfBound(r.target, ForwardMsg(id, sender, receiver, r.username, r.content, None), env);
      }
    }

    method ForwardIfBound(target: string, payload: Payload, env: Env)
      requires b.Valid() && payload.ForwardMsg?
      modifies b.net, b.db
      ensures b.View() == match SocketOf(old(b.sessions.View()), target)
                          case None => old(b.View())
                          case Some(socket) => ForwardAndNotify(old(b.View()), socket, target, payload, env)
    {
      var session := b.sessions.GetSessionByUsername(target);
      if session != null {
        var _ := ForwardMessage(target, payload, env);
        SendNotification(session.socket, payload.senderName, env);
      }
    }

    method PushOfflineMessages(name: string, env: Env)
      requires b.Valid()
      modifies b.net, b.db
      ensures b.View() == PushOffline(old(b.View()), name, env)
    {
      var found, id := b.db.GetUserIdByUsername(name);
      if !found { return; }
      var rows := b.db.GetUnreadMessages(id);
      if rows == [] { return; }
      var session := b.sessions.GetSessionByUsername(name);
      if session == null { return; }
      PushAll(session.socket, rows, env);
    }

    // The loop of PushOfflineMessages.
    method PushAll(socket: int, rows: seq<Message>, env: Env)
      requires b.Valid()
      modifies b.net, b.db
      ensures b.View() == PushRows(old(b.View()), socket, rows, env)
    {
      var i := 0;
      while i < |rows|
        invariant 0 <= i <= |rows|
        invariant PushRows(b.View(), socket, rows[i..], env) == PushRows(old(b.View()), socket, rows, env)
      {
        assert rows[i..][1..] == rows[i + 1..];
        PushOne(socket, rows[i], env);
        i := i + 1;
      }
    }

    // Its body.
    method PushOne(socket: int, m: Message, env: Env)
      requires b.Valid()
      modifies b.net, b.db
      ensures b.View() == PushRow(old(b.View()), socket, m, env)
    {
      var payload := OfflinePayload(b.db.users, m);
      var _ := ForwardMessage(NameOf(b.db.users, m.receiver), payload, env);
      SendNotification(socket, payload.senderName, env);
    }
  }

  class FriendManager {
    const b: Backend
    var cachedFriendLists: Cache

    constructor (b: Backend)
      ensures this.b == b && cachedFriendLists == map[]
    {
      this.b := b;
      cachedFriendLists := map[];
    }

    method HandleAddFriend(r: Request) returns (code: int)
      modifies b.db
      ensures (b.db.View(), code) == Handlers.HandleAddFriend(old(b.db.View()), r)
    {
      var target := r.target;
      if target == "" { target := r.username; }
      if target == "" { return 1001; }
      if r.username == target { return 3003; }
      var found, userId := b.db.GetUserIdByUsername(r.username);
      if !found { return 2003; }
      var found', targetId := b.db.GetUserIdByUsername(target);
      if !found' { return 3001; }
      var already := b.db.CheckFriendship(userId, targetId);
      if already { return 3002; }
      b.db.InsertFriend(userId, targetId);
      return 0;
    }

    method HandleDeleteFriend(r: Request) returns (code: int)
      modifies b.db
      ensures (b.db.View(), code) == Handlers.HandleDeleteFriend(old(b.db.View()), r)
    {
      var target := r.target;
      if target == "" { target := r.username; }
      if target == "" { return 1001; }
      var found, userId := b.db.GetUserIdByUsername(r.username);
      if !found { return 2003; }
      var found', targetId := b.db.GetUserIdByUsername(target);
      if !found' { return 3001; }
      var friends := b.db.CheckFriendship(userId, targetId);
      if !friends { return 3004; }
      b.db.DeleteFriend(userId, targetId);
      b.db.DeleteMessagesBetweenUsers(userId, targetId);
      return 0;
    }

    method HandleFriendList(r: Request) returns (code: int, rows: seq<FriendRow>)
      ensures code == if FindUser(b.db.users, r.username).None? then 2003 else 0
      ensures code == 0 ==> rows == FriendRows(b.db.users, b.db.friends, FindUser(b.db.users, r.username).value)
    {
      var found, id := b.db.GetUserIdByUsername(r.username);
      if !found { return 2003, []; }
      rows := b.db.GetFriendList(id);
      code := 0;
    }

    method CacheFriendList(name: string)
      modifies this`cachedFriendLists
      ensures cachedFriendLists == CacheFriends(b.db.View(), old(cachedFriendLists), name)
    {
      var found, id := b.db.GetUserIdByUsername(name);
      if !found { return; }
      var friends := b.db.GetFriendList(id);
      var names: seq<string> := [];
      var i := 0;
      while i < |friends|
        invariant 0 <= i <= |friends|
        invariant names == Usernames(friends[..i])
      {
        names := names + [friends[i].username];
        i := i + 1;
      }
      assert friends[..i] == friends;
      cachedFriendLists := cachedFriendLists[name := names];
    }

    method RemoveFriendCache(name: string)
      modifies this`cachedFriendLists
      ensures cachedFriendLists == old(cachedFriendLists) - {name}
    {
      if name in cachedFriendLists {
        cachedFriendLists := cachedFriendLists - {name};
      } else {
        assert cachedFriendLists - {name} == cachedFriendLists;
      }
    }
  }
}
