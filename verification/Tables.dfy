// The database: the tables as values, and the meaning of each SQL statement the DAOs run.
module Tables {
  import opened ChatTypes

  datatype Db = Db(users: seq<User>, friends: seq<Edge>, messages: seq<Message>, nextMessageId: nat)

  // ---- users ----

  // UNIQUE KEY on users.username.
  ghost predicate UniqueNames(users: seq<User>) {
    forall i, j :: 0 <= i < j < |users| ==> users[i].username != users[j].username
  }

  // SELECT user_id FROM users WHERE username = ?
  function FindUser(users: seq<User>, name: string): (r: Option<UserId>)
    ensures r.Some? ==> r.value < |users| && users[r.value].username == name
    ensures r.None? ==> forall i :: 0 <= i < |users| ==> users[i].username != name
  {
    if users == [] then None
    else if users[|users| - 1].username == name then Some(|users| - 1)
    else FindUser(users[..|users| - 1], name)
  }

  // UPDATE users SET is_online = ? WHERE user_id = ?
  function SetOnline(users: seq<User>, id: UserId, online: bool): (r: seq<User>)
    ensures |r| == |users|
  {
    if id < |users| then users[id := users[id].(isOnline := online)] else users
  }

  // UPDATE users SET is_online = ? WHERE username = ?
  function SetOnlineByName(users: seq<User>, name: string, online: bool): (r: seq<User>)
    ensures |r| == |users|
    ensures forall i :: 0 <= i < |users| ==>
      r[i] == if users[i].username == name then users[i].(isOnline := online) else users[i]
  {
    seq(|users|, i requires 0 <= i < |users| =>
      if users[i].username == name then users[i].(isOnline := online) else users[i])
  }

  // ---- friends ----

  // The user on the other end of an edge that touches `id`; a self-loop has none.
  function OtherEnd(e: Edge, id: UserId): Option<UserId> {
    if e.user1 == id && e.user2 != id then Some(e.user2)
    else if e.user2 == id && e.user1 != id then Some(e.user1)
    else None
  }

  // SELECT u.username, u.is_online FROM users u INNER JOIN friends f ON (f.user_id1 = u.user_id OR
  // f.user_id2 = u.user_id) WHERE (f.user_id1 = ? OR f.user_id2 = ?) AND u.user_id != ?
  function FriendRows(users: seq<User>, friends: seq<Edge>, id: UserId): seq<FriendRow> {
    if friends == [] then []
    else FriendRows(users, friends[..|friends| - 1], id) + EdgeRow(users, friends[|friends| - 1], id)
  }

  function EdgeRow(users: seq<User>, e: Edge, id: UserId): seq<FriendRow> {
    match OtherEnd(e, id)
    case None => []
    case Some(other) =>
      if other < |users| then [FriendRow(users[other].username, users[other].isOnline)] else []
  }

  // DELETE FROM friends WHERE user_id1 = ? AND user_id2 = ?
  function DeleteEdge(friends: seq<Edge>, e: Edge): seq<Edge> {
    if friends == [] then []
    else DeleteEdge(friends[..|friends| - 1], e) +
         if friends[|friends| - 1] == e then [] else [friends[|friends| - 1]]
  }

  // UNIQUE KEY (user_id1, user_id2) and the two foreign keys.
  ghost predicate FriendsOk(db: Db) {
    && (forall i, j :: 0 <= i < j < |db.friends| ==> db.friends[i] != db.friends[j])
    && (forall e :: e in db.friends ==> e.user1 < |db.users| && e.user2 < |db.users|)
  }

  // ---- messages ----

  // message_id is AUTO_INCREMENT.
  ghost predicate Ascending(messages: seq<Message>) {
    forall i, j :: 0 <= i < j < |messages| ==> messages[i].id < messages[j].id
  }

  // AUTO_INCREMENT and the two foreign keys.
  ghost predicate MessagesOk(db: Db) {
    && Ascending(db.messages)
    && forall m :: m in db.messages ==> m.id < db.nextMessageId && m.sender < |db.users| && m.receiver < |db.users|
  }

  // The constraints of the three CREATE TABLE statements.
  ghost predicate SchemaOk(db: Db) { UniqueNames(db.users) && FriendsOk(db) && MessagesOk(db) }

  // SELECT ... FROM messages m INNER JOIN users u1 ... INNER JOIN users u2 ...
  // WHERE m.receiver_id = ? AND m.is_read = 0, before ordering.
  predicate IsUnreadFor(users: seq<User>, m: Message, receiver: UserId) {
    m.receiver == receiver && !m.isRead && m.sender < |users| && m.receiver < |users|
  }

  function UnreadRows(users: seq<User>, messages: seq<Message>, receiver: UserId): seq<Message> {
    if messages == [] then []
    else
      var last := messages[|messages| - 1];
      UnreadRows(users, messages[..|messages| - 1], receiver) +
      if IsUnreadFor(users, last, receiver) then [last] else []
  }

  // ORDER BY m.send_time ASC
  function OrderBySendTime(rows: seq<Message>): seq<Message> {
    if rows == [] then []
    else InsertByTime(OrderBySendTime(rows[..|rows| - 1]), rows[|rows| - 1])
  }

  function InsertByTime(rows: seq<Message>, m: Message): seq<Message> {
    if rows == [] || rows[|rows| - 1].sendTime <= m.sendTime then rows + [m]
    else InsertByTime(rows[..|rows| - 1], m) + [rows[|rows| - 1]]
  }

  function UnreadMessages(db: Db, receiver: UserId): seq<Message> {
    OrderBySendTime(UnreadRows(db.users, db.messages, receiver))
  }

  // UPDATE messages SET is_read = 1 WHERE sender_id = ? AND receiver_id = ? AND is_read = 0
  function MarkRead(messages: seq<Message>, sender: UserId, receiver: UserId): (r: seq<Message>)
    ensures |r| == |messages|
    ensures forall i :: 0 <= i < |messages| ==>
      r[i] == if messages[i].sender == sender && messages[i].receiver == receiver
              then messages[i].(isRead := true) else messages[i]
  {
    seq(|messages|, i requires 0 <= i < |messages| =>
      if messages[i].sender == sender && messages[i].receiver == receiver
      then messages[i].(isRead := true) else messages[i])
  }

  // INSERT INTO messages (sender_id, receiver_id, content) VALUES (?, ?, ?)
  function StoreMessage(db: Db, sender: UserId, receiver: UserId, content: string, now: int, sends: nat): Db {
    db.(messages := db.messages + [Message(db.nextMessageId, sender, receiver, content, now, false, sends)],
        nextMessageId := db.nextMessageId + 1)
  }

  predicate Between(m: Message, a: UserId, b: UserId) {
    (m.sender == a && m.receiver == b) || (m.sender == b && m.receiver == a)
  }

  // DELETE FROM messages WHERE (sender_id = ? AND receiver_id = ?) OR (sender_id = ? AND receiver_id = ?)
  function DeleteBetween(messages: seq<Message>, a: UserId, b: UserId): seq<Message> {
    if messages == [] then []
    else
      var last := messages[|messages| - 1];
      DeleteBetween(messages[..|messages| - 1], a, b) + if Between(last, a, b) then [] else [last]
  }
}
