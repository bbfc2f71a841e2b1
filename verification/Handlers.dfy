// What each request handler does, as a function of the state it reads: the branches, error codes
// and order of effects of UserManager, MessageManager, FriendManager and Server::DispatchRequest.
module Handlers {
  import opened ChatTypes
  import opened Tables
  import opened Sessions

  // Sockets the process has open, those it has shut down, and every send attempted so far.
  datatype Net = Net(open: set<int>, shut: set<int>, log: seq<Sent>)

  datatype World = World(table: SessionTable, db: Db, net: Net)

  type Cache = map<string, seq<string>>

  datatype Kind = Register | Login | SendMsg | AddFriend | DelFriend | FriendList | Heartbeat | Unknown | Malformed

  datatype Request = Request(kind: Kind, username: string, password: string, target: string, content: string)

  const MAX_MESSAGE_SIZE := 65536

  // ---- the network ----

  function Delivered(net: Net, socket: int, env: Env): bool {
    socket in net.open && socket !in net.shut && env.carries(|net.log|)
  }

  function Send(net: Net, socket: int, payload: Payload, env: Env): Net {
    net.(log := net.log + [Sent(socket, payload, Delivered(net, socket, env))])
  }

  function Shutdown(net: Net, socket: int): Net {
    if socket in net.open then net.(shut := net.shut + {socket}) else net
  }

  function Close(net: Net, socket: int): Net {
    net.(open := net.open - {socket}, shut := net.shut - {socket})
  }

  // A handler looks the names of its request up and works with the ids it finds. The functions named
  // ...Found are the handlers from there on.

  // ---- UserManager ----

  predicate IsNameChar(c: char) { 'a' <= c <= 'z' || 'A' <= c <= 'Z' || '0' <= c <= '9' || c == '_' }

  // ^[a-zA-Z0-9_]{3,20}$
  predicate ValidUsername(name: string) {
    3 <= |name| <= 20 && forall i :: 0 <= i < |name| ==> IsNameChar(name[i])
  }

  predicate ValidPassword(password: string) { |password| >= 6 }

  function HandleRegister(db: Db, r: Request, env: Env): (Db, int) {
    RegisterFound(db, FindUser(db.users, r.username), r, env)
  }

  function RegisterFound(db: Db, user: Option<UserId>, r: Request, env: Env): (Db, int) {
    if !ValidUsername(r.username) || !ValidPassword(r.password) then (db, 2001)
    else if user.Some? then (db, 2002)
    else (db.(users := db.users + [User(r.username, env.hash(r.password), false)]), 0)
  }

  function NotifyRow(w: World, row: FriendRow, payload: Payload, env: Env): World {
    if !row.isOnline then w
    else match SocketOf(w.table, row.username)
         case None => w
         case Some(socket) => w.(net := Send(w.net, socket, payload, env))
  }

  function NotifyRows(w: World, rows: seq<FriendRow>, payload: Payload, env: Env): World
    decreases |rows|
  {
    if rows == [] then w else NotifyRows(NotifyRow(w, rows[0], payload, env), rows[1..], payload, env)
  }

  function NotifyFriends(w: World, name: string, online: bool, env: Env): World {
    NotifyFound(w, FindUser(w.db.users, name), name, online, env)
  }

  function NotifyFound(w: World, user: Option<UserId>, name: string, online: bool, env: Env): World {
    match user
    case None => w
    case Some(id) => NotifyRows(w, FriendRows(w.db.users, w.db.friends, id), StatusNotify(name, online), env)
  }

  // The forced logout inside HandleLogin: notice, blank the old session's name, shut its socket.
  function Kick(w: World, name: string, env: Env): World {
    match SocketOf(w.table, name)
    case None => w
    case Some(prior) =>
      var net := Send(w.net, prior, Kicked, env);
      w.(net := Shutdown(net, prior), table := SetUsername(w.table, prior, ""))
  }

  function BindLogin(t: SessionTable, socket: int, name: string, now: int): SessionTable {
    if socket in t.live then Touch(BindUsername(SetUsername(t, socket, name), socket, name), socket, now) else t
  }

  function LoginCode(db: Db, r: Request, env: Env): int {
    LoginCodeFound(db, FindUser(db.users, r.username), r, env)
  }

  function LoginCodeFound(db: Db, user: Option<UserId>, r: Request, env: Env): int
    requires user.Some? ==> user.value < |db.users|
  {
    if !ValidUsername(r.username) then 2001
    else match user
         case None => 2003
         case Some(id) => if env.hash(r.password) != db.users[id].passwordHash then 2004 else 0
  }

  // An account that is marked online is marked offline and its older session kicked.
  function MakeRoom(w: World, id: UserId, name: string, env: Env): World
    requires id < |w.db.users|
  {
    if w.db.users[id].isOnline then Kick(w.(db := w.db.(users := SetOnline(w.db.users, id, false))), name, env) else w
  }

  // What HandleLogin does once the password has been checked, up to the notification of friends.
  function EnterLogin(w: World, id: UserId, socket: int, name: string, now: int, env: Env): World
    requires id < |w.db.users|
  {
    var w1 := MakeRoom(w, id, name, env);
    w1.(db := w1.db.(users := SetOnline(w1.db.users, id, true)), table := BindLogin(w1.table, socket, name, now))
  }

  function CompleteLogin(w: World, id: UserId, socket: int, name: string, now: int, env: Env): World
    requires id < |w.db.users|
  {
    NotifyFriends(EnterLogin(w, id, socket, name, now, env), name, true, env)
  }

  function HandleLogin(w: World, socket: int, r: Request, now: int, env: Env): (World, int) {
    var code := LoginCode(w.db, r, env);
    if code != 0 then (w, code)
    else (CompleteLogin(w, FindUser(w.db.users, r.username).value, socket, r.username, now, env), 0)
  }

  // ---- MessageManager ----

  predicate IsSpace(c: char) {
    c == ' ' || c == '\t' || c == '\n' || c == '\r' || c as int == 11 || c as int == 12
  }

  // Some character is not white space.
  predicate ValidContent(content: string) { exists i :: 0 <= i < |content| && !IsSpace(content[i]) }

  function ForwardMessage(w: World, receiverName: string, payload: Payload, env: Env): (World, bool)
    requires payload.ForwardMsg?
  {
    match SocketOf(w.table, receiverName)
    case None => (w, false)
    case Some(socket) =>
      var ok := Delivered(w.net, socket, env);
      var w1 := w.(net := Send(w.net, socket, payload, env));
      (if ok then w1.(db := w1.db.(messages := MarkRead(w1.db.messages, payload.sender, payload.receiver))) else w1, ok)
  }

  // Forward one message, then send the new-message notice to `socket` whatever the outcome.
  function ForwardAndNotify(w: World, socket: int, receiverName: string, payload: Payload, env: Env): World
    requires payload.ForwardMsg?
  {
    var w1 := ForwardMessage(w, receiverName, payload, env).0;
    w1.(net := Send(w1.net, socket, MsgNotify(payload.senderName), env))
  }

  function SendCode(db: Db, r: Request): int {
    SendCodeFound(FindUser(db.users, r.username), FindUser(db.users, r.target), r)
  }

  function SendCodeFound(sender: Option<UserId>, receiver: Option<UserId>, r: Request): int {
    if !ValidContent(r.content) then 4001
    else if |r.content| > MAX_MESSAGE_SIZE then 4002
    else if sender.None? || receiver.None? then 4003
    else 0
  }

  function HandleSend(w: World, r: Request, now: int, env: Env): (World, int) {
    SendFound(w, FindUser(w.db.users, r.username), FindUser(w.db.users, r.target), r, now, env)
  }

  function SendFound(w: World, sender: Option<UserId>, receiver: Option<UserId>, r: Request, now: int,
                     env: Env): (World, int)
    requires receiver.Some? ==> receiver.value < |w.db.users|
  {
    var code := SendCodeFound(sender, receiver, r);
    if code != 0 then (w, code) else (StoreAndForward(w, sender.value, receiver.value, r, now, env), 0)
  }

  function StoreAndForward(w: World, sender: UserId, receiver: UserId, r: Request, now: int, env: Env): World
    requires receiver < |w.db.users|
  {
    var w1 := w.(db := StoreMessage(w.db, sender, receiver, r.content, now, |w.net.log|));
    if !w1.db.users[receiver].isOnline then w1
    else match SocketOf(w1.table, r.target)
         case None => w1
         case Some(socket) =>
           ForwardAndNotify(w1, socket, r.target,
                            ForwardMsg(w.db.nextMessageId, sender, receiver, r.username, r.content, None), env)
  }

  function NameOf(users: seq<User>, id: UserId): string { if id < |users| then users[id].username else "" }

  function OfflinePayload(users: seq<User>, m: Message): Payload {
    ForwardMsg(m.id, m.sender, m.receiver, NameOf(users, m.sender), m.content, Some(m.sendTime))
  }

  function PushRow(w: World, socket: int, m: Message, env: Env): World {
    ForwardAndNotify(w, socket, NameOf(w.db.users, m.receiver), OfflinePayload(w.db.users, m), env)
  }

  function PushRows(w: World, socket: int, rows: seq<Message>, env: Env): World
    decreases |rows|
  {
    if rows == [] then w else PushRows(PushRow(w, socket, rows[0], env), socket, rows[1..], env)
  }

  function PushOffline(w: World, name: string, env: Env): World {
    PushFound(w, FindUser(w.db.users, name), name, env)
  }

  function PushFound(w: World, user: Option<UserId>, name: string, env: Env): World {
    match user
    case None => w
    case Some(id) =>
      match SocketOf(w.table, name)
      case None => w
      case Some(socket) => PushRows(w, socket, UnreadMessages(w.db, id), env)
  }

  // ---- FriendManager ----

  function FriendTarget(r: Request): string { if r.target == "" then r.username else r.target }

  function HasEdge(db: Db, a: UserId, b: UserId): bool { Edge(a, b) in db.friends }

  function HandleAddFriend(db: Db, r: Request): (Db, int) {
    AddFriendFound(db, FindUser(db.users, r.username), FindUser(db.users, FriendTarget(r)), r)
  }

  function AddFriendFound(db: Db, user: Option<UserId>, friend: Option<UserId>, r: Request): (Db, int) {
    if FriendTarget(r) == "" then (db, 1001)
    else if r.username == FriendTarget(r) then (db, 3003)
    else match user
         case None => (db, 2003)
         case Some(a) =>
           match friend
           case None => (db, 3001)
           case Some(b) =>
             if HasEdge(db, a, b) then (db, 3002) else (db.(friends := db.friends + [Edge(a, b)]), 0)
  }

  function HandleDeleteFriend(db: Db, r: Request): (Db, int) {
    DeleteFriendFound(db, FindUser(db.users, r.username), FindUser(db.users, FriendTarget(r)), r)
  }

  function DeleteFriendFound(db: Db, user: Option<UserId>, friend: Option<UserId>, r: Request): (Db, int) {
    if FriendTarget(r) == "" then (db, 1001)
    else match user
         case None => (db, 2003)
         case Some(a) =>
           match friend
           case None => (db, 3001)
           case Some(b) =>
             if !HasEdge(db, a, b) then (db, 3004)
             else (db.(friends := DeleteEdge(db.friends, Edge(a, b)),
                       messages := DeleteBetween(db.messages, a, b)), 0)
  }

  function Usernames(rows: seq<FriendRow>): seq<string> {
    seq(|rows|, i requires 0 <= i < |rows| => rows[i].username)
  }

  function CacheFriends(db: Db, cache: Cache, name: string): Cache {
    CacheFound(db, FindUser(db.users, name), cache, name)
  }

  function CacheFound(db: Db, user: Option<UserId>, cache: Cache, name: string): Cache {
    match user
    case None => cache
    case Some(id) => cache[name := Usernames(FriendRows(db.users, db.friends, id))]
  }

  // ---- Server::DispatchRequest ----

  // A logged-in socket acts under its own name whatever username the request claims; the claimed
  // name becomes the target when the request has none.
  function Effective(t: SessionTable, socket: int, r: Request): Request {
    var bound := NameOn(t, socket);
    if bound == "" then r
    else if r.username == "" then r.(username := bound)
    else r.(username := bound, target := if r.target == "" then r.username else r.target)
  }

  // A login request: the login itself, then the friend cache, then the offline messages.
  function LoginAndPush(w: World, cache: Cache, socket: int, r: Request, now: int, env: Env): (World, Cache, int) {
    var (w1, code) := HandleLogin(w, socket, r, now, env);
    if code != 0 then (w1, cache, code)
    else (PushOffline(w1, r.username, env), CacheFriends(w1.db, cache, r.username), 0)
  }

  function Handle(w: World, cache: Cache, socket: int, r: Request, now: int, env: Env): (World, Cache, int) {
    match r.kind
    case Register => var (db, code) := HandleRegister(w.db, r, env); (w.(db := db), cache, code)
    case Login => LoginAndPush(w, cache, socket, r, now, env)
    case SendMsg => var (w1, code) := HandleSend(w, r, now, env); (w1, cache, code)
    case AddFriend => var (db, code) := HandleAddFriend(w.db, r); (w.(db := db), cache, code)
    case DelFriend => var (db, code) := HandleDeleteFriend(w.db, r); (w.(db := db), cache, code)
    case FriendList => (w, cache, if FindUser(w.db.users, r.username).None? then 2003 else 0)
    case Heartbeat => (w, cache, 0)
    case Unknown => (w, cache, 4002)
    case Malformed => (w, cache, 4001)
  }

  // A request that parses counts as a heartbeat.
  function Heard(w: World, socket: int, r: Request, now: int): World {
    if r.kind.Malformed? then w else w.(table := Touch(w.table, socket, now))
  }

  function Dispatch(w: World, cache: Cache, socket: int, r: Request, now: int, env: Env): (World, Cache) {
    var w0 := Heard(w, socket, r, now);
    var (w1, cache1, code) := Handle(w0, cache, socket, Effective(w0.table, socket, r), now, env);
    (w1.(net := Send(w1.net, socket, Reply(code), env)), cache1)
  }
}
