// Values shared by the whole model: rows of the three database tables, a client session,
// what the server puts on the wire, and the environment the server runs in.
module ChatTypes {

  datatype Option<+T> = None | Some(value: T)

  // A user id is the number of the row in `users`: rows are only ever appended.
  type UserId = nat

  datatype User = User(username: string, passwordHash: string, isOnline: bool)

  // One row of `friends`: user1 added user2.
  datatype Edge = Edge(user1: UserId, user2: UserId)

  // One row of `messages`. `storedAt` is not a column: it is the number of sends the server had
  // attempted when the row was inserted, and lets a theorem say "after the message was stored".
  datatype Message = Message(id: nat, sender: UserId, receiver: UserId, content: string,
                             sendTime: int, isRead: bool, storedAt: nat)

  // One row of the friend list query.
  datatype FriendRow = FriendRow(username: string, isOnline: bool)

  // The fields of a ClientSession that change or are tested. An empty username means "not logged in".
  datatype Session = Session(username: string, lastHeartbeat: int, connected: bool)

  // What one SendData call carries. The ids in ForwardMsg are not on the wire: they tag the row
  // the call was made for.
  datatype Payload =
    | ForwardMsg(id: nat, sender: UserId, receiver: UserId, senderName: string, content: string, timestamp: Option<int>)
    | MsgNotify(senderName: string)
    | StatusNotify(username: string, online: bool)
    | Kicked
    | Reply(code: int)
    | ServerBusy

  // One attempted send and whether it succeeded.
  datatype Sent = Sent(socket: int, payload: Payload, ok: bool)

  // The environment: the password hash, and whether the network would carry the k-th send.
  datatype Env = Env(hash: string -> string, carries: nat -> bool)

  // The network carries each of the first `sends` sends. Sends to a shut-down socket still fail.
  ghost predicate Reliable(env: Env, sends: nat) { forall k: nat :: k < sends ==> env.carries(k) }
}
