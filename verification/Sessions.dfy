// The session table and the username index: the two maps SessionManager keeps under one mutex.
module Sessions {
  import opened ChatTypes

  datatype SessionTable = SessionTable(live: map<int, Session>, index: map<string, int>)

  function AddSession(t: SessionTable, socket: int, session: Session): SessionTable {
    SessionTable(t.live[socket := session],
                 if session.username != "" then t.index[session.username := socket] else t.index)
  }

  function RemoveSession(t: SessionTable, socket: int): SessionTable {
    if socket !in t.live then t
    else
      var name := t.live[socket].username;
      SessionTable(t.live - {socket},
                   if name != "" && name in t.index && t.index[name] == socket then t.index - {name} else t.index)
  }

  // GetSessionByUsername, as the socket of the session it returns.
  function SocketOf(t: SessionTable, name: string): (r: Option<int>)
    ensures r.Some? ==> r.value in t.live
  {
    if name in t.index && t.index[name] in t.live then Some(t.index[name]) else None
  }

  function BindUsername(t: SessionTable, socket: int, name: string): SessionTable {
    t.(index := t.index[name := socket])
  }

  // ClientSession::SetUsername and ClientSession::UpdateHeartbeat through the pointer the table holds.
  function SetUsername(t: SessionTable, socket: int, name: string): SessionTable {
    if socket in t.live then t.(live := t.live[socket := t.live[socket].(username := name)]) else t
  }

  function Touch(t: SessionTable, socket: int, now: int): SessionTable {
    if socket in t.live then t.(live := t.live[socket := t.live[socket].(lastHeartbeat := now)]) else t
  }

  // The name a socket is logged in under, "" when it has no session or no login.
  function NameOn(t: SessionTable, socket: int): string {
    if socket in t.live then t.live[socket].username else ""
  }

  // Every index entry points at a live session that carries that name.
  ghost predicate IndexSound(t: SessionTable) {
    forall u :: u in t.index ==> u != "" && t.index[u] in t.live && t.live[t.index[u]].username == u
  }

  // Every logged-in session is the one its name points at.
  ghost predicate IndexComplete(t: SessionTable) {
    forall s :: s in t.live && t.live[s].username != "" ==>
      t.live[s].username in t.index && t.index[t.live[s].username] == s
  }

  ghost predicate IndexExact(t: SessionTable) { IndexSound(t) && IndexComplete(t) }
}
