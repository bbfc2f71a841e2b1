// The whole server as a state machine: the accept loop, the pool of client handlers, the heartbeat
// thread and Stop. Each step is one handler or one clean-up, taken atomically.
module ServerModel {
  import opened ChatTypes
  import opened Tables
  import opened Sessions
  import opened Handlers

  const MAX_CONNECTIONS := 128
  const WORKERS := 10
  const IDLE_LIMIT := 600
  const SWEEP_PERIOD := 30

  // Where the accept thread is inside one iteration of its loop.
  datatype Accepting = Idle | Added(socket: int) | Counted(socket: int)

  // `queued` and `busy` are the sockets whose HandleClient task waits in the thread pool or runs on a worker.
  datatype Server = Server(
    w: World, cache: Cache, connections: int,
    queued: seq<int>, busy: set<int>, accepting: Accepting,
    running: bool, now: int, lastSweep: int)

  datatype Step =
    | Tick(seconds: nat)
    | Accept(socket: int)
    | CountAccepted
    | SubmitAccepted
    | StartTask
    | Receive(socket: int, r: Request)
    | Disconnect(socket: int)
    | Fail(socket: int)
    | Sweep(order: seq<int>)
    | Stop(order: seq<int>)

  // The order in which an unordered_map is traversed: every key once.
  ghost predicate OrderOf(order: seq<int>, keys: set<int>) {
    (forall k :: k in order <==> k in keys) && (forall i, j :: 0 <= i < j < |order| ==> order[i] != order[j])
  }

  // ---- clean-up of one session ----

  // UpdateUserOnlineStatus(name, false)
  function GoOffline(w: World, name: string): World {
    w.(db := w.db.(users := SetOnlineByName(w.db.users, name, false)))
  }

  // Offline in the database, friends told, cached list dropped: what disconnect and heartbeat share.
  function SignOff(s: Server, name: string, env: Env): Server {
    s.(w := NotifyFriends(GoOffline(s.w, name), name, false, env), cache := s.cache - {name})
  }

  function DropSession(s: Server, socket: int): Server {
    s.(w := s.w.(table := RemoveSession(s.w.table, socket)), connections := s.connections - 1)
  }

  function CloseTask(s: Server, socket: int): Server {
    s.(w := s.w.(net := Close(s.w.net, socket)), busy := s.busy - {socket})
  }

  // What HandleClient does about its session after its loop, before it closes the socket.
  function EndSession(s: Server, socket: int, env: Env): Server {
    if socket !in s.w.table.live then s
    else
      var name := s.w.table.live[socket].username;
      DropSession(if name != "" then SignOff(s, name, env) else s, socket)
  }

  // The end of HandleClient.
  function DisconnectClient(s: Server, socket: int, env: Env): Server {
    CloseTask(EndSession(s, socket, env), socket)
  }

  // The catch block of HandleClient: the socket is closed first, friends are not told and the
  // cached friend list stays.
  function FailClient(s: Server, socket: int): Server { FailSession(CloseTask(s, socket), socket) }

  function FailSession(s: Server, socket: int): Server {
    if socket !in s.w.table.live then s
    else
      var name := s.w.table.live[socket].username;
      DropSession(if name != "" then s.(w := GoOffline(s.w, name)) else s, socket)
  }

  // ---- heartbeat ----

  predicate Expired(session: Session, now: int) {
    session.connected && session.username != "" && now - session.lastHeartbeat > IDLE_LIMIT
  }

  function SweepOne(s: Server, socket: int, env: Env): Server {
    if socket in s.w.table.live && Expired(s.w.table.live[socket], s.now)
    then Expire(s, socket, s.w.table.live[socket].username, env) else s
  }

  function Expire(s: Server, socket: int, name: string, env: Env): Server {
    DropSession(ShutSocket(SignOff(s, name, env), socket), socket)
  }

  function ShutSocket(s: Server, socket: int): Server { s.(w := s.w.(net := Shutdown(s.w.net, socket))) }

  function SweepAll(s: Server, order: seq<int>, env: Env): Server
    decreases |order|
  {
    if order == [] then s else SweepAll(SweepOne(s, order[0], env), order[1..], env)
  }

  // ---- stop ----

  function StopOne(s: Server, socket: int): Server {
    if socket !in s.w.table.live then s
    else
      var name := s.w.table.live[socket].username;
      var s1 := if name != "" then s.(w := GoOffline(s.w, name), cache := s.cache - {name}) else s;
      ShutSocket(s1, socket)
  }

  function StopAll(s: Server, order: seq<int>): Server
    decreases |order|
  {
    if order == [] then s else StopAll(StopOne(s, order[0]), order[1..])
  }

  // ---- accept ----

  function AcceptClient(s: Server, socket: int, env: Env): Server {
    if s.connections >= MAX_CONNECTIONS then RefuseClient(s, socket, env) else TakeClient(s, socket)
  }

  function Opened(net: Net, socket: int): Net { net.(open := net.open + {socket}) }

  function RefuseClient(s: Server, socket: int, env: Env): Server {
    s.(w := s.w.(net := Close(Send(Opened(s.w.net, socket), socket, ServerBusy, env), socket)))
  }

  function TakeClient(s: Server, socket: int): Server {
    s.(w := s.w.(net := Opened(s.w.net, socket), table := AddSession(s.w.table, socket, Session("", s.now, true))),
       accepting := Added(socket))
  }

  // ---- the step relation ----

  // What the environment may do next. A descriptor the kernel hands out is not open already; the
  // heartbeat thread lets no more than its period pass while the server runs; and a login comes from
  // a socket that still has its session.
  ghost predicate Enabled(s: Server, step: Step) {
    match step
    case Tick(d) => s.running ==> s.now + d <= s.lastSweep + SWEEP_PERIOD
    case Accept(socket) => s.accepting.Idle? && socket !in s.w.net.open
    case CountAccepted => s.accepting.Added?
    case SubmitAccepted => s.accepting.Counted?
    case StartTask => s.queued != [] && |s.busy| < WORKERS
    case Receive(socket, r) => socket in s.busy && (r.kind.Login? ==> socket in s.w.table.live)
    case Disconnect(socket) => socket in s.busy
    case Fail(socket) => socket in s.busy
    case Sweep(order) => s.running && OrderOf(order, s.w.table.live.Keys)
    case Stop(order) => OrderOf(order, s.w.table.live.Keys)
  }

  function Next(s: Server, step: Step, env: Env): Server {
    match step
    case Tick(d) => s.(now := s.now + d)
    case Accept(socket) => AcceptClient(s, socket, env)
    case CountAccepted =>
      if s.accepting.Added? then s.(connections := s.connections + 1, accepting := Counted(s.accepting.socket)) else s
    case SubmitAccepted =>
      if s.accepting.Counted? then s.(queued := s.queued + [s.accepting.socket], accepting := Idle) else s
    case StartTask =>
      if s.queued == [] then s else s.(queued := s.queued[1..], busy := s.busy + {s.queued[0]})
    case Receive(socket, r) =>
      var (w, cache) := Dispatch(s.w, s.cache, socket, r, s.now, env);
      s.(w := w, cache := cache)
    case Disconnect(socket) => DisconnectClient(s, socket, env)
    case Fail(socket) => FailClient(s, socket)
    case Sweep(order) => SweepAll(s, order, env).(lastSweep := s.now)
    case Stop(order) => StopAll(s.(running := false), order)
  }

  // ---- runs ----

  function Exec(s: Server, steps: seq<Step>, env: Env): Server {
    if steps == [] then s else Next(Exec(s, steps[..|steps| - 1], env), steps[|steps| - 1], env)
  }

  ghost predicate ValidRun(s: Server, steps: seq<Step>, env: Env) {
    steps != [] ==>
      ValidRun(s, steps[..|steps| - 1], env) && Enabled(Exec(s, steps[..|steps| - 1], env), steps[|steps| - 1])
  }

  // A server that has just started on tables that obey the schema.
  ghost predicate Initial(s: Server) {
    && s.w.table == SessionTable(map[], map[])
    && s.w.net == Net({}, {}, [])
    && s.cache == map[] && s.connections == 0 && s.queued == [] && s.busy == {}
    && s.accepting.Idle? && s.running && s.lastSweep == s.now
    && SchemaOk(s.w.db)
    && (forall m :: m in s.w.db.messages ==> m.storedAt == 0)
  }
}
