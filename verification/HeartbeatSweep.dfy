// The heartbeat thread: what one sweep removes, and how long a logged-in session can stay idle.
module HeartbeatSweep {
  import opened ChatTypes
  import opened Sessions
  import opened Handlers
  import opened ServerModel
  import opened Effects
  import opened Invariants

  function Survivors(live: map<int, Session>, order: seq<int>, now: int): map<int, Session> {
    map x | x in live && !(x in order && Expired(live[x], now)) :: live[x]
  }

  lemma SweepOneRemoves(s: Server, socket: int, env: Env)
    requires Always(s)
    ensures var s' := SweepOne(s, socket, env);
            && s'.w.table.live == Survivors(s.w.table.live, [socket], s.now)
            && s'.w.net.shut <= s.w.net.shut + (s.w.table.live.Keys - s'.w.table.live.Keys)
            && s'.now == s.now && s'.running == s.running && s'.accepting == s.accepting
  {
    if socket in s.w.table.live && Expired(s.w.table.live[socket], s.now) {
      SweepOneEffect(s, socket, env);
    }
  }

  lemma SurvivorsCompose(live: map<int, Session>, order: seq<int>, now: int)
    requires order != []
    ensures Survivors(Survivors(live, [order[0]], now), order[1..], now) == Survivors(live, order, now)
  {
    assert order == [order[0]] + order[1..];
  }

  // Whatever the traversal order, a sweep removes exactly the expired sessions it visits, shuts no
  // other socket, and leaves every other session as it was.
  lemma {:induction false} SweepRemovesExactly(s: Server, order: seq<int>, env: Env)
    requires Always(s)
    ensures var s' := SweepAll(s, order, env);
            && s'.w.table.live == Survivors(s.w.table.live, order, s.now)
            && s'.w.net.shut <= s.w.net.shut + (s.w.table.live.Keys - s'.w.table.live.Keys)
            && s'.now == s.now && s'.running == s.running && s'.accepting == s.accepting
    decreases |order|
  {
    if order == [] {
      assert Survivors(s.w.table.live, order, s.now) == s.w.table.live;
    } else {
      SweepOneRemoves(s, order[0], env);
      SweepOneKeepsAll(s, order[0], env);
      SweepRemovesExactly(SweepOne(s, order[0], env), order[1..], env);
      SurvivorsCompose(s.w.table.live, order, s.now);
    }
  }

  // Each removed session is counted down once.
  lemma SweepCountsOnce(s: Server, order: seq<int>, env: Env)
    requires Always(s) && Enabled(s, Sweep(order))
    ensures var s' := Next(s, Sweep(order), env);
            s.connections - s'.connections == |s.w.table.live| - |s'.w.table.live|
  {
    SweepRemovesExactly(s, order, env);
    SweepKeepsAll(s, order, env);
  }

  // Every logged-in connected session was heard from within IDLE_LIMIT seconds of the last sweep.
  ghost predicate HeardRecently(s: Server) {
    s.running ==>
      s.lastSweep <= s.now <= s.lastSweep + SWEEP_PERIOD &&
      forall x :: x in s.w.table.live && s.w.table.live[x].connected && s.w.table.live[x].username != "" ==>
        s.lastSweep - s.w.table.live[x].lastHeartbeat <= IDLE_LIMIT
  }

  // A session after a step is the one before it, or it was heard from just now, or it has no name.
  ghost predicate OldOrFresh(s: Server, s': Server) {
    forall x :: x in s'.w.table.live ==>
      || (x in s.w.table.live && s'.w.table.live[x] == s.w.table.live[x])
      || s'.w.table.live[x].lastHeartbeat == s.now
      || s'.w.table.live[x].username == ""
  }

  // A login renews its own session, blanks the one it kicks, and leaves the others alone.
  lemma LoginRenews(t: SessionTable, wasOnline: bool, socket: int, name: string, now: int)
    ensures var t' := LoginTable(t, wasOnline, socket, name, now);
            t'.live.Keys == t.live.Keys &&
            forall x :: x in t.live ==>
              t'.live[x] == t.live[x] || t'.live[x].lastHeartbeat == now || t'.live[x].username == ""
  {
  }

  lemma ReceiveIsOldOrFresh(s: Server, s': Server, socket: int, r: Request, env: Env)
    requires Received(s, s', socket, r, env)
    ensures OldOrFresh(s, s')
  {
    var t := Heard(s.w, socket, r, s.now).table;
    match LoginName(s.w, socket, r, s.now, env)
    case None =>
    case Some(name) => LoginRenews(t, name in Online(s), socket, name, s.now);
  }

  lemma StepKeepsHeard(s: Server, step: Step, env: Env)
    requires Always(s) && HeardRecently(s) && Enabled(s, step)
    ensures HeardRecently(Next(s, step, env))
  {
    var s' := Next(s, step, env);
    match step
    case Tick(d) =>
    case Accept(socket) =>
    case CountAccepted =>
    case SubmitAccepted =>
    case StartTask =>
    case Receive(socket, r) =>
      ReceiveEffect(s, socket, r, env);
      ReceiveIsOldOrFresh(s, s', socket, r, env);
    case Disconnect(socket) => DisconnectEffect(s, socket, env);
    case Fail(socket) => FailEffect(s, socket);
    case Sweep(order) => SweepRemovesExactly(s, order, env);
    case Stop(order) => StopAllEffect(s.(running := false), order);
  }

  // Over every run, while the server runs: right after a sweep nobody logged in has been idle for
  // more than 600 seconds, and at no time for more than 630.
  lemma {:induction false} IdleBound(s: Server, steps: seq<Step>, env: Env)
    requires Always(s) && HeardRecently(s) && ValidRun(s, steps, env)
    ensures var e := Exec(s, steps, env);
            && HeardRecently(e)
            && (e.running ==> e.lastSweep <= e.now <= e.lastSweep + 30 && forall x ::
                  x in e.w.table.live && e.w.table.live[x].connected && e.w.table.live[x].username != "" ==>
                    e.now - e.w.table.live[x].lastHeartbeat <= 600 + (e.now - e.lastSweep) <= 630)
  {
    if steps != [] {
      var before := steps[..|steps| - 1];
      IdleBound(s, before, env);
      RunsKeepAll(s, before, env);
      StepKeepsHeard(Exec(s, before, env), steps[|steps| - 1], env);
    }
  }

  // ---- a client that asks is kept ----

  // A request that parses renews the heartbeat of its own session; every other session keeps its own,
  // even one that loses its name to a login.
  lemma RequestRenews(s: Server, socket: int, r: Request, env: Env)
    requires Always(s) && Enabled(s, Receive(socket, r)) && !r.kind.Malformed? && socket in s.w.table.live
    ensures var t, t' := s.w.table, Next(s, Receive(socket, r), env).w.table;
            && t'.live.Keys == t.live.Keys && t'.live[socket].lastHeartbeat == s.now
            && forall x :: x in t.live && x != socket ==>
                 t'.live[x] == t.live[x] || t'.live[x] == t.live[x].(username := "")
  {
    ReceiveEffect(s, socket, r, env);
  }

  // The session on `socket` carries `name` and has been heard from at t or later.
  ghost predicate Alive(s: Server, name: string, socket: int, t: int) {
    && name != "" && NameOn(s.w.table, socket) == name && socket in s.w.table.live
    && t <= s.w.table.live[socket].lastHeartbeat && t <= s.now
  }

  // What can take the session or its name away other than idleness: a login of the name elsewhere or
  // of anybody on the socket, the end of its own handler, and Stop. A sweep cannot within 600 seconds.
  ghost predicate Harmless(s: Server, step: Step, name: string, socket: int, t: int) {
    match step
    case Receive(other, r) => r.kind.Login? ==> other != socket && r.username != name
    case Disconnect(other) => other != socket
    case Fail(other) => other != socket
    case Sweep(order) => s.now - t <= 600
    case Stop(order) => false
    case _ => true
  }

  lemma RequestKeepsAlive(s: Server, other: int, r: Request, env: Env, name: string, socket: int, t: int)
    requires Always(s) && WhileRunning(s) && s.running && Enabled(s, Receive(other, r)) && Alive(s, name, socket, t)
    requires r.kind.Login? ==> other != socket && r.username != name
    ensures Alive(Next(s, Receive(other, r), env), name, socket, t)
  {
    var t0 := Heard(s.w, other, r, s.now).table;
    ReceiveEffect(s, other, r, env);
    SameLoginsIndex(s.w.table, t0);
    assert s.w.table.index[name] == socket;
    match LoginName(s.w, other, r, s.now, env)
    case None =>
    case Some(n) =>
      assert n == if NameOn(s.w.table, other) != "" then NameOn(s.w.table, other) else r.username;
      assert NameOn(s.w.table, other) != name;
      assert SocketOf(t0, n).Some? ==> t0.live[SocketOf(t0, n).value].username == n;
  }

  lemma StepKeepsAlive(s: Server, step: Step, env: Env, name: string, socket: int, t: int)
    requires Always(s) && WhileRunning(s) && s.running && Enabled(s, step)
    requires Alive(s, name, socket, t) && Harmless(s, step, name, socket, t)
    ensures Alive(Next(s, step, env), name, socket, t) && Next(s, step, env).running
  {
    match step
    case Receive(other, r) => RequestKeepsAlive(s, other, r, env, name, socket, t);
    case Disconnect(other) => DisconnectEffect(s, other, env);
    case Fail(other) => FailEffect(s, other);
    case Sweep(order) => SweepRemovesExactly(s, order, env);
    case _ =>
  }

  // A logged-in session that was heard from at t is in the table, under the same name, after every
  // continuation whose sweeps come within 600 seconds of t and in which nothing else ends it.
  lemma {:induction false} AliveOverRuns(s: Server, steps: seq<Step>, env: Env, name: string, socket: int, t: int)
    requires Always(s) && WhileRunning(s) && s.running && ValidRun(s, steps, env) && Alive(s, name, socket, t)
    requires forall k :: 0 <= k < |steps| ==> Harmless(Exec(s, steps[..k], env), steps[k], name, socket, t)
    ensures Alive(Exec(s, steps, env), name, socket, t) && Exec(s, steps, env).running
  {
    if steps != [] {
      var n := |steps| - 1;
      var before := steps[..n];
      forall k | 0 <= k < n ensures Harmless(Exec(s, before[..k], env), before[k], name, socket, t) {
        assert before[..k] == steps[..k] && before[k] == steps[k];
      }
      AliveOverRuns(s, before, env, name, socket, t);
      RunsKeepAll(s, before, env);
      StepKeepsAlive(Exec(s, before, env), steps[n], env, name, socket, t);
    }
  }

  // So a request, of whatever kind as long as it parses and is no login, keeps its session for 600
  // seconds from the moment it is received.
  lemma RequestKeepsSession(s: Server, socket: int, r: Request, steps: seq<Step>, env: Env, name: string)
    requires Always(s) && WhileRunning(s) && s.running && Enabled(s, Receive(socket, r))
    requires name != "" && NameOn(s.w.table, socket) == name && !r.kind.Malformed? && !r.kind.Login?
    requires ValidRun(Next(s, Receive(socket, r), env), steps, env)
    requires forall k :: 0 <= k < |steps| ==>
      Harmless(Exec(Next(s, Receive(socket, r), env), steps[..k], env), steps[k], name, socket, s.now)
    ensures var e := Exec(Next(s, Receive(socket, r), env), steps, env);
            socket in e.w.table.live && e.w.table.live[socket].username == name
  {
    var s1 := Next(s, Receive(socket, r), env);
    StepKeepsAll(s, Receive(socket, r), env);
    RequestRenews(s, socket, r, env);
    RequestKeepsName(s, socket, r, env, name);
    AliveOverRuns(s1, steps, env, name, socket, s.now);
  }

  lemma RequestKeepsName(s: Server, socket: int, r: Request, env: Env, name: string)
    requires Always(s) && NameOn(s.w.table, socket) == name && !r.kind.Login?
    ensures var s' := Next(s, Receive(socket, r), env);
            NameOn(s'.w.table, socket) == name && s'.running == s.running && s'.now == s.now
  {
    ReceiveEffect(s, socket, r, env);
  }
}
