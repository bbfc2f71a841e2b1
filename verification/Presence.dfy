// Index, presence and socket ownership over whole runs, and what a kick hands over.
module Presence {
  import opened ChatTypes
  import opened Tables
  import opened Sessions
  import opened Handlers
  import opened ServerModel
  import opened Effects
  import opened Index
  import opened Invariants
  import opened HeartbeatSweep

  // ---- the invariants, as a client of the server sees them ----

  // As long as the server runs: looking a name up finds the one live session that carries it.
  lemma IndexOverRuns(s: Server, steps: seq<Step>, env: Env, name: string)
    requires Initial(s) && ValidRun(s, steps, env) && Exec(s, steps, env).running && name != ""
    ensures var t := Exec(s, steps, env).w.table;
            && (forall x :: SocketOf(t, name) == Some(x) <==> x in t.live && t.live[x].username == name)
            && (forall x, y ::
                  x in t.live && y in t.live && t.live[x].username == name && t.live[y].username == name ==> x == y)
            && |t.index| == |set x | x in t.live && t.live[x].username != ""|
  {
    InitialHolds(s);
    RunsKeepAll(s, steps, env);
    LookupIsScan(Exec(s, steps, env).w.table, name);
    OnlineCount(Exec(s, steps, env).w.table);
  }

  // Bound implies online whatever the table said at the start; from an all-offline table the two
  // are equal while the server runs, and nobody is online without a session even afterwards.
  lemma PresenceOverRuns(s: Server, steps: seq<Step>, env: Env)
    requires Initial(s) && ValidRun(s, steps, env)
    ensures var e := Exec(s, steps, env);
            && (e.running ==> e.w.table.index.Keys <= Online(e))
            && (Online(s) == {} && e.running ==> Online(e) == e.w.table.index.Keys)
            && (Online(s) == {} ==> Online(e) <= e.w.table.index.Keys)
            && (Online(s) == {} && e.w.table.live == map[] ==> Online(e) == {})
  {
    InitialHolds(s);
    RunsKeepAll(s, steps, env);
  }

  // From an all-offline start, Stop leaves every user offline and every client socket with a
  // session shut down.
  lemma StopLeavesAllOffline(s: Server, steps: seq<Step>, order: seq<int>, env: Env)
    requires Initial(s) && Online(s) == {} && ValidRun(s, steps, env) && Enabled(Exec(s, steps, env), Stop(order))
    ensures var e := Next(Exec(s, steps, env), Stop(order), env);
            && !e.running && Online(e) == {}
            && e.w.table.live.Keys <= e.w.net.shut
  {
    var b := Exec(s, steps, env);
    InitialHolds(s);
    RunsKeepAll(s, steps, env);
    var b' := b.(running := false);
    StopAllEffect(b', order);
    assert Online(b) <= NamesOn(b.w.table, order) by {
      forall u | u in Online(b) ensures u in NamesOn(b.w.table, order) {
        var x := b.w.table.index[u];
        assert x in order;
        var i :| 0 <= i < |order| && order[i] == x;
        assert NameOn(b.w.table, order[i]) == u;
      }
    }
    forall x | x in b.w.table.live ensures x in StopAll(b', order).w.net.shut {
      assert x in order;
    }
  }

  // Sockets and the connection counter over every run.
  lemma OwnershipOverRuns(s: Server, steps: seq<Step>, env: Env)
    requires Initial(s) && ValidRun(s, steps, env)
    ensures var e := Exec(s, steps, env);
            && (forall x :: x in e.w.net.open <==> x in e.queued || x in e.busy || x in AcceptSocket(e.accepting))
            && (forall i, j :: 0 <= i < j < |e.queued| ==> e.queued[i] != e.queued[j])
            && (forall i :: 0 <= i < |e.queued| ==> e.queued[i] !in e.busy && e.queued[i] !in AcceptSocket(e.accepting))
            && AcceptSocket(e.accepting) !! e.busy
            && e.w.table.live.Keys <= e.w.net.open
            && (forall x :: x in e.w.table.live && e.w.table.live[x].username != "" ==> x in e.busy)
            && e.connections == |e.w.table.live| - (if e.accepting.Added? then 1 else 0)
            && 0 <= e.connections <= 128 && |e.busy| <= 10
  {
    InitialHolds(s);
    RunsKeepAll(s, steps, env);
  }

  // The sockets submitted to the worker pool along a run, and those whose task was started.
  ghost function Submitted(s: Server, steps: seq<Step>, env: Env): seq<int> {
    if steps == [] then []
    else
      var before := steps[..|steps| - 1];
      var b := Exec(s, before, env);
      Submitted(s, before, env) +
      if steps[|steps| - 1].SubmitAccepted? && b.accepting.Counted? then [b.accepting.socket] else []
  }

  ghost function Started(s: Server, steps: seq<Step>, env: Env): seq<int> {
    if steps == [] then []
    else
      var before, e := steps[..|steps| - 1], Exec(s, steps, env);
      var begun := e.busy - Exec(s, before, env).busy;
      Started(s, before, env) +
      if steps[|steps| - 1].StartTask? then OnlyOne(begun) else []
  }

  ghost function OnlyOne(begun: set<int>): (r: seq<int>)
    ensures forall x :: begun == {x} ==> r == [x]
  {
    if exists x :: begun == {x} then
      var x :| begun == {x};
      [x]
    else []
  }

  // Clients are served in the order in which they were accepted.
  lemma {:induction false} ClientsInOrder(s: Server, steps: seq<Step>, env: Env)
    requires Initial(s) && ValidRun(s, steps, env)
    ensures Submitted(s, steps, env) == Started(s, steps, env) + Exec(s, steps, env).queued
  {
    if steps != [] {
      var before := steps[..|steps| - 1];
      ClientsInOrder(s, before, env);
      FrontIsNotBusy(s, before, env);
      StepInOrder(s, steps, env);
    }
  }

  lemma FrontIsNotBusy(s: Server, steps: seq<Step>, env: Env)
    requires Initial(s) && ValidRun(s, steps, env)
    ensures var e := Exec(s, steps, env); e.queued != [] ==> e.queued[0] !in e.busy
  {
    OwnershipOverRuns(s, steps, env);
  }

  lemma StepInOrder(s: Server, steps: seq<Step>, env: Env)
    requires steps != [] && ValidRun(s, steps, env)
    requires var before := steps[..|steps| - 1];
             var b := Exec(s, before, env);
             && (b.queued != [] ==> b.queued[0] !in b.busy)
             && Submitted(s, before, env) == Started(s, before, env) + b.queued
    ensures Submitted(s, steps, env) == Started(s, steps, env) + Exec(s, steps, env).queued
  {
    var before, step := steps[..|steps| - 1], steps[|steps| - 1];
    var b, e := Exec(s, before, env), Exec(s, steps, env);
    StepMovesQueue(b, step, env);
    var done := Started(s, before, env);
    if step.StartTask? {
      assert Started(s, steps, env) == done + [b.queued[0]];
    } else {
      assert Started(s, steps, env) == done + [];
    }
  }

  lemma StepMovesQueue(s: Server, step: Step, env: Env)
    requires Enabled(s, step) && (s.queued != [] ==> s.queued[0] !in s.busy)
    ensures var s' := Next(s, step, env);
            if step.StartTask? then
              s'.busy - s.busy == {s.queued[0]} && s.queued == [s.queued[0]] + s'.queued
            else s'.queued == s.queued + if step.SubmitAccepted? then [s.accepting.socket] else []
  {
    if step.StartTask? {
      var s' := Next(s, step, env);
      assert s'.busy == s.busy + {s.queued[0]} && s'.queued == s.queued[1..];
      assert s'.busy - s.busy == {s.queued[0]};
    } else if !step.SubmitAccepted? {
      OtherStepsKeepQueue(s, step, env);
    }
  }

  lemma OtherStepsKeepQueue(s: Server, step: Step, env: Env)
    requires !step.StartTask? && !step.SubmitAccepted?
    ensures Next(s, step, env).queued == s.queued
  {
    match step
    case Sweep(order) => QueueInSweep(s, order, env);
    case Stop(order) => QueueInStop(s.(running := false), order);
    case _ =>
  }

  lemma {:induction false} QueueInSweep(s: Server, order: seq<int>, env: Env)
    ensures SweepAll(s, order, env).queued == s.queued
    decreases |order|
  {
    if order != [] { QueueInSweep(SweepOne(s, order[0], env), order[1..], env); }
  }

  lemma {:induction false} QueueInStop(s: Server, order: seq<int>)
    ensures StopAll(s, order).queued == s.queued
    decreases |order|
  {
    if order != [] { QueueInStop(StopOne(s, order[0]), order[1..]); }
  }

  // Accepting never replaces a session that is in the table.
  lemma AcceptNeverOverwrites(s: Server, steps: seq<Step>, env: Env, socket: int)
    requires Initial(s) && ValidRun(s, steps, env) && Enabled(Exec(s, steps, env), Accept(socket))
    ensures var b := Exec(s, steps, env);
            var e := Next(b, Accept(socket), env);
            && socket !in b.w.table.live
            && forall x :: x in b.w.table.live ==> x in e.w.table.live && e.w.table.live[x] == b.w.table.live[x]
  {
    OwnershipOverRuns(s, steps, env);
  }

  // ---- kick handoff ----

  // `name` is logged in on `socket`, which is up, online in the database, and has a cached friend list.
  ghost predicate Holds(s: Server, name: string, socket: int) {
    && name != "" && NameOn(s.w.table, socket) == name
    && SocketOf(s.w.table, name) == Some(socket) && socket !in s.w.net.shut
    && name in Online(s) && name in s.cache
  }

  // The only things that take the login away. A second login on the same socket is one of them: it
  // kicks its own session and shuts its own socket.
  ghost predicate Evicts(s: Server, step: Step, name: string, socket: int, env: Env) {
    match step
    case Receive(other, r) => LoginName(s.w, other, r, s.now, env) == Some(name)
    case Disconnect(other) => other == socket
    case Fail(other) => other == socket
    case Sweep(order) => socket in s.w.table.live && Expired(s.w.table.live[socket], s.now)
    case Stop(order) => true
    case _ => false
  }

  // Carrying the name in a running server is enough for the rest, if the socket is up.
  lemma NamedHolds(s: Server, name: string, socket: int)
    requires Always(s) && WhileRunning(s) && s.running && name != "" && NameOn(s.w.table, socket) == name
    ensures Holds(s, name, socket) <==> socket !in s.w.net.shut
  {
    assert socket in s.w.table.live;
  }

  lemma ReceivedHolds(s: Server, s': Server, socket: int, r: Request, env: Env)
    requires Always(s) && WhileRunning(s) && s.running && socket in s.w.table.live && Received(s, s', socket, r, env)
    requires LoginName(s.w, socket, r, s.now, env).Some?
    requires Always(s') && WhileRunning(s')
    ensures var name := LoginName(s.w, socket, r, s.now, env).value;
            && NameOn(s'.w.table, socket) == name
            && (Holds(s', name, socket) <==> socket !in s.w.net.shut && NameOn(s.w.table, socket) != name)
  {
    var t := Heard(s.w, socket, r, s.now).table;
    var name := LoginName(s.w, socket, r, s.now, env).value;
    SameLoginsIndex(s.w.table, t);
    LoginNamed(t, name in Online(s), socket, name, s.now);
    NamedHolds(s', name, socket);
  }

  // A successful login holds, whoever held the name before, unless its socket was shut already or
  // was logged in under that very name: then it is bound to a socket that is shut.
  lemma LoginHolds(s: Server, socket: int, r: Request, env: Env)
    requires Always(s) && WhileRunning(s) && s.running && Enabled(s, Receive(socket, r))
    requires LoginName(s.w, socket, r, s.now, env).Some?
    ensures var s', name := Next(s, Receive(socket, r), env), LoginName(s.w, socket, r, s.now, env).value;
            && SocketOf(s'.w.table, name) == Some(socket)
            && (Holds(s', name, socket) <==> socket !in s.w.net.shut && NameOn(s.w.table, socket) != name)
            && (!Holds(s', name, socket) <==> socket in s'.w.net.shut)
  {
    var s' := Next(s, Receive(socket, r), env);
    ReceiveEffect(s, socket, r, env);
    ReceiveKeepsAll(s, s', socket, r, env);
    ReceivedHolds(s, s', socket, r, env);
    NamedHolds(s', LoginName(s.w, socket, r, s.now, env).value, socket);
  }

  // Another name's login, or no login: the session keeps its name and its socket stays up.
  lemma OtherLoginKeepsName(s: Server, s': Server, other: int, r: Request, name: string, socket: int, env: Env)
    requires Always(s) && WhileRunning(s) && s.running && Holds(s, name, socket) && Received(s, s', other, r, env)
    requires other in s.w.table.live || LoginName(s.w, other, r, s.now, env).None?
    requires LoginName(s.w, other, r, s.now, env) != Some(name)
    ensures NameOn(s'.w.table, socket) == name && socket !in s'.w.net.shut
  {
    var t := Heard(s.w, other, r, s.now).table;
    SameLoginsIndex(s.w.table, t);
    match LoginName(s.w, other, r, s.now, env)
    case None =>
    case Some(n) =>
      assert other != socket;
      assert SocketOf(t, n).Some? ==> t.live[SocketOf(t, n).value].username == n;
  }

  lemma ReceiveEvictsIff(s: Server, s': Server, other: int, r: Request, name: string, socket: int, env: Env)
    requires Always(s) && WhileRunning(s) && s.running && Holds(s, name, socket)
    requires Enabled(s, Receive(other, r)) && Received(s, s', other, r, env) && Always(s') && WhileRunning(s')
    ensures Holds(s', name, socket) <==> !Evicts(s, Receive(other, r), name, socket, env)
  {
    if LoginName(s.w, other, r, s.now, env) == Some(name) {
      ReceivedHolds(s, s', other, r, env);
      NamedHolds(s', name, other);
    } else {
      OtherLoginKeepsName(s, s', other, r, name, socket, env);
      NamedHolds(s', name, socket);
    }
  }

  lemma EndEvictsIff(s: Server, s': Server, other: int, name: string, socket: int)
    requires Always(s) && Holds(s, name, socket) && Ended(s, s', other) && s'.w.net.shut <= s.w.net.shut
    requires Always(s') && WhileRunning(s') && s'.running
    ensures Holds(s', name, socket) <==> other != socket
  {
    if other != socket { NamedHolds(s', name, socket); }
  }

  lemma DisconnectEvictsIff(s: Server, other: int, name: string, socket: int, env: Env)
    requires Always(s) && WhileRunning(s) && s.running && Holds(s, name, socket) && Enabled(s, Disconnect(other))
    ensures Holds(Next(s, Disconnect(other), env), name, socket) <==> other != socket
    ensures Next(s, Disconnect(other), env).running
  {
    var s' := Next(s, Disconnect(other), env);
    StepKeepsAll(s, Disconnect(other), env);
    DisconnectEffect(s, other, env);
    EndEvictsIff(s, s', other, name, socket);
  }

  lemma FailEvictsIff(s: Server, other: int, name: string, socket: int, env: Env)
    requires Always(s) && WhileRunning(s) && s.running && Holds(s, name, socket) && Enabled(s, Fail(other))
    ensures Holds(Next(s, Fail(other), env), name, socket) <==> other != socket
    ensures Next(s, Fail(other), env).running
  {
    var s' := Next(s, Fail(other), env);
    StepKeepsAll(s, Fail(other), env);
    FailEffect(s, other);
    EndEvictsIff(s, s', other, name, socket);
  }

  lemma SweepEvictsIff(s: Server, order: seq<int>, name: string, socket: int, env: Env)
    requires Always(s) && WhileRunning(s) && s.running && Holds(s, name, socket) && Enabled(s, Sweep(order))
    ensures Holds(Next(s, Sweep(order), env), name, socket) <==> !Evicts(s, Sweep(order), name, socket, env)
    ensures Next(s, Sweep(order), env).running
  {
    var s' := Next(s, Sweep(order), env);
    StepKeepsAll(s, Sweep(order), env);
    SweepRemovesExactly(s, order, env);
    assert socket in order;
    if !Expired(s.w.table.live[socket], s.now) { NamedHolds(s', name, socket); }
  }

  lemma StopEvicts(s: Server, order: seq<int>, name: string, socket: int, env: Env)
    requires Always(s) && Holds(s, name, socket) && Enabled(s, Stop(order))
    ensures !Holds(Next(s, Stop(order), env), name, socket)
  {
    StopAllEffect(s.(running := false), order);
    assert socket in order;
    var i :| 0 <= i < |order| && order[i] == socket;
    assert NameOn(s.w.table, order[i]) == name;
  }

  // One step keeps the login exactly when it is none of the evicting ones.
  lemma StepEvictsIff(s: Server, step: Step, name: string, socket: int, env: Env)
    requires Always(s) && WhileRunning(s) && s.running && Holds(s, name, socket) && Enabled(s, step)
    ensures Holds(Next(s, step, env), name, socket) <==> !Evicts(s, step, name, socket, env)
    ensures !Evicts(s, step, name, socket, env) ==> Next(s, step, env).running
  {
    var s' := Next(s, step, env);
    match step
    case Receive(other, r) =>
      StepKeepsAll(s, step, env);
      ReceiveEffect(s, other, r, env);
      ReceiveEvictsIff(s, s', other, r, name, socket, env);
    case Disconnect(other) => DisconnectEvictsIff(s, other, name, socket, env);
    case Fail(other) => FailEvictsIff(s, other, name, socket, env);
    case Sweep(order) => SweepEvictsIff(s, order, name, socket, env);
    case Stop(order) => StopEvicts(s, order, name, socket, env);
    case Accept(x) =>
      StepKeepsAll(s, step, env);
      NamedHolds(s', name, socket);
    case _ =>
  }

  // Once a login holds, it holds at the end of every continuation that contains no evicting step,
  // the clean-up of the session it replaced included.
  lemma {:induction false} HandoffOverRuns(s: Server, steps: seq<Step>, name: string, socket: int, env: Env)
    requires Always(s) && WhileRunning(s) && s.running && Holds(s, name, socket) && ValidRun(s, steps, env)
    requires forall k :: 0 <= k < |steps| ==> !Evicts(Exec(s, steps[..k], env), steps[k], name, socket, env)
    ensures Holds(Exec(s, steps, env), name, socket) && Exec(s, steps, env).running
  {
    if steps != [] {
      var n := |steps| - 1;
      var before := steps[..n];
      forall k | 0 <= k < n ensures !Evicts(Exec(s, before[..k], env), before[k], name, socket, env) {
        assert before[..k] == steps[..k] && before[k] == steps[k];
      }
      HandoffOverRuns(s, before, name, socket, env);
      RunsKeepAll(s, before, env);
      StepEvictsIff(Exec(s, before, env), steps[n], name, socket, env);
    }
  }

  // ---- what each assumption is for ----

  // After Stop the presence flags are down while sessions are still bound, so a login that is
  // already in flight kicks nobody: two sessions then carry one name.
  lemma LoginAfterStopDuplicates(s: Server, order: seq<int>, prior: int, socket: int, r: Request, env: Env)
    requires Always(s) && WhileRunning(s) && s.running && Enabled(s, Stop(order))
    requires prior in s.w.table.live && s.w.table.live[prior].username == r.username
    requires socket in s.busy && socket in s.w.table.live && s.w.table.live[socket].username == "" && socket != prior
    requires r.kind.Login? && LoginCode(s.w.db, r, env) == 0
    ensures var b := Next(s, Stop(order), env);
            var e := Next(b, Receive(socket, r), env);
            && Enabled(b, Receive(socket, r))
            && prior in e.w.table.live && socket in e.w.table.live
            && e.w.table.live[prior].username == e.w.table.live[socket].username == r.username
            && !IndexExact(e.w.table)
  {
    var b := Next(s, Stop(order), env);
    var name := r.username;
    StopAllEffect(s.(running := false), order);
    StopKeepsPasswords(s.(running := false), order, r, env);
    assert name !in Online(b) by {
      assert prior in order;
      var i :| 0 <= i < |order| && order[i] == prior;
      assert NameOn(s.w.table, order[i]) == name;
    }
    var t := Heard(b.w, socket, r, b.now).table;
    LoginStaysSame(b.w, socket, r, b.now, env);
    ReceiveEffect(b, socket, r, env);
    var t' := LoginTable(t, false, socket, name, b.now);
    assert t'.live[prior].username == name && t'.live[socket].username == name;
  }

  lemma LoginStaysSame(w: World, socket: int, r: Request, now: int, env: Env)
    requires r.kind.Login? && NameOn(w.table, socket) == "" && LoginCode(w.db, r, env) == 0
    ensures LoginName(w, socket, r, now, env) == Some(r.username)
  {
  }

  lemma {:induction false} StopKeepsPasswords(s: Server, order: seq<int>, r: Request, env: Env)
    requires UniqueNames(s.w.db.users)
    ensures LoginCode(StopAll(s, order).w.db, r, env) == LoginCode(s.w.db, r, env)
    decreases |order|
  {
    if order != [] {
      var s1 := StopOne(s, order[0]);
      StopOneEffect(s, order[0]);
      SameCode(s.w.db, s1.w.db, r, env);
      StopKeepsPasswords(s1, order[1..], r, env);
    }
  }

  lemma SameCode(db: Db, db': Db, r: Request, env: Env)
    requires UniqueNames(db.users) && UniqueNames(db'.users) && |db.users| == |db'.users|
    requires forall i :: 0 <= i < |db.users| ==>
      db'.users[i].username == db.users[i].username && db'.users[i].passwordHash == db.users[i].passwordHash
    ensures LoginCode(db', r, env) == LoginCode(db, r, env)
  {
    var f := FindUser(db.users, r.username);
    if f.Some? {
      FindUserIsTheRow(db'.users, f.value);
    } else {
      assert forall i :: 0 <= i < |db'.users| ==> db'.users[i].username == db.users[i].username;
    }
  }

  // A login on a socket whose session the heartbeat has removed leaves the index pointing at the
  // session it kicked.
  lemma LoginWithoutSessionGoesStale(s: Server, socket: int, r: Request, env: Env)
    requires Always(s) && WhileRunning(s) && s.running && socket !in s.w.table.live
    requires r.kind.Login? && LoginCode(s.w.db, r, env) == 0 && r.username in s.w.table.index
    ensures var e := Next(s, Receive(socket, r), env);
            r.username in e.w.table.index && NameOn(e.w.table, e.w.table.index[r.username]) == "" &&
              !IndexSound(e.w.table)
  {
    var s' := Next(s, Receive(socket, r), env);
    LoginStaysSame(s.w, socket, r, s.now, env);
    ReceiveEffect(s, socket, r, env);
    StaleEntry(s, s', socket, r, env);
  }

  lemma StaleEntry(s: Server, s': Server, socket: int, r: Request, env: Env)
    requires Always(s) && WhileRunning(s) && s.running && socket !in s.w.table.live && Received(s, s', socket, r, env)
    requires LoginName(s.w, socket, r, s.now, env) == Some(r.username) && r.username in s.w.table.index
    ensures r.username in s'.w.table.index && NameOn(s'.w.table, s'.w.table.index[r.username]) == "" &&
      !IndexSound(s'.w.table)
  {
    SameLoginsIndex(s.w.table, Heard(s.w, socket, r, s.now).table);
  }

  // If a sweep removes the session between the moment HandleClient has looked it up and the moment
  // it drops it, the connection is counted down twice.
  lemma SplitCleanupCountsTwice(s: Server, socket: int, env: Env)
    requires Always(s) && s.accepting.Idle?
    requires socket in s.w.table.live && Expired(s.w.table.live[socket], s.now)
    ensures var e := DropSession(SweepOne(s, socket, env), socket);
            e.connections == |e.w.table.live| - 1 && !CounterExact(e)
  {
    SweepOneKeepsAll(s, socket, env);
    SweepOneEffect(s, socket, env);
    RemoveCounts(s.w.table, socket);
  }

  // If the kernel reuses the descriptor between the close in the exception handler and the removal
  // of the session, the new client's session is the one that disappears.
  lemma SplitFailureDropsNewClient(s: Server, socket: int, env: Env)
    requires Always(s) && s.accepting.Idle? && socket in s.busy && s.connections < MAX_CONNECTIONS
    ensures var closed := CloseTask(s, socket);
            var e := DropSession(AcceptClient(closed, socket, env), socket);
            && Enabled(closed, Accept(socket))
            && e.accepting == Added(socket) && socket in e.w.net.open && socket !in e.w.table.live
  {
  }
}
