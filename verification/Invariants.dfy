// What holds in every reachable state of the server, and what holds as long as it has not stopped.
module Invariants {
  import opened ChatTypes
  import opened Tables
  import opened Sessions
  import opened Handlers
  import opened ServerModel
  import opened Effects
  import opened Index

  ghost function Online(s: Server): set<string> { OnlineNames(s.w.db.users) }

  ghost function AcceptSet(s: Server): set<int> { AcceptSocket(s.accepting) }

  ghost function AcceptSocket(a: Accepting): set<int> {
    match a case Idle => {} case Added(x) => {x} case Counted(x) => {x}
  }

  // Every open client socket is in exactly one place: the accept loop, the queue, or one running handler.
  ghost predicate Placed(open: set<int>, queued: seq<int>, busy: set<int>, accepting: Accepting) {
    && (forall i, j :: 0 <= i < j < |queued| ==> queued[i] != queued[j])
    && (forall i :: 0 <= i < |queued| ==> queued[i] !in busy && queued[i] !in AcceptSocket(accepting))
    && AcceptSocket(accepting) !! busy
    && (forall x :: x in open <==> x in queued || x in busy || x in AcceptSocket(accepting))
  }

  // Sessions sit on open sockets, and a named session has a running handler.
  ghost predicate Seated(t: SessionTable, net: Net, busy: set<int>, accepting: Accepting) {
    && net.shut <= net.open
    && t.live.Keys <= net.open
    && AcceptSocket(accepting) <= t.live.Keys
    && (forall x :: x in t.live && t.live[x].username != "" ==> x in busy)
  }

  ghost predicate Ownership(s: Server) {
    && Placed(s.w.net.open, s.queued, s.busy, s.accepting)
    && Seated(s.w.table, s.w.net, s.busy, s.accepting)
    && |s.busy| <= WORKERS
  }

  // currentConnections counts the sessions, minus the one being accepted that is not counted yet.
  ghost predicate CounterExact(s: Server) {
    && s.connections == |s.w.table.live| - (if s.accepting.Added? then 1 else 0)
    && |s.w.table.live| <= MAX_CONNECTIONS
    && 0 <= s.connections
  }

  ghost predicate KnownNames(s: Server) {
    forall x :: x in s.w.table.live && s.w.table.live[x].username != "" ==>
      s.w.table.live[x].username in AllNames(s.w.db.users)
  }

  ghost predicate Always(s: Server) {
    IndexSound(s.w.table) && UniqueNames(s.w.db.users) && KnownNames(s) && Ownership(s) && CounterExact(s)
  }

  // Before Stop: the index is exact, and every bound name is online with a cached friend list.
  ghost predicate WhileRunning(s: Server) {
    s.running ==>
      IndexComplete(s.w.table) && s.w.table.index.Keys <= Online(s) && s.w.table.index.Keys <= s.cache.Keys
  }

  // From a table in which everybody is offline: whoever is online is bound, even after Stop.
  ghost predicate OnlineIsBound(s: Server) { Online(s) <= s.w.table.index.Keys }

  // ---- effects of the clean-up steps ----

  lemma SignOffEffect(s: Server, name: string, env: Env)
    requires UniqueNames(s.w.db.users)
    ensures var s' := SignOff(s, name, env);
            && s'.w.table == s.w.table
            && s'.w.db == s.w.db.(users := SetOnlineByName(s.w.db.users, name, false))
            && s'.w.net.open == s.w.net.open && s'.w.net.shut == s.w.net.shut
            && QuietGrowth(s.w.net.log, s'.w.net.log)
            && s' == s.(w := s'.w, cache := s.cache - {name})
            && UniqueNames(s'.w.db.users) && AllNames(s'.w.db.users) == AllNames(s.w.db.users)
            && Online(s') == Online(s) - {name}
  {
    NotifyFriendsEffect(GoOffline(s.w, name), name, false, env);
    SetOfflineNames(s.w.db.users, name);
  }

  // What every way of ending a session has in common; only the cache and the log differ.
  ghost predicate Ended(s: Server, s': Server, socket: int) {
    var name := NameOn(s.w.table, socket);
    && s'.w.table == RemoveSession(s.w.table, socket)
    && s'.w.db.users == (if name != "" then SetOnlineByName(s.w.db.users, name, false) else s.w.db.users)
    && s'.w.db == s.w.db.(users := s'.w.db.users)
    && UniqueNames(s'.w.db.users) && AllNames(s'.w.db.users) == AllNames(s.w.db.users)
    && Online(s') == (if name != "" then Online(s) - {name} else Online(s))
    && s'.connections == s.connections - (if socket in s.w.table.live then 1 else 0)
    && (s'.cache == s.cache || s'.cache == s.cache - {name})
    && s'.queued == s.queued && s'.accepting == s.accepting && s'.running == s.running
    && s'.now == s.now && s'.lastSweep == s.lastSweep
    && QuietGrowth(s.w.net.log, s'.w.net.log)
  }

  lemma DisconnectEffect(s: Server, socket: int, env: Env)
    requires UniqueNames(s.w.db.users)
    ensures var s' := DisconnectClient(s, socket, env);
            Ended(s, s', socket) && s'.w.net.open == s.w.net.open - {socket} &&
            s'.w.net.shut == s.w.net.shut - {socket} && s'.busy == s.busy - {socket} &&
            s'.cache == if NameOn(s.w.table, socket) != "" then s.cache - {NameOn(s.w.table, socket)} else s.cache
  {
    var name := NameOn(s.w.table, socket);
    if name != "" { SignOffEffect(s, name, env); }
  }

  lemma FailEffect(s: Server, socket: int)
    requires UniqueNames(s.w.db.users)
    ensures var s' := FailClient(s, socket);
            Ended(s, s', socket) && s'.w.net.open == s.w.net.open - {socket} &&
            s'.w.net.shut == s.w.net.shut - {socket} && s'.busy == s.busy - {socket} &&
            s'.cache == s.cache && s'.w.net.log == s.w.net.log
  {
    var name := NameOn(s.w.table, socket);
    if name != "" { SetOfflineNames(s.w.db.users, name); }
  }

  lemma SweepOneEffect(s: Server, socket: int, env: Env)
    requires UniqueNames(s.w.db.users)
    requires socket in s.w.table.live && Expired(s.w.table.live[socket], s.now)
    ensures var s' := SweepOne(s, socket, env);
            Ended(s, s', socket) && s'.w.net.open == s.w.net.open &&
            s'.w.net.shut == s.w.net.shut + ({socket} * s.w.net.open) && s'.busy == s.busy &&
            s'.cache == s.cache - {NameOn(s.w.table, socket)}
  {
    SignOffEffect(s, s.w.table.live[socket].username, env);
  }

  // ---- ending a session keeps every invariant ----

  lemma RemoveCounts(t: SessionTable, socket: int)
    ensures RemoveSession(t, socket).live.Keys == t.live.Keys - {socket}
    ensures |RemoveSession(t, socket).live| == |t.live| - (if socket in t.live then 1 else 0)
  {
    var live' := RemoveSession(t, socket).live;
    assert live'.Keys == t.live.Keys - {socket};
    assert |live'| == |live'.Keys| && |t.live| == |t.live.Keys|;
  }

  lemma EndKeepsNames(s: Server, s': Server, socket: int)
    requires Always(s) && Ended(s, s', socket)
    ensures IndexSound(s'.w.table) && KnownNames(s')
    ensures WhileRunning(s) ==> WhileRunning(s')
    ensures OnlineIsBound(s) ==> OnlineIsBound(s')
  {
    RemoveKeepsIndex(s.w.table, socket);
    RemoveCounts(s.w.table, socket);
    assert "" !in s.w.table.index;
  }

  lemma EndKeepsCounter(s: Server, s': Server, socket: int)
    requires CounterExact(s) && Ended(s, s', socket) && socket !in AcceptSet(s)
    requires AcceptSet(s) <= s.w.table.live.Keys
    ensures CounterExact(s')
  {
    RemoveCounts(s.w.table, socket);
    if s.accepting.Added? && socket in s.w.table.live {
      assert {socket, s.accepting.socket} <= s.w.table.live.Keys;
      assert |{socket, s.accepting.socket}| == 2;
      SubsetSize({socket, s.accepting.socket}, s.w.table.live.Keys);
    }
  }

  lemma SubsetSize(a: set<int>, b: set<int>)
    requires a <= b
    ensures |a| <= |b|
  {
    assert |b| == |a| + |b - a| by { assert b == a + (b - a); }
  }

  // The end of a handler's task: its socket leaves the table, the busy set and the open set.
  lemma TaskEndKeepsAll(s: Server, s': Server, socket: int)
    requires Always(s) && socket in s.busy && Ended(s, s', socket)
    requires s'.w.net.open == s.w.net.open - {socket} && s'.w.net.shut == s.w.net.shut - {socket}
    requires s'.busy == s.busy - {socket}
    ensures Always(s')
    ensures WhileRunning(s) ==> WhileRunning(s')
    ensures OnlineIsBound(s) ==> OnlineIsBound(s')
  {
    EndKeepsNames(s, s', socket);
    EndKeepsCounter(s, s', socket);
    RemoveCounts(s.w.table, socket);
    SubsetSize(s'.busy, s.busy);
  }

  lemma SweepOneKeepsAll(s: Server, socket: int, env: Env)
    requires Always(s)
    ensures var s' := SweepOne(s, socket, env);
            && Always(s')
            && (WhileRunning(s) ==> WhileRunning(s'))
            && (OnlineIsBound(s) ==> OnlineIsBound(s'))
  {
    if socket in s.w.table.live && Expired(s.w.table.live[socket], s.now) {
      var s' := SweepOne(s, socket, env);
      SweepOneEffect(s, socket, env);
      EndKeepsNames(s, s', socket);
      EndKeepsCounter(s, s', socket);
      RemoveCounts(s.w.table, socket);
    }
  }

  lemma {:induction false} SweepKeepsAll(s: Server, order: seq<int>, env: Env)
    requires Always(s)
    ensures var s' := SweepAll(s, order, env);
            && Always(s')
            && (WhileRunning(s) ==> WhileRunning(s'))
            && (OnlineIsBound(s) ==> OnlineIsBound(s'))
    decreases |order|
  {
    if order != [] {
      SweepOneKeepsAll(s, order[0], env);
      SweepKeepsAll(SweepOne(s, order[0], env), order[1..], env);
    }
  }

  // ---- stop ----

  // The names a list of sockets is logged in under.
  ghost function NamesOn(t: SessionTable, order: seq<int>): set<string> {
    set i | 0 <= i < |order| && NameOn(t, order[i]) != "" :: NameOn(t, order[i])
  }

  // The sockets Stop shuts down.
  ghost function SocketsOf(s: Server, order: seq<int>): set<int> {
    set x | x in order && x in s.w.table.live && x in s.w.net.open
  }

  // Stop lowers the flags of these names, drops their cached lists, shuts these sockets, and does
  // nothing else.
  ghost predicate Stopped(s: Server, s': Server, names: set<string>, sockets: set<int>) {
    && s' == s.(w := s'.w, cache := s.cache - names)
    && s'.w.table == s.w.table && s'.w.net == s.w.net.(shut := s.w.net.shut + sockets)
    && s'.w.db == s.w.db.(users := s'.w.db.users)
    && UniqueNames(s'.w.db.users) && AllNames(s'.w.db.users) == AllNames(s.w.db.users)
    && Online(s') == Online(s) - names
  }

  lemma StopOneEffect(s: Server, socket: int)
    requires UniqueNames(s.w.db.users)
    ensures Stopped(s, StopOne(s, socket), NamesOn(s.w.table, [socket]), SocketsOf(s, [socket]))
  {
    var name := NameOn(s.w.table, socket);
    assert NamesOn(s.w.table, [socket]) == if name != "" then {name} else {} by {
      assert NameOn(s.w.table, [socket][0]) == name;
    }
    if name != "" { SetOfflineNames(s.w.db.users, name); } else { assert s.cache - {} == s.cache; }
  }

  lemma {:induction false} StopAllEffect(s: Server, order: seq<int>)
    requires UniqueNames(s.w.db.users)
    ensures Stopped(s, StopAll(s, order), NamesOn(s.w.table, order), SocketsOf(s, order))
    decreases |order|
  {
    if order == [] {
      assert NamesOn(s.w.table, order) == {} && SocketsOf(s, order) == {} && s.cache - {} == s.cache;
    } else {
      var s1 := StopOne(s, order[0]);
      StopOneEffect(s, order[0]);
      StopAllEffect(s1, order[1..]);
      NamesOnSplit(s.w.table, order);
      assert order == [order[0]] + order[1..];
      StoppedTwice(s, s1, StopAll(s1, order[1..]), NamesOn(s.w.table, [order[0]]), SocketsOf(s, [order[0]]),
                   NamesOn(s.w.table, order[1..]), SocketsOf(s, order[1..]));
      assert SocketsOf(s, order) == SocketsOf(s, [order[0]]) + SocketsOf(s, order[1..]);
    }
  }

  lemma StoppedTwice(s: Server, s1: Server, s2: Server, names: set<string>, sockets: set<int>, names': set<string>,
                     sockets': set<int>)
    requires Stopped(s, s1, names, sockets) && Stopped(s1, s2, names', sockets')
    ensures Stopped(s, s2, names + names', sockets + sockets')
  {
    assert (s.cache - names) - names' == s.cache - (names + names');
    assert (s.w.net.shut + sockets) + sockets' == s.w.net.shut + (sockets + sockets');
  }

  lemma NamesOnSplit(t: SessionTable, order: seq<int>)
    requires order != []
    ensures NamesOn(t, order) == NamesOn(t, [order[0]]) + NamesOn(t, order[1..])
  {
    forall n | n in NamesOn(t, order) ensures n in NamesOn(t, [order[0]]) + NamesOn(t, order[1..]) {
      var i :| 0 <= i < |order| && NameOn(t, order[i]) == n && n != "";
      if i == 0 { assert NameOn(t, [order[0]][0]) == n; } else { assert NameOn(t, order[1..][i - 1]) == n; }
    }
    forall n | n in NamesOn(t, [order[0]]) + NamesOn(t, order[1..]) ensures n in NamesOn(t, order) {
      if n in NamesOn(t, [order[0]]) {
        assert NameOn(t, order[0]) == n;
      } else {
        var i :| 0 <= i < |order[1..]| && NameOn(t, order[1..][i]) == n && n != "";
        assert order[1..][i] == order[i + 1];
        assert NameOn(t, order[i + 1]) == n;
      }
    }
  }

  // ---- the other steps ----

  lemma AcceptKeepsAll(s: Server, socket: int, env: Env)
    requires Always(s) && Enabled(s, Accept(socket))
    ensures var s' := AcceptClient(s, socket, env);
            && Always(s')
            && (WhileRunning(s) ==> WhileRunning(s'))
            && (OnlineIsBound(s) ==> OnlineIsBound(s'))
  {
    var s' := AcceptClient(s, socket, env);
    if s.connections < MAX_CONNECTIONS {
      assert socket !in s.w.table.live;
      AddCounts(s.w.table.live, socket, Session("", s.now, true));
    } else {
      assert s'.w.net.open == s.w.net.open && s'.w.net.shut == s.w.net.shut;
    }
  }

  lemma AddCounts(live: map<int, Session>, socket: int, session: Session)
    requires socket !in live
    ensures |live[socket := session]| == |live| + 1
  {
    var m := live[socket := session];
    assert m.Keys == live.Keys + {socket};
    assert |m| == |m.Keys| && |live| == |live.Keys|;
  }

  lemma SubmitKeepsPlaced(open: set<int>, queued: seq<int>, busy: set<int>, x: int)
    requires Placed(open, queued, busy, Counted(x))
    ensures Placed(open, queued + [x], busy, Idle)
  {
  }

  lemma StartKeepsPlaced(open: set<int>, queued: seq<int>, busy: set<int>, accepting: Accepting)
    requires Placed(open, queued, busy, accepting) && queued != []
    ensures Placed(open, queued[1..], busy + {queued[0]}, accepting)
  {
    assert queued == [queued[0]] + queued[1..];
  }

  // A request that logged nobody in.
  lemma PlainRequestKeepsAll(s: Server, s': Server)
    requires Always(s)
    requires s' == s.(w := s'.w)
    requires SameLogins(s.w.table, s'.w.table)
    requires s'.w.net.open == s.w.net.open && s'.w.net.shut == s.w.net.shut
    requires UniqueNames(s'.w.db.users) && AllNames(s.w.db.users) <= AllNames(s'.w.db.users) && Online(s') == Online(s)
    ensures Always(s')
    ensures WhileRunning(s) ==> WhileRunning(s')
    ensures OnlineIsBound(s) ==> OnlineIsBound(s')
  {
    SameLoginsIndex(s.w.table, s'.w.table);
  }

  // A login on `socket`, with `t` the table just before it.
  ghost predicate LoggedIn(s: Server, s': Server, t: SessionTable, socket: int, name: string) {
    && socket in s.busy && socket in t.live && SameLogins(s.w.table, t)
    && name != "" && name in AllNames(s.w.db.users)
    && (NameOn(t, socket) == "" || NameOn(t, socket) == name)
    && s' == s.(w := s'.w, cache := s'.cache)
    && s'.w.table == LoginTable(t, name in Online(s), socket, name, s.now)
    && s'.w.net.open == s.w.net.open && s'.w.net.shut <= s.w.net.open
    && UniqueNames(s'.w.db.users) && AllNames(s.w.db.users) <= AllNames(s'.w.db.users)
    && Online(s') == Online(s) + {name} && s'.cache.Keys == s.cache.Keys + {name}
  }

  lemma LoginKeepsSeats(s: Server, s': Server, t: SessionTable, socket: int, name: string)
    requires Always(s) && LoggedIn(s, s', t, socket, name)
    ensures Ownership(s') && CounterExact(s') && KnownNames(s')
  {
    LoginNamed(t, name in Online(s), socket, name, s.now);
    SameSize(s.w.table.live, s'.w.table.live);
  }

  lemma LoginKeepsRunning(s: Server, s': Server, t: SessionTable, socket: int, name: string)
    requires Always(s) && LoggedIn(s, s', t, socket, name) && WhileRunning(s)
    ensures WhileRunning(s')
  {
    if s.running {
      SameLoginsIndex(s.w.table, t);
      assert name in Online(s) || name !in t.index;
      LoginKeepsIndexIff(t, name in Online(s), socket, name, s.now);
    }
  }

  lemma LoginKeepsAll(s: Server, s': Server, t: SessionTable, socket: int, name: string)
    requires Always(s) && LoggedIn(s, s', t, socket, name)
    ensures Always(s')
    ensures WhileRunning(s) ==> WhileRunning(s')
    ensures OnlineIsBound(s) ==> OnlineIsBound(s')
  {
    SameLoginsIndex(s.w.table, t);
    LoginKeepsSound(t, name in Online(s), socket, name, s.now);
    LoginKeepsSeats(s, s', t, socket, name);
    if WhileRunning(s) { LoginKeepsRunning(s, s', t, socket, name); }
  }

  // What one request does, apart from the messages and the log.
  ghost predicate Received(s: Server, s': Server, socket: int, r: Request, env: Env) {
    var t := Heard(s.w, socket, r, s.now).table;
    && s' == s.(w := s'.w, cache := s'.cache)
    && SameLogins(s.w.table, t)
    && s'.w.net.open == s.w.net.open
    && UniqueNames(s'.w.db.users) && AllNames(s.w.db.users) <= AllNames(s'.w.db.users)
    && match LoginName(s.w, socket, r, s.now, env)
       case None =>
         s'.w.table == t && s'.w.net.shut == s.w.net.shut && s'.cache == s.cache && Online(s') == Online(s)
       case Some(name) =>
         && name in AllNames(s.w.db.users) && name != ""
         && (NameOn(t, socket) == "" || NameOn(t, socket) == name)
         && s'.w.table == LoginTable(t, name in Online(s), socket, name, s.now)
         && s'.w.net.shut == LoginShut(s.w.(table := t), name in Online(s), name)
         && s'.cache.Keys == s.cache.Keys + {name}
         && Online(s') == Online(s) + {name}
  }

  lemma ReceiveEffect(s: Server, socket: int, r: Request, env: Env)
    requires UniqueNames(s.w.db.users)
    ensures Received(s, Next(s, Receive(socket, r), env), socket, r, env)
  {
    var s' := Next(s, Receive(socket, r), env);
    var w0, name := Heard(s.w, socket, r, s.now), LoginName(s.w, socket, r, s.now, env);
    assert (s'.w, s'.cache) == Dispatch(s.w, s.cache, socket, r, s.now, env);
    DispatchEffect(s.w, s.cache, socket, r, s.now, env);
    HeardLogins(s.w, socket, r, s.now);
    LoginNameIs(s.w, socket, r, s.now, env);
    assert name.Some? ==> s'.w.net.shut == LoginShut(w0, name.value in Online(s), name.value);
  }

  lemma HeardLogins(w: World, socket: int, r: Request, now: int)
    ensures SameLogins(w.table, Heard(w, socket, r, now).table)
    ensures Heard(w, socket, r, now) == w.(table := Heard(w, socket, r, now).table)
  {
  }

  // A bound socket logs in under its own name only.
  lemma LoginNameIs(w: World, socket: int, r: Request, now: int, env: Env)
    ensures var t := Heard(w, socket, r, now).table;
            match LoginName(w, socket, r, now, env)
            case None => true
            case Some(name) => name != "" && (NameOn(t, socket) == "" || NameOn(t, socket) == name)
  {
    EffectiveName(Heard(w, socket, r, now).table, socket, r);
  }

  lemma ReceiveKeepsAll(s: Server, s': Server, socket: int, r: Request, env: Env)
    requires Always(s) && Enabled(s, Receive(socket, r)) && Received(s, s', socket, r, env)
    ensures Always(s')
    ensures WhileRunning(s) ==> WhileRunning(s')
    ensures OnlineIsBound(s) ==> OnlineIsBound(s')
  {
    var t := Heard(s.w, socket, r, s.now).table;
    match LoginName(s.w, socket, r, s.now, env)
    case None => PlainRequestKeepsAll(s, s');
    case Some(name) => LoginKeepsAll(s, s', t, socket, name);
  }

  // The same sockets carry the same names; heartbeats may differ.
  ghost predicate SameLogins(t: SessionTable, t': SessionTable) {
    t'.index == t.index && t'.live.Keys == t.live.Keys &&
    forall x :: x in t.live ==> t'.live[x].username == t.live[x].username
  }

  lemma SameLoginsIndex(t: SessionTable, t': SessionTable)
    requires SameLogins(t, t')
    ensures |t'.live| == |t.live|
    ensures IndexSound(t) ==> IndexSound(t')
    ensures IndexComplete(t) ==> IndexComplete(t')
  {
    SameSize(t.live, t'.live);
    if IndexSound(t) {
      forall u | u in t'.index
        ensures u != "" && t'.index[u] in t'.live && t'.live[t'.index[u]].username == u
      {
        var x := t.index[u];
        assert x in t.live && t.live[x].username == u;
        assert t'.live[x].username == t.live[x].username;
      }
    }
  }

  // A login gives `name` to its socket and takes no other name away but that one.
  lemma LoginNamed(t: SessionTable, wasOnline: bool, socket: int, name: string, now: int)
    requires socket in t.live
    ensures var t' := LoginTable(t, wasOnline, socket, name, now);
            && t'.live.Keys == t.live.Keys && t'.live[socket].username == name
            && forall x :: x in t.live && x != socket ==>
                 t'.live[x].username == t.live[x].username || t'.live[x].username == ""
  {
  }

  lemma SameSize(a: map<int, Session>, b: map<int, Session>)
    requires a.Keys == b.Keys
    ensures |a| == |b|
  {
    assert |a| == |a.Keys| && |b| == |b.Keys|;
  }

  // ---- every step, every run ----

  lemma StepKeepsAll(s: Server, step: Step, env: Env)
    requires Always(s) && Enabled(s, step)
    ensures var s' := Next(s, step, env);
            && Always(s')
            && (WhileRunning(s) ==> WhileRunning(s'))
            && (OnlineIsBound(s) ==> OnlineIsBound(s'))
  {
    var s' := Next(s, step, env);
    match step
    case Tick(d) =>
    case Accept(socket) => AcceptKeepsAll(s, socket, env);
    case CountAccepted =>
    case SubmitAccepted => SubmitKeepsPlaced(s.w.net.open, s.queued, s.busy, s.accepting.socket);
    case StartTask => StartKeepsPlaced(s.w.net.open, s.queued, s.busy, s.accepting);
    case Receive(socket, r) =>
      ReceiveEffect(s, socket, r, env);
      ReceiveKeepsAll(s, s', socket, r, env);
    case Disconnect(socket) =>
      DisconnectEffect(s, socket, env);
      TaskEndKeepsAll(s, s', socket);
    case Fail(socket) =>
      FailEffect(s, socket);
      TaskEndKeepsAll(s, s', socket);
    case Sweep(order) =>
      SweepKeepsAll(s, order, env);
    case Stop(order) =>
      StopAllEffect(s.(running := false), order);
  }

  lemma InitialHolds(s: Server)
    requires Initial(s)
    ensures Always(s) && WhileRunning(s)
    ensures Online(s) == {} ==> OnlineIsBound(s)
  {
  }

  // The main safety theorem: all runs, of any length, from any tables that obey the schema.
  lemma {:induction false} RunsKeepAll(s: Server, steps: seq<Step>, env: Env)
    requires Always(s) && ValidRun(s, steps, env)
    ensures Always(Exec(s, steps, env))
    ensures WhileRunning(s) ==> WhileRunning(Exec(s, steps, env))
    ensures OnlineIsBound(s) ==> OnlineIsBound(Exec(s, steps, env))
  {
    if steps != [] {
      var before := steps[..|steps| - 1];
      RunsKeepAll(s, before, env);
      StepKeepsAll(Exec(s, before, env), steps[|steps| - 1], env);
    }
  }
}
