// Who is told when somebody comes or goes, and what the friend cache holds after a login.
module Notices {
  import opened ChatTypes
  import opened Tables
  import opened Sessions
  import opened Handlers
  import opened ServerModel
  import opened Effects
  import opened Index
  import opened Invariants
  import opened Delivery
  import opened HeartbeatSweep
  import opened FriendGraph

  // How often `payload` was sent to socket x.
  function Told(log: seq<Sent>, x: int, payload: Payload): nat {
    if log == [] then 0
    else
      var last := log[|log| - 1];
      Told(log[..|log| - 1], x, payload) + if last.socket == x && last.payload == payload then 1 else 0
  }

  lemma ToldSend(net: Net, socket: int, sent: Payload, env: Env, x: int, payload: Payload)
    ensures Told(Send(net, socket, sent, env).log, x, payload) ==
            Told(net.log, x, payload) + if socket == x && sent == payload then 1 else 0
  {
    assert Send(net, socket, sent, env).log[..|net.log|] == net.log;
  }

  // The log only grew, and not by a status notice.
  ghost predicate Discreet(log: seq<Sent>, log': seq<Sent>) {
    Grew(log, log') && forall k :: |log| <= k < |log'| ==> !log'[k].payload.StatusNotify?
  }

  lemma {:induction false} DiscreetTells(log: seq<Sent>, log': seq<Sent>, x: int, payload: Payload)
    requires Discreet(log, log') && payload.StatusNotify?
    ensures Told(log', x, payload) == Told(log, x, payload)
    decreases |log'|
  {
    if |log| < |log'| {
      var before := log'[..|log'| - 1];
      assert before[..|log|] == log'[..|log|];
      DiscreetTells(log, before, x, payload);
    } else {
      assert log' == log;
    }
  }

  // ---- the loop over the friend list ----

  lemma {:induction false} NotifyRowsTells(w: World, rows: seq<FriendRow>, payload: Payload, env: Env, name: string,
                                           x: int, up: bool)
    requires IndexSound(w.table) && SocketOf(w.table, name) == Some(x)
    requires forall row :: row in rows && row.username == name ==> row.isOnline == up
    ensures Told(NotifyRows(w, rows, payload, env).net.log, x, payload) ==
      Told(w.net.log, x, payload) + if up then Listed(rows, name) else 0
    decreases |rows|
  {
    if rows != [] {
      var row := rows[0];
      var w1 := NotifyRow(w, row, payload, env);
      if row.isOnline && SocketOf(w.table, row.username).Some? {
        ToldSend(w.net, SocketOf(w.table, row.username).value, payload, env, x, payload);
      }
      NotifyRowsTells(w1, rows[1..], payload, env, name, x, up);
      ListedAppend([row], rows[1..], name);
      assert rows == [row] + rows[1..];
      assert [row][..0] == [];
    }
  }

  // Somebody else than a, bound to x.
  ghost predicate Watches(w: World, a: UserId, b: UserId, x: int) {
    && a < |w.db.users| && b < |w.db.users| && b != a
    && SocketOf(w.table, w.db.users[b].username) == Some(x)
  }

  // One notice per directed edge to a user who is marked online, none to a user who is not.
  lemma NotifyFriendsTells(w: World, a: UserId, online: bool, env: Env, b: UserId, x: int)
    requires UniqueNames(w.db.users) && GraphOk(w.db) && IndexSound(w.table) && Watches(w, a, b, x)
    ensures var note := StatusNotify(w.db.users[a].username, online);
            Told(NotifyFriends(w, w.db.users[a].username, online, env).net.log, x, note) ==
            Told(w.net.log, x, note) + if w.db.users[b].isOnline then EdgeCount(w.db.friends, a, b) else 0
  {
    var users, rows := w.db.users, FriendRows(w.db.users, w.db.friends, a);
    FindUserIsTheRow(users, a);
    ListRowsAreUsers(users, w.db.friends, a);
    ListCountsEdges(users, w.db.friends, a, b);
    forall row | row in rows && row.username == users[b].username ensures row.isOnline == users[b].isOnline {
      var c: nat :| c < |users| && c != a && row == FriendRow(users[c].username, users[c].isOnline);
      assert c == b;
    }
    NotifyRowsTells(w, rows, StatusNotify(users[a].username, online), env, users[b].username, x, users[b].isOnline);
  }

  // ---- a login ----

  lemma {:induction false} PushIsDiscreet(w: World, socket: int, rows: seq<Message>, env: Env)
    ensures Discreet(w.net.log, PushRows(w, socket, rows, env).net.log)
    decreases |rows|
  {
    if rows != [] {
      var w1 := PushRow(w, socket, rows[0], env);
      PushIsDiscreet(w1, socket, rows[1..], env);
      var log, log1, log' := w.net.log, w1.net.log, PushRows(w1, socket, rows[1..], env).net.log;
      assert Discreet(log, log1);
      DiscreetTrans(log, log1, log');
    }
  }

  lemma DiscreetTrans(log: seq<Sent>, log1: seq<Sent>, log2: seq<Sent>)
    requires Discreet(log, log1) && Discreet(log1, log2)
    ensures Discreet(log, log2)
  {
    GrewTransitive(log, log1, log2);
  }

  lemma PushOfflineIsDiscreet(w: World, name: string, env: Env)
    ensures Discreet(w.net.log, PushOffline(w, name, env).net.log)
  {
    var id := FindUser(w.db.users, name);
    if id.Some? && SocketOf(w.table, name).Some? {
      PushIsDiscreet(w, SocketOf(w.table, name).value, UnreadMessages(w.db, id.value), env);
    }
  }

  lemma CompleteLoginTells(w: World, a: UserId, socket: int, now: int, env: Env, b: UserId, x: int)
    requires UniqueNames(w.db.users) && GraphOk(w.db) && IndexSound(w.table) && Watches(w, a, b, x)
    requires w.db.users[b].isOnline
    requires socket in w.table.live && w.db.users[a].username != ""
    requires NameOn(w.table, socket) == "" || NameOn(w.table, socket) == w.db.users[a].username
    ensures var name := w.db.users[a].username;
            Told(CompleteLogin(w, a, socket, name, now, env).net.log, x, StatusNotify(name, true)) ==
            Told(w.net.log, x, StatusNotify(name, true)) + EdgeCount(w.db.friends, a, b)
  {
    var name := w.db.users[a].username;
    var w' := EnterLogin(w, a, socket, name, now, env);
    EnterLoginEffect(w, a, socket, name, now, env);
    SetOnlineNames(w.db.users, a);
    LoginKeepsSound(w.table, w.db.users[a].isOnline, socket, name, now);
    DiscreetTells(w.net.log, w'.net.log, x, StatusNotify(name, true));
    NotifyFriendsTells(w', a, true, env, b, x);
  }

  // A login tells every logged-in user once for each directed edge to the one who came: not at all
  // if they are no friends, once if one of the two added the other.
  lemma LoginTells(s: Server, socket: int, r: Request, env: Env, a: UserId, b: UserId, x: int)
    requires Always(s) && WhileRunning(s) && s.running && GraphOk(s.w.db) && Enabled(s, Receive(socket, r))
    requires a < |s.w.db.users| && LoginName(s.w, socket, r, s.now, env) == Some(s.w.db.users[a].username)
    requires b < |s.w.db.users| && b != a && SocketOf(s.w.table, s.w.db.users[b].username) == Some(x)
    ensures var note := StatusNotify(s.w.db.users[a].username, true);
            Told(Next(s, Receive(socket, r), env).w.net.log, x, note) ==
            Told(s.w.net.log, x, note) + EdgeCount(s.w.db.friends, a, b)
  {
    var w0 := Heard(s.w, socket, r, s.now);
    var e := Effective(w0.table, socket, r);
    var note := StatusNotify(s.w.db.users[a].username, true);
    HeardLogins(s.w, socket, r, s.now);
    SameLoginsIndex(s.w.table, w0.table);
    LoginNameIs(s.w, socket, r, s.now, env);
    EffectiveName(w0.table, socket, r);
    OnlineFlag(s.w.db.users, b);
    FindUserIsTheRow(s.w.db.users, a);
    CompleteLoginTells(w0, a, socket, s.now, env, b, x);
    var w1 := CompleteLogin(w0, a, socket, e.username, s.now, env);
    PushOfflineIsDiscreet(w1, e.username, env);
    var w2 := PushOffline(w1, e.username, env);
    DiscreetTells(w1.net.log, w2.net.log, x, note);
    ToldSend(w2.net, socket, Reply(0), env, x, note);
    assert Next(s, Receive(socket, r), env).w.net == Send(w2.net, socket, Reply(0), env);
  }

  // ---- going offline ----

  lemma SignOffTells(s: Server, a: UserId, env: Env, b: UserId, x: int)
    requires Always(s) && WhileRunning(s) && s.running && GraphOk(s.w.db)
    requires a < |s.w.db.users| && b < |s.w.db.users| && b != a
    requires SocketOf(s.w.table, s.w.db.users[b].username) == Some(x)
    ensures var name := s.w.db.users[a].username;
            Told(SignOff(s, name, env).w.net.log, x, StatusNotify(name, false)) ==
            Told(s.w.net.log, x, StatusNotify(name, false)) + EdgeCount(s.w.db.friends, a, b)
  {
    var w1 := GoOffline(s.w, s.w.db.users[a].username);
    SetOfflineNames(s.w.db.users, s.w.db.users[a].username);
    OnlineFlag(s.w.db.users, b);
    assert s.w.db.users[b].username != s.w.db.users[a].username;
    NotifyFriendsTells(w1, a, false, env, b, x);
  }

  // A disconnect tells the same users, the same number of times.
  lemma DisconnectTells(s: Server, socket: int, env: Env, a: UserId, b: UserId, x: int)
    requires Always(s) && WhileRunning(s) && s.running && GraphOk(s.w.db)
    requires a < |s.w.db.users| && b < |s.w.db.users| && b != a
    requires NameOn(s.w.table, socket) == s.w.db.users[a].username != ""
    requires SocketOf(s.w.table, s.w.db.users[b].username) == Some(x)
    ensures var note := StatusNotify(s.w.db.users[a].username, false);
            Told(Next(s, Disconnect(socket), env).w.net.log, x, note) ==
            Told(s.w.net.log, x, note) + EdgeCount(s.w.db.friends, a, b)
  {
    SignOffTells(s, a, env, b, x);
  }

  // So does the heartbeat for a session it finds expired.
  lemma ExpiryTells(s: Server, socket: int, env: Env, a: UserId, b: UserId, x: int)
    requires Always(s) && WhileRunning(s) && s.running && GraphOk(s.w.db)
    requires a < |s.w.db.users| && b < |s.w.db.users| && b != a
    requires socket in s.w.table.live && Expired(s.w.table.live[socket], s.now)
    requires s.w.table.live[socket].username == s.w.db.users[a].username
    requires SocketOf(s.w.table, s.w.db.users[b].username) == Some(x)
    ensures var note := StatusNotify(s.w.db.users[a].username, false);
            Told(SweepOne(s, socket, env).w.net.log, x, note) ==
            Told(s.w.net.log, x, note) + EdgeCount(s.w.db.friends, a, b)
  {
    SignOffTells(s, a, env, b, x);
  }

  // ---- a whole sweep ----

  // A notice of somebody else, or to nobody's session, is not this one.
  lemma {:induction false} OtherRowsTell(w: World, rows: seq<FriendRow>, payload: Payload, env: Env, x: int,
                                         note: Payload)
    requires payload != note || x !in w.table.live
    ensures Told(NotifyRows(w, rows, payload, env).net.log, x, note) == Told(w.net.log, x, note)
    decreases |rows|
  {
    if rows != [] {
      var row := rows[0];
      if row.isOnline && SocketOf(w.table, row.username).Some? {
        ToldSend(w.net, SocketOf(w.table, row.username).value, payload, env, x, note);
      }
      OtherRowsTell(NotifyRow(w, row, payload, env), rows[1..], payload, env, x, note);
    }
  }

  lemma OtherSweepOneTells(s: Server, socket: int, env: Env, x: int, name: string)
    requires x !in s.w.table.live ||
      (socket in s.w.table.live && s.w.table.live[socket].username == name ==> !Expired(s.w.table.live[socket], s.now))
    ensures Told(SweepOne(s, socket, env).w.net.log, x, StatusNotify(name, false)) ==
            Told(s.w.net.log, x, StatusNotify(name, false))
  {
    if socket in s.w.table.live && Expired(s.w.table.live[socket], s.now) {
      var other := s.w.table.live[socket].username;
      var w1 := GoOffline(s.w, other);
      var id := FindUser(w1.db.users, other);
      if id.Some? {
        OtherRowsTell(w1, FriendRows(w1.db.users, w1.db.friends, id.value), StatusNotify(other, false), env, x,
                      StatusNotify(name, false));
      }
    }
  }

  // Once nobody carries the name, or the socket has lost its session, the rest of the sweep is silent.
  lemma {:induction false} RestIsSilent(s: Server, order: seq<int>, env: Env, x: int, name: string)
    requires Always(s) && name != "" &&
      (x !in s.w.table.live || forall z :: z in s.w.table.live ==> s.w.table.live[z].username != name)
    ensures Told(SweepAll(s, order, env).w.net.log, x, StatusNotify(name, false)) ==
            Told(s.w.net.log, x, StatusNotify(name, false))
    decreases |order|
  {
    if order != [] {
      var s1 := SweepOne(s, order[0], env);
      OtherSweepOneTells(s, order[0], env, x, name);
      SweepOneRemoves(s, order[0], env);
      SweepOneKeepsAll(s, order[0], env);
      RestIsSilent(s1, order[1..], env, x, name);
    }
  }

  // a is logged in on y and b on x.
  ghost predicate BothIn(s: Server, a: UserId, y: int, b: UserId, x: int) {
    && a < |s.w.db.users| && b < |s.w.db.users| && b != a
    && s.w.db.users[a].username != "" && s.w.db.users[b].username != ""
    && SocketOf(s.w.table, s.w.db.users[a].username) == Some(y)
    && SocketOf(s.w.table, s.w.db.users[b].username) == Some(x)
  }

  // The sweep ends a's login while b's is there: y is expired, and visited before x if x is too.
  ghost predicate SweptBefore(s: Server, order: seq<int>, y: int, x: int) {
    && y in s.w.table.live && x in s.w.table.live && Expired(s.w.table.live[y], s.now)
    && exists i :: 0 <= i < |order| && order[i] == y &&
         (Expired(s.w.table.live[x], s.now) ==> forall j :: 0 <= j < i ==> order[j] != x)
  }

  lemma SweptBeforeFirst(s: Server, order: seq<int>, y: int, x: int)
    requires order != [] && y in s.w.table.live && x in s.w.table.live && x != y && Expired(s.w.table.live[y], s.now)
    ensures order[0] == y ==> SweptBefore(s, order, y, x)
    ensures order[0] == x && Expired(s.w.table.live[x], s.now) ==> !SweptBefore(s, order, y, x)
  {
  }

  // What a step that visits neither y nor an expired x leaves for the rest.
  lemma SweptBeforeRest(s: Server, s1: Server, order: seq<int>, y: int, x: int)
    requires order != [] && y in s.w.table.live && x in s.w.table.live && s1.now == s.now
    requires y in s1.w.table.live && s1.w.table.live[y] == s.w.table.live[y]
    requires x in s1.w.table.live && s1.w.table.live[x] == s.w.table.live[x]
    requires (order[0] != y || !Expired(s.w.table.live[y], s.now)) &&
      (order[0] != x || !Expired(s.w.table.live[x], s.now))
    ensures SweptBefore(s, order, y, x) <==> SweptBefore(s1, order[1..], y, x)
  {
    if SweptBefore(s, order, y, x) {
      var i :| 0 <= i < |order| && order[i] == y &&
               (Expired(s.w.table.live[x], s.now) ==> forall j :: 0 <= j < i ==> order[j] != x);
      assert order[1..][i - 1] == y;
      forall j | 0 <= j < i - 1 && Expired(s.w.table.live[x], s.now) ensures order[1..][j] != x {
        assert order[1..][j] == order[j + 1];
      }
    }
    if SweptBefore(s1, order[1..], y, x) {
      var i :| 0 <= i < |order[1..]| && order[1..][i] == y &&
               (Expired(s.w.table.live[x], s.now) ==> forall j :: 0 <= j < i ==> order[1..][j] != x);
      assert order[i + 1] == y;
      forall j | 0 <= j < i + 1 && Expired(s.w.table.live[x], s.now) ensures order[j] != x {
        if j > 0 { assert order[j] == order[1..][j - 1]; }
      }
    }
  }

  // A whole sweep tells a logged-in user of each friend it signs off, once per directed edge, as long
  // as the user's own session is still there when the friend's is visited.
  lemma {:induction false} SweepTells(s: Server, order: seq<int>, env: Env, a: UserId, y: int, b: UserId, x: int)
    requires Always(s) && WhileRunning(s) && s.running && GraphOk(s.w.db) && BothIn(s, a, y, b, x)
    ensures var note := StatusNotify(s.w.db.users[a].username, false);
            Told(SweepAll(s, order, env).w.net.log, x, note) ==
            Told(s.w.net.log, x, note) + if SweptBefore(s, order, y, x) then EdgeCount(s.w.db.friends, a, b) else 0
    decreases |order|
  {
    if order != [] {
      var z, s1 := order[0], SweepOne(s, order[0], env);
      var name := s.w.db.users[a].username;
      SweepOneRemoves(s, z, env);
      SweepOneKeepsAll(s, z, env);
      assert s.w.table.live[y].username == name && s.w.table.live[x].username == s.w.db.users[b].username;
      if z == y && Expired(s.w.table.live[y], s.now) {
        ExpiryTells(s, y, env, a, b, x);
        NobodyElse(s, s1, y);
        SweptBeforeFirst(s, order, y, x);
        RestIsSilent(s1, order[1..], env, x, name);
      } else if z == x && Expired(s.w.table.live[x], s.now) {
        OtherSweepOneTells(s, z, env, x, name);
        if Expired(s.w.table.live[y], s.now) { SweptBeforeFirst(s, order, y, x); }
        RestIsSilent(s1, order[1..], env, x, name);
      } else {
        OtherSweep(s, s1, z, env, a, y, b, x);
        if z in s.w.table.live && Expired(s.w.table.live[z], s.now) {
          assert s.w.table.index[s.w.table.live[z].username] == z;
        }
        OtherSweepOneTells(s, z, env, x, name);
        SweptBeforeRest(s, s1, order, y, x);
        SweepTells(s1, order[1..], env, a, y, b, x);
      }
    }
  }

  // The name leaves the table with its one session.
  lemma NobodyElse(s: Server, s1: Server, y: int)
    requires Always(s) && WhileRunning(s) && s.running && NameOn(s.w.table, y) != ""
    requires s1.w.table.live == Survivors(s.w.table.live, [y], s.now) && y in s.w.table.live
    requires Expired(s.w.table.live[y], s.now)
    ensures forall z :: z in s1.w.table.live ==> s1.w.table.live[z].username != NameOn(s.w.table, y)
  {
    assert y in [y];
    assert s.w.table.index[NameOn(s.w.table, y)] == y;
    assert forall z :: z in s1.w.table.live ==> z != y && s1.w.table.live[z] == s.w.table.live[z];
  }

  // Visiting a third session, or one that is not expired, changes nothing between a and b.
  lemma OtherSweep(s: Server, s1: Server, z: int, env: Env, a: UserId, y: int, b: UserId, x: int)
    requires Always(s) && WhileRunning(s) && s.running && GraphOk(s.w.db) && BothIn(s, a, y, b, x)
    requires s1 == SweepOne(s, z, env)
    requires (z != y || !Expired(s.w.table.live[y], s.now)) && (z != x || !Expired(s.w.table.live[x], s.now))
    ensures GraphOk(s1.w.db) && BothIn(s1, a, y, b, x) && s1.running && s1.now == s.now
    ensures s1.w.db.users[a].username == s.w.db.users[a].username && s1.w.db.friends == s.w.db.friends
    ensures s1.w.table.live[y] == s.w.table.live[y] && s1.w.table.live[x] == s.w.table.live[x]
  {
    SweepOneGraph(s, z, env);
    if z in s.w.table.live && Expired(s.w.table.live[z], s.now) {
      SweepOneEffect(s, z, env);
      LookupAfterRemove(s.w.table, z, s.w.db.users[a].username);
      LookupAfterRemove(s.w.table, z, s.w.db.users[b].username);
    }
  }

  lemma SweepOneGraph(s: Server, z: int, env: Env)
    requires Always(s) && GraphOk(s.w.db)
    ensures var s1 := SweepOne(s, z, env);
            && GraphOk(s1.w.db) && s1.w.db.friends == s.w.db.friends && |s1.w.db.users| == |s.w.db.users|
            && s1.running == s.running && s1.now == s.now
            && forall i :: 0 <= i < |s.w.db.users| ==> s1.w.db.users[i].username == s.w.db.users[i].username
  {
    if z in s.w.table.live && Expired(s.w.table.live[z], s.now) {
      SweepOneEffect(s, z, env);
      EndMessages(s, SweepOne(s, z, env), z);
    }
  }

  // ---- every way to end a login ----

  // Does this step tell b, logged in on x, that a's login on y has ended?
  ghost predicate TellsOfEnd(s: Server, step: Step, y: int, x: int) {
    match step
    case Disconnect(z) => z == y
    case Sweep(order) => SweptBefore(s, order, y, x)
    case _ => false
  }

  // The steps that end logins, and which of them tell: a disconnect does; a sweep does unless it has
  // removed the friend's own session first; an exception and Stop do not, and end the login silently.
  lemma EndTellsIff(s: Server, step: Step, env: Env, a: UserId, y: int, b: UserId, x: int)
    requires Always(s) && WhileRunning(s) && s.running && GraphOk(s.w.db) && BothIn(s, a, y, b, x)
    requires Enabled(s, step) && (step.Disconnect? || step.Fail? || step.Sweep? || step.Stop?)
    ensures var note := StatusNotify(s.w.db.users[a].username, false);
            Told(Next(s, step, env).w.net.log, x, note) ==
            Told(s.w.net.log, x, note) + if TellsOfEnd(s, step, y, x) then EdgeCount(s.w.db.friends, a, b) else 0
  {
    match step
    case Disconnect(z) =>
      if z == y { DisconnectTells(s, y, env, a, b, x); } else { OtherDisconnectTells(s, z, env, a, x); }
    case Fail(z) => FailEffect(s, z);
    case Sweep(order) => SweepTells(s, order, env, a, y, b, x);
    case Stop(order) => StopAllEffect(s.(running := false), order);
  }

  lemma OtherDisconnectTells(s: Server, z: int, env: Env, a: UserId, x: int)
    requires a < |s.w.db.users| && NameOn(s.w.table, z) != s.w.db.users[a].username
    ensures var note := StatusNotify(s.w.db.users[a].username, false);
            Told(DisconnectClient(s, z, env).w.net.log, x, note) == Told(s.w.net.log, x, note)
  {
    var other := NameOn(s.w.table, z);
    if other != "" {
      var w1 := GoOffline(s.w, other);
      var id := FindUser(w1.db.users, other);
      if id.Some? {
        OtherRowsTell(w1, FriendRows(w1.db.users, w1.db.friends, id.value), StatusNotify(other, false), env, x,
                      StatusNotify(s.w.db.users[a].username, false));
      }
    }
  }

  // ---- the friend cache ----

  lemma {:induction false} UsernamesCount(rows: seq<FriendRow>, name: string)
    ensures multiset(Usernames(rows))[name] == Listed(rows, name)
  {
    if rows != [] {
      var before := rows[..|rows| - 1];
      UsernamesCount(before, name);
      assert Usernames(rows) == Usernames(before) + [rows[|rows| - 1].username];
    }
  }

  // After a login the cached list names every other user once for each directed edge between them.
  lemma LoginCachesFriends(s: Server, socket: int, r: Request, env: Env, a: UserId, b: UserId)
    requires Always(s) && GraphOk(s.w.db) && Enabled(s, Receive(socket, r))
    requires a < |s.w.db.users| && LoginName(s.w, socket, r, s.now, env) == Some(s.w.db.users[a].username)
    requires b < |s.w.db.users| && b != a
    ensures var s', name := Next(s, Receive(socket, r), env), s.w.db.users[a].username;
            && name in s'.cache
            && multiset(s'.cache[name])[s.w.db.users[b].username] == EdgeCount(s.w.db.friends, a, b)
  {
    var users := SetOnline(s.w.db.users, a, true);
    var rows := FriendRows(users, s.w.db.friends, a);
    DispatchCaches(s.w, s.cache, socket, r, s.now, env, a);
    SetOnlineNames(s.w.db.users, a);
    UsernamesCount(rows, users[b].username);
    ListCountsEdges(users, s.w.db.friends, a, b);
  }

  lemma DispatchCaches(w: World, cache: Cache, socket: int, r: Request, now: int, env: Env, a: UserId)
    requires UniqueNames(w.db.users) && a < |w.db.users|
    requires LoginName(w, socket, r, now, env) == Some(w.db.users[a].username)
    ensures Dispatch(w, cache, socket, r, now, env).1 ==
      cache[w.db.users[a].username := Usernames(FriendRows(SetOnline(w.db.users, a, true), w.db.friends, a))]
  {
    var w0 := Heard(w, socket, r, now);
    var e := Effective(w0.table, socket, r);
    EffectiveName(w0.table, socket, r);
    LoginCaches(w0, cache, socket, e, now, env, a);
    var (w1, cache1, code) := LoginAndPush(w0, cache, socket, e, now, env);
    assert Handle(w0, cache, socket, e, now, env) == (w1, cache1, code);
  }

  lemma LoginCaches(w: World, cache: Cache, socket: int, r: Request, now: int, env: Env, a: UserId)
    requires UniqueNames(w.db.users) && a < |w.db.users| && r.username == w.db.users[a].username
    requires LoginCode(w.db, r, env) == 0
    ensures LoginAndPush(w, cache, socket, r, now, env).1 ==
      cache[r.username := Usernames(FriendRows(SetOnline(w.db.users, a, true), w.db.friends, a))]
  {
    LoginEffect(w, socket, r, now, env);
    FindUserIsTheRow(w.db.users, a);
    SetOnlineNames(w.db.users, a);
    FindUserIsTheRow(SetOnline(w.db.users, a, true), a);
  }
}
