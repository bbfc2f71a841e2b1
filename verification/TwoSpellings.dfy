// A run of the server on a case-insensitive table in which one account is used in two spellings,
// from an empty start: the shared flag goes down under a bound user, and then two sessions carry one
// name.
module TwoSpellings {
  import opened ChatTypes
  import opened Tables
  import opened Sessions
  import opened Handlers
  import opened ServerModel
  import opened Effects
  import opened Index
  import opened FoldedServer
  import opened Collation

  // ---- three clients connect ----

  // Nobody is being accepted or waiting, and there is room.
  ghost predicate Ready(s: Server) {
    s.accepting.Idle? && s.queued == [] && |s.busy| < WORKERS && s.connections < MAX_CONNECTIONS && s.running
  }

  // What this run looks at.
  ghost predicate Clients(s: Server, sockets: set<int>, t: SessionTable, online: bool) {
    && s.w.table == t && s.w.net.open == sockets && s.busy == sockets && s.running && s.now == 0
    && s.w.db.users == [User("Ann", "", online)]
  }

  function Blank(t: SessionTable, socket: int): SessionTable {
    t.(live := t.live[socket := Session("", 0, true)])
  }

  lemma Extend(s: Server, c: Folding, steps: seq<Step>, step: Step, env: Env)
    requires ValidRunByKey(s, c, steps, env) && Enabled(ExecByKey(s, c, steps, env), step)
    ensures ValidRunByKey(s, c, steps + [step], env)
    ensures ExecByKey(s, c, steps + [step], env) == NextByKey(ExecByKey(s, c, steps, env), c, step, env)
  {
    assert (steps + [step])[..|steps|] == steps;
  }

  lemma Connect(s: Server, c: Folding, steps: seq<Step>, socket: int, sockets: set<int>, t: SessionTable, env: Env)
    returns (steps': seq<Step>)
    requires ValidRunByKey(s, c, steps, env)
    requires var e := ExecByKey(s, c, steps, env);
             Ready(e) && Clients(e, sockets, t, false) && socket !in sockets
    ensures ValidRunByKey(s, c, steps', env)
    ensures var e, e' := ExecByKey(s, c, steps, env), ExecByKey(s, c, steps', env);
            && Clients(e', sockets + {socket}, Blank(t, socket), false)
            && e'.accepting.Idle? && e'.queued == [] && e'.connections == e.connections + 1
  {
    Extend(s, c, steps, Accept(socket), env);
    steps' := steps + [Accept(socket)];
    Extend(s, c, steps', CountAccepted, env);
    steps' := steps' + [CountAccepted];
    Extend(s, c, steps', SubmitAccepted, env);
    steps' := steps' + [SubmitAccepted];
    Extend(s, c, steps', StartTask, env);
    steps' := steps' + [StartTask];
  }

  // ---- logins and the sign-off ----

  function LoginAs(name: string): Request { Request(Login, name, "", "", "") }

  lemma LoginStep(s: Server, c: Folding, socket: int, name: string, online: bool, env: Env)
    requires s.w.db.users == [User("Ann", "", online)] && c.key(name) == c.key("Ann")
    requires ValidUsername(name) && env.hash("") == "" && NameOn(s.w.table, socket) == ""
    ensures var s' := NextByKey(s, c, Receive(socket, LoginAs(name)), env);
            && s'.w.table == LoginTable(Touch(s.w.table, socket, s.now), online, socket, name, s.now)
            && s'.w.db.users == [User("Ann", "", true)]
            && s' == s.(w := s'.w, cache := s'.cache) && s'.w.net.open == s.w.net.open
  {
    var w0 := Heard(s.w, socket, LoginAs(name), s.now);
    assert Effective(w0.table, socket, LoginAs(name)) == LoginAs(name);
    LoginOfAnn(w0, c, s.cache, socket, name, online, s.now, env);
  }

  lemma LoginOfAnn(w: World, c: Folding, cache: Cache, socket: int, name: string, online: bool, now: int, env: Env)
    requires w.db.users == [User("Ann", "", online)] && c.key(name) == c.key("Ann")
    requires ValidUsername(name) && env.hash("") == ""
    ensures var w' := LoginAndPushByKey(w, c, cache, socket, LoginAs(name), now, env).0;
            && w'.table == LoginTable(w.table, online, socket, name, now)
            && w'.db.users == [User("Ann", "", true)] && w'.net.open == w.net.open
  {
    KeyFindsTheRow(w.db.users, c, 0, name);
    var w1 := EnterLogin(w, 0, socket, name, now, env);
    EnterLoginEffect(w, 0, socket, name, now, env);
    NotifyFoundEffect(w1, FindByKey(w1.db.users, c, name), name, true, env);
    var w2 := NotifyByKey(w1, c, name, true, env);
    PushFoundEffect(w2, FindByKey(w2.db.users, c, name), name, env);
  }

  lemma DisconnectStep(s: Server, c: Folding, socket: int, env: Env)
    requires s.w.db.users == [User("Ann", "", true)] && c.key(NameOn(s.w.table, socket)) == c.key("Ann")
    requires NameOn(s.w.table, socket) != ""
    ensures var s' := NextByKey(s, c, Disconnect(socket), env);
            && s'.w.table == RemoveSession(s.w.table, socket)
            && s'.w.db.users == [User("Ann", "", false)]
            && s'.busy == s.busy - {socket} && s'.running == s.running && s'.now == s.now
  {
    var name := NameOn(s.w.table, socket);
    var w1 := GoOfflineByKey(s.w, c, name);
    assert w1.db.users == [User("Ann", "", false)];
    NotifyFoundEffect(w1, FindByKey(w1.db.users, c, name), name, false, env);
  }

  // ---- the session table along the run ----

  const LOBBY := SessionTable(map[1 := Session("", 0, true), 2 := Session("", 0, true), 3 := Session("", 0, true)],
    map[])

  const BOTH :=
    SessionTable(map[1 := Session("Ann", 0, true), 2 := Session("ann", 0, true), 3 := Session("", 0, true)],
                 map["Ann" := 1, "ann" := 2])

  const LEFT :=
    SessionTable(map[2 := Session("ann", 0, true), 3 := Session("", 0, true)], map["ann" := 2])

  const DOUBLE :=
    SessionTable(map[2 := Session("ann", 0, true), 3 := Session("ann", 0, true)], map["ann" := 3])

  lemma NamesAre()
    ensures "Ann" != "ann" && ValidUsername("Ann") && ValidUsername("ann")
  {
    assert "Ann"[0] == 'A' && "ann"[0] == 'a';
  }

  lemma BothIs()
    ensures var first := LoginTable(Touch(LOBBY, 1, 0), false, 1, "Ann", 0);
            LoginTable(Touch(first, 2, 0), true, 2, "ann", 0) == BOTH && NameOn(first, 2) == ""
  {
    NamesAre();
    var first := LoginTable(Touch(LOBBY, 1, 0), false, 1, "Ann", 0);
    assert first.live == map[1 := Session("Ann", 0, true), 2 := Session("", 0, true), 3 := Session("", 0, true)];
    assert first.index == map["Ann" := 1];
  }

  lemma LeftIs()
    ensures RemoveSession(BOTH, 1) == LEFT && IndexExact(LEFT)
  {
    NamesAre();
  }

  lemma DoubleIs()
    ensures LoginTable(Touch(LEFT, 3, 0), false, 3, "ann", 0) == DOUBLE && !IndexExact(DOUBLE)
  {
    assert DOUBLE.live[2].username == "ann" && DOUBLE.index["ann"] == 3;
    assert !IndexComplete(DOUBLE);
  }

  // An empty server, and the account of Ann with no password.
  ghost predicate Fresh(s: Server) {
    Initial(s) && s.now == 0 && s.w.db == Db([User("Ann", "", false)], [], [], 0)
  }

  // Three clients connect. The first logs in as "Ann", the second as "ann", and nobody is kicked. The
  // first disconnects: the account goes offline although "ann" is bound. The third logs in as "ann":
  // the flag is down, so again nobody is kicked, and two live sessions carry "ann".
  lemma TwoSpellingsBreak(s: Server, c: Folding, env: Env) returns (steps: seq<Step>)
    requires Fresh(s) && c.key("ann") == c.key("Ann") && env.hash("") == ""
    ensures |steps| > 0 && ValidRunByKey(s, c, steps, env)
    ensures var b := ExecByKey(s, c, steps[..|steps| - 1], env);
            b.w.table == LEFT && IndexExact(LEFT) && !BoundAreOnline(b.w.db.users, c, LEFT)
    ensures var e := ExecByKey(s, c, steps, env);
            e.running && e.w.table == DOUBLE && !IndexExact(e.w.table)
  {
    NamesAre();
    LeftIs();
    DoubleIs();
    var before := OneLeft(s, c, env);
    var last := Receive(3, LoginAs("ann"));
    var b := ExecByKey(s, c, before, env);
    assert "ann" in LEFT.index && !Up(b.w.db.users, c, "ann");
    LoginStep(b, c, 3, "ann", false, env);
    Extend(s, c, before, last, env);
    steps := before + [last];
    assert steps[..|steps| - 1] == before;
  }

  // After the two logins both spellings are bound.
  lemma TwoIn(s: Server, c: Folding, env: Env) returns (steps: seq<Step>)
    requires Fresh(s) && c.key("ann") == c.key("Ann") && env.hash("") == ""
    ensures ValidRunByKey(s, c, steps, env) && Clients(ExecByKey(s, c, steps, env), {1, 2, 3}, BOTH, true)
  {
    NamesAre();
    BothIs();
    steps := ThreeConnect(s, c, env);
    LoginStep(ExecByKey(s, c, steps, env), c, 1, "Ann", false, env);
    Extend(s, c, steps, Receive(1, LoginAs("Ann")), env);
    steps := steps + [Receive(1, LoginAs("Ann"))];
    LoginStep(ExecByKey(s, c, steps, env), c, 2, "ann", true, env);
    Extend(s, c, steps, Receive(2, LoginAs("ann")), env);
    steps := steps + [Receive(2, LoginAs("ann"))];
  }

  // After the first client has left the second is bound and the account offline.
  lemma OneLeft(s: Server, c: Folding, env: Env) returns (steps: seq<Step>)
    requires Fresh(s) && c.key("ann") == c.key("Ann") && env.hash("") == ""
    ensures ValidRunByKey(s, c, steps, env)
    ensures var e := ExecByKey(s, c, steps, env);
            && e.w.table == LEFT && e.w.db.users == [User("Ann", "", false)]
            && 3 in e.busy && e.running && e.now == 0
  {
    NamesAre();
    LeftIs();
    steps := TwoIn(s, c, env);
    DisconnectStep(ExecByKey(s, c, steps, env), c, 1, env);
    Extend(s, c, steps, Disconnect(1), env);
    steps := steps + [Disconnect(1)];
  }

  lemma ThreeConnect(s: Server, c: Folding, env: Env) returns (steps: seq<Step>)
    requires Fresh(s)
    ensures ValidRunByKey(s, c, steps, env) && Clients(ExecByKey(s, c, steps, env), {1, 2, 3}, LOBBY, false)
  {
    var none := SessionTable(map[], map[]);
    steps := Connect(s, c, [], 1, {}, none, env);
    assert {} + {1} == {1};
    steps := Connect(s, c, steps, 2, {1}, Blank(none, 1), env);
    assert {1} + {2} == {1, 2};
    steps := Connect(s, c, steps, 3, {1, 2}, Blank(Blank(none, 1), 2), env);
    assert {1, 2} + {3} == {1, 2, 3};
    assert Blank(Blank(Blank(none, 1), 2), 3) == LOBBY;
  }
}
