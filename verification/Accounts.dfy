// Accounts over whole runs: once registered, an account keeps its name and its password.
module Accounts {
  import opened ChatTypes
  import opened Tables
  import opened Sessions
  import opened Handlers
  import opened ServerModel
  import opened Effects
  import opened Invariants
  import opened Requests

  // Rows are only appended, and keep everything but the presence flag.
  ghost predicate SameAccounts(users: seq<User>, users': seq<User>) {
    && |users| <= |users'|
    && forall i :: 0 <= i < |users| ==> users'[i] == users[i].(isOnline := users'[i].isOnline)
  }

  lemma HandleKeepsAccounts(w: World, cache: Cache, socket: int, e: Request, now: int, env: Env)
    ensures SameAccounts(w.db.users, Handle(w, cache, socket, e, now, env).0.db.users)
  {
    match e.kind
    case Login =>
      if LoginCode(w.db, e, env) == 0 {
        LoginEffect(w, socket, e, now, env);
        PushOfflineEffect(HandleLogin(w, socket, e, now, env).0, e.username, env);
      }
    case SendMsg => SendEffect(w, e, now, env);
    case _ =>
  }

  lemma EndKeepsAccounts(s: Server, s': Server, socket: int)
    requires Ended(s, s', socket)
    ensures SameAccounts(s.w.db.users, s'.w.db.users)
  {
  }

  lemma {:induction false} SweepKeepsAccounts(s: Server, order: seq<int>, env: Env)
    requires Always(s)
    ensures SameAccounts(s.w.db.users, SweepAll(s, order, env).w.db.users)
    decreases |order|
  {
    if order != [] {
      var s1 := SweepOne(s, order[0], env);
      if order[0] in s.w.table.live && Expired(s.w.table.live[order[0]], s.now) { SweepOneEffect(s, order[0], env); }
      SweepOneKeepsAll(s, order[0], env);
      SweepKeepsAccounts(s1, order[1..], env);
    }
  }

  lemma {:induction false} StopKeepsAccounts(s: Server, order: seq<int>)
    ensures SameAccounts(s.w.db.users, StopAll(s, order).w.db.users)
    decreases |order|
  {
    if order != [] { StopKeepsAccounts(StopOne(s, order[0]), order[1..]); }
  }

  lemma StepKeepsAccounts(s: Server, step: Step, env: Env)
    requires Always(s) && Enabled(s, step)
    ensures SameAccounts(s.w.db.users, Next(s, step, env).w.db.users)
  {
    match step
    case Receive(socket, r) =>
      var w0 := Heard(s.w, socket, r, s.now);
      HandleKeepsAccounts(w0, s.cache, socket, Effective(w0.table, socket, r), s.now, env);
    case Disconnect(socket) =>
      DisconnectEffect(s, socket, env);
      EndKeepsAccounts(s, Next(s, step, env), socket);
    case Fail(socket) =>
      FailEffect(s, socket);
      EndKeepsAccounts(s, Next(s, step, env), socket);
    case Sweep(order) => SweepKeepsAccounts(s, order, env);
    case Stop(order) => StopKeepsAccounts(s.(running := false), order);
    case _ =>
  }

  lemma {:induction false} AccountsOverRuns(s: Server, steps: seq<Step>, env: Env)
    requires Always(s) && ValidRun(s, steps, env)
    ensures SameAccounts(s.w.db.users, Exec(s, steps, env).w.db.users)
  {
    if steps != [] {
      var before := steps[..|steps| - 1];
      AccountsOverRuns(s, before, env);
      RunsKeepAll(s, before, env);
      StepKeepsAccounts(Exec(s, before, env), steps[|steps| - 1], env);
    }
  }

  // A registered account opens with the same passwords in every later state, and its name stays taken.
  lemma PasswordsOverRuns(s: Server, steps: seq<Step>, env: Env, name: string, password: string)
    requires Always(s) && ValidRun(s, steps, env) && name in AllNames(s.w.db.users)
    ensures var users' := Exec(s, steps, env).w.db.users;
            && name in AllNames(users')
            && (Opens(users', name, password, env) <==> Opens(s.w.db.users, name, password, env))
  {
    AccountsOverRuns(s, steps, env);
    RunsKeepAll(s, steps, env);
    var users, users' := s.w.db.users, Exec(s, steps, env).w.db.users;
    var a :| 0 <= a < |users| && users[a].username == name;
    assert users'[a].username == name;
    forall i | 0 <= i < |users'| && users'[i].username == name ensures i == a {
      FindUserIsTheRow(users', i);
      FindUserIsTheRow(users', a);
    }
  }
}
