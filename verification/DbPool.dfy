// DBManager and ExceptionHandler::HandleDBException: the pool of database connections, the two
// nested retry loops, and all their callers at once.
module DbPool {

  // A connection, numbered in the order in which the driver created them.
  type Conn = nat

  // What the driver answers, by the number of the call: an instance; a connection, and whether its
  // schema and character set can be set; a valid result.
  datatype Driver = Driver(instance: nat -> bool, connects: nat -> bool, prepares: nat -> bool, valid: nat -> bool)

  predicate Grants(d: Driver, call: nat) { d.connects(call) && d.prepares(call) }

  // `lost` are the connections that were opened and are neither closed nor in anybody's hands.
  datatype Pool = Pool(idle: seq<Conn>, lost: seq<Conn>, created: nat, size: int, tick: nat)

  datatype Attempt = Attempt(ok: bool, pool: Pool)

  const RETRIES := 3

  function Wanted(size: int): nat { if size > 0 then size else 0 }

  // GetConnection does not wait for ever in a call that makes the pool grow first.
  predicate Usable(p: Pool) { p.size > 0 || p.idle != [] }

  // ---- one caller alone ----

  // n new connections.
  function Fresh(from: nat, n: nat): seq<Conn> { seq(n, i => from + i) }

  function Grown(p: Pool, n: nat): Pool {
    p.(idle := p.idle + Fresh(p.created, n), created := p.created + n, tick := p.tick + n)
  }

  // A connection that was opened and whose set-up failed: CreateConnection returns without it and
  // does not close it.
  function Dropped(p: Pool): Pool { p.(created := p.created + 1, lost := p.lost + [p.created]) }

  // How many connections in a row the driver grants, of the n asked for.
  function Granted(d: Driver, tick: nat, n: nat): (m: nat)
    ensures m <= n && (forall j :: tick <= j < tick + m ==> Grants(d, j)) && (m < n ==> !Grants(d, tick + m))
    decreases n
  {
    if n == 0 || !Grants(d, tick) then 0 else 1 + Granted(d, tick + 1, n - 1)
  }

  function Taken(idle: seq<Conn>): seq<Conn>
    requires idle != []
  {
    idle[1..]
  }

  function Returned(idle: seq<Conn>, c: Conn): seq<Conn> { idle + [c] }

  function Validate(p: Pool, d: Driver): Attempt
    requires p.idle != []
  {
    Attempt(d.valid(p.tick), p.(idle := Returned(Taken(p.idle), p.idle[0]), tick := p.tick + 1))
  }

  function Init(p: Pool, size: int, d: Driver): (a: Attempt)
    requires size > 0 || p.idle != []
    ensures a.pool.size == size && Usable(a.pool)
  {
    var p1 := p.(size := size, tick := p.tick + 1);
    if !d.instance(p.tick) then Attempt(false, p1)
    else
      var a := Filled(p1, size, d);
      if !a.ok then a else Validate(a.pool, d)
  }

  // The connections pushed before the first refusal stay.
  function Filled(p: Pool, size: int, d: Driver): (a: Attempt)
    ensures a.ok && size > 0 ==> a.pool.idle != []
    ensures p.idle != [] ==> a.pool.idle != []
    ensures a.pool.size == p.size
  {
    var m := Granted(d, p.tick, Wanted(size));
    if m == Wanted(size) then Attempt(true, Grown(p, m))
    else
      var q := if d.connects(p.tick + m) then Dropped(Grown(p, m)) else Grown(p, m);
      Attempt(false, q.(tick := p.tick + m + 1))
  }

  // The loop of Reconnect from iteration i on, and that of HandleDBException.
  function ReconnectFrom(p: Pool, d: Driver, i: nat): (a: Attempt)
    requires i <= RETRIES && Usable(p)
    ensures a.pool.size == p.size && Usable(a.pool)
    decreases RETRIES - i
  {
    if i == RETRIES then Attempt(false, p)
    else
      var a := Init(p, p.size, d);
      if a.ok then a else ReconnectFrom(a.pool, d, i + 1)
  }

  function Recover(p: Pool, d: Driver, round: nat): (a: Attempt)
    requires round <= RETRIES && Usable(p)
    ensures a.pool.size == p.size
    decreases RETRIES - round
  {
    if round == RETRIES then Attempt(false, p)
    else
      var a := ReconnectFrom(p, d, 0);
      if a.ok then a else Recover(a.pool, d, round + 1)
  }

  // How the call of a data-access object ends. Only the first two reach ReleaseConnection.
  datatype Outcome = Done | SqlError | OtherError

  function Call(p: Pool, o: Outcome): Pool
    requires p.idle != []
  {
    if o.OtherError? then p.(idle := Taken(p.idle), lost := p.lost + [p.idle[0]])
    else p.(idle := Returned(Taken(p.idle), p.idle[0]))
  }

  class DBManager {
    var connectionPool: seq<Conn>
    var lost: seq<Conn>
    var poolSize: int
    var created: nat
    var calls: nat
    const driver: Driver

    constructor (driver: Driver)
      ensures View() == Pool([], [], 0, 0, 0) && this.driver == driver
    {
      connectionPool, lost, poolSize, created, calls := [], [], 0, 0, 0;
      this.driver := driver;
    }

    function View(): Pool
      reads this
    {
      Pool(connectionPool, lost, created, poolSize, calls)
    }

    // A connection opened but not set up is not closed.
    method CreateConnection() returns (ok: bool, conn: Conn)
      modifies this`created, this`calls, this`lost
      ensures ok == Grants(driver, old(calls)) && conn == old(created)
      ensures View() == (if ok then old(View()).(created := created)
                         else if driver.connects(old(calls)) then Dropped(old(View()))
                         else old(View()))
                        .(tick := old(calls) + 1)
      ensures ok ==> created == old(created) + 1
    {
      ok, conn, calls := false, created, calls + 1;
      if driver.connects(calls - 1) {
        created := created + 1;
        ok := driver.prepares(calls - 1);
        if !ok { lost := lost + [conn]; }
      }
    }

    method GetConnection() returns (conn: Conn)
      requires connectionPool != []
      modifies this`connectionPool
      ensures conn == old(connectionPool)[0] && connectionPool == Taken(old(connectionPool))
    {
      conn := connectionPool[0];
      connectionPool := connectionPool[1..];
    }

    method ReleaseConnection(conn: Conn)
      modifies this`connectionPool
      ensures connectionPool == Returned(old(connectionPool), conn)
    {
      connectionPool := connectionPool + [conn];
    }

    method ValidateConnection() returns (valid: bool)
      requires connectionPool != []
      modifies this
      ensures Attempt(valid, View()) == Validate(old(View()), driver)
    {
      var conn := GetConnection();
      valid, calls := driver.valid(calls), calls + 1;
      ReleaseConnection(conn);
    }

    // The creation loop.
    method Fill(size: int) returns (complete: bool)
      modifies this`connectionPool, this`created, this`calls, this`lost
      ensures View() == Filled(old(View()), size, driver).pool && complete == Filled(old(View()), size, driver).ok
    {
      ghost var start := View();
      var i := 0;
      complete := true;
      while i < size
        invariant 0 <= i <= Wanted(size) && complete
        invariant View() == Grown(start, i)
        invariant forall j :: start.tick <= j < start.tick + i ==> Grants(driver, j)
      {
        var granted, conn := CreateConnection();
        if !granted {
          GrantedIs(driver, start.tick, Wanted(size), i);
          return false;
        }
        connectionPool := connectionPool + [conn];
        GrowOne(start, i);
        i := i + 1;
      }
      GrantedIs(driver, start.tick, Wanted(size), i);
    }

    method InitConnectionPool(size: int) returns (ok: bool)
      requires size > 0 || connectionPool != []
      modifies this
      ensures Attempt(ok, View()) == Init(old(View()), size, driver)
    {
      poolSize := size;
      calls := calls + 1;
      InitStep(old(View()), View(), size, driver, Filled(View(), size, driver));
      if !driver.instance(calls - 1) { return false; }
      var complete := Fill(size);
      if !complete { return false; }
      ok := ValidateConnection();
    }

    method Reconnect() returns (ok: bool)
      requires Usable(View())
      modifies this
      ensures Attempt(ok, View()) == ReconnectFrom(old(View()), driver, 0)
    {
      for i := 0 to RETRIES
        invariant Usable(View()) && ReconnectFrom(View(), driver, i) == ReconnectFrom(old(View()), driver, 0)
      {
        var success := InitConnectionPool(poolSize);
        if success { return true; }
      }
      return false;
    }

    // A call of a data-access object: one statement on a connection of the pool.
    method RunStatement(outcome: Outcome) returns (result: bool)
      requires connectionPool != []
      modifies this`connectionPool, this`lost
      ensures View() == Call(old(View()), outcome) && result == outcome.Done?
    {
      var conn := GetConnection();
      if outcome.OtherError? {
        lost := lost + [conn];
        return false;
      }
      ReleaseConnection(conn);
      return outcome.Done?;
    }
  }

  class ExceptionHandler {
    const dbManager: DBManager

    constructor (dbManager: DBManager)
      ensures this.dbManager == dbManager
    {
      this.dbManager := dbManager;
    }

    method HandleDBException() returns (ok: bool)
      requires Usable(dbManager.View())
      modifies dbManager
      ensures Attempt(ok, dbManager.View()) == Recover(old(dbManager.View()), dbManager.driver, 0)
    {
      for round := 0 to RETRIES
        invariant Usable(dbManager.View())
        invariant Recover(dbManager.View(), dbManager.driver, round) ==
          Recover(old(dbManager.View()), dbManager.driver, 0)
      {
        var reconnected := dbManager.Reconnect();
        if reconnected { return true; }
      }
      return false;
    }
  }

  lemma GrowOne(p: Pool, i: nat)
    ensures Grown(p, i + 1) ==
      Grown(p, i).(idle := Grown(p, i).idle + [p.created + i], created := p.created + i + 1, tick := p.tick + i + 1)
  {
    assert Fresh(p.created, i + 1) == Fresh(p.created, i) + [p.created + i];
  }

  lemma {:induction false} GrantedIs(d: Driver, tick: nat, n: nat, m: nat)
    requires m <= n && (forall j :: tick <= j < tick + m ==> Grants(d, j)) && (m < n ==> !Grants(d, tick + m))
    ensures Granted(d, tick, n) == m
    decreases n
  {
    if m > 0 {
      assert Grants(d, tick);
      GrantedIs(d, tick + 1, n - 1, m - 1);
    }
  }

  // ---- what it keeps ----

  function Idle(p: Pool, c: Conn): nat { multiset(p.idle)[c] }

  function Lost(p: Pool, c: Conn): nat { multiset(p.lost)[c] }

  // q still holds what p held; every connection created since is idle or lost, once.
  ghost predicate Keeps(p: Pool, q: Pool) {
    && p.created <= q.created
    && forall c: Conn ::
         && Idle(p, c) <= Idle(q, c) && Lost(p, c) <= Lost(q, c)
         && Idle(q, c) + Lost(q, c) == Idle(p, c) + Lost(p, c) + if p.created <= c < q.created then 1 else 0
  }

  lemma KeepsTrans(p: Pool, q: Pool, r: Pool)
    requires Keeps(p, q) && Keeps(q, r)
    ensures Keeps(p, r)
  {
  }

  lemma {:induction false} FreshOnce(from: nat, n: nat, c: Conn)
    ensures multiset(Fresh(from, n))[c] == if from <= c < from + n then 1 else 0
  {
    if n > 0 {
      FreshOnce(from, n - 1, c);
      assert Fresh(from, n) == Fresh(from, n - 1) + [from + n - 1];
    } else {
      assert Fresh(from, n) == [];
    }
  }

  lemma GrownKeeps(p: Pool, m: nat)
    ensures Keeps(p, Grown(p, m))
  {
    forall c: Conn ensures Idle(Grown(p, m), c) == Idle(p, c) + if p.created <= c < p.created + m then 1 else 0 {
      FreshOnce(p.created, m, c);
    }
  }

  lemma FillKeeps(p: Pool, size: int, d: Driver)
    ensures Keeps(p, Filled(p, size, d).pool)
  {
    GrownKeeps(p, Granted(d, p.tick, Wanted(size)));
  }

  lemma ValidateKeeps(p: Pool, d: Driver)
    requires p.idle != []
    ensures Keeps(p, Validate(p, d).pool)
  {
    assert p.idle == [p.idle[0]] + p.idle[1..];
  }

  // InitConnectionPool never destroys a connection, whatever fails.
  lemma InitKeeps(p: Pool, size: int, d: Driver)
    requires size > 0 || p.idle != []
    ensures Keeps(p, Init(p, size, d).pool)
  {
    var p1 := p.(size := size, tick := p.tick + 1);
    var a := Filled(p1, size, d);
    FillKeeps(p1, size, d);
    if d.instance(p.tick) && a.ok {
      ValidateKeeps(a.pool, d);
      KeepsTrans(p, a.pool, Validate(a.pool, d).pool);
    }
    InitStep(p, p1, size, d, a);
  }

  lemma InitStep(p: Pool, p1: Pool, size: int, d: Driver, a: Attempt)
    requires size > 0 || p.idle != []
    requires p1 == p.(size := size, tick := p.tick + 1) && a == Filled(p1, size, d)
    ensures Init(p, size, d) ==
      if !d.instance(p.tick) then Attempt(false, p1) else if a.ok then Validate(a.pool, d) else a
  {
  }

  // It creates the pool size or fewer, and reports success exactly when the driver is there, grants
  // them all and the connection then at the front is valid.
  lemma InitSucceedsIff(p: Pool, size: int, d: Driver)
    requires size > 0 || p.idle != []
    ensures Init(p, size, d).pool.created <= p.created + Wanted(size)
    ensures Init(p, size, d).ok <==>
      && d.instance(p.tick)
      && (forall j :: p.tick < j <= p.tick + Wanted(size) ==> Grants(d, j))
      && d.valid(p.tick + Wanted(size) + 1)
  {
    var m := Granted(d, p.tick + 1, Wanted(size));
    if m < Wanted(size) { assert !Grants(d, p.tick + 1 + m); }
  }

  function Multiple(n: nat, x: nat): nat { if n == 0 then 0 else x + Multiple(n - 1, x) }

  lemma {:induction false} ReconnectKeeps(p: Pool, d: Driver, i: nat)
    requires i <= RETRIES && Usable(p)
    ensures Keeps(p, ReconnectFrom(p, d, i).pool)
    decreases RETRIES - i
  {
    if i < RETRIES {
      var a := Init(p, p.size, d);
      InitKeeps(p, p.size, d);
      if !a.ok {
        ReconnectKeeps(a.pool, d, i + 1);
        KeepsTrans(p, a.pool, ReconnectFrom(a.pool, d, i + 1).pool);
      }
    }
  }

  lemma {:induction false} ReconnectMakes(p: Pool, d: Driver, i: nat)
    requires i <= RETRIES && Usable(p)
    ensures ReconnectFrom(p, d, i).pool.created <= p.created + Multiple(RETRIES - i, Wanted(p.size))
    decreases RETRIES - i
  {
    if i < RETRIES {
      var a := Init(p, p.size, d);
      InitSucceedsIff(p, p.size, d);
      if !a.ok { ReconnectMakes(a.pool, d, i + 1); }
    }
  }

  lemma RecoverStep(p: Pool, d: Driver, round: nat, a: Attempt)
    requires round < RETRIES && Usable(p) && a == ReconnectFrom(p, d, 0)
    ensures Recover(p, d, round) == if a.ok then a else Recover(a.pool, d, round + 1)
  {
  }

  lemma {:induction false} RecoverKeeps(p: Pool, d: Driver, round: nat)
    requires round <= RETRIES && Usable(p)
    ensures Keeps(p, Recover(p, d, round).pool)
    decreases RETRIES - round
  {
    if round < RETRIES {
      var a := ReconnectFrom(p, d, 0);
      ReconnectKeeps(p, d, 0);
      RecoverStep(p, d, round, a);
      if !a.ok {
        var b := Recover(a.pool, d, round + 1);
        RecoverKeeps(a.pool, d, round + 1);
        KeepsTrans(p, a.pool, b.pool);
      }
    }
  }

  lemma {:induction false} RecoverMakes(p: Pool, d: Driver, round: nat)
    requires round <= RETRIES && Usable(p)
    ensures Recover(p, d, round).pool.created <=
      p.created + Multiple(RETRIES - round, Multiple(RETRIES, Wanted(p.size)))
    decreases RETRIES - round
  {
    if round < RETRIES {
      var a := ReconnectFrom(p, d, 0);
      ReconnectMakes(p, d, 0);
      if !a.ok { RecoverMakes(a.pool, d, round + 1); }
    }
  }

  lemma {:induction false} MultipleIs(n: nat, x: nat)
    ensures Multiple(n, x) == n * x
  {
    if n > 0 { MultipleIs(n - 1, x); }
  }

  lemma NineTimes(x: nat)
    ensures Multiple(RETRIES, Multiple(RETRIES, x)) == 9 * x
  {
    MultipleIs(RETRIES, x);
    MultipleIs(RETRIES, 3 * x);
  }

  // One HandleDBException adds at most nine times the pool size, and destroys nothing.
  lemma RecoveryBound(p: Pool, d: Driver)
    requires Usable(p)
    ensures Keeps(p, Recover(p, d, 0).pool)
    ensures Recover(p, d, 0).pool.created <= p.created + 9 * Wanted(p.size)
  {
    RecoverKeeps(p, d, 0);
    RecoverMakes(p, d, 0);
    NineTimes(Wanted(p.size));
  }

  // A database that accepts connections and answers no query.
  ghost predicate Mute(d: Driver) { forall j: nat :: d.instance(j) && Grants(d, j) && !d.valid(j) }

  lemma MuteInit(p: Pool, d: Driver)
    requires Usable(p) && Mute(d)
    ensures !Init(p, p.size, d).ok
    ensures Init(p, p.size, d).pool.created == p.created + Wanted(p.size)
  {
    assert !d.valid(p.tick + Wanted(p.size) + 1);
    assert d.instance(p.tick);
    assert Grants(d, p.tick + 1 + Granted(d, p.tick + 1, Wanted(p.size)));
  }

  lemma {:induction false} MuteReconnect(p: Pool, d: Driver, i: nat)
    requires i <= RETRIES && Usable(p) && Mute(d)
    ensures !ReconnectFrom(p, d, i).ok
    ensures ReconnectFrom(p, d, i).pool.created == p.created + Multiple(RETRIES - i, Wanted(p.size))
    decreases RETRIES - i
  {
    if i < RETRIES {
      MuteInit(p, d);
      MuteReconnect(Init(p, p.size, d).pool, d, i + 1);
    }
  }

  lemma {:induction false} MuteRecover(p: Pool, d: Driver, round: nat)
    requires round <= RETRIES && Usable(p) && Mute(d)
    ensures !Recover(p, d, round).ok
    ensures Recover(p, d, round).pool.created ==
      p.created + Multiple(RETRIES - round, Multiple(RETRIES, Wanted(p.size)))
    decreases RETRIES - round
  {
    if round < RETRIES {
      MuteReconnect(p, d, 0);
      MuteRecover(ReconnectFrom(p, d, 0).pool, d, round + 1);
    }
  }

  // The bound is attained, and the recovery fails all the same.
  lemma RecoveryIsTight(p: Pool, d: Driver)
    requires Usable(p) && Mute(d)
    ensures !Recover(p, d, 0).ok
    ensures Recover(p, d, 0).pool.created == p.created + 9 * Wanted(p.size)
  {
    MuteRecover(p, d, 0);
    NineTimes(Wanted(p.size));
  }

  // A call gives back what it took exactly when it ends without an exception other than SQLException.
  lemma CallKeepsIff(p: Pool, o: Outcome)
    requires p.idle != []
    ensures Keeps(p, Call(p, o)) <==> !o.OtherError?
    ensures o.OtherError? ==>
      && Idle(Call(p, o), p.idle[0]) == Idle(p, p.idle[0]) - 1
      && Lost(Call(p, o), p.idle[0]) == Lost(p, p.idle[0]) + 1
  {
    assert p.idle == [p.idle[0]] + p.idle[1..];
    assert Idle(p, p.idle[0]) > 0;
  }

  // ---- every caller at once ----

  // Where a thread is. Filling: inside InitConnectionPool, in try `try` of round `round` of
  // HandleDBException, with `made` connections pushed. Checking: between the two halves of
  // ValidateConnection.
  datatype Caller =
    | Free
    | Using(conn: Conn)
    | Filling(round: nat, try: nat, made: nat)
    | Checking(round: nat, try: nat, conn: Conn)

  // `recoveries` is history: calls of HandleDBException.
  datatype State = State(idle: seq<Conn>, created: nat, size: nat, callers: seq<Caller>, lost: seq<Conn>,
                         recoveries: nat)

  datatype Step =
    | Take(t: nat)                                 // GetConnection in a data-access object
    | End(t: nat, outcome: Outcome)                // its statement ends
    | BeginRecovery(t: nat)                        // HandleDBException
    | Create(t: nat)                               // one more connection is pushed
    | Refuse(t: nat, leaks: bool)                  // no driver or no connection; or one opened and dropped
    | Escape(t: nat, leaks: bool)                  // the same by another exception: it ends the recovery
    | TakeToCheck(t: nat)                          // GetConnection in ValidateConnection
    | Verdict(t: nat, outcome: Outcome, valid: bool)

  // After a failed InitConnectionPool: Reconnect tries three times, HandleDBException three rounds.
  function Again(round: nat, try: nat): Caller {
    if try + 1 < RETRIES then Filling(round, try + 1, 0)
    else if round + 1 < RETRIES then Filling(round + 1, 0, 0)
    else Free
  }

  ghost predicate Enabled(s: State, step: Step) {
    step.t < |s.callers| &&
    var c := s.callers[step.t];
    match step
    case Take(_) => c.Free? && s.idle != []
    case End(_, _) => c.Using?
    case BeginRecovery(_) => c.Free?
    case Create(_) => c.Filling? && c.made < s.size
    case Refuse(_, leaks) => c.Filling? && (c.made < s.size || (c.made == 0 && !leaks))
    case Escape(_, leaks) => c.Filling? && (c.made < s.size || (c.made == 0 && !leaks))
    case TakeToCheck(_) => c.Filling? && c.made == s.size && s.idle != []
    case Verdict(_, _, _) => c.Checking?
  }

  function Put(s: State, t: nat, c: Caller): State
    requires t < |s.callers|
  {
    s.(callers := s.callers[t := c])
  }

  // Taken connections come back unless an exception other than SQLException goes past the release.
  function Finish(s: State, t: nat, conn: Conn, outcome: Outcome, c: Caller): State
    requires t < |s.callers|
  {
    if outcome.OtherError? then Put(s, t, Free).(lost := s.lost + [conn])
    else Put(s, t, c).(idle := Returned(s.idle, conn))
  }

  function Refused(s: State, t: nat, leaks: bool, c: Caller): State
    requires t < |s.callers|
  {
    if leaks then Put(s, t, c).(created := s.created + 1, lost := s.lost + [s.created]) else Put(s, t, c)
  }

  ghost function Next(s: State, step: Step): State
    requires Enabled(s, step)
  {
    var t, c := step.t, s.callers[step.t];
    match step
    case Take(_) => Put(s, t, Using(s.idle[0])).(idle := Taken(s.idle))
    case End(_, outcome) => Finish(s, t, c.conn, outcome, Free)
    case BeginRecovery(_) => Put(s, t, Filling(0, 0, 0)).(recoveries := s.recoveries + 1)
    case Create(_) =>
      Put(s, t, c.(made := c.made + 1)).(idle := Returned(s.idle, s.created), created := s.created + 1)
    case Refuse(_, leaks) => Refused(s, t, leaks, Again(c.round, c.try))
    case Escape(_, leaks) => Refused(s, t, leaks, Free)
    case TakeToCheck(_) => Put(s, t, Checking(c.round, c.try, s.idle[0])).(idle := Taken(s.idle))
    case Verdict(_, outcome, valid) =>
      Finish(s, t, c.conn, outcome, if outcome.Done? && valid then Free else Again(c.round, c.try))
  }

  ghost predicate ValidRun(s: State, steps: seq<Step>)
    decreases |steps|
  {
    steps != [] ==> Enabled(s, steps[0]) && ValidRun(Next(s, steps[0]), steps[1..])
  }

  ghost function Exec(s: State, steps: seq<Step>): State
    requires ValidRun(s, steps)
    decreases |steps|
  {
    if steps == [] then s else Exec(Next(s, steps[0]), steps[1..])
  }

  // ---- ownership ----

  predicate Holds(c: Caller, conn: Conn) { (c.Using? || c.Checking?) && c.conn == conn }

  function One(b: bool): nat { if b then 1 else 0 }

  // How many callers hold the connection.
  function Lent(callers: seq<Caller>, conn: Conn): nat {
    if callers == [] then 0
    else Lent(callers[..|callers| - 1], conn) + One(Holds(callers[|callers| - 1], conn))
  }

  function Places(s: State, conn: Conn): nat {
    multiset(s.idle)[conn] + Lent(s.callers, conn) + multiset(s.lost)[conn]
  }

  // Every created connection is in one place: idle, lent to one caller, or lost.
  ghost predicate Owned(s: State) {
    forall conn: Conn :: Places(s, conn) == One(conn < s.created)
  }

  lemma {:induction false} LentPut(callers: seq<Caller>, t: nat, c: Caller, conn: Conn)
    requires t < |callers|
    ensures Lent(callers[t := c], conn) == Lent(callers, conn) - One(Holds(callers[t], conn)) + One(Holds(c, conn))
  {
    var n := |callers| - 1;
    if t == n {
      assert callers[t := c][..n] == callers[..n];
    } else {
      assert callers[t := c][..n] == callers[..n][t := c];
      LentPut(callers[..n], t, c, conn);
    }
  }

  lemma {:induction false} NobodyHolds(callers: seq<Caller>, conn: Conn)
    ensures Lent(callers, conn) == 0 <==> forall t :: 0 <= t < |callers| ==> !Holds(callers[t], conn)
  {
    if callers != [] { NobodyHolds(callers[..|callers| - 1], conn); }
  }

  lemma TakeOwned(s: State, t: nat, c: Caller)
    requires Owned(s) && s.idle != [] && t < |s.callers|
    requires (s.callers[t].Free? || s.callers[t].Filling?) && Holds(c, s.idle[0])
    ensures Owned(Put(s, t, c).(idle := Taken(s.idle)))
  {
    var s' := Put(s, t, c).(idle := Taken(s.idle));
    assert s.idle == [s.idle[0]] + s'.idle;
    forall conn: Conn ensures Places(s', conn) == Places(s, conn) {
      LentPut(s.callers, t, c, conn);
    }
  }

  lemma FinishOwned(s: State, t: nat, conn: Conn, outcome: Outcome, c: Caller)
    requires Owned(s) && t < |s.callers| && Holds(s.callers[t], conn) && (c.Free? || c.Filling?)
    ensures Owned(Finish(s, t, conn, outcome, c))
  {
    var s' := Finish(s, t, conn, outcome, c);
    forall other: Conn ensures Places(s', other) == Places(s, other) {
      LentPut(s.callers, t, s'.callers[t], other);
    }
  }

  lemma CreateOwned(s: State, t: nat, c: Caller)
    requires Owned(s) && t < |s.callers| && s.callers[t].Filling? && c.Filling?
    ensures Owned(Put(s, t, c).(idle := Returned(s.idle, s.created), created := s.created + 1))
  {
    var s' := Put(s, t, c).(idle := Returned(s.idle, s.created), created := s.created + 1);
    forall conn: Conn ensures Places(s', conn) == Places(s, conn) + One(conn == s.created) {
      LentPut(s.callers, t, c, conn);
    }
  }

  lemma RefuseOwned(s: State, t: nat, leaks: bool, c: Caller)
    requires Owned(s) && t < |s.callers| && s.callers[t].Filling? && (c.Free? || c.Filling?)
    ensures Owned(Refused(s, t, leaks, c))
  {
    var s' := Refused(s, t, leaks, c);
    forall conn: Conn ensures Places(s', conn) == Places(s, conn) + One(leaks && conn == s.created) {
      LentPut(s.callers, t, c, conn);
    }
  }

  lemma PutOwned(s: State, t: nat, c: Caller, n: nat)
    requires Owned(s) && t < |s.callers| && (s.callers[t].Free? || s.callers[t].Filling?) && (c.Free? || c.Filling?)
    ensures Owned(Put(s, t, c).(recoveries := n))
  {
    var s' := Put(s, t, c).(recoveries := n);
    forall conn: Conn ensures Places(s', conn) == Places(s, conn) { LentPut(s.callers, t, c, conn); }
  }

  lemma StepKeepsOwned(s: State, step: Step)
    requires Owned(s) && Enabled(s, step)
    ensures Owned(Next(s, step))
  {
    var t, c := step.t, s.callers[step.t];
    match step
    case Take(_) => TakeOwned(s, t, Using(s.idle[0]));
    case End(_, outcome) => FinishOwned(s, t, c.conn, outcome, Free);
    case BeginRecovery(_) => PutOwned(s, t, Filling(0, 0, 0), s.recoveries + 1);
    case Create(_) => CreateOwned(s, t, c.(made := c.made + 1));
    case Refuse(_, leaks) => RefuseOwned(s, t, leaks, Again(c.round, c.try));
    case Escape(_, leaks) => RefuseOwned(s, t, leaks, Free);
    case TakeToCheck(_) => TakeOwned(s, t, Checking(c.round, c.try, s.idle[0]));
    case Verdict(_, outcome, valid) =>
      FinishOwned(s, t, c.conn, outcome, if outcome.Done? && valid then Free else Again(c.round, c.try));
  }

  // ---- how many connections the recoveries create ----

  // How many times InitConnectionPool can still run in this recovery, this time included.
  function Tries(round: nat, try: nat): nat {
    if round < RETRIES && try < RETRIES then 9 - 3 * round - try else 0
  }

  // What a caller may still create in the recovery it is in.
  function Left(c: Caller, size: nat): int {
    match c
    case Filling(round, try, made) => Multiple(Tries(round, try), size) - made
    case Checking(round, try, _) => Multiple(Tries(round, try), size) - size
    case _ => 0
  }

  predicate InRange(c: Caller, size: nat) {
    match c
    case Filling(round, try, made) => round < RETRIES && try < RETRIES && made <= size
    case Checking(round, try, _) => round < RETRIES && try < RETRIES
    case _ => true
  }

  function LeftOfAll(callers: seq<Caller>, size: nat): int {
    if callers == [] then 0
    else LeftOfAll(callers[..|callers| - 1], size) + Left(callers[|callers| - 1], size)
  }

  lemma {:induction false} LeftPut(callers: seq<Caller>, t: nat, c: Caller, size: nat)
    requires t < |callers|
    ensures LeftOfAll(callers[t := c], size) == LeftOfAll(callers, size) - Left(callers[t], size) + Left(c, size)
  {
    var n := |callers| - 1;
    if t == n {
      assert callers[t := c][..n] == callers[..n];
    } else {
      assert callers[t := c][..n] == callers[..n][t := c];
      LeftPut(callers[..n], t, c, size);
    }
  }

  lemma {:induction false} NothingOwed(callers: seq<Caller>, size: nat)
    requires AllInRange(callers, size)
    ensures LeftOfAll(callers, size) >= 0
  {
    if callers != [] {
      var n := |callers| - 1;
      NothingOwed(callers[..n], size);
      LeftIsNat(callers[n], size);
    }
  }

  lemma LeftIsNat(c: Caller, size: nat)
    requires InRange(c, size)
    ensures Left(c, size) >= 0
  {
    match c
    case Filling(round, try, made) => TriesScale(round, try, size);
    case Checking(round, try, _) => TriesScale(round, try, size);
    case _ =>
  }

  lemma TriesScale(round: nat, try: nat, size: nat)
    requires round < RETRIES && try < RETRIES
    ensures Tries(round, try) >= 1
    ensures Multiple(Tries(round, try), size) >= size
    ensures Left(Again(round, try), size) <= Multiple(Tries(round, try), size) - size
    ensures InRange(Again(round, try), size)
  {
    var n := Tries(round, try);
    assert Multiple(n, size) == size + Multiple(n - 1, size);
    if try + 1 < RETRIES { assert Tries(round, try + 1) == n - 1; }
    else if round + 1 < RETRIES { assert Tries(round + 1, 0) == n - 1; }
  }

  ghost predicate AllInRange(callers: seq<Caller>, size: nat) {
    forall t :: 0 <= t < |callers| ==> InRange(callers[t], size)
  }

  // From a start with `base` connections, what exists and what may still come is paid for by the
  // recoveries begun.
  ghost predicate Budget(s: State, base: nat) {
    && AllInRange(s.callers, s.size)
    && s.created + LeftOfAll(s.callers, s.size) <= base + Multiple(s.recoveries, Multiple(9, s.size))
  }

  lemma StepKeepsBudget(s: State, step: Step, base: nat)
    requires Budget(s, base) && Enabled(s, step)
    ensures Budget(Next(s, step), base)
  {
    var s' := Next(s, step);
    StepShape(s, step, s');
    CallerPays(s, step, s');
    BudgetMoves(s, s', step.t, if step.BeginRecovery? then 1 else 0, base);
  }

  lemma BudgetMoves(s: State, s': State, t: nat, begun: nat, base: nat)
    requires Budget(s, base) && t < |s.callers| && |s'.callers| == |s.callers| && begun <= 1
    requires s'.callers == s.callers[t := s'.callers[t]] && s'.size == s.size && s'.recoveries == s.recoveries + begun
    requires InRange(s'.callers[t], s.size)
    requires s'.created + Left(s'.callers[t], s.size)
             <= s.created + Left(s.callers[t], s.size) + if begun == 1 then Multiple(9, s.size) else 0
    ensures Budget(s', base)
  {
    LeftPut(s.callers, t, s'.callers[t], s.size);
  }

  lemma StepShape(s: State, step: Step, s': State)
    requires Enabled(s, step) && s' == Next(s, step)
    ensures |s'.callers| == |s.callers| && s'.callers == s.callers[step.t := s'.callers[step.t]]
    ensures s'.size == s.size && s'.recoveries == s.recoveries + One(step.BeginRecovery?)
  {
  }

  // Each step pays for what it creates out of what its caller may still create.
  lemma CallerPays(s: State, step: Step, s': State)
    requires Enabled(s, step) && InRange(s.callers[step.t], s.size) && s' == Next(s, step)
    ensures InRange(s'.callers[step.t], s.size)
    ensures s'.created + Left(s'.callers[step.t], s.size)
            <= s.created + Left(s.callers[step.t], s.size) + if step.BeginRecovery? then Multiple(9, s.size) else 0
  {
    var c := s.callers[step.t];
    if c.Filling? || c.Checking? { TriesScale(c.round, c.try, s.size); }
  }

  // ---- over every interleaving ----

  ghost predicate AllFree(callers: seq<Caller>) { forall t :: 0 <= t < |callers| ==> callers[t].Free? }

  // The pool right after start-up: InitConnectionPool has run and no request has.
  ghost predicate Initial(s: State) {
    && s.idle == Fresh(0, s.created) && s.lost == [] && s.recoveries == 0
    && AllFree(s.callers)
  }

  lemma {:induction false} InitialBudget(callers: seq<Caller>, size: nat)
    requires AllFree(callers)
    ensures LeftOfAll(callers, size) == 0
  {
    if callers != [] { InitialBudget(callers[..|callers| - 1], size); }
  }

  lemma {:induction false} RunKeeps(s: State, steps: seq<Step>, base: nat)
    requires Owned(s) && Budget(s, base) && ValidRun(s, steps)
    ensures Owned(Exec(s, steps)) && Budget(Exec(s, steps), base) && Exec(s, steps).size == s.size
    decreases |steps|
  {
    if steps != [] {
      StepKeepsOwned(s, steps[0]);
      StepKeepsBudget(s, steps[0], base);
      RunKeeps(Next(s, steps[0]), steps[1..], base);
    }
  }

  lemma InitialHolds(s: State)
    requires Initial(s)
    ensures Owned(s) && Budget(s, s.created)
  {
    InitialBudget(s.callers, s.size);
    forall conn: Conn ensures Places(s, conn) == One(conn < s.created) {
      FreshOnce(0, s.created, conn);
      NobodyHolds(s.callers, conn);
    }
  }

  // In every interleaving the idle, lent and lost connections partition those created.
  lemma PartitionOverRuns(s: State, steps: seq<Step>)
    requires Initial(s) && ValidRun(s, steps)
    ensures Owned(Exec(s, steps))
  {
    InitialHolds(s);
    RunKeeps(s, steps, s.created);
  }

  // No connection is lent to two callers, or lent while another caller could be given it.
  lemma LentOnce(s: State, steps: seq<Step>, t: nat, conn: Conn)
    requires Initial(s) && ValidRun(s, steps)
    requires t < |Exec(s, steps).callers| && Holds(Exec(s, steps).callers[t], conn)
    ensures var e := Exec(s, steps);
            && conn < e.created && conn !in e.idle
            && forall u :: 0 <= u < |e.callers| && u != t ==> !Holds(e.callers[u], conn)
  {
    PartitionOverRuns(s, steps);
    var e := Exec(s, steps);
    LentPut(e.callers, t, Free, conn);
    NobodyHolds(e.callers[t := Free], conn);
    assert Places(e, conn) <= 1;
    forall u | 0 <= u < |e.callers| && u != t ensures !Holds(e.callers[u], conn) {
      assert e.callers[u] == e.callers[t := Free][u];
    }
  }

  // However the recoveries interleave, each adds at most nine times the pool size.
  lemma CreationBound(s: State, steps: seq<Step>)
    requires Initial(s) && ValidRun(s, steps)
    ensures Exec(s, steps).created <= s.created + Exec(s, steps).recoveries * (9 * s.size)
  {
    InitialHolds(s);
    RunKeeps(s, steps, s.created);
    var e := Exec(s, steps);
    NothingOwed(e.callers, s.size);
    MultipleIs(9, s.size);
    MultipleIs(e.recoveries, 9 * s.size);
  }

  // The two ways to lose a connection: an exception other than SQLException goes past the release,
  // or the set-up of a connection just opened fails.
  predicate Loses(step: Step) {
    ((step.End? || step.Verdict?) && step.outcome.OtherError?) || ((step.Refuse? || step.Escape?) && step.leaks)
  }

  lemma {:induction false} LostIff(s: State, steps: seq<Step>)
    requires ValidRun(s, steps)
    ensures Exec(s, steps).lost == [] <==> s.lost == [] && forall k :: 0 <= k < |steps| ==> !Loses(steps[k])
    decreases |steps|
  {
    if steps != [] {
      LostIff(Next(s, steps[0]), steps[1..]);
      assert steps == [steps[0]] + steps[1..];
    }
  }

  // When every caller is done, the pool is whole exactly when no step of the run lost a connection.
  lemma WholeAtRestIff(s: State, steps: seq<Step>)
    requires Initial(s) && ValidRun(s, steps) && AllFree(Exec(s, steps).callers)
    ensures var e := Exec(s, steps);
            && (forall conn: Conn :: conn in e.idle <==> conn < e.created && conn !in e.lost)
            && ((forall conn: Conn :: conn < e.created ==> conn in e.idle) <==>
                forall k :: 0 <= k < |steps| ==> !Loses(steps[k]))
  {
    PartitionOverRuns(s, steps);
    LostIff(s, steps);
    var e := Exec(s, steps);
    forall conn: Conn
      ensures conn in e.idle <==> conn < e.created && conn !in e.lost
      ensures conn in e.lost ==> conn < e.created && conn !in e.idle
    {
      NobodyHolds(e.callers, conn);
      assert Places(e, conn) == One(conn < e.created);
    }
    if e.lost != [] { assert e.lost[0] in e.lost; }
  }

  // ---- the retry loops are runs of one caller ----

  ghost predicate Mirrors(s: State, p: Pool) {
    s.idle == p.idle && s.lost == p.lost && s.created == p.created && s.size == p.size
  }

  // The state when caller t has reached `c` and left the pool as q.
  function WithPool(s: State, t: nat, q: Pool, c: Caller): State
    requires t < |s.callers|
  {
    Put(s, t, c).(idle := q.idle, lost := q.lost, created := q.created)
  }

  lemma {:induction false} RunAppend(s: State, xs: seq<Step>, ys: seq<Step>)
    requires ValidRun(s, xs) && ValidRun(Exec(s, xs), ys)
    ensures ValidRun(s, xs + ys) && Exec(s, xs + ys) == Exec(Exec(s, xs), ys)
    decreases |xs|
  {
    if xs == [] {
      assert xs + ys == ys;
    } else {
      RunAppend(Next(s, xs[0]), xs[1..], ys);
      assert (xs + ys)[1..] == xs[1..] + ys;
    }
  }

  ghost predicate Reaches(s: State, e: State) {
    exists steps :: ValidRun(s, steps) && Exec(s, steps) == e
  }

  lemma ReachesSelf(s: State)
    ensures Reaches(s, s)
  {
    assert ValidRun(s, []) && Exec(s, []) == s;
  }

  lemma ReachesNext(s: State, step: Step, e: State)
    requires Enabled(s, step) && Reaches(Next(s, step), e)
    ensures Reaches(s, e)
  {
    var rest :| ValidRun(Next(s, step), rest) && Exec(Next(s, step), rest) == e;
    var steps := [step] + rest;
    assert steps[1..] == rest;
    assert ValidRun(s, steps);
  }

  lemma ReachesTrans(s: State, e: State, f: State)
    requires Reaches(s, e) && Reaches(e, f)
    ensures Reaches(s, f)
  {
    var xs :| ValidRun(s, xs) && Exec(s, xs) == e;
    var ys :| ValidRun(e, ys) && Exec(e, ys) == f;
    RunAppend(s, xs, ys);
  }

  lemma {:induction false} FillIsRun(s: State, t: nat, p: Pool, c: Caller, m: nat)
    requires t < |s.callers| && s.callers[t] == c && Mirrors(s, p) && c.Filling? && c.made + m <= s.size
    ensures Reaches(s, WithPool(s, t, Grown(p, m), c.(made := c.made + m)))
    decreases m
  {
    if m == 0 {
      assert Fresh(p.created, 0) == [];
      assert WithPool(s, t, Grown(p, m), c) == s;
      ReachesSelf(s);
    } else {
      var s1, c1 := Next(s, Create(t)), c.(made := c.made + 1);
      var p1 := p.(idle := Returned(p.idle, p.created), created := p.created + 1);
      FillIsRun(s1, t, p1, c1, m - 1);
      assert Fresh(p.created, m) == [p.created] + Fresh(p.created + 1, m - 1);
      assert WithPool(s1, t, Grown(p1, m - 1), c1.(made := c.made + m)) ==
        WithPool(s, t, Grown(p, m), c.(made := c.made + m));
      ReachesNext(s, Create(t), WithPool(s, t, Grown(p, m), c.(made := c.made + m)));
    }
  }

  lemma RefuseIsRun(s: State, t: nat, p: Pool, leaks: bool)
    requires t < |s.callers| && s.callers[t].Filling? && Mirrors(s, p) && Enabled(s, Refuse(t, leaks))
    ensures Reaches(s, WithPool(s, t, if leaks then Dropped(p) else p, Again(s.callers[t].round, s.callers[t].try)))
  {
    var e := Next(s, Refuse(t, leaks));
    ReachesSelf(e);
    ReachesNext(s, Refuse(t, leaks), e);
  }

  lemma ValidateIsRun(s: State, t: nat, p: Pool, d: Driver)
    requires t < |s.callers| && s.callers[t].Filling? && Mirrors(s, p) && Enabled(s, TakeToCheck(t))
    ensures var c, a := s.callers[t], Validate(p, d);
            Reaches(s, WithPool(s, t, a.pool, if a.ok then Free else Again(c.round, c.try)))
  {
    var c, a := s.callers[t], Validate(p, d);
    var s1 := Next(s, TakeToCheck(t));
    var e := Next(s1, Verdict(t, Done, a.ok));
    ReachesSelf(e);
    ReachesNext(s1, Verdict(t, Done, a.ok), e);
    ReachesNext(s, TakeToCheck(t), e);
    assert e == WithPool(s, t, a.pool, if a.ok then Free else Again(c.round, c.try));
  }

  lemma FilledIsRun(s: State, t: nat, p: Pool, d: Driver, round: nat, try: nat, a: Attempt, b: Attempt)
    requires t < |s.callers| && s.callers[t] == Filling(round, try, 0) && Mirrors(s, p) && Usable(p)
    requires a == Filled(p, p.size, d) && b == if a.ok then Validate(a.pool, d) else a
    ensures Reaches(s, WithPool(s, t, b.pool, if b.ok then Free else Again(round, try)))
  {
    var m := Granted(d, p.tick, Wanted(p.size));
    var s1 := WithPool(s, t, Grown(p, m), Filling(round, try, m));
    FillIsRun(s, t, p, Filling(round, try, 0), m);
    if a.ok { ValidateIsRun(s1, t, a.pool, d); } else { RefuseIsRun(s1, t, Grown(p, m), d.connects(p.tick + m)); }
    var e := WithPool(s1, t, b.pool, if b.ok then Free else Again(round, try));
    ReachesTrans(s, s1, e);
    assert e == WithPool(s, t, b.pool, if b.ok then Free else Again(round, try));
  }

  lemma InitIsRun(s: State, t: nat, p: Pool, d: Driver, round: nat, try: nat)
    requires t < |s.callers| && s.callers[t] == Filling(round, try, 0) && Mirrors(s, p) && Usable(p)
    ensures var a := Init(p, p.size, d);
            Reaches(s, WithPool(s, t, a.pool, if a.ok then Free else Again(round, try)))
  {
    var p1 := p.(tick := p.tick + 1);
    var a := Filled(p1, p.size, d);
    InitStep(p, p1, p.size, d, a);
    if d.instance(p.tick) {
      FilledIsRun(s, t, p1, d, round, try, a, Init(p, p.size, d));
    } else {
      RefuseIsRun(s, t, p1, false);
    }
  }

  // What is left of HandleDBException from try `try` of round `round` on.
  function RecoverFrom(p: Pool, d: Driver, round: nat, try: nat): Attempt
    requires round < RETRIES && try < RETRIES && Usable(p)
  {
    var a := ReconnectFrom(p, d, try);
    if a.ok then a else Recover(a.pool, d, round + 1)
  }

  lemma RecoverFromStep(p: Pool, d: Driver, round: nat, try: nat, a: Attempt)
    requires round < RETRIES && try < RETRIES && Usable(p) && a == Init(p, p.size, d)
    ensures RecoverFrom(p, d, round, try) ==
      if a.ok then a
      else if try + 1 < RETRIES then RecoverFrom(a.pool, d, round, try + 1)
      else if round + 1 < RETRIES then RecoverFrom(a.pool, d, round + 1, 0)
      else Attempt(false, a.pool)
  {
    if !a.ok && try + 1 == RETRIES {
      assert ReconnectFrom(a.pool, d, RETRIES) == Attempt(false, a.pool);
      if round + 1 == RETRIES { assert Recover(a.pool, d, RETRIES) == Attempt(false, a.pool); }
    }
  }

  lemma {:induction false} RecoverIsRun(s: State, t: nat, p: Pool, d: Driver, round: nat, try: nat)
    requires round < RETRIES && try < RETRIES && Usable(p)
    requires t < |s.callers| && s.callers[t] == Filling(round, try, 0) && Mirrors(s, p)
    ensures Reaches(s, WithPool(s, t, RecoverFrom(p, d, round, try).pool, Free))
    decreases RETRIES - round, RETRIES - try
  {
    var a, c := Init(p, p.size, d), Again(round, try);
    InitIsRun(s, t, p, d, round, try);
    RecoverFromStep(p, d, round, try, a);
    if !a.ok && c.Filling? {
      var s1, b := WithPool(s, t, a.pool, c), RecoverFrom(a.pool, d, c.round, c.try);
      RecoverIsRun(s1, t, a.pool, d, c.round, c.try);
      SamePlace(s, t, a.pool, c, b.pool);
      ReachesTrans(s, s1, WithPool(s, t, b.pool, Free));
    }
  }

  lemma SamePlace(s: State, t: nat, p: Pool, c: Caller, q: Pool)
    requires t < |s.callers|
    ensures WithPool(WithPool(s, t, p, c), t, q, Free) == WithPool(s, t, q, Free)
  {
  }

  // HandleDBException as its two nested loops compute it is one interleaving of the protocol: the
  // one in which nobody else moves.
  lemma HandlerIsARun(s: State, t: nat, p: Pool, d: Driver)
    requires t < |s.callers| && s.callers[t].Free? && Mirrors(s, p) && Usable(p)
    ensures Reaches(s, WithPool(s, t, Recover(p, d, 0).pool, Free).(recoveries := s.recoveries + 1))
  {
    var s1 := Next(s, BeginRecovery(t));
    var e := WithPool(s1, t, RecoverFrom(p, d, 0, 0).pool, Free);
    RecoverIsRun(s1, t, p, d, 0, 0);
    ReachesNext(s, BeginRecovery(t), e);
    assert e == WithPool(s, t, Recover(p, d, 0).pool, Free).(recoveries := s.recoveries + 1);
  }
}
