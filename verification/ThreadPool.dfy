// The worker pool as a concurrent protocol: SubmitTask, WorkerThread and the destructor, cut at
// every point where another thread can run.
module ThreadPool {

  type Task = nat

  // Where a worker is in its loop. Deciding: it holds the mutex, has found nothing to do and is
  // about to block on the condition variable.
  datatype Worker = Asleep | Awake | Deciding | Running(task: Task) | Exited

  // `pending` counts SubmitTask calls between their push and their notify_one. The last four fields
  // are the history: tasks pushed, taken and finished, and whether one was pushed after stop.
  datatype Pool = Pool(
    queue: seq<Task>, stop: bool, active: int, workers: seq<Worker>, pending: nat,
    submitted: seq<Task>, taken: seq<Task>, finished: seq<Task>, late: bool)

  datatype Step =
    | Push(task: Task)      // SubmitTask, inside its lock
    | Notify(w: nat)        // SubmitTask, notify_one: wakes worker w if anybody sleeps
    | Spurious(w: nat)      // a condition variable may wake by itself
    | Check(w: nat)         // WorkerThread, inside its lock
    | Sleep(w: nat)         // the wait blocks and releases the lock
    | Finish(w: nat)        // the task returns
    | SetStop               // destructor, without the lock
    | NotifyAll             // destructor, notify_all

  predicate At(p: Pool, w: nat, state: Worker) { w < |p.workers| && p.workers[w] == state }

  ghost predicate Free(p: Pool) { forall w :: 0 <= w < |p.workers| ==> !p.workers[w].Deciding? }

  ghost predicate NobodySleeps(p: Pool) { forall w :: 0 <= w < |p.workers| ==> !p.workers[w].Asleep? }

  ghost predicate Enabled(p: Pool, step: Step) {
    match step
    case Push(t) => Free(p)
    case Notify(w) => p.pending > 0 && (At(p, w, Asleep) || NobodySleeps(p))
    case Spurious(w) => At(p, w, Asleep)
    case Check(w) => At(p, w, Awake) && Free(p)
    case Sleep(w) => At(p, w, Deciding)
    case Finish(w) => w < |p.workers| && p.workers[w].Running?
    case SetStop => true
    case NotifyAll => p.stop
  }

  function Put(p: Pool, w: nat, state: Worker): Pool {
    if w < |p.workers| then p.(workers := p.workers[w := state]) else p
  }

  function CheckQueue(p: Pool, w: nat): Pool {
    if p.queue != [] then
      Put(p, w, Running(p.queue[0])).(queue := p.queue[1..], active := p.active + 1, taken := p.taken + [p.queue[0]])
    else if p.stop then Put(p, w, Exited)
    else Put(p, w, Deciding)
  }

  function WakeAll(workers: seq<Worker>): seq<Worker> {
    seq(|workers|, i requires 0 <= i < |workers| => if workers[i].Asleep? then Awake else workers[i])
  }

  function Next(p: Pool, step: Step): Pool {
    match step
    case Push(t) =>
      p.(queue := p.queue + [t], submitted := p.submitted + [t], pending := p.pending + 1, late := p.late || p.stop)
    case Notify(w) =>
      var q := if p.pending > 0 then p.(pending := p.pending - 1) else p;
      if At(p, w, Asleep) then Put(q, w, Awake) else q
    case Spurious(w) => Put(p, w, Awake)
    case Check(w) => CheckQueue(p, w)
    case Sleep(w) => Put(p, w, Asleep)
    case Finish(w) =>
      if w < |p.workers| && p.workers[w].Running?
      then Put(p, w, Awake).(active := p.active - 1, finished := p.finished + [p.workers[w].task]) else p
    case SetStop => p.(stop := true)
    case NotifyAll => p.(workers := WakeAll(p.workers))
  }

  ghost predicate Initial(p: Pool) {
    p == Pool([], false, 0, p.workers, 0, [], [], [], false) &&
    forall w :: 0 <= w < |p.workers| ==> p.workers[w] == Awake
  }

  function Exec(p: Pool, steps: seq<Step>): Pool {
    if steps == [] then p else Next(Exec(p, steps[..|steps| - 1]), steps[|steps| - 1])
  }

  ghost predicate ValidRun(p: Pool, steps: seq<Step>) {
    steps != [] ==>
      ValidRun(p, steps[..|steps| - 1]) && Enabled(Exec(p, steps[..|steps| - 1]), steps[|steps| - 1])
  }

  // ---- counting workers ----

  datatype Kind = Sleeper | Waker | Decider | Runner | Leaver

  function KindOf(w: Worker): Kind {
    match w
    case Asleep => Sleeper case Awake => Waker case Deciding => Decider case Running(_) => Runner case Exited => Leaver
  }

  function Count(workers: seq<Worker>, k: Kind): nat {
    if workers == [] then 0
    else Count(workers[..|workers| - 1], k) + if KindOf(workers[|workers| - 1]) == k then 1 else 0
  }

  // How many workers run task t.
  function RunsOf(workers: seq<Worker>, t: Task): nat {
    if workers == [] then 0
    else RunsOf(workers[..|workers| - 1], t) + if workers[|workers| - 1] == Running(t) then 1 else 0
  }

  function One(b: bool): nat { if b then 1 else 0 }

  lemma {:induction false} CountPut(workers: seq<Worker>, w: nat, state: Worker, k: Kind)
    requires w < |workers|
    ensures Count(workers[w := state], k) == Count(workers, k) + One(KindOf(state) == k) - One(KindOf(workers[w]) == k)
  {
    var n := |workers| - 1;
    if w == n {
      assert workers[w := state][..n] == workers[..n];
    } else {
      assert workers[w := state][..n] == workers[..n][w := state];
      CountPut(workers[..n], w, state, k);
    }
  }

  lemma {:induction false} RunsPut(workers: seq<Worker>, w: nat, state: Worker, t: Task)
    requires w < |workers|
    ensures RunsOf(workers[w := state], t) ==
      RunsOf(workers, t) + One(state == Running(t)) - One(workers[w] == Running(t))
  {
    var n := |workers| - 1;
    if w == n {
      assert workers[w := state][..n] == workers[..n];
    } else {
      assert workers[w := state][..n] == workers[..n][w := state];
      RunsPut(workers[..n], w, state, t);
    }
  }

  lemma {:induction false} CountZero(workers: seq<Worker>, k: Kind)
    ensures Count(workers, k) == 0 <==> forall w :: 0 <= w < |workers| ==> KindOf(workers[w]) != k
    ensures Count(workers, k) <= |workers|
  {
    if workers != [] { CountZero(workers[..|workers| - 1], k); }
  }

  lemma {:induction false} NoneRuns(workers: seq<Worker>, t: Task)
    requires forall w :: 0 <= w < |workers| ==> !workers[w].Running?
    ensures RunsOf(workers, t) == 0
  {
    if workers != [] { NoneRuns(workers[..|workers| - 1], t); }
  }

  lemma {:induction false} WakeAllCounts(workers: seq<Worker>)
    ensures forall t :: RunsOf(WakeAll(workers), t) == RunsOf(workers, t)
    ensures Count(WakeAll(workers), Runner) == Count(workers, Runner)
    ensures Count(WakeAll(workers), Sleeper) == 0
    ensures Count(WakeAll(workers), Decider) == Count(workers, Decider)
    ensures Count(WakeAll(workers), Leaver) == Count(workers, Leaver)
  {
    if workers != [] {
      var n := |workers| - 1;
      WakeAllCounts(workers[..n]);
      assert WakeAll(workers)[..n] == WakeAll(workers[..n]);
    }
  }

  // ---- the invariant ----

  function Occurrences(tasks: seq<Task>, t: Task): nat { multiset(tasks)[t] }

  // No task is lost or taken twice, and the counter counts the running workers.
  ghost predicate Conserved(p: Pool) {
    && p.submitted == p.taken + p.queue
    && (forall t :: Occurrences(p.taken, t) == Occurrences(p.finished, t) + RunsOf(p.workers, t))
    && p.active == Count(p.workers, Runner)
  }

  // No lost wakeup: while a worker sleeps, every queued task is covered by a wakeup on its way or a
  // worker that is already awake.
  ghost predicate Covered(p: Pool) {
    && (Count(p.workers, Sleeper) > 0 ==> |p.queue| <= p.pending + Count(p.workers, Waker))
    && (Count(p.workers, Decider) > 0 ==> p.queue == [])
  }

  // Workers leave only after stop, with an empty queue.
  ghost predicate Departures(p: Pool) {
    && (p.late ==> p.stop)
    && (Count(p.workers, Leaver) > 0 ==> p.stop && (p.late || p.queue == []))
  }

  ghost predicate Inv(p: Pool) { Conserved(p) && Covered(p) && Departures(p) }

  function CountAfter(p: Pool, w: nat, state: Worker, k: Kind): int
    requires w < |p.workers|
  {
    Count(p.workers, k) + One(KindOf(state) == k) - One(KindOf(p.workers[w]) == k)
  }

  function RunsAfter(p: Pool, w: nat, state: Worker, t: Task): int
    requires w < |p.workers|
  {
    RunsOf(p.workers, t) + One(state == Running(t)) - One(p.workers[w] == Running(t))
  }

  // Moving one worker from one kind to another.
  lemma PutCounts(p: Pool, w: nat, state: Worker)
    requires w < |p.workers|
    ensures Count(p.workers[w := state], Sleeper) == CountAfter(p, w, state, Sleeper)
    ensures Count(p.workers[w := state], Waker) == CountAfter(p, w, state, Waker)
    ensures Count(p.workers[w := state], Decider) == CountAfter(p, w, state, Decider)
    ensures Count(p.workers[w := state], Runner) == CountAfter(p, w, state, Runner)
    ensures Count(p.workers[w := state], Leaver) == CountAfter(p, w, state, Leaver)
  {
    CountPut(p.workers, w, state, Sleeper);
    CountPut(p.workers, w, state, Waker);
    CountPut(p.workers, w, state, Decider);
    CountPut(p.workers, w, state, Runner);
    CountPut(p.workers, w, state, Leaver);
  }

  lemma PutRuns(p: Pool, w: nat, state: Worker)
    requires w < |p.workers|
    ensures forall t {:trigger RunsOf(p.workers[w := state], t)} ::
      RunsOf(p.workers[w := state], t) == RunsAfter(p, w, state, t)
  {
    forall t ensures RunsOf(p.workers[w := state], t) == RunsAfter(p, w, state, t) {
      RunsPut(p.workers, w, state, t);
    }
  }

  lemma AppendOccurrences(tasks: seq<Task>, x: Task, t: Task)
    ensures Occurrences(tasks + [x], t) == Occurrences(tasks, t) + One(x == t)
  {
  }

  lemma TakeConserves(p: Pool, w: nat)
    requires Conserved(p) && At(p, w, Awake) && p.queue != []
    ensures Conserved(CheckQueue(p, w))
  {
    var q, x := CheckQueue(p, w), p.queue[0];
    PutCounts(p, w, Running(x));
    PutRuns(p, w, Running(x));
    assert p.queue == [x] + p.queue[1..];
    assert q.workers == Put(p, w, Running(x)).workers;
    forall t ensures Occurrences(q.taken, t) == Occurrences(q.finished, t) + RunsOf(q.workers, t) {
      AppendOccurrences(p.taken, x, t);
    }
  }

  lemma FinishConserves(p: Pool, w: nat)
    requires Conserved(p) && w < |p.workers| && p.workers[w].Running?
    ensures Conserved(Next(p, Finish(w)))
  {
    var q, x := Next(p, Finish(w)), p.workers[w].task;
    PutCounts(p, w, Awake);
    PutRuns(p, w, Awake);
    assert q.workers == Put(p, w, Awake).workers;
    forall t ensures Occurrences(q.taken, t) == Occurrences(q.finished, t) + RunsOf(q.workers, t) {
      AppendOccurrences(p.finished, x, t);
    }
  }

  // A worker that neither starts nor ends a task.
  lemma IdleMoveConserves(p: Pool, w: nat, state: Worker)
    requires Conserved(p) && w < |p.workers| && !p.workers[w].Running? && !state.Running?
    ensures Conserved(Put(p, w, state))
  {
    PutCounts(p, w, state);
    PutRuns(p, w, state);
  }

  lemma StepConserves(p: Pool, step: Step)
    requires Conserved(p) && Enabled(p, step)
    ensures Conserved(Next(p, step))
  {
    match step
    case Push(t) =>
    case Notify(w) => if At(p, w, Asleep) { IdleMoveConserves(p, w, Awake); }
    case Spurious(w) => IdleMoveConserves(p, w, Awake);
    case Check(w) =>
      if p.queue != [] { TakeConserves(p, w); } else { IdleMoveConserves(p, w, if p.stop then Exited else Deciding); }
    case Sleep(w) => IdleMoveConserves(p, w, Asleep);
    case Finish(w) => FinishConserves(p, w);
    case SetStop =>
    case NotifyAll => WakeAllCounts(p.workers);
  }

  lemma FreeCount(p: Pool)
    ensures Free(p) <==> Count(p.workers, Decider) == 0
    ensures NobodySleeps(p) <==> Count(p.workers, Sleeper) == 0
  {
    CountZero(p.workers, Decider);
    CountZero(p.workers, Sleeper);
    assert forall w :: 0 <= w < |p.workers| ==> (KindOf(p.workers[w]) == Decider <==> p.workers[w].Deciding?);
    assert forall w :: 0 <= w < |p.workers| ==> (KindOf(p.workers[w]) == Sleeper <==> p.workers[w].Asleep?);
  }

  lemma StepCovers(p: Pool, step: Step)
    requires Covered(p) && Enabled(p, step)
    ensures Covered(Next(p, step))
  {
    FreeCount(p);
    match step
    case Push(t) =>
    case Notify(w) => if At(p, w, Asleep) { PutCounts(p, w, Awake); }
    case Spurious(w) => PutCounts(p, w, Awake);
    case Check(w) =>
      PutCounts(p, w, if p.queue != [] then Running(p.queue[0]) else if p.stop then Exited else Deciding);
    case Sleep(w) =>
      PutCounts(p, w, Asleep);
      CountZero(p.workers, Decider);
      assert KindOf(p.workers[w]) == Decider;
    case Finish(w) => PutCounts(p, w, Awake);
    case SetStop =>
    case NotifyAll => WakeAllCounts(p.workers);
  }

  lemma StepDeparts(p: Pool, step: Step)
    requires Departures(p) && Enabled(p, step)
    ensures Departures(Next(p, step))
  {
    match step
    case Push(t) =>
    case Notify(w) => if At(p, w, Asleep) { PutCounts(p, w, Awake); }
    case Spurious(w) => PutCounts(p, w, Awake);
    case Check(w) =>
      PutCounts(p, w, if p.queue != [] then Running(p.queue[0]) else if p.stop then Exited else Deciding);
    case Sleep(w) => PutCounts(p, w, Asleep);
    case Finish(w) => PutCounts(p, w, Awake);
    case SetStop =>
    case NotifyAll => WakeAllCounts(p.workers);
  }

  lemma StepKeepsInv(p: Pool, step: Step)
    requires Inv(p) && Enabled(p, step)
    ensures Inv(Next(p, step))
  {
    StepConserves(p, step);
    StepCovers(p, step);
    StepDeparts(p, step);
  }

  // Every interleaving keeps the invariant, shutdown included.
  lemma {:induction false} RunsKeepInv(p: Pool, steps: seq<Step>)
    requires Inv(p) && ValidRun(p, steps)
    ensures Inv(Exec(p, steps))
  {
    if steps != [] {
      var before := steps[..|steps| - 1];
      RunsKeepInv(p, before);
      StepKeepsInv(Exec(p, before), steps[|steps| - 1]);
    }
  }

  lemma InitialInv(p: Pool)
    requires Initial(p)
    ensures Inv(p)
  {
    forall t ensures RunsOf(p.workers, t) == 0 { NoneRuns(p.workers, t); }
    CountZero(p.workers, Runner);
    CountZero(p.workers, Sleeper);
    CountZero(p.workers, Decider);
    CountZero(p.workers, Leaver);
  }

  // ---- what the invariant gives ----

  // Tasks are taken in the order they were submitted, each exactly once; activeThreads is the number
  // of running workers and never more than there are.
  lemma TasksConserved(p: Pool, steps: seq<Step>)
    requires Initial(p) && ValidRun(p, steps)
    ensures var e := Exec(p, steps);
            && e.submitted == e.taken + e.queue
            && (forall t :: Occurrences(e.taken, t) == Occurrences(e.finished, t) + RunsOf(e.workers, t))
            && e.active == Count(e.workers, Runner) && 0 <= e.active <= |e.workers|
  {
    InitialInv(p);
    RunsKeepInv(p, steps);
    CountZero(Exec(p, steps).workers, Runner);
  }

  // A non-empty queue never coexists with all workers asleep and no wakeup under way.
  lemma NoLostWakeup(p: Pool, steps: seq<Step>)
    requires Initial(p) && |p.workers| > 0 && ValidRun(p, steps)
    ensures var e := Exec(p, steps);
            e.queue != [] && (forall w :: 0 <= w < |e.workers| ==> e.workers[w].Asleep?) ==> e.pending >= |e.queue|
  {
    InitialInv(p);
    RunsKeepInv(p, steps);
    var e := Exec(p, steps);
    WorkersStay(p, steps);
    if e.queue != [] && (forall w :: 0 <= w < |e.workers| ==> e.workers[w].Asleep?) {
      CountZero(e.workers, Sleeper);
      CountZero(e.workers, Waker);
      assert KindOf(e.workers[0]) == Sleeper;
    }
  }

  lemma {:induction false} WorkersStay(p: Pool, steps: seq<Step>)
    ensures |Exec(p, steps).workers| == |p.workers|
  {
    if steps != [] { WorkersStay(p, steps[..|steps| - 1]); }
  }

  // ---- the pool drains by itself ----

  // The steps the pool takes without new submissions, spurious wakeups or the destructor.
  predicate Internal(step: Step) { step.Notify? || step.Check? || step.Sleep? || step.Finish? }

  ghost predicate Quiescent(p: Pool) { forall step :: Internal(step) ==> !Enabled(p, step) }

  // A bound on the internal steps left: a queued task needs two, a pending notify may lead to three
  // more, a running, awake or deciding worker has three, two or one before it rests.
  function Work(p: Pool): nat {
    2 * |p.queue| + 3 * p.pending + 3 * Count(p.workers, Runner) + 2 * Count(p.workers, Waker) +
      Count(p.workers, Decider)
  }

  lemma InternalStepWorks(p: Pool, step: Step)
    requires Enabled(p, step) && Internal(step)
    ensures Work(Next(p, step)) < Work(p)
  {
    match step
    case Notify(w) => if At(p, w, Asleep) { PutCounts(p, w, Awake); }
    case Check(w) =>
      PutCounts(p, w, if p.queue != [] then Running(p.queue[0]) else if p.stop then Exited else Deciding);
    case Sleep(w) => PutCounts(p, w, Asleep);
    case Finish(w) => PutCounts(p, w, Awake);
  }

  // Left alone, the pool comes to rest within Work(p) steps, whatever the schedule.
  lemma {:induction false} RestIsNear(p: Pool, steps: seq<Step>)
    requires ValidRun(p, steps) && forall k :: 0 <= k < |steps| ==> Internal(steps[k])
    ensures |steps| + Work(Exec(p, steps)) <= Work(p)
  {
    if steps != [] {
      var before := steps[..|steps| - 1];
      RestIsNear(p, before);
      InternalStepWorks(Exec(p, before), steps[|steps| - 1]);
    }
  }

  // At rest, nobody is half way through anything.
  lemma RestIs(p: Pool)
    requires Quiescent(p) && Covered(p)
    ensures forall w :: 0 <= w < |p.workers| ==> p.workers[w].Asleep? || p.workers[w].Exited?
    ensures p.pending == 0
    ensures !NobodySleeps(p) ==> p.queue == []
  {
    forall w | 0 <= w < |p.workers| ensures !p.workers[w].Deciding? && !p.workers[w].Running? {
      assert !Enabled(p, Sleep(w)) && !Enabled(p, Finish(w));
    }
    forall w | 0 <= w < |p.workers| ensures !p.workers[w].Awake? {
      assert !Enabled(p, Check(w));
    }
    if NobodySleeps(p) {
      assert !Enabled(p, Notify(0));
    } else {
      var w :| 0 <= w < |p.workers| && p.workers[w].Asleep?;
      assert !Enabled(p, Notify(w));
    }
    FreeCount(p);
    CountZero(p.workers, Waker);
  }

  lemma AllTakenFinished(p: Pool)
    requires Conserved(p) && p.queue == [] && forall w :: 0 <= w < |p.workers| ==> !p.workers[w].Running?
    ensures multiset(p.finished) == multiset(p.submitted)
  {
    assert p.submitted == p.taken;
    forall t: Task ensures multiset(p.finished)[t] == multiset(p.taken)[t] {
      NoneRuns(p.workers, t);
      assert Occurrences(p.taken, t) == Occurrences(p.finished, t);
    }
  }

  // Before shutdown a pool at rest has run every submitted task exactly once.
  lemma RestMeansDone(p: Pool)
    requires Inv(p) && Quiescent(p) && !p.stop && |p.workers| > 0
    ensures p.queue == [] && multiset(p.finished) == multiset(p.submitted)
  {
    RestIs(p);
    CountZero(p.workers, Leaver);
    assert p.workers[0].Asleep?;
    AllTakenFinished(p);
  }

  // Every submitted task runs exactly once: wherever a run has led, letting the pool come to rest
  // before shutdown finishes everything submitted so far.
  lemma EveryTaskRunsOnce(p: Pool, steps: seq<Step>)
    requires Initial(p) && |p.workers| > 0 && ValidRun(p, steps)
    requires !Exec(p, steps).stop && Quiescent(Exec(p, steps))
    ensures Exec(p, steps).queue == [] && multiset(Exec(p, steps).finished) == multiset(Exec(p, steps).submitted)
  {
    InitialInv(p);
    RunsKeepInv(p, steps);
    WorkersStay(p, steps);
    RestMeansDone(Exec(p, steps));
  }

  // ---- shutdown ----

  ghost predicate AllExited(p: Pool) { forall w :: 0 <= w < |p.workers| ==> p.workers[w].Exited? }

  // When every worker has left and nothing was submitted after stop, every task ran exactly once.
  lemma ShutdownLosesNothing(p: Pool, steps: seq<Step>)
    requires Initial(p) && |p.workers| > 0 && ValidRun(p, steps)
    ensures var e := Exec(p, steps);
            AllExited(e) && !e.late ==> e.queue == [] && multiset(e.finished) == multiset(e.submitted)
  {
    InitialInv(p);
    RunsKeepInv(p, steps);
    WorkersStay(p, steps);
    var e := Exec(p, steps);
    if AllExited(e) && !e.late {
      CountZero(e.workers, Leaver);
      assert KindOf(e.workers[0]) == Leaver;
      AllTakenFinished(e);
    }
  }

  // After notify_all nobody sleeps and nobody is about to.
  ghost predicate Roused(p: Pool) { p.stop && NobodySleeps(p) && Free(p) }

  // The destructor sets stop without the mutex. Its notify_all reaches everybody exactly when no
  // worker is between its test and its wait at that moment.
  lemma NotifyAllReachesIff(p: Pool)
    requires p.stop
    ensures Roused(Next(p, NotifyAll)) <==> Free(p)
  {
    var q := Next(p, NotifyAll);
    if !Free(p) {
      var w :| 0 <= w < |p.workers| && p.workers[w].Deciding?;
      assert q.workers[w].Deciding?;
    }
  }

  // If it does, the join succeeds: in every continuation nobody sleeps again, and once at rest all
  // workers have left.
  lemma {:induction false} RousedStays(p: Pool, steps: seq<Step>)
    requires Roused(p) && ValidRun(p, steps)
    ensures Roused(Exec(p, steps))
  {
    if steps != [] {
      RousedStays(p, steps[..|steps| - 1]);
      var b := Exec(p, steps[..|steps| - 1]);
      var e := Exec(p, steps);
      forall w | 0 <= w < |e.workers| ensures !e.workers[w].Asleep? && !e.workers[w].Deciding? {
        assert !b.workers[w].Asleep? && !b.workers[w].Deciding?;
      }
    }
  }

  lemma RousedRestIsExit(p: Pool)
    requires Roused(p) && Quiescent(p) && Covered(p)
    ensures AllExited(p)
  {
    RestIs(p);
  }

  // A worker the notification did not reach: about to wait, or waiting.
  ghost predicate Missed(p: Pool, w: nat) {
    w < |p.workers| && (p.workers[w].Deciding? || p.workers[w].Asleep?) && p.pending == 0
  }

  // Unless somebody submits a task, notifies again, or a condition variable wakes by itself, it is
  // never seen again: whatever the other workers do, in any order.
  lemma {:induction false} MissedWorkerStays(p: Pool, w: nat, steps: seq<Step>)
    requires Missed(p, w) && ValidRun(p, steps)
    requires forall k :: 0 <= k < |steps| ==> !steps[k].Push? && !steps[k].Spurious? && !steps[k].NotifyAll?
    ensures Missed(Exec(p, steps), w)
  {
    if steps != [] { MissedWorkerStays(p, w, steps[..|steps| - 1]); }
  }

  // When does the destructor's join return? Stop is set and the pool is left to itself after
  // notify_all: it comes to rest within Work steps. Then every worker has left if none was between
  // its test and its wait at the moment of the notify_all, and only then unless a SubmitTask was
  // still to call its notify_one, which may wake the worker that was missed.
  lemma JoinReturnsIff(p: Pool, before: seq<Step>, after: seq<Step>)
    requires Initial(p) && ValidRun(p, before)
    requires Exec(p, before).stop
    requires ValidRun(Next(Exec(p, before), NotifyAll), after)
    requires forall k :: 0 <= k < |after| ==> Internal(after[k])
    ensures var notified := Next(Exec(p, before), NotifyAll);
            var e := Exec(notified, after);
            && |after| <= Work(notified)
            && (Quiescent(e) && Free(Exec(p, before)) ==> AllExited(e))
            && (Quiescent(e) && Exec(p, before).pending == 0 ==> (AllExited(e) <==> Free(Exec(p, before))))
  {
    InitialInv(p);
    RunsKeepInv(p, before);
    JoinFrom(Exec(p, before), after);
  }

  lemma JoinFrom(b: Pool, after: seq<Step>)
    requires Inv(b) && b.stop && ValidRun(Next(b, NotifyAll), after)
    requires forall k :: 0 <= k < |after| ==> Internal(after[k])
    ensures var e := Exec(Next(b, NotifyAll), after);
            && |after| <= Work(Next(b, NotifyAll))
            && (Quiescent(e) && Free(b) ==> AllExited(e))
            && (Quiescent(e) && b.pending == 0 ==> (AllExited(e) <==> Free(b)))
  {
    var notified := Next(b, NotifyAll);
    RestIsNear(notified, after);
    if Free(b) {
      StepKeepsInv(b, NotifyAll);
      NotifyAllReachesIff(b);
      RunsKeepInv(notified, after);
      RousedStays(notified, after);
      if Quiescent(Exec(notified, after)) { RousedRestIsExit(Exec(notified, after)); }
    } else if b.pending == 0 {
      var w :| 0 <= w < |b.workers| && b.workers[w].Deciding?;
      assert Missed(notified, w);
      MissedWorkerStays(notified, w, after);
    }
  }

  // That is reachable from the start, with one worker and four steps.
  lemma ShutdownCanHang(p: Pool)
    requires Initial(p) && |p.workers| == 1
    ensures var steps := [Check(0), SetStop, NotifyAll, Sleep(0)];
            && ValidRun(p, steps)
            && Exec(p, steps).stop && At(Exec(p, steps), 0, Asleep)
            && Quiescent(Exec(p, steps)) && !AllExited(Exec(p, steps))
  {
    var s1, s2 := [Check(0)], [Check(0), SetStop];
    var s3, steps := [Check(0), SetStop, NotifyAll], [Check(0), SetStop, NotifyAll, Sleep(0)];
    assert s1[..0] == [] && s2[..1] == s1 && s3[..2] == s2 && steps[..3] == s3;
    assert Exec(p, s1) == Next(p, Check(0)) && ValidRun(p, s1) && At(Exec(p, s1), 0, Deciding);
    assert Exec(p, s2) == Next(Exec(p, s1), SetStop) && ValidRun(p, s2);
    assert Exec(p, s3) == Next(Exec(p, s2), NotifyAll) && ValidRun(p, s3) && At(Exec(p, s3), 0, Deciding);
    assert Exec(p, steps) == Next(Exec(p, s3), Sleep(0));
  }

  // ---- the pool as an object ----

  class WorkerPool {
    var taskQueue: seq<Task>
    var stop: bool
    var activeThreads: int
    var workers: seq<Worker>
    var pending: nat
    ghost var submitted: seq<Task>
    ghost var taken: seq<Task>
    ghost var finished: seq<Task>
    ghost var late: bool

    ghost function View(): Pool
      reads this
    {
      Pool(taskQueue, stop, activeThreads, workers, pending, submitted, taken, finished, late)
    }

    constructor (threadCount: nat)
      ensures Initial(View()) && |workers| == threadCount
    {
      workers := [];
      taskQueue, stop, activeThreads, pending := [], false, 0, 0;
      submitted, taken, finished, late := [], [], [], false;
      new;
      for i := 0 to threadCount
        invariant |workers| == i && forall w :: 0 <= w < i ==> workers[w] == Awake
        invariant View() == Pool([], false, 0, workers, 0, [], [], [], false)
      {
        workers := workers + [Awake];
      }
    }

    // SubmitTask up to the end of its locked block, then its notify_one.
    method SubmitPush(task: Task)
      requires Enabled(View(), Push(task))
      modifies this
      ensures View() == Next(old(View()), Push(task))
    {
      taskQueue := taskQueue + [task];
      pending := pending + 1;
      submitted := submitted + [task];
      late := late || stop;
    }

    method SubmitNotify(w: nat)
      requires Enabled(View(), Notify(w))
      modifies this
      ensures View() == Next(old(View()), Notify(w))
    {
      pending := pending - 1;
      if w < |workers| && workers[w].Asleep? {
        workers := workers[w := Awake];
      }
    }

    // WorkerThread inside its lock: wait's test, the exit test, or taking the front task.
    method WorkerCheck(w: nat) returns (task: seq<Task>)
      requires Enabled(View(), Check(w))
      modifies this
      ensures View() == Next(old(View()), Check(w))
      ensures task == old(taskQueue)[..if old(taskQueue) == [] then 0 else 1]
    {
      task := [];
      if !(stop || taskQueue != []) {
        workers := workers[w := Deciding];
      } else if stop && taskQueue == [] {
        workers := workers[w := Exited];
      } else {
        task := [taskQueue[0]];
        workers := workers[w := Running(taskQueue[0])];
        taken := taken + [taskQueue[0]];
        taskQueue := taskQueue[1..];
        activeThreads := activeThreads + 1;
      }
    }

    method WorkerSleep(w: nat)
      requires Enabled(View(), Sleep(w))
      modifies this`workers
      ensures View() == Next(old(View()), Sleep(w))
    {
      workers := workers[w := Asleep];
    }

    method WorkerFinish(w: nat)
      requires Enabled(View(), Finish(w))
      modifies this
      ensures View() == Next(old(View()), Finish(w))
    {
      finished := finished + [workers[w].task];
      workers := workers[w := Awake];
      activeThreads := activeThreads - 1;
    }

    // The destructor before its joins.
    method RequestStop()
      modifies this`stop
      ensures View() == Next(old(View()), SetStop)
    {
      stop := true;
    }

    method NotifyEveryone()
      requires stop
      modifies this`workers
      ensures View() == Next(old(View()), NotifyAll)
    {
      workers := WakeAll(workers);
    }
  }
}
