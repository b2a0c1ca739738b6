/** src/ThreadPool.cpp: any number of workers around one locked queue, with a stop
    flag that is set without the lock. */
module ThreadPools {
  import opened Sequences

  type Task = nat

  /** A worker is waiting on the condition; holds the lock, its wait having
      succeeded (Checking) or timed out (Retrying); runs a task; or has returned. */
  datatype Worker = Waiting | Checking | Retrying | Busy(task: Task) | Gone

  datatype Pool = Pool(
    workers: seq<Worker>, queue: seq<Task>, stopped: bool,
    added: seq<Task>, started: seq<Task>, finished: seq<Task>,
    late: seq<Task>) // the tasks added after the last worker had returned

  function Start(n: nat): Pool {
    Pool(seq(n, i => Waiting), [], false, [], [], [], [])
  }

  datatype Action = Add(task: Task) | Stop | Wake(w: nat) | Decide(w: nat) | Finish(w: nat)

  /** A step that is not enabled, one that calls front() on an empty queue, and a result. */
  datatype Outcome = Disabled | Undefined | To(pool: Pool)

  predicate Locked(p: Pool) {
    exists w | 0 <= w < |p.workers| :: p.workers[w].Checking? || p.workers[w].Retrying?
  }

  predicate AllGone(p: Pool) {
    forall w | 0 <= w < |p.workers| :: p.workers[w].Gone?
  }

  function Set(p: Pool, w: nat, state: Worker): Pool
    requires w < |p.workers|
  {
    p.(workers := p.workers[w := state])
  }

  function Step(p: Pool, a: Action): Outcome {
    match a
    case Add(t) =>
      if Locked(p) then Disabled
      else To(p.(queue := p.queue + [t], added := p.added + [t],
                 late := if AllGone(p) then p.late + [t] else p.late))
    case Stop => To(p.(stopped := true))
    case Wake(w) =>
      if w >= |p.workers| || !p.workers[w].Waiting? || Locked(p) then Disabled
      else To(Set(p, w, if p.stopped || p.queue != [] then Checking else Retrying))
    case Decide(w) =>
      if w >= |p.workers| then Disabled
      else if p.workers[w].Retrying? then
        To(Set(p, w, if p.stopped && p.queue == [] then Gone else Waiting))
      else if p.workers[w].Checking? then
        if p.stopped && p.queue == [] then To(Set(p, w, Gone))
        else if p.queue == [] then Undefined
        else To(Set(p, w, Busy(p.queue[0])).(queue := p.queue[1..], started := p.started + [p.queue[0]]))
      else Disabled
    case Finish(w) =>
      if w >= |p.workers| || !p.workers[w].Busy? then Disabled
      else To(Set(p, w, Waiting).(finished := p.finished + [p.workers[w].task]))
  }

  function Run(p: Pool, actions: seq<Action>): Outcome
    decreases |actions|
  {
    if actions == [] then To(p)
    else
      var o := Step(p, actions[0]);
      if o.To? then Run(o.pool, actions[1..]) else o
  }

  /** The tasks being run. */
  function Running(workers: seq<Worker>): multiset<Task> {
    if workers == [] then multiset{}
    else TaskOf(workers[0]) + Running(workers[1..])
  }

  function TaskOf(w: Worker): multiset<Task> {
    if w.Busy? then multiset{w.task} else multiset{}
  }

  lemma {:induction false} RunningSet(workers: seq<Worker>, w: nat, state: Worker)
    requires w < |workers|
    ensures Running(workers[w := state]) + TaskOf(workers[w]) == Running(workers) + TaskOf(state)
  {
    hide TaskOf;
    if w == 0 {
      assert workers[0 := state][1..] == workers[1..];
    } else {
      assert workers[w := state][1..] == workers[1..][w - 1 := state];
      RunningSet(workers[1..], w - 1, state);
      Rebalance(TaskOf(workers[0]), Running(workers[1..][w - 1 := state]), TaskOf(workers[w]),
                Running(workers[1..]), TaskOf(state));
    }
  }

  lemma Rebalance(head: multiset<Task>, a: multiset<Task>, x: multiset<Task>, b: multiset<Task>, y: multiset<Task>)
    requires a + x == b + y
    ensures head + a + x == head + b + y
  {
    assert head + a + x == head + (a + x);
    assert head + b + y == head + (b + y);
  }

  lemma {:induction false} RunningBound(workers: seq<Worker>)
    ensures |Running(workers)| <= |workers|
    ensures (|Running(workers)| == |workers|) <==> forall w | 0 <= w < |workers| :: workers[w].Busy?
  {
    if workers != [] {
      RunningBound(workers[1..]);
      assert forall w | 0 < w < |workers| :: workers[w] == workers[1..][w - 1];
    }
  }

  lemma {:induction false} NoneRunning(workers: seq<Worker>)
    requires forall w | 0 <= w < |workers| :: !workers[w].Busy?
    ensures Running(workers) == multiset{}
  {
    if workers != [] {
      NoneRunning(workers[1..]);
    }
  }

  /** Tasks leave the queue in order, and each is finished or being run. */
  predicate Accounted(p: Pool) {
    && p.started + p.queue == p.added
    && multiset(p.started) == multiset(p.finished) + Running(p.workers)
  }

  predicate HoldsLock(w: Worker) {
    w.Checking? || w.Retrying?
  }

  /** One worker at most holds the lock; one whose wait succeeded has a reason to;
      none returned before stop; and once all have, the queue is what came later. */
  predicate Orderly(p: Pool) {
    && (forall v, w | 0 <= v < w < |p.workers| :: !(HoldsLock(p.workers[v]) && HoldsLock(p.workers[w])))
    && (Checking in p.workers ==> p.stopped || p.queue != [])
    && (Gone in p.workers ==> p.stopped)
    && (if AllGone(p) then p.queue == p.late else p.late == [])
  }

  predicate Sound(p: Pool) {
    Accounted(p) && Orderly(p)
  }

  lemma StepIsOrderly(p: Pool, a: Action)
    requires Orderly(p)
    ensures Step(p, a) != Undefined
    ensures Step(p, a).To? ==> Orderly(Step(p, a).pool)
  {
    if Step(p, a).To? && !a.Add? && !a.Stop? {
      var q := Step(p, a).pool;
      assert !AllGone(p) by {
        assert !p.workers[a.w].Gone?;
      }
      assert AllGone(q) ==> q.workers[a.w].Gone?;
    }
  }

  lemma StepIsAccounted(p: Pool, a: Action)
    requires Accounted(p) && Step(p, a).To?
    ensures Accounted(Step(p, a).pool)
  {
    match a
    case Add(_) =>
    case Stop =>
    case Wake(w) => RunningUnchanged(p.workers, w, Step(p, a).pool.workers[w]);
    case Decide(w) => DecideIsAccounted(p, w);
    case Finish(w) =>
      RunningSet(p.workers, w, Waiting);
      Finished(p, Step(p, a).pool, p.workers[w].task);
  }

  lemma RunningUnchanged(workers: seq<Worker>, w: nat, state: Worker)
    requires w < |workers| && !workers[w].Busy? && !state.Busy?
    ensures Running(workers[w := state]) == Running(workers)
  {
    hide Running;
    RunningSet(workers, w, state);
    assert Running(workers) + multiset{} == Running(workers);
    assert Running(workers[w := state]) + multiset{} == Running(workers[w := state]);
  }

  lemma DecideIsAccounted(p: Pool, w: nat)
    requires Accounted(p) && Step(p, Decide(w)).To?
    ensures Accounted(Step(p, Decide(w)).pool)
  {
    hide Running;
    var q := Step(p, Decide(w)).pool;
    if q.workers[w].Busy? {
      assert p.queue == [p.queue[0]] + p.queue[1..];
      RunningSet(p.workers, w, q.workers[w]);
      Started(p, q, p.queue[0]);
    } else {
      RunningUnchanged(p.workers, w, q.workers[w]);
    }
  }

  lemma Started(p: Pool, q: Pool, t: Task)
    requires multiset(p.started) == multiset(p.finished) + Running(p.workers)
    requires q.started == p.started + [t] && q.finished == p.finished
    requires Running(q.workers) + multiset{} == Running(p.workers) + multiset{t}
    ensures multiset(q.started) == multiset(q.finished) + Running(q.workers)
  {
    hide Running;
    assert multiset(q.started) == multiset(p.started) + multiset{t};
    assert Running(q.workers) == Running(p.workers) + multiset{t};
  }

  lemma Finished(p: Pool, q: Pool, t: Task)
    requires multiset(p.started) == multiset(p.finished) + Running(p.workers)
    requires q.started == p.started && q.finished == p.finished + [t]
    requires Running(q.workers) + multiset{t} == Running(p.workers) + multiset{}
    ensures multiset(q.started) == multiset(q.finished) + Running(q.workers)
  {
    hide Running;
    assert multiset(q.finished) == multiset(p.finished) + multiset{t};
    assert Running(p.workers) == Running(q.workers) + multiset{t};
  }

  lemma StepIsSound(p: Pool, a: Action)
    requires Sound(p)
    ensures Step(p, a) != Undefined
    ensures Step(p, a).To? ==> Sound(Step(p, a).pool)
  {
    hide Step;
    hide Accounted;
    hide Orderly;
    StepIsOrderly(p, a);
    if Step(p, a).To? {
      StepIsAccounted(p, a);
    }
  }

  /** In every run, front() is never called on an empty queue, tasks start in the
      order they were added and at most once, and none that started is lost. */
  lemma {:induction false} RunIsSound(p: Pool, actions: seq<Action>)
    requires Sound(p)
    ensures Run(p, actions) != Undefined
    ensures Run(p, actions).To? ==> Sound(Run(p, actions).pool)
    decreases |actions|
  {
    hide Sound;
    hide Step;
    if actions != [] {
      StepIsSound(p, actions[0]);
      if Step(p, actions[0]).To? {
        RunIsSound(Step(p, actions[0]).pool, actions[1..]);
      }
    }
  }

  lemma StartIsSound(n: nat)
    ensures Sound(Start(n))
  {
    NoneRunning(Start(n).workers);
  }

  /** The number of workers never changes. */
  lemma {:induction false} RunKeepsWorkers(p: Pool, actions: seq<Action>)
    ensures Run(p, actions).To? ==> |Run(p, actions).pool.workers| == |p.workers|
    decreases |actions|
  {
    if actions != [] && Step(p, actions[0]).To? {
      RunKeepsWorkers(Step(p, actions[0]).pool, actions[1..]);
    }
  }

  /** When all workers of a pool have returned, every task that was added before the
      last of them did has been run, once and in order; a task is left unrun exactly
      if it was added after that. */
  lemma EveryTaskRunsExactly(n: nat, actions: seq<Action>)
    requires Run(Start(n), actions).To? && AllGone(Run(Start(n), actions).pool)
    ensures var p := Run(Start(n), actions).pool;
      && p.added == p.started + p.late && p.queue == p.late
      && multiset(p.started) == multiset(p.finished)
      && (multiset(p.finished) == multiset(p.added) <==> p.late == [])
  {
    StartIsSound(n);
    RunIsSound(Start(n), actions);
    var p := Run(Start(n), actions).pool;
    NoneRunning(p.workers);
    assert multiset(p.added) == multiset(p.started) + multiset(p.late);
    if p.late != [] {
      assert |multiset(p.added)| > |multiset(p.started)|;
    }
  }

  /** One worker running everything that is queued: per task it wakes, takes the task
      and finishes it. */
  function Work(w: nat, tasks: nat): seq<Action> {
    if tasks == 0 then [] else [Wake(w), Decide(w), Finish(w)] + Work(w, tasks - 1)
  }

  /** The pool after one task has been run. */
  function Served(p: Pool): Pool
    requires p.queue != []
  {
    p.(queue := p.queue[1..], started := p.started + [p.queue[0]], finished := p.finished + [p.queue[0]])
  }

  lemma OneTask(p: Pool, w: nat, rest: seq<Action>)
    requires w < |p.workers| && p.workers[w].Waiting? && !Locked(p) && p.queue != []
    ensures Run(p, [Wake(w), Decide(w), Finish(w)] + rest) == Run(Served(p), rest) && !Locked(Served(p))
  {
    var all := [Wake(w), Decide(w), Finish(w)] + rest;
    var p1 := Step(p, Wake(w)).pool;
    var p2 := Step(p1, Decide(w)).pool;
    var p3 := Step(p2, Finish(w)).pool;
    assert all[1..] == [Decide(w), Finish(w)] + rest;
    assert all[1..][1..] == [Finish(w)] + rest;
    assert all[1..][1..][1..] == rest;
    assert Run(p2, [Finish(w)] + rest) == Run(p3, rest);
    assert Run(p1, [Decide(w), Finish(w)] + rest) == Run(p3, rest);
    assert p3.workers == p.workers;
  }

  /** A single waiting worker is enough, stopped or not: left to itself it runs the whole
      queue in order, and then, if the pool is stopped, returns. */
  lemma {:induction false} OneWorkerDrains(p: Pool, w: nat)
    requires w < |p.workers| && p.workers[w].Waiting? && !Locked(p)
    ensures Run(p, Work(w, |p.queue|) + [Wake(w), Decide(w)]) ==
      To(Set(p, w, if p.stopped then Gone else Waiting).(
           queue := [], started := p.started + p.queue, finished := p.finished + p.queue))
    decreases |p.queue|
  {
    hide Run;
    hide Step;
    hide Locked;
    if p.queue == [] {
      NothingToDo(p, w);
      assert Work(w, 0) + [Wake(w), Decide(w)] == [Wake(w), Decide(w)];
      assert p.started + [] == p.started && p.finished + [] == p.finished;
    } else {
      var rest := Work(w, |p.queue| - 1) + [Wake(w), Decide(w)];
      var q := Served(p);
      OneTask(p, w, rest);
      assert Work(w, |p.queue|) + [Wake(w), Decide(w)] == [Wake(w), Decide(w), Finish(w)] + rest;
      OneWorkerDrains(q, w);
      ServedThenRest(p.started, p.queue);
      ServedThenRest(p.finished, p.queue);
    }
  }

  lemma ServedThenRest(done: seq<Task>, queue: seq<Task>)
    requires queue != []
    ensures done + [queue[0]] + queue[1..] == done + queue
  {
  }

  lemma NothingToDo(p: Pool, w: nat)
    requires w < |p.workers| && p.workers[w].Waiting? && !Locked(p) && p.queue == []
    ensures Run(p, [Wake(w), Decide(w)]) == To(Set(p, w, if p.stopped then Gone else Waiting))
  {
    var p1 := Step(p, Wake(w)).pool;
    var p2 := Step(p1, Decide(w)).pool;
    assert [Wake(w), Decide(w)][1..] == [Decide(w)];
    assert Run(p1, [Decide(w)]) == Run(p2, []);
    assert p1.workers[w := p2.workers[w]] == p.workers[w := p2.workers[w]];
  }

  // ---- Stopping -----------------------------------------------------------------

  /** The tasks that a run adds. */
  function Adds(actions: seq<Action>): seq<Task> {
    if actions == [] then []
    else (if actions[0].Add? then [actions[0].task] else []) + Adds(actions[1..])
  }

  lemma StepAdds(p: Pool, a: Action)
    requires Step(p, a).To?
    ensures var q := Step(p, a).pool;
      q.added == p.added + (if a.Add? then [a.task] else []) && (q.stopped <==> p.stopped || a.Stop?)
  {
  }

  /** No task is left out, and the pool is stopped exactly when it has been told to. */
  lemma {:induction false} RunAdds(p: Pool, actions: seq<Action>)
    requires Run(p, actions).To?
    ensures var q := Run(p, actions).pool;
      q.added == p.added + Adds(actions) && (q.stopped <==> p.stopped || Stop in actions)
    decreases |actions|
  {
    hide Step;
    if actions != [] {
      StepAdds(p, actions[0]);
      RunAdds(Step(p, actions[0]).pool, actions[1..]);
      assert actions == [actions[0]] + actions[1..];
    }
  }

  /** The steps of the workers themselves. */
  predicate Working(actions: seq<Action>) {
    forall a | a in actions :: a.Wake? || a.Decide? || a.Finish?
  }

  /** How many steps a worker of a stopped pool has before it returns, but for the
      tasks it has yet to take. */
  function Weight(w: Worker): nat {
    match w
    case Gone => 0
    case Checking => 1
    case Waiting => 2
    case Retrying => 3
    case Busy(_) => 3
  }

  function Weights(workers: seq<Worker>): nat {
    if workers == [] then 0 else Weight(workers[0]) + Weights(workers[1..])
  }

  function ToGo(p: Pool): nat {
    3 * |p.queue| + Weights(p.workers)
  }

  lemma {:induction false} WeightsSet(workers: seq<Worker>, w: nat, state: Worker)
    requires w < |workers|
    ensures Weights(workers[w := state]) + Weight(workers[w]) == Weights(workers) + Weight(state)
  {
    if w == 0 {
      assert workers[0 := state][1..] == workers[1..];
    } else {
      assert workers[w := state][1..] == workers[1..][w - 1 := state];
      WeightsSet(workers[1..], w - 1, state);
    }
  }

  /** Once the pool is stopped, every step of a worker gets nearer to the end: nobody
      waits twice. */
  lemma StoppedStep(p: Pool, a: Action)
    requires Sound(p) && p.stopped && (a.Wake? || a.Decide? || a.Finish?) && Step(p, a).To?
    ensures ToGo(Step(p, a).pool) < ToGo(p)
  {
    hide Weights;
    hide Accounted;
    WeightsSet(p.workers, a.w, Step(p, a).pool.workers[a.w]);
  }

  /** And as long as one has not returned, there is such a step. */
  lemma SomeoneCanStep(p: Pool) returns (a: Action)
    requires Sound(p) && !AllGone(p)
    ensures (a.Wake? || a.Decide? || a.Finish?) && Step(p, a).To?
  {
    StepIsOrderlyAll(p);
    if Locked(p) {
      var w: nat :| w < |p.workers| && (p.workers[w].Checking? || p.workers[w].Retrying?);
      a := Decide(w);
    } else {
      var w: nat :| w < |p.workers| && !p.workers[w].Gone?;
      a := if p.workers[w].Waiting? then Wake(w) else Finish(w);
    }
  }

  lemma StepIsOrderlyAll(p: Pool)
    requires Sound(p)
    ensures forall w: nat :: Step(p, Decide(w)) != Undefined
  {
    forall w: nat ensures Step(p, Decide(w)) != Undefined {
      StepIsOrderly(p, Decide(w));
    }
  }

  /** However the workers of a stopped pool are scheduled, they are soon done. */
  lemma {:induction false} StoppedRunsEnd(p: Pool, actions: seq<Action>)
    requires Sound(p) && p.stopped && Working(actions) && Run(p, actions).To?
    ensures |actions| <= ToGo(p)
    decreases |actions|
  {
    hide Step;
    hide Sound;
    hide ToGo;
    if actions != [] {
      assert actions[0] in actions;
      StepIsSound(p, actions[0]);
      StepAdds(p, actions[0]);
      StoppedStep(p, actions[0]);
      StoppedRunsEnd(Step(p, actions[0]).pool, actions[1..]);
    }
  }

  /** Left alone, the workers of a stopped pool all return. */
  lemma {:induction false} StoppedPoolEnds(p: Pool) returns (actions: seq<Action>)
    requires Sound(p) && p.stopped
    ensures Working(actions) && Run(p, actions).To? && AllGone(Run(p, actions).pool)
    decreases ToGo(p)
  {
    hide Step;
    hide Sound;
    hide ToGo;
    if AllGone(p) {
      actions := [];
    } else {
      var a := SomeoneCanStep(p);
      StepIsSound(p, a);
      StepAdds(p, a);
      StoppedStep(p, a);
      var rest := StoppedPoolEnds(Step(p, a).pool);
      actions := [a] + rest;
      assert actions[1..] == rest;
    }
  }

  lemma {:induction false} RunConcat(p: Pool, a: seq<Action>, b: seq<Action>)
    requires Run(p, a).To?
    ensures Run(p, a + b) == Run(Run(p, a).pool, b)
    decreases |a|
  {
    hide Step;
    if a == [] {
      assert a + b == b;
    } else {
      assert (a + b)[1..] == a[1..] + b;
      RunConcat(Step(p, a[0]).pool, a[1..], b);
    }
  }

  lemma StopIsSound(p: Pool)
    requires Sound(p)
    ensures Step(p, Stop) == To(p.(stopped := true)) && Sound(p.(stopped := true))
  {
    StepIsSound(p, Stop);
  }

  lemma NoAdds(actions: seq<Action>)
    requires Working(actions)
    ensures Adds(actions) == []
  {
    if actions != [] {
      assert actions[0] in actions;
      NoAdds(actions[1..]);
    }
  }

  /** Stopping a pool: from any state that it can reach, stop and nothing but the workers'
      own steps lead to where all have returned; any schedule of them ends; and
      everything added in time has then been run, once. */
  lemma StopEndsThePool(n: nat, before: seq<Action>) returns (after: seq<Action>)
    requires Run(Start(n), before).To?
    ensures Working(after) && Run(Start(n), before + [Stop] + after).To?
    ensures forall other | Working(other) && Run(Start(n), before + [Stop] + other).To? ::
      |other| <= ToGo(Run(Start(n), before).pool)
    ensures var p, q := Run(Start(n), before).pool, Run(Start(n), before + [Stop] + after).pool;
      && AllGone(q) && q.added == Adds(before) && q.queue == q.late
      && (!AllGone(p) ==> q.queue == [] && multiset(q.finished) == multiset(Adds(before)))
  {
    hide Step;
    StartIsSound(n);
    RunIsSound(Start(n), before);
    var p := Run(Start(n), before).pool;
    StopIsSound(p);
    StopRuns(Start(n), before);
    var stopped := p.(stopped := true);
    after := StoppedPoolEnds(stopped);
    RunConcat(Start(n), before + [Stop], after);
    forall other | Working(other) && Run(Start(n), before + [Stop] + other).To?
      ensures |other| <= ToGo(p)
    {
      RunConcat(Start(n), before + [Stop], other);
      StoppedRunsEnd(stopped, other);
    }
    RunAdds(Start(n), before);
    RunAdds(stopped, after);
    NoAdds(after);
    LateStays(stopped, after);
    EveryTaskRunsExactly(n, before + [Stop] + after);
  }

  lemma StopRuns(s: Pool, before: seq<Action>)
    requires Run(s, before).To?
    ensures Run(s, before + [Stop]) == To(Run(s, before).pool.(stopped := true))
  {
    RunConcat(s, before, [Stop]);
    var p := Run(s, before).pool;
    assert [Stop][1..] == [];
    assert Run(p, [Stop]) == Run(p.(stopped := true), []);
  }

  /** Only an add is ever late. */
  lemma {:induction false} LateStays(p: Pool, actions: seq<Action>)
    requires Working(actions) && Run(p, actions).To?
    ensures Run(p, actions).pool.late == p.late
    decreases |actions|
  {
    if actions != [] {
      assert actions[0] in actions;
      LateStays(Step(p, actions[0]).pool, actions[1..]);
    }
  }

  /** TcpServer gives a pool of n threads n event loops to run, which do not return
      before stop: until then some thread is free for every loop still queued, and
      once none is queued each loop has a thread of its own. */
  lemma EveryLoopHasAThread(n: nat, actions: seq<Action>)
    requires Run(Start(n), actions).To?
    requires var p := Run(Start(n), actions).pool; !p.stopped && p.finished == [] && |p.added| <= n
    ensures var p := Run(Start(n), actions).pool;
      && |p.queue| + |Running(p.workers)| == |p.added| <= |p.workers|
      && Running(p.workers) == multiset(p.started)
      && (p.queue != [] ==> exists w | 0 <= w < |p.workers| :: !p.workers[w].Busy? && !p.workers[w].Gone?)
  {
    StartIsSound(n);
    RunIsSound(Start(n), actions);
    RunKeepsWorkers(Start(n), actions);
    var p := Run(Start(n), actions).pool;
    RunningBound(p.workers);
    assert multiset(p.finished) == multiset{};
    assert |multiset(p.started)| == |p.started|;
    if p.queue != [] {
      var w :| 0 <= w < |p.workers| && !p.workers[w].Busy?;
      assert p.workers[w] in p.workers;
    }
  }

  /** What a worker that holds the lock does next. */
  datatype Turn = Return | WaitAgain | Perform(task: Task)

  /** The shared fields, and the lock regions that use them. `pool` says in addition
      where each worker is. */
  class ThreadPool {
    var tasksQueue: seq<Task>
    var stopFlag: bool
    /** Whether the wait of the worker that holds the lock succeeded. */
    var succeeded: bool
    ghost var pool: Pool

    ghost predicate Valid()
      reads this
    {
      && tasksQueue == pool.queue && stopFlag == pool.stopped
      && (Checking in pool.workers ==> succeeded) && (Retrying in pool.workers ==> !succeeded)
    }

    constructor (ghost n: nat)
      ensures Valid() && pool == Start(n)
    {
      tasksQueue, stopFlag, succeeded, pool := [], false, false, Start(n);
    }

    method AddTask(t: Task)
      requires Valid() && !Locked(pool)
      modifies this
      ensures Valid() && Step(old(pool), Add(t)) == To(pool)
      ensures tasksQueue == old(tasksQueue) + [t] && stopFlag == old(stopFlag)
    {
      tasksQueue := tasksQueue + [t];
      pool := Step(pool, Add(t)).pool;
    }

    /** Setting the flag takes no lock, so it can fall between any two other steps. */
    method RequestStop()
      requires Valid()
      modifies this
      ensures Valid() && Step(old(pool), Stop) == To(pool)
      ensures stopFlag && tasksQueue == old(tasksQueue)
    {
      stopFlag := true;
      pool := Step(pool, Stop).pool;
    }

    /** A worker takes the lock, notified or timed out, and tests what it waits for. */
    method TestWait(ghost w: nat)
      requires Valid() && Step(pool, Wake(w)).To?
      modifies this`pool, this`succeeded
      ensures Valid() && Step(old(pool), Wake(w)) == To(pool)
    {
      succeeded := stopFlag || tasksQueue != [];
      pool := Step(pool, Wake(w)).pool;
    }

    /** What a worker does with the lock, its wait having succeeded or timed out. */
    method NextTask(ghost w: nat) returns (turn: Turn)
      requires Valid() && Sound(pool) && Step(pool, Decide(w)).To?
      modifies this`tasksQueue, this`pool
      ensures Valid() && Step(old(pool), Decide(w)) == To(pool)
      ensures pool.workers[w] ==
        match turn case Return => Gone case WaitAgain => Waiting case Perform(t) => Busy(t)
    {
      assert pool.workers[w] in pool.workers;
      if stopFlag && tasksQueue == [] {
        turn := Return;
      } else if !succeeded {
        turn := WaitAgain;
      } else {
        turn := Perform(tasksQueue[0]);
        tasksQueue := tasksQueue[1..];
      }
      pool := Step(pool, Decide(w)).pool;
    }

    /** Any interleaving of the workers, of stop and of those who add tasks takes the
        fields where the machine goes. */
    method Replay(actions: seq<Action>)
      requires Valid() && Sound(pool) && Run(pool, actions).To?
      modifies this
      ensures Valid() && Sound(pool) && Run(old(pool), actions) == To(pool)
    {
      hide Sound;
      hide Step;
      var i := 0;
      assert actions[0..] == actions;
      while i < |actions|
        invariant 0 <= i <= |actions| && Valid() && Sound(pool)
        invariant Run(pool, actions[i..]) == Run(old(pool), actions) && Run(pool, actions[i..]).To?
      {
        assert actions[i..][0] == actions[i] && actions[i..][1..] == actions[i + 1..];
        StepIsSound(pool, actions[i]);
        Play(actions[i]);
        i := i + 1;
      }
    }

    method Play(a: Action)
      requires Valid() && Sound(pool) && Step(pool, a).To?
      modifies this
      ensures Valid() && Step(old(pool), a) == To(pool)
    {
      match a
      case Add(t) => AddTask(t);
      case Stop => RequestStop();
      case Wake(w) => TestWait(w);
      case Decide(w) => var _ := NextTask(w);
      case Finish(w) => pool := Step(pool, Finish(w)).pool;
    }
  }
}
