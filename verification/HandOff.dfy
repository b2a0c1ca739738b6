/** Handing send tasks to an event loop from other threads: EventLoop::addTask and
    handleWakeUp over an eventfd. Producers push under the lock and write the
    eventfd afterwards; the loop reads the eventfd first and drains afterwards. */
module HandOff {
  import opened Sequences
  import opened Bytes

  /** One Connection::send of a whole message, by one thread. */
  datatype Task = Task(sender: nat, fd: nat, message: bytes)

  /** The loop's own thread, which writes directly instead of queueing. */
  const LOOP_THREAD: nat := 0

  datatype LoopPc = Polling | Draining

  /** `wakesWithZero`: the eventfd write may add nothing, as EventFd::wakeup, which
      writes an uninitialised number, does not exclude. */
  datatype Config = Config(isMainLoop: bool, wakesWithZero: bool)

  datatype State = State(
    queue: seq<Task>,
    counter: nat,       // the eventfd
    pushing: set<nat>,  // producers between their push and their write
    pc: LoopPc,         // Draining: between the read of the eventfd and the drain
    ran: seq<Task>,
    sent: seq<Task>)    // every send, in the order of the pushes and direct writes

  const Start := State([], 0, {}, Polling, [], [])

  datatype Action =
    | Push(task: Task)
    | Wake(sender: nat, amount: nat)
    | Direct(task: Task)
    | Nudge(amount: nat)  // EventLoop::stop wakes the loop without a task
    | Read
    | Drain

  function Step(c: Config, s: State, a: Action): Option<State> {
    match a
    case Push(t) =>
      if t.sender != LOOP_THREAD && t.sender !in s.pushing then
        Some(s.(queue := s.queue + [t], sent := s.sent + [t], pushing := s.pushing + {t.sender}))
      else None
    case Wake(p, amount) =>
      if p in s.pushing && (amount > 0 || c.wakesWithZero) then
        Some(s.(counter := s.counter + amount, pushing := s.pushing - {p}))
      else None
    case Direct(t) =>
      if t.sender == LOOP_THREAD && s.pc.Polling? then
        Some(s.(ran := s.ran + [t], sent := s.sent + [t]))
      else None
    case Nudge(amount) => Some(s.(counter := s.counter + amount))
    case Read =>
      // the eventfd is watched level-triggered
      if s.pc.Polling? && s.counter > 0 then Some(s.(counter := 0, pc := Draining)) else None
    case Drain =>
      if s.pc.Draining? then
        Some(if c.isMainLoop then s.(pc := Polling)
             else s.(pc := Polling, ran := s.ran + s.queue, queue := []))
      else None
  }

  function Run(c: Config, s: State, actions: seq<Action>): Option<State>
    decreases |actions|
  {
    if actions == [] then Some(s)
    else
      var t := Step(c, s, actions[0]);
      if t.None? then None else Run(c, t.value, actions[1..])
  }

  lemma {:induction false} RunSnoc(c: Config, s: State, actions: seq<Action>, a: Action)
    requires Run(c, s, actions).Some?
    ensures Run(c, s, actions + [a]) == Step(c, Run(c, s, actions).value, a)
    decreases |actions|
  {
    hide Step;
    if actions == [] {
      assert [] + [a] == [a] && [a][1..] == [];
    } else {
      assert (actions + [a])[1..] == actions[1..] + [a];
      RunSnoc(c, Step(c, s, actions[0]).value, actions[1..], a);
    }
  }

  /** The tasks of one thread, or, for the queue as a whole, of all but the loop's. */
  function By(p: nat, tasks: seq<Task>): seq<Task> {
    if tasks == [] then [] else (if tasks[0].sender == p then [tasks[0]] else []) + By(p, tasks[1..])
  }

  function Queued(tasks: seq<Task>): seq<Task> {
    if tasks == [] then []
    else (if tasks[0].sender != LOOP_THREAD then [tasks[0]] else []) + Queued(tasks[1..])
  }

  lemma {:induction false} ByConcat(p: nat, a: seq<Task>, b: seq<Task>)
    ensures By(p, a + b) == By(p, a) + By(p, b)
  {
    if a == [] {
      assert a + b == b;
    } else {
      var head := if a[0].sender == p then [a[0]] else [];
      assert (a + b)[1..] == a[1..] + b;
      ByConcat(p, a[1..], b);
      assert head + (By(p, a[1..]) + By(p, b)) == head + By(p, a[1..]) + By(p, b);
    }
  }

  lemma {:induction false} QueuedConcat(a: seq<Task>, b: seq<Task>)
    ensures Queued(a + b) == Queued(a) + Queued(b)
  {
    if a == [] {
      assert a + b == b;
    } else {
      var head := if a[0].sender != LOOP_THREAD then [a[0]] else [];
      assert (a + b)[1..] == a[1..] + b;
      QueuedConcat(a[1..], b);
      assert head + (Queued(a[1..]) + Queued(b)) == head + Queued(a[1..]) + Queued(b);
    }
  }

  lemma {:induction false} AllQueued(tasks: seq<Task>)
    requires forall t | t in tasks :: t.sender != LOOP_THREAD
    ensures Queued(tasks) == tasks && By(LOOP_THREAD, tasks) == []
  {
    if tasks != [] {
      AllQueued(tasks[1..]);
    }
  }

  /** Every queued task has run once or is still queued, in queue order; and every
      thread's sends have run, or will, in the order that thread made them. */
  predicate InOrder(s: State) {
    && (forall t | t in s.queue :: t.sender != LOOP_THREAD)
    && Queued(s.sent) == Queued(s.ran) + s.queue
  }

  ghost predicate OrderedPerSender(s: State) {
    forall p :: By(p, s.sent) == By(p, s.ran) + By(p, s.queue)
  }

  /** A queued task has a wake-up coming. */
  predicate Wakeful(s: State) {
    s.queue != [] ==> s.counter > 0 || s.pushing != {} || s.pc.Draining?
  }

  lemma StepKeepsOrder(c: Config, s: State, a: Action)
    requires InOrder(s) && OrderedPerSender(s) && Step(c, s, a).Some?
    ensures InOrder(Step(c, s, a).value) && OrderedPerSender(Step(c, s, a).value)
  {
    var t := Step(c, s, a).value;
    StepKeepsQueue(c, s, a);
    forall p ensures By(p, t.sent) == By(p, t.ran) + By(p, t.queue) {
      StepKeepsSender(c, s, a, p);
    }
  }

  lemma StepKeepsQueue(c: Config, s: State, a: Action)
    requires InOrder(s) && Step(c, s, a).Some?
    ensures InOrder(Step(c, s, a).value)
  {
    if a.Push? || a.Direct? {
      QueuedConcat(s.sent, [a.task]);
      QueuedConcat(s.ran, [a.task]);
    } else if a.Drain? {
      QueuedConcat(s.ran, s.queue);
      AllQueued(s.queue);
    }
  }

  lemma StepKeepsSender(c: Config, s: State, a: Action, p: nat)
    requires InOrder(s) && Step(c, s, a).Some? && By(p, s.sent) == By(p, s.ran) + By(p, s.queue)
    ensures var t := Step(c, s, a).value; By(p, t.sent) == By(p, t.ran) + By(p, t.queue)
  {
    hide By;
    match a
    case Push(t) =>
      ByConcat(p, s.sent, [t]);
      ByConcat(p, s.queue, [t]);
    case Direct(t) => DirectKeepsSender(p, s.sent, s.ran, s.queue, t);
    case Drain =>
      ByConcat(p, s.ran, s.queue);
      ByNothing(p);
    case _ =>
  }

  lemma ByNothing(p: nat)
    ensures By(p, []) == []
  {
  }

  lemma ByOne(p: nat, t: Task)
    ensures By(p, [t]) == if t.sender == p then [t] else []
  {
    assert By(p, [t]) == (if t.sender == p then [t] else []) + By(p, []);
  }

  /** The loop's direct writes overtake the queue, but it has nothing queued itself. */
  lemma DirectKeepsSender(p: nat, sent: seq<Task>, ran: seq<Task>, queue: seq<Task>, t: Task)
    requires By(p, sent) == By(p, ran) + By(p, queue) && t.sender == LOOP_THREAD
    requires forall q | q in queue :: q.sender != LOOP_THREAD
    ensures By(p, sent + [t]) == By(p, ran + [t]) + By(p, queue)
  {
    hide By;
    hide Queued;
    ByConcat(p, sent, [t]);
    ByConcat(p, ran, [t]);
    AllQueued(queue);
    ByOne(p, t);
  }

  /** The tasks that a run sends, queued or directly. */
  function Sends(actions: seq<Action>): seq<Task> {
    if actions == [] then []
    else (if actions[0].Push? || actions[0].Direct? then [actions[0].task] else []) + Sends(actions[1..])
  }

  lemma StepSends(c: Config, s: State, a: Action)
    requires Step(c, s, a).Some?
    ensures Step(c, s, a).value.sent == s.sent + if a.Push? || a.Direct? then [a.task] else []
  {
  }

  /** No send is left out. */
  lemma {:induction false} RunSends(c: Config, s: State, actions: seq<Action>)
    requires Run(c, s, actions).Some?
    ensures Run(c, s, actions).value.sent == s.sent + Sends(actions)
    decreases |actions|
  {
    hide Step;
    if actions != [] {
      StepSends(c, s, actions[0]);
      RunSends(c, Step(c, s, actions[0]).value, actions[1..]);
    }
  }

  /** In every interleaving, tasks run exactly once, in queue order, and each
      thread's messages keep the order in which it sent them. */
  lemma {:induction false} RunKeepsOrder(c: Config, s: State, actions: seq<Action>)
    requires InOrder(s) && OrderedPerSender(s)
    ensures var t := Run(c, s, actions);
      t.Some? ==> InOrder(t.value) && OrderedPerSender(t.value)
    decreases |actions|
  {
    hide Step;
    if actions != [] && Step(c, s, actions[0]).Some? {
      StepKeepsOrder(c, s, actions[0]);
      RunKeepsOrder(c, Step(c, s, actions[0]).value, actions[1..]);
    }
  }

  lemma {:induction false} RunIsWakeful(c: Config, s: State, actions: seq<Action>)
    requires !c.isMainLoop && !c.wakesWithZero && Wakeful(s)
    ensures Run(c, s, actions).Some? ==> Wakeful(Run(c, s, actions).value)
    decreases |actions|
  {
    if actions != [] && Step(c, s, actions[0]).Some? {
      RunIsWakeful(c, Step(c, s, actions[0]).value, actions[1..]);
    }
  }

  /** No wake-up is ever lost exactly when the loop is not the main loop, which does
      not drain, and the eventfd write adds a positive number. */
  lemma NoLostWakeUpExactly(c: Config)
    ensures (forall actions :: Run(c, Start, actions).Some? ==> Wakeful(Run(c, Start, actions).value))
      <==> !c.isMainLoop && !c.wakesWithZero
  {
    if !c.isMainLoop && !c.wakesWithZero {
      forall actions ensures Run(c, Start, actions).Some? ==> Wakeful(Run(c, Start, actions).value) {
        RunIsWakeful(c, Start, actions);
      }
    } else {
      var t := Task(1, 0, []);
      var s1 := State([t], 0, {1}, Polling, [], [t]);
      assert [] + [t] == [t] && {} + {1} == {1};
      assert Step(c, Start, Push(t)) == Some(s1);
      if c.wakesWithZero {
        LostByZero(c, t, s1);
      } else {
        LostByMainLoop(c, t, s1);
      }
    }
  }

  lemma LostByZero(c: Config, t: Task, s1: State)
    requires c.wakesWithZero && t.sender == 1 && s1 == State([t], 0, {1}, Polling, [], [t])
    requires Step(c, Start, Push(t)) == Some(s1)
    ensures exists actions :: Run(c, Start, actions).Some? && !Wakeful(Run(c, Start, actions).value)
  {
    var s2 := State([t], 0, {}, Polling, [], [t]);
    assert Step(c, s1, Wake(1, 0)) == Some(s2);
    var rest := [Wake(1, 0)];
    assert Run(c, s2, rest[1..]) == Some(s2);
    assert Run(c, s1, rest) == Some(s2);
    var all := [Push(t)] + rest;
    assert all[1..] == rest;
    assert Run(c, Start, all) == Some(s2);
  }

  lemma LostByMainLoop(c: Config, t: Task, s1: State)
    requires c.isMainLoop && t.sender == 1 && s1 == State([t], 0, {1}, Polling, [], [t])
    requires Step(c, Start, Push(t)) == Some(s1)
    ensures exists actions :: Run(c, Start, actions).Some? && !Wakeful(Run(c, Start, actions).value)
  {
    var s2 := State([t], 1, {}, Polling, [], [t]);
    assert Step(c, s1, Wake(1, 1)) == Some(s2);
    var s3 := State([t], 0, {}, Draining, [], [t]);
    assert Step(c, s2, Read) == Some(s3);
    var s4 := State([t], 0, {}, Polling, [], [t]);
    assert Step(c, s3, Drain) == Some(s4);
    var r3 := [Drain];
    assert Run(c, s4, r3[1..]) == Some(s4);
    assert Run(c, s3, r3) == Some(s4);
    var r2 := [Read] + r3;
    assert r2[1..] == r3;
    assert Run(c, s2, r2) == Some(s4);
    var r1 := [Wake(1, 1)] + r2;
    assert r1[1..] == r2;
    assert Run(c, s1, r1) == Some(s4);
    var all := [Push(t)] + r1;
    assert all[1..] == r1;
    assert Run(c, Start, all) == Some(s4);
  }

  /** A loop asleep in epoll_wait with tasks queued and every producer done is about
      to be woken, and then runs them all. */
  lemma SleepingLoopWakes(c: Config, actions: seq<Action>)
    requires !c.isMainLoop && !c.wakesWithZero && Run(c, Start, actions).Some?
    requires var s := Run(c, Start, actions).value; s.queue != [] && s.pushing == {} && s.pc.Polling?
    ensures var s := Run(c, Start, actions).value;
      && Step(c, s, Read).Some?
      && Step(c, Step(c, s, Read).value, Drain) == Some(s.(counter := 0, ran := s.ran + s.queue, queue := []))
  {
    RunIsWakeful(c, Start, actions);
  }
}
