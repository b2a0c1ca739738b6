/** The task queue of src/EventLoop.cpp and src/EventFd.cpp as objects, and what
    draining it does to one connection's output buffer. */
module TaskLoops {
  import opened Sequences
  import opened Bytes
  import opened Buffers
  import opened Connections
  import opened HandOff

  class EventFd {
    var counter: nat

    constructor ()
      ensures counter == 0
    {
      counter := 0;
    }

    method Wakeup(amount: nat)
      modifies this
      ensures counter == old(counter) + amount
    {
      counter := counter + amount;
    }

    method Wait()
      modifies this
      ensures counter == 0
    {
      counter := 0;
    }
  }

  class TaskLoop {
    const isMainLoop: bool
    const eventFd: EventFd
    var taskQueue: seq<Task>
    // where the producers and the loop are, and the tasks run and sent so far
    ghost var pushing: set<nat>
    ghost var pc: LoopPc
    ghost var ran: seq<Task>
    ghost var sent: seq<Task>

    /** The state of the hand-off protocol. */
    ghost function Abs(): State
      reads this, eventFd
    {
      State(taskQueue, eventFd.counter, pushing, pc, ran, sent)
    }

    constructor (isMainLoop: bool)
      ensures this.isMainLoop == isMainLoop && Abs() == Start && fresh(eventFd)
    {
      this.isMainLoop := isMainLoop;
      eventFd := new EventFd();
      taskQueue, pushing, pc, ran, sent := [], {}, Polling, [], [];
    }

    /** The locked part of addTask; the eventfd is written after it. */
    method PushTask(ghost c: Config, task: Task)
      requires Step(c, Abs(), Push(task)).Some?
      modifies this`taskQueue, this`pushing, this`sent
      ensures Step(c, old(Abs()), Push(task)) == Some(Abs())
    {
      taskQueue := taskQueue + [task];
      pushing, sent := pushing + {task.sender}, sent + [task];
    }

    /** The rest of addTask. */
    method WakeUp(ghost c: Config, ghost sender: nat, amount: nat)
      requires Step(c, Abs(), Wake(sender, amount)).Some?
      modifies this`pushing, eventFd
      ensures Step(c, old(Abs()), Wake(sender, amount)) == Some(Abs())
    {
      eventFd.Wakeup(amount);
      pushing := pushing - {sender};
    }

    /** Connection::send, from any thread: nothing on a closed connection; a write from
        the loop's own thread; from another, a task for the loop. */
    method Send(ghost c: Config, conn: Connection, task: Task)
      requires conn.Valid() && task.fd == conn.fd
      requires Step(c, Abs(), if task.sender == LOOP_THREAD then Direct(task) else Push(task)).Some?
      modifies this`taskQueue, this`pushing, this`ran, this`sent
      modifies conn.output, conn.output.buffer, conn.channel, conn.socket`interest, conn.socket`edge
      ensures conn.Valid() && fresh(conn.Repr() - old(conn.Repr()))
      ensures if old(conn.disconnect) then Abs() == old(Abs())
        else Step(c, old(Abs()), if task.sender == LOOP_THREAD then Direct(task) else Push(task)) == Some(Abs())
      ensures if old(conn.disconnect) || task.sender != LOOP_THREAD
        then conn.output.Contents() == old(conn.output.Contents()) && unchanged(conn.output, conn.channel, conn.socket)
        else conn.output.Contents() == old(conn.output.Contents()) + task.message && conn.Armed()
    {
      if conn.disconnect {
        return;
      }
      if task.sender == LOOP_THREAD {
        WriteDirectly(c, conn, task);
      } else {
        PushTask(c, task);
      }
    }

    method WriteDirectly(ghost c: Config, conn: Connection, task: Task)
      requires conn.Valid() && Step(c, Abs(), Direct(task)).Some?
      modifies this`ran, this`sent, conn.output, conn.output.buffer
      modifies conn.channel, conn.socket`interest, conn.socket`edge
      ensures conn.Valid() && fresh(conn.Repr() - old(conn.Repr()))
      ensures Step(c, old(Abs()), Direct(task)) == Some(Abs())
      ensures if task.fd == conn.fd
        then
          && conn.output.Contents() == old(conn.output.Contents()) + task.message && conn.Armed()
          && conn.channel.events == old(conn.channel.events).(write := true)
        else conn.output.Contents() == old(conn.output.Contents())
             && unchanged(conn.output, conn.channel, conn.socket)
    {
      RunTask(conn, task);
      sent := sent + [task];
    }

    /** The locked loop of handleWakeUp, as connection `conn` sees it: each of its
        tasks is a Connection::writeTo of a whole message, and the others touch
        other connections only. */
    method DrainTasks(conn: Connection)
      requires conn.Valid()
      modifies this`taskQueue, this`ran, conn.output, conn.output.buffer
      modifies conn.channel, conn.socket`interest, conn.socket`edge
      ensures conn.Valid() && fresh(conn.Repr() - old(conn.Repr()))
      ensures taskQueue == [] && ran == old(ran) + old(taskQueue)
      ensures conn.output.Contents()
        == old(conn.output.Contents()) + Flatten(Messages(conn.fd, old(taskQueue)))
      ensures if Messages(conn.fd, old(taskQueue)) == []
        then unchanged(conn.channel, conn.socket)
        else conn.Armed() && conn.channel.events == old(conn.channel.events).(write := true)
    {
      hide Flatten;
      hide Messages;
      hide Buffer.Valid;
      hide Buffer.Contents;
      ghost var out0 := conn.output.Contents();
      ghost var k := 0;
      ghost var tasks := taskQueue;
      NoMessages(conn.fd, tasks);
      while taskQueue != []
        invariant 0 <= k <= |tasks| && taskQueue == tasks[k..] && ran == old(ran) + tasks[..k]
        invariant conn.Valid() && fresh(conn.Repr() - old(conn.Repr()))
        invariant conn.output.Contents() == out0 + Flatten(Messages(conn.fd, tasks[..k]))
        invariant if Messages(conn.fd, tasks[..k]) == []
          then unchanged(conn.channel, conn.socket)
        else conn.Armed() && conn.channel.events == old(conn.channel.events).(write := true)
        decreases |taskQueue|
      {
        var task := taskQueue[0];
        MessagesSnoc(conn.fd, tasks[..k], task);
        assert tasks[..k + 1] == tasks[..k] + [task];
        RunTask(conn, task);
        taskQueue := taskQueue[1..];
        k := k + 1;
      }
      assert tasks[..k] == tasks;
    }

    method RunTask(conn: Connection, task: Task)
      requires conn.Valid()
      modifies this`ran, conn.output, conn.output.buffer
      modifies conn.channel, conn.socket`interest, conn.socket`edge
      ensures conn.Valid() && fresh(conn.Repr() - old(conn.Repr()))
      ensures ran == old(ran) + [task]
      ensures if task.fd == conn.fd
        then
          && conn.output.Contents() == old(conn.output.Contents()) + task.message && conn.Armed()
          && conn.channel.events == old(conn.channel.events).(write := true)
        else conn.output.Contents() == old(conn.output.Contents())
             && unchanged(conn.channel, conn.socket) && unchanged(conn.output)
    {
      if task.fd == conn.fd {
        conn.WriteTo(task.message);
      }
      ran := ran + [task];
    }

    /** handleWakeUp up to the lock: the eventfd is read. */
    method BeginWakeUp(ghost c: Config)
      requires Step(c, Abs(), Read).Some?
      modifies this`pc, eventFd
      ensures Step(c, old(Abs()), Read) == Some(Abs())
    {
      eventFd.Wait();
      pc := Draining;
    }

    /** The rest of handleWakeUp: a loop that is not the main loop drains. */
    method FinishWakeUp(ghost c: Config, conn: Connection)
      requires conn.Valid() && c.isMainLoop == isMainLoop && Step(c, Abs(), Drain).Some?
      modifies this`pc, this`taskQueue, this`ran, conn.output, conn.output.buffer
      modifies conn.channel, conn.socket`interest, conn.socket`edge
      ensures conn.Valid() && fresh(conn.Repr() - old(conn.Repr()))
      ensures Step(c, old(Abs()), Drain) == Some(Abs())
      ensures conn.output.Contents() == old(conn.output.Contents())
        + if isMainLoop then [] else Flatten(Messages(conn.fd, old(taskQueue)))
      ensures if isMainLoop || Messages(conn.fd, old(taskQueue)) == []
        then unchanged(conn.channel, conn.socket)
        else conn.Armed() && conn.channel.events == old(conn.channel.events).(write := true)
    {
      if !isMainLoop {
        DrainTasks(conn);
      }
      pc := Polling;
    }

    // ---- Whole runs ---------------------------------------------------------

    /** One step of a producer or of the loop. */
    method Play(ghost c: Config, conn: Connection, a: Action)
      requires conn.Valid() && c.isMainLoop == isMainLoop && Step(c, Abs(), a).Some?
      modifies this, eventFd, conn.output, conn.output.buffer
      modifies conn.channel, conn.socket`interest, conn.socket`edge
      ensures conn.Valid() && fresh(conn.Repr() - old(conn.Repr()))
      ensures Step(c, old(Abs()), a) == Some(Abs()) && old(ran) <= ran
      ensures conn.output.Contents()
        == old(conn.output.Contents()) + Flatten(Messages(conn.fd, ran[|old(ran)|..]))
      ensures old(conn.Alert(false)) ==> conn.Alert(false)
    {
      hide Flatten;
      hide Messages;
      hide Buffer.Valid;
      hide Buffer.Contents;
      NoMessages(conn.fd, ran);
      match a
      case Push(t) => PushTask(c, t);
      case Wake(sender, amount) => WakeUp(c, sender, amount);
      case Direct(t) =>
        MessagesOne(conn.fd, t);
        WriteDirectly(c, conn, t);
        assert ran[|old(ran)|..] == [t];
      case Nudge(amount) => eventFd.Wakeup(amount);
      case Read => BeginWakeUp(c);
      case Drain =>
        FinishWakeUp(c, conn);
        assert ran[|old(ran)|..] == if isMainLoop then [] else old(taskQueue);
    }

    /** The same, with the stream as far as it has left the output buffer. */
    method PlayEvent(ghost c: Config, conn: Connection, e: Event)
      requires conn.Valid() && conn.Alert(false) && c.isMainLoop == isMainLoop
      requires e.Hand? ==> Step(c, Abs(), e.action).Some?
      modifies this, eventFd, conn`disconnect, conn.output, conn.output.buffer
      modifies conn.channel, conn.socket`interest, conn.socket`edge, conn.socket`room, conn.socket`accepted
      modifies conn.socket`failed
      ensures conn.Valid() && conn.Alert(false) && fresh(conn.Repr() - old(conn.Repr()))
      ensures conn.disconnect ==> old(conn.disconnect) || conn.socket.failed
      ensures if e.Hand? then Step(c, old(Abs()), e.action) == Some(Abs()) else Abs() == old(Abs())
      ensures old(ran) <= ran
      ensures Stream(conn) == old(Stream(conn)) + Flatten(Messages(conn.fd, ran[|old(ran)|..]))
    {
      hide Flatten;
      hide Messages;
      hide Buffer.Valid;
      hide Buffer.Contents;
      NoMessages(conn.fd, ran);
      match e
      case Hand(a) => Play(c, conn, a);
      case Writable => conn.SendTo();
      case Acknowledged => conn.socket.Progress();
    }

    /** Any interleaving of any number of threads sending on any number of connections
        with the loop's wake-ups, with write events and with the peer, until the
        connection fails: the bytes that entered this one's output buffer, sent or not,
        are the whole messages of the tasks run, in order, and none is stranded. */
    method Replay(ghost c: Config, conn: Connection, events: seq<Event>) returns (ghost done: nat)
      requires conn.Valid() && conn.Alert(false) && c.isMainLoop == isMainLoop
      requires Run(c, Abs(), Actions(events)).Some?
      modifies this, eventFd, conn`disconnect, conn.output, conn.output.buffer
      modifies conn.channel, conn.socket`interest, conn.socket`edge, conn.socket`room, conn.socket`accepted
      modifies conn.socket`failed
      ensures conn.Valid() && conn.Alert(false) && fresh(conn.Repr() - old(conn.Repr()))
      ensures conn.disconnect ==> old(conn.disconnect) || conn.socket.failed
      ensures done <= |events| && (done < |events| ==> conn.disconnect)
      ensures Run(c, old(Abs()), Actions(events[..done])) == Some(Abs())
      ensures old(ran) <= ran
      ensures Stream(conn) == old(Stream(conn)) + Flatten(Messages(conn.fd, ran[|old(ran)|..]))
    {
      hide Flatten;
      hide Messages;
      hide Buffer.Valid;
      hide Buffer.Contents;
      hide Step;
      hide Run;
      hide Actions;
      hide Connection.Valid;
      hide Connection.Alert;
      hide Stream;
      NoMessages(conn.fd, ran);
      RunNothing(c, Abs());
      done := 0;
      var i := 0;
      assert events[..0] == [] && events[0..] == events;
      while i < |events| && !conn.disconnect
        invariant done == i <= |events|
        invariant conn.Valid() && conn.Alert(false) && fresh(conn.Repr() - old(conn.Repr()))
        invariant conn.disconnect ==> old(conn.disconnect) || conn.socket.failed
        invariant Run(c, old(Abs()), Actions(events[..i])) == Some(Abs())
        invariant Run(c, Abs(), Actions(events[i..])).Some?
        invariant old(ran) <= ran
        invariant Stream(conn) == old(Stream(conn)) + Flatten(Messages(conn.fd, ran[|old(ran)|..]))
      {
        ghost var s, ran1 := Abs(), ran;
        BuffersApart(conn);
        RunNext(c, old(Abs()), s, events, i);
        PlayEvent(c, conn, events[i]);
        StreamGrows(conn.fd, old(ran), ran1, ran);
        i := i + 1;
        done := i;
      }
    }

    /** From the start, on a fresh connection. */
    method Session(ghost c: Config, conn: Connection, events: seq<Event>) returns (ghost done: nat)
      requires conn.Valid() && conn.Alert(false) && c.isMainLoop == isMainLoop
      requires Abs() == Start && Stream(conn) == [] && Run(c, Start, Actions(events)).Some?
      modifies this, eventFd, conn`disconnect, conn.output, conn.output.buffer
      modifies conn.channel, conn.socket`interest, conn.socket`edge, conn.socket`room, conn.socket`accepted
      modifies conn.socket`failed
      ensures conn.Valid() && conn.Alert(false)
      ensures conn.disconnect ==> old(conn.disconnect) || conn.socket.failed
      ensures done <= |events| && (done < |events| ==> conn.disconnect)
      ensures Interleaved(Stream(conn), conn.fd, Sends(Actions(events[..done])), taskQueue)
    {
      hide Flatten;
      hide Messages;
      hide Buffer.Valid;
      hide Buffer.Contents;
      hide Run;
      hide Actions;
      done := Replay(c, conn, events);
      assert ran[0..] == ran;
      RunSends(c, Start, Actions(events[..done]));
      assert sent == Sends(Actions(events[..done]));
      OutputIsInterleaving(c, Actions(events[..done]), conn.fd, Stream(conn));
    }
  }

  /** A step of the protocol; or the kernel reports the connection writable; or the peer
      acknowledges bytes. */
  datatype Event = Hand(action: Action) | Writable | Acknowledged

  function Actions(events: seq<Event>): seq<Action> {
    if events == [] then []
    else (if events[0].Hand? then [events[0].action] else []) + Actions(events[1..])
  }

  lemma {:induction false} ActionsConcat(a: seq<Event>, b: seq<Event>)
    ensures Actions(a + b) == Actions(a) + Actions(b)
  {
    if a == [] {
      assert a + b == b;
    } else {
      var head := if a[0].Hand? then [a[0].action] else [];
      assert (a + b)[1..] == a[1..] + b;
      ActionsConcat(a[1..], b);
      assert head + (Actions(a[1..]) + Actions(b)) == head + Actions(a[1..]) + Actions(b);
    }
  }

  lemma ActionsOne(e: Event)
    ensures Actions([e]) == if e.Hand? then [e.action] else []
  {
    assert Actions([e]) == (if e.Hand? then [e.action] else []) + Actions([]);
  }

  lemma RunCons(c: Config, s: State, a: Action, rest: seq<Action>)
    requires Run(c, s, [a] + rest).Some?
    ensures Step(c, s, a).Some? && Run(c, Step(c, s, a).value, rest).Some?
  {
    hide Step;
    assert ([a] + rest)[1..] == rest;
  }

  lemma RunNothing(c: Config, s: State)
    ensures Actions([]) == [] && Run(c, s, Actions([])) == Some(s)
  {
  }

  /** The next event of a run that has come as far as `s`. */
  lemma RunNext(c: Config, s0: State, s: State, events: seq<Event>, i: nat)
    requires i < |events| && Run(c, s0, Actions(events[..i])) == Some(s)
    requires Run(c, s, Actions(events[i..])).Some?
    ensures var e := events[i];
      if e.Hand? then
        && Step(c, s, e.action).Some?
        && Run(c, s0, Actions(events[..i + 1])) == Step(c, s, e.action)
        && Run(c, Step(c, s, e.action).value, Actions(events[i + 1..])).Some?
      else
        && Run(c, s0, Actions(events[..i + 1])) == Some(s)
        && Run(c, s, Actions(events[i + 1..])).Some?
  {
    hide Step;
    hide Run;
    hide Actions;
    var e := events[i];
    assert events[..i + 1] == events[..i] + [e];
    ActionsConcat(events[..i], [e]);
    ActionsOne(e);
    ActionsConcat([e], events[i + 1..]);
    assert events[i..] == [e] + events[i + 1..];
    if e.Hand? {
      RunSnoc(c, s0, Actions(events[..i]), e.action);
      RunCons(c, s, e.action, Actions(events[i + 1..]));
    } else {
      assert Actions(events[..i]) + [] == Actions(events[..i]);
      assert [] + Actions(events[i + 1..]) == Actions(events[i + 1..]);
    }
  }

  lemma BuffersApart(conn: Connection)
    requires conn.Valid()
    ensures conn.input.buffer != conn.output.buffer
  {
  }

  /** What has entered a connection's output buffer: what the kernel took, and what is
      still there. */
  ghost function Stream(conn: Connection): bytes
    requires conn.Valid()
    reads conn, conn.Repr()
  {
    conn.socket.accepted + conn.output.Contents()
  }

  lemma StreamGrows(fd: nat, r0: seq<Task>, r1: seq<Task>, r2: seq<Task>)
    requires r0 <= r1 <= r2
    ensures Flatten(Messages(fd, r2[|r0|..]))
      == Flatten(Messages(fd, r1[|r0|..])) + Flatten(Messages(fd, r2[|r1|..]))
  {
    assert r2[|r0|..] == r1[|r0|..] + r2[|r1|..];
    MessagesConcat(fd, r1[|r0|..], r2[|r1|..]);
    FlattenConcat(Messages(fd, r1[|r0|..]), Messages(fd, r2[|r1|..]));
  }

  lemma NoMessages(fd: nat, tasks: seq<Task>)
    ensures tasks[|tasks|..] == [] && Messages(fd, []) == [] && Flatten(Messages(fd, [])) == []
  {
  }

  lemma MessagesOne(fd: nat, t: Task)
    ensures Flatten(Messages(fd, [t])) == if t.fd == fd then t.message else []
  {
    assert [] + [t] == [t];
    MessagesSnoc(fd, [], t);
  }

  /** The messages that a list of tasks sends on one connection. */
  function Messages(fd: nat, tasks: seq<Task>): seq<bytes> {
    if tasks == [] then []
    else (if tasks[0].fd == fd then [tasks[0].message] else []) + Messages(fd, tasks[1..])
  }

  lemma {:induction false} MessagesConcat(fd: nat, a: seq<Task>, b: seq<Task>)
    ensures Messages(fd, a + b) == Messages(fd, a) + Messages(fd, b)
  {
    if a == [] {
      assert a + b == b;
    } else {
      var head := if a[0].fd == fd then [a[0].message] else [];
      assert (a + b)[1..] == a[1..] + b;
      MessagesConcat(fd, a[1..], b);
      assert head + (Messages(fd, a[1..]) + Messages(fd, b)) == head + Messages(fd, a[1..]) + Messages(fd, b);
    }
  }

  lemma MessagesSnoc(fd: nat, tasks: seq<Task>, t: Task)
    ensures Messages(fd, tasks + [t]) == Messages(fd, tasks) + if t.fd == fd then [t.message] else []
    ensures Flatten(Messages(fd, tasks + [t]))
      == Flatten(Messages(fd, tasks)) + if t.fd == fd then t.message else []
  {
    MessagesConcat(fd, tasks, [t]);
    FlattenSnoc(Messages(fd, tasks), t.message);
    assert Messages(fd, [t]) == (if t.fd == fd then [t.message] else []) + Messages(fd, []);
    if t.fd != fd {
      assert Messages(fd, tasks + [t]) == Messages(fd, tasks);
    }
  }

  /** The stream is whole messages: an interleaving, for all threads, of the first ones
      that each sent on the connection, in its own order; of all, if none is queued. */
  ghost predicate Interleaved(stream: bytes, fd: nat, sent: seq<Task>, queue: seq<Task>) {
    exists ran: seq<Task> ::
      && stream == Flatten(Messages(fd, ran))
      && (forall p: nat :: By(p, ran) <= By(p, sent))
      && (queue == [] ==> forall p: nat :: By(p, ran) == By(p, sent))
  }

  lemma OutputIsInterleaving(c: Config, actions: seq<Action>, fd: nat, stream: bytes)
    requires Run(c, Start, actions).Some?
    requires stream == Flatten(Messages(fd, Run(c, Start, actions).value.ran))
    ensures var s := Run(c, Start, actions).value; Interleaved(stream, fd, s.sent, s.queue)
  {
    hide Run;
    hide Flatten;
    hide Messages;
    RunKeepsOrder(c, Start, actions);
    var s := Run(c, Start, actions).value;
    forall p: nat ensures By(p, s.ran) <= By(p, s.sent) {
      assert By(p, s.sent) == By(p, s.ran) + By(p, s.queue);
    }
    if s.queue == [] {
      forall p: nat ensures By(p, s.ran) == By(p, s.sent) {
        assert By(p, s.sent) == By(p, s.ran) + By(p, s.queue);
      }
    }
  }
}
