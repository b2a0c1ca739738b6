/** The echo server with worker threads: the I/O thread gives each delivered message to
    the thread pool, a worker sends the reply, and the send goes to the I/O thread
    as a task. ThreadPools and HandOff, run together. */
module WorkerEchoes {
  import opened Sequences
  import opened Bytes
  import opened Framing
  import opened TableSpec
  import P = ThreadPools
  import H = HandOff
  import opened TaskLoops

  /** A message that the parser has delivered on a connection. */
  datatype Job = Job(fd: nat, message: bytes)

  /** The jobs in the order of their delivery: the pool's tasks are their positions. */
  datatype State = State(jobs: seq<Job>, pool: P.Pool, hand: H.State)

  function Start(workers: nat): State {
    State([], P.Start(workers), H.Start)
  }

  datatype Action =
    | Deliver(job: Job)     // HandleOnMessage: AddTask
    | Answer(w: nat)        // worker w sends its reply, and is done
    | Pool(step: P.Action)  // stop, and the workers' waiting and waking
    | Hand(event: H.Action) // eventfd writes, and the I/O thread's wake-ups

  /** What worker w sends for a job; the I/O thread itself is not a worker. */
  function Reply(w: nat, job: Job): H.Task {
    H.Task(w + 1, job.fd, Encode(Framing.Reply(job.message)))
  }

  function Both(s: State, pool: P.Outcome, hand: Option<H.State>): Option<State> {
    if pool.To? && hand.Some? then Some(s.(pool := pool.pool, hand := hand.value)) else None
  }

  /** A worker's last effect on what it shares is the push of its reply, but for the
      eventfd write, which HandOff keeps apart; so it is taken to finish with the push. */
  function Step(c: H.Config, s: State, a: Action): Option<State> {
    match a
    case Deliver(job) =>
      Both(s.(jobs := s.jobs + [job]), P.Step(s.pool, P.Add(|s.jobs|)), Some(s.hand))
    case Answer(w) =>
      if w < |s.pool.workers| && s.pool.workers[w].Busy? && s.pool.workers[w].task < |s.jobs| then
        Both(s, P.Step(s.pool, P.Finish(w)), H.Step(c, s.hand, H.Push(Reply(w, s.jobs[s.pool.workers[w].task]))))
      else None
    case Pool(b) =>
      if b.Add? || b.Finish? then None else Both(s, P.Step(s.pool, b), Some(s.hand))
    case Hand(b) =>
      if b.Push? || b.Direct? then None else Both(s, P.To(s.pool), H.Step(c, s.hand, b))
  }

  function Run(c: H.Config, s: State, actions: seq<Action>): Option<State>
    decreases |actions|
  {
    if actions == [] then Some(s)
    else
      var t := Step(c, s, actions[0]);
      if t.None? then None else Run(c, t.value, actions[1..])
  }

  /** The jobs that a run delivers. */
  function Deliveries(actions: seq<Action>): seq<Job> {
    if actions == [] then []
    else (if actions[0].Deliver? then [actions[0].job] else []) + Deliveries(actions[1..])
  }

  lemma StepDelivers(c: H.Config, s: State, a: Action)
    requires Step(c, s, a).Some?
    ensures Step(c, s, a).value.jobs == s.jobs + if a.Deliver? then [a.job] else []
  {
    hide P.Step;
    hide H.Step;
  }

  lemma {:induction false} RunDelivers(c: H.Config, s: State, actions: seq<Action>)
    requires Run(c, s, actions).Some?
    ensures Run(c, s, actions).value.jobs == s.jobs + Deliveries(actions)
    decreases |actions|
  {
    hide Step;
    if actions != [] {
      StepDelivers(c, s, actions[0]);
      RunDelivers(c, Step(c, s, actions[0]).value, actions[1..]);
    }
  }

  // ---- The invariant ------------------------------------------------------------

  /** The k-th reply sent is that of the k-th job finished. */
  predicate Answers(jobs: seq<Job>, finished: seq<nat>, sent: seq<H.Task>) {
    && |sent| == |finished|
    && forall k | 0 <= k < |sent| ::
         finished[k] < |jobs| && sent[k].sender > 0 && sent[k] == Reply(sent[k].sender - 1, jobs[finished[k]])
  }

  predicate InTurn(n: nat, added: seq<nat>) {
    |added| == n && forall i | 0 <= i < n :: added[i] == i
  }

  ghost predicate Sound(s: State) {
    && P.Sound(s.pool) && H.InOrder(s.hand) && H.OrderedPerSender(s.hand)
    && InTurn(|s.jobs|, s.pool.added) && Answers(s.jobs, s.pool.finished, s.hand.sent)
  }

  lemma PoolStep(p: P.Pool, a: P.Action)
    requires P.Sound(p) && P.Step(p, a).To?
    ensures var q := P.Step(p, a).pool;
      && P.Sound(q)
      && q.added == (if a.Add? then p.added + [a.task] else p.added)
      && (a.Finish? ==> a.w < |p.workers| && p.workers[a.w].Busy?)
      && q.finished == (if a.Finish? then p.finished + [p.workers[a.w].task] else p.finished)
  {
    hide P.Sound;
    hide P.Locked;
    hide P.AllGone;
    P.StepIsSound(p, a);
    match a
    case Add(_) =>
    case Stop =>
    case Wake(_) =>
    case Decide(_) =>
    case Finish(_) =>
  }

  lemma HandStep(c: H.Config, s: H.State, a: H.Action)
    requires H.InOrder(s) && H.OrderedPerSender(s) && H.Step(c, s, a).Some?
    ensures var t := H.Step(c, s, a).value;
      && H.InOrder(t) && H.OrderedPerSender(t)
      && t.sent == (if a.Push? || a.Direct? then s.sent + [a.task] else s.sent)
  {
    H.StepKeepsOrder(c, s, a);
    hide H.InOrder;
    hide H.OrderedPerSender;
  }

  lemma StepIsSound(c: H.Config, s: State, a: Action)
    requires Sound(s) && Step(c, s, a).Some?
    ensures Sound(Step(c, s, a).value)
  {
    hide P.Step;
    hide P.Sound;
    hide H.Step;
    hide H.InOrder;
    hide H.OrderedPerSender;
    match a
    case Deliver(job) => PoolStep(s.pool, P.Add(|s.jobs|));
    case Answer(w) =>
      PoolStep(s.pool, P.Finish(w));
      HandStep(c, s.hand, H.Push(Reply(w, s.jobs[s.pool.workers[w].task])));
    case Pool(b) => PoolStep(s.pool, b);
    case Hand(b) => HandStep(c, s.hand, b);
  }

  lemma {:induction false} RunIsSound(c: H.Config, s: State, actions: seq<Action>)
    requires Sound(s) && Run(c, s, actions).Some?
    ensures Sound(Run(c, s, actions).value)
    decreases |actions|
  {
    hide Step;
    hide Sound;
    if actions != [] {
      StepIsSound(c, s, actions[0]);
      RunIsSound(c, Step(c, s, actions[0]).value, actions[1..]);
    }
  }

  lemma StartIsSound(workers: nat)
    ensures Sound(Start(workers))
  {
    P.StartIsSound(workers);
    hide P.Sound;
  }

  // ---- Each message is answered once ----------------------------------------------

  predicate Within(ids: seq<nat>, n: nat) {
    forall k | 0 <= k < |ids| :: ids[k] < n
  }

  /** The messages of one connection among the jobs `ids`. */
  function Delivered(fd: nat, jobs: seq<Job>, ids: seq<nat>): seq<bytes>
    requires Within(ids, |jobs|)
  {
    if ids == [] then []
    else (if jobs[ids[0]].fd == fd then [jobs[ids[0]].message] else []) + Delivered(fd, jobs, ids[1..])
  }

  /** The stream is one reply to each of the messages delivered on the connection, in some
      order: to some of them, or to all. */
  ghost predicate AnsweredOnce(stream: bytes, fd: nat, jobs: seq<Job>, all: bool) {
    exists ids: seq<nat> ::
      && Distinct(ids) && Within(ids, |jobs|) && (all ==> |ids| == |jobs|)
      && stream == ReplyStream(Delivered(fd, jobs, ids))
  }

  /** Nothing occurs twice in a part of what is in turn. */
  lemma PartIsDistinct(n: nat, added: seq<nat>, part: seq<nat>)
    requires InTurn(n, added) && multiset(part) <= multiset(added)
    ensures Distinct(part) && Within(part, n)
  {
    forall k | 0 <= k < |part| ensures part[k] < n {
      assert part[k] in multiset(part) && part[k] in multiset(added);
      assert part[k] in added;
    }
    forall i, j | 0 <= i < j < |part| ensures part[i] != part[j] {
      if part[i] == part[j] {
        TwiceIsTwo(part, i, j);
        OnceIsOne(n, added, part[i]);
      }
    }
  }

  lemma TwiceIsTwo(s: seq<nat>, i: nat, j: nat)
    requires i < j < |s| && s[i] == s[j]
    ensures multiset(s)[s[i]] >= 2
  {
    assert s == s[..j] + [s[j]] + s[j + 1..];
    assert s[i] in s[..j];
    assert multiset(s) == multiset(s[..j]) + multiset{s[j]} + multiset(s[j + 1..]);
  }

  lemma {:induction false} OnceIsOne(n: nat, added: seq<nat>, x: nat)
    requires InTurn(n, added)
    ensures multiset(added)[x] <= 1
  {
    if n > 0 {
      var front := added[..n - 1];
      OnceIsOne(n - 1, front, x);
      assert added == front + [added[n - 1]];
      assert multiset(added) == multiset(front) + multiset{added[n - 1]};
      if x == n - 1 {
        assert x !in front;
      }
    }
  }

  /** The stream of the tasks run is the replies to the jobs they answer. */
  lemma {:induction false} StreamIsReplies(fd: nat, jobs: seq<Job>, ids: seq<nat>, ran: seq<H.Task>)
    requires Answers(jobs, ids, ran) && Within(ids, |jobs|)
    ensures Flatten(Messages(fd, ran)) == ReplyStream(Delivered(fd, jobs, ids))
    decreases |ran|
  {
    if ran != [] {
      StreamIsReplies(fd, jobs, ids[1..], ran[1..]);
      var job := jobs[ids[0]];
      if job.fd == fd {
        assert Messages(fd, ran) == [Encode(Framing.Reply(job.message))] + Messages(fd, ran[1..]);
        assert Delivered(fd, jobs, ids) == [job.message] + Delivered(fd, jobs, ids[1..]);
      } else {
        assert Messages(fd, ran) == Messages(fd, ran[1..]);
        assert Delivered(fd, jobs, ids) == Delivered(fd, jobs, ids[1..]);
      }
    }
  }

  // ---- Whole runs -----------------------------------------------------------------

  lemma {:induction false} NoneBy(p: nat, tasks: seq<H.Task>)
    ensures H.By(p, tasks) == [] <==> forall t | t in tasks :: t.sender != p
  {
    if tasks != [] {
      NoneBy(p, tasks[1..]);
      assert tasks == [tasks[0]] + tasks[1..];
    }
  }

  /** The I/O thread sends nothing of its own, so what was sent has run or is queued. */
  lemma SentHasRun(s: State)
    requires Sound(s)
    ensures s.hand.sent == s.hand.ran + s.hand.queue
  {
    hide P.Sound;
    var h := s.hand;
    forall t | t in h.sent ensures t.sender != H.LOOP_THREAD {
      var k :| 0 <= k < |h.sent| && h.sent[k] == t;
    }
    NoneBy(H.LOOP_THREAD, h.sent);
    NoneBy(H.LOOP_THREAD, h.ran);
    assert H.By(H.LOOP_THREAD, h.sent) == H.By(H.LOOP_THREAD, h.ran) + H.By(H.LOOP_THREAD, h.queue);
    H.AllQueued(h.sent);
    H.AllQueued(h.ran);
  }

  lemma FinishedIsPart(p: P.Pool)
    requires P.Sound(p)
    ensures multiset(p.finished) <= multiset(p.added)
    ensures Settled(p) ==> |p.finished| == |p.added|
  {
    assert multiset(p.added) == multiset(p.started) + multiset(p.queue);
    if Settled(p) {
      P.NoneRunning(p.workers);
      assert multiset(p.finished) == multiset(p.added);
      assert |multiset(p.finished)| == |p.finished| && |multiset(p.added)| == |p.added|;
    }
  }

  /** Nothing is waiting to be done, and nobody is at work. */
  predicate Settled(p: P.Pool) {
    p.queue == [] && forall w | 0 <= w < |p.workers| :: !p.workers[w].Busy?
  }

  /** In every run, with any number of workers, each message is answered at most once, on
      its own connection; and exactly once, when the pool has settled and the I/O
      thread has drained its queue. */
  lemma EveryMessageIsAnsweredOnce(c: H.Config, workers: nat, actions: seq<Action>, fd: nat)
    requires Run(c, Start(workers), actions).Some?
    ensures var s := Run(c, Start(workers), actions).value;
      AnsweredOnce(Flatten(Messages(fd, s.hand.ran)), fd, Deliveries(actions),
                   Settled(s.pool) && s.hand.queue == [])
  {
    hide Sound;
    RunDelivers(c, Start(workers), actions);
    assert Run(c, Start(workers), actions).value.jobs == Deliveries(actions);
    StartIsSound(workers);
    RunIsSound(c, Start(workers), actions);
    SoundAnswersOnce(Run(c, Start(workers), actions).value, fd);
  }

  lemma SoundAnswersOnce(s: State, fd: nat)
    requires Sound(s)
    ensures AnsweredOnce(Flatten(Messages(fd, s.hand.ran)), fd, s.jobs, Settled(s.pool) && s.hand.queue == [])
  {
    hide Flatten;
    hide Messages;
    hide ReplyStream;
    hide Delivered;
    hide Sound;
    hide Settled;
    var ids := RanAnswers(s);
    StreamIsReplies(fd, s.jobs, ids, s.hand.ran);
  }

  /** What has run answers the first jobs that were finished. */
  lemma RanAnswers(s: State) returns (ids: seq<nat>)
    requires Sound(s)
    ensures Answers(s.jobs, ids, s.hand.ran) && Distinct(ids) && Within(ids, |s.jobs|)
    ensures Settled(s.pool) && s.hand.queue == [] ==> |ids| == |s.jobs|
  {
    hide P.Sound;
    hide Settled;
    hide H.InOrder;
    hide H.OrderedPerSender;
    SentHasRun(s);
    FinishedIsPart(s.pool);
    PartIsDistinct(|s.jobs|, s.pool.added, s.pool.finished);
    ids := s.pool.finished[..|s.hand.ran|];
    assert forall k | 0 <= k < |s.hand.ran| :: s.hand.ran[k] == s.hand.sent[k];
  }

  /** When all workers have returned and no message came after the last of them did, the
      pool has settled. */
  lemma ReturnedIsSettled(n: nat, actions: seq<P.Action>)
    requires P.Run(P.Start(n), actions).To? && P.AllGone(P.Run(P.Start(n), actions).pool)
    ensures var p := P.Run(P.Start(n), actions).pool; Settled(p) <==> p.late == []
  {
    P.EveryTaskRunsExactly(n, actions);
  }

  /** A client decodes the replies: one to each message delivered on its connection, in
      some order. */
  lemma RepliesOnceDecode(stream: bytes, fd: nat, jobs: seq<Job>, all: bool) returns (ids: seq<nat>)
    requires AnsweredOnce(stream, fd, jobs, all)
    requires forall job | job in jobs :: |job.message| < MESSAGE_LIMIT - 7
    ensures Distinct(ids) && Within(ids, |jobs|) && (all ==> |ids| == |jobs|)
    ensures Parse(stream) == Parsed(Replies(Delivered(fd, jobs, ids)), [], false)
    ensures var rs, ms := Parse(stream).messages, Delivered(fd, jobs, ids);
      && |rs| == |ms|
      && forall i | 0 <= i < |ms| ::
           |rs[i]| == 7 + |ms[i]| && IsText(rs[i][..7], "reply: ") && rs[i][7..] == ms[i]
  {
    ids :| Distinct(ids) && Within(ids, |jobs|) && (all ==> |ids| == |jobs|)
      && stream == ReplyStream(Delivered(fd, jobs, ids));
    DeliveredFrom(fd, jobs, ids);
    RepliesDecode(Delivered(fd, jobs, ids));
  }

  lemma {:induction false} DeliveredFrom(fd: nat, jobs: seq<Job>, ids: seq<nat>)
    requires Within(ids, |jobs|)
    requires forall job | job in jobs :: |job.message| < MESSAGE_LIMIT - 7
    ensures forall m | m in Delivered(fd, jobs, ids) :: |m| < MESSAGE_LIMIT - 7
  {
    if ids != [] {
      assert jobs[ids[0]] in jobs;
      DeliveredFrom(fd, jobs, ids[1..]);
    }
  }
}
