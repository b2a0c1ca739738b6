/** What the invariant of ServerSpec is worth, over every run of a whole server in which
    no descriptor clashes: what a time-out sweep takes and spares, and what becomes
    of active and of closed connections. */
module ServerTheorems {
  import opened Sequences
  import opened TableSpec
  import opened ServerSpec

  ghost predicate Reaches(c: Config, s: Server, t: Server)
    requires c.n > 0 && |s.loops| == c.n
  {
    exists actions :: Run(c, s, actions) == Some(t) && ClashFree(c, s, actions)
  }

  /** Some run without a clash, from the server's start at any time, leads here. */
  ghost predicate Reachable(c: Config, s: Server)
    requires c.n > 0
  {
    exists clock: int :: Reaches(c, Init(c, clock), s)
  }

  lemma ReachableSound(c: Config, s: Server)
    requires c.n > 0 && Reachable(c, s)
    ensures Sound(c, s)
  {
    hide Sound;
    var clock: int :| Reaches(c, Init(c, clock), s);
    var actions :| Run(c, Init(c, clock), actions) == Some(s) && ClashFree(c, Init(c, clock), actions);
    InitSound(c, clock);
    RunSound(c, Init(c, clock), actions);
  }

  // ---- Index and owner map ------------------------------------------------------

  /** A descriptor the kernel can hand out again is listed nowhere: reuse never
      finds a stale entry. */
  lemma ReuseFindsNothing(c: Config, s: Server, fd: nat)
    requires Sound(c, s) && fd !in s.owners
    ensures forall i | 0 <= i < c.n :: fd !in s.loops[i].order && fd !in s.loops[i].entries
  {
  }

  /** When no thread is in the middle of anything, exactly the owned connections are
      listed, each by the loop its descriptor belongs to. */
  lemma QuietTablesAgree(c: Config, s: Server)
    requires Sound(c, s) && s.accepting.Nothing?
    requires forall i | 0 <= i < c.n :: s.loops[i].pc.Idle?
    ensures forall i, fd | 0 <= i < c.n ::
      fd in s.loops[i].entries <==> fd in s.owners && fd % c.n == i
  {
    forall i, fd | 0 <= i < c.n
      ensures fd in s.loops[i].entries <==> fd in s.owners && fd % c.n == i
    {
      assert LoopSound(c, s.loops[i], i, s.owners, s.clock);
    }
  }

  // ---- The sweep ----------------------------------------------------------------

  /** The sweep takes exactly the connections idle for the interval, by what the clock
      shows when it is done. */
  predicate SweepsExactly(c: Config, s: Server, i: nat, readings: seq<int>)
    requires c.n > 0 && |s.loops| == c.n && Step(c, s, Sweep(i, readings)).Some?
  {
    var l, t := s.loops[i], Step(c, s, Sweep(i, readings)).value;
    forall fd | fd in l.order :: fd in t.loops[i].order <==> t.clock - l.entries[fd].last < c.interval
  }

  function MovesOf(c: Config, s: Server, i: nat): (r: seq<int>)
    requires Sound(c, s) && i < c.n && s.loops[i].pc.Idle?
    ensures |r| == |s.loops[i].order| && Falling(r) && Timely(Lasts(s.loops[i]), r, c.d)
  {
    var l := s.loops[i];
    assert LoopSound(c, l, i, s.owners, s.clock);
    seq(|l.order|, k requires 0 <= k < |l.order| => l.entries[l.order[k]].moved)
  }

  lemma SweepIs(c: Config, s: Server, i: nat, readings: seq<int>)
    requires Sound(c, s) && Step(c, s, Sweep(i, readings)).Some?
    ensures var l, t := s.loops[i], Step(c, s, Sweep(i, readings)).value;
      && i < c.n && Listed(l) && Distinct(l.order) && l.pc.Idle? && |readings| == |l.order| && Rising(readings)
      && t == With(s, i, Swept(l, Kept(l, readings, c.interval))).(clock := t.clock, condemned := t.condemned)
      && t.clock == if readings == [] then s.clock
                    else readings[Min(|readings| - Kept(l, readings, c.interval), |readings| - 1)]
  {
    hide SweepCount;
    assert LoopSound(c, s.loops[i], i, s.owners, s.clock);
  }

  /** A sweep in any reachable state: what it takes has been idle for the interval,
      and what it leaves has not been idle for interval + d. */
  lemma EverySweepIsSound(c: Config, s: Server, i: nat, readings: seq<int>)
    requires Sound(c, s) && Step(c, s, Sweep(i, readings)).Some?
    ensures var l, t := s.loops[i], Step(c, s, Sweep(i, readings)).value;
      forall fd | fd in l.order ::
        if fd in t.loops[i].order then t.clock - l.entries[fd].last < c.interval + c.d
        else t.clock - l.entries[fd].last >= c.interval
  {
    hide SweepCount;
    hide Step;
    hide Sound;
    SweepIs(c, s, i, readings);
    var l, t := s.loops[i], Step(c, s, Sweep(i, readings)).value;
    var kept := Kept(l, readings, c.interval);
    SweepIsSound(Lasts(l), MovesOf(c, s, i), readings, c.interval, c.d);
    KeptOrSwept(l.order, kept);
    forall fd | fd in l.order
      ensures if fd in t.loops[i].order then t.clock - l.entries[fd].last < c.interval + c.d
        else t.clock - l.entries[fd].last >= c.interval
    {
      var j :| 0 <= j < |l.order| && l.order[j] == fd;
      assert Lasts(l)[j] == l.entries[fd].last;
      assert j < kept ==> l.order[..kept][j] == fd;
    }
  }

  lemma SweepWithoutInterval(c: Config, s: Server, i: nat, readings: seq<int>)
    requires Sound(c, s) && Step(c, s, Sweep(i, readings)).Some? && c.interval <= 0
    ensures Step(c, s, Sweep(i, readings)).value.loops[i].order == []
  {
    hide SweepCount;
    var l := s.loops[i];
    assert LoopSound(c, l, i, s.owners, s.clock);
    SweepTakesAll(Lasts(l), readings, c.interval);
  }

  lemma PromptSweepIsExact(c: Config, s: Server, i: nat, readings: seq<int>)
    requires Sound(c, s) && Step(c, s, Sweep(i, readings)).Some? && (c.d == 0 || c.interval <= 0)
    ensures SweepsExactly(c, s, i, readings)
  {
    hide Step;
    hide Sound;
    EverySweepIsSound(c, s, i, readings);
    if c.interval <= 0 {
      SweepWithoutInterval(c, s, i, readings);
    }
  }

  // ---- Activity -----------------------------------------------------------------

  /** Descriptor `fd` of loop `i` is connection `conn`, last active at `since` or later,
      and not closed. */
  predicate Active(s: Server, i: nat, fd: nat, conn: nat, since: int) {
    && i < |s.loops| && fd in s.loops[i].order && fd !in s.loops[i].delayed
    && fd in s.loops[i].entries && s.loops[i].entries[fd].conn == conn
    && since <= s.loops[i].entries[fd].last
  }

  lemma SweepSpares(c: Config, s: Server, i: nat, readings: seq<int>, fd: nat, conn: nat, since: int)
    requires Sound(c, s) && Step(c, s, Sweep(i, readings)).Some? && Active(s, i, fd, conn, since)
    requires Step(c, s, Sweep(i, readings)).value.clock - since < c.interval
    ensures Active(Step(c, s, Sweep(i, readings)).value, i, fd, conn, since)
  {
    hide SweepCount;
    hide Step;
    hide Sound;
    SweepIs(c, s, i, readings);
    EverySweepIsSound(c, s, i, readings);
    KeptOrSwept(s.loops[i].order, Kept(s.loops[i], readings, c.interval));
  }

  lemma StampActive(c: Config, s: Server, i: nat, x: nat, fd: nat, conn: nat, since: int)
    requires Sound(c, s) && Step(c, s, Stamp(i, x)).Some? && Active(s, i, fd, conn, since)
    ensures Active(Step(c, s, Stamp(i, x)).value, i, fd, conn, since)
  {
    hide LoopSound;
    LastIsPast(c, s.loops[i], i, s.owners, s.clock, fd);
  }

  lemma LastIsPast(c: Config, l: Loop, i: nat, owners: map<nat, nat>, clock: int, fd: nat)
    requires c.n > 0 && LoopSound(c, l, i, owners, clock) && fd in l.order
    ensures fd in l.entries && l.entries[fd].last <= clock
  {
  }

  lemma SpliceActive(c: Config, s: Server, i: nat, fd: nat, conn: nat, since: int)
    requires Sound(c, s) && Step(c, s, Splice(i)).Some? && Active(s, i, fd, conn, since)
    ensures Active(Step(c, s, Splice(i)).value, i, fd, conn, since)
  {
    hide LoopSound;
  }

  lemma EnlistActive(c: Config, s: Server, i: nat, fd: nat, conn: nat, since: int)
    requires Sound(c, s) && Step(c, s, Enlist).Some? && Active(s, i, fd, conn, since)
    ensures Active(Step(c, s, Enlist).value, i, fd, conn, since)
  {
    assert LoopSound(c, s.loops[i], i, s.owners, s.clock);
    assert fd % c.n == i;
  }

  lemma DeleteActive(c: Config, s: Server, i: nat, fd: nat, conn: nat, since: int)
    requires Sound(c, s) && Step(c, s, BeginDelete(i)).Some? && Active(s, i, fd, conn, since)
    ensures Active(Step(c, s, BeginDelete(i)).value, i, fd, conn, since)
  {
    hide LoopSound;
  }

  /** Loop i's tables are left alone by the other loops' threads, by the clock and by
      an accept. */
  lemma LoopUntouched(c: Config, s: Server, a: Action, i: nat)
    requires c.n > 0 && |s.loops| == c.n && i < c.n && Step(c, s, a).Some?
    requires a.Tick? || a.Accept? || (!a.Enlist? && a.i != i)
    ensures Step(c, s, a).value.loops[i] == s.loops[i]
  {
    hide Enlisted;
    hide StampedAt;
    hide Spliced;
    hide Deleted;
    hide Swept;
    hide SweepCount;
  }

  lemma ActiveStep(c: Config, s: Server, a: Action, i: nat, fd: nat, conn: nat, since: int)
    requires Sound(c, s) && Step(c, s, a).Some? && Active(s, i, fd, conn, since) && !Clash(c, s, a)
    requires a != Close(i, fd) && Step(c, s, a).value.clock - since < c.interval
    ensures Active(Step(c, s, a).value, i, fd, conn, since)
  {
    hide LoopSound;
    if a.Enlist? {
      EnlistActive(c, s, i, fd, conn, since);
    } else if a.Tick? || a.Accept? || a.i != i {
      LoopUntouched(c, s, a, i);
    } else {
      match a
      case Stamp(_, x) => StampActive(c, s, i, x, fd, conn, since);
      case Splice(_) => SpliceActive(c, s, i, fd, conn, since);
      case BeginDelete(_) => DeleteActive(c, s, i, fd, conn, since);
      case Sweep(_, readings) => SweepSpares(c, s, i, readings, fd, conn, since);
      case _ =>
    }
  }

  lemma ClockStep(c: Config, s: Server, a: Action)
    requires c.n > 0 && |s.loops| == c.n && Step(c, s, a).Some?
    ensures s.clock <= Step(c, s, a).value.clock
  {
    hide SweepCount;
  }

  lemma {:induction false} ClockRun(c: Config, s: Server, actions: seq<Action>)
    requires c.n > 0 && |s.loops| == c.n && Run(c, s, actions).Some?
    ensures s.clock <= Run(c, s, actions).value.clock
    decreases |actions|
  {
    hide Step;
    if actions != [] {
      ClockStep(c, s, actions[0]);
      ClockRun(c, Step(c, s, actions[0]).value, actions[1..]);
    }
  }

  lemma {:induction false} ActiveRun(c: Config, s: Server, actions: seq<Action>, i: nat, fd: nat, conn: nat, since: int)
    requires Sound(c, s) && Run(c, s, actions).Some? && ClashFree(c, s, actions) && Active(s, i, fd, conn, since)
    requires Close(i, fd) !in actions && Run(c, s, actions).value.clock - since < c.interval
    ensures Active(Run(c, s, actions).value, i, fd, conn, since)
    decreases |actions|
  {
    hide Step;
    hide Sound;
    hide Active;
    hide Clash;
    if actions != [] {
      var t := Step(c, s, actions[0]).value;
      StepSound(c, s, actions[0]);
      ClockRun(c, t, actions[1..]);
      ActiveStep(c, s, actions[0], i, fd, conn, since);
      ActiveRun(c, t, actions[1..], i, fd, conn, since);
    }
  }

  /** Activity defers the sweep: a connection that was active and is not closed is still
      listed, and still the same one, whatever runs before the interval is over. */
  lemma ActivityDefersTheSweep(c: Config, s: Server, i: nat, fd: nat, actions: seq<Action>)
    requires Sound(c, s) && Step(c, s, Stamp(i, fd)).Some? && fd !in s.loops[i].delayed
    requires Run(c, Step(c, s, Stamp(i, fd)).value, actions).Some? && Close(i, fd) !in actions
    requires ClashFree(c, Step(c, s, Stamp(i, fd)).value, actions)
    requires Run(c, Step(c, s, Stamp(i, fd)).value, actions).value.clock - s.clock < c.interval
    ensures var t := Run(c, Step(c, s, Stamp(i, fd)).value, actions).value;
      && fd in s.owners && fd in t.loops[i].order && fd in t.owners && t.owners[fd] == s.owners[fd]
  {
    hide Run;
    hide ClashFree;
    assert LoopSound(c, s.loops[i], i, s.owners, s.clock);
    var u := Step(c, s, Stamp(i, fd)).value;
    StepSound(c, s, Stamp(i, fd));
    ActiveRun(c, u, actions, i, fd, s.owners[fd], s.clock);
    RunSound(c, u, actions);
    var t := Run(c, u, actions).value;
    assert LoopSound(c, t.loops[i], i, t.owners, t.clock);
  }

  // ---- Closing ------------------------------------------------------------------

  /** Connections are numbered apart. */
  predicate Numbered(s: Server) {
    && (forall fd | fd in s.owners :: s.owners[fd] < s.born)
    && (forall x, y | x in s.owners && y in s.owners && x != y :: s.owners[x] != s.owners[y])
  }

  lemma NumberedStep(c: Config, s: Server, a: Action)
    requires c.n > 0 && |s.loops| == c.n && Numbered(s) && Step(c, s, a).Some?
    ensures Numbered(Step(c, s, a).value)
  {
    hide SweepCount;
    hide Without;
  }

  lemma {:induction false} NumberedRun(c: Config, s: Server, actions: seq<Action>)
    requires c.n > 0 && |s.loops| == c.n && Numbered(s) && Run(c, s, actions).Some?
    ensures Numbered(Run(c, s, actions).value)
    decreases |actions|
  {
    hide Step;
    hide Numbered;
    if actions != [] {
      NumberedStep(c, s, actions[0]);
      NumberedRun(c, Step(c, s, actions[0]).value, actions[1..]);
    }
  }

  lemma ReachableNumbered(c: Config, s: Server)
    requires c.n > 0 && Reachable(c, s)
    ensures Numbered(s)
  {
    hide Step;
    var clock: int :| Reaches(c, Init(c, clock), s);
    var actions :| Run(c, Init(c, clock), actions) == Some(s) && ClashFree(c, Init(c, clock), actions);
    NumberedRun(c, Init(c, clock), actions);
  }

  /** A closed connection still listed; then no longer listed but not yet erased; and
      then gone. */
  predicate Marked(s: Server, i: nat, fd: nat, conn: nat) {
    && i < |s.loops| && fd in s.loops[i].order && fd in s.loops[i].delayed && !s.loops[i].pc.Deleting?
    && fd in s.owners && s.owners[fd] == conn
  }

  predicate Doomed(s: Server, i: nat, fd: nat, conn: nat) {
    && i < |s.loops| && fd in Leaving(s.loops[i].pc)
    && fd in s.owners && s.owners[fd] == conn
  }

  predicate Gone(s: Server, conn: nat) {
    conn < s.born && forall fd | fd in s.owners :: s.owners[fd] != conn
  }

  lemma GoneStep(c: Config, s: Server, a: Action, conn: nat)
    requires c.n > 0 && |s.loops| == c.n && Step(c, s, a).Some? && Gone(s, conn)
    ensures Gone(Step(c, s, a).value, conn)
  {
    hide SweepCount;
    hide Without;
  }

  lemma ErasedIsGone(c: Config, s: Server, i: nat, fd: nat)
    requires c.n > 0 && |s.loops| == c.n && Numbered(s) && fd in s.owners && Step(c, s, Erase(i, fd)).Some?
    ensures Gone(Step(c, s, Erase(i, fd)).value, s.owners[fd])
  {
  }

  lemma OwnedUnlessErased(c: Config, s: Server, a: Action, fd: nat)
    requires c.n > 0 && |s.loops| == c.n && Step(c, s, a).Some? && fd in s.owners
    requires !(a.Erase? && a.fd == fd)
    ensures var t := Step(c, s, a).value; fd in t.owners && t.owners[fd] == s.owners[fd]
  {
    hide SweepCount;
    hide Without;
  }

  lemma MarkedSweep(c: Config, s: Server, i: nat, readings: seq<int>, fd: nat)
    requires Sound(c, s) && Step(c, s, Sweep(i, readings)).Some?
    requires fd in s.loops[i].order && fd in s.loops[i].delayed
    ensures var l := Step(c, s, Sweep(i, readings)).value.loops[i];
      && l.delayed == s.loops[i].delayed && l.pc.Sweeping?
      && (fd in l.order || fd in l.pc.left)
  {
    hide SweepCount;
    hide Step;
    hide Sound;
    SweepIs(c, s, i, readings);
    KeptOrSwept(s.loops[i].order, Kept(s.loops[i], readings, c.interval));
  }

  lemma MarkedElse(c: Config, s: Server, a: Action, i: nat, fd: nat, conn: nat)
    requires Sound(c, s) && Step(c, s, a).Some? && Marked(s, i, fd, conn)
    requires !a.Tick? && !a.Accept? && !a.Enlist? && !a.Sweep? && a.i == i
    ensures var l := Step(c, s, a).value.loops[i];
      if a.BeginDelete? then l.pc == Deleting(s.loops[i].delayed)
      else fd in l.order && fd in l.delayed && !l.pc.Deleting?
  {
    hide LoopSound;
  }

  lemma MarkedEnlist(c: Config, s: Server, i: nat, fd: nat)
    requires c.n > 0 && |s.loops| == c.n && i < c.n && Step(c, s, Enlist).Some? && fd in s.loops[i].order
    ensures var l := Step(c, s, Enlist).value.loops[i];
      fd in l.order && l.delayed == s.loops[i].delayed && l.pc == s.loops[i].pc
  {
  }

  /** The round's deletion, or a sweep, is the only way out for a closed connection. */
  lemma MarkedStep(c: Config, s: Server, a: Action, i: nat, fd: nat, conn: nat)
    requires Sound(c, s) && Step(c, s, a).Some? && !Clash(c, s, a) && Marked(s, i, fd, conn)
    ensures var t := Step(c, s, a).value;
      Doomed(t, i, fd, conn) || (a != BeginDelete(i) && Marked(t, i, fd, conn))
  {
    ErasesOther(c, s, a, i, fd);
    hide Step;
    hide Sound;
    OwnedUnlessErased(c, s, a, fd);
    if a.Enlist? {
      MarkedEnlist(c, s, i, fd);
    } else if a.Tick? || a.Accept? || a.i != i {
      LoopUntouched(c, s, a, i);
    } else if a.Sweep? {
      MarkedSweep(c, s, i, a.readings, fd);
    } else {
      MarkedElse(c, s, a, i, fd, conn);
    }
  }

  lemma ErasesOther(c: Config, s: Server, a: Action, i: nat, fd: nat)
    requires Sound(c, s) && Step(c, s, a).Some? && !Clash(c, s, a) && i < c.n && fd in s.loops[i].order
    ensures !(a.Erase? && a.fd == fd)
  {
    assert LoopSound(c, s.loops[i], i, s.owners, s.clock);
  }

  /** And neither ends before the connection is erased. */
  lemma DoomedStep(c: Config, s: Server, a: Action, i: nat, fd: nat, conn: nat)
    requires Sound(c, s) && Numbered(s) && Step(c, s, a).Some? && Doomed(s, i, fd, conn)
    ensures a != End(i)
    ensures var t := Step(c, s, a).value; Doomed(t, i, fd, conn) || Gone(t, conn)
  {
    if a.Erase? && a.fd == fd {
      ErasedIsGone(c, s, a.i, fd);
    } else {
      OwnedUnlessErased(c, s, a, fd);
      DoomedLoop(c, s, a, i, fd);
    }
  }

  lemma DoomedLoop(c: Config, s: Server, a: Action, i: nat, fd: nat)
    requires c.n > 0 && |s.loops| == c.n && Step(c, s, a).Some? && !(a.Erase? && a.fd == fd)
    requires i < c.n && fd in Leaving(s.loops[i].pc)
    ensures a != End(i) && fd in Leaving(Step(c, s, a).value.loops[i].pc)
  {
    hide SweepCount;
    hide Without;
  }

  predicate Going(s: Server, i: nat, fd: nat, conn: nat) {
    Doomed(s, i, fd, conn) || Gone(s, conn)
  }

  predicate Closed(s: Server, i: nat, fd: nat, conn: nat) {
    Marked(s, i, fd, conn) || Going(s, i, fd, conn)
  }

  lemma ClosedStep(c: Config, s: Server, a: Action, i: nat, fd: nat, conn: nat)
    requires Sound(c, s) && Numbered(s) && Step(c, s, a).Some? && !Clash(c, s, a) && Closed(s, i, fd, conn)
    ensures var t := Step(c, s, a).value;
      Closed(t, i, fd, conn) && (Going(s, i, fd, conn) || a == BeginDelete(i) ==> Going(t, i, fd, conn))
  {
    hide Step;
    hide Sound;
    hide Numbered;
    hide Marked;
    hide Doomed;
    hide Gone;
    if Gone(s, conn) {
      GoneStep(c, s, a, conn);
    } else if Doomed(s, i, fd, conn) {
      DoomedStep(c, s, a, i, fd, conn);
    } else {
      MarkedStep(c, s, a, i, fd, conn);
    }
  }

  lemma {:induction false} ClosedRun(c: Config, s: Server, actions: seq<Action>, i: nat, fd: nat, conn: nat)
    requires Sound(c, s) && Numbered(s) && Run(c, s, actions).Some? && ClashFree(c, s, actions)
    requires Closed(s, i, fd, conn)
    ensures var t := Run(c, s, actions).value;
      && Closed(t, i, fd, conn)
      && (Going(s, i, fd, conn) || BeginDelete(i) in actions ==> Going(t, i, fd, conn))
    decreases |actions|
  {
    hide Step;
    hide Sound;
    hide Numbered;
    hide Closed;
    hide Going;
    hide Clash;
    if actions != [] {
      StepSound(c, s, actions[0]);
      NumberedStep(c, s, actions[0]);
      ClosedStep(c, s, actions[0], i, fd, conn);
      assert BeginDelete(i) in actions ==> actions[0] == BeginDelete(i) || BeginDelete(i) in actions[1..];
      ClosedRun(c, Step(c, s, actions[0]).value, actions[1..], i, fd, conn);
    }
  }

  /** Closing is final at the end of the round: whatever runs after the close, once a
      deletion of its loop has begun and ended the server no longer owns the connection,
      and no loop lists it, even if its descriptor has been reused. */
  lemma ClosedIsGone(c: Config, s: Server, i: nat, fd: nat, actions: seq<Action>)
    requires c.n > 0 && Reachable(c, s) && |s.loops| == c.n
    requires Step(c, s, Close(i, fd)).Some? && BeginDelete(i) in actions
    requires var u := Step(c, s, Close(i, fd)).value;
      Run(c, u, actions).Some? && ClashFree(c, u, actions) && Step(c, Run(c, u, actions).value, End(i)).Some?
    ensures var t := Step(c, Run(c, Step(c, s, Close(i, fd)).value, actions).value, End(i)).value;
      && fd in s.owners
      && (forall x | x in t.owners :: t.owners[x] != s.owners[fd])
      && (forall j, x | 0 <= j < c.n && x in t.loops[j].order ::
            x in t.loops[j].entries && t.loops[j].entries[x].conn != s.owners[fd])
  {
    hide Step;
    hide Sound;
    ReachableSound(c, s);
    ReachableNumbered(c, s);
    var u := Step(c, s, Close(i, fd)).value;
    CloseMarks(c, s, i, fd);
    NumberedStep(c, s, Close(i, fd));
    ClosedRun(c, u, actions, i, fd, s.owners[fd]);
    var v := Run(c, u, actions).value;
    RunSound(c, u, actions);
    NumberedRun(c, u, actions);
    EndedIsGone(c, v, i, fd, s.owners[fd]);
  }

  lemma CloseMarks(c: Config, s: Server, i: nat, fd: nat)
    requires Sound(c, s) && Step(c, s, Close(i, fd)).Some?
    ensures fd in s.owners && Marked(Step(c, s, Close(i, fd)).value, i, fd, s.owners[fd])
    ensures Sound(c, Step(c, s, Close(i, fd)).value)
  {
    hide Step;
    hide LoopSound;
    CloseStep(c, s, i, fd);
    CloseIs(c, s, Step(c, s, Close(i, fd)).value, i, fd);
  }

  lemma EndedIsGone(c: Config, s: Server, i: nat, fd: nat, conn: nat)
    requires Sound(c, s) && Numbered(s) && Step(c, s, End(i)).Some? && Going(s, i, fd, conn)
    ensures var t := Step(c, s, End(i)).value;
      && Gone(t, conn)
      && (forall j, x | 0 <= j < c.n && x in t.loops[j].order ::
            x in t.loops[j].entries && t.loops[j].entries[x].conn != conn)
  {
    hide Step;
    hide LoopSound;
    if Doomed(s, i, fd, conn) {
      DoomedStep(c, s, End(i), i, fd, conn);
    } else {
      GoneStep(c, s, End(i), conn);
      EndStep(c, s, i);
      GoneIsUnlisted(c, Step(c, s, End(i)).value, conn);
    }
  }

  lemma GoneIsUnlisted(c: Config, t: Server, conn: nat)
    requires Sound(c, t) && Gone(t, conn)
    ensures forall j, x | 0 <= j < c.n && x in t.loops[j].order ::
      x in t.loops[j].entries && t.loops[j].entries[x].conn != conn
  {
    forall j, x | 0 <= j < c.n && x in t.loops[j].order
      ensures x in t.loops[j].entries && t.loops[j].entries[x].conn != conn
    {
      assert LoopSound(c, t.loops[j], j, t.owners, t.clock);
    }
  }
}
