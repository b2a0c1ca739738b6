/** What keeps descriptors from clashing. Nothing in the repository does: these are
    conditions on the kernel, which hands out descriptors, or on when sweeps fall. */
module ServerGuards {
  import opened Sequences
  import opened TableSpec
  import opened ServerSpec
  import opened ServerTheorems

  /** The descriptors that a loop has yet to erase, now or at the end of the round. */
  function Due(l: Loop): set<nat> {
    Leaving(l.pc) + if l.pc.Deleting? then {} else l.delayed
  }

  // ---- Accepting no descriptor that is still due ---------------------------------

  /** accept returns a descriptor that its loop has yet to erase. */
  predicate Reuse(c: Config, s: Server, a: Action)
    requires c.n > 0 && |s.loops| == c.n
  {
    a.Accept? && a.fd in Due(s.loops[a.fd % c.n])
  }

  predicate NoReuse(c: Config, s: Server, actions: seq<Action>)
    requires c.n > 0 && |s.loops| == c.n && Run(c, s, actions).Some?
    decreases |actions|
  {
    actions == [] || (!Reuse(c, s, actions[0]) && NoReuse(c, Step(c, s, actions[0]).value, actions[1..]))
  }

  /** What a loop is erasing is not listed, and what is being accepted is not due. */
  predicate Apart(c: Config, s: Server)
    requires c.n > 0 && |s.loops| == c.n
  {
    && (forall i | 0 <= i < c.n :: forall fd | fd in Leaving(s.loops[i].pc) :: fd !in s.loops[i].order)
    && (s.accepting.Accepted? ==> s.accepting.fd !in Due(s.loops[s.accepting.fd % c.n]))
  }

  /** Whatever is due and still owned was closed, or late. */
  predicate Just(c: Config, s: Server)
    requires c.n > 0 && |s.loops| == c.n
  {
    forall i | 0 <= i < c.n ::
      forall fd | fd in Due(s.loops[i]) && fd in s.owners :: s.owners[fd] in s.condemned
  }

  lemma ApartIsNoClash(c: Config, s: Server, a: Action)
    requires Sound(c, s) && Apart(c, s) && Step(c, s, a).Some?
    ensures !Clash(c, s, a)
  {
    if a.Erase? {
      LeavingIsOwn(c, s, a.i, a.fd);
    }
  }

  /** How a step changes what a loop has yet to erase. */
  lemma DueStep(c: Config, s: Server, a: Action, i: nat)
    requires Sound(c, s) && Step(c, s, a).Some? && i < c.n
    ensures var l, l' := s.loops[i], Step(c, s, a).value.loops[i];
      && (forall fd | fd in Due(l') && fd !in Due(l) ::
            fd in l.order && (a == Close(i, fd) || (a.Sweep? && a.i == i)))
      && (forall fd | fd in Leaving(l'.pc) :: fd in Leaving(l.pc) || fd !in l'.order)
      && (forall fd | fd in l'.order && fd !in l.order ::
            a.Enlist? && s.accepting.fd == fd && fd % c.n == i && l'.pc == l.pc)
  {
    hide LoopSound;
    if a.Tick? || a.Accept? || (!a.Enlist? && a.i != i) {
      LoopUntouched(c, s, a, i);
    } else {
      match a
      case Enlist =>
      case Sweep(_, readings) => DueSweep(c, s, i, readings);
      case Close(_, fd) => CloseIs(c, s, Step(c, s, a).value, i, fd);
      case BeginDelete(_) => DueDelete(c, s, i);
      case Splice(_) => DueSplice(c, s, i);
      case _ =>
    }
  }

  lemma DueSplice(c: Config, s: Server, i: nat)
    requires Sound(c, s) && Step(c, s, Splice(i)).Some?
    ensures var l' := Step(c, s, Splice(i)).value.loops[i];
      && Due(l') == s.loops[i].delayed == Due(s.loops[i]) && l'.pc == Idle
      && forall fd | fd in l'.order :: fd in s.loops[i].order
  {
    hide LoopSound;
  }

  lemma DueDelete(c: Config, s: Server, i: nat)
    requires Sound(c, s) && Step(c, s, BeginDelete(i)).Some?
    ensures var l' := Step(c, s, BeginDelete(i)).value.loops[i];
      && Due(l') == s.loops[i].delayed == Due(s.loops[i]) == Leaving(l'.pc)
      && forall fd | fd in l'.order :: fd in s.loops[i].order && fd !in s.loops[i].delayed
  {
    hide LoopSound;
  }

  lemma DueSweep(c: Config, s: Server, i: nat, readings: seq<int>)
    requires Sound(c, s) && Step(c, s, Sweep(i, readings)).Some?
    ensures var l, l' := s.loops[i], Step(c, s, Sweep(i, readings)).value.loops[i];
      && Leaving(l'.pc) == Victims(l, readings, c.interval) && l'.delayed == l.delayed && l'.pc.Sweeping?
      && Due(l) == l.delayed && Due(l') == Victims(l, readings, c.interval) + l.delayed
      && (forall fd | fd in l.order :: fd in l'.order <==> fd !in Leaving(l'.pc))
      && (forall fd | fd in l'.order || fd in Leaving(l'.pc) :: fd in l.order)
  {
    hide Step;
    hide Sound;
    hide SweepCount;
    SweepIs(c, s, i, readings);
    KeptOrSwept(s.loops[i].order, Kept(s.loops[i], readings, c.interval));
  }

  lemma AcceptedIsUnlisted(c: Config, s: Server)
    requires Sound(c, s) && s.accepting.Accepted?
    ensures s.accepting.fd !in s.loops[s.accepting.fd % c.n].order
  {
  }

  lemma AcceptingStep(c: Config, s: Server, a: Action)
    requires c.n > 0 && |s.loops| == c.n && Step(c, s, a).Some?
    ensures var t := Step(c, s, a).value;
      if a.Accept? then t.accepting.Accepted? && t.accepting.fd == a.fd && t.loops == s.loops
      else if a.Enlist? then t.accepting.Nothing? && s.accepting.Accepted?
      else t.accepting == s.accepting
  {
    hide SweepCount;
    hide Without;
  }

  lemma ApartStep(c: Config, s: Server, a: Action)
    requires Sound(c, s) && Apart(c, s) && Step(c, s, a).Some? && !Reuse(c, s, a)
    ensures Apart(c, Step(c, s, a).value)
  {
    hide Step;
    hide Sound;
    hide Due;
    hide Leaving;
    var t := Step(c, s, a).value;
    AcceptingStep(c, s, a);
    AcceptingIsNotLeaving(c, s);
    forall i | 0 <= i < c.n
      ensures forall fd | fd in Leaving(t.loops[i].pc) :: fd !in t.loops[i].order
    {
      DueStep(c, s, a, i);
    }
    if t.accepting.Accepted? && !a.Accept? {
      DueStep(c, s, a, t.accepting.fd % c.n);
      AcceptedIsUnlisted(c, s);
    }
  }

  lemma AcceptingIsNotLeaving(c: Config, s: Server)
    requires c.n > 0 && |s.loops| == c.n && Apart(c, s)
    ensures s.accepting.Accepted? ==> s.accepting.fd !in Leaving(s.loops[s.accepting.fd % c.n].pc)
  {
  }

  lemma JustStep(c: Config, s: Server, a: Action)
    requires Sound(c, s) && Just(c, s) && Step(c, s, a).Some? && !Reuse(c, s, a)
    ensures Just(c, Step(c, s, a).value)
  {
    hide Step;
    hide LoopSound;
    hide Due;
    var t := Step(c, s, a).value;
    forall i, fd | 0 <= i < c.n && fd in Due(t.loops[i]) && fd in t.owners
      ensures t.owners[fd] in t.condemned
    {
      DueStep(c, s, a, i);
      OwnersStep(c, s, a, fd);
      DueIsOwn(c, t, s, a, i, fd);
      if fd !in Due(s.loops[i]) {
        ListedIsOwned(c, s, i, fd);
        if a.Sweep? {
          SweptIsCondemned(c, s, i, a.readings, fd);
        }
      }
    }
  }

  /** Owners change only by an accept or an erase, and nobody is pardoned. */
  lemma OwnersStep(c: Config, s: Server, a: Action, fd: nat)
    requires c.n > 0 && |s.loops| == c.n && Step(c, s, a).Some? && fd in Step(c, s, a).value.owners
    ensures var t := Step(c, s, a).value;
      && s.condemned <= t.condemned
      && (a.Close? && a.i < c.n && a.fd in s.loops[a.i].entries ==> s.loops[a.i].entries[a.fd].conn in t.condemned)
      && if a == Accept(fd) then t.owners[fd] == s.born else fd in s.owners && t.owners[fd] == s.owners[fd]
  {
    hide SweepCount;
    hide Without;
  }

  /** A loop is due only descriptors of its own. */
  lemma DueIsOwn(c: Config, t: Server, s: Server, a: Action, i: nat, fd: nat)
    requires Sound(c, s) && Step(c, s, a) == Some(t) && i < c.n && fd in Due(t.loops[i])
    ensures fd % c.n == i
  {
    hide Step;
    DueStep(c, s, a, i);
    assert LoopSound(c, s.loops[i], i, s.owners, s.clock);
  }

  lemma ListedIsOwned(c: Config, s: Server, i: nat, fd: nat)
    requires Sound(c, s) && i < c.n && fd in s.loops[i].order
    ensures fd in s.loops[i].entries && fd in s.owners && s.owners[fd] == s.loops[i].entries[fd].conn
  {
    assert LoopSound(c, s.loops[i], i, s.owners, s.clock);
  }

  lemma SweptIsCondemned(c: Config, s: Server, i: nat, readings: seq<int>, fd: nat)
    requires Sound(c, s) && Step(c, s, Sweep(i, readings)).Some? && fd in s.loops[i].order
    requires fd in Due(Step(c, s, Sweep(i, readings)).value.loops[i]) && fd !in Due(s.loops[i])
    ensures s.loops[i].entries[fd].conn in Step(c, s, Sweep(i, readings)).value.condemned
  {
    hide LoopSound;
    hide SweepCount;
    DueSweep(c, s, i, readings);
  }

  lemma {:induction false} NoReuseIsClashFree(c: Config, s: Server, actions: seq<Action>)
    requires Sound(c, s) && Apart(c, s) && Just(c, s)
    requires Run(c, s, actions).Some? && NoReuse(c, s, actions)
    ensures ClashFree(c, s, actions)
    ensures var t := Run(c, s, actions).value; Sound(c, t) && Apart(c, t) && Just(c, t)
    decreases |actions|
  {
    hide Step;
    hide Sound;
    hide Apart;
    hide Just;
    hide Clash;
    hide Reuse;
    if actions != [] {
      ApartIsNoClash(c, s, actions[0]);
      StepSound(c, s, actions[0]);
      ApartStep(c, s, actions[0]);
      JustStep(c, s, actions[0]);
      NoReuseIsClashFree(c, Step(c, s, actions[0]).value, actions[1..]);
    }
  }

  /** A step condemns only a connection that it closes, or that it finds idle for the
      interval. */
  lemma CondemnedIsClosedOrLate(c: Config, s: Server, a: Action, conn: nat)
    requires Sound(c, s) && Step(c, s, a).Some?
    requires conn in Step(c, s, a).value.condemned && conn !in s.condemned
    ensures (a.Close? || a.Sweep?) && a.i < c.n
    ensures var l, t := s.loops[a.i], Step(c, s, a).value;
      exists fd | fd in l.order && fd in l.entries && l.entries[fd].conn == conn ::
        a == Close(a.i, fd) || t.clock - l.entries[fd].last >= c.interval
  {
    CondemnsOnly(c, s, a);
    var l, t := s.loops[a.i], Step(c, s, a).value;
    if a.Close? {
      ClosesOnly(c, s, a.i, a.fd, conn);
    } else {
      SweepsOnly(c, s, a.i, a.readings, conn);
    }
  }

  lemma CondemnsOnly(c: Config, s: Server, a: Action)
    requires c.n > 0 && |s.loops| == c.n && Step(c, s, a).Some?
    ensures a.Close? || a.Sweep? || Step(c, s, a).value.condemned == s.condemned
    ensures a.Close? || a.Sweep? ==> a.i < c.n
  {
    hide SweepCount;
    hide Without;
  }

  lemma ClosesOnly(c: Config, s: Server, i: nat, fd: nat, conn: nat)
    requires Sound(c, s) && Step(c, s, Close(i, fd)).Some?
    requires conn in Step(c, s, Close(i, fd)).value.condemned && conn !in s.condemned
    ensures i < c.n && fd in s.loops[i].order && fd in s.loops[i].entries && s.loops[i].entries[fd].conn == conn
  {
    hide Step;
    hide LoopSound;
    CloseIs(c, s, Step(c, s, Close(i, fd)).value, i, fd);
    ListedIsOwned(c, s, i, fd);
  }

  lemma SweepsOnly(c: Config, s: Server, i: nat, readings: seq<int>, conn: nat)
    requires Sound(c, s) && Step(c, s, Sweep(i, readings)).Some?
    requires conn in Step(c, s, Sweep(i, readings)).value.condemned && conn !in s.condemned
    ensures i < c.n
    ensures var l, t := s.loops[i], Step(c, s, Sweep(i, readings)).value;
      exists fd | fd in l.order && fd in l.entries && l.entries[fd].conn == conn ::
        t.clock - l.entries[fd].last >= c.interval
  {
    hide Sound;
    hide SweepCount;
    EverySweepIsSound(c, s, i, readings);
    DueSweep(c, s, i, readings);
    var l := s.loops[i];
    var fd :| fd in Victims(l, readings, c.interval) && fd in l.entries && l.entries[fd].conn == conn;
  }

  /** If accept never returns a descriptor that its loop has yet to erase, no run has a
      clash, and only connections that were closed or late are destroyed. */
  lemma OnlyCondemnedAreDestroyed(c: Config, clock: int, actions: seq<Action>, i: nat, fd: nat)
    requires c.n > 0 && Run(c, Init(c, clock), actions).Some? && NoReuse(c, Init(c, clock), actions)
    ensures ClashFree(c, Init(c, clock), actions)
    ensures var s := Run(c, Init(c, clock), actions).value;
      Step(c, s, Erase(i, fd)).Some? && fd in s.owners ==> s.owners[fd] in s.condemned
  {
    hide Run;
    InitSound(c, clock);
    NoReuseIsClashFree(c, Init(c, clock), actions);
    var s := Run(c, Init(c, clock), actions).value;
    if Step(c, s, Erase(i, fd)).Some? {
      assert fd in Due(s.loops[i]);
    }
  }

  // ---- Sweeps that spare the closed ----------------------------------------------

  /** A sweep of loop i that takes a connection whose deletion is delayed. */
  predicate TakesDelayed(c: Config, s: Server, a: Action)
    requires |s.loops| == c.n
  {
    && a.Sweep? && a.i < c.n
    && var l := s.loops[a.i];
       Listed(l) && |a.readings| == |l.order| && Victims(l, a.readings, c.interval) * l.delayed != {}
  }

  predicate Careful(c: Config, s: Server, actions: seq<Action>)
    requires c.n > 0 && |s.loops| == c.n && Run(c, s, actions).Some?
    decreases |actions|
  {
    actions == []
    || (!TakesDelayed(c, s, actions[0]) && Careful(c, Step(c, s, actions[0]).value, actions[1..]))
  }

  /** What is due is still owned, so that the kernel does not hand it out. */
  predicate Tidy(c: Config, s: Server)
    requires c.n > 0 && |s.loops| == c.n
  {
    forall i | 0 <= i < c.n ::
      && (forall fd | fd in Due(s.loops[i]) :: fd in s.owners)
      && (s.loops[i].pc.Sweeping? ==> s.loops[i].pc.left !! s.loops[i].delayed)
  }

  lemma SweepingStep(c: Config, s: Server, a: Action, i: nat)
    requires Sound(c, s) && Step(c, s, a).Some? && i < c.n && Step(c, s, a).value.loops[i].pc.Sweeping?
    ensures var l, l' := s.loops[i], Step(c, s, a).value.loops[i];
      && l'.delayed == l.delayed
      && if a.Sweep? && a.i == i then
           Listed(l) && |a.readings| == |l.order| && l'.pc.left == Victims(l, a.readings, c.interval)
         else l.pc.Sweeping? && l'.pc.left <= l.pc.left
  {
    hide LoopSound;
    hide Victims;
    hide SweepCount;
    if a.Tick? || a.Accept? || (!a.Enlist? && a.i != i) {
      LoopUntouched(c, s, a, i);
    } else if a.Sweep? {
      SweepIs(c, s, i, a.readings);
      DueSweep(c, s, i, a.readings);
    }
  }

  lemma ErasedIsNotDue(c: Config, s: Server, i: nat, fd: nat)
    requires Sound(c, s) && Tidy(c, s) && Step(c, s, Erase(i, fd)).Some?
    ensures forall j | 0 <= j < c.n :: fd !in Due(Step(c, s, Erase(i, fd)).value.loops[j])
  {
    var t := Step(c, s, Erase(i, fd)).value;
    LeavingIsOwn(c, s, i, fd);
    forall j | 0 <= j < c.n ensures fd !in Due(t.loops[j]) {
      if fd in Due(t.loops[j]) {
        DueIsOwn(c, t, s, Erase(i, fd), j, fd);
      }
    }
  }

  lemma DueStaysOwned(c: Config, s: Server, a: Action, i: nat, fd: nat)
    requires Sound(c, s) && Tidy(c, s) && Step(c, s, a).Some? && i < c.n
    requires fd in Due(Step(c, s, a).value.loops[i])
    ensures fd in Step(c, s, a).value.owners
  {
    hide Step;
    hide LoopSound;
    hide Due;
    DueStep(c, s, a, i);
    if fd !in Due(s.loops[i]) {
      ListedIsOwned(c, s, i, fd);
    }
    NotErased(c, s, a, i, fd);
    OwnedUnlessErased(c, s, a, fd);
  }

  lemma NotErased(c: Config, s: Server, a: Action, i: nat, fd: nat)
    requires Sound(c, s) && Tidy(c, s) && Step(c, s, a).Some? && i < c.n
    requires fd in Due(Step(c, s, a).value.loops[i])
    ensures !(a.Erase? && a.fd == fd)
  {
    hide Step;
    hide Sound;
    hide Due;
    if a.Erase? && a.fd == fd {
      ErasedIsNotDue(c, s, a.i, fd);
    }
  }

  lemma SweepsApart(c: Config, s: Server, a: Action, i: nat)
    requires Sound(c, s) && Tidy(c, s) && Step(c, s, a).Some? && !TakesDelayed(c, s, a) && i < c.n
    ensures var l := Step(c, s, a).value.loops[i]; l.pc.Sweeping? ==> l.pc.left !! l.delayed
  {
    hide Step;
    hide Sound;
    hide Victims;
    if Step(c, s, a).value.loops[i].pc.Sweeping? {
      SweepingStep(c, s, a, i);
      if a.Sweep? && a.i == i {
        var v, d := Victims(s.loops[i], a.readings, c.interval), s.loops[i].delayed;
        assert forall x :: x in v * d <==> x in v && x in d;
      }
    }
  }

  lemma TidyStep(c: Config, s: Server, a: Action)
    requires Sound(c, s) && Tidy(c, s) && Step(c, s, a).Some? && !TakesDelayed(c, s, a)
    ensures !Reuse(c, s, a) && Tidy(c, Step(c, s, a).value)
  {
    hide Step;
    hide LoopSound;
    hide Due;
    hide TakesDelayed;
    var t := Step(c, s, a).value;
    TidyIsNoReuse(c, s, a);
    forall i | 0 <= i < c.n
      ensures forall fd | fd in Due(t.loops[i]) :: fd in t.owners
      ensures t.loops[i].pc.Sweeping? ==> t.loops[i].pc.left !! t.loops[i].delayed
    {
      SweepsApart(c, s, a, i);
      forall fd | fd in Due(t.loops[i]) ensures fd in t.owners {
        DueStaysOwned(c, s, a, i, fd);
      }
    }
  }

  lemma AcceptsUnowned(c: Config, s: Server, a: Action)
    requires c.n > 0 && |s.loops| == c.n && Step(c, s, a).Some?
    ensures a.Accept? ==> a.fd !in s.owners
  {
    hide SweepCount;
    hide Without;
  }

  lemma TidyIsNoReuse(c: Config, s: Server, a: Action)
    requires c.n > 0 && |s.loops| == c.n && Tidy(c, s) && Step(c, s, a).Some?
    ensures !Reuse(c, s, a)
  {
    hide Step;
    hide Due;
    if a.Accept? {
      AcceptsUnowned(c, s, a);
      var i := a.fd % c.n;
      assert forall fd | fd in Due(s.loops[i]) :: fd in s.owners;
    }
  }

  /** Sweeps that spare the connections with a delayed deletion are enough: then accept
      has no descriptor to return that is still due, and so nothing clashes. */
  lemma {:induction false} CarefulIsNoReuse(c: Config, s: Server, actions: seq<Action>)
    requires Sound(c, s) && Apart(c, s) && Tidy(c, s)
    requires Run(c, s, actions).Some? && Careful(c, s, actions)
    ensures NoReuse(c, s, actions) && ClashFree(c, s, actions)
    decreases |actions|
  {
    hide Step;
    hide Sound;
    hide Apart;
    hide Tidy;
    hide Clash;
    hide Reuse;
    hide TakesDelayed;
    if actions != [] {
      TidyStep(c, s, actions[0]);
      ApartIsNoClash(c, s, actions[0]);
      StepSound(c, s, actions[0]);
      ApartStep(c, s, actions[0]);
      CarefulIsNoReuse(c, Step(c, s, actions[0]).value, actions[1..]);
    }
  }

  /** A whole run from the start: if no sweep takes a connection whose deletion is delayed,
      nothing clashes, and only connections that were closed or late are destroyed. */
  lemma CarefulRunsAreSound(c: Config, clock: int, actions: seq<Action>, i: nat, fd: nat)
    requires c.n > 0 && Run(c, Init(c, clock), actions).Some? && Careful(c, Init(c, clock), actions)
    ensures SoundThroughout(c, Init(c, clock), actions)
    ensures var s := Run(c, Init(c, clock), actions).value;
      Step(c, s, Erase(i, fd)).Some? && fd in s.owners ==> s.owners[fd] in s.condemned
  {
    InitSound(c, clock);
    CarefulIsNoReuse(c, Init(c, clock), actions);
    RunSoundExactly(c, Init(c, clock), actions);
    OnlyCondemnedAreDestroyed(c, clock, actions, i, fd);
  }
}
