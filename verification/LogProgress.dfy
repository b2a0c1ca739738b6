/** What the logger does while it runs: the back end never returns, nothing stays
    pending, and nothing is lost but in a burst. */
module LogProgress {
  import opened Sequences
  import opened Bytes
  import opened LogSpec
  import opened LogTheorems

  // ---- What was appended ----------------------------------------------------

  /** The records that a run appends. */
  function Records(actions: seq<Action>): seq<Record> {
    if actions == [] then []
    else (if actions[0].Append? then [actions[0].record] else []) + Records(actions[1..])
  }

  lemma StepAppends(s: Log, a: Action)
    requires Step(s, a).Some?
    ensures Step(s, a).value.appended == s.appended + if a.Append? then [a.record] else []
    ensures Step(s, a).value.running <==> s.running && !a.Stop?
  {
  }

  /** No record is left out, and the logger runs until it is told to stop. */
  lemma {:induction false} RunAppends(s: Log, actions: seq<Action>)
    requires Run(s, actions).Some?
    ensures Run(s, actions).value.appended == s.appended + Records(actions)
    ensures Run(s, actions).value.running <==> s.running && Stop !in actions
    decreases |actions|
  {
    hide Step;
    if actions != [] {
      StepAppends(s, actions[0]);
      RunAppends(Step(s, actions[0]).value, actions[1..]);
      assert actions == [actions[0]] + actions[1..];
    }
  }

  // ---- Running ----------------------------------------------------------------

  lemma StepStaysUp(s: Log, a: Action)
    requires Step(s, a).Some? && (s.running ==> !s.phase.Exited?)
    ensures var t := Step(s, a).value; t.running ==> !t.phase.Exited?
  {
  }

  /** ThreadFunc does not return before stop. */
  lemma {:induction false} RunningNeverExits(s: Log, actions: seq<Action>)
    requires Run(s, actions).Some? && (s.running ==> !s.phase.Exited?)
    ensures var t := Run(s, actions).value; t.running ==> !t.phase.Exited?
    decreases |actions|
  {
    hide Step;
    if actions != [] {
      StepStaysUp(s, actions[0]);
      RunningNeverExits(Step(s, actions[0]).value, actions[1..]);
    }
  }

  /** The back end takes a batch exactly when full buffers are queued, or when it has
      waited and something is pending; and it waits exactly when nothing is queued. */
  lemma BackStepTakes(s: Log)
    requires Sound(s)
    ensures BackStep(s).Some?
    ensures var t := BackStep(s).value;
      && (IsTake(s, t) <==>
            (s.phase.Locking? && s.queue != []) || (s.phase.Waiting? && HasPending(s)))
      && (s.phase.Locking? && s.queue == [] ==> t == s.(phase := Waiting))
      && (s.phase.Waiting? && !HasPending(s) ==> t == s.(phase := Testing))
      && (IsTake(s, t) ==> t.phase.Writing? && t.taken[|s.taken|] == s.queue + [s.current.value])
  {
    BackStepIsSound(s);
    hide Conserved;
    hide Reported;
  }

  /** Everything appended has been taken and written, and the back end goes round. */
  predicate Quiet(s: Log)
    requires s.current.Some?
  {
    !HasPending(s) && s.phase in {Testing, Locking, Waiting}
  }

  /** Back-end steps until all is quiet, while the logger runs. */
  function StepsToQuiet(s: Log): nat
    requires s.current.Some?
  {
    var later := if HasPending(s) then 5 else 0;
    match s.phase
    case Testing => later
    case Locking => if HasPending(s) then 4 else 0
    case Waiting => if HasPending(s) then 3 else 0
    case Writing => 2 + later
    case Recycling => 1 + later
    case Exited => 0
  }

  lemma RunningStep(s: Log)
    requires Sound(s) && s.running && !s.phase.Exited?
    ensures BackStep(s).Some? && Sound(BackStep(s).value)
    ensures var t := BackStep(s).value;
      && t.running && !t.phase.Exited? && t.appended == s.appended
      && (Quiet(s) ==> Quiet(t) && t.taken == s.taken)
      && (!Quiet(s) ==> StepsToQuiet(t) < StepsToQuiet(s))
      && (t.taken == s.taken || (IsTake(s, t) && HasPending(s) && !HasPending(t)))
      && (HasPending(t) ==> HasPending(s))
  {
    BackStepIsSound(s);
    hide Conserved;
    hide Reported;
  }

  /** While it runs, with no further appends, the back end has everything written within
      seven steps, taking at most one more batch, and does not return. */
  lemma {:induction false} RunningDrains(s: Log, n: nat)
    requires Sound(s) && s.running && !s.phase.Exited?
    requires n >= 7 || n >= StepsToQuiet(s)
    ensures BackSteps(s, n).Some?
    ensures var t := BackSteps(s, n).value;
      && Sound(t) && t.running && Quiet(t) && t.appended == s.appended
      && |s.taken| <= |t.taken| <= |s.taken| + if HasPending(s) then 1 else 0
    decreases n
  {
    hide Sound;
    hide HasPending;
    hide BackStep;
    if n > 0 {
      RunningStep(s);
      if Quiet(s) {
        QuietNeedsNothing(BackStep(s).value);
      }
      RunningDrains(BackStep(s).value, n - 1);
    }
  }

  lemma QuietNeedsNothing(s: Log)
    requires s.current.Some? && Quiet(s)
    ensures StepsToQuiet(s) == 0
  {
  }

  /** A running logger left alone: after any run of appends and back-end steps, each record
      is on the output within seven more back-end steps, or in a buffer counted by a
      notice. */
  lemma NothingStaysPending(actions: seq<Action>, n: nat)
    requires Fits(actions) && Run(Start, actions).Some? && Stop !in actions && n >= 7
    requires forall r | r in Records(actions) :: NUL !in r
    ensures BackSteps(Run(Start, actions).value, n).Some?
    ensures var t := BackSteps(Run(Start, actions).value, n).value;
      && t.running && !t.phase.Exited?
      && Content(Flatten(t.taken)) == Flatten(Records(actions))
      && Written(t.out) == Content(Survivors(t.taken))
      && Dropped(t.out) + |Survivors(t.taken)| == |Flatten(t.taken)|
      && (Written(t.out) == Flatten(Records(actions)) <==> AllShort(t.taken))
  {
    hide Sound;
    hide Flatten;
    hide Content;
    hide Survivors;
    hide HasPending;
    hide BackSteps;
    hide Run;
    StartIsSound();
    RunIsSound(Start, actions);
    RunAppends(Start, actions);
    RunningNeverExits(Start, actions);
    var s := Run(Start, actions).value;
    assert s.appended == Records(actions);
    RunningDrains(s, n);
    var t := BackSteps(s, n).value;
    OutputIsSurvivors(t);
    NothingLostExactly(t);
    NothingPending(t);
  }

  /** The first stop: nothing was lost by returning early, whatever ran before it. */
  lemma FirstStopIsComplete(actions: seq<Action>)
    requires Fits(actions) && Run(Start, actions).Some? && Stop !in actions
    requires forall r | r in Records(actions) :: NUL !in r
    ensures var s := Step(Run(Start, actions).value, Stop).value;
      && BackSteps(s, 8).Some?
      && var t := BackSteps(s, 8).value;
         && t.phase.Exited?
         && Content(Flatten(t.taken)) == Flatten(Records(actions))
         && Written(t.out) == Content(Survivors(t.taken))
         && Dropped(t.out) + |Survivors(t.taken)| == |Flatten(t.taken)|
  {
    hide Flatten;
    hide Content;
    hide Survivors;
    hide BackSteps;
    hide Run;
    hide Step;
    RunAppends(Start, actions);
    RunningNeverExits(Start, actions);
    assert Run(Start, actions).value.appended == Records(actions);
    ShutdownIsComplete(actions);
  }

  // ---- Bursts -----------------------------------------------------------------

  /** A buffer is queued exactly when the record does not fit behind what it holds. */
  lemma PutQueuesExactly(s: Log, r: Record)
    requires Sound(s) && Put(s, r).Some?
    ensures var t, full := Put(s, r).value, |Flatten(s.current.value)| + |r| > 4_000_000;
      && t.queue == s.queue + (if full then [s.current.value] else [])
      && t.current == Some(if full then [r] else s.current.value + [r])
      && t.taken == s.taken
  {
    hide Conserved;
    hide Reported;
    assert [] + [r] == [r];
  }

  /** A buffer was too full for the first record of the next one. */
  predicate Crowded(b: Block, next: Block) {
    next != [] && |Flatten(b)| + |next[0]| > 4_000_000
  }

  ghost predicate Tight(blocks: seq<Block>) {
    forall i, j | 0 <= i < j < |blocks| && j == i + 1 :: Crowded(blocks[i], blocks[j])
  }

  ghost predicate Packed(s: Log) {
    && s.current.Some?
    && Tight(s.queue + [s.current.value])
    && forall batch | batch in s.taken :: Tight(batch)
  }

  lemma PutIsPacked(s: Log, r: Record)
    requires Sound(s) && Packed(s) && Put(s, r).Some?
    ensures Packed(Put(s, r).value)
  {
    PutQueuesExactly(s, r);
    hide Put;
    hide Sound;
    var t := Put(s, r).value;
    var before, after := s.queue + [s.current.value], t.queue + [t.current.value];
    var n := |s.queue|;
    forall i, j | 0 <= i < j < |after| && j == i + 1 ensures Crowded(after[i], after[j]) {
      if j <= n {
        assert Crowded(before[i], before[j]);
      }
    }
  }

  lemma BackIsPacked(s: Log)
    requires Sound(s) && Packed(s)
    ensures BackStep(s).Some? && Packed(BackStep(s).value)
  {
    BackStepIsSound(s);
    BackStepTakes(s);
    BackKeepsQueue(s);
  }

  lemma BackKeepsQueue(s: Log)
    requires Sound(s)
    ensures BackStep(s).Some?
    ensures var t := BackStep(s).value;
      if IsTake(s, t) then t.queue == [] && t.current == Some([]) && t.taken == s.taken + [s.queue + [s.current.value]]
      else t.queue == s.queue && t.current == s.current && t.taken == s.taken
  {
    BackStepIsSound(s);
    if s.phase in {Locking, Waiting} {
      TakeKeepsQueue(s);
    } else {
      RestKeepsQueue(s);
    }
    hide Sound;
    hide BackStep;
  }

  lemma TakeKeepsQueue(s: Log)
    requires Sound(s) && s.phase in {Locking, Waiting} && BackStep(s).Some?
    ensures var t := BackStep(s).value;
      if IsTake(s, t) then t.queue == [] && t.current == Some([]) && t.taken == s.taken + [s.queue + [s.current.value]]
      else t.queue == s.queue && t.current == s.current && t.taken == s.taken
  {
    hide Conserved;
    hide Reported;
    hide Filled;
  }

  lemma RestKeepsQueue(s: Log)
    requires s.phase !in {Locking, Waiting} && BackStep(s).Some?
    ensures var t := BackStep(s).value; t.queue == s.queue && t.current == s.current && t.taken == s.taken
  {
    hide Items;
    hide Kept;
  }

  lemma {:induction false} RunIsPacked(s: Log, actions: seq<Action>)
    requires Sound(s) && Packed(s) && Run(s, actions).Some?
    ensures Packed(Run(s, actions).value)
    decreases |actions|
  {
    hide Sound;
    hide Packed;
    hide Put;
    hide BackStep;
    if actions != [] {
      StepIsSound(s, actions[0]);
      match actions[0] {
        case Append(r) => PutIsPacked(s, r);
        case Stop => StopIsPacked(s);
        case Back => BackIsPacked(s);
      }
      RunIsPacked(Step(s, actions[0]).value, actions[1..]);
    }
  }

  lemma StartIsPacked()
    ensures Packed(Start)
  {
  }

  lemma StopIsPacked(s: Log)
    requires Packed(s)
    ensures Packed(s.(running := false))
  {
  }

  /** Two neighbours hold more than one buffer does. */
  lemma {:induction false} TightIsLarge(blocks: seq<Block>)
    requires Tight(blocks)
    ensures |Content(blocks)| >= |blocks| / 2 * 4_000_001
    decreases |blocks|
  {
    hide Content;
    hide Crowded;
    if |blocks| >= 2 {
      var rest := blocks[2..];
      forall i, j | 0 <= i < j < |rest| && j == i + 1 ensures Crowded(rest[i], rest[j]) {
        assert Crowded(blocks[i + 2], blocks[j + 2]);
      }
      TightIsLarge(rest);
      CrowdedIsLarge(blocks[0], blocks[1]);
      assert blocks == [blocks[0], blocks[1]] + rest;
      ContentConcat([blocks[0], blocks[1]], rest);
    }
  }

  lemma CrowdedIsLarge(b: Block, next: Block)
    requires Crowded(b, next)
    ensures |Content([b, next])| >= 4_000_001
  {
    FirstFits(next);
    FlattenTwo(b, next);
    FlattenConcat(b, next);
  }

  lemma FirstFits(b: Block)
    requires b != []
    ensures |b[0]| <= |Flatten(b)|
  {
  }

  /** Nothing is lost but in a burst: a batch that is cut holds more than 52 million bytes,
      appended since the one before it was taken. */
  lemma LossNeedsABurst(actions: seq<Action>)
    requires Run(Start, actions).Some? && !AllShort(Run(Start, actions).value.taken)
    ensures exists batch | batch in Run(Start, actions).value.taken :: |Content(batch)| > 52_000_000
  {
    hide Content;
    hide Run;
    hide Sound;
    hide Tight;
    StartIsSound();
    StartIsPacked();
    RunIsPacked(Start, actions);
    var batch :| batch in Run(Start, actions).value.taken && |batch| > 25;
    TightIsLarge(batch);
  }

  lemma {:induction false} BatchWithinTaken(taken: seq<seq<Block>>, batch: seq<Block>)
    requires batch in taken
    ensures |Content(batch)| <= |Content(Flatten(taken))|
  {
    hide Content;
    ContentConcat(taken[0], Flatten(taken[1..]));
    if batch != taken[0] {
      BatchWithinTaken(taken[1..], batch);
    }
  }

  /** A run that appends no more than one buffer's worth of bytes queues nothing, takes one
      buffer at a time, and loses nothing. */
  lemma SmallRunsQueueNothing(actions: seq<Action>)
    requires Fits(actions) && Run(Start, actions).Some? && |Flatten(Records(actions))| <= 4_000_000
    ensures var s := Run(Start, actions).value;
      s.queue == [] && forall batch | batch in s.taken :: |batch| <= 1
  {
    hide Content;
    hide Flatten;
    hide Pending;
    hide Run;
    hide Tight;
    StartIsSound();
    StartIsPacked();
    RunIsSound(Start, actions);
    RunIsPacked(Start, actions);
    RunAppends(Start, actions);
    var s := Run(Start, actions).value;
    assert s.appended == Records(actions);
    AppendedBytes(s);
    forall batch | batch in s.taken ensures |batch| <= 1 {
      BatchWithinTaken(s.taken, batch);
      TightIsLarge(batch);
    }
    PendingIsContent(s);
    TightIsLarge(s.queue + [s.current.value]);
  }

  lemma PendingIsContent(s: Log)
    requires s.current.Some?
    ensures Pending(s) == Content(s.queue + [s.current.value])
  {
    FlattenSnoc(s.queue, s.current.value);
  }
}
