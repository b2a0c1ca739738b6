/** What every sound state of the logger protocol guarantees: memory, what reaches
    the output, what is lost, and that stopping loses nothing more. */
module LogTheorems {
  import opened Sequences
  import opened Bytes
  import opened LogSpec

  // ---- Memory -----------------------------------------------------------

  function Held(p: Option<Block>): nat {
    if p.Some? then 1 else 0
  }

  function LiveBuffers(s: Log): nat {
    Held(s.current) + Held(s.next) + |s.queue| + |s.batch| + Held(s.spare1) + Held(s.spare2)
  }

  /** At the back end's loop head the logger holds four buffers, and one more for
      each queued buffer after the first. */
  lemma BuffersAtLoopHead(s: Log)
    requires Sound(s) && s.phase.Testing?
    ensures LiveBuffers(s) == 4 + Max(0, |s.queue| - 1)
    ensures s.spare1 == Some([]) && s.spare2 == Some([])
  {
  }

  // ---- Output -----------------------------------------------------------

  /** The bytes of a list of buffers. */
  function Content(blocks: seq<Block>): bytes {
    Flatten(Flatten(blocks))
  }

  lemma ContentConcat(a: seq<Block>, b: seq<Block>)
    ensures Content(a + b) == Content(a) + Content(b)
  {
    FlattenConcat(a, b);
    FlattenConcat(Flatten(a), Flatten(b));
  }

  /** The bytes on the output, notices aside. */
  function Written(out: seq<Item>): bytes {
    if out == [] then []
    else (if out[0].Text? then out[0].text else []) + Written(out[1..])
  }

  /** The number of buffers the notices own up to. */
  function Dropped(out: seq<Item>): nat {
    if out == [] then 0
    else (if out[0].Notice? then out[0].dropped else 0) + Dropped(out[1..])
  }

  lemma {:induction false} OutputConcat(a: seq<Item>, b: seq<Item>)
    ensures Written(a + b) == Written(a) + Written(b)
    ensures Dropped(a + b) == Dropped(a) + Dropped(b)
  {
    if a == [] {
      assert a + b == b;
    } else {
      assert (a + b)[1..] == a[1..] + b;
      OutputConcat(a[1..], b);
    }
  }

  /** Of a batch of more than 25 buffers the first two survive. */
  function Surviving(batch: seq<Block>): seq<Block> {
    if |batch| > 25 then batch[..2] else batch
  }

  /** The buffers that were not cut from their batch. */
  function Survivors(taken: seq<seq<Block>>): seq<Block> {
    if taken == [] then [] else Survivors(taken[..|taken| - 1]) + Surviving(taken[|taken| - 1])
  }

  predicate NulFree(blocks: seq<Block>) {
    forall b | b in blocks :: NUL !in Flatten(b)
  }

  lemma {:induction false} UpToNulIsAll(s: bytes)
    ensures UpToNul(s) == s <==> NUL !in s
  {
    if s != [] && s[0] != 0 {
      UpToNulIsAll(s[1..]);
      assert s == [s[0]] + s[1..];
    }
  }

  lemma {:induction false} TextsWritten(blocks: seq<Block>)
    requires NulFree(blocks)
    ensures Written(Texts(blocks)) == Content(blocks) && Dropped(Texts(blocks)) == 0
  {
    if blocks != [] {
      UpToNulIsAll(Flatten(blocks[0]));
      TextsWritten(blocks[1..]);
      FlattenConcat(blocks[0], Flatten(blocks[1..]));
    }
  }

  lemma ItemsWritten(batch: seq<Block>)
    requires NulFree(batch)
    ensures Written(Items(batch)) == Content(Surviving(batch))
    ensures Dropped(Items(batch)) + |Surviving(batch)| == |batch|
  {
    TextsWritten(Kept(batch));
    if |batch| > MAX_BATCH {
      OutputConcat([Notice(|batch| - KEPT)], Texts(Kept(batch)));
    } else {
      assert [] + Texts(Kept(batch)) == Texts(Kept(batch));
    }
  }

  lemma {:induction false} OutputWritten(taken: seq<seq<Block>>)
    requires forall batch | batch in taken :: NulFree(batch)
    ensures Written(Output(taken)) == Content(Survivors(taken))
    ensures Dropped(Output(taken)) + |Survivors(taken)| == |Flatten(taken)|
    decreases |taken|
  {
    if taken != [] {
      var front, last := taken[..|taken| - 1], taken[|taken| - 1];
      assert taken == front + [last];
      OutputWritten(front);
      ItemsWritten(last);
      OutputConcat(Output(front), Items(last));
      ContentConcat(Survivors(front), Surviving(last));
      FlattenSnoc(front, last);
    }
  }

  lemma {:induction false} InFlatten<T>(parts: seq<seq<T>>, p: seq<T>, x: T)
    requires p in parts && x in p
    ensures x in Flatten(parts)
  {
    if parts[0] != p {
      InFlatten(parts[1..], p, x);
    }
  }

  lemma {:induction false} FromFlatten<T>(parts: seq<seq<T>>, x: T) returns (p: seq<T>)
    requires x in Flatten(parts)
    ensures p in parts && x in p
  {
    if x in parts[0] {
      p := parts[0];
    } else {
      p := FromFlatten(parts[1..], x);
    }
  }

  predicate Printable(s: Log) {
    forall r | r in s.appended :: NUL !in r
  }

  lemma TakenIsAppended(s: Log, batch: seq<Block>, b: Block, r: Record)
    requires Sound(s) && batch in s.taken && b in batch && r in b
    ensures r in s.appended
  {
    InFlatten(s.taken, batch, b);
    InFlatten(Flatten(s.taken), b, r);
  }

  lemma PrintableBatches(s: Log)
    requires Sound(s) && Printable(s)
    ensures forall batch | batch in s.taken :: NulFree(batch)
  {
    forall batch, b | batch in s.taken && b in batch ensures NUL !in Flatten(b) {
      if NUL in Flatten(b) {
        var r := FromFlatten(b, NUL);
        TakenIsAppended(s, batch, b, r);
      }
    }
  }

  /** Once its batch is written, the output is the surviving buffers, byte for byte
      and in order, and every other buffer taken is counted in a notice. */
  lemma OutputIsSurvivors(s: Log)
    requires Sound(s) && Printable(s) && !s.phase.Writing?
    ensures Written(s.out) == Content(Survivors(s.taken))
    ensures Dropped(s.out) + |Survivors(s.taken)| == |Flatten(s.taken)|
  {
    PrintableBatches(s);
    OutputWritten(s.taken);
  }

  // ---- Loss ---------------------------------------------------------------

  predicate AllShort(taken: seq<seq<Block>>) {
    forall batch | batch in taken :: |batch| <= 25
  }

  lemma CutLoses(batch: seq<Block>)
    requires Dense(batch)
    ensures |Content(Surviving(batch))| <= |Content(batch)|
    ensures |Content(Surviving(batch))| == |Content(batch)| <==> |batch| <= 25
  {
    if |batch| > 25 {
      assert batch == batch[..2] + ([batch[2]] + batch[3..]);
      ContentConcat(batch[..2], [batch[2]] + batch[3..]);
      ContentConcat([batch[2]], batch[3..]);
      FlattenSnoc([], batch[2]);
      assert [] + [batch[2]] == [batch[2]] && [] + batch[2] == batch[2];
      assert batch[2] in batch && Content([batch[2]]) == Flatten(batch[2]);
    }
  }

  lemma {:induction false} SurvivorsSize(taken: seq<seq<Block>>)
    requires forall batch | batch in taken :: Dense(batch)
    ensures |Content(Survivors(taken))| <= |Content(Flatten(taken))|
    ensures |Content(Survivors(taken))| == |Content(Flatten(taken))| <==> AllShort(taken)
    ensures AllShort(taken) ==> Survivors(taken) == Flatten(taken)
    decreases |taken|
  {
    if taken != [] {
      var front, last := taken[..|taken| - 1], taken[|taken| - 1];
      assert taken == front + [last];
      SurvivorsSize(front);
      FlattenSnoc(front, last);
      ContentConcat(Survivors(front), Surviving(last));
      ContentConcat(Flatten(front), last);
      CutLoses(last);
    }
  }

  /** The bytes still on their way to the output. */
  function Pending(s: Log): bytes
    requires s.current.Some?
  {
    Flatten(Flatten(s.queue) + s.current.value)
  }

  lemma AppendedBytes(s: Log)
    requires Owned(s) && Conserved(s)
    ensures Flatten(s.appended) == Content(Flatten(s.taken)) + Pending(s)
  {
    hide Flatten;
    var done, rest := Flatten(Flatten(s.taken)), Flatten(s.queue) + s.current.value;
    assert s.appended == done + rest;
    FlattenConcat(done, rest);
  }

  /** The output followed by what is pending is everything appended, exactly when
      no batch was ever longer than 25 buffers. */
  lemma NothingLostExactly(s: Log)
    requires Sound(s) && Printable(s) && !s.phase.Writing?
    ensures Written(s.out) + Pending(s) == Flatten(s.appended) <==> AllShort(s.taken)
  {
    OutputIsSurvivors(s);
    SurvivorsSize(s.taken);
    AppendedBytes(s);
    hide Flatten;
    hide Survivors;
    if Written(s.out) + Pending(s) == Flatten(s.appended) {
      assert |Content(Survivors(s.taken))| == |Content(Flatten(s.taken))|;
    }
  }

  /** A record that fits a buffer, but not twice. */
  predicate Large(r: Record) {
    |r| <= 4_000_000 < 2 * |r|
  }

  /** The logger after `k` appends of a large record, before the back end has moved. */
  function Piled(r: Record, k: nat): Log
    requires k > 0
  {
    Start.(current := Some([r]), next := if k == 1 then Some([]) else None,
           queue := seq(k - 1, _ => [r]), appended := seq(k, _ => r))
  }

  lemma FlattenTwo<T>(x: seq<T>, y: seq<T>)
    ensures Flatten([x]) == x && Flatten([x, y]) == x + y
  {
    assert [x][1..] == [] && [x, y][1..] == [y] && [y][1..] == [];
    assert Flatten([y]) == y + Flatten([]);
  }

  lemma PilesUp(r: Record, k: nat)
    requires Large(r) && k > 0
    ensures Put(Piled(r, k), r) == Some(Piled(r, k + 1))
  {
    FlattenTwo(r, r);
    assert [] + [r] == [r];
    assert seq(k - 1, _ => [r]) + [[r]] == seq(k, _ => [r]);
    assert seq(k, _ => r) + [r] == seq(k + 1, _ => r);
  }

  lemma {:induction false} Burst(r: Record, k: nat, more: nat)
    requires Large(r) && k > 0
    ensures Run(Piled(r, k), seq(more, _ => LogSpec.Append(r))) == Some(Piled(r, k + more))
    decreases more
  {
    hide Put;
    if more > 0 {
      PilesUp(r, k);
      assert seq(more, _ => LogSpec.Append(r))[1..] == seq(more - 1, _ => LogSpec.Append(r));
      Burst(r, k + 1, more - 1);
    }
  }

  lemma {:induction false} RunConcat(s: Log, a: seq<Action>, b: seq<Action>)
    requires Run(s, a).Some?
    ensures Run(s, a + b) == Run(Run(s, a).value, b)
    decreases |a|
  {
    hide Step;
    if a == [] {
      assert a + b == b;
    } else {
      assert (a + b)[1..] == a[1..] + b;
      RunConcat(Step(s, a[0]).value, a[1..], b);
    }
  }

  lemma FirstAppend(r: Record)
    requires Large(r)
    ensures Step(Start, LogSpec.Append(r)) == Some(Piled(r, 1))
  {
    assert [] + [r] == [r];
    assert seq(1, _ => r) == [r] && seq(0, _ => [r]) == [];
  }

  /** The back end takes what has piled up and writes it. */
  lemma TakesPile(r: Record, k: nat)
    requires k > 1
    ensures var batch := seq(k, _ => [r]);
      Run(Piled(r, k), [Back, Back, Back]) == Some(Piled(r, k).(
        phase := Recycling, current := Some([]), next := Some([]), queue := [], spare1 := None, spare2 := None,
        batch := Kept(batch), taken := [batch], out := Items(batch)))
  {
    hide Items;
    hide Kept;
    var s := Piled(r, k);
    var batch := seq(k, _ => [r]);
    assert s.queue + [[r]] == batch;
    var s1 := Step(s, Back).value;
    var s2 := Step(s1, Back).value;
    assert s2.batch == batch && s2.taken == [batch];
    var s3 := Step(s2, Back).value;
    assert [] + Items(batch) == Items(batch);
    assert [Back, Back, Back][1..] == [Back, Back] && [Back, Back][1..] == [Back];
    assert Run(s2, [Back]) == Run(s3, []);
    assert Run(s1, [Back, Back]) == Some(s3);
  }

  /** Losses happen: of more than 25 large records appended before the back end takes
      the lock, only the first two are written. */
  lemma LongBatchLoses(r: Record, k: nat) returns (s: Log)
    requires Large(r) && NUL !in r && k > 25
    ensures Run(Start, [LogSpec.Append(r)] + seq(k - 1, _ => LogSpec.Append(r)) + [Back, Back, Back]) == Some(s)
    ensures Printable(s) && |s.appended| == k && s.current.Some? && Pending(s) == [] && !AllShort(s.taken)
    ensures Written(s.out) == r + r && Dropped(s.out) == k - 2
  {
    hide Step;
    var front := seq(k - 1, _ => LogSpec.Append(r));
    FirstAppend(r);
    Burst(r, 1, k - 1);
    var appends := [LogSpec.Append(r)] + front;
    assert appends[1..] == front;
    RunConcat(Start, appends, [Back, Back, Back]);
    TakesPile(r, k);
    s := Run(Start, appends + [Back, Back, Back]).value;
    PileWritten(r, k);
    assert s.taken[0] in s.taken;
  }

  lemma PileWritten(r: Record, k: nat)
    requires NUL !in r && k > 25
    ensures var batch := seq(k, _ => [r]);
      Written(Items(batch)) == r + r && Dropped(Items(batch)) == k - 2
  {
    var batch := seq(k, _ => [r]);
    FlattenTwo(r, r);
    ItemsWritten(batch);
    assert Surviving(batch) == [[r], [r]];
    FlattenTwo([r], [r]);
    assert [r] + [r] == [r, r];
  }

  // ---- Shutdown -------------------------------------------------------------

  predicate HasPending(s: Log)
    requires s.current.Some?
  {
    s.queue != [] || Size(s.current.value) > 0
  }

  /** Back-end steps until ThreadFunc returns, once stop has been called. */
  function StepsLeft(s: Log): nat
    requires s.current.Some?
  {
    match s.phase
    case Exited => 0
    case Testing => if HasPending(s) then 6 else 1
    case Locking => if HasPending(s) then 5 else 3
    case Waiting => if HasPending(s) then 4 else 2
    case Writing => if HasPending(s) then 8 else 3
    case Recycling => if HasPending(s) then 7 else 2
  }

  predicate IsTake(s: Log, t: Log) {
    |t.taken| == |s.taken| + 1
  }

  lemma StoppedStep(s: Log)
    requires Sound(s) && !s.running && !s.phase.Exited?
    ensures BackStep(s).Some? && Sound(BackStep(s).value)
    ensures var t := BackStep(s).value;
      && !t.running && t.appended == s.appended
      && StepsLeft(t) < StepsLeft(s)
      && (t.taken == s.taken || (IsTake(s, t) && HasPending(s) && !HasPending(t)))
      && (HasPending(t) ==> HasPending(s))
      && (t.phase.Exited? ==> !HasPending(t))
  {
    BackStepIsSound(s);
    hide Conserved;
    hide Reported;
  }

  function BackSteps(s: Log, n: nat): Option<Log>
    decreases n
  {
    if n == 0 then Some(s)
    else
      var t := BackStep(s);
      if t.None? then None else BackSteps(t.value, n - 1)
  }

  /** After stop, with no further appends, the back end returns within eight
      steps: it finishes the batch in hand, takes at most one more, and leaves
      nothing pending. */
  lemma {:induction false} StopDrains(s: Log, n: nat)
    requires Sound(s) && !s.running && (s.phase.Exited? ==> !HasPending(s))
    requires n >= 8 || n >= StepsLeft(s)
    ensures BackSteps(s, n).Some?
    ensures var t := BackSteps(s, n).value;
      && t.phase.Exited? && Sound(t) && t.appended == s.appended && !HasPending(t)
      && |s.taken| <= |t.taken| <= |s.taken| + if HasPending(s) then 1 else 0
    decreases n
  {
    hide Sound;
    hide HasPending;
    hide BackStep;
    if n > 0 {
      if s.phase.Exited? {
        assert BackStep(s) == Some(s) by { ExitedStays(s); }
        StopDrains(s, n - 1);
      } else {
        StoppedStep(s);
        StopDrains(BackStep(s).value, n - 1);
      }
    }
  }

  lemma ExitedStays(s: Log)
    requires s.phase.Exited?
    ensures BackStep(s) == Some(s)
  {
  }

  /** A complete run: appends of printable records and back-end steps interleaved
      in any way, then a stop, and the back end left alone. Every record ends up on
      the output, or in a buffer counted by a notice. */
  lemma ShutdownIsComplete(actions: seq<Action>)
    requires Fits(actions) && Run(Start, actions).Some?
    requires var s := Run(Start, actions).value;
      && Printable(s) && (s.phase.Exited? ==> s.current.Some? && !HasPending(s))
    ensures var s := Step(Run(Start, actions).value, Stop).value;
      && BackSteps(s, 8).Some?
      && var t := BackSteps(s, 8).value;
         && t.phase.Exited?
         && Content(Flatten(t.taken)) == Flatten(Run(Start, actions).value.appended)
         && Written(t.out) == Content(Survivors(t.taken))
         && Dropped(t.out) + |Survivors(t.taken)| == |Flatten(t.taken)|
         && (Written(t.out) == Flatten(t.appended) <==> AllShort(t.taken))
  {
    hide Sound;
    hide Flatten;
    hide Content;
    hide Survivors;
    hide HasPending;
    hide BackSteps;
    StartIsSound();
    RunIsSound(Start, actions);
    var r := Run(Start, actions).value;
    StopIsSound(r);
    var s := Step(r, Stop).value;
    StopDrains(s, 8);
    var t := BackSteps(s, 8).value;
    OutputIsSurvivors(t);
    NothingLostExactly(t);
    NothingPending(t);
  }

  lemma StopIsSound(r: Log)
    requires Sound(r)
    ensures var s := Step(r, Stop).value;
      Sound(s) && !s.running && s.appended == r.appended && (HasPending(s) <==> HasPending(r)) && s.phase == r.phase
  {
  }

  lemma NothingPending(t: Log)
    requires Sound(t) && !HasPending(t)
    ensures Pending(t) == [] && Content(Flatten(t.taken)) == Flatten(t.appended)
  {
    AppendedBytes(t);
    assert Flatten(t.queue) + t.current.value == t.current.value;
    hide Flatten;
    hide Sound;
  }
}
