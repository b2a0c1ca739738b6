/** The protocol of src/AsyncLogging.cpp on values: the front end appends under
    the lock, the back end moves through the phases of ThreadFunc, and any
    interleaving of the two is a run.

    A buffer is the list of records appended to it since its last reset; a null
    pointer is None; and a step whose C++ dereferences a null pointer, calls
    back() on an empty vector or overruns a buffer has no result. `Sound` is the
    invariant that all of this rests on. */
module LogSpec {
  import opened Sequences
  import opened Bytes

  const BUFFER_SIZE: nat := 4_000_000
  /** A batch of more buffers than this is cut down to its first KEPT ones. */
  const MAX_BATCH: nat := 25
  const KEPT: nat := 2

  type Record = bytes
  type Block = seq<Record>

  function Size(b: Block): nat {
    |Flatten(b)|
  }

  /** Where ThreadFunc is: at its loop test, about to lock, in wait_for, holding
      a batch to write, holding a written batch to recycle, or returned. */
  datatype Phase = Testing | Locking | Waiting | Writing | Recycling | Exited

  datatype Item = Notice(dropped: nat) | Text(text: bytes)

  datatype Log = Log(
    running: bool,
    current: Option<Block>, next: Option<Block>, queue: seq<Block>,
    phase: Phase, batch: seq<Block>, spare1: Option<Block>, spare2: Option<Block>,
    out: seq<Item>,
    appended: seq<Record>, // every record, in lock order
    taken: seq<seq<Block>> // every batch the back end has taken
  )

  const Start := Log(true, Some([]), Some([]), [], Testing, [], Some([]), Some([]), [], [], [])

  datatype Action = Append(record: Record) | Stop | Back

  // ---- Steps ------------------------------------------------------------

  /** The current buffer joins the queue and another one, the spare or a new one,
      takes its place. */
  function Rotate(s: Log): Log
    requires s.current.Some?
  {
    s.(queue := s.queue + [s.current.value], next := None,
       current := if s.next.Some? then s.next else Some([]))
  }

  /** memcpy to the current buffer. */
  function Store(s: Log, r: Record): Option<Log>
    requires s.current.Some?
  {
    if Size(s.current.value) + |r| > BUFFER_SIZE then None
    else Some(s.(current := Some(s.current.value + [r]), appended := s.appended + [r]))
  }

  function Put(s: Log, r: Record): Option<Log> {
    if s.current.None? then None
    else if Size(s.current.value) + |r| <= BUFFER_SIZE then Store(s, r)
    else Store(Rotate(s), r)
  }

  function Test(s: Log): Option<Log> {
    if s.running then Some(s.(phase := Locking))
    else if s.current.None? then None
    else Some(s.(phase := if Size(s.current.value) > 0 then Locking else Exited))
  }

  /** Holding the lock, after any wait. */
  function Take(s: Log): Option<Log> {
    if s.current.None? then None
    else if s.queue == [] && Size(s.current.value) == 0 then Some(s.(phase := Testing))
    else
      var batch := s.queue + [s.current.value];
      var refill := s.next.None?;
      Some(s.(phase := Writing, batch := batch, queue := s.batch, taken := s.taken + [batch],
              current := s.spare1, spare1 := None,
              next := if refill then s.spare2 else s.next,
              spare2 := if refill then None else s.spare2))
  }

  function Lock(s: Log): Option<Log> {
    if s.queue == [] then Some(s.(phase := Waiting)) else Take(s)
  }

  function Write(s: Log): Option<Log> {
    Some(s.(phase := Recycling, out := s.out + Items(s.batch), batch := Kept(s.batch)))
  }

  function Recycle(s: Log): Option<Log> {
    var b0 := if |s.batch| > KEPT then s.batch[..KEPT] else s.batch;
    if s.spare1.None? && b0 == [] then None
    else
      var b1 := if s.spare1.None? then b0[..|b0| - 1] else b0;
      if s.spare2.None? && b1 == [] then None
      else
        Some(s.(phase := Testing, batch := [],
                spare1 := if s.spare1.None? then Some([]) else s.spare1,
                spare2 := if s.spare2.None? then Some([]) else s.spare2))
  }

  function BackStep(s: Log): Option<Log> {
    match s.phase
    case Testing => Test(s)
    case Locking => Lock(s)
    case Waiting => Take(s)
    case Writing => Write(s)
    case Recycling => Recycle(s)
    case Exited => Some(s)
  }

  function Step(s: Log, a: Action): Option<Log> {
    match a
    case Append(r) => Put(s, r)
    case Stop => Some(s.(running := false))
    case Back => BackStep(s)
  }

  function Run(s: Log, actions: seq<Action>): Option<Log>
    decreases |actions|
  {
    if actions == [] then Some(s)
    else
      var t := Step(s, actions[0]);
      if t.None? then None else Run(t.value, actions[1..])
  }

  // ---- Output -------------------------------------------------------------

  function Kept(batch: seq<Block>): seq<Block> {
    if |batch| > MAX_BATCH then batch[..KEPT] else batch
  }

  /** What one batch puts on the output: a notice if it was cut, and the text of
      the buffers that were kept. */
  function Items(batch: seq<Block>): seq<Item> {
    (if |batch| > MAX_BATCH then [Notice(|batch| - KEPT)] else []) + Texts(Kept(batch))
  }

  function Texts(blocks: seq<Block>): seq<Item> {
    if blocks == [] then [] else [Text(UpToNul(Flatten(blocks[0])))] + Texts(blocks[1..])
  }

  /** A char array written as a C string. */
  function UpToNul(s: bytes): bytes {
    if s == [] || s[0] == 0 then [] else [s[0]] + UpToNul(s[1..])
  }

  function Output(taken: seq<seq<Block>>): seq<Item> {
    if taken == [] then [] else Output(taken[..|taken| - 1]) + Items(taken[|taken| - 1])
  }

  // ---- The invariant --------------------------------------------------------

  /** Who holds which buffer. The back end's spares are out exactly while it holds
      a batch, and a batch that cost the second spare has two buffers to give back. */
  predicate Owned(s: Log) {
    && s.current.Some?
    && (s.next.None? <==> s.queue != [])
    && (s.next.Some? ==> s.next.value == [])
    && (s.spare2.Some? ==> s.spare2.value == [])
    && (s.phase !in {Writing, Recycling} ==>
          s.batch == [] && s.spare1 == Some([]) && s.spare2.Some?)
    && (s.phase in {Writing, Recycling} ==>
          s.spare1.None? && |s.batch| >= if s.spare2.None? then 2 else 1)
  }

  /** Every buffer fits, those already full hold something, and so does the
      current one when full ones are queued. */
  predicate Filled(s: Log)
    requires Owned(s)
  {
    && Size(s.current.value) <= BUFFER_SIZE
    && (s.queue != [] ==> Size(s.current.value) > 0)
    && (forall b | b in s.queue + s.batch :: Size(b) <= BUFFER_SIZE)
    && (forall b | b in s.queue :: Size(b) > 0)
    && (forall batch | batch in s.taken :: Dense(batch))
  }

  predicate Dense(batch: seq<Block>) {
    |batch| >= 2 ==> forall b | b in batch :: Size(b) > 0
  }

  /** Every appended record is in a taken batch, a queued buffer or the current
      one, in order. */
  predicate Conserved(s: Log)
    requires Owned(s)
  {
    Flatten(Flatten(s.taken)) + Flatten(s.queue) + s.current.value == s.appended
  }

  /** The output is that of the batches taken, but for the one still to write. */
  predicate Reported(s: Log) {
    match s.phase
    case Writing =>
      && s.taken != [] && s.batch == s.taken[|s.taken| - 1]
      && s.out == Output(s.taken[..|s.taken| - 1])
    case Recycling =>
      && s.taken != [] && s.batch == Kept(s.taken[|s.taken| - 1])
      && s.out == Output(s.taken)
    case _ => s.out == Output(s.taken)
  }

  predicate Sound(s: Log): (sound: bool)
    ensures sound ==> s.current.Some?
  {
    Owned(s) && Filled(s) && Conserved(s) && Reported(s)
  }

  /** An append is defined exactly when the record fits a buffer. */
  lemma PutIsDefined(s: Log, r: Record)
    requires Sound(s)
    ensures Put(s, r).Some? <==> |r| <= 4_000_000
  {
    hide Conserved;
    hide Reported;
  }

  lemma PutIsSound(s: Log, r: Record)
    requires Sound(s) && Put(s, r).Some?
    ensures Sound(Put(s, r).value)
  {
    hide Filled;
    hide Conserved;
    hide Output;
    hide Kept;
    PutIsFilled(s, r);
    PutIsConserved(s, r);
  }

  lemma PutIsFilled(s: Log, r: Record)
    requires Owned(s) && Filled(s) && Put(s, r).Some?
    ensures Owned(Put(s, r).value) && Filled(Put(s, r).value)
  {
    FlattenSnoc(s.current.value, r);
    FlattenSnoc([], r);
  }

  lemma PutIsConserved(s: Log, r: Record)
    requires Owned(s) && Conserved(s) && Put(s, r).Some?
    ensures Owned(Put(s, r).value) && Conserved(Put(s, r).value)
  {
    hide Flatten;
    var t := Put(s, r).value;
    var done, c := Flatten(Flatten(s.taken)), s.current.value;
    if t.queue == s.queue {
      assert done + Flatten(s.queue) + (c + [r]) == s.appended + [r];
    } else {
      FlattenSnoc(s.queue, c);
      assert done + (Flatten(s.queue) + c) + ([] + [r]) == s.appended + [r];
    }
  }

  lemma TakeIsSound(s: Log)
    requires Sound(s) && s.phase !in {Writing, Recycling}
    ensures Take(s).Some? && Sound(Take(s).value)
  {
    TakeIsFilled(s);
    TakeIsConserved(s);
    var t := Take(s).value;
    if t.phase.Writing? {
      assert t.taken[..|t.taken| - 1] == s.taken;
    }
  }

  lemma TakeIsFilled(s: Log)
    requires Owned(s) && Filled(s) && s.phase !in {Writing, Recycling}
    ensures Take(s).Some? && Owned(Take(s).value) && Filled(Take(s).value)
  {
    assert Size([]) == 0;
    hide Size;
  }

  lemma TakeIsConserved(s: Log)
    requires Owned(s) && Conserved(s) && s.phase !in {Writing, Recycling}
    ensures Take(s).Some? && Owned(Take(s).value) && Conserved(Take(s).value)
  {
    assert Flatten<Record>([]) == [];
    hide Flatten;
    var t := Take(s).value;
    if t.phase.Writing? {
      BatchRecords(s.taken, s.queue, s.current.value);
      assert t.current.value == [] && t.queue == [];
      assert s.appended + [] + [] == s.appended;
    }
  }

  lemma BatchRecords(taken: seq<seq<Block>>, queue: seq<Block>, current: Block)
    ensures Flatten(Flatten(taken + [queue + [current]])) == Flatten(Flatten(taken)) + Flatten(queue) + current
  {
    hide Flatten;
    var done := Flatten(Flatten(taken));
    FlattenSnoc(taken, queue + [current]);
    FlattenConcat(Flatten(taken), queue + [current]);
    FlattenSnoc(queue, current);
    assert done + (Flatten(queue) + current) == done + Flatten(queue) + current;
  }

  /** Recycling always has the buffers it needs, and leaves both spares empty. */
  lemma RecycleRestores(s: Log)
    requires Sound(s) && s.phase.Recycling?
    ensures s.spare1.None? && |s.batch| >= if s.spare2.None? then 2 else 1
    ensures s.spare2.Some? ==> s.spare2 == Some([])
    ensures Recycle(s) == Some(s.(phase := Testing, batch := [], spare1 := Some([]), spare2 := Some([])))
  {
  }

  lemma TakeHasSpare(s: Log)
    requires Sound(s) && s.phase !in {Writing, Recycling}
    ensures s.current.Some? && s.batch == [] && s.spare1.Some?
  {
  }

  lemma NextIsEmpty(s: Log)
    requires Sound(s)
    ensures s.current.Some? && (s.next.Some? ==> s.next.value == []) && Size([]) == 0
  {
  }

  lemma BackStepIsSound(s: Log)
    requires Sound(s)
    ensures BackStep(s).Some? && Sound(BackStep(s).value)
  {
    hide Sound;
    match s.phase
    case Testing => TestIsSound(s);
    case Locking => LockIsSound(s);
    case Waiting => TakeIsSound(s);
    case Writing => WriteIsSound(s);
    case Recycling => RecycleIsSound(s);
    case Exited =>
  }

  lemma TestIsSound(s: Log)
    requires Sound(s) && s.phase.Testing?
    ensures Test(s).Some? && Sound(Test(s).value)
  {
  }

  lemma LockIsSound(s: Log)
    requires Sound(s) && s.phase.Locking?
    ensures Lock(s).Some? && Sound(Lock(s).value)
  {
    TakeIsSound(s);
  }

  lemma WriteIsSound(s: Log)
    requires Sound(s) && s.phase.Writing?
    ensures Write(s).Some? && Sound(Write(s).value)
  {
    hide Flatten;
  }

  lemma RecycleIsSound(s: Log)
    requires Sound(s) && s.phase.Recycling?
    ensures Recycle(s).Some? && Sound(Recycle(s).value)
  {
    hide Flatten;
  }

  lemma StepIsSound(s: Log, a: Action)
    requires Sound(s)
    ensures Step(s, a).Some? <==> (a.Append? ==> |a.record| <= BUFFER_SIZE)
    ensures Step(s, a).Some? ==> Sound(Step(s, a).value)
  {
    hide Put;
    hide BackStep;
    match a
    case Append(r) =>
      PutIsDefined(s, r);
      if Put(s, r).Some? { PutIsSound(s, r); }
    case Stop =>
    case Back => BackStepIsSound(s);
  }

  lemma StartIsSound()
    ensures Sound(Start)
  {
  }

  predicate Fits(actions: seq<Action>) {
    forall a | a in actions && a.Append? :: |a.record| <= BUFFER_SIZE
  }

  /** A run is defined exactly when every appended record fits a buffer: no null
      buffer is touched and no back() is called on an empty vector, whatever the
      interleaving. And every run keeps the invariant. */
  lemma {:induction false} RunIsSound(s: Log, actions: seq<Action>)
    requires Sound(s)
    ensures Run(s, actions).Some? <==> Fits(actions)
    ensures Run(s, actions).Some? ==> Sound(Run(s, actions).value)
    decreases |actions|
  {
    hide Sound;
    hide Step;
    if actions != [] {
      StepIsSound(s, actions[0]);
      assert actions == [actions[0]] + actions[1..];
      var t := Step(s, actions[0]);
      if t.Some? {
        RunIsSound(t.value, actions[1..]);
      }
    }
  }
}
