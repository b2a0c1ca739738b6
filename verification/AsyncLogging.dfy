/** src/AsyncLogging.cpp and its header: the buffers as objects that change hands.

    A ghost field of each buffer names its one holder, which is what unique_ptr
    promises; moving a pointer moves it. Each method is one lock region, or one
    stretch of ThreadFunc between two of them, and takes the abstract state
    exactly where LogSpec says. */
module AsyncLogger {
  import opened Sequences
  import opened Bytes
  import opened LogSpec

  datatype Holder = Current | Next | Queue(i: nat) | Batch(i: nat) | Spare1 | Spare2

  class LogBuffer {
    const data: array<byte>
    var cur: nat
    /** The records appended since the last reset. */
    ghost var block: Block
    /** The pointer that owns this buffer. */
    ghost var holder: Holder

    /** The data holds the records and nothing else: the rest is zero, so the
        C string it holds ends where they do. */
    ghost predicate Valid()
      reads this`cur, this`block, data
      ensures Valid() ==> cur == Size(block) <= BUFFER_SIZE
    {
      && data.Length == BUFFER_SIZE && cur <= BUFFER_SIZE
      && data[..cur] == Flatten(block)
      && forall i | cur <= i < BUFFER_SIZE :: data[i] == NUL
    }

    constructor (ghost holder: Holder)
      ensures Valid() && block == [] && fresh(data) && this.holder == holder
    {
      data := new byte[BUFFER_SIZE](_ => NUL);
      cur, block := 0, [];
      this.holder := holder;
    }

    method Reset()
      requires Valid()
      modifies this`cur, this`block, data
      ensures Valid() && block == [] && cur == 0
    {
      forall i | 0 <= i < data.Length {
        data[i] := NUL;
      }
      cur, block := 0, [];
    }

    function Available(): nat
      requires cur <= BUFFER_SIZE
      reads this
    {
      BUFFER_SIZE - cur
    }

    method Append(record: Record)
      requires Valid() && |record| <= Available()
      modifies this`cur, this`block, data
      ensures Valid() && block == old(block) + [record]
    {
      ghost var before := data[..];
      forall i | 0 <= i < |record| {
        data[cur + i] := record[i];
      }
      assert data[..cur] == before[..cur];
      cur := cur + |record|;
      FlattenSnoc(block, record);
      block := block + [record];
    }

    /** Streaming the data as a C string. */
    method CString() returns (text: bytes)
      requires Valid()
      ensures text == UpToNul(Flatten(block))
    {
      var i := 0;
      while i < BUFFER_SIZE && data[i] != NUL
        invariant 0 <= i <= cur
        invariant NUL !in data[..i]
      {
        i := i + 1;
      }
      text := data[..i];
      UpToNulIs(data[..cur], i);
    }
  }

  lemma {:induction false} UpToNulIs(s: bytes, n: nat)
    requires n <= |s| && NUL !in s[..n] && (n == |s| || s[n] == NUL)
    ensures UpToNul(s) == s[..n]
  {
    if n > 0 {
      assert s[0] in s[..n] && s[1..][..n - 1] == s[..n][1..];
      UpToNulIs(s[1..], n - 1);
    }
  }

  // ---- Who holds what, on values -----------------------------------------

  /** The pointers of the logger and of ThreadFunc; what the protocol says they hold;
      and, for each buffer, who holds it and what is in it. */
  datatype Pointers = Pointers(
    current: LogBuffer?, next: LogBuffer?, spare1: LogBuffer?, spare2: LogBuffer?,
    queue: seq<LogBuffer>, batch: seq<LogBuffer>)

  datatype Blocks = Blocks(
    current: Option<Block>, next: Option<Block>, spare1: Option<Block>, spare2: Option<Block>,
    queue: seq<Block>, batch: seq<Block>)

  datatype Holding = Holding(holder: Holder, block: Block)

  function BlocksOf(s: Log): Blocks {
    Blocks(s.current, s.next, s.spare1, s.spare2, s.queue, s.batch)
  }

  /** Buffer `b`, if any, belongs to pointer `h` and holds these records. */
  ghost predicate Holds(b: LogBuffer?, h: Holder, block: Option<Block>, ledger: map<LogBuffer, Holding>) {
    if b == null then block.None? else block.Some? && b in ledger && ledger[b] == Holding(h, block.value)
  }

  ghost predicate QueueHolds(bs: seq<LogBuffer>, blocks: seq<Block>, ledger: map<LogBuffer, Holding>) {
    |bs| == |blocks| && forall i | 0 <= i < |bs| :: bs[i] in ledger && ledger[bs[i]] == Holding(Queue(i), blocks[i])
  }

  ghost predicate BatchHolds(bs: seq<LogBuffer>, blocks: seq<Block>, ledger: map<LogBuffer, Holding>) {
    |bs| == |blocks| && forall i | 0 <= i < |bs| :: bs[i] in ledger && ledger[bs[i]] == Holding(Batch(i), blocks[i])
  }

  /** Every pointer holds what it should; so no two share a buffer. */
  ghost predicate Matches(p: Pointers, ledger: map<LogBuffer, Holding>, s: Blocks) {
    && Holds(p.current, Current, s.current, ledger) && Holds(p.next, Next, s.next, ledger)
    && Holds(p.spare1, Spare1, s.spare1, ledger) && Holds(p.spare2, Spare2, s.spare2, ledger)
    && QueueHolds(p.queue, s.queue, ledger) && BatchHolds(p.batch, s.batch, ledger)
  }

  lemma FirstTwo(b1: LogBuffer, b2: LogBuffer)
    requires b1 != b2
    ensures Matches(Pointers(b1, b2, null, null, [], []),
                    map[b1 := Holding(Current, []), b2 := Holding(Next, [])],
                    Blocks(Some([]), Some([]), None, None, [], []))
  {
  }

  /** The current buffer goes to the back of the queue. */
  lemma CurrentPushed(p: Pointers, b: LogBuffer, ledger: map<LogBuffer, Holding>, s: Blocks)
    requires Matches(p, ledger, s) && p.current == b && s.current.Some?
    ensures Matches(p.(queue := p.queue + [b], current := null),
                    ledger[b := Holding(Queue(|p.queue|), s.current.value)],
                    s.(queue := s.queue + [s.current.value], current := None))
  {
  }

  lemma NextTaken(p: Pointers, b: LogBuffer, ledger: map<LogBuffer, Holding>, s: Blocks)
    requires Matches(p, ledger, s) && p.current == null && p.next == b && s.next.Some?
    ensures Matches(p.(current := b, next := null), ledger[b := Holding(Current, s.next.value)],
                    s.(current := s.next, next := None))
  {
  }

  lemma Spare1Taken(p: Pointers, b: LogBuffer, ledger: map<LogBuffer, Holding>, s: Blocks)
    requires Matches(p, ledger, s) && p.current == null && p.spare1 == b && s.spare1.Some?
    ensures Matches(p.(current := b, spare1 := null), ledger[b := Holding(Current, s.spare1.value)],
                    s.(current := s.spare1, spare1 := None))
  {
  }

  lemma Spare2Taken(p: Pointers, b: LogBuffer, ledger: map<LogBuffer, Holding>, s: Blocks)
    requires Matches(p, ledger, s) && p.next == null && p.spare2 == b && s.spare2.Some?
    ensures Matches(p.(next := b, spare2 := null), ledger[b := Holding(Next, s.spare2.value)],
                    s.(next := s.spare2, spare2 := None))
  {
  }

  /** A new buffer for a pointer that holds none. */
  lemma CurrentMade(p: Pointers, b: LogBuffer, ledger: map<LogBuffer, Holding>, s: Blocks)
    requires Matches(p, ledger, s) && p.current == null && b !in ledger
    ensures Matches(p.(current := b), ledger[b := Holding(Current, [])], s.(current := Some([])))
  {
  }

  lemma SparesMade(p: Pointers, b1: LogBuffer, b2: LogBuffer, ledger: map<LogBuffer, Holding>, s: Blocks)
    requires Matches(p, ledger, s) && p.spare1 == p.spare2 == null && b1 !in ledger && b2 !in ledger && b1 != b2
    ensures Matches(p.(spare1 := b1, spare2 := b2), ledger[b1 := Holding(Spare1, [])][b2 := Holding(Spare2, [])],
                    s.(spare1 := Some([]), spare2 := Some([])))
  {
  }

  /** The block of the current buffer changes. */
  lemma CurrentStored(p: Pointers, b: LogBuffer, ledger: map<LogBuffer, Holding>, s: Blocks, block: Block)
    requires Matches(p, ledger, s) && p.current == b
    ensures Matches(p, ledger[b := Holding(Current, block)], s.(current := Some(block)))
  {
  }

  lemma Spare1Cleared(p: Pointers, b: LogBuffer, ledger: map<LogBuffer, Holding>, s: Blocks)
    requires Matches(p, ledger, s) && p.spare1 == b
    ensures Matches(p, ledger[b := Holding(Spare1, [])], s.(spare1 := Some([])))
  {
  }

  lemma Spare2Cleared(p: Pointers, b: LogBuffer, ledger: map<LogBuffer, Holding>, s: Blocks)
    requires Matches(p, ledger, s) && p.spare2 == b
    ensures Matches(p, ledger[b := Holding(Spare2, [])], s.(spare2 := Some([])))
  {
  }

  /** The queue, as it is, becomes the batch. */
  lemma QueueSwapped(p: Pointers, ledger: map<LogBuffer, Holding>, ledger': map<LogBuffer, Holding>, s: Blocks)
    requires Matches(p, ledger, s) && p.batch == [] && BatchHolds(p.queue, s.queue, ledger')
    requires forall b | b in ledger && !ledger[b].holder.Queue? :: b in ledger' && ledger'[b] == ledger[b]
    ensures Matches(p.(queue := [], batch := p.queue), ledger', s.(queue := [], batch := s.queue))
  {
  }

  lemma BatchCut(p: Pointers, ledger: map<LogBuffer, Holding>, s: Blocks, n: nat)
    requires Matches(p, ledger, s) && n <= |p.batch|
    ensures |s.batch| == |p.batch| && Matches(p.(batch := p.batch[..n]), ledger, s.(batch := s.batch[..n]))
  {
  }

  /** The last buffer of the batch becomes a spare. */
  lemma PoppedToSpare1(p: Pointers, b: LogBuffer, ledger: map<LogBuffer, Holding>, s: Blocks)
    requires Matches(p, ledger, s) && p.batch != [] && p.batch[|p.batch| - 1] == b && p.spare1 == null
    ensures var n := |p.batch| - 1;
      && |s.batch| == n + 1
      && Matches(p.(spare1 := b, batch := p.batch[..n]), ledger[b := Holding(Spare1, s.batch[n])],
                 s.(spare1 := Some(s.batch[n]), batch := s.batch[..n]))
  {
  }

  lemma PoppedToSpare2(p: Pointers, b: LogBuffer, ledger: map<LogBuffer, Holding>, s: Blocks)
    requires Matches(p, ledger, s) && p.batch != [] && p.batch[|p.batch| - 1] == b && p.spare2 == null
    ensures var n := |p.batch| - 1;
      && |s.batch| == n + 1
      && Matches(p.(spare2 := b, batch := p.batch[..n]), ledger[b := Holding(Spare2, s.batch[n])],
                 s.(spare2 := Some(s.batch[n]), batch := s.batch[..n]))
  {
  }

  /** Where a held buffer stands in the ledger. */
  lemma HeldBlock(p: Pointers, ledger: map<LogBuffer, Holding>, s: Blocks)
    requires Matches(p, ledger, s)
    ensures Holds(p.current, Current, s.current, ledger) && Holds(p.next, Next, s.next, ledger)
    ensures Holds(p.spare1, Spare1, s.spare1, ledger) && Holds(p.spare2, Spare2, s.spare2, ledger)
    ensures |s.queue| == |p.queue| && |s.batch| == |p.batch|
    ensures forall i | 0 <= i < |p.batch| :: p.batch[i] in ledger && ledger[p.batch[i]] == Holding(Batch(i), s.batch[i])
  {
  }

  class AsyncLogging {
    var running: bool
    var currentBuffer: LogBuffer?
    var nextBuffer: LogBuffer?
    var buffers: seq<LogBuffer>
    // the locals of ThreadFunc
    var buffersToWrite: seq<LogBuffer>
    var newBuffer1: LogBuffer?
    var newBuffer2: LogBuffer?
    var phase: Phase

    var output: seq<Item>
    /** The abstract state, tied to the fields by Valid(). */
    ghost var state: Log
    ghost var owned: set<LogBuffer>
    /** Whose data an array is. */
    ghost var home: map<array<byte>, LogBuffer>

    /** Null pointers, lengths and plain values are those of the abstract state. */
    ghost predicate Shape()
      reads this
    {
      && (currentBuffer == null <==> state.current.None?) && (nextBuffer == null <==> state.next.None?)
      && (newBuffer1 == null <==> state.spare1.None?) && (newBuffer2 == null <==> state.spare2.None?)
      && |buffers| == |state.queue| && |buffersToWrite| == |state.batch|
      && running == state.running && phase == state.phase && output == state.out
    }

    ghost function Ledger(): map<LogBuffer, Holding>
      reads this`owned, owned`holder, owned`block
    {
      map b | b in owned :: Holding(b.holder, b.block)
    }

    lemma LedgerAt(b: LogBuffer)
      ensures b in Ledger() <==> b in owned
      ensures b in owned ==> Ledger()[b] == Holding(b.holder, b.block)
    {
    }

    ghost function Hands(): Pointers
      reads this
    {
      Pointers(currentBuffer, nextBuffer, newBuffer1, newBuffer2, buffers, buffersToWrite)
    }

    ghost predicate Held()
      reads this, owned`holder, owned`block
    {
      Matches(Hands(), Ledger(), BlocksOf(state))
    }

    /** The pointers are what the abstract state says, and no two share a buffer. */
    ghost predicate Tied()
      reads this, owned`holder, owned`block
    {
      Shape() && Held()
    }

    /** Every buffer is well formed and has its own data, whoever holds it. */
    ghost predicate Intact()
      reads this`owned, this`home, owned`cur, owned`block, home.Keys
    {
      forall b | b in owned :: b.data in home && home[b.data] == b && b.Valid()
    }

    ghost predicate Valid()
      reads this, owned, home.Keys
    {
      Tied() && Intact()
    }

    /** The front end's buffers; ThreadFunc has not started. */
    constructor ()
      ensures Valid() && fresh(owned) && fresh(home.Keys)
      ensures state == Start.(running := false, spare1 := None, spare2 := None)
    {
      hide LogBuffer.Valid;
      hide Intact;
      hide Matches;
      hide Ledger;
      var b1 := new LogBuffer(Current);
      var b2 := new LogBuffer(Next);
      owned, home := {b1, b2}, map[b1.data := b1, b2.data := b2];
      buffers, buffersToWrite := [], [];
      currentBuffer, nextBuffer, newBuffer1, newBuffer2 := b1, b2, null, null;
      running, phase, output := false, Testing, [];
      state := Start.(running := false, spare1 := None, spare2 := None);
      new;
      FirstTwo(b1, b2);
      LedgerOfTwo(b1, b2);
      IntactTwo(b1, b2);
    }

    lemma LedgerOfTwo(b1: LogBuffer, b2: LogBuffer)
      requires owned == {b1, b2}
      ensures Ledger() == map[b1 := Holding(b1.holder, b1.block), b2 := Holding(b2.holder, b2.block)]
    {
    }

    lemma IntactTwo(b1: LogBuffer, b2: LogBuffer)
      requires owned == {b1, b2} && home == map[b1.data := b1, b2.data := b2] && b1.data != b2.data
      requires b1.Valid() && b2.Valid()
      ensures Intact()
    {
      hide LogBuffer.Valid;
    }

    /** Starting, up to ThreadFunc's loop, which has two buffers of its own. */
    method Launch()
      requires Valid() && state == Start.(running := false, spare1 := None, spare2 := None)
      modifies this
      ensures Valid() && fresh(owned - old(owned)) && fresh(home.Keys - old(home.Keys))
      ensures state == Start && Sound(state)
    {
      hide LogBuffer.Valid;
      hide Intact;
      hide Sound;
      hide Matches;
      hide Ledger;
      ghost var p, ledger, s := Hands(), Ledger(), BlocksOf(state);
      HeldBlock(p, ledger, s);
      StartIsSound();
      var b1 := NewBuffer(Spare1);
      var b2 := NewBuffer(Spare2);
      SparesMade(p, b1, b2, ledger, s);
      newBuffer1, newBuffer2 := b1, b2;
      running := true;
      state := Start;
    }

    method NewBuffer(ghost h: Holder) returns (b: LogBuffer)
      requires Intact()
      modifies `owned, `home
      ensures Intact() && fresh(b) && fresh(b.data)
      ensures b.holder == h && b.block == []
      ensures owned == old(owned) + {b} && home == old(home)[b.data := b]
      ensures b !in old(Ledger()) && Ledger() == old(Ledger())[b := Holding(h, [])]
    {
      hide LogBuffer.Valid;
      b := new LogBuffer(h);
      owned, home := owned + {b}, home[b.data := b];
    }

    /** Any interleaving of appends, stop and back-end steps takes the objects where
        the protocol goes. */
    method Replay(actions: seq<Action>)
      requires Valid() && Sound(state) && Fits(actions)
      modifies this, owned, home.Keys
      ensures Valid() && Sound(state) && fresh(owned - old(owned)) && fresh(home.Keys - old(home.Keys))
      ensures Some(state) == Run(old(state), actions)
    {
      hide Tied;
      hide Intact;
      hide Sound;
      hide Put;
      hide BackStep;
      var i := 0;
      while i < |actions|
        invariant 0 <= i <= |actions| && Valid() && Sound(state)
        invariant fresh(owned - old(owned)) && fresh(home.Keys - old(home.Keys))
        invariant Run(old(state), actions) == Run(state, actions[i..])
      {
        assert actions[i] in actions && actions[i..][0] == actions[i] && actions[i..][1..] == actions[i + 1..];
        match actions[i] {
          case Append(record) => Append(record);
          case Stop => Stop();
          case Back => BackEnd();
        }
        i := i + 1;
      }
    }

    // ---- The front end ----------------------------------------------------

    method Append(record: Record)
      requires Valid() && Sound(state) && |record| <= BUFFER_SIZE
      modifies this, owned, home.Keys
      ensures Valid() && fresh(owned - old(owned)) && fresh(home.Keys - old(home.Keys))
      ensures Some(state) == Put(old(state), record) && Sound(state)
    {
      hide Intact;
      hide Held;
      hide Sound;
      hide Size;
      PutIsDefined(state, record);
      PutIsSound(state, record);
      CurrentSize();
      NextIsEmpty(state);
      if currentBuffer.Available() >= |record| {
        StoreRecord(record);
      } else {
        RotateBuffers();
        StoreRecord(record);
      }
    }

    lemma DataIsHome(b: LogBuffer)
      requires Intact() && b in owned
      ensures b.data in home
    {
    }

    lemma CurrentSize()
      requires Valid() && Sound(state)
      ensures currentBuffer != null && currentBuffer.cur == Size(state.current.value) <= BUFFER_SIZE
    {
      hide Conserved;
      hide Reported;
    }

    /** The record joins the current buffer, which has room for it. */
    method StoreRecord(record: Record)
      requires Valid() && state.current.Some? && Size(state.current.value) + |record| <= BUFFER_SIZE
      modifies owned`cur, owned`block, home.Keys, `state
      ensures Valid()
      ensures Some(state) == Store(old(state), record)
    {
      hide Intact;
      hide Size;
      hide Matches;
      hide Ledger;
      ghost var p, ledger, s := Hands(), Ledger(), BlocksOf(state);
      HeldBlock(p, ledger, s);
      LedgerAt(currentBuffer);
      DataIsHome(currentBuffer);
      CurrentStored(p, currentBuffer, ledger, s, s.current.value + [record]);
      AppendTo(currentBuffer, record);
      state := LogSpec.Store(state, record).value;
    }

    method AppendTo(b: LogBuffer, record: Record)
      requires Intact() && b in owned && Size(b.block) + |record| <= BUFFER_SIZE
      modifies b`cur, b`block, b.data
      ensures Intact() && Ledger() == old(Ledger())[b := Holding(b.holder, old(b.block) + [record])]
    {
      hide LogBuffer.Valid;
      hide Size;
      b.Append(record);
    }

    method Clear(b: LogBuffer)
      requires Intact() && b in owned
      modifies b`cur, b`block, b.data
      ensures Intact() && Ledger() == old(Ledger())[b := Holding(b.holder, [])]
    {
      hide LogBuffer.Valid;
      b.Reset();
    }

    /** Another pointer becomes the buffer's holder. */
    ghost method Give(b: LogBuffer, h: Holder)
      requires b in owned
      modifies b`holder
      ensures Ledger() == old(Ledger())[b := Holding(h, b.block)]
    {
      b.holder := h;
    }

    method RotateBuffers()
      requires Valid() && state.current.Some?
      modifies this, owned`holder
      ensures Valid() && fresh(owned - old(owned)) && fresh(home.Keys - old(home.Keys))
      ensures state == Rotate(old(state))
    {
      hide Intact;
      hide Held;
      PushCurrent();
      if nextBuffer != null {
        TakeNext();
      } else {
        NewCurrent();
      }
    }

    /** The current buffer goes to the back of the queue. */
    method PushCurrent()
      requires Tied() && state.current.Some?
      modifies `buffers, `currentBuffer, `state, owned`holder
      ensures Tied()
      ensures state == old(state).(queue := old(state.queue) + [old(state.current.value)], current := None)
    {
      hide Matches;
      hide Ledger;
      ghost var p, ledger, s := Hands(), Ledger(), BlocksOf(state);
      HeldBlock(p, ledger, s);
      var b := currentBuffer;
      LedgerAt(b);
      CurrentPushed(p, b, ledger, s);
      Give(b, Queue(|buffers|));
      currentBuffer := null;
      buffers := buffers + [b];
      state := state.(queue := state.queue + [b.block], current := None);
    }

    /** The front end's spare becomes the current buffer. */
    method TakeNext()
      requires Tied() && state.current.None? && state.next.Some?
      modifies `currentBuffer, `nextBuffer, `state, owned`holder
      ensures Tied()
      ensures state == old(state).(current := old(state.next), next := None)
    {
      hide Matches;
      hide Ledger;
      ghost var p, ledger, s := Hands(), Ledger(), BlocksOf(state);
      HeldBlock(p, ledger, s);
      LedgerAt(nextBuffer);
      NextTaken(p, nextBuffer, ledger, s);
      Give(nextBuffer, Current);
      currentBuffer := nextBuffer;
      nextBuffer := null;
      state := state.(current := state.next, next := None);
    }

    /** A newly allocated buffer becomes the current one. */
    method NewCurrent()
      requires Valid() && state.current.None?
      modifies `currentBuffer, `owned, `home, `state
      ensures Valid() && fresh(owned - old(owned)) && fresh(home.Keys - old(home.Keys))
      ensures state == old(state).(current := Some([]))
    {
      hide Intact;
      hide Matches;
      hide Ledger;
      ghost var p, ledger, s := Hands(), Ledger(), BlocksOf(state);
      HeldBlock(p, ledger, s);
      var b := NewBuffer(Current);
      CurrentMade(p, b, ledger, s);
      currentBuffer := b;
      state := state.(current := Some([]));
    }

    /** Stopping, up to the wait for ThreadFunc. */
    method Stop()
      requires Valid() && Sound(state)
      modifies `running, `state
      ensures Valid() && Step(old(state), LogSpec.Stop) == Some(state) && Sound(state)
    {
      hide Intact;
      hide Sound;
      StepIsSound(state, LogSpec.Stop);
      running := false;
      state := state.(running := false);
    }

    // ---- The back end: ThreadFunc -----------------------------------------

    /** One step of the back end, from wherever ThreadFunc is. */
    method BackEnd()
      requires Valid() && Sound(state)
      modifies this, owned, home.Keys
      ensures Valid() && fresh(owned - old(owned)) && fresh(home.Keys - old(home.Keys))
      ensures Some(state) == BackStep(old(state)) && Sound(state)
    {
      hide Intact;
      hide Held;
      hide Sound;
      BackStepIsSound(state);
      hide Take;
      hide Write;
      hide Recycle;
      match phase
      case Testing => TestLoop();
      case Locking => LockAndTake();
      case Waiting => TakeBatch();
      case Writing => WriteBatch();
      case Recycling => RecycleBuffers();
      case Exited =>
    }

    method GoTo(p: Phase, ghost taken: seq<seq<Block>>)
      requires Tied()
      modifies `phase, `state
      ensures Tied() && state == old(state).(phase := p, taken := taken)
    {
      hide Matches;
      hide Ledger;
      phase := p;
      state := state.(phase := p, taken := taken);
    }

    /** The loop test: ThreadFunc goes on while it is to run, or the current buffer holds
        something. */
    method TestLoop()
      requires Valid() && Sound(state)
      modifies `phase, `state
      ensures Valid() && Some(state) == Test(old(state))
    {
      hide Intact;
      hide Held;
      hide Sound;
      hide Size;
      CurrentSize();
      GoTo(if running || currentBuffer.cur > 0 then Locking else Exited, state.taken);
    }

    /** Taking the lock: with nothing queued, ThreadFunc waits and lets it go. */
    method LockAndTake()
      requires Valid() && Sound(state) && state.phase.Locking?
      modifies this, owned`holder
      ensures Valid() && owned == old(owned) && home == old(home) && Some(state) == Lock(old(state))
    {
      hide Intact;
      hide Held;
      hide Sound;
      hide Take;
      if buffers == [] {
        GoTo(Waiting, state.taken);
      } else {
        TakeBatch();
      }
    }

    /** The lock region of ThreadFunc, after any wait. */
    method TakeBatch()
      requires Valid() && Sound(state) && state.phase in {Locking, Waiting}
      modifies this, owned`holder
      ensures Valid() && owned == old(owned) && home == old(home) && Some(state) == Take(old(state))
    {
      hide Intact;
      hide Held;
      hide Sound;
      hide Size;
      CurrentSize();
      TakeHasSpare(state);
      if buffers == [] && currentBuffer.cur == 0 {
        GoTo(Testing, state.taken);
      } else {
        MoveBatch();
      }
    }

    /** The moves of the lock region. */
    method MoveBatch()
      requires Tied() && state.batch == [] && state.current.Some? && state.spare1.Some?
      modifies this, owned`holder
      ensures Tied() && owned == old(owned) && home == old(home)
      ensures var s, b := old(state), old(state.queue) + [old(state.current.value)];
        state == s.(phase := Writing, batch := b, queue := [], taken := s.taken + [b],
                    current := s.spare1, spare1 := None,
                    next := if s.next.None? then s.spare2 else s.next,
                    spare2 := if s.next.None? then None else s.spare2)
    {
      hide Held;
      PushCurrent();
      TakeSpare1();
      SwapQueues();
      if nextBuffer == null {
        TakeSpare2();
      }
      GoTo(Writing, state.taken + [state.batch]);
    }

    /** The back end's first spare becomes the current buffer. */
    method TakeSpare1()
      requires Tied() && state.current.None? && state.spare1.Some?
      modifies `currentBuffer, `newBuffer1, `state, owned`holder
      ensures Tied()
      ensures state == old(state).(current := old(state.spare1), spare1 := None)
    {
      hide Matches;
      hide Ledger;
      ghost var p, ledger, s := Hands(), Ledger(), BlocksOf(state);
      HeldBlock(p, ledger, s);
      LedgerAt(newBuffer1);
      Spare1Taken(p, newBuffer1, ledger, s);
      Give(newBuffer1, Current);
      currentBuffer := newBuffer1;
      newBuffer1 := null;
      state := state.(current := state.spare1, spare1 := None);
    }

    /** The back end's second spare, if it is there, becomes the front end's. */
    method TakeSpare2()
      requires Tied() && state.next.None?
      modifies `nextBuffer, `newBuffer2, `state, owned`holder
      ensures Tied()
      ensures state == old(state).(next := old(state.spare2), spare2 := None)
    {
      hide Matches;
      hide Ledger;
      ghost var p, ledger, s := Hands(), Ledger(), BlocksOf(state);
      HeldBlock(p, ledger, s);
      if newBuffer2 != null {
        LedgerAt(newBuffer2);
        Spare2Taken(p, newBuffer2, ledger, s);
        Give(newBuffer2, Next);
      }
      nextBuffer := newBuffer2;
      newBuffer2 := null;
      state := state.(next := state.spare2, spare2 := None);
    }

    /** The queue becomes the batch, and the empty batch the queue. */
    method SwapQueues()
      requires Tied() && state.batch == []
      modifies `buffers, `buffersToWrite, `state, owned`holder
      ensures Tied()
      ensures state == old(state).(queue := [], batch := old(state.queue))
    {
      hide Matches;
      hide Ledger;
      ghost var p, ledger, s := Hands(), Ledger(), BlocksOf(state);
      HeldBlock(p, ledger, s);
      GiveAll();
      QueueSwapped(p, ledger, Ledger(), s);
      buffers, buffersToWrite := buffersToWrite, buffers;
      state := state.(queue := [], batch := state.queue);
    }

    /** The buffers of the queue become those of the batch. */
    ghost method GiveAll()
      requires Tied()
      modifies owned`holder
      ensures BatchHolds(buffers, state.queue, Ledger())
      ensures forall b | b in old(Ledger()) && !old(Ledger())[b].holder.Queue? ::
        b in Ledger() && Ledger()[b] == old(Ledger())[b]
    {
      forall i | 0 <= i < |buffers| {
        buffers[i].holder := Batch(i);
      }
    }

    /** A batch that is too long is cut, with a notice; what is left is written. */
    method WriteBatch()
      requires Valid() && state.phase.Writing?
      modifies `buffersToWrite, `output, `phase, `state
      ensures Valid() && Some(state) == Write(old(state))
    {
      hide Intact;
      hide Held;
      CutBatch();
      WriteOut();
      GoTo(Recycling, state.taken);
      hide Texts;
      assert state.out == old(state.out) + Items(old(state.batch));
    }

    method CutBatch()
      requires Tied()
      modifies `buffersToWrite, `output, `state
      ensures Tied()
      ensures state == old(state).(batch := Kept(old(state.batch)), out := old(state.out)
        + if |old(state.batch)| > MAX_BATCH then [Notice(|old(state.batch)| - KEPT)] else [])
    {
      hide Held;
      if |buffersToWrite| > MAX_BATCH {
        Emit(Notice(|buffersToWrite| - KEPT));
        TruncateBatch(KEPT);
      }
    }

    /** One item is put on the output. */
    method Emit(item: Item)
      requires Tied()
      modifies `output, `state
      ensures Tied() && state == old(state).(out := old(state.out) + [item])
    {
      hide Matches;
      hide Ledger;
      output := output + [item];
      state := state.(out := output);
    }

    method WriteOut()
      requires Valid()
      modifies `output, `state
      ensures Valid() && state == old(state).(out := old(state.out) + Texts(old(state.batch)))
    {
      hide Intact;
      hide Held;
      ghost var before, blocks := output, state.batch;
      for i := 0 to |buffersToWrite|
        invariant Valid() && output == before + Texts(blocks[..i])
        invariant state == old(state).(out := output)
      {
        TextsSnoc(blocks[..i], blocks[i]);
        WriteOne(i);
        assert blocks[..i + 1] == blocks[..i] + [blocks[i]];
      }
      assert blocks[..|blocks|] == blocks;
    }

    /** The text of one buffer of the batch is put on the output. */
    method WriteOne(i: nat)
      requires Valid() && i < |state.batch|
      modifies `output, `state
      ensures Valid()
      ensures state == old(state).(out := old(state.out) + [Text(UpToNul(Flatten(old(state.batch)[i])))])
    {
      hide LogBuffer.Valid;
      hide Matches;
      hide Ledger;
      HeldBlock(Hands(), Ledger(), BlocksOf(state));
      LedgerAt(buffersToWrite[i]);
      var text := buffersToWrite[i].CString();
      Emit(Text(text));
    }

    /** After writing, two buffers of the batch at most become spares again. */
    method RecycleBuffers()
      requires Valid() && Sound(state) && state.phase.Recycling?
      modifies this, owned, home.Keys
      ensures Valid() && owned == old(owned) && home == old(home)
      ensures Some(state) == Recycle(old(state))
    {
      hide Intact;
      hide Tied;
      hide Sound;
      hide Recycle;
      BatchLength();
      RecycleRestores(state);
      if |buffersToWrite| > KEPT {
        TruncateBatch(KEPT);
      }
      GiveSpares();
      TruncateBatch(0);
      GoTo(Testing, state.taken);
    }

    lemma BatchLength()
      requires Tied()
      ensures |buffersToWrite| == |state.batch|
    {
      hide Held;
    }

    method GiveSpares()
      requires Valid() && state.spare1.None? && |state.batch| >= if state.spare2.None? then 2 else 1
      modifies `buffersToWrite, `newBuffer1, `newBuffer2, `state, owned, home.Keys
      ensures Valid()
      ensures state == old(state).(spare1 := Some([]), batch := state.batch,
        spare2 := if old(state.spare2).None? then Some([]) else old(state.spare2))
    {
      hide Intact;
      hide Held;
      if newBuffer1 == null {
        GiveSpare1();
      }
      if newBuffer2 == null {
        GiveSpare2();
      }
    }

    /** All but the first n buffers of the batch are given up. */
    method TruncateBatch(n: nat)
      requires Tied() && n <= |state.batch|
      modifies `buffersToWrite, `state
      ensures Tied() && state == old(state).(batch := old(state.batch)[..n])
    {
      hide Matches;
      hide Ledger;
      ghost var p, ledger, s := Hands(), Ledger(), BlocksOf(state);
      HeldBlock(p, ledger, s);
      BatchCut(p, ledger, s, n);
      buffersToWrite := buffersToWrite[..n];
      state := state.(batch := state.batch[..n]);
    }

    method GiveSpare1()
      requires Valid() && state.spare1.None? && state.batch != []
      modifies `buffersToWrite, `newBuffer1, `state, owned, home.Keys
      ensures Valid()
      ensures state == old(state).(spare1 := Some([]), batch := old(state.batch)[..|old(state.batch)| - 1])
    {
      hide Intact;
      hide Held;
      MoveBackToSpare1();
      ResetSpare1();
    }

    method ResetSpare1()
      requires Valid() && state.spare1.Some?
      modifies `state, owned`cur, owned`block, home.Keys
      ensures Valid() && state == old(state).(spare1 := Some([]))
    {
      hide Intact;
      hide Matches;
      hide Ledger;
      ghost var p, ledger, s := Hands(), Ledger(), BlocksOf(state);
      HeldBlock(p, ledger, s);
      LedgerAt(newBuffer1);
      DataIsHome(newBuffer1);
      Spare1Cleared(p, newBuffer1, ledger, s);
      Clear(newBuffer1);
      state := state.(spare1 := Some([]));
    }

    method GiveSpare2()
      requires Valid() && state.spare2.None? && state.batch != []
      modifies `buffersToWrite, `newBuffer2, `state, owned, home.Keys
      ensures Valid()
      ensures state == old(state).(spare2 := Some([]), batch := old(state.batch)[..|old(state.batch)| - 1])
    {
      hide Intact;
      hide Held;
      MoveBackToSpare2();
      ResetSpare2();
    }

    method ResetSpare2()
      requires Valid() && state.spare2.Some?
      modifies `state, owned`cur, owned`block, home.Keys
      ensures Valid() && state == old(state).(spare2 := Some([]))
    {
      hide Intact;
      hide Matches;
      hide Ledger;
      ghost var p, ledger, s := Hands(), Ledger(), BlocksOf(state);
      HeldBlock(p, ledger, s);
      LedgerAt(newBuffer2);
      DataIsHome(newBuffer2);
      Spare2Cleared(p, newBuffer2, ledger, s);
      Clear(newBuffer2);
      state := state.(spare2 := Some([]));
    }

    /** The last buffer of the batch becomes the first spare. */
    method MoveBackToSpare1()
      requires Tied() && state.spare1.None? && state.batch != []
      modifies `buffersToWrite, `newBuffer1, `state, owned`holder
      ensures Tied()
      ensures var n := |old(state.batch)| - 1;
        state == old(state).(spare1 := Some(old(state.batch)[n]), batch := old(state.batch)[..n])
    {
      hide Matches;
      hide Ledger;
      ghost var p, ledger, s := Hands(), Ledger(), BlocksOf(state);
      HeldBlock(p, ledger, s);
      var n := |buffersToWrite| - 1;
      PoppedToSpare1(p, buffersToWrite[n], ledger, s);
      LedgerAt(buffersToWrite[n]);
      newBuffer1 := buffersToWrite[n];
      Give(newBuffer1, Spare1);
      buffersToWrite := buffersToWrite[..n];
      state := state.(spare1 := Some(state.batch[n]), batch := state.batch[..n]);
    }

    /** The last buffer of the batch becomes the second spare. */
    method MoveBackToSpare2()
      requires Tied() && state.spare2.None? && state.batch != []
      modifies `buffersToWrite, `newBuffer2, `state, owned`holder
      ensures Tied()
      ensures var n := |old(state.batch)| - 1;
        state == old(state).(spare2 := Some(old(state.batch)[n]), batch := old(state.batch)[..n])
    {
      hide Matches;
      hide Ledger;
      ghost var p, ledger, s := Hands(), Ledger(), BlocksOf(state);
      HeldBlock(p, ledger, s);
      var n := |buffersToWrite| - 1;
      PoppedToSpare2(p, buffersToWrite[n], ledger, s);
      LedgerAt(buffersToWrite[n]);
      newBuffer2 := buffersToWrite[n];
      Give(newBuffer2, Spare2);
      buffersToWrite := buffersToWrite[..n];
      state := state.(spare2 := Some(state.batch[n]), batch := state.batch[..n]);
    }
  }

  lemma {:induction false} TextsSnoc(blocks: seq<Block>, b: Block)
    ensures Texts(blocks + [b]) == Texts(blocks) + [Text(UpToNul(Flatten(b)))]
  {
    if blocks != [] {
      assert (blocks + [b])[1..] == blocks[1..] + [b];
      TextsSnoc(blocks[1..], b);
    }
  }
}
