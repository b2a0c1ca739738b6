/** src/Buffer.cpp: the growable, compacting byte buffer. The slice of the
    array between the two indices is a first-in-first-out queue of bytes. */
module Buffers {
  import opened Sequences
  import opened Bytes
  import opened Kernel

  const CHEAP_PREPEND: nat := 8
  const INITIAL_SIZE: nat := 1024
  const EXTRA_SIZE: nat := 65536

  class Buffer {
    var buffer: array<byte>
    var readerIndex: nat
    var writerIndex: nat
    ghost const initialSize: nat
    /** The largest number of readable bytes there has ever been. */
    ghost var peak: nat

    /** The layout invariant: prefix, readable bytes, writable bytes. */
    ghost predicate Laid()
      reads this, buffer
    {
      && CHEAP_PREPEND <= readerIndex <= writerIndex <= buffer.Length
      && (readerIndex == writerIndex ==> readerIndex == CHEAP_PREPEND)
    }

    ghost predicate Valid(): (valid: bool)
      reads this, buffer
      ensures valid ==> Laid()
    {
      Laid() && |Contents()| <= peak && buffer.Length <= MemoryBound(initialSize, peak)
    }

    ghost function Contents(): (s: bytes)
      requires Laid()
      reads this, buffer
    {
      buffer[readerIndex..writerIndex]
    }

    constructor (initialSize: nat)
      requires 0 < initialSize
      ensures Valid() && fresh(buffer)
      ensures Contents() == [] && peak == 0 && this.initialSize == initialSize
      ensures buffer.Length == initialSize + 8 && readerIndex == writerIndex == 8
    {
      buffer := new byte[initialSize + CHEAP_PREPEND](_ => 0);
      readerIndex, writerIndex := CHEAP_PREPEND, CHEAP_PREPEND;
      this.initialSize := initialSize;
      peak := 0;
    }

    function ReadableBytes(): (n: nat)
      requires Laid()
      reads this, buffer
      ensures n == |Contents()|
    {
      writerIndex - readerIndex
    }

    function WritableBytes(): (n: nat)
      requires Laid()
      reads this, buffer
    {
      buffer.Length - writerIndex
    }

    /** The readable bytes. */
    method Peek() returns (s: bytes)
      requires Laid()
      ensures s == Contents()
    {
      s := buffer[readerIndex..writerIndex];
    }

    /** The next four bytes as a signed number in network order. */
    method PeekInt32() returns (h: int)
      requires Valid() && ReadableBytes() >= 4
      ensures h == Signed32(Read32(Contents()))
    {
      h := Signed32(Read32(buffer[readerIndex..readerIndex + 4]));
    }

    method Retrieve(len: nat)
      requires Valid()
      modifies this`readerIndex, this`writerIndex
      ensures Valid()
      ensures Contents() == old(Contents())[Min(len, old(ReadableBytes()))..]
    {
      if len < ReadableBytes() {
        readerIndex := readerIndex + len;
      } else {
        readerIndex, writerIndex := CHEAP_PREPEND, CHEAP_PREPEND;
      }
    }

    method RetrieveAsString(len: nat) returns (s: bytes)
      requires Valid()
      modifies this`readerIndex, this`writerIndex
      ensures Valid()
      ensures s + Contents() == old(Contents())
      ensures |s| == Min(len, old(ReadableBytes()))
    {
      if len <= ReadableBytes() {
        s := buffer[readerIndex..readerIndex + len];
        Retrieve(len);
      } else {
        s := buffer[readerIndex..writerIndex];
        Retrieve(ReadableBytes());
      }
    }

    /** Makes at least `len` bytes writable, by growing the storage or by moving
        the readable bytes down to the reserved prefix. */
    method MakeSpace(len: nat)
      requires Laid() && WritableBytes() < len
      modifies this`buffer, this`readerIndex, this`writerIndex, buffer
      ensures buffer == old(buffer) || fresh(buffer)
      ensures Laid() && Contents() == old(Contents()) && len <= WritableBytes()
      ensures buffer.Length <= Max(old(buffer.Length), 2 * (ReadableBytes() + len) + CHEAP_PREPEND - 1)
    {
      if WritableBytes() + readerIndex < len + CHEAP_PREPEND {
        Resize(len + writerIndex);
      } else {
        Compact();
      }
    }

    /** Moves the readable bytes down to the prefix; source and destination may
        overlap, and the copy runs upwards. */
    method Compact()
      requires Laid()
      modifies this`readerIndex, this`writerIndex, buffer
      ensures Laid() && Contents() == old(Contents()) && readerIndex == CHEAP_PREPEND
    {
      var readable := ReadableBytes();
      ghost var before := buffer[..];
      var i := 0;
      while i < readable
        modifies buffer
        invariant 0 <= i <= readable
        invariant buffer[CHEAP_PREPEND..CHEAP_PREPEND + i] == before[readerIndex..readerIndex + i]
        invariant buffer[readerIndex + i..] == before[readerIndex + i..]
      {
        buffer[CHEAP_PREPEND + i] := buffer[readerIndex + i];
        i := i + 1;
      }
      readerIndex := CHEAP_PREPEND;
      writerIndex := readerIndex + readable;
    }

    /** vector::resize to a larger size: the elements are kept. */
    method Resize(size: nat)
      requires buffer.Length <= size
      modifies this`buffer
      ensures fresh(buffer) && buffer.Length == size
      ensures forall i | 0 <= i < old(buffer.Length) :: buffer[i] == old(buffer[i])
    {
      var larger := new byte[size](_ => 0);
      forall i | 0 <= i < buffer.Length {
        larger[i] := buffer[i];
      }
      buffer := larger;
    }

    method EnsureWritableBytes(len: nat)
      requires Laid()
      modifies this`buffer, this`readerIndex, this`writerIndex, buffer
      ensures buffer == old(buffer) || fresh(buffer)
      ensures Laid() && Contents() == old(Contents()) && len <= WritableBytes()
      ensures buffer.Length <= Max(old(buffer.Length), 2 * (ReadableBytes() + len) + CHEAP_PREPEND - 1)
    {
      if WritableBytes() < len {
        MakeSpace(len);
      }
    }

    method Append(data: bytes)
      requires Valid()
      modifies this, buffer
      ensures buffer == old(buffer) || fresh(buffer)
      ensures Valid() && Contents() == old(Contents()) + data
      ensures peak == Max(old(peak), |Contents()|)
    {
      EnsureWritableBytes(|data|);
      Store(data);
    }

    /** std::copy, or the kernel, puts `data` in the writable bytes, which
        thereby become readable. */
    method Store(data: bytes)
      requires Laid() && |data| <= WritableBytes()
      modifies this`writerIndex, this`peak, buffer
      ensures Laid() && Contents() == old(Contents()) + data
      ensures writerIndex == old(writerIndex) + |data|
      ensures peak == Max(old(peak), |Contents()|)
    {
      forall i | 0 <= i < |data| {
        buffer[writerIndex + i] := data[i];
      }
      writerIndex := writerIndex + |data|;
      peak := Max(peak, ReadableBytes());
    }

    /** Reads once from the socket: straight into the writable bytes first, and,
        when fewer than 64 KiB of them are left, into a second region whose
        bytes are appended afterwards. */
    method ReadFd(socket: Socket) returns (r: ReadResult)
      requires Valid()
      modifies this, buffer
      modifies socket`incoming, socket`script, socket`received, socket`readCalls, socket`lastRead
      modifies socket`offered, socket`ended, socket`failed
      ensures buffer == old(buffer) || fresh(buffer)
      ensures Valid() && Contents() == old(Contents()) + if r.Data? then r.data else []
      ensures peak == Max(old(peak), |Contents()|)
      ensures r.Data? ==> r.data != []
      ensures var writable := old(WritableBytes());
        socket.offered == if writable < 65536 then writable + 65536 else writable
      ensures socket.ended == (old(socket.ended) || r.EndOfStream?)
      ensures socket.failed == (old(socket.failed) || (r.ReadError? && r.errno != EAGAIN && r.errno != EINTR))
      ensures socket.readCalls == old(socket.readCalls) + 1 && socket.lastRead == r
      ensures socket.received == old(socket.received) + if r.Data? then r.data else []
      ensures socket.script == if old(socket.script) == [] then [] else old(socket.script)[1..]
      ensures old(socket.script) == [] ==> r == ReadError(EAGAIN)
    {
      var writable := WritableBytes();
      var capacity := if writable < EXTRA_SIZE then writable + EXTRA_SIZE else writable;
      r := socket.Readv(capacity);
      match r
      case ReadError(_) =>
      case EndOfStream =>
        if writable == 0 {
          Append([]);
        }
      case Data(data) => Scatter(data);
    }

    /** The kernel has filled the writable bytes first and the second region after. */
    method Scatter(data: bytes)
      requires Valid()
      modifies this, buffer
      ensures buffer == old(buffer) || fresh(buffer)
      ensures Valid() && Contents() == old(Contents()) + data
      ensures peak == Max(old(peak), |Contents()|)
    {
      var writable := WritableBytes();
      if |data| < writable {
        Store(data);
      } else {
        Store(data[..writable]);
        Append(data[writable..]);
        assert data == data[..writable] + data[writable..];
      }
    }
  }

  /** The storage that a history with this peak can account for. */
  function MemoryBound(initialSize: nat, peak: nat): nat {
    Max(initialSize + CHEAP_PREPEND, 2 * peak + CHEAP_PREPEND - 1)
  }
}
