/** The operating system as one connection sees it: a socket that hands over
    received bytes in arbitrary pieces, takes bytes to send in arbitrary pieces,
    and reports writability to an edge-triggered epoll.

    Nothing here is code of the repository. Every choice the kernel or the peer
    makes is nondeterministic, within what readv(2), send(2) and epoll(7) promise. */
module Kernel {
  import opened Bytes

  datatype Errno = EAGAIN | EINTR | ECONNRESET | EPIPE | EOTHER

  /** The kernel's decision for one readv call. */
  datatype Decision = Ready(count: nat) | Closed | Fails(errno: Errno)

  datatype ReadResult = Data(data: bytes) | EndOfStream | ReadError(errno: Errno)

  datatype SendResult = Sent(count: nat) | SendError(errno: Errno)

  /** An epoll event mask, reduced to the bits the library uses. */
  datatype Events = Events(read: bool, write: bool, edgeTriggered: bool)

  class Socket {
    /** Bytes the peer has sent or will send, not yet read. */
    var incoming: bytes
    /** Decisions the kernel will take for the next readv calls. */
    var script: seq<Decision>
    ghost var received: bytes
    /** How often the socket was read, and what the last read returned. */
    ghost var readCalls: nat
    ghost var lastRead: ReadResult
    /** The room that the last read was offered. */
    ghost var offered: nat
    /** Whether a read has found the end of the stream. */
    ghost var ended: bool
    /** Whether a read or a send has failed for good. */
    ghost var failed: bool

    var accepted: bytes
    /** Free space in the kernel's send buffer. */
    var room: nat
    var interest: Events
    /** A writability edge that epoll_wait has not reported yet. */
    var edge: bool
    /** How often epoll_wait reported this socket. */
    ghost var waits: nat

    constructor (incoming: bytes, script: seq<Decision>, room: nat)
      ensures this.incoming == incoming && this.script == script && this.room == room
      ensures received == [] && accepted == [] && !edge && interest == Events(false, false, false)
      ensures !ended && !failed
    {
      this.incoming, this.script, this.room := incoming, script, room;
      received, accepted, edge, interest := [], [], false, Events(false, false, false);
      readCalls, lastRead, offered, waits := 0, ReadError(EAGAIN), 0, 0;
      ended, failed := false, false;
    }

    /** readv(2) into at most `capacity` bytes. */
    method Readv(capacity: nat) returns (r: ReadResult)
      requires 0 < capacity
      modifies this`incoming, this`script, this`received
      modifies this`readCalls, this`lastRead, this`offered, this`ended, this`failed
      ensures readCalls == old(readCalls) + 1 && lastRead == r && offered == capacity
      ensures ended == (old(ended) || r.EndOfStream?)
      ensures failed == (old(failed) || (r.ReadError? && r.errno != EAGAIN && r.errno != EINTR))
      ensures old(script) != [] ==> script == old(script)[1..]
      ensures old(script) == [] ==> script == [] && r == ReadError(EAGAIN)
      ensures r.Data? ==> 0 < |r.data| <= capacity
      ensures r.Data? ==> received == old(received) + r.data && old(incoming) == r.data + incoming
      ensures !r.Data? ==> received == old(received) && incoming == old(incoming)
    {
      readCalls, offered := readCalls + 1, capacity;
      r := ReadError(EAGAIN);
      if script != [] {
        var decision := script[0];
        script := script[1..];
        match decision
        case Closed => r := EndOfStream;
        case Fails(errno) => r := ReadError(errno);
        case Ready(count) =>
          var n := if count <= capacity then count else capacity;
          n := if n <= |incoming| then n else |incoming|;
          if n > 0 {
            r := Data(incoming[..n]);
            received := received + incoming[..n];
            incoming := incoming[n..];
          }
      }
      lastRead := r;
      ended := ended || r.EndOfStream?;
      failed := failed || (r.ReadError? && r.errno != EAGAIN && r.errno != EINTR);
    }

    /** The peer acknowledges any number of bytes; leaving a full send buffer
        raises an edge if writability is being watched. */
    method Progress()
      modifies this`room, this`edge
      ensures old(room) <= room
      ensures edge == (old(edge) || (old(room) == 0 && 0 < room && interest.write))
    {
      var acknowledged :| 0 <= acknowledged;
      if room == 0 && 0 < acknowledged && interest.write {
        edge := true;
      }
      room := room + acknowledged;
    }

    /** send(2): takes a non-empty prefix if there is room, else fails. */
    method Send(data: bytes) returns (r: SendResult)
      requires data != []
      modifies this`room, this`edge, this`accepted, this`failed
      ensures r.Sent? ==> 0 < r.count <= |data| && accepted == old(accepted) + data[..r.count]
      ensures r.SendError? ==> accepted == old(accepted)
      ensures r == SendError(EAGAIN) ==> room == 0
      ensures failed == (old(failed) || (r.SendError? && r.errno != EAGAIN))
    {
      Progress();
      var broken: bool := *;
      if broken {
        var errno: Errno := *;
        failed := true;
        return SendError(if errno == EAGAIN then EPIPE else errno);
      }
      if room == 0 {
        return SendError(EAGAIN);
      }
      var n :| 0 < n <= room && n <= |data|;
      accepted := accepted + data[..n];
      room := room - n;
      r := Sent(n);
    }

    /** epoll_ctl(2), ADD or MOD: a watched event that is already true is reported. */
    method Ctl(events: Events)
      modifies this`interest, this`edge
      ensures interest == events
      ensures edge == (old(edge) || (events.write && 0 < room))
    {
      interest := events;
      if events.write && 0 < room {
        edge := true;
      }
    }

    /** epoll_wait(2) returning this socket, because of a pending edge or of a
        readability edge; the reported events are polled afresh. */
    method Wait() returns (happened: Events)
      modifies this`edge, this`waits
      ensures !edge && waits == old(waits) + 1
      ensures (happened.read ==> interest.read) && (happened.write ==> interest.write)
      ensures old(edge) && interest.write && 0 < room ==> happened.write
    {
      var readable: bool := *;
      readable := readable && interest.read;
      happened := Events(readable, (edge || readable) && interest.write && 0 < room, false);
      edge, waits := false, waits + 1;
    }
  }
}
