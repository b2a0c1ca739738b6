/** StressTest/test.cpp: the load generator's receive side, a second and independent
    decoder of the same frames, in place in a fixed buffer, and the number of
    requests it keeps in flight. */
module StressClient {
  import opened Sequences
  import opened Bytes
  import opened Framing
  import opened Kernel

  const RECV_SIZE: nat := 4096
  const PIPE_DEPTH: int := 500

  /** Every header the decoder reaches announces a frame below the server's limit. */
  predicate Sane(s: bytes)
    decreases |s|
  {
    |s| < 4 ||
    (Read32(s) < MESSAGE_LIMIT && (|s| >= 4 + Read32(s) ==> Sane(s[4 + Read32(s)..])))
  }

  datatype Decoded = Decoded(bodies: seq<bytes>, rest: bytes)

  function After(body: bytes, d: Decoded): Decoded {
    d.(bodies := [body] + d.bodies)
  }

  /** The client's loop: it looks at four bytes as soon as there are four. */
  function Decode(s: bytes): Decoded
    decreases |s|
  {
    if |s| >= 4 && |s| >= 4 + Read32(s) then
      After(s[4..4 + Read32(s)], Decode(s[4 + Read32(s)..]))
    else Decoded([], s)
  }

  function PrependBodies(bodies: seq<bytes>, d: Decoded): Decoded {
    d.(bodies := bodies + d.bodies)
  }

  lemma PrependAfter(body: bytes, bodies: seq<bytes>, d: Decoded)
    ensures After(body, PrependBodies(bodies, d)) == PrependBodies([body] + bodies, d)
    ensures PrependBodies(bodies, After(body, d)) == PrependBodies(bodies + [body], d)
  {
    assert [body] + (bodies + d.bodies) == [body] + bodies + d.bodies;
    assert bodies + ([body] + d.bodies) == bodies + [body] + d.bodies;
  }

  /** Decoding `a`, then what was left followed by `b`, is decoding `a + b`. */
  lemma {:induction false} DecodeChunks(a: bytes, b: bytes)
    ensures Decode(a + b) == PrependBodies(Decode(a).bodies, Decode(Decode(a).rest + b))
    ensures Sane(a + b) ==> Sane(a) && Sane(Decode(a).rest + b)
    decreases |a|
  {
    hide Read32;
    if |a| >= 4 {
      assert (a + b)[..4] == a[..4];
      Read32Front(a + b, a);
      if |a| >= 4 + Read32(a) {
        var n := 4 + Read32(a);
        assert (a + b)[4..n] == a[4..n] && (a + b)[n..] == a[n..] + b;
        DecodeChunks(a[n..], b);
        PrependAfter(a[4..n], Decode(a[n..]).bodies, Decode(Decode(a).rest + b));
      }
    }
    if Decode(a).bodies == [] {
      assert [] + Decode(a + b).bodies == Decode(a + b).bodies;
    }
  }

  /** One turn of the server's parser on a sane stream. */
  lemma SaneExamine(s: bytes)
    requires Sane(s)
    ensures Examine(s) ==
      if |s| > 4 && |s| >= 4 + Read32(s) then Deliver(s[4..4 + Read32(s)], s[4 + Read32(s)..]) else Wait
    ensures |s| >= 4 ==> StableHeader(Header(s))
  {
  }

  /** The two decoders agree on every sane stream, except that the server holds back
      an empty message that ends it. */
  lemma {:induction false} AgreesWithServer(s: bytes)
    requires Sane(s)
    ensures Stable(s) && !Parse(s).spins
    ensures Decode(s) ==
      if Parse(s).rest == Encode([]) then Decoded(Parse(s).messages + [[]], [])
      else Decoded(Parse(s).messages, Parse(s).rest)
    decreases |s|
  {
    hide Examine;
    hide StableHeader;
    hide Encode;
    SaneExamine(s);
    EmptyFrame(s);
    if Examine(s).Deliver? {
      AgreesWithServer(Examine(s).rest);
      PrependServer(s[4..4 + Read32(s)], Parse(Examine(s).rest).messages);
    } else if s == Encode([]) {
      assert s[4..4] == [] && s[4..] == [];
      assert Decode([]) == Decoded([], []);
    }
  }

  lemma PrependServer(m: bytes, ms: seq<bytes>)
    ensures [m] + (ms + [[]]) == [m] + ms + [[]]
  {
  }

  /** The one frame that is exactly a header. */
  lemma EmptyFrame(s: bytes)
    ensures s == Encode([]) <==> |s| == 4 && Read32(s) == 0
  {
    assert Encode([]) == [0, 0, 0, 0];
  }

  lemma {:induction false} RestIsIncomplete(s: bytes)
    ensures Decode(Decode(s).rest) == Decoded([], Decode(s).rest)
    decreases |s|
  {
    if Decode(s).bodies != [] {
      RestIsIncomplete(s[4 + Read32(s)..]);
    }
  }

  /** After decoding there is room to receive more, unless the frame at the front is
      too long for the buffer: frames of at most 4096 bytes never get stuck. */
  lemma RoomAfterDecoding(s: bytes)
    requires var r := Decode(s).rest; |r| >= 4 ==> 4 + Read32(r) <= 4096
    ensures |Decode(s).rest| < 4096
  {
    RestIsIncomplete(s);
  }

  /** The decoder has stepped over `processed` bytes of `all`, and found `bodies`. */
  ghost predicate Decoding(all: bytes, processed: nat, bodies: seq<bytes>) {
    && processed <= |all| && Sane(all[processed..])
    && Decode(all) == PrependBodies(bodies, Decode(all[processed..]))
  }

  lemma DecodingStarts(all: bytes)
    requires Sane(all)
    ensures Decoding(all, 0, [])
  {
    assert all[0..] == all && [] + Decode(all).bodies == Decode(all).bodies;
  }

  /** One turn: the length in front does not wrap, and either its frame is complete
      or decoding is over. */
  lemma DecodingStep(all: bytes, processed: nat, bodies: seq<bytes>)
    requires Decoding(all, processed, bodies)
    ensures |all| - processed < 4 ==> Decode(all) == Decoded(bodies, all[processed..])
    ensures |all| - processed >= 4 ==>
      var n := 4 + Read32(all[processed..processed + 4]);
      && n % TWO_TO_32 == n
      && if |all| - processed >= n
         then Decoding(all, processed + n, bodies + [all[processed + 4..processed + n]])
         else Decode(all) == Decoded(bodies, all[processed..])
  {
    hide Decode;
    hide Sane;
    hide Read32;
    hide After;
    hide PrependBodies;
    var rest := all[processed..];
    PrependNone(bodies, rest);
    DecodeTurn(rest);
    if |rest| >= 4 {
      assert all[processed..processed + 4] == rest[..4];
      Read32Front(all[processed..processed + 4], rest);
      var n := 4 + Read32(rest);
      if |rest| >= n {
        assert rest[n..] == all[processed + n..] && rest[4..n] == all[processed + 4..processed + n];
        PrependAfter(rest[4..n], bodies, Decode(rest[n..]));
      }
    }
  }

  lemma PrependNone(bodies: seq<bytes>, rest: bytes)
    ensures PrependBodies(bodies, Decoded([], rest)) == Decoded(bodies, rest)
  {
    assert bodies + [] == bodies;
  }

  lemma DecodeTurn(s: bytes)
    requires Sane(s)
    ensures |s| < 4 ==> Decode(s) == Decoded([], s)
    ensures |s| >= 4 ==>
      var n := 4 + Read32(s);
      && n % TWO_TO_32 == n
      && (if |s| >= n then Decode(s) == After(s[4..n], Decode(s[n..])) && Sane(s[n..])
          else Decode(s) == Decoded([], s))
  {
  }

  class Conn {
    const socket: Socket
    const recvBuf: array<byte>
    var recvOff: nat
    var inflight: int
    /** Requests written whole to the socket, and attempts it turned down. */
    ghost var requests: nat
    ghost var refusals: nat

    ghost predicate Valid()
      reads this
    {
      recvBuf.Length == RECV_SIZE && recvOff <= RECV_SIZE
    }

    /** The received bytes not yet decoded. */
    ghost function Undecoded(): bytes
      requires Valid()
      reads this, recvBuf
    {
      recvBuf[..recvOff]
    }

    /** The first recvOff bytes are what decoding everything received leaves over, and
        every request is either answered or in flight. */
    ghost predicate InStep()
      reads this, recvBuf, socket
    {
      && Valid()
      && Undecoded() == Decode(socket.received).rest
      && inflight == requests - |Decode(socket.received).bodies|
    }

    constructor (socket: Socket)
      requires socket.received == []
      ensures InStep() && fresh(recvBuf) && this.socket == socket && inflight == 0 && recvOff == 0
      ensures recvBuf.Length == 4096
    {
      this.socket := socket;
      recvBuf := new byte[RECV_SIZE](_ => 0);
      recvOff, inflight, requests, refusals := 0, 0, 0, 0;
    }

    /** The inner loop: steps over every complete frame, then moves the rest down. */
    method DecodeBuffered() returns (ghost bodies: seq<bytes>)
      requires Valid() && Sane(Undecoded())
      modifies this`recvOff, this`inflight, recvBuf
      ensures Valid() && Decoded(bodies, Undecoded()) == Decode(old(Undecoded()))
      ensures inflight == old(inflight) - |bodies|
    {
      hide Decode;
      hide Sane;
      hide Read32;
      ghost var all := Undecoded();
      var processed := 0;
      bodies := [];
      DecodingStarts(all);
      while recvOff >= 4
        invariant processed + recvOff == |all| == old(recvOff) && recvBuf[..|all|] == all
        invariant Decoding(all, processed, bodies)
        invariant inflight == old(inflight) - |bodies|
        decreases recvOff
      {
        var bodyLen := Read32(recvBuf[processed..processed + 4]);
        assert recvBuf[processed..processed + 4] == recvBuf[..|all|][processed..processed + 4];
        DecodingStep(all, processed, bodies);
        if recvOff >= (4 + bodyLen) % TWO_TO_32 {
          bodies := bodies + [all[processed + 4..processed + 4 + bodyLen]];
          recvOff := recvOff - (4 + bodyLen) % TWO_TO_32;
          processed := processed + (4 + bodyLen) % TWO_TO_32;
          inflight := inflight - 1;
        } else {
          break;
        }
      }
      if recvOff < 4 {
        DecodingStep(all, processed, bodies);
      }
      assert recvBuf[processed..processed + recvOff] == recvBuf[..|all|][processed..];
      MoveDown(processed);
    }

    /** memmove of the last recvOff bytes in use to the front of the buffer. */
    method MoveDown(processed: nat)
      requires Valid() && processed + recvOff <= RECV_SIZE
      modifies recvBuf
      ensures recvBuf[..recvOff] == old(recvBuf[processed..processed + recvOff])
    {
      ghost var before := recvBuf[..];
      var i := 0;
      while i < recvOff
        invariant 0 <= i <= recvOff
        invariant recvBuf[..i] == before[processed..processed + i]
        invariant recvBuf[processed + i..] == before[processed + i..]
      {
        recvBuf[i] := recvBuf[processed + i];
        i := i + 1;
      }
    }

    /** handle_recv: reads and decodes until the socket has no more, then refills. */
    method HandleRecv()
      requires InStep() && Sane(socket.received + socket.incoming)
      modifies this, recvBuf, socket
      ensures InStep() && Sane(socket.received + socket.incoming)
      ensures recvOff < RECV_SIZE ==> !socket.lastRead.Data? && socket.readCalls > old(socket.readCalls)
      ensures inflight >= 500 || refusals > old(refusals)
      ensures inflight <= Max(old(inflight), 500)
    {
      var more := true;
      while more && recvOff < RECV_SIZE // a receive into no room reports the end of the stream
        invariant InStep() && Sane(socket.received + socket.incoming)
        invariant inflight <= old(inflight) && refusals == old(refusals)
        invariant socket.readCalls >= old(socket.readCalls)
        invariant !more ==> !socket.lastRead.Data? && socket.readCalls > old(socket.readCalls)
        decreases more, |socket.script|
      {
        var n := Receive();
        more := n > 0;
      }
      TryFillPipe();
    }

    /** One recv, and the decoding of what it brought. */
    method Receive() returns (n: nat)
      requires InStep() && Sane(socket.received + socket.incoming) && recvOff < RECV_SIZE
      modifies this`recvOff, this`inflight, recvBuf
      modifies socket`incoming, socket`script, socket`received, socket`readCalls, socket`lastRead
      modifies socket`offered, socket`ended, socket`failed
      ensures socket.readCalls == old(socket.readCalls) + 1 && (n > 0 <==> socket.lastRead.Data?)
      ensures InStep() && Sane(socket.received + socket.incoming)
      ensures |socket.received| == |old(socket.received)| + n && old(socket.received) <= socket.received
      ensures inflight <= old(inflight)
      ensures n > 0 ==> |socket.script| < |old(socket.script)|
    {
      var r := socket.Readv(RECV_SIZE - recvOff);
      if !r.Data? {
        return 0;
      }
      n := |r.data|;
      assert socket.received + socket.incoming == old(socket.received) + old(socket.incoming);
      DecodeChunks(old(socket.received), r.data);
      DecodeChunks(socket.received, socket.incoming);
      Fill(r.data);
      ghost var bodies := DecodeBuffered();
    }

    method Fill(data: bytes)
      requires Valid() && recvOff + |data| <= RECV_SIZE
      modifies this`recvOff, recvBuf
      ensures Valid() && Undecoded() == old(Undecoded()) + data
    {
      forall i | 0 <= i < |data| {
        recvBuf[recvOff + i] := data[i];
      }
      recvOff := recvOff + |data|;
    }

    /** try_fill_pipe: whole requests are written until 500 are in flight or the
        socket takes no more. */
    method TryFillPipe()
      modifies this`inflight, this`requests, this`refusals
      ensures inflight - requests == old(inflight - requests)
      ensures old(inflight) <= inflight <= Max(old(inflight), 500)
      ensures inflight >= 500 || refusals > old(refusals)
    {
      while inflight < PIPE_DEPTH
        invariant inflight - requests == old(inflight - requests)
        invariant old(inflight) <= inflight <= Max(old(inflight), PIPE_DEPTH)
        invariant refusals == old(refusals)
        decreases PIPE_DEPTH - inflight
      {
        var written := WriteAll();
        if !written {
          break;
        }
        inflight := inflight + 1;
      }
    }

    /** write_all of one request: the socket takes the whole of it, or nothing. */
    method WriteAll() returns (written: bool)
      modifies this`requests, this`refusals
      ensures written ==> requests == old(requests) + 1 && refusals == old(refusals)
      ensures !written ==> requests == old(requests) && refusals == old(refusals) + 1
    {
      written := *;
      if written {
        requests := requests + 1;
      } else {
        refusals := refusals + 1;
      }
    }
  }
}
