/** src/Connection.cpp, src/Channel.cpp, src/Epoll.cpp (the interest set) and the
    message handler of example/EchoServer.cpp, for a connection served by its
    own I/O thread.

    Two invariants run through every method:
      Echo()   the bytes accepted by the kernel, then the output buffer, are the
               replies to the messages parsed from all bytes handed to the parser;
      Alert(d) an open connection with unsent bytes is watched for writability,
               and an edge is pending, being dispatched (d), or still to come. */
module Connections {
  import opened Sequences
  import opened Bytes
  import opened Framing
  import opened Kernel
  import opened Buffers

  class Channel {
    const socket: Socket
    var events: Events
    var isInEpoll: bool

    constructor (socket: Socket)
      ensures this.socket == socket && events == Events(false, false, false) && !isInEpoll
    {
      this.socket := socket;
      events, isInEpoll := Events(false, false, false), false;
    }

    /** The kernel watches what the channel's mask says. */
    ghost predicate Registered()
      reads this, socket
    {
      isInEpoll && socket.interest == events
    }

    /** Epoll::updatechannel: the first call is EPOLL_CTL_ADD, later ones EPOLL_CTL_MOD. */
    method Update()
      modifies this`isInEpoll, socket`interest, socket`edge
      ensures Registered()
      ensures socket.edge == (old(socket.edge) || (events.write && 0 < socket.room))
    {
      isInEpoll := true;
      socket.Ctl(events);
    }

    method SetEpollET()
      modifies this`events
      ensures events == old(events).(edgeTriggered := true)
    {
      events := events.(edgeTriggered := true);
    }

    method EnableReading()
      modifies this, socket`interest, socket`edge
      ensures events == old(events).(read := true) && Registered()
      ensures socket.edge == (old(socket.edge) || (events.write && 0 < socket.room))
    {
      events := events.(read := true);
      Update();
    }

    method EnableWriting()
      modifies this, socket`interest, socket`edge
      ensures events == old(events).(write := true) && Registered()
      ensures socket.edge == (old(socket.edge) || 0 < socket.room)
    {
      events := events.(write := true);
      Update();
    }

    method DisableWriting()
      modifies this, socket`interest, socket`edge
      ensures events == old(events).(write := false) && Registered()
      ensures socket.edge == old(socket.edge)
    {
      events := events.(write := false);
      Update();
    }
  }

  class Connection {
    const fd: nat
    const socket: Socket
    const channel: Channel
    const input: Buffer
    const output: Buffer
    var disconnect: bool
    var lastTime: int
    var isTimedOut: bool
    /** The received bytes that the message handler has been given. */
    ghost var handled: bytes

    ghost function Repr(): set<object>
      reads this, input, output
    {
      {this, socket, channel, input, output, input.buffer, output.buffer}
    }

    ghost predicate Valid()
      reads this, Repr(), input, output
    {
      && input != output && input.buffer != output.buffer
      && input.Valid() && output.Valid()
      && channel.socket == socket
    }

    ghost predicate Echo()
      requires Valid()
      reads this, Repr()
    {
      && (!disconnect ==> handled == socket.received)
      && Echoed(handled, socket.received, socket.accepted + output.Contents(), input.Contents())
    }

    ghost predicate Alert(dispatching: bool)
      requires Valid()
      reads this, Repr()
    {
      !disconnect ==>
        && channel.Registered() && channel.events.read && channel.events.edgeTriggered
        && (output.Contents() != [] ==>
              channel.events.write && (dispatching || socket.edge || socket.room == 0))
    }

    /** It is closed only if the peer has closed, a read or a send has failed, or the parser
        has met an oversized frame; and a failure does close it. */
    ghost predicate Reason()
      requires Valid()
      reads this, Repr()
    {
      && (disconnect ==> socket.ended || socket.failed || Jams(input.Contents()))
      && (socket.failed ==> disconnect)
    }

    /** A connection for a freshly accepted socket; it is not watched yet. */
    constructor (fd: nat, socket: Socket, now: int)
      requires socket.received == [] && socket.accepted == [] && !socket.failed
      ensures Valid() && Echo() && Reason() && fresh(Repr() - {socket})
      ensures channel.events == Events(false, false, true)
      ensures this.fd == fd && this.socket == socket && lastTime == now && !disconnect
      ensures output.Contents() == []
    {
      this.fd, this.socket, lastTime := fd, socket, now;
      input := new Buffer(INITIAL_SIZE);
      output := new Buffer(INITIAL_SIZE);
      channel := new Channel(socket);
      disconnect, isTimedOut, handled := false, false, [];
      new;
      channel.SetEpollET();
    }

    method AddToEpoll()
      requires Valid() && output.Contents() == [] && channel.events.edgeTriggered
      modifies channel, socket`interest, socket`edge
      ensures Valid() && (old(Echo()) ==> Echo()) && (old(Reason()) ==> Reason()) && Alert(false)
      ensures channel.events == old(channel.events).(read := true) == socket.interest
    {
      channel.EnableReading();
    }

    method CloseConnection()
      modifies this`disconnect
      ensures disconnect
    {
      disconnect := true;
    }

    /** The time-out test of the sweep. */
    method IsTimeOut(now: int, interval: int) returns (late: bool)
      modifies this`isTimedOut
      ensures late <==> now - lastTime >= interval
      ensures isTimedOut == late
    {
      isTimedOut := now - lastTime >= interval;
      late := isTimedOut;
    }

    /** Writability is watched, and an edge is pending or the send buffer is full. */
    ghost predicate Armed()
      reads this, channel, channel.socket, socket
    {
      channel.Registered() && channel.events.write && (socket.edge || socket.room == 0)
    }

    /** Queues `msg` for sending and asks for writability. */
    method WriteTo(msg: bytes)
      requires Valid()
      modifies output, output.buffer, channel, socket`interest, socket`edge
      ensures Valid() && fresh(Repr() - old(Repr()))
      ensures output.Contents() == old(output.Contents()) + msg
      ensures Armed() && channel.events == old(channel.events).(write := true)
    {
      output.Append(msg);
      channel.EnableWriting();
    }

    /** EchoServer::OnMessage; on its own thread, an open connection sends by writing. */
    method OnMessage(msg: bytes)
      requires Valid() && !disconnect
      modifies output, output.buffer, channel, socket`interest, socket`edge
      ensures Valid() && fresh(Repr() - old(Repr()))
      ensures output.Contents() == old(output.Contents()) + ReplyStream([msg])
      ensures |output.Contents()| == |old(output.Contents())| + 11 + |msg|
      ensures var frame := output.Contents()[|old(output.Contents())|..];
        && Read32(frame) == (7 + |msg|) % TWO_TO_32
        && IsText(frame[4..11], "reply: ") && frame[11..] == msg
      ensures Armed() && channel.events == old(channel.events).(write := true)
    {
      FrameReads(msg);
      var reply := REPLY_PREFIX + msg;
      var prefix := Big32(|reply| % TWO_TO_32);
      WriteTo(prefix + reply);
      assert ReplyStream([msg]) == Encode(Reply(msg)) + ReplyStream([]);
    }

    /** Takes the message whose length prefix is `msgLen` off the input buffer. */
    method TakeMessage(msgLen: int) returns (msg: bytes)
      requires Valid() && input.ReadableBytes() > 4
      requires msgLen == Header(input.Contents()) && Complete(msgLen, input.ReadableBytes())
      modifies input`readerIndex, input`writerIndex
      ensures Valid() && Examine(old(input.Contents())) == Deliver(msg, input.Contents())
    {
      input.Retrieve(4);
      // a negative length converts to a huge size_t, which asks for everything
      msg := input.RetrieveAsString(if 0 <= msgLen then msgLen else input.ReadableBytes());
      ExamineComplete(old(input.Contents()), msg, input.Contents());
    }

    /** One message: off the input buffer, and its reply onto the output buffer. */
    method EchoOne(msgLen: int) returns (msg: bytes)
      requires Valid() && !disconnect && input.ReadableBytes() > 4
      requires msgLen == Header(input.Contents()) && Complete(msgLen, input.ReadableBytes())
      modifies input`readerIndex, input`writerIndex
      modifies output, output.buffer, channel, socket`interest, socket`edge
      ensures Valid() && fresh(Repr() - old(Repr()))
      ensures Examine(old(input.Contents())) == Deliver(msg, input.Contents())
      ensures output.Contents() == old(output.Contents()) + ReplyStream([msg])
      ensures Armed() && channel.events == old(channel.events).(write := true)
    {
      msg := TakeMessage(msgLen);
      OnMessage(msg);
    }

    /** EchoServer::HandleOnMessage without worker threads. The source repeats the
        oversized branch for ever; `spins` reports that it was entered. */
    method HandleOnMessage() returns (spins: bool)
      requires Valid() && !disconnect
      modifies this`disconnect, input`readerIndex, input`writerIndex
      modifies output, output.buffer, channel, socket`interest, socket`edge
      ensures Valid() && fresh(Repr() - old(Repr()))
      ensures spins == disconnect == Parse(old(input.Contents())).spins
      ensures spins ==> Jams(input.Contents())
      ensures input.Contents() == Parse(old(input.Contents())).rest
      ensures output.Contents()
        == old(output.Contents()) + ReplyStream(Parse(old(input.Contents())).messages)
      ensures if Parse(old(input.Contents())).messages == []
        then unchanged(channel, socket) && output.Contents() == old(output.Contents())
        else Armed() && channel.events == old(channel.events).(write := true)
    {
      hide Buffer.Valid;
      hide Buffer.Contents;
      hide ReplyStream;
      hide Parse;
      ghost var in0, out0, messages := input.Contents(), output.Contents(), [];
      UnderwayStarts(in0, out0);
      while input.ReadableBytes() > 4
        invariant Valid() && fresh(Repr() - old(Repr())) && !disconnect
        invariant Underway(in0, out0, messages, input.Contents(), output.Contents())
        invariant if messages == [] then unchanged(channel, socket)
          else Armed() && channel.events == old(channel.events).(write := true)
        decreases input.ReadableBytes()
      {
        ghost var in1, out1 := input.Contents(), output.Contents();
        var msgLen := input.PeekInt32();
        if Complete(msgLen, input.ReadableBytes()) {
          var msg := EchoOne(msgLen);
          UnderwayStep(in0, out0, messages, in1, out1, msg, input.Contents());
          messages := messages + [msg];
        } else if msgLen >= MESSAGE_LIMIT {
          UnderwayEnds(in0, out0, messages, in1, out1);
          assert Jams(in1);
          CloseConnection();
          return true;
        } else {
          break;
        }
      }
      UnderwayEnds(in0, out0, messages, input.Contents(), output.Contents());
      spins := false;
    }

    /** The read loop of Connection::onmessage: it goes on until a read returns
        neither bytes nor an interruption. A peer that closes after leaving
        unparsed bytes in the input buffer does not close the connection. */
    method ReadAll() returns (ghost news: bytes)
      requires Valid() && !disconnect
      modifies this`disconnect, input, input.buffer
      modifies socket`incoming, socket`script, socket`received, socket`readCalls, socket`lastRead
      modifies socket`offered, socket`ended, socket`failed
      ensures Valid() && fresh(Repr() - old(Repr()))
      ensures input.Contents() == old(input.Contents()) + news
      ensures socket.received == old(socket.received) + news
      ensures socket.readCalls > old(socket.readCalls)
      ensures !socket.lastRead.Data? && socket.lastRead != ReadError(EINTR)
      ensures socket.ended == (old(socket.ended) || socket.lastRead.EndOfStream?)
      ensures socket.failed ==
        (old(socket.failed) || (socket.lastRead.ReadError? && socket.lastRead.errno != EAGAIN))
      ensures disconnect <==>
        || (socket.lastRead == EndOfStream && input.Contents() == [])
        || (socket.lastRead.ReadError? && socket.lastRead.errno != EAGAIN)
    {
      hide Buffer.Valid;
      hide Buffer.Contents;
      news := [];
      while true
        invariant Valid() && fresh(Repr() - old(Repr())) && !disconnect
        invariant input.Contents() == old(input.Contents()) + news
        invariant socket.received == old(socket.received) + news
        invariant socket.readCalls >= old(socket.readCalls)
        invariant socket.ended == old(socket.ended) && socket.failed == old(socket.failed)
        decreases |socket.script|
      {
        var r := ReadOnce();
        match r
        case Data(data) =>
          news := news + data;
        case EndOfStream =>
          if input.ReadableBytes() == 0 {
            CloseConnection();
          }
          return;
        case ReadError(errno) =>
          if errno == EAGAIN {
            return;
          } else if errno != EINTR {
            CloseConnection();
            return;
          }
      }
    }

    /** One read of whatever has come. */
    method ReadOnce() returns (r: ReadResult)
      requires Valid()
      modifies input, input.buffer
      modifies socket`incoming, socket`script, socket`received, socket`readCalls, socket`lastRead
      modifies socket`offered, socket`ended, socket`failed
      ensures Valid() && fresh(Repr() - old(Repr()))
      ensures input.Contents() == old(input.Contents()) + if r.Data? then r.data else []
      ensures socket.received == old(socket.received) + if r.Data? then r.data else []
      ensures socket.readCalls > old(socket.readCalls) && socket.lastRead == r
      ensures socket.ended == (old(socket.ended) || r.EndOfStream?)
      ensures socket.failed == (old(socket.failed) || (r.ReadError? && r.errno != EAGAIN && r.errno != EINTR))
      ensures |socket.script| <= |old(socket.script)|
      ensures !r.ReadError? || r.errno != EAGAIN ==> |socket.script| < |old(socket.script)|
    {
      hide MemoryBound;
      r := input.ReadFd(socket);
    }

    /** Connection::onmessage. */
    method OnReadable(now: int, ghost dispatching: bool) returns (spins: bool)
      requires Valid() && Echo() && Reason() && Alert(dispatching) && !disconnect
      modifies Repr()
      ensures Valid() && fresh(Repr() - old(Repr()))
      ensures Echo() && Reason() && Alert(dispatching)
      ensures lastTime == now && (spins ==> disconnect)
      ensures socket.waits == old(socket.waits)
      ensures socket.readCalls > old(socket.readCalls)
      ensures !socket.lastRead.Data? && socket.lastRead != ReadError(EINTR)
    {
      hide Buffer.Valid;
      hide Buffer.Contents;
      hide Echoed;
      lastTime := now;
      ghost var news := ReadAll();
      EchoedReads(handled, old(socket.received), news, socket.accepted + output.Contents(), old(input.Contents()));
      if disconnect {
        return false;
      }
      spins := Answer(dispatching);
    }

    /** Handles the messages in the input buffer, after reading. */
    method Answer(ghost dispatching: bool) returns (spins: bool)
      requires Valid() && Alert(dispatching) && !disconnect
      requires Echoed(handled, socket.received, socket.accepted + output.Contents(), input.Contents())
      modifies this`disconnect, this`handled, input`readerIndex, input`writerIndex
      modifies output, output.buffer, channel, socket`interest, socket`edge
      ensures Valid() && fresh(Repr() - old(Repr()))
      ensures Echo() && Alert(dispatching)
      ensures spins == disconnect && (spins ==> Jams(input.Contents()))
    {
      hide Parse;
      hide ReplyStream;
      hide Echoed;
      ghost var replies := ReplyStream(Parse(input.Contents()).messages);
      EchoedHandles(handled, socket.received, socket.accepted + output.Contents(), input.Contents());
      assert socket.accepted + (output.Contents() + replies) == socket.accepted + output.Contents() + replies;
      spins := HandleOnMessage();
      handled := socket.received;
    }

    /** Connection::sendto. */
    method SendTo()
      requires Valid() && Alert(true)
      modifies this`disconnect, output`readerIndex, output`writerIndex
      modifies channel, socket`room, socket`edge, socket`accepted, socket`interest, socket`failed
      ensures Valid() && (old(Echo()) ==> Echo()) && (old(Reason()) ==> Reason()) && Alert(false)
      ensures disconnect && !old(disconnect) ==> socket.failed
      ensures !disconnect ==> socket.failed == old(socket.failed)
      ensures old(disconnect) ==> disconnect && unchanged(output, channel, socket)
      ensures socket.accepted + output.Contents() == old(socket.accepted + output.Contents())
      ensures !disconnect ==> output.Contents() == [] || socket.room == 0
      ensures !disconnect ==> channel.events == old(channel.events).(write :=
        old(channel.events.write) && output.Contents() != [])
    {
      hide Echoed;
      if !disconnect {
        SendAll();
        if output.ReadableBytes() == 0 {
          channel.DisableWriting();
        }
      }
    }

    /** The loop of Connection::sendto: until everything is sent, the send buffer is
        full, or the connection fails and is closed. */
    method SendAll()
      requires Valid() && !disconnect
      modifies this`disconnect, output`readerIndex, output`writerIndex
      modifies socket`room, socket`edge, socket`accepted, socket`failed
      ensures Valid()
      ensures socket.accepted + output.Contents() == old(socket.accepted + output.Contents())
      ensures disconnect ==> output.Contents() != [] && socket.failed
      ensures !disconnect ==> socket.failed == old(socket.failed)
      ensures old(output.Contents()) == [] ==> output.Contents() == []
      ensures !disconnect ==> output.Contents() == [] || socket.room == 0
    {
      while output.ReadableBytes() > 0
        invariant Valid() && !disconnect && socket.failed == old(socket.failed)
        invariant old(output.Contents()) == [] ==> output.Contents() == []
        invariant socket.accepted + output.Contents() == old(socket.accepted + output.Contents())
        decreases output.ReadableBytes()
      {
        var r := SendOnce();
        if r.SendError? {
          if r.errno != EAGAIN {
            CloseConnection();
          }
          break;
        }
      }
    }

    /** One send(2) of all that is readable; what was taken is retrieved. */
    method SendOnce() returns (r: SendResult)
      requires Valid() && output.Contents() != []
      modifies output`readerIndex, output`writerIndex
      modifies socket`room, socket`edge, socket`accepted, socket`failed
      ensures Valid()
      ensures socket.accepted + output.Contents() == old(socket.accepted + output.Contents())
      ensures r.Sent? ==> |output.Contents()| < |old(output.Contents())|
      ensures r.SendError? ==> output.Contents() == old(output.Contents())
      ensures r == SendError(EAGAIN) ==> socket.room == 0
      ensures socket.failed == (old(socket.failed) || (r.SendError? && r.errno != EAGAIN))
    {
      hide Buffer.Valid;
      hide Buffer.Contents;
      var unsent := output.Peek();
      r := socket.Send(unsent);
      if r.Sent? {
        output.Retrieve(r.count);
        SentThenRest(old(socket.accepted), unsent, r.count);
      }
    }

    /** Channel::handleevents, on the events epoll_wait reported: reading comes first. */
    method HandleEvents(happened: Events, now: int)
      requires Valid() && Echo() && Reason() && Alert(happened.write) && !disconnect
      modifies Repr()
      ensures Valid() && fresh(Repr() - old(Repr()))
      ensures Echo() && Reason() && Alert(false)
      ensures happened.read ==> lastTime == now && socket.readCalls > old(socket.readCalls)
      ensures happened.write && !disconnect ==> output.Contents() == [] || socket.room == 0
      ensures socket.waits == old(socket.waits)
    {
      if happened.read {
        var spins := OnReadable(now, happened.write);
        if spins {
          return;
        }
      }
      if happened.write {
        SendTo();
      }
    }

    /** One round of the event loop: the peer acknowledges and sends, epoll reports, the
        channel dispatches. */
    method Round(now: int)
      requires Valid() && Echo() && Reason() && Alert(false) && !disconnect
      modifies Repr()
      ensures Valid() && fresh(Repr() - old(Repr()))
      ensures Echo() && Reason() && Alert(false) && socket.waits == old(socket.waits) + 1
    {
      hide Buffer.Valid;
      hide Buffer.Contents;
      hide Echoed;
      socket.Progress();
      var happened := socket.Wait();
      HandleEvents(happened, now);
    }

    /** Any number of rounds, until the connection is closed. Every byte ever received
        is answered exactly once and in order, no unsent byte is stranded, the connection
        stays watched, and it is not closed without a reason. */
    method Serve(clock: seq<int>)
      requires Valid() && Echo() && Reason() && Alert(false)
      modifies Repr()
      ensures Valid() && fresh(Repr() - old(Repr()))
      ensures Echo() && Reason() && Alert(false)
      ensures disconnect || socket.waits == old(socket.waits) + |clock|
    {
      hide Valid;
      hide Echo;
      hide Alert;
      hide Reason;
      var round := 0;
      while round < |clock| && !disconnect
        invariant 0 <= round <= |clock|
        invariant Valid() && fresh(Repr() - old(Repr()))
        invariant Echo() && Reason() && Alert(false) && socket.waits == old(socket.waits) + round
      {
        Round(clock[round]);
        round := round + 1;
      }
    }
  }

  lemma SentThenRest(accepted: bytes, unsent: bytes, count: nat)
    requires count <= |unsent|
    ensures accepted + unsent[..count] + unsent[count..] == accepted + unsent
  {
  }

  /** The handler has echoed `messages`, the first ones in `in0`, and has `in1` to go. */
  ghost predicate Underway(in0: bytes, out0: bytes, messages: seq<bytes>, in1: bytes, out1: bytes) {
    Parse(in0) == Prepend(messages, Parse(in1)) && out1 == out0 + ReplyStream(messages)
  }

  /** The echo refinement: of `received`, the prefix `handled` has been parsed and
      answered by `sent`; the input buffer holds the rest. It is claimed for
      streams whose headers are stable, since only those have a meaning that
      does not depend on how the stream was cut into reads. */
  ghost predicate Echoed(handled: bytes, received: bytes, sent: bytes, unparsed: bytes) {
    && handled <= received
    && (Stable(handled) ==>
          && sent == ReplyStream(Parse(handled).messages)
          && unparsed == Parse(handled).rest + received[|handled|..])
  }

  lemma EchoedReads(handled: bytes, received: bytes, news: bytes, sent: bytes, unparsed: bytes)
    requires Echoed(handled, received, sent, unparsed)
    ensures Echoed(handled, received + news, sent, unparsed + news)
  {
    assert (received + news)[|handled|..] == received[|handled|..] + news;
  }

  lemma EchoedHandles(handled: bytes, received: bytes, sent: bytes, unparsed: bytes)
    requires Echoed(handled, received, sent, unparsed)
    ensures var p := Parse(unparsed);
      Echoed(received, received, sent + ReplyStream(p.messages), p.rest)
  {
    hide Examine;
    hide Encode;
    assert received[|received|..] == [];
    if Stable(received) {
      var news := received[|handled|..];
      assert received == handled + news;
      Chunking(handled, news);
      ReplyStreamConcat(Parse(handled).messages, Parse(unparsed).messages);
    }
  }

  /** A whole session: a client sends the encodings of `ms`, in pieces of any size,
      and by the same framing rules finds in what it gets back one reply to each. */
  lemma EchoRoundTrip(ms: seq<bytes>, sent: bytes, unparsed: bytes)
    requires forall m | m in ms :: |m| < MESSAGE_LIMIT - 7
    requires Echoed(EncodeAll(ms), EncodeAll(ms), sent, unparsed)
    ensures var answered := if EndsEmpty(ms) then ms[..|ms| - 1] else ms;
      && Parse(sent) == Parsed(Replies(answered), [], false)
      && |Parse(sent).messages| == |answered|
      && forall i | 0 <= i < |answered| :: var r := Parse(sent).messages[i];
           |r| == 7 + |answered[i]| && IsText(r[..7], "reply: ") && r[7..] == answered[i]
    ensures unparsed == if EndsEmpty(ms) then Encode([]) else []
  {
    hide Parse;
    hide Stable;
    hide Encode;
    hide IsText;
    RoundTrip(ms);
    var answered := if EndsEmpty(ms) then ms[..|ms| - 1] else ms;
    assert forall m | m in answered :: m in ms;
    RepliesDecode(answered);
    assert EncodeAll(ms)[|EncodeAll(ms)|..] == [];
  }

  /** The frame that one reply makes: its length, the text "reply: ", the message. */
  lemma FrameReads(msg: bytes)
    ensures ReplyStream([msg]) == Big32((7 + |msg|) % TWO_TO_32) + Reply(msg)
    ensures var frame := ReplyStream([msg]);
      && |frame| == 11 + |msg| && Read32(frame) == (7 + |msg|) % TWO_TO_32
      && IsText(frame[4..11], "reply: ") && frame[11..] == msg
  {
    ReplyReads(msg);
    hide Read32;
    hide IsText;
    var frame := ReplyStream([msg]);
    assert [msg][1..] == [] && ReplyStream([]) == [];
    assert frame == Big32((7 + |msg|) % TWO_TO_32) + Reply(msg);
    Read32Big32((7 + |msg|) % TWO_TO_32, Reply(msg));
    assert frame[4..11] == Reply(msg)[..7] && frame[11..] == Reply(msg)[7..];
  }

  lemma UnderwayStarts(in0: bytes, out0: bytes)
    ensures Underway(in0, out0, [], in0, out0)
  {
    assert [] + Parse(in0).messages == Parse(in0).messages;
  }

  lemma UnderwayStep(in0: bytes, out0: bytes, messages: seq<bytes>, in1: bytes, out1: bytes, m: bytes, rest: bytes)
    requires Underway(in0, out0, messages, in1, out1) && Examine(in1) == Deliver(m, rest)
    ensures Underway(in0, out0, messages + [m], rest, out1 + ReplyStream([m]))
  {
    hide Examine;
    hide Encode;
    ReplyStreamConcat(messages, [m]);
    PrependTwice(messages, [m], Parse(rest));
  }

  lemma UnderwayEnds(in0: bytes, out0: bytes, messages: seq<bytes>, in1: bytes, out1: bytes)
    requires Underway(in0, out0, messages, in1, out1) && !Examine(in1).Deliver?
    ensures Parse(in0) == Parsed(messages, in1, Examine(in1).Spin?)
  {
    assert messages + [] == messages;
  }
}
