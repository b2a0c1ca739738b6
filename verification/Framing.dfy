/** The length-prefixed message format of the echo server, as the parser of
    example/EchoServer.cpp really decides it, on byte sequences.

    `Examine` is one turn of the parser's while loop; `Parse` is the whole
    loop.  Headers are signed, so negative and oversized headers have
    verdicts too, and `Stable` names the headers on which a verdict cannot
    depend on how the stream was cut into reads. */
module Framing {
  import opened Sequences
  import opened Bytes

  /** The limit of the oversized-frame guard. */
  const MESSAGE_LIMIT: int := 64 * 1024 * 1024

  /** What one turn of the loop does with the readable bytes. `Spin` is the
      oversized branch: it closes the connection and changes nothing the loop
      condition looks at, so the loop repeats it for ever. */
  datatype Verdict =
    | Deliver(message: bytes, rest: bytes)
    | Wait
    | Spin

  function Header(s: bytes): int
    requires |s| >= 4
  {
    Signed32(Read32(s))
  }

  /** `readableBytes() >= 4 + msgLen`. The sum is an int that wraps; a negative
      sum becomes a size_t above 2^63, which no vector reaches. */
  predicate Complete(h: int, available: nat) {
    0 <= WrapUp32(4 + h) <= available
  }

  function Examine(s: bytes): Verdict {
    if |s| <= 4 then Wait
    else if Complete(Header(s), |s|) then
      // a negative length is a huge size_t, and retrieveAsString clips it
      var n := if 0 <= Header(s) <= |s| - 4 then Header(s) else |s| - 4;
      Deliver(s[4..4 + n], s[4 + n..])
    else if Header(s) >= MESSAGE_LIMIT then Spin
    else Wait
  }

  /** Examine in terms of the two retrievals the source performs. */
  lemma ExamineComplete(s: bytes, m: bytes, rest: bytes)
    requires |s| > 4 && Complete(Header(s), |s|)
    requires m + rest == s[4..]
    requires |m| == if 0 <= Header(s) then Min(Header(s), |s| - 4) else |s| - 4
    ensures Examine(s) == Deliver(m, rest)
  {
    assert m == (m + rest)[..|m|] && rest == (m + rest)[|m|..];
    assert s[4..4 + |m|] == s[4..][..|m|] && s[4 + |m|..] == s[4..][|m|..];
  }

  datatype Parsed = Parsed(messages: seq<bytes>, rest: bytes, spins: bool)

  function Parse(s: bytes): (p: Parsed)
    decreases |s|
  {
    match Examine(s)
    case Wait => Parsed([], s, false)
    case Spin => Parsed([], s, true)
    case Deliver(m, rest) =>
      Prepend([m], Parse(rest))
  }

  function Prepend(messages: seq<bytes>, p: Parsed): Parsed {
    p.(messages := messages + p.messages)
  }

  // ---- Chunking -------------------------------------------------------

  /** The headers from 2^31 - 4 on are oversized, and stay so: their sum wraps. */
  predicate StableHeader(h: int) {
    h < -4 || 0 <= h < MESSAGE_LIMIT || TWO_TO_31 - 4 <= h
  }

  /** Every header the parser reaches in `s` is stable. */
  predicate Stable(s: bytes)
    decreases |s|
  {
    |s| <= 4 ||
    (StableHeader(Header(s)) && (Examine(s).Deliver? ==> Stable(Examine(s).rest)))
  }

  /** The verdict on `a`, unless it is to wait, is the verdict on `a` and later bytes `b`. */
  predicate Lasting(a: bytes, b: bytes) {
    match Examine(a)
    case Wait => true
    case Spin => Examine(a + b).Spin?
    case Deliver(m, rest) => Examine(a + b) == Deliver(m, rest + b)
  }

  lemma StableLasts(a: bytes, b: bytes)
    requires |a| > 4 ==> StableHeader(Header(a))
    ensures Lasting(a, b)
  {
    if |a| > 4 {
      var n := Header(a);
      assert Header(a + b) == n;
      if Complete(n, |a|) {
        assert (a + b)[4..4 + n] == a[4..4 + n];
        assert (a + b)[4 + n..] == a[4 + n..] + b;
      }
    }
  }

  /** The stable headers are exactly those on which no verdict depends on the cut. */
  lemma StableHeadersExactly(h: int)
    requires -TWO_TO_31 <= h < TWO_TO_31
    ensures StableHeader(h) <==> forall a, b | |a| > 4 && Header(a) == h :: Lasting(a, b)
  {
    if StableHeader(h) {
      forall a, b | |a| > 4 && Header(a) == h ensures Lasting(a, b) {
        StableLasts(a, b);
      }
    } else {
      var prefix := Big32(if h < 0 then h + TWO_TO_32 else h);
      var a, b := prefix + [0], if h < 0 then [0] else seq(h, _ => 0);
      Read32Big32(if h < 0 then h + TWO_TO_32 else h, [0]);
      assert Header(a) == h && Header(a + b) == h;
      if h < 0 {
        assert Examine(a).message == a[4..] && Examine(a + b).message == (a + b)[4..];
        assert |Examine(a).message| == 1 && |Examine(a + b).message| == 2;
      } else {
        assert Examine(a).Spin? && Examine(a + b).Deliver?;
      }
      assert !Lasting(a, b);
    }
  }

  lemma StableStep(a: bytes, b: bytes)
    requires Stable(a + b)
    ensures |a| > 4 ==> StableHeader(Header(a))
    ensures Lasting(a, b) && (Examine(a).Deliver? ==> Stable(Examine(a).rest + b))
  {
    if |a| > 4 {
      assert Header(a + b) == Header(a);
      StableLasts(a, b);
    }
  }

  /** Parsing `a`, then what it left over followed by `b`, is parsing `a + b`. */
  lemma {:induction false} Chunking(a: bytes, b: bytes)
    requires Stable(a + b)
    ensures Stable(a) && Stable(Parse(a).rest + b)
    ensures Parse(a + b) == Prepend(Parse(a).messages, Parse(Parse(a).rest + b))
    decreases |a|
  {
    StableStep(a, b);
    match Examine(a)
    case Wait =>
    case Spin =>
    case Deliver(m, rest) =>
      Chunking(rest, b);
      PrependTwice([m], Parse(rest).messages, Parse(Parse(rest).rest + b));
  }

  lemma PrependTwice(a: seq<bytes>, b: seq<bytes>, p: Parsed)
    ensures Prepend(a, Prepend(b, p)) == Prepend(a + b, p)
  {
    assert a + (b + p.messages) == a + b + p.messages;
  }

  /** The incremental parser: each chunk is appended to what was left over. */
  function Feed(left: bytes, chunks: seq<bytes>): Parsed
    decreases |chunks|
  {
    if chunks == [] then Parsed([], left, false)
    else
      var first := Parse(left + chunks[0]);
      if first.spins then first
      else Prepend(first.messages, Feed(first.rest, chunks[1..]))
  }

  /** However a stream is cut, feeding the chunks parses the stream; if the parser's
      loop is not left, it is at the same frame. */
  lemma {:induction false} FeedIsParse(left: bytes, chunks: seq<bytes>)
    requires Stable(left + Flatten(chunks)) && Parse(left) == Parsed([], left, false)
    ensures var p, f := Parse(left + Flatten(chunks)), Feed(left, chunks);
      f.messages == p.messages && f.spins == p.spins && f.rest <= p.rest && (!p.spins ==> f.rest == p.rest)
    decreases |chunks|
  {
    if chunks == [] {
      assert left + Flatten(chunks) == left;
    } else {
      var a, b := left + chunks[0], Flatten(chunks[1..]);
      assert left + Flatten(chunks) == a + b;
      Chunking(a, b);
      RestIsSettled(a);
      if Parse(a).spins {
        StableStep(Parse(a).rest, b);
      } else {
        FeedIsParse(Parse(a).rest, chunks[1..]);
      }
    }
  }

  lemma {:induction false} RestIsSettled(s: bytes)
    ensures Parse(Parse(s).rest) == Parsed([], Parse(s).rest, Parse(s).spins)
    decreases |s|
  {
    if Examine(s).Deliver? {
      RestIsSettled(Examine(s).rest);
    }
  }

  // ---- Termination ----------------------------------------------------

  /** The parser's loop: still turning, or left, with the bytes then readable. */
  datatype Loop = Turning(readable: bytes) | Left(readable: bytes)

  function After(s: bytes, turns: nat): Loop {
    if turns == 0 then Turning(s)
    else
      match Examine(s)
      case Wait => Left(s)
      case Spin => After(s, turns - 1)
      case Deliver(_, rest) => After(rest, turns - 1)
  }

  /** A whole frame: a length prefix, and that many bytes. */
  predicate IsFrame(f: bytes) {
    4 <= |f| < TWO_TO_31 && Header(f) == |f| - 4
  }

  /** An incomplete frame of 64 MiB or more. */
  predicate Jams(r: bytes) {
    |r| > 4 && Header(r) >= MESSAGE_LIMIT && !Complete(Header(r), |r|)
  }

  /** The stream is whole frames and then an incomplete oversized one. */
  ghost predicate Jammed(s: bytes) {
    exists frames, r :: s == Flatten(frames) + r && (forall f | f in frames :: IsFrame(f)) && Jams(r)
  }

  /** The parser's loop is left, with the unparsed suffix, if and only if the stream is
      not whole frames followed by an incomplete oversized one. */
  lemma LoopLeavesExactly(s: bytes)
    ensures (exists turns: nat :: After(s, turns).Left?) <==> !Jammed(s)
    ensures forall turns: nat | After(s, turns).Left? :: After(s, turns).readable == Parse(s).rest
  {
    SpinsExactly(s);
    forall turns: nat | After(s, turns).Left?
      ensures !Parse(s).spins && After(s, turns).readable == Parse(s).rest
    {
      LeftIsParsed(s, turns);
    }
    if !Parse(s).spins {
      var turns := TurnsToLeave(s);
    }
  }

  lemma SpinsExactly(s: bytes)
    ensures Parse(s).spins <==> Jammed(s)
  {
    if Parse(s).spins {
      var frames, r := FramesBeforeJam(s);
    }
    if Jammed(s) {
      var frames, r :| s == Flatten(frames) + r && (forall f | f in frames :: IsFrame(f)) && Jams(r);
      JammedSpins(frames, r);
    }
  }

  /** One turn takes a whole frame off the front, when something follows. */
  lemma FrameIsDelivered(f: bytes, tail: bytes)
    requires IsFrame(f) && tail != []
    ensures Examine(f + tail) == Deliver(f[4..], tail)
  {
    var s := f + tail;
    assert Header(s) == Header(f);
    assert s[4..4 + Header(f)] == f[4..] && s[4 + Header(f)..] == tail;
  }

  lemma {:induction false} JammedSpins(frames: seq<bytes>, r: bytes)
    requires (forall f | f in frames :: IsFrame(f)) && Jams(r)
    ensures Parse(Flatten(frames) + r).spins
    decreases |frames|
  {
    if frames == [] {
      assert Flatten(frames) + r == r;
    } else {
      var tail := Flatten(frames[1..]) + r;
      assert Flatten(frames) + r == frames[0] + tail;
      FrameIsDelivered(frames[0], tail);
      JammedSpins(frames[1..], r);
    }
  }

  /** A delivery that leaves something over takes a whole frame. */
  lemma DeliveredFrame(s: bytes, f: bytes, rest: bytes)
    requires Examine(s).Deliver? && Examine(s).rest == rest != [] && f == s[..|s| - |rest|]
    ensures s == f + rest && IsFrame(f)
  {
    assert Header(f) == Header(s);
  }

  lemma {:induction false} FramesBeforeJam(s: bytes) returns (frames: seq<bytes>, r: bytes)
    requires Parse(s).spins
    ensures s == Flatten(frames) + r && (forall f | f in frames :: IsFrame(f)) && Jams(r)
    decreases |s|
  {
    hide IsFrame;
    match Examine(s)
    case Spin =>
      frames, r := [], s;
    case Deliver(m, rest) =>
      frames, r := FramesBeforeJam(rest);
      var f := s[..|s| - |rest|];
      DeliveredFrame(s, f, rest);
      assert Flatten([f] + frames) == f + Flatten(frames);
      frames := [f] + frames;
  }

  /** A length prefix of 64 MiB and one byte more is enough. */
  lemma OversizedNeverLeaves()
    ensures Jammed(Big32(64 * 1024 * 1024) + [0])
    ensures forall turns: nat :: !After(Big32(64 * 1024 * 1024) + [0], turns).Left?
  {
    var s := Big32(MESSAGE_LIMIT) + [0];
    Read32Big32(MESSAGE_LIMIT, [0]);
    assert Jams(s) && s == Flatten([]) + s;
    LoopLeavesExactly(s);
  }

  lemma {:induction false} LeftIsParsed(s: bytes, turns: nat)
    requires After(s, turns).Left?
    ensures !Parse(s).spins && After(s, turns).readable == Parse(s).rest
  {
    match Examine(s)
    case Wait =>
    case Spin => LeftIsParsed(s, turns - 1);
    case Deliver(_, rest) => LeftIsParsed(rest, turns - 1);
  }

  lemma {:induction false} TurnsToLeave(s: bytes) returns (turns: nat)
    requires !Parse(s).spins
    ensures After(s, turns).Left?
    decreases |s|
  {
    if Examine(s).Deliver? {
      turns := TurnsToLeave(Examine(s).rest);
      turns := turns + 1;
    } else {
      turns := 1;
    }
  }

  // ---- Encoding -------------------------------------------------------

  /** Length prefix and body; htonl takes a uint32_t, so the size is truncated. */
  function Encode(m: bytes): bytes {
    Big32(|m| % TWO_TO_32) + m
  }

  function EncodeAll(ms: seq<bytes>): bytes {
    if ms == [] then [] else Encode(ms[0]) + EncodeAll(ms[1..])
  }

  lemma {:induction false} EncodeAllConcat(a: seq<bytes>, b: seq<bytes>)
    ensures EncodeAll(a + b) == EncodeAll(a) + EncodeAll(b)
  {
    if a == [] {
      assert a + b == b;
    } else {
      assert (a + b)[1..] == a[1..] + b;
      EncodeAllConcat(a[1..], b);
    }
  }

  lemma ParseEncoded(m: bytes, tail: bytes)
    requires |m| < MESSAGE_LIMIT && |m + tail| > 0
    ensures Parse(Encode(m) + tail) == Prepend([m], Parse(tail))
    ensures Stable(Encode(m) + tail) <==> Stable(tail)
  {
    hide Read32;
    hide Big32;
    var s := Encode(m) + tail;
    assert s == Big32(|m|) + (m + tail);
    Read32Big32(|m|, m + tail);
    assert s[4..4 + |m|] == m && s[4 + |m|..] == tail;
    assert Examine(s) == Deliver(m, tail);
  }

  /** No bytes, or a lone empty frame, deliver nothing. */
  lemma NothingToDeliver()
    ensures Stable([]) && Parse([]) == Parsed([], [], false)
    ensures Stable(Encode([])) && Parse(Encode([])) == Parsed([], Encode([]), false)
  {
  }

  /** Decoding undoes encoding, except that a final empty message is held back. */
  lemma {:induction false} RoundTrip(ms: seq<bytes>)
    requires forall m | m in ms :: |m| < 64 * 1024 * 1024
    ensures Stable(EncodeAll(ms))
    ensures Parse(EncodeAll(ms)) ==
      if EndsEmpty(ms) then Parsed(ms[..|ms| - 1], Encode([]), false) else Parsed(ms, [], false)
  {
    hide Parse;
    hide Stable;
    hide Encode;
    NothingToDeliver();
    if ms != [] {
      var m, later := ms[0], ms[1..];
      RoundTrip(later);
      assert ms == [m] + later;
      assert EndsEmpty(ms) <==> if later == [] then m == [] else EndsEmpty(later);
      if later == [] && m == [] {
        assert EncodeAll(ms) == Encode([]) + EncodeAll([]) == Encode([]);
        assert ms[..0] == [];
      } else {
        EncodingsFollow(later);
        ParseEncoded(m, EncodeAll(later));
        if EndsEmpty(ms) {
          assert ms[..|ms| - 1] == [m] + later[..|later| - 1];
        }
      }
    }
  }

  lemma EncodingsFollow(later: seq<bytes>)
    ensures later != [] ==> EncodeAll(later) != []
  {
    if later != [] {
      assert |EncodeAll(later)| >= |Encode(later[0])| > 0;
    }
  }

  predicate EndsEmpty(ms: seq<bytes>) {
    ms != [] && ms[|ms| - 1] == []
  }

  /** The bytes one echo reply puts on the wire. */
  const REPLY_PREFIX: bytes := [114, 101, 112, 108, 121, 58, 32] // "reply: "

  function Reply(m: bytes): bytes {
    REPLY_PREFIX + m
  }

  /** The replies to a list of messages, as bytes on the wire. */
  function ReplyStream(ms: seq<bytes>): bytes {
    if ms == [] then [] else Encode(Reply(ms[0])) + ReplyStream(ms[1..])
  }

  lemma {:induction false} ReplyStreamConcat(a: seq<bytes>, b: seq<bytes>)
    ensures ReplyStream(a + b) == ReplyStream(a) + ReplyStream(b)
  {
    if a == [] {
      assert a + b == b;
    } else {
      assert (a + b)[1..] == a[1..] + b;
      ReplyStreamConcat(a[1..], b);
    }
  }

  function Replies(ms: seq<bytes>): (rs: seq<bytes>)
    ensures |rs| == |ms| && forall i | 0 <= i < |ms| :: rs[i] == Reply(ms[i])
  {
    if ms == [] then [] else [Reply(ms[0])] + Replies(ms[1..])
  }

  lemma {:induction false} ReplyStreamEncodes(ms: seq<bytes>)
    ensures ReplyStream(ms) == EncodeAll(Replies(ms))
  {
    if ms != [] {
      ReplyStreamEncodes(ms[1..]);
    }
  }

  /** The reply to a message is the text "reply: " and then the message. */
  lemma RepliesRead(ms: seq<bytes>)
    ensures |Replies(ms)| == |ms|
    ensures forall i | 0 <= i < |ms| ::
      && |Replies(ms)[i]| == 7 + |ms[i]|
      && IsText(Replies(ms)[i][..7], "reply: ") && Replies(ms)[i][7..] == ms[i]
  {
    forall i | 0 <= i < |ms|
      ensures |Replies(ms)[i]| == 7 + |ms[i]|
      ensures IsText(Replies(ms)[i][..7], "reply: ") && Replies(ms)[i][7..] == ms[i]
    {
      ReplyReads(ms[i]);
    }
  }

  lemma ReplyReads(m: bytes)
    ensures |Reply(m)| == 7 + |m| && IsText(Reply(m)[..7], "reply: ") && Reply(m)[7..] == m
  {
    assert Reply(m)[..7] == REPLY_PREFIX;
  }

  /** A peer that parses the reply stream by the same rules recovers every reply. */
  lemma RepliesDecode(ms: seq<bytes>)
    requires forall m | m in ms :: |m| < 64 * 1024 * 1024 - 7
    ensures Parse(ReplyStream(ms)) == Parsed(Replies(ms), [], false)
    ensures var rs := Parse(ReplyStream(ms)).messages;
      && |rs| == |ms|
      && forall i | 0 <= i < |ms| ::
           |rs[i]| == 7 + |ms[i]| && IsText(rs[i][..7], "reply: ") && rs[i][7..] == ms[i]
  {
    RepliesRead(ms);
    hide IsText;
    forall r | r in Replies(ms) ensures |r| < MESSAGE_LIMIT {
      var i :| 0 <= i < |ms| && Replies(ms)[i] == r;
      assert ms[i] in ms;
    }
    ReplyStreamEncodes(ms);
    RoundTrip(Replies(ms));
  }
}
