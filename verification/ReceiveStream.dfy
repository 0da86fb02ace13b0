/** A stream of receives into RecvQ as values: what OnRecv is given, and whether a write would
    leave RecvQ or a pool packet. */
module ReceiveStream {
  import opened Framing
  import opened Packets
  import opened XorCipher
  import opened XorPacketEncoders

  const PACKET_ROOM := BUFFER_DEFAULT - HEADER_DEFAULT   // payload bytes a pool packet holds

  /** How a receive ends: waiting for the next one, with the session killed, or where the code
      would copy a payload past the end of the packet, or had offered the kernel bytes past the
      end of RecvQ and they came. */
  datatype End = Waits | Killed | PastPacket | PastRecvQ

  datatype Received = Received(delivered: seq<seq<Byte>>, end: End, rest: seq<Byte>)

  predicate MessagesFit(ps: seq<seq<Byte>>) {
    forall k :: 0 <= k < |ps| ==> |ps[k]| <= PACKET_ROOM
  }

  /** The payloads up to the first that no packet holds. */
  function Fitting(ps: seq<seq<Byte>>): seq<seq<Byte>> {
    if ps == [] || |ps[0]| > PACKET_ROOM then [] else [ps[0]] + Fitting(ps[1..])
  }

  lemma {:induction false} FittingMeans(ps: seq<seq<Byte>>)
    ensures var r := Fitting(ps);
      && r <= ps && MessagesFit(r)
      && (r == ps <==> MessagesFit(ps))
      && (|r| < |ps| ==> |ps[|r|]| > PACKET_ROOM)
  {
    if ps != [] && |ps[0]| <= PACKET_ROOM {
      FittingMeans(ps[1..]);
      FitsFirst(ps);
    }
  }

  function Outcome(p: Parsed): Received {
    Received(Fitting(p.delivered),
             if !MessagesFit(p.delivered) then PastPacket else if p.killed then Killed else Waits, p.rest)
  }

  /** One receive of `chunk` into a RecvQ of `size` bytes that holds `data` from Front on. */
  function Receive(c: Config, size: nat, front: nat, data: seq<Byte>, chunk: seq<Byte>): Received {
    if front + |data| + |chunk| > size then Received([], PastRecvQ, data) else Outcome(Parse(c, data + chunk))
  }

  // Where Clear and ShiftDataToFront leave Front.
  function FrontOf(rest: seq<Byte>): nat {
    if rest == [] then HEADER_DEFAULT else 0
  }

  /** Receive after receive, until one does not end waiting. */
  function Stream(c: Config, size: nat, rest: seq<Byte>, chunks: seq<seq<Byte>>): Received
    decreases |chunks|
  {
    if chunks == [] then Received([], Waits, rest)
    else
      var r := Receive(c, size, FrontOf(rest), rest, chunks[0]);
      if !r.end.Waits? then r
      else
        var q := Stream(c, size, r.rest, chunks[1..]);
        q.(delivered := r.delivered + q.delivered)
  }

  // ---- the two ways out of a buffer, exactly ----

  // Whatever the kernel writes of the GetFreeSize bytes RecvPost offers it at Rear stays in RecvQ.
  ghost predicate WindowFits(c: Config, size: nat, front: nat, data: seq<Byte>) {
    forall chunk: seq<Byte> :: |data| + |chunk| <= size ==>
      !Receive(c, size, front, data, chunk).end.PastRecvQ?
  }

  /** It does if and only if Front is 0. */
  lemma WindowExactly(c: Config, size: nat, front: nat, data: seq<Byte>)
    requires front + |data| <= size
    ensures WindowFits(c, size, front, data) <==> front == 0
  {
    if WindowFits(c, size, front, data) {
      var all: seq<Byte> := seq(size - |data|, _ => 0);
      assert !Receive(c, size, front, data, all).end.PastRecvQ?;
    }
  }

  /** Of what the kernel may write, exactly a chunk of more than size - 20 bytes into an empty RecvQ
      does not fit. */
  lemma ReceiveFitsExactly(c: Config, size: nat, rest: seq<Byte>, chunk: seq<Byte>)
    requires |rest| + |chunk| <= size
    ensures Receive(c, size, FrontOf(rest), rest, chunk).end.PastRecvQ? <==>
            rest == [] && |chunk| > size - HEADER_DEFAULT
  {
  }

  /** The first receive of a session may be one: 4096 bytes are offered at index 20. */
  lemma FirstReceivePast(c: Config)
    ensures exists chunk: seq<Byte> :: |chunk| <= 4096 && Receive(c, 4096, HEADER_DEFAULT, [], chunk).end.PastRecvQ?
  {
    var chunk: seq<Byte> := seq(4096, _ => 0);
    assert Receive(c, 4096, HEADER_DEFAULT, [], chunk).end.PastRecvQ?;
  }

  /** A frame received in one piece is copied past the end of the packet if and only if its payload
      has more than 1004 bytes. */
  lemma OneFrame(c: Config, size: nat, m: Message)
    requires Sendable(c, m) && HEADER_DEFAULT + |FrameOf(c, m)| <= size && m.payload != []
    ensures Receive(c, size, HEADER_DEFAULT, [], FrameOf(c, m)) ==
            if |m.payload| > PACKET_ROOM then Received([], PastPacket, []) else Received([m.payload], Waits, [])
  {
    hide Closes, Complete, PayloadOf;
    var f := FrameOf(c, m);
    assert f + [] == f && [] + f == f;
    FrameParses(c, m, []);
    ParseNext(c, f);
    EmptyStream(c);
    assert Parse(c, f).delivered == [m.payload];
    assert Fitting([m.payload]) == if |m.payload| > PACKET_ROOM then [] else [m.payload] by {
      assert [m.payload][1..] == [];
    }
  }

  lemma EmptyStream(c: Config)
    ensures Parse(c, []) == Parsed([], [], false)
  {
  }

  /** With the default limit a peer may send one. */
  lemma LargePayloadPast(c: Config)
    requires c.maxLen == 4096
    ensures exists m: Message :: Sendable(c, m) && |m.payload| == 1005 &&
              Receive(c, 4096, HEADER_DEFAULT, [], FrameOf(c, m)).end.PastPacket?
  {
    var m := Message(0, seq(1005, _ => 0));
    OneFrame(c, 4096, m);
    assert Sendable(c, m) && |m.payload| == 1005;
  }

  // ---- otherwise the stream is what Framing says ----

  /** Every chunk finds room behind what is held, until the session is closed. */
  predicate Windows(c: Config, size: nat, rest: seq<Byte>, chunks: seq<seq<Byte>>)
    decreases |chunks|
  {
    chunks == [] ||
    (&& FrontOf(rest) + |rest| + |chunks[0]| <= size
     && var p := Parse(c, rest + chunks[0]);
        p.killed || Windows(c, size, p.rest, chunks[1..]))
  }

  lemma {:induction false} FittingAppend(a: seq<seq<Byte>>, b: seq<seq<Byte>>)
    ensures Fitting(a + b) == if MessagesFit(a) then a + Fitting(b) else Fitting(a)
    ensures MessagesFit(a + b) <==> MessagesFit(a) && MessagesFit(b)
  {
    hide MessagesFit, Fitting;
    NothingFits();
    if a == [] {
      assert a + b == b && a + Fitting(b) == Fitting(b);
    } else {
      var x, t := a[0], a[1..];
      assert a == [x] + t;
      FittingAppend(t, b);
      Assoc([x], t, b);
      Assoc([x], t, Fitting(b));
      FittingCons(x, t);
      FittingCons(x, t + b);
    }
  }

  lemma FittingCons(x: seq<Byte>, ps: seq<seq<Byte>>)
    ensures Fitting([x] + ps) == if |x| > PACKET_ROOM then [] else [x] + Fitting(ps)
    ensures MessagesFit([x] + ps) <==> |x| <= PACKET_ROOM && MessagesFit(ps)
  {
    assert ([x] + ps)[1..] == ps;
    FitsFirst([x] + ps);
  }

  lemma FitsFirst(ps: seq<seq<Byte>>)
    requires ps != []
    ensures MessagesFit(ps) <==> |ps[0]| <= PACKET_ROOM && MessagesFit(ps[1..])
  {
    if |ps[0]| <= PACKET_ROOM && MessagesFit(ps[1..]) {
      forall k | 0 <= k < |ps| ensures |ps[k]| <= PACKET_ROOM {
        assert k > 0 ==> ps[k] == ps[1..][k - 1];
      }
    }
    if MessagesFit(ps) {
      forall k | 0 <= k < |ps[1..]| ensures |ps[1..][k]| <= PACKET_ROOM {
        assert ps[1..][k] == ps[k + 1];
      }
    }
  }

  /** While every chunk finds room, what OnRecv is given is what the frames of the stream hold, up
      to the first payload of more than 1004 bytes, if there is one. */
  lemma {:induction false} StreamIsFeed(c: Config, size: nat, rest: seq<Byte>, chunks: seq<seq<Byte>>)
    requires Windows(c, size, rest, chunks)
    ensures var s, o := Stream(c, size, rest, chunks), Outcome(Feed(c, rest, chunks));
      s.delivered == o.delivered && s.end == o.end && (s.end.Waits? ==> s.rest == o.rest)
    decreases |chunks|
  {
    hide Parse, Fitting, MessagesFit;
    if chunks == [] {
      NothingFits();
    } else {
      var p := Parse(c, rest + chunks[0]);
      if !p.killed {
        StreamIsFeed(c, size, p.rest, chunks[1..]);
        FittingMeans(p.delivered);
        FittingAppend(p.delivered, Feed(c, p.rest, chunks[1..]).delivered);
      }
    }
  }

  lemma NothingFits()
    ensures Fitting([]) == [] && MessagesFit([])
  {
  }

  predicate PayloadsFit(ms: seq<Message>, cap: nat) {
    forall k :: 0 <= k < |ms| ==> |ms[k].payload| <= cap
  }

  /** The payloads that come out of a whole stream: all, but for a final empty one, which is held
      back. */
  function Due(ms: seq<Message>): seq<seq<Byte>> {
    if ms != [] && ms[|ms| - 1].payload == [] then Payloads(ms)[..|ms| - 1] else Payloads(ms)
  }

  lemma PayloadAt(c: Config, ms: seq<Message>, k: nat)
    requires AllSendable(c, ms) && k < |ms|
    ensures k < |Due(ms)| ==> Due(ms)[k] == ms[k].payload
    ensures k >= |Due(ms)| ==> ms[k].payload == []
  {
    FramesAt(c, ms, k);
  }

  lemma DueFits(c: Config, ms: seq<Message>)
    requires AllSendable(c, ms)
    ensures |Due(ms)| <= |ms|
    ensures MessagesFit(Due(ms)) <==> PayloadsFit(ms, PACKET_ROOM)
  {
    assert |Due(ms)| <= |ms|;
    hide Due;
    forall k | 0 <= k < |ms|
      ensures if k < |Due(ms)| then Due(ms)[k] == ms[k].payload else ms[k].payload == []
    {
      PayloadAt(c, ms, k);
    }
  }

  lemma DueOfFeed(c: Config, ms: seq<Message>, chunks: seq<seq<Byte>>)
    requires AllSendable(c, ms) && Join(chunks) == Join(Frames(c, ms))
    ensures var p := Feed(c, [], chunks); !p.killed && p.delivered == Due(ms)
  {
    EndToEnd(c, ms, chunks);
  }

  /** Encode, concatenate, split so that every chunk finds room, receive into one RecvQ: all payloads
      due come out, in order, if and only if none has more than 1004 bytes; otherwise those before
      the first that has. */
  lemma StreamEndToEnd(c: Config, size: nat, ms: seq<Message>, chunks: seq<seq<Byte>>)
    requires AllSendable(c, ms) && Join(chunks) == Join(Frames(c, ms)) && Windows(c, size, [], chunks)
    ensures var s := Stream(c, size, [], chunks);
      && s.delivered == Fitting(Due(ms))
      && s.end == (if PayloadsFit(ms, PACKET_ROOM) then Waits else PastPacket)
      && (s.delivered == Due(ms) <==> PayloadsFit(ms, PACKET_ROOM))
  {
    hide Windows, Stream, Feed, Fitting, MessagesFit, PayloadsFit, Due, Join, Frames;
    StreamIsFeed(c, size, [], chunks);
    DueOfFeed(c, ms, chunks);
    DueFits(c, ms);
    FittingMeans(Due(ms));
  }

  // ---- when every chunk finds room ----

  /** Every chunk is within the GetFreeSize bytes that RecvPost offered for it. */
  predicate Offered(c: Config, size: nat, rest: seq<Byte>, chunks: seq<seq<Byte>>)
    decreases |chunks|
  {
    chunks == [] ||
    (&& |rest| + |chunks[0]| <= size
     && var p := Parse(c, rest + chunks[0]);
        p.killed || Offered(c, size, p.rest, chunks[1..]))
  }

  /** Every chunk that comes when nothing is held has at most size - 20 bytes. */
  predicate StartsFit(c: Config, size: nat, rest: seq<Byte>, chunks: seq<seq<Byte>>)
    decreases |chunks|
  {
    chunks == [] ||
    (&& (rest == [] ==> |chunks[0]| <= size - HEADER_DEFAULT)
     && var p := Parse(c, rest + chunks[0]);
        p.killed || StartsFit(c, size, p.rest, chunks[1..]))
  }

  lemma {:induction false} WindowsSplit(c: Config, size: nat, rest: seq<Byte>, chunks: seq<seq<Byte>>)
    ensures Windows(c, size, rest, chunks) <==> Offered(c, size, rest, chunks) && StartsFit(c, size, rest, chunks)
    decreases |chunks|
  {
    hide Parse;
    if chunks != [] {
      WindowsSplit(c, size, Parse(c, rest + chunks[0]).rest, chunks[1..]);
    }
  }

  /** Of messages that fit, a stream leaves RecvQ exactly when some chunk finds no room. */
  lemma {:induction false} PastRecvQExactly(c: Config, size: nat, rest: seq<Byte>, chunks: seq<seq<Byte>>)
    requires MessagesFit(Feed(c, rest, chunks).delivered)
    ensures Stream(c, size, rest, chunks).end.PastRecvQ? <==> !Windows(c, size, rest, chunks)
    decreases |chunks|
  {
    hide Parse, Fitting, MessagesFit;
    if chunks != [] {
      var p := Parse(c, rest + chunks[0]);
      if !p.killed {
        FittingAppend(p.delivered, Feed(c, p.rest, chunks[1..]).delivered);
        PastRecvQExactly(c, size, p.rest, chunks[1..]);
      }
    }
  }

  /** What the receive side promises end to end, whatever the kernel returns of what it is offered:
      payloads of at most 1004 bytes are all delivered, in order, with no write past a buffer, if
      and only if every chunk that comes when nothing is held has at most size - 20 bytes. */
  lemma NeverOverruns(c: Config, size: nat, ms: seq<Message>, chunks: seq<seq<Byte>>)
    requires AllSendable(c, ms) && PayloadsFit(ms, PACKET_ROOM) && Join(chunks) == Join(Frames(c, ms))
    requires Offered(c, size, [], chunks)
    ensures var s := Stream(c, size, [], chunks);
      && s.end == (if StartsFit(c, size, [], chunks) then Waits else PastRecvQ)
      && (StartsFit(c, size, [], chunks) ==> s.delivered == Due(ms))
  {
    hide Stream, Feed, Windows, Offered, StartsFit, MessagesFit, PayloadsFit, Due, Join, Frames;
    WindowsSplit(c, size, [], chunks);
    if StartsFit(c, size, [], chunks) {
      StreamEndToEnd(c, size, ms, chunks);
    } else {
      DueOfFeed(c, ms, chunks);
      DueFits(c, ms);
      PastRecvQExactly(c, size, [], chunks);
    }
  }

  /** After any first part of a stream of payloads of at most `cap` bytes, at most 5 + cap bytes are
      held, and the next chunk leaves RecvQ exactly if it exceeds GetFreeSize, or size - 20 when
      nothing is held. */
  lemma RoomAfter(c: Config, size: nat, ms: seq<Message>, done: seq<Byte>, chunk: seq<Byte>, cap: nat)
    requires AllSendable(c, ms) && PayloadsFit(ms, cap) && done <= Join(Frames(c, ms))
    ensures var p := Parse(c, done);
      && !p.killed && |p.rest| <= HEADER_SIZE + cap
      && (Receive(c, size, FrontOf(p.rest), p.rest, chunk).end.PastRecvQ? <==>
          |p.rest| + |chunk| > size || (p.rest == [] && |chunk| > size - HEADER_DEFAULT))
  {
    hide Parse, Progress;
    var k := PrefixProgress(c, ms, done);
    RestBound(c, ms, Parse(c, done), done, k, cap);
    NotKilled(Parse(c, done), Frames(c, ms), Payloads(ms), done, k);
  }

  lemma NotKilled(p: Parsed, fs: seq<seq<Byte>>, payloads: seq<seq<Byte>>, a: seq<Byte>, k: nat)
    requires Progress(p, fs, payloads, a, k)
    ensures !p.killed
  {
  }
}
