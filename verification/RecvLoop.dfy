/** NetServer's receive loop on RecvQ, in place: WorkerThread, CheckPacketMessageComplete and
    GetPacketMessage. */
module RecvLoops {
  import opened XorCipher
  import opened Packets
  import opened XorPacketEncoders
  import opened Framing
  import opened ReceiveStream

  function ConfigOf(enc: XorPacketEncoder): Config {
    Config(enc.headerCode, enc.encryptKey, enc.maxPayloadLen)
  }

  // KillSession is reported by `kill`.
  method CheckPacketMessageComplete(enc: XorPacketEncoder, recvQ: Packet) returns (complete: bool, kill: bool)
    requires recvQ.Valid()
    ensures var s := recvQ.Data();
      && kill == (|s| > 5 && (s[0] != enc.headerCode ||
                              (enc.maxPayloadLen != 0 && s[1] as nat + 256 * s[2] as nat > enc.maxPayloadLen)))
      && complete == (|s| > 5 && |s| >= 5 + s[1] as nat + 256 * s[2] as nat && !kill)
  {
    complete, kill := false, false;
    var headerSize := enc.GetHeaderSize();
    var packetUseSize := recvQ.rear - recvQ.front;
    if packetUseSize <= headerSize {
      return;
    }
    var header := recvQ.buffer[recvQ.front..recvQ.rear];
    if !enc.VerifyHeaderMagic(header) {
      kill := true;
      return;
    }
    var peeked := enc.PeekPayloadLength(header);
    if peeked.Exceeds? {
      kill := true;
      return;
    }
    if packetUseSize < headerSize + peeked.len {
      return;
    }
    complete := true;
  }

  // Decode on the frame at the head of recvQ.
  method DecodeHead(enc: XorPacketEncoder, recvQ: Packet) returns (ok: bool)
    requires recvQ.Valid() && Complete(recvQ.Data())
    modifies recvQ`front, recvQ.buffer
    ensures recvQ.Valid()
    ensures var s := old(recvQ.Data());
      && ok == Accepts(BodyOf(s), s[3], enc.encryptKey)
      && (ok ==> recvQ.Data() == DecodeBody(BodyOf(s), s[3], enc.encryptKey)[1..] + s[HEADER_SIZE + LenOf(s)..])
  {
    hide Accepts, DecodeBody, Word;
    ghost var s, was, f := recvQ.Data(), recvQ.buffer[..], recvQ.front;
    ok := enc.Decode(recvQ);
    if ok {
      DecodedData(was, f, recvQ.rear, DecodeBody(BodyOf(s), s[3], enc.encryptKey), recvQ.buffer[..]);
    }
  }

  // Decodes the frame at the head of recvQ and moves its payload to the end of packet. The source
  // does not ask whether it fits: `past` says that the copy would leave the packet's buffer.
  method GetPacketMessage(enc: XorPacketEncoder, packet: Packet, recvQ: Packet) returns (ok: bool, past: bool)
    requires packet.Valid() && recvQ.Valid() && packet.buffer != recvQ.buffer && packet != recvQ
    requires Complete(recvQ.Data()) && recvQ.Data()[0] == enc.headerCode
    modifies packet`rear, packet.buffer, recvQ`front, recvQ.buffer
    ensures packet.Valid() && recvQ.Valid()
    ensures var s := old(recvQ.Data()); var accepted := !Closes(ConfigOf(enc), s);
      && past == (accepted && old(packet.rear) + LenOf(s) > packet.buffer.Length)
      && ok == (accepted && !past)
    ensures ok ==>
      var s := old(recvQ.Data());
      && packet.Data() == old(packet.Data()) + PayloadOf(ConfigOf(enc), s)
      && recvQ.Data() == s[HEADER_SIZE + LenOf(s)..]
  {
    hide Accepts, DecodeBody, Word;
    ghost var s := recvQ.Data();
    past := false;
    var peeked := enc.PeekPayloadLength(recvQ.buffer[recvQ.front..recvQ.rear]);
    if peeked.Exceeds? {
      return false, false;
    }
    ok := DecodeHead(enc, recvQ);
    if !ok {
      return;
    }
    if packet.rear + peeked.len > packet.buffer.Length {
      return false, true;
    }
    var got := recvQ.GetData(packet.buffer, packet.rear, peeked.len);
    var moved := packet.MoveWritePos(peeked.len);
  }

  // What RecvQ holds once the frame's body has been replaced and Front moved past the header.
  lemma DecodedData(was: seq<Byte>, f: nat, rear: nat, plain: seq<Byte>, now: seq<Byte>)
    requires plain != [] && f + 4 + |plain| <= rear <= |was|
    requires now == was[..f + 4] + plain + was[f + 4 + |plain|..]
    ensures now[f + HEADER_SIZE..rear] == plain[1..] + was[f..rear][4 + |plain|..]
  {
    var data, parts := now[f + HEADER_SIZE..rear], plain[1..] + was[f..rear][4 + |plain|..];
    forall k | 0 <= k < |data|
      ensures data[k] == parts[k]
    {
      if k < |plain| - 1 {
        assert now[f + 4 + (k + 1)] == plain[k + 1];
      }
    }
  }

  // One turn of the loop: a message for OnRecv, or how the loop ends.
  method TakeMessage(enc: XorPacketEncoder, recvQ: Packet) returns (got: bool, payload: seq<Byte>, end: End)
    requires recvQ.Valid()
    modifies recvQ`front, recvQ.buffer
    ensures recvQ.Valid()
    ensures var c := ConfigOf(enc); var s := old(recvQ.Data());
      && got == (Complete(s) && !Closes(c, s) && LenOf(s) <= PACKET_ROOM)
      && (got ==> payload == PayloadOf(c, s) && recvQ.Data() == s[HEADER_SIZE + LenOf(s)..])
      && (!got ==> end == if Closes(c, s) then Killed else if Complete(s) then PastPacket else Waits)
      && (!got && end.Waits? ==> recvQ.Data() == s)
  {
    hide Accepts, DecodeBody, PayloadOf;
    got, payload, end := false, [], Waits;
    var complete, bad := CheckPacketMessageComplete(enc, recvQ);
    if !complete {
      end := if bad then Killed else Waits;
      return;
    }
    var packet := new Packet(BUFFER_DEFAULT);
    packet.Clear();
    var past;
    got, past := GetPacketMessage(enc, packet, recvQ);
    end := if past then PastPacket else Killed;
    if got {
      payload := packet.buffer[packet.front..packet.rear];
      // FreePacket: the packet goes back to the pool after OnRecv
    }
  }

  /** One recv completion: the kernel has written `chunk` at Rear; MoveWritePos accounts for it, the
      loop delivers the complete messages, and what is left moves to the front. `delivered` is
      what OnRecv is given, in order. */
  method OnReceive(enc: XorPacketEncoder, recvQ: Packet, chunk: seq<Byte>)
    returns (delivered: seq<seq<Byte>>, end: End)
    requires recvQ.Valid() && HEADER_DEFAULT <= recvQ.buffer.Length
    modifies recvQ, recvQ.buffer
    ensures recvQ.Valid()
    ensures var r := Receive(ConfigOf(enc), recvQ.buffer.Length, old(recvQ.front), old(recvQ.Data()), chunk);
      && delivered == r.delivered && end == r.end
      && (end.Waits? ==> recvQ.Data() == r.rest && recvQ.front == FrontOf(r.rest))
  {
    if recvQ.rear + |chunk| > recvQ.buffer.Length {
      return [], PastRecvQ;
    }
    var put := recvQ.PutData(chunk);
    assert chunk[..put] == chunk;
    delivered, end := DeliverAll(enc, recvQ);
    if end.PastPacket? {
      return;
    }
    if recvQ.rear - recvQ.front != 0 {
      recvQ.ShiftDataToFront();
    } else {
      recvQ.Clear();
    }
  }

  /** The receives of one session, one after the other, into the same RecvQ. */
  method ReceiveAll(enc: XorPacketEncoder, recvQ: Packet, chunks: seq<seq<Byte>>)
    returns (delivered: seq<seq<Byte>>, end: End)
    requires recvQ.Valid() && HEADER_DEFAULT <= recvQ.buffer.Length && recvQ.front == FrontOf(recvQ.Data())
    modifies recvQ, recvQ.buffer
    ensures recvQ.Valid()
    ensures var r := Stream(ConfigOf(enc), recvQ.buffer.Length, old(recvQ.Data()), chunks);
      delivered == r.delivered && end == r.end && (end.Waits? ==> recvQ.Data() == r.rest)
  {
    ghost var all := Stream(ConfigOf(enc), recvQ.buffer.Length, recvQ.Data(), chunks);
    var k := 0;
    delivered, end := [], Waits;
    NothingYet(all);
    assert chunks[0..] == chunks;
    while k < |chunks| && end.Waits?
      invariant 0 <= k <= |chunks| && recvQ.Valid()
      invariant end.Waits? ==> Awaits(ConfigOf(enc), recvQ, chunks[k..], delivered, all)
      invariant !end.Waits? ==> delivered == all.delivered && end == all.end
      decreases |chunks| - k
    {
      delivered, end := ReceiveNext(enc, recvQ, chunks, k, delivered, all);
      k := k + 1;
    }
    if end.Waits? {
      assert chunks[k..] == [];
    }
  }

  lemma NothingYet(r: Received)
    ensures Before([], r) == r
  {
    assert [] + r.delivered == r.delivered;
  }

  // After `done`, the chunks are still to be received, and then `all` has come of it.
  ghost predicate Awaits(c: Config, recvQ: Packet, chunks: seq<seq<Byte>>, done: seq<seq<Byte>>, all: Received)
    requires recvQ.Valid()
    reads recvQ, recvQ.buffer
  {
    && recvQ.front == FrontOf(recvQ.Data())
    && all == Before(done, Stream(c, recvQ.buffer.Length, recvQ.Data(), chunks))
  }

  // The body of that loop.
  method ReceiveNext(enc: XorPacketEncoder, recvQ: Packet, chunks: seq<seq<Byte>>, k: nat, done: seq<seq<Byte>>,
                     ghost all: Received)
    returns (delivered: seq<seq<Byte>>, end: End)
    requires recvQ.Valid() && HEADER_DEFAULT <= recvQ.buffer.Length && k < |chunks|
    requires Awaits(ConfigOf(enc), recvQ, chunks[k..], done, all)
    modifies recvQ, recvQ.buffer
    ensures recvQ.Valid()
    ensures end.Waits? ==> Awaits(ConfigOf(enc), recvQ, chunks[k + 1..], delivered, all)
    ensures !end.Waits? ==> delivered == all.delivered && end == all.end
  {
    hide Receive, Stream;
    StreamNext(ConfigOf(enc), recvQ.buffer.Length, recvQ.Data(), chunks[k..], done);
    assert chunks[k..][0] == chunks[k] && chunks[k..][1..] == chunks[k + 1..];
    var some;
    some, end := OnReceive(enc, recvQ, chunks[k]);
    delivered := done + some;
  }

  lemma StreamNext(c: Config, size: nat, rest: seq<Byte>, chunks: seq<seq<Byte>>, done: seq<seq<Byte>>)
    requires chunks != []
    ensures var r := Receive(c, size, FrontOf(rest), rest, chunks[0]);
      Before(done, Stream(c, size, rest, chunks)) ==
      if r.end.Waits? then Before(done + r.delivered, Stream(c, size, r.rest, chunks[1..])) else Before(done, r)
  {
    var r := Receive(c, size, FrontOf(rest), rest, chunks[0]);
    if r.end.Waits? {
      Assoc(done, r.delivered, Stream(c, size, r.rest, chunks[1..]).delivered);
    }
  }

  method DeliverAll(enc: XorPacketEncoder, recvQ: Packet) returns (delivered: seq<seq<Byte>>, end: End)
    requires recvQ.Valid()
    modifies recvQ`front, recvQ.buffer
    ensures recvQ.Valid()
    ensures var r := Outcome(Parse(ConfigOf(enc), old(recvQ.Data())));
      delivered == r.delivered && end == r.end && (end.Waits? ==> recvQ.Data() == r.rest)
  {
    hide Parse;
    ghost var all := Outcome(Parse(ConfigOf(enc), recvQ.Data()));
    var got := true;
    delivered, end := [], Waits;
    assert Before([], all) == all;
    while got
      invariant recvQ.Valid()
      invariant got ==> Ahead(ConfigOf(enc), recvQ.Data(), delivered, all)
      invariant !got ==> delivered == all.delivered && end == all.end && (end.Waits? ==> recvQ.Data() == all.rest)
      decreases got, recvQ.rear - recvQ.front
    {
      got, delivered, end := Turn(enc, recvQ, delivered, all);
    }
  }

  function Before(done: seq<seq<Byte>>, r: Received): Received {
    r.(delivered := done + r.delivered)
  }

  // After `done`, the bytes s are still to be parsed, and then `all` has come of it.
  ghost predicate Ahead(c: Config, s: seq<Byte>, done: seq<seq<Byte>>, all: Received) {
    all == Before(done, Outcome(Parse(c, s)))
  }

  // The body of the loop.
  method Turn(enc: XorPacketEncoder, recvQ: Packet, done: seq<seq<Byte>>, ghost all: Received)
    returns (got: bool, delivered: seq<seq<Byte>>, end: End)
    requires recvQ.Valid() && Ahead(ConfigOf(enc), recvQ.Data(), done, all)
    modifies recvQ`front, recvQ.buffer
    ensures recvQ.Valid()
    ensures got ==> Ahead(ConfigOf(enc), recvQ.Data(), delivered, all) && |recvQ.Data()| < |old(recvQ.Data())|
    ensures !got ==> delivered == all.delivered && end == all.end && (end.Waits? ==> recvQ.Data() == all.rest)
  {
    hide Parse, PayloadOf, Closes, Outcome;
    TurnOf(ConfigOf(enc), recvQ.Data(), done);
    var payload;
    got, payload, end := TakeMessage(enc, recvQ);
    delivered := if got then done + [payload] else done;
  }

  // What Parse says about one turn of the loop.
  lemma TurnOf(c: Config, s: seq<Byte>, done: seq<seq<Byte>>)
    ensures var r := Before(done, Outcome(Parse(c, s)));
      if Closes(c, s) then r == Received(done, Killed, s)
      else if !Complete(s) then r == Received(done, Waits, s)
      else if LenOf(s) > PACKET_ROOM then r.delivered == done && r.end.PastPacket?
      else r == Before(done + [PayloadOf(c, s)], Outcome(Parse(c, s[HEADER_SIZE + LenOf(s)..])))
  {
    hide MessagesFit, PayloadOf;
    NothingFits();
    if !Closes(c, s) && Complete(s) {
      ParseNext(c, s);
      var p := Parse(c, s[HEADER_SIZE + LenOf(s)..]);
      assert |PayloadOf(c, s)| == LenOf(s) by {
        PayloadLength(c, s);
      }
      var ps := [PayloadOf(c, s)] + p.delivered;
      assert ps[1..] == p.delivered;
      FitsFirst(ps);
      Assoc(done, [PayloadOf(c, s)], Fitting(p.delivered));
    }
  }

  lemma PayloadLength(c: Config, s: seq<Byte>)
    requires Complete(s)
    ensures |PayloadOf(c, s)| == LenOf(s)
  {
  }
}
