/** XorPacketEncoder: header and cipher, applied in place to a Packet. */
module XorPacketEncoders {
  import opened XorCipher
  import opened Packets

  const HEADER_SIZE := 5   // Code, Len (two bytes, low first), RKey, Checksum

  function LenLo(n: nat): Byte { n % 256 }
  function LenHi(n: nat): Byte { n / 256 % 256 }
  function Word(lo: Byte, hi: Byte): nat { lo + 256 * hi }

  lemma WordOfBytes(n: nat)
    requires n < 65536
    ensures Word(LenLo(n), LenHi(n)) == n
  {
  }

  /** A frame on the wire. */
  function Frame(code: Byte, ekey: Byte, rkey: Byte, payload: seq<Byte>): (f: seq<Byte>)
    requires |payload| < 65536
    ensures |f| == HEADER_SIZE + |payload|
  {
    Head(code, |payload|, rkey) + EncodeBody(payload, rkey, ekey)
  }

  function Head(code: Byte, len: nat, rkey: Byte): seq<Byte> {
    [code, LenLo(len), LenHi(len), rkey]
  }

  /** The bytes of a frame: code, length with the low byte first, RKey, then the body. */
  lemma FrameBytes(code: Byte, ekey: Byte, rkey: Byte, payload: seq<Byte>)
    requires |payload| < 65536
    ensures var f := Frame(code, ekey, rkey, payload);
      && f[0] == code && f[1] == |payload| % 256 && f[2] == |payload| / 256 && f[3] == rkey
      && f[4..] == EncodeBody(payload, rkey, ekey)
  {
    hide EncodeBody;
  }

  // `was`, with its bytes from..to replaced by those of s, which starts at index `at`.
  ghost function Patch(was: seq<Byte>, at: nat, s: seq<Byte>, from: nat, to: nat): (r: seq<Byte>)
    requires from <= to <= |s| && at + |s| <= |was|
    ensures |r| == |was|
    ensures forall k :: 0 <= k < |was| ==> r[k] == if at + from <= k < at + to then s[k - at] else was[k]
  {
    was[..at + from] + s[from..to] + was[at + to..]
  }

  lemma PatchGrows(was: seq<Byte>, at: nat, s: seq<Byte>, from: nat, to: nat)
    requires from <= to <= |s| && at + |s| <= |was|
    ensures to < |s| ==> Patch(was, at, s, from, to)[at + to := s[to]] == Patch(was, at, s, from, to + 1)
    ensures from > 0 ==> Patch(was, at, s, from, to)[at + from - 1 := s[from - 1]] == Patch(was, at, s, from - 1, to)
  {
  }

  // Encode's loop: both masks at once, front to back, over checksum and payload.
  method MaskBody(buf: array<Byte>, at: nat, payloadSize: nat, rk: Byte, ek: Byte)
    requires at + payloadSize < buf.Length
    modifies buf
    ensures var body := old(buf[at..at + payloadSize + 1]);
      buf[..] == Patch(old(buf[..]), at, Chain(Chain(body, rk), ek), 0, payloadSize + 1)
  {
    ghost var was := buf[..];
    ghost var plain := was[at..at + payloadSize + 1];
    ghost var once := Chain(plain, rk);
    ghost var twice := Chain(once, ek);
    ChainAt(plain, rk, 0);
    ChainAt(once, ek, 0);
    var p := at;
    var P := Xor(buf[p], Mask(0, rk, 0));
    buf[p] := Xor(P, Mask(0, ek, 0));
    p := p + 1;
    for i := 2 to payloadSize + 2
      invariant p == at + i - 1
      invariant P == once[i - 2]
      invariant buf[..] == Patch(was, at, twice, 0, i - 1)
    {
      ChainAt(plain, rk, i - 1);
      ChainAt(once, ek, i - 1);
      PatchGrows(was, at, twice, 0, i - 1);
      P := Xor(buf[p], Mask(P, rk, i - 1));
      buf[p] := Xor(P, Mask(buf[p - 1], ek, i - 1));
      p := p + 1;
    }
  }

  // Unmasking byte i - 1 when those after it are done; the byte before it is still masked.
  lemma UnmaskOne(was: seq<Byte>, at: nat, body: seq<Byte>, key: Byte, i: nat, now: seq<Byte>)
    requires 0 < i <= |body| && at + |body| <= |was| && body == was[at..at + |body|]
    requires now == Patch(was, at, Unchain(body, key), i, |body|)
    ensures Xor(now[at + i - 1], Mask(if i == 1 then 0 else now[at + i - 2], key, i - 1)) == Unchain(body, key)[i - 1]
    ensures now[at + i - 1 := Unchain(body, key)[i - 1]] == Patch(was, at, Unchain(body, key), i - 1, |body|)
  {
    hide Unchain, Xor, Mask;
    UnchainAt(body, key, i - 1);
    PatchGrows(was, at, Unchain(body, key), i, |body|);
    assert now[at + i - 1] == body[i - 1];
    assert i > 1 ==> now[at + i - 2] == body[i - 2];
  }

  // Unmasks byte i - 1 of the body at buf[at..]; the code's `tmp` is at + i - 1.
  method UnmaskByte(buf: array<Byte>, at: nat, i: nat, key: Byte, ghost was: seq<Byte>, ghost body: seq<Byte>)
    requires 0 < i <= |body| && at + |body| <= |was| && body == was[at..at + |body|]
    requires buf[..] == Patch(was, at, Unchain(body, key), i, |body|)
    modifies buf
    ensures buf[..] == Patch(was, at, Unchain(body, key), i - 1, |body|)
    ensures buf[at + i - 1] == Unchain(body, key)[i - 1]
  {
    hide Unchain, Xor, Mask, Patch;
    UnmaskOne(was, at, body, key, i, buf[..]);
    buf[at + i - 1] := Xor(buf[at + i - 1], Mask(if i == 1 then 0 else buf[at + i - 2], key, i - 1));
  }

  // One of Decode's reverse loops; `sum` is the checksum of the bytes after the first.
  method UnmaskBody(buf: array<Byte>, at: nat, len: nat, key: Byte) returns (sum: Byte)
    requires at + len < buf.Length
    modifies buf
    ensures var body := old(buf[at..at + len + 1]);
      && buf[..] == Patch(old(buf[..]), at, Unchain(body, key), 0, len + 1)
      && sum == Checksum(Unchain(body, key)[1..])
  {
    ghost var was := buf[..];
    ghost var body := was[at..at + len + 1];
    ghost var plain := Unchain(body, key);
    sum := 0;
    var i := len + 1;
    while i > 1
      invariant 1 <= i <= len + 1
      invariant buf[..] == Patch(was, at, plain, i, len + 1)
      invariant sum == ChecksumFrom(plain, i)
    {
      UnmaskByte(buf, at, i, key, was, body);
      sum := AddByte(sum, buf[at + i - 1]);
      i := i - 1;
    }
    UnmaskByte(buf, at, 1, key, was, body);
    ChecksumBackwards(plain, 1);
  }

  // The checksum of buf[at..at+n], summed front to back.
  method SumBytes(buf: array<Byte>, at: nat, n: nat) returns (checksum: Byte)
    requires at + n <= buf.Length
    ensures checksum == Checksum(buf[at..at + n])
  {
    checksum := 0;
    for i := 0 to n
      invariant checksum == Checksum(buf[at..at + i])
    {
      assert buf[at..at + i + 1][..i] == buf[at..at + i];
      checksum := AddByte(checksum, buf[at + i]);
    }
  }

  method WriteHeader(buf: array<Byte>, header: nat, code: Byte, len: nat, rkey: Byte, checksum: Byte)
    requires header + HEADER_SIZE <= buf.Length
    modifies buf
    ensures buf[..] == old(buf[..header]) + (Head(code, len, rkey) + [checksum]) + old(buf[header + HEADER_SIZE..])
  {
    buf[header] := code;
    buf[header + 1], buf[header + 2] := LenLo(len), LenHi(len);
    buf[header + 3] := rkey;
    buf[header + 4] := checksum;
  }

  // The buffer after the header, with its checksum byte, was written before `payload`.
  lemma AfterHeader(was: seq<Byte>, payload: nat, n: nat, head: seq<Byte>, checksum: Byte, mid: seq<Byte>)
    requires |head| == 4 && HEADER_SIZE <= payload && payload + n <= |was|
    requires mid == was[..payload - HEADER_SIZE] + (head + [checksum]) + was[payload..]
    ensures mid[payload - 1..payload + n] == [checksum] + was[payload..payload + n]
    ensures mid[payload - HEADER_SIZE..payload - 1] == head &&
            mid[..payload - HEADER_SIZE] == was[..payload - HEADER_SIZE]
    ensures mid[payload + n..] == was[payload + n..]
  {
  }

  lemma PatchTwice(was: seq<Byte>, at: nat, u: seq<Byte>, v: seq<Byte>)
    requires |u| == |v| && at + |u| <= |was|
    ensures Patch(Patch(was, at, u, 0, |u|), at, v, 0, |v|) == was[..at] + v + was[at + |v|..]
    ensures Patch(was, at, u, 0, |u|)[at..at + |u|] == u
  {
  }

  // Header written, then the body masked in place: the frame stands where header and payload stood.
  lemma EncodedBytes(was: seq<Byte>, h: nat, head: seq<Byte>, checksum: Byte, mid: seq<Byte>, body: seq<Byte>)
    requires |head| == 4 && 0 < |body| && h + 4 + |body| <= |was|
    requires mid == was[..h] + (head + [checksum]) + was[h + HEADER_SIZE..]
    ensures Patch(mid, h + 4, body, 0, |body|) == was[..h] + (head + body) + was[h + 4 + |body|..]
  {
  }

  // The checksum summed from the end, as Decode does.
  function ChecksumFrom(s: seq<Byte>, i: nat): Byte
    requires i <= |s|
    decreases |s| - i
  {
    if i == |s| then 0 else AddByte(ChecksumFrom(s, i + 1), s[i])
  }

  lemma {:induction false} ChecksumBackwards(s: seq<Byte>, i: nat)
    requires i <= |s|
    ensures ChecksumFrom(s, i) == Checksum(s[i..])
    decreases |s| - i
  {
    if i < |s| {
      ChecksumBackwards(s, i + 1);
      assert s[i..] == [s[i]] + s[i + 1..];
      ChecksumFront(s[i], s[i + 1..]);
    }
  }

  lemma AddAssoc(a: Byte, b: Byte, c: Byte)
    ensures AddByte(AddByte(a, b), c) == AddByte(a, AddByte(b, c))
  {
  }

  lemma ChecksumLast(s: seq<Byte>, b: Byte)
    ensures Checksum(s + [b]) == AddByte(Checksum(s), b)
  {
    assert (s + [b])[..|s|] == s;
  }

  lemma {:induction false} ChecksumFront(b: Byte, s: seq<Byte>)
    ensures Checksum([b] + s) == AddByte(b, Checksum(s))
  {
    if s == [] {
      assert [b] + s == [] + [b];
      ChecksumLast([], b);
    } else {
      var n := |s| - 1;
      assert s == s[..n] + [s[n]] && [b] + s == ([b] + s[..n]) + [s[n]];
      ChecksumFront(b, s[..n]);
      ChecksumLast(s[..n], s[n]);
      ChecksumLast([b] + s[..n], s[n]);
      AddAssoc(b, Checksum(s[..n]), s[n]);
    }
  }

  // Header and cipher around the n payload bytes at buf[header + 5..].
  method EncodeAt(buf: array<Byte>, header: nat, n: nat, code: Byte, rkey: Byte, ekey: Byte)
    requires header + HEADER_SIZE + n <= buf.Length && n < 65536
    modifies buf
    ensures var body := old(buf[header + HEADER_SIZE..header + HEADER_SIZE + n]);
      buf[..] == old(buf[..header]) + Frame(code, ekey, rkey, body) + old(buf[header + HEADER_SIZE + n..])
  {
    hide Chain, Checksum, LenLo, LenHi, Patch, Head;
    ghost var was := buf[..];
    var payload := header + HEADER_SIZE;
    ghost var body := was[payload..payload + n];
    var checksum := SumBytes(buf, payload, n);
    WriteHeader(buf, header, code, n, rkey, checksum);
    ghost var mid := buf[..];
    ghost var head := Head(code, n, rkey);
    AfterHeader(was, payload, n, head, checksum, mid);
    MaskBody(buf, header + 4, n, rkey, ekey);
    ghost var cipher := EncodeBody(body, rkey, ekey);
    assert Frame(code, ekey, rkey, body) == head + cipher;
    assert mid[header + 4..header + 4 + n + 1] == [checksum] + body;
    EncodedBytes(was, header, head, checksum, mid, cipher);
  }

  // Decodes the frame at buf[header..] in place; tells whether the checksums agree.
  method DecodeAt(buf: array<Byte>, header: nat, ekey: Byte) returns (ok: bool)
    requires header + HEADER_SIZE <= buf.Length
    requires header + HEADER_SIZE + Word(buf[header + 1], buf[header + 2]) <= buf.Length
    modifies buf
    ensures var len := Word(old(buf[header + 1]), old(buf[header + 2])); var rk := old(buf[header + 3]);
      var body := old(buf[header + 4..header + HEADER_SIZE + len]);
      && buf[..] == old(buf[..header + 4]) + DecodeBody(body, rk, ekey) + old(buf[header + HEADER_SIZE + len..])
      && ok == Accepts(body, rk, ekey)
  {
    hide Unchain, Checksum, Word, Patch;
    var rk := buf[header + 3];
    var len := Word(buf[header + 1], buf[header + 2]);
    ghost var was := buf[..];
    ghost var once := Unchain(was[header + 4..header + HEADER_SIZE + len], ekey);
    ghost var plain := Unchain(once, rk);
    PatchTwice(was, header + 4, once, plain);
    var ignored := UnmaskBody(buf, header + 4, len, ekey);
    var checksum := UnmaskBody(buf, header + 4, len, rk);
    assert buf[..] == was[..header + 4] + plain + was[header + HEADER_SIZE + len..];
    assert buf[..][header + 4] == plain[0];
    ok := buf[header + 4] == checksum;
  }

  lemma Slice(s: seq<Byte>, from: nat, to: nat, a: nat, b: nat)
    requires from <= to <= |s| && a <= b <= to - from
    ensures s[from..to][a..b] == s[from + a..from + b]
  {
    assert forall k :: 0 <= k < b - a ==> s[from..to][a..b][k] == s[from + a + k];
  }

  class XorPacketEncoder {
    const headerCode: Byte
    const encryptKey: Byte
    const maxPayloadLen: nat

    constructor (headerCode: Byte, encryptKey: Byte, maxPayloadLen: nat)
      ensures this.headerCode == headerCode && this.encryptKey == encryptKey && this.maxPayloadLen == maxPayloadLen
    {
      this.headerCode, this.encryptKey, this.maxPayloadLen := headerCode, encryptKey, maxPayloadLen;
    }

    // The header goes into the reserve before Front. `rkey` is the byte rand() yields. A packet
    // of more than 65535 bytes has only its first (size mod 65536) encoded, as WORD dictates.
    method Encode(packet: Packet, rkey: Byte)
      requires packet.Valid() && (packet.encodeFlag || HEADER_SIZE <= packet.front)
      modifies packet, packet.buffer
      ensures packet.Valid() && packet.encodeFlag && packet.rear == old(packet.rear)
      ensures old(packet.encodeFlag) ==>
              packet.front == old(packet.front) && packet.buffer[..] == old(packet.buffer[..])
      ensures !old(packet.encodeFlag) ==>
        var f := old(packet.front); var n := |old(packet.Data())| % 65536;
        && packet.front == f - HEADER_SIZE
        && packet.buffer[..] == old(packet.buffer[..f - HEADER_SIZE])
                                + Frame(headerCode, encryptKey, rkey, old(packet.Data())[..n])
                                + old(packet.buffer[f + n..])
    {
      if packet.encodeFlag {
        return;
      }
      var payloadSize := (packet.rear - packet.front) % 65536;
      assert packet.buffer[packet.front..packet.front + payloadSize] == packet.Data()[..payloadSize];
      var moved := packet.MoveReadPos(-HEADER_SIZE);
      EncodeAt(packet.buffer, packet.front, payloadSize, headerCode, rkey, encryptKey);
      packet.encodeFlag := true;
    }

    // Undoes Encode in two reverse passes; on failure the body is left as decoded.
    method Decode(packet: Packet) returns (ok: bool)
      requires packet.Valid() && HEADER_SIZE <= |packet.Data()|
      requires HEADER_SIZE + Word(packet.Data()[1], packet.Data()[2]) <= |packet.Data()|
      modifies packet`front, packet.buffer
      ensures packet.Valid()
      ensures var d := old(packet.Data()); var len := Word(d[1], d[2]); var body := d[4..HEADER_SIZE + len];
        && ok == Accepts(body, d[3], encryptKey)
        && packet.front == old(packet.front) + (if ok then HEADER_SIZE else 0)
        && packet.buffer[..] == old(packet.buffer[..packet.front + 4]) + DecodeBody(body, d[3], encryptKey)
                                + old(packet.buffer[packet.front + HEADER_SIZE + len..])
    {
      hide Word, Accepts, DecodeBody;
      ghost var d, was, f := packet.Data(), packet.buffer[..], packet.front;
      assert d[1] == was[f + 1] && d[2] == was[f + 2] && d[3] == was[f + 3];
      Slice(was, f, packet.rear, 4, HEADER_SIZE + Word(d[1], d[2]));
      ok := DecodeAt(packet.buffer, packet.front, encryptKey);
      if ok {
        var moved := packet.MoveReadPos(HEADER_SIZE);
      }
    }

    function GetHeaderSize(): nat {
      HEADER_SIZE
    }

    predicate VerifyHeaderMagic(header: seq<Byte>)
      requires |header| >= HEADER_SIZE
    {
      header[0] == headerCode
    }

    // None when the length exceeds the configured maximum; 0 means no maximum.
    function PeekPayloadLength(header: seq<Byte>): (r: Peeked)
      requires |header| >= HEADER_SIZE
    {
      var len := Word(header[1], header[2]);
      if maxPayloadLen != 0 && len > maxPayloadLen then Exceeds else Length(len)
    }
  }

  datatype Peeked = Exceeds | Length(len: nat)

  // A whole frame stands in the packet, which is marked as encoded.
  method EncodeOnce(enc: XorPacketEncoder, packet: Packet, rkey: Byte)
    requires packet.Valid() && !packet.encodeFlag && HEADER_SIZE <= packet.front && |packet.Data()| < 65536
    modifies packet, packet.buffer
    ensures packet.Valid() && packet.encodeFlag
    ensures packet.front == old(packet.front) - HEADER_SIZE && packet.rear == old(packet.rear)
    ensures packet.buffer[..] == old(packet.buffer[..packet.front - HEADER_SIZE])
                                 + Frame(enc.headerCode, enc.encryptKey, rkey, old(packet.Data()))
                                 + old(packet.buffer[packet.rear..])
  {
    hide Frame;
    ghost var payload := packet.Data();
    assert payload[..|payload| % 65536] == payload;
    enc.Encode(packet, rkey);
  }

  // Encoding twice is encoding once.
  method EncodeTwice(enc: XorPacketEncoder, packet: Packet, rkey: Byte, again: Byte)
    requires packet.Valid() && !packet.encodeFlag && HEADER_SIZE <= packet.front && |packet.Data()| < 65536
    modifies packet, packet.buffer
    ensures packet.Valid() && packet.front == old(packet.front) - HEADER_SIZE && packet.rear == old(packet.rear)
    ensures var frame := Frame(enc.headerCode, enc.encryptKey, rkey, old(packet.Data()));
      && packet.Data() == frame
      && packet.buffer[..] == old(packet.buffer[..packet.front - HEADER_SIZE]) + frame
          + old(packet.buffer[packet.rear..])
  {
    hide Frame;
    ghost var was, f, payload := packet.buffer[..], packet.front, packet.Data();
    EncodeOnce(enc, packet, rkey);
    enc.Encode(packet, again);
    EncodedBuffer(was, f, |payload|, Frame(enc.headerCode, enc.encryptKey, rkey, payload), packet.buffer[..]);
  }

  // Encode, Encode again, Decode, in terms of the whole buffer.
  method ThereAndBack(enc: XorPacketEncoder, packet: Packet, rkey: Byte, again: Byte, ghost payload: seq<Byte>)
    returns (ok: bool)
    requires packet.Valid() && !packet.encodeFlag && HEADER_SIZE <= packet.front
    requires payload == packet.Data() && |payload| < 65536
    modifies packet, packet.buffer
    ensures ok && packet.Valid() && packet.front == old(packet.front) && packet.rear == old(packet.rear)
    ensures var frame := Frame(enc.headerCode, enc.encryptKey, rkey, payload);
      var mid := old(packet.buffer[..packet.front - HEADER_SIZE]) + frame + old(packet.buffer[packet.rear..]);
      packet.buffer[..] == mid[..packet.front - 1] + ([Checksum(payload)] + payload) + mid[packet.rear..]
  {
    hide Frame, Checksum;
    EncodeTwice(enc, packet, rkey, again);
    ok := DecodeFrame(enc, packet, rkey, payload);
  }

  /** In place, Decode undoes Encode: it accepts, the payload and both positions are back, nothing
      outside the frame was touched, and encoding twice is encoding once. */
  method EncodeThenDecode(enc: XorPacketEncoder, packet: Packet, rkey: Byte, again: Byte) returns (ok: bool)
    requires packet.Valid() && !packet.encodeFlag && HEADER_SIZE <= packet.front && |packet.Data()| < 65536
    modifies packet, packet.buffer
    ensures ok && packet.Valid()
    ensures packet.Data() == old(packet.Data()) && packet.front == old(packet.front) && packet.rear == old(packet.rear)
    ensures packet.buffer[..packet.front - HEADER_SIZE] == old(packet.buffer[..packet.front - HEADER_SIZE])
    ensures packet.buffer[packet.rear..] == old(packet.buffer[packet.rear..])
  {
    hide Frame, Checksum;
    ghost var was, f, payload := packet.buffer[..], packet.front, packet.Data();
    ghost var frame := Frame(enc.headerCode, enc.encryptKey, rkey, payload);
    ok := ThereAndBack(enc, packet, rkey, again, payload);
    DecodedBuffer(was, f, payload, frame, was[..f - HEADER_SIZE] + frame + was[packet.rear..], Checksum(payload),
                  packet.buffer[..]);
  }

  // Decode on a packet that holds exactly the frame of `payload`.
  method DecodeFrame(enc: XorPacketEncoder, packet: Packet, rkey: Byte, ghost payload: seq<Byte>) returns (ok: bool)
    requires packet.Valid() && |payload| < 65536
    requires packet.Data() == Frame(enc.headerCode, enc.encryptKey, rkey, payload)
    modifies packet`front, packet.buffer
    ensures ok && packet.Valid() && packet.front == old(packet.front) + HEADER_SIZE
    ensures packet.buffer[..] == old(packet.buffer[..packet.front + 4]) + ([Checksum(payload)] + payload)
                                 + old(packet.buffer[packet.front + HEADER_SIZE + |payload|..])
  {
    hide Frame, Accepts, DecodeBody, EncodeBody, Checksum, Word;
    FrameFields(enc.headerCode, enc.encryptKey, rkey, payload);
    RoundTrip(payload, rkey, enc.encryptKey);
    ok := enc.Decode(packet);
  }

  lemma EncodedBuffer(was: seq<Byte>, f: nat, n: nat, frame: seq<Byte>, mid: seq<Byte>)
    requires HEADER_SIZE <= f && f + n <= |was| && |frame| == HEADER_SIZE + n
    requires mid == was[..f - HEADER_SIZE] + frame + was[f + n..]
    ensures |mid| == |was| && mid[f - HEADER_SIZE..f + n] == frame
  {
  }

  lemma DecodedBuffer(was: seq<Byte>, f: nat, payload: seq<Byte>, frame: seq<Byte>, mid: seq<Byte>,
                      sum: Byte, end: seq<Byte>)
    requires HEADER_SIZE <= f && f + |payload| <= |was| && |frame| == HEADER_SIZE + |payload|
    requires mid == was[..f - HEADER_SIZE] + frame + was[f + |payload|..]
    requires end == mid[..f - 1] + ([sum] + payload) + mid[f + |payload|..]
    ensures |end| == |was| && end[f..f + |payload|] == payload
    ensures end[..f - HEADER_SIZE] == was[..f - HEADER_SIZE]
    ensures end[f + |payload|..] == was[f + |payload|..]
  {
  }

  lemma HeadFields(code: Byte, len: nat, rkey: Byte, body: seq<Byte>)
    requires len < 65536 && |body| == len + 1
    ensures var d := Head(code, len, rkey) + body;
      Word(d[1], d[2]) == len && d[3] == rkey && d[4..HEADER_SIZE + len] == body
  {
    hide Word, LenLo, LenHi;
    WordOfBytes(len);
  }

  lemma FrameFields(code: Byte, ekey: Byte, rkey: Byte, payload: seq<Byte>)
    requires |payload| < 65536
    ensures var d := Frame(code, ekey, rkey, payload); var len := |payload|;
      Word(d[1], d[2]) == len && d[3] == rkey && d[4..HEADER_SIZE + len] == EncodeBody(payload, rkey, ekey)
  {
    hide Word, Head, EncodeBody;
    HeadFields(code, |payload|, rkey, EncodeBody(payload, rkey, ekey));
  }
}
