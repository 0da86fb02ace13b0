/** Cutting the received byte stream into frames: what NetServer's receive loop delivers, however
    the stream is split into receives. */
module Framing {
  import opened XorCipher
  import opened XorPacketEncoders

  datatype Config = Config(code: Byte, ekey: Byte, maxLen: nat)

  /** What a run of the receive loop delivers, what it leaves in RecvQ, and whether it closed the
      session. */
  datatype Parsed = Parsed(delivered: seq<seq<Byte>>, rest: seq<Byte>, killed: bool)

  function LenOf(s: seq<Byte>): nat
    requires |s| >= HEADER_SIZE
  {
    Word(s[1], s[2])
  }

  predicate TooLong(c: Config, s: seq<Byte>)
    requires |s| >= HEADER_SIZE
  {
    c.maxLen != 0 && LenOf(s) > c.maxLen
  }

  // The frame at the head of s is there in full.
  predicate Complete(s: seq<Byte>) {
    |s| > HEADER_SIZE && |s| >= HEADER_SIZE + LenOf(s)
  }

  function BodyOf(s: seq<Byte>): (b: seq<Byte>)
    requires Complete(s)
    ensures |b| == LenOf(s) + 1
  {
    s[4..HEADER_SIZE + LenOf(s)]
  }

  function PayloadOf(c: Config, s: seq<Byte>): (p: seq<Byte>)
    requires Complete(s)
  {
    DecodeBody(BodyOf(s), s[3], c.ekey)[1..]
  }

  // The loop stops at an incomplete frame, or closes the session at one it cannot accept.
  predicate Closes(c: Config, s: seq<Byte>) {
    |s| > HEADER_SIZE && (s[0] != c.code || TooLong(c, s) || (Complete(s) && !Accepts(BodyOf(s), s[3], c.ekey)))
  }

  function Parse(c: Config, s: seq<Byte>): Parsed
    decreases |s|
  {
    if Closes(c, s) then Parsed([], s, true)
    else if !Complete(s) then Parsed([], s, false)
    else
      var p := Parse(c, s[HEADER_SIZE + LenOf(s)..]);
      p.(delivered := [PayloadOf(c, s)] + p.delivered)
  }

  // ---- splitting ----

  lemma Assoc<T>(a: seq<T>, b: seq<T>, c: seq<T>)
    ensures (a + b) + c == a + (b + c)
  {
  }

  // More bytes do not change what the head of a stream is.
  lemma HeadOfLonger(c: Config, a: seq<Byte>, b: seq<Byte>)
    requires |a| > HEADER_SIZE
    ensures LenOf(a + b) == LenOf(a)
    ensures Complete(a) ==> Complete(a + b) && BodyOf(a + b) == BodyOf(a) && (a + b)[3] == a[3]
    ensures Complete(a) ==> (a + b)[HEADER_SIZE + LenOf(a)..] == a[HEADER_SIZE + LenOf(a)..] + b
    ensures Complete(a) || Closes(c, a) ==> Closes(c, a + b) == Closes(c, a)
  {
    assert (a + b)[0] == a[0] && (a + b)[1] == a[1] && (a + b)[2] == a[2] && (a + b)[3] == a[3];
    if Complete(a) {
      assert BodyOf(a + b) == BodyOf(a);
    }
  }

  lemma {:induction false} ParseSplit(c: Config, a: seq<Byte>, b: seq<Byte>)
    ensures var p, q := Parse(c, a), Parse(c, a + b);
      if p.killed then q.killed && q.delivered == p.delivered
      else q == Parse(c, p.rest + b).(delivered := p.delivered + Parse(c, p.rest + b).delivered)
    decreases |a|
  {
    if Closes(c, a) {
      HeadOfLonger(c, a, b);
    } else if Complete(a) {
      HeadOfLonger(c, a, b);
      var tail := a[HEADER_SIZE + LenOf(a)..];
      ParseSplit(c, tail, b);
      ParseNext(c, a);
      ParseNext(c, a + b);
      var p := Parse(c, tail);
      Assoc([PayloadOf(c, a)], p.delivered, Parse(c, p.rest + b).delivered);
    } else {
      ParseNothing(c, a);
      assert [] + Parse(c, a + b).delivered == Parse(c, a + b).delivered;
    }
  }

  lemma ParseNothing(c: Config, s: seq<Byte>)
    requires !Complete(s) && !Closes(c, s)
    ensures Parse(c, s) == Parsed([], s, false)
  {
  }

  lemma ParseNext(c: Config, s: seq<Byte>)
    requires Complete(s) && !Closes(c, s)
    ensures var p := Parse(c, s[HEADER_SIZE + LenOf(s)..]);
      Parse(c, s) == Parsed([PayloadOf(c, s)] + p.delivered, p.rest, p.killed)
  {
  }

  lemma {:induction false} RestIsStable(c: Config, s: seq<Byte>)
    ensures var p := Parse(c, s); !p.killed ==> Parse(c, p.rest) == Parsed([], p.rest, false)
    decreases |s|
  {
    if Complete(s) && !Closes(c, s) {
      RestIsStable(c, s[HEADER_SIZE + LenOf(s)..]);
    }
  }

  function Join(chunks: seq<seq<Byte>>): seq<Byte> {
    if chunks == [] then [] else chunks[0] + Join(chunks[1..])
  }

  /** The loop run once per receive; a closed session posts no further receive. */
  function Feed(c: Config, rest: seq<Byte>, chunks: seq<seq<Byte>>): Parsed
    decreases |chunks|
  {
    if chunks == [] then Parsed([], rest, false)
    else
      var p := Parse(c, rest + chunks[0]);
      if p.killed then p
      else
        var q := Feed(c, p.rest, chunks[1..]);
        q.(delivered := p.delivered + q.delivered)
  }

  /** For every byte stream and every way to split it into receives, the loop delivers what it
      would deliver from the whole stream at once, and closes the session in the same cases. */
  lemma {:induction false} SplittingDoesNotMatter(c: Config, rest: seq<Byte>, chunks: seq<seq<Byte>>)
    requires Parse(c, rest) == Parsed([], rest, false)
    ensures var p, q := Feed(c, rest, chunks), Parse(c, rest + Join(chunks));
      p.delivered == q.delivered && p.killed == q.killed && (!p.killed ==> p.rest == q.rest)
    decreases |chunks|
  {
    if chunks == [] {
      assert rest + Join(chunks) == rest;
    } else {
      var head, tail := chunks[0], Join(chunks[1..]);
      assert rest + Join(chunks) == rest + head + tail;
      ParseSplit(c, rest + head, tail);
      var p := Parse(c, rest + head);
      if !p.killed {
        RestIsStable(c, rest + head);
        SplittingDoesNotMatter(c, p.rest, chunks[1..]);
      }
    }
  }

  // ---- end to end ----

  datatype Message = Message(rkey: Byte, payload: seq<Byte>)

  predicate Sendable(c: Config, m: Message) {
    |m.payload| < 65536 && (c.maxLen != 0 ==> |m.payload| <= c.maxLen)
  }

  function FrameOf(c: Config, m: Message): seq<Byte>
    requires Sendable(c, m)
  {
    Frame(c.code, c.ekey, m.rkey, m.payload)
  }

  predicate AllSendable(c: Config, ms: seq<Message>) {
    forall k :: 0 <= k < |ms| ==> Sendable(c, ms[k])
  }

  function Frames(c: Config, ms: seq<Message>): (r: seq<seq<Byte>>)
    requires AllSendable(c, ms)
    ensures |r| == |ms|
  {
    if ms == [] then [] else [FrameOf(c, ms[0])] + Frames(c, ms[1..])
  }

  function Payloads(ms: seq<Message>): (r: seq<seq<Byte>>)
    ensures |r| == |ms|
  {
    if ms == [] then [] else [ms[0].payload] + Payloads(ms[1..])
  }

  lemma FrameFields(c: Config, m: Message, s: seq<Byte>)
    requires Sendable(c, m)
    ensures var f := FrameOf(c, m) + s;
      |f| >= HEADER_SIZE && f[0] == c.code && f[3] == m.rkey && LenOf(f) == |m.payload| && !TooLong(c, f)
  {
    HeadFields(c.code, |m.payload|, m.rkey, EncodeBody(m.payload, m.rkey, c.ekey) + s);
    Assoc(Head(c.code, |m.payload|, m.rkey), EncodeBody(m.payload, m.rkey, c.ekey), s);
  }

  lemma HeadFields(code: Byte, len: nat, rkey: Byte, tail: seq<Byte>)
    requires len < 65536
    ensures var f := Head(code, len, rkey) + tail; f[0] == code && Word(f[1], f[2]) == len && f[3] == rkey
  {
    WordOfBytes(len);
  }

  lemma FrameParses(c: Config, m: Message, s: seq<Byte>)
    requires Sendable(c, m) && |FrameOf(c, m) + s| > HEADER_SIZE
    ensures var f := FrameOf(c, m) + s;
      Complete(f) && !Closes(c, f) && PayloadOf(c, f) == m.payload && f[HEADER_SIZE + LenOf(f)..] == s
  {
    var f := FrameOf(c, m) + s;
    FrameFields(c, m, s);
    assert BodyOf(f) == EncodeBody(m.payload, m.rkey, c.ekey);
    RoundTrip(m.payload, m.rkey, c.ekey);
    assert ([Checksum(m.payload)] + m.payload)[1..] == m.payload;
  }

  lemma PartOfFrame(c: Config, m: Message, a: seq<Byte>)
    requires Sendable(c, m) && a <= FrameOf(c, m) && (a == FrameOf(c, m) ==> m.payload == [])
    ensures Parse(c, a) == Parsed([], a, false)
  {
    FrameFields(c, m, []);
    assert FrameOf(c, m) + [] == FrameOf(c, m);
    if |a| > HEADER_SIZE {
      assert a[0] == FrameOf(c, m)[0] && a[1] == FrameOf(c, m)[1] && a[2] == FrameOf(c, m)[2];
    }
  }

  /** A session is closed for a length over the limit as soon as the header is there, and for no other
      first part of a well-formed frame; 0 means no limit. */
  lemma KilledForLength(c: Config, rkey: Byte, payload: seq<Byte>, a: seq<Byte>)
    requires |payload| < 65536 && a <= Frame(c.code, c.ekey, rkey, payload) && |a| > HEADER_SIZE
    ensures Parse(c, a).killed <==> c.maxLen != 0 && |payload| > c.maxLen
    ensures Parse(c, a).killed ==> Parse(c, a).delivered == []
  {
    hide EncodeBody, DecodeBody, Frame, Parse;
    var f := Frame(c.code, c.ekey, rkey, payload);
    FrameBytes(c.code, c.ekey, rkey, payload);
    assert a[0] == f[0] && a[1] == f[1] && a[2] == f[2] && a[3] == f[3];
    if c.maxLen != 0 && |payload| > c.maxLen {
      ClosedNow(c, a);
    } else if |a| < |f| {
      ParseNothing(c, a);
    } else {
      var m := Message(rkey, payload);
      assert a == f == FrameOf(c, m) && FrameOf(c, m) + [] == f;
      FrameParses(c, m, []);
      ParseNext(c, f);
      ParseNothing(c, []);
    }
  }

  lemma ClosedNow(c: Config, s: seq<Byte>)
    requires Closes(c, s)
    ensures Parse(c, s) == Parsed([], s, true)
  {
  }

  // How far the loop gets with the first bytes `a` of a stream of frames fs: k whole messages,
  // then a part of the next frame. All of that frame is held only if it has no payload.
  predicate Progress(p: Parsed, fs: seq<seq<Byte>>, payloads: seq<seq<Byte>>, a: seq<Byte>, k: nat) {
    && k <= |fs| == |payloads|
    && !p.killed
    && p.delivered == payloads[..k]
    && a == Join(fs[..k]) + p.rest
    && (k > 0 && p.rest == [] ==> payloads[k - 1] != [])
    && (if k == |fs| then p.rest == [] else p.rest <= fs[k] && (p.rest == fs[k] ==> payloads[k] == []))
  }

  /** After any first part of an encoded stream, split in any way, exactly the first k payloads
      have been delivered and RecvQ holds a part of the next frame. */
  lemma {:induction false} PrefixProgress(c: Config, ms: seq<Message>, a: seq<Byte>) returns (k: nat)
    requires AllSendable(c, ms) && a <= Join(Frames(c, ms))
    ensures Progress(Parse(c, a), Frames(c, ms), Payloads(ms), a, k)
  {
    if ms == [] {
      k := 0;
      assert a == [];
    } else {
      var f, tail := FrameOf(c, ms[0]), Join(Frames(c, ms[1..]));
      JoinFrames(c, ms);
      CutStream(f, tail, a);
      if |a| < |f| || (a == f && ms[0].payload == []) {
        PartOfFrame(c, ms[0], a);
        k := 0;
        NoneYet(f, Frames(c, ms), Payloads(ms), a);
      } else {
        var n := PrefixProgress(c, ms[1..], a[|f|..]);
        k := n + 1;
        StepOver(c, ms, a, a[|f|..], n);
      }
    }
  }

  lemma JoinFrames(c: Config, ms: seq<Message>)
    requires AllSendable(c, ms) && ms != []
    ensures Frames(c, ms)[0] == FrameOf(c, ms[0]) && Frames(c, ms)[1..] == Frames(c, ms[1..])
    ensures Join(Frames(c, ms)) == FrameOf(c, ms[0]) + Join(Frames(c, ms[1..]))
    ensures Payloads(ms)[0] == ms[0].payload && Payloads(ms)[1..] == Payloads(ms[1..])
  {
  }

  lemma StepOver(c: Config, ms: seq<Message>, a: seq<Byte>, s: seq<Byte>, n: nat)
    requires AllSendable(c, ms) && ms != [] && a == FrameOf(c, ms[0]) + s
    requires s == [] ==> ms[0].payload != []
    requires Progress(Parse(c, s), Frames(c, ms[1..]), Payloads(ms[1..]), s, n)
    ensures Progress(Parse(c, a), Frames(c, ms), Payloads(ms), a, n + 1)
  {
    hide Parse, PayloadOf, Complete, Closes, Progress;
    JoinFrames(c, ms);
    FrameParses(c, ms[0], s);
    ParseNext(c, a);
    OneMore(Parse(c, s), FrameOf(c, ms[0]), Frames(c, ms), Payloads(ms), s, n);
  }

  lemma CutStream(f: seq<Byte>, tail: seq<Byte>, a: seq<Byte>)
    requires a <= f + tail
    ensures |a| <= |f| ==> a <= f
    ensures |a| >= |f| ==> a == f + a[|f|..] && a[|f|..] <= tail
  {
    if |a| >= |f| {
      assert a[|f|..] == (f + tail)[..|a|][|f|..] == tail[..|a| - |f|];
    }
  }

  lemma NoneYet(f: seq<Byte>, fs: seq<seq<Byte>>, ps: seq<seq<Byte>>, a: seq<Byte>)
    requires |fs| == |ps| > 0 && fs[0] == f && a <= f && (a == f ==> ps[0] == [])
    ensures Progress(Parsed([], a, false), fs, ps, a, 0)
  {
    assert fs[..0] == [];
  }

  // A whole frame in front of a stream in progress.
  lemma OneMore(p: Parsed, f: seq<Byte>, fs: seq<seq<Byte>>, ps: seq<seq<Byte>>, s: seq<Byte>, n: nat)
    requires |fs| == |ps| > 0 && fs[0] == f && Progress(p, fs[1..], ps[1..], s, n)
    requires s == [] ==> ps[0] != []
    ensures Progress(p.(delivered := [ps[0]] + p.delivered), fs, ps, f + s, n + 1)
  {
    assert fs[..n + 1][1..] == fs[1..][..n];
    assert ps[..n + 1] == [ps[0]] + ps[1..][..n];
    assert f + (Join(fs[1..][..n]) + p.rest) == Join(fs[..n + 1]) + p.rest;
    if n == 0 {
      assert fs[1..][..0] == [];
    }
  }

  lemma {:induction false} JoinSplit(fs: seq<seq<Byte>>, k: nat)
    requires k <= |fs|
    ensures Join(fs) == Join(fs[..k]) + Join(fs[k..])
  {
    if k > 0 {
      JoinSplit(fs[1..], k - 1);
      assert fs[..k][1..] == fs[1..][..k - 1] && fs[k..] == fs[1..][k - 1..];
    } else {
      assert fs[..0] == [] && fs[0..] == fs;
    }
  }

  lemma {:induction false} FramesAt(c: Config, ms: seq<Message>, k: nat)
    requires AllSendable(c, ms) && k < |ms|
    ensures Frames(c, ms)[k] == FrameOf(c, ms[k]) && Payloads(ms)[k] == ms[k].payload
  {
    if k > 0 {
      FramesAt(c, ms[1..], k - 1);
    }
  }

  // What is left of a whole stream starts with frame k, and no frame is empty: k is the last.
  lemma HeldIsLast(fs: seq<seq<Byte>>, rest: seq<Byte>, k: nat)
    requires k < |fs| && Join(fs) == Join(fs[..k]) + rest && rest <= fs[k]
    requires forall j :: 0 <= j < |fs| ==> fs[j] != []
    ensures k == |fs| - 1 && rest == fs[k]
  {
    JoinSplit(fs, k);
    assert rest == Join(fs[k..]) == fs[k] + Join(fs[k..][1..]) by {
      assert Join(fs)[|Join(fs[..k])|..] == rest;
    }
    assert |Join(fs[k..][1..])| == 0;
    if k + 1 < |fs| {
      assert fs[k..][1..] == fs[k + 1..] && Join(fs[k + 1..]) == fs[k + 1] + Join(fs[k + 1..][1..]);
    }
  }

  /** Encode, concatenate, split anywhere, receive: the payloads come out in order, all of them,
      except that a final empty payload is held back until a byte follows. */
  lemma EndToEnd(c: Config, ms: seq<Message>, chunks: seq<seq<Byte>>)
    requires AllSendable(c, ms) && Join(chunks) == Join(Frames(c, ms))
    ensures var p := Feed(c, [], chunks);
      && !p.killed
      && (if ms != [] && ms[|ms| - 1].payload == []
          then p.delivered == Payloads(ms)[..|ms| - 1] && p.rest == FrameOf(c, ms[|ms| - 1])
          else p.delivered == Payloads(ms) && p.rest == [])
  {
    var s := Join(chunks);
    assert Parse(c, []) == Parsed([], [], false);
    SplittingDoesNotMatter(c, [], chunks);
    assert [] + s == s;
    var k := PrefixProgress(c, ms, s);
    WholeStream(c, ms, Parse(c, s), s, k);
  }

  lemma WholeStream(c: Config, ms: seq<Message>, p: Parsed, s: seq<Byte>, k: nat)
    requires AllSendable(c, ms) && s == Join(Frames(c, ms))
    requires Progress(p, Frames(c, ms), Payloads(ms), s, k)
    ensures if ms != [] && ms[|ms| - 1].payload == []
            then p.delivered == Payloads(ms)[..|ms| - 1] && p.rest == FrameOf(c, ms[|ms| - 1])
            else p.delivered == Payloads(ms) && p.rest == []
  {
    var fs := Frames(c, ms);
    if ms != [] {
      FramesAt(c, ms, |ms| - 1);
    }
    if k < |ms| {
      forall j | 0 <= j < |fs| ensures fs[j] != [] {
        FramesAt(c, ms, j);
      }
      HeldIsLast(fs, p.rest, k);
    } else {
      assert Payloads(ms)[..k] == Payloads(ms);
    }
  }

  /** Receiving any first part of an encoded stream never closes the session, and what is kept for
      the next receive stays below one frame. */
  lemma RoomRemains(c: Config, ms: seq<Message>, chunks: seq<seq<Byte>>, cap: nat)
    requires AllSendable(c, ms) && Join(chunks) <= Join(Frames(c, ms))
    requires forall k :: 0 <= k < |ms| ==> |ms[k].payload| <= cap
    ensures var p := Feed(c, [], chunks); !p.killed && p.delivered <= Payloads(ms) && |p.rest| <= HEADER_SIZE + cap
  {
    var s := Join(chunks);
    assert Parse(c, []) == Parsed([], [], false);
    SplittingDoesNotMatter(c, [], chunks);
    assert [] + s == s;
    var k := PrefixProgress(c, ms, s);
    RestBound(c, ms, Parse(c, s), s, k, cap);
  }

  lemma RestBound(c: Config, ms: seq<Message>, p: Parsed, a: seq<Byte>, k: nat, cap: nat)
    requires AllSendable(c, ms) && Progress(p, Frames(c, ms), Payloads(ms), a, k)
    requires forall k :: 0 <= k < |ms| ==> |ms[k].payload| <= cap
    ensures p.delivered <= Payloads(ms) && |p.rest| <= HEADER_SIZE + cap
  {
    if k < |ms| {
      FramesAt(c, ms, k);
    }
  }
}
