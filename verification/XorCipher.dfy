/** The byte transform of XorPacketEncoder: each pass masks a byte with the previous output byte,
    a key and the position; encoding is two passes, decoding undoes them. */
module XorCipher {

  type Byte = b: int | 0 <= b < 256

  function Two(n: nat): nat {
    if n == 0 then 1 else 2 * Two(n - 1)
  }

  // Exclusive or of the low n bits, the highest first.
  function XorBits(a: nat, b: nat, n: nat): (r: nat)
    ensures r < Two(n)
  {
    if n == 0 then 0
    else
      var high := Two(n - 1);
      if a < high then (if b < high then XorBits(a, b, n - 1) else high + XorBits(a, b - high, n - 1))
      else (if b < high then high + XorBits(a - high, b, n - 1) else XorBits(a - high, b - high, n - 1))
  }

  lemma EightBits()
    ensures Two(8) == 256
  {
    assert Two(4) == 16;
  }

  function Xor(a: Byte, b: Byte): Byte {
    EightBits();
    XorBits(a, b, 8)
  }

  function Prev(s: seq<Byte>, j: nat): Byte
    requires j <= |s|
  {
    if j == 0 then 0 else s[j - 1]
  }

  // Addition of two bytes, wrapping around.
  function AddByte(a: Byte, b: Byte): Byte {
    if a + b < 256 then a + b else a + b - 256
  }

  // What byte j (position j + 1 in the code's count) is XOR-ed with, given the byte before it.
  function Mask(prev: Byte, key: Byte, j: nat): Byte {
    AddByte(AddByte(prev, key), (j + 1) % 256)
  }

  /** One encoding pass: each output byte depends on the output byte before it. */
  function Chain(x: seq<Byte>, key: Byte): (r: seq<Byte>)
    ensures |r| == |x|
  {
    if x == [] then []
    else
      var n := |x| - 1;
      var r := Chain(x[..n], key);
      r + [Xor(x[n], Mask(Prev(r, n), key, n))]
  }

  /** One decoding pass. */
  function Unchain(c: seq<Byte>, key: Byte): (r: seq<Byte>)
    ensures |r| == |c|
  {
    if c == [] then []
    else
      var n := |c| - 1;
      Unchain(c[..n], key) + [Xor(c[n], Mask(Prev(c, n), key, n))]
  }

  function Checksum(s: seq<Byte>): Byte {
    if s == [] then 0 else AddByte(Checksum(s[..|s| - 1]), s[|s| - 1])
  }

  function EncodeBody(payload: seq<Byte>, rkey: Byte, ekey: Byte): (body: seq<Byte>)
    ensures |body| == |payload| + 1
  {
    Chain(Chain([Checksum(payload)] + payload, rkey), ekey)
  }

  function DecodeBody(body: seq<Byte>, rkey: Byte, ekey: Byte): (plain: seq<Byte>)
    ensures |plain| == |body|
  {
    Unchain(Unchain(body, ekey), rkey)
  }

  predicate Accepts(body: seq<Byte>, rkey: Byte, ekey: Byte)
    requires body != []
  {
    var plain := DecodeBody(body, rkey, ekey);
    plain[0] == Checksum(plain[1..])
  }

  // ---- what the passes compute, in plain arithmetic ----

  /** Exclusive or, bit by bit: the lowest bits add without carry, and the rest is that of the halves. */
  lemma XorByBits(a: Byte, b: Byte)
    ensures Xor(a, b) % 2 == (a + b) % 2
    ensures Xor(a, b) / 2 == Xor(a / 2, b / 2)
  {
    EightBits();
    XorHalves(a, b, 8);
    assert Two(7) == 128;
    XorNarrow(a / 2, b / 2, 7, 8);
  }

  // The highest bit apart from the rest.
  lemma HighBit(a: nat, b: nat, n: nat)
    requires n > 0
    ensures var high := Two(n - 1);
      XorBits(a, b, n) == (if a < high <==> b < high then 0 else high) +
                          XorBits(if a < high then a else a - high, if b < high then b else b - high, n - 1)
  {
  }

  lemma Halved(a: nat, half: nat)
    ensures a < 2 * half <==> a / 2 < half
    ensures a >= 2 * half ==> (a - 2 * half) / 2 == a / 2 - half && (a - 2 * half) % 2 == a % 2
  {
  }

  lemma {:induction false} XorHalves(a: nat, b: nat, n: nat)
    requires n > 0 && a < Two(n) && b < Two(n)
    ensures XorBits(a, b, n) % 2 == (a + b) % 2
    ensures XorBits(a, b, n) / 2 == XorBits(a / 2, b / 2, n - 1)
  {
    hide XorBits;
    HighBit(a, b, n);
    if n == 1 {
      NoBits(0, 0);
      NoBits(a / 2, b / 2);
    } else {
      var high, half := Two(n - 1), Two(n - 2);
      HighBit(a / 2, b / 2, n - 1);
      Halved(a, half);
      Halved(b, half);
      var a', b' := if a < high then a else a - high, if b < high then b else b - high;
      XorHalves(a', b', n - 1);
      HalvesJoin(a, b, a', b', half, XorBits(a', b', n - 1), if a < high <==> b < high then 0 else high);
    }
  }

  lemma NoBits(a: nat, b: nat)
    ensures XorBits(a, b, 0) == 0
  {
  }

  lemma HalvesJoin(a: nat, b: nat, a': nat, b': nat, half: nat, x: nat, top: nat)
    requires a' % 2 == a % 2 && b' % 2 == b % 2 && x % 2 == (a' + b') % 2 && (top == 0 || top == 2 * half)
    ensures (top + x) % 2 == (a + b) % 2 && (top + x) / 2 == (if top == 0 then 0 else half) + x / 2
  {
  }

  lemma MaskIs(prev: Byte, key: Byte, j: nat)
    ensures Mask(prev, key, j) == (prev + key + j + 1) % 256
  {
  }

  /** Byte k of y is that of x masked: the mask adds the byte of y before, the key and the position,
      counted from 1. */
  ghost predicate MaskedAt(x: seq<Byte>, key: Byte, y: seq<Byte>, k: nat)
    requires k < |x| == |y|
  {
    y[k] == Xor(x[k], ((if k == 0 then 0 else y[k - 1]) + key + k + 1) % 256)
  }

  /** Byte k of y is that of c with such a mask taken off. */
  ghost predicate UnmaskedAt(c: seq<Byte>, key: Byte, y: seq<Byte>, k: nat)
    requires k < |c| == |y|
  {
    y[k] == Xor(c[k], ((if k == 0 then 0 else c[k - 1]) + key + k + 1) % 256)
  }

  ghost predicate Masked(x: seq<Byte>, key: Byte, y: seq<Byte>) {
    |y| == |x| && forall k: nat :: k < |x| ==> MaskedAt(x, key, y, k)
  }

  ghost predicate Unmasked(c: seq<Byte>, key: Byte, y: seq<Byte>) {
    |y| == |c| && forall k: nat :: k < |c| ==> UnmaskedAt(c, key, y, k)
  }

  lemma ChainMasks(x: seq<Byte>, key: Byte)
    ensures Masked(x, key, Chain(x, key))
  {
    hide Chain, Xor, Mask;
    forall k: nat | k < |x| ensures MaskedAt(x, key, Chain(x, key), k) {
      ChainAt(x, key, k);
      MaskIs(Prev(Chain(x, key), k), key, k);
    }
  }

  lemma UnchainUnmasks(c: seq<Byte>, key: Byte)
    ensures Unmasked(c, key, Unchain(c, key))
  {
    hide Unchain, Xor, Mask;
    forall k: nat | k < |c| ensures UnmaskedAt(c, key, Unchain(c, key), k) {
      UnchainAt(c, key, k);
      MaskIs(Prev(c, k), key, k);
    }
  }

  /** Encoding masks checksum and payload with RKey, and the result with EncryptKey. */
  lemma EncodeRecurrence(payload: seq<Byte>, rkey: Byte, ekey: Byte) returns (p: seq<Byte>)
    ensures Masked([Sum(payload) % 256] + payload, rkey, p) && Masked(p, ekey, EncodeBody(payload, rkey, ekey))
  {
    hide Masked, Chain;
    var x := [Checksum(payload)] + payload;
    ChecksumIsSum(payload);
    ChainMasks(x, rkey);
    p := Chain(x, rkey);
    ChainMasks(p, ekey);
  }

  /** Decoding takes the two off again, the outer one first. */
  lemma DecodeRecurrence(body: seq<Byte>, rkey: Byte, ekey: Byte) returns (p: seq<Byte>)
    ensures Unmasked(body, ekey, p) && Unmasked(p, rkey, DecodeBody(body, rkey, ekey))
  {
    hide Unmasked, Unchain;
    UnchainUnmasks(body, ekey);
    p := Unchain(body, ekey);
    UnchainUnmasks(p, rkey);
  }

  lemma {:induction false} XorBitsCommute(a: nat, b: nat, n: nat)
    ensures XorBits(a, b, n) == XorBits(b, a, n)
  {
    if n > 0 {
      var high := Two(n - 1);
      XorBitsCommute(if a < high then a else a - high, if b < high then b else b - high, n - 1);
    }
  }

  lemma XorKeyDiffers(a: Byte, k: Byte, k': Byte)
    requires Xor(a, k) == Xor(a, k')
    ensures k == k'
  {
    XorBitsCommute(a, k, 8);
    XorBitsCommute(a, k', 8);
    XorTwice(k, a);
    XorTwice(k', a);
  }

  lemma FirstMasked(x: seq<Byte>, key: Byte, y: seq<Byte>)
    requires x != [] && Masked(x, key, y)
    ensures y[0] == Xor(x[0], (key + 1) % 256)
  {
    hide Xor;
    assert MaskedAt(x, key, y, 0);
  }

  lemma FirstByte(payload: seq<Byte>, rkey: Byte, ekey: Byte)
    ensures EncodeBody(payload, rkey, ekey)[0] == Xor(Xor(Checksum(payload), (rkey + 1) % 256), (ekey + 1) % 256)
  {
    hide EncodeBody, Xor, Checksum, Masked;
    ChecksumIsSum(payload);
    var p := EncodeRecurrence(payload, rkey, ekey);
    assert |p| > 0 by {
      SameLength([Sum(payload) % 256] + payload, rkey, p);
    }
    FirstMasked([Sum(payload) % 256] + payload, rkey, p);
    FirstMasked(p, ekey, EncodeBody(payload, rkey, ekey));
  }

  lemma SameLength(x: seq<Byte>, key: Byte, y: seq<Byte>)
    requires Masked(x, key, y)
    ensures |y| == |x|
  {
  }

  /** Both keys matter: the same payload under another RKey, or another EncryptKey, is another body. */
  lemma KeysMatter(payload: seq<Byte>, rkey: Byte, ekey: Byte, key: Byte)
    ensures EncodeBody(payload, rkey, ekey) == EncodeBody(payload, key, ekey) ==> rkey == key
    ensures EncodeBody(payload, rkey, ekey) == EncodeBody(payload, rkey, key) ==> ekey == key
  {
    hide EncodeBody, Xor, Checksum;
    FirstByte(payload, rkey, ekey);
    var p := Xor(Checksum(payload), (rkey + 1) % 256);
    if EncodeBody(payload, rkey, ekey) == EncodeBody(payload, key, ekey) {
      FirstByte(payload, key, ekey);
      XorTwice(p, (ekey + 1) % 256);
      XorTwice(Xor(Checksum(payload), (key + 1) % 256), (ekey + 1) % 256);
      XorKeyDiffers(Checksum(payload), (rkey + 1) % 256, (key + 1) % 256);
    }
    if EncodeBody(payload, rkey, ekey) == EncodeBody(payload, rkey, key) {
      FirstByte(payload, rkey, key);
      XorKeyDiffers(p, (ekey + 1) % 256, (key + 1) % 256);
    }
  }

  // ---- the passes are inverse ----

  lemma {:induction false} XorBitsTwice(a: nat, k: nat, n: nat)
    requires a < Two(n)
    ensures XorBits(XorBits(a, k, n), k, n) == a
  {
    if n > 0 {
      var high := Two(n - 1);
      XorBitsTwice(if a < high then a else a - high, if k < high then k else k - high, n - 1);
    }
  }

  lemma XorTwice(a: Byte, k: Byte)
    ensures Xor(Xor(a, k), k) == a
  {
    EightBits();
    XorBitsTwice(a, k, 8);
  }

  lemma {:induction false} ChainAt(x: seq<Byte>, key: Byte, j: nat)
    requires j < |x|
    ensures Chain(x, key)[j] == Xor(x[j], Mask(Prev(Chain(x, key), j), key, j))
    ensures Chain(x, key)[..j] == Chain(x[..j], key)
  {
    var n := |x| - 1;
    if j < n {
      ChainAt(x[..n], key, j);
      assert x[..n][..j] == x[..j];
    }
  }

  lemma {:induction false} UnchainAt(c: seq<Byte>, key: Byte, j: nat)
    requires j < |c|
    ensures Unchain(c, key)[j] == Xor(c[j], Mask(Prev(c, j), key, j))
    ensures Unchain(c, key)[..j] == Unchain(c[..j], key)
  {
    var n := |c| - 1;
    if j < n {
      UnchainAt(c[..n], key, j);
      assert c[..n][..j] == c[..j];
    }
  }

  lemma UnchainChain(x: seq<Byte>, key: Byte)
    ensures Unchain(Chain(x, key), key) == x
  {
    var c := Chain(x, key);
    forall j: nat | j < |x| ensures Unchain(c, key)[j] == x[j] {
      ChainAt(x, key, j);
      UnchainAt(c, key, j);
      XorTwice(x[j], Mask(Prev(c, j), key, j));
    }
  }

  lemma {:induction false} ChainUnchain(c: seq<Byte>, key: Byte)
    ensures Chain(Unchain(c, key), key) == c
  {
    if c != [] {
      var n := |c| - 1;
      var u := Unchain(c, key);
      UnchainAt(c, key, n);
      ChainUnchain(c[..n], key);
      assert Prev(c[..n], n) == Prev(c, n);
      ChainLast(u, key, c[..n]);
      XorTwice(c[n], Mask(Prev(c, n), key, n));
    }
  }

  lemma ChainLast(x: seq<Byte>, key: Byte, r: seq<Byte>)
    requires x != [] && r == Chain(x[..|x| - 1], key)
    ensures Chain(x, key) == r + [Xor(x[|x| - 1], Mask(Prev(r, |x| - 1), key, |x| - 1))]
  {
  }

  /** Decoding an encoded body gives back checksum and payload, and accepts. */
  lemma RoundTrip(payload: seq<Byte>, rkey: Byte, ekey: Byte)
    ensures DecodeBody(EncodeBody(payload, rkey, ekey), rkey, ekey) == [Checksum(payload)] + payload
    ensures Accepts(EncodeBody(payload, rkey, ekey), rkey, ekey)
  {
    var plain := [Checksum(payload)] + payload;
    UnchainChain(Chain(plain, rkey), ekey);
    UnchainChain(plain, rkey);
    assert plain[1..] == payload;
  }

  /** The decoder accepts exactly what the encoder produces: per length and keys, encoding is a
      bijection from payloads onto the accepted bodies. */
  lemma AcceptsExactlyEncodings(body: seq<Byte>, rkey: Byte, ekey: Byte)
    requires body != []
    ensures Accepts(body, rkey, ekey) <==> body == EncodeBody(DecodeBody(body, rkey, ekey)[1..], rkey, ekey)
  {
    var plain := DecodeBody(body, rkey, ekey);
    assert Chain(Chain(plain, rkey), ekey) == body by {
      ChainUnchain(Unchain(body, ekey), rkey);
      ChainUnchain(body, ekey);
    }
    if Accepts(body, rkey, ekey) {
      assert plain == [Checksum(plain[1..])] + plain[1..];
    }
    if body == EncodeBody(plain[1..], rkey, ekey) {
      RoundTrip(plain[1..], rkey, ekey);
    }
  }

  lemma EncodeInjective(p: seq<Byte>, q: seq<Byte>, rkey: Byte, ekey: Byte)
    requires EncodeBody(p, rkey, ekey) == EncodeBody(q, rkey, ekey)
    ensures p == q
  {
    RoundTrip(p, rkey, ekey);
    RoundTrip(q, rkey, ekey);
    assert p == ([Checksum(p)] + p)[1..] && q == ([Checksum(q)] + q)[1..];
  }

  // ---- how an altered byte spreads ----

  lemma XorDiffers(a: Byte, b: Byte, k: Byte)
    requires a != b
    ensures Xor(a, k) != Xor(b, k)
  {
    XorTwice(a, k);
    XorTwice(b, k);
  }

  lemma UnchainSpread(c: seq<Byte>, k: nat, b: Byte, key: Byte, m: nat)
    requires k < |c| && c[k] != b && m < |c|
    ensures m < k || m > k + 1 ==> Unchain(c[k := b], key)[m] == Unchain(c, key)[m]
    ensures m == k ==> Unchain(c[k := b], key)[m] != Unchain(c, key)[m]
  {
    UnchainAt(c, key, m);
    UnchainAt(c[k := b], key, m);
    if m == k {
      XorDiffers(c[k], b, Mask(Prev(c, k), key, k));
    }
  }

  /** Altering body byte k alters decoded byte k, possibly the two after it, and nothing else. */
  lemma ErrorSpread(body: seq<Byte>, k: nat, b: Byte, rkey: Byte, ekey: Byte, m: nat)
    requires k < |body| && body[k] != b && m < |body|
    ensures m < k || m > k + 2 ==> DecodeBody(body[k := b], rkey, ekey)[m] == DecodeBody(body, rkey, ekey)[m]
    ensures m == k ==> DecodeBody(body[k := b], rkey, ekey)[m] != DecodeBody(body, rkey, ekey)[m]
  {
    hide Unchain, Xor, Mask;
    var u, v := Unchain(body, ekey), Unchain(body[k := b], ekey);
    forall j: nat | j < |body| && (j < k || j > k + 1) ensures u[j] == v[j] {
      UnchainSpread(body, k, b, ekey, j);
    }
    UnchainSpread(body, k, b, ekey, k);
    UnchainAt(u, rkey, m);
    UnchainAt(v, rkey, m);
    if m == k {
      XorDiffers(u[k], v[k], Mask(Prev(u, k), rkey, k));
    }
  }

  /** A frame whose last body byte was altered is always rejected. */
  lemma LastByteIsProtected(body: seq<Byte>, b: Byte, rkey: Byte, ekey: Byte)
    requires body != [] && body[|body| - 1] != b
    requires Accepts(body, rkey, ekey)
    ensures !Accepts(body[|body| - 1 := b], rkey, ekey)
  {
    var n := |body| - 1;
    var x, y := DecodeBody(body, rkey, ekey), DecodeBody(body[n := b], rkey, ekey);
    assert x[..n] == y[..n] && x[n] != y[n] by {
      forall m: nat | m <= n ensures if m < n then x[m] == y[m] else x[m] != y[m] {
        ErrorSpread(body, n, b, rkey, ekey, m);
      }
    }
    ChecksumLast(x, y);
  }

  lemma ChecksumLast(x: seq<Byte>, y: seq<Byte>)
    requires |x| == |y| > 0 && x[..|x| - 1] == y[..|x| - 1] && x[|x| - 1] != y[|x| - 1]
    requires x[0] == Checksum(x[1..])
    ensures y[0] != Checksum(y[1..])
  {
    var n := |x| - 1;
    if n > 0 {
      assert x[0] == x[..n][0] == y[..n][0] == y[0];
      assert x[1..][..n - 1] == x[..n][1..] == y[..n][1..] == y[1..][..n - 1];
      AddDiffers(Checksum(x[1..][..n - 1]), x[n], y[n]);
    }
  }

  lemma AddDiffers(s: Byte, a: Byte, b: Byte)
    requires a != b
    ensures AddByte(s, a) != AddByte(s, b)
  {
  }

  // ---- exactly which alterations pass ----

  function Sum(s: seq<Byte>): nat {
    if s == [] then 0 else Sum(s[..|s| - 1]) + s[|s| - 1]
  }

  lemma {:induction false} ChecksumIsSum(s: seq<Byte>)
    ensures Checksum(s) == Sum(s) % 256
  {
    if s != [] {
      ChecksumIsSum(s[..|s| - 1]);
    }
  }

  // By how much byte m changed, if there is one.
  function Change(x: seq<Byte>, y: seq<Byte>, m: int): int
    requires |x| == |y|
  {
    if 0 <= m < |x| then y[m] as int - x[m] as int else 0
  }

  lemma {:induction false} SumChange(x: seq<Byte>, y: seq<Byte>, k: int)
    requires |x| == |y| && forall m: nat :: m < |x| && (m < k || m > k + 2) ==> y[m] == x[m]
    ensures Sum(y) - Sum(x) == Change(x, y, k) + Change(x, y, k + 1) + Change(x, y, k + 2)
  {
    if x != [] {
      var n := |x| - 1;
      SumChange(x[..n], y[..n], k);
    }
  }

  // The changes of three bytes together; byte 0, the checksum, counts against the others.
  function Balance(x: seq<Byte>, y: seq<Byte>, k: nat): int
    requires |x| == |y|
  {
    (if k == 0 then -Change(x, y, 0) else Change(x, y, k)) + Change(x, y, k + 1) + Change(x, y, k + 2)
  }

  lemma SumsBalance(x: seq<Byte>, y: seq<Byte>, k: nat)
    requires |x| == |y| > 0 && forall m: nat :: m < |x| && (m < k || m > k + 2) ==> y[m] == x[m]
    ensures (Sum(y[1..]) - y[0]) - (Sum(x[1..]) - x[0]) == Balance(x, y, k)
  {
    hide Sum;
    SumChange(x[1..], y[1..], k - 1);
  }

  lemma AcceptsSums(body: seq<Byte>, rkey: Byte, ekey: Byte)
    requires body != []
    ensures var x := DecodeBody(body, rkey, ekey);
      Accepts(body, rkey, ekey) <==> (Sum(x[1..]) - x[0]) % 256 == 0
  {
    hide DecodeBody, Checksum, Sum;
    ChecksumIsSum(DecodeBody(body, rkey, ekey)[1..]);
  }

  /** An accepted body with byte k altered still passes if and only if the changes of decoded bytes
      k, k + 1 and k + 2 balance modulo 256. The first of the three changes is never 0. */
  lemma AlteredBodyPassesExactly(body: seq<Byte>, k: nat, b: Byte, rkey: Byte, ekey: Byte)
    requires k < |body| && body[k] != b && Accepts(body, rkey, ekey)
    ensures var x, y := DecodeBody(body, rkey, ekey), DecodeBody(body[k := b], rkey, ekey);
      Change(x, y, k) != 0 && (Accepts(body[k := b], rkey, ekey) <==> Balance(x, y, k) % 256 == 0)
  {
    hide DecodeBody, Accepts, Sum, Balance;
    var x, y := DecodeBody(body, rkey, ekey), DecodeBody(body[k := b], rkey, ekey);
    forall m: nat | m < |body|
      ensures m < k || m > k + 2 ==> y[m] == x[m]
      ensures m == k ==> y[m] != x[m]
    {
      ErrorSpread(body, k, b, rkey, ekey, m);
    }
    SumsBalance(x, y, k);
    AcceptsSums(body, rkey, ekey);
    AcceptsSums(body[k := b], rkey, ekey);
  }

  // ---- the checksum is not a guarantee ----

  lemma {:induction false} XorNarrow(a: nat, b: nat, m: nat, n: nat)
    requires m <= n && a < Two(m) && b < Two(m)
    ensures XorBits(a, b, n) == XorBits(a, b, m)
  {
    if m < n {
      TwoGrows(m, n - 1);
      XorNarrow(a, b, m, n - 1);
    }
  }

  lemma {:induction false} TwoGrows(m: nat, n: nat)
    requires m <= n
    ensures Two(m) <= Two(n)
  {
    if m < n {
      TwoGrows(m, n - 1);
    }
  }

  lemma XorSmall(a: Byte, b: Byte)
    requires a < 8 && b < 8
    ensures Xor(a, b) == XorBits(a, b, 3)
  {
    assert Two(3) == 8;
    XorNarrow(a, b, 3, 8);
  }

  // One small byte unmasked with key 0.
  lemma UnchainSmall(c: seq<Byte>, j: nat, m: nat)
    requires j < |c| && c[j] < 8 && m == Prev(c, j) + j + 1 < 8
    ensures Unchain(c, 0)[j] == XorBits(c[j], m, 3)
  {
    hide Unchain, XorBits;
    UnchainAt(c, 0, j);
    assert Mask(Prev(c, j), 0, j) == m;
    XorSmall(c[j], m);
  }

  // Three bytes unmasked with key 0, given the three exclusive ors.
  lemma UnchainThree(c: seq<Byte>, x: Byte, y: Byte, z: Byte)
    requires |c| == 3 && c[0] < 4 && c[1] < 5 && c[2] < 8
    requires XorBits(c[0], 1, 3) == x && XorBits(c[1], c[0] + 2, 3) == y && XorBits(c[2], c[1] + 3, 3) == z
    ensures Unchain(c, 0) == [x, y, z]
  {
    UnchainSmall(c, 0, 1);
    UnchainSmall(c, 1, c[0] + 2);
    UnchainSmall(c, 2, c[1] + 3);
    ThreeBytes(Unchain(c, 0), x, y, z);
  }

  lemma ThreeBytes(u: seq<Byte>, x: Byte, y: Byte, z: Byte)
    requires |u| == 3 && u[0] == x && u[1] == y && u[2] == z
    ensures u == [x, y, z]
  {
  }

  lemma XorsOfBody()
    ensures XorBits(1, 1, 3) == 0 && XorBits(1, 3, 3) == 2 && XorBits(0, 4, 3) == 4
    ensures XorBits(0, 1, 3) == 1 && XorBits(2, 2, 3) == 0 && XorBits(4, 5, 3) == 1
  {
    assert Two(1) == 2 && Two(2) == 4;
  }

  lemma XorsOfBad()
    ensures XorBits(3, 1, 3) == 2 && XorBits(1, 5, 3) == 4
    ensures XorBits(2, 1, 3) == 3 && XorBits(4, 4, 3) == 0 && XorBits(4, 7, 3) == 3
  {
    assert Two(1) == 2 && Two(2) == 4;
  }

  lemma AlteredChecksums()
    ensures Checksum([0, 1]) == 1 && Checksum([0, 3]) == 3
  {
    assert [0 as Byte, 1][..1] == [0] && [0 as Byte, 3][..1] == [0] && [0 as Byte][..0] == [];
    assert Checksum([0]) == 0;
  }

  /** The 8-bit checksum does not catch every altered byte: with both keys 0 the body of payload
      [0, 1] passes with its first byte changed, as payload [0, 3]. AlteredBodyPassesExactly
      says which altered bodies pass. */
  lemma AlteredBodyCanPass()
    ensures EncodeBody([0, 1], 0, 0) == [1, 1, 0]
    ensures Accepts([1, 1, 0][0 := 3], 0, 0) && DecodeBody([1, 1, 0][0 := 3], 0, 0)[1..] == [0, 3]
  {
    hide Unchain, Chain, XorBits, Checksum;
    var body: seq<Byte> := [1, 1, 0];
    var bad: seq<Byte> := [3, 1, 0];
    assert body[0 := 3] == bad;
    XorsOfBody();
    XorsOfBad();
    UnchainThree(body, 0, 2, 4);
    UnchainThree([0, 2, 4], 1, 0, 1);
    UnchainThree(bad, 2, 4, 4);
    UnchainThree([2, 4, 4], 3, 0, 3);
    assert [1 as Byte, 0, 1][1..] == [0, 1] && [3 as Byte, 0, 3][1..] == [0, 3];
    AlteredChecksums();
    AcceptsExactlyEncodings(body, 0, 0);
  }
}
