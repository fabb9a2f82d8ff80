/**
 * Fixed-width integers, little-endian byte encodings and keystream
 * combination, as the C++ code uses them: `uint8`/`uint16`/`uint32` wrap
 * modulo 2^n, structs are laid out byte for byte in host (little-endian)
 * order, and the RC4 stream cipher transforms a buffer by XOR-ing each byte
 * with the next byte of its keystream.
 */
module Bytes {

  type byte = bv8
  type uint8 = x: int | 0 <= x < 0x100
  type uint16 = x: int | 0 <= x < 0x1_0000
  type uint32 = x: int | 0 <= x < 0x1_0000_0000
  type int32 = x: int | -0x8000_0000 <= x < 0x8000_0000

  /** A keystream: the byte the cipher combines with the n-th byte it ever processes. */
  type Keystream = nat -> byte

  /** Unsigned 32-bit arithmetic: the result of a C++ `uint32` operation on the exact value `x`. */
  function Wrap32(x: int): (r: uint32)
    ensures 0 <= x < 0x1_0000_0000 ==> r == x
    ensures (x - r) % 0x1_0000_0000 == 0
  {
    x % 0x1_0000_0000
  }

  /** A `uint32` reinterpreted as a two's-complement `int32` (the `int32(...)` cast). */
  function ToInt32(x: uint32): (r: int32)
    ensures x < 0x8000_0000 ==> r == x
    ensures r < 0 <==> x >= 0x8000_0000
    ensures Wrap32(r) == x
  {
    if x < 0x8000_0000 then x else x - 0x1_0000_0000
  }

  function ByteValue(b: byte): (r: uint8)
  {
    b as int
  }

  /** The two bytes of a `uint16` field in memory. */
  function LE16(v: uint16): (r: seq<byte>)
    ensures |r| == 2
  {
    [(v % 0x100) as byte, (v / 0x100) as byte]
  }

  function DecodeLE16(b: seq<byte>): (v: uint16)
    requires |b| == 2
  {
    ByteValue(b[0]) + 0x100 * ByteValue(b[1])
  }

  lemma LE16RoundTrip(v: uint16)
    ensures DecodeLE16(LE16(v)) == v
  {
    var lo, hi := v % 0x100, v / 0x100;
    ByteRoundTrip(lo);
    ByteRoundTrip(hi);
  }

  lemma ByteRoundTrip(x: int)
    requires 0 <= x < 0x100
    ensures ByteValue(x as byte) == x
  {
  }

  /** The four bytes of a `uint32` field in memory. */
  function LE32(v: uint32): (r: seq<byte>)
    ensures |r| == 4
  {
    var w1 := v / 0x100;
    var w2 := w1 / 0x100;
    [(v % 0x100) as byte, (w1 % 0x100) as byte, (w2 % 0x100) as byte, (w2 / 0x100) as byte]
  }

  function DecodeLE32(b: seq<byte>): (v: uint32)
    requires |b| == 4
  {
    ByteValue(b[0]) + 0x100 * ByteValue(b[1]) + 0x1_0000 * ByteValue(b[2]) + 0x100_0000 * ByteValue(b[3])
  }

  lemma LE32RoundTrip(v: uint32)
    ensures DecodeLE32(LE32(v)) == v
  {
    var w1 := v / 0x100;
    var w2 := w1 / 0x100;
    ByteRoundTrip(v % 0x100);
    ByteRoundTrip(w1 % 0x100);
    ByteRoundTrip(w2 % 0x100);
    ByteRoundTrip(w2 / 0x100);
    assert w1 == w1 % 0x100 + 0x100 * w2;
    assert w2 < 0x1_0000;
  }

  /**
   * What a keystream cipher does to `buf` when its stream has already
   * produced `pos` bytes: byte i is combined with keystream byte pos + i.
   */
  function XorStream(buf: seq<byte>, ks: Keystream, pos: nat): (r: seq<byte>)
    ensures |r| == |buf|
  {
    seq(|buf|, i requires 0 <= i < |buf| => buf[i] ^ ks(pos + i))
  }

  /** Applying the same stream at the same position twice gives back the plaintext. */
  lemma XorStreamRoundTrip(buf: seq<byte>, ks: Keystream, pos: nat)
    ensures XorStream(XorStream(buf, ks, pos), ks, pos) == buf
  {
    var r := XorStream(XorStream(buf, ks, pos), ks, pos);
    forall i | 0 <= i < |buf| ensures r[i] == buf[i] {
      assert r[i] == (buf[i] ^ ks(pos + i)) ^ ks(pos + i);
    }
  }

  /** The n keystream bytes that follow the first p. */
  function Stretch(ks: Keystream, p: nat, n: nat): (r: seq<byte>)
    ensures |r| == n
  {
    seq(n, i requires 0 <= i < n => ks(p + i))
  }

  /**
   * Decrypting with stream `ks2` from position q what was encrypted with
   * stream `ks1` from position p gives the plaintext back exactly when the two
   * stretches of keystream agree. With one stream this is order sensitivity:
   * both sides must have processed the same number of bytes.
   */
  lemma XorStreamDecryptsIff(buf: seq<byte>, ks1: Keystream, p: nat, ks2: Keystream, q: nat)
    ensures XorStream(XorStream(buf, ks1, p), ks2, q) == buf
        <==> Stretch(ks1, p, |buf|) == Stretch(ks2, q, |buf|)
  {
    var r := XorStream(XorStream(buf, ks1, p), ks2, q);
    var sp, sq := Stretch(ks1, p, |buf|), Stretch(ks2, q, |buf|);
    forall i | 0 <= i < |buf| ensures r[i] == buf[i] <==> sp[i] == sq[i] {
      XorTwiceAt(buf, ks1, p, ks2, q, i);
      assert sp[i] == ks1(p + i) && sq[i] == ks2(q + i);
    }
    if r != buf {
      var i :| 0 <= i < |buf| && r[i] != buf[i];
      assert sp[i] != sq[i];
    }
  }

  lemma XorTwiceAt(buf: seq<byte>, ks1: Keystream, p: nat, ks2: Keystream, q: nat, i: nat)
    requires i < |buf|
    ensures XorStream(XorStream(buf, ks1, p), ks2, q)[i] == buf[i] <==> ks1(p + i) == ks2(q + i)
  {
    var e := XorStream(buf, ks1, p);
    XorStreamAt(buf, ks1, p, i);
    XorStreamAt(e, ks2, q, i);
    XorCancel(buf[i], ks1(p + i), ks2(q + i), XorStream(e, ks2, q)[i]);
  }

  lemma XorStreamAt(buf: seq<byte>, ks: Keystream, pos: nat, i: nat)
    requires i < |buf|
    ensures XorStream(buf, ks, pos)[i] == buf[i] ^ ks(pos + i)
  {
  }

  lemma XorCancel(x: byte, a: byte, b: byte, y: byte)
    requires y == (x ^ a) ^ b
    ensures y == x <==> a == b
  {
  }

  /**
   * Processing two buffers one after the other is the same as processing
   * their concatenation: the stream simply runs on.
   */
  lemma XorStreamConcat(a: seq<byte>, b: seq<byte>, ks: Keystream, pos: nat)
    ensures XorStream(a + b, ks, pos) == XorStream(a, ks, pos) + XorStream(b, ks, pos + |a|)
  {
    var l := XorStream(a + b, ks, pos);
    var r := XorStream(a, ks, pos) + XorStream(b, ks, pos + |a|);
    forall i | 0 <= i < |a| + |b| ensures l[i] == r[i] {
      if i >= |a| {
        assert (a + b)[i] == b[i - |a|];
        assert pos + |a| + (i - |a|) == pos + i;
      }
    }
  }
}
