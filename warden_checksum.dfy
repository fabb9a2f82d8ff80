/**
 * The Warden checksum: the SHA-1 digest (FIPS 180-4, section 6.1) of a
 * buffer, read through a union as five 32-bit words in host (little-endian)
 * order, XOR-folded into one word; a claimed checksum is valid exactly when it
 * equals the recomputed one. SHA-1 itself is a parameter of the model.
 */
module WardenChecksum {
  import opened Bytes

  const DIGEST_SIZE: nat := 20
  const DIGEST_WORDS: nat := 5

  type Digest = d: seq<byte> | |d| == DIGEST_SIZE witness seq(20, _ => 0 as byte)

  /** The hash function (OpenSSL's `SHA1`): any function from bytes to 20-byte digests. */
  type Sha1 = seq<byte> -> Digest

  /** `hash.ints.ints[i]`: digest bytes 4i .. 4i+3 read as a little-endian word. */
  function DigestWord(d: Digest, i: nat): bv32
    requires i < DIGEST_WORDS
  {
    LittleEndianWord(d[4 * i], d[4 * i + 1], d[4 * i + 2], d[4 * i + 3])
  }

  function LittleEndianWord(b0: byte, b1: byte, b2: byte, b3: byte): bv32
  {
    (b0 as bv32) | ((b1 as bv32) << 8) | ((b2 as bv32) << 16) | ((b3 as bv32) << 24)
  }

  /** The five words of the union, in index order. */
  function Words(d: Digest): (ws: seq<bv32>)
    ensures |ws| == DIGEST_WORDS
  {
    [DigestWord(d, 0), DigestWord(d, 1), DigestWord(d, 2), DigestWord(d, 3), DigestWord(d, 4)]
  }

  /*
   * XOR is wrapped in functions so that the proofs below reason about it
   * by congruence; its bit-level meaning is used only in WordByteXor.
   */
  function Xor32(a: bv32, b: bv32): bv32
  {
    a ^ b
  }

  function Xor8(a: byte, b: byte): byte
  {
    a ^ b
  }

  /** XOR of the first n words, accumulated from 0 as the loop does. */
  function XorPrefix(ws: seq<bv32>, n: nat): bv32
    requires n <= |ws|
  {
    if n == 0 then 0 else Xor32(XorPrefix(ws, n - 1), ws[n - 1])
  }

  /** The checksum of a buffer: the XOR-fold of its digest's words. */
  function Checksum(sha1: Sha1, data: seq<byte>): bv32
  {
    XorPrefix(Words(sha1(data)), DIGEST_WORDS)
  }

  /** Byte k (k < 4) of a word in memory order. */
  function WordByte(w: bv32, k: nat): byte
    requires k < 4
  {
    if k == 0 then (w & 0xFF) as byte
    else if k == 1 then ((w >> 8) & 0xFF) as byte
    else if k == 2 then ((w >> 16) & 0xFF) as byte
    else (w >> 24) as byte
  }

  /**
   * `Warden::BuildChecksum`: hash the first `length` bytes of `data` and
   * XOR-accumulate the five digest words.
   */
  method BuildChecksum(sha1: Sha1, data: seq<byte>, length: uint32) returns (checkSum: bv32)
    requires length <= |data|
    ensures checkSum == Checksum(sha1, data[..length])
  {
    var ws := Words(sha1(data[..length]));
    checkSum := 0;
    var i := 0;
    while i < DIGEST_WORDS
      invariant 0 <= i <= DIGEST_WORDS
      invariant checkSum == XorPrefix(ws, i)
    {
      checkSum := Xor32(checkSum, ws[i]);
      i := i + 1;
    }
  }

  /** The fold is w0 ^ w1 ^ w2 ^ w3 ^ w4. */
  lemma ChecksumIsFiveWordXor(sha1: Sha1, data: seq<byte>)
    ensures var ws := Words(sha1(data));
      Checksum(sha1, data) == Xor32(Xor32(Xor32(Xor32(ws[0], ws[1]), ws[2]), ws[3]), ws[4])
  {
    var ws := Words(sha1(data));
    XorZero(ws[0]);
    assert XorPrefix(ws, 1) == ws[0];
    assert XorPrefix(ws, 2) == Xor32(ws[0], ws[1]);
    assert XorPrefix(ws, 3) == Xor32(Xor32(ws[0], ws[1]), ws[2]);
    assert XorPrefix(ws, 4) == Xor32(Xor32(Xor32(ws[0], ws[1]), ws[2]), ws[3]);
  }

  lemma XorZero(x: bv32)
    ensures Xor32(0, x) == x
  {
  }

  /**
   * `Warden::IsValidCheckSum`: the claimed checksum is accepted exactly when
   * it equals the checksum recomputed over the first `length` bytes.
   */
  method IsValidCheckSum(sha1: Sha1, checksum: bv32, data: seq<byte>, length: uint16) returns (valid: bool)
    requires length <= |data|
    ensures valid <==> checksum == Checksum(sha1, data[..length])
  {
    var newChecksum := BuildChecksum(sha1, data, length);
    valid := checksum == newChecksum;
  }

  /**
   * Byte k of the checksum, in memory order, is the XOR of the digest bytes
   * k, 4 + k, 8 + k, 12 + k and 16 + k.
   */
  lemma ChecksumBytes(sha1: Sha1, data: seq<byte>, k: nat)
    requires k < 4
    ensures var d := sha1(data);
      WordByte(Checksum(sha1, data), k) == Xor8(Xor8(Xor8(Xor8(d[k], d[4 + k]), d[8 + k]), d[12 + k]), d[16 + k])
  {
    var d := sha1(data);
    var ws := Words(d);
    ChecksumIsFiveWordXor(sha1, data);
    FoldByte(ws[0], ws[1], ws[2], ws[3], ws[4], k);
    DigestWordByte(d, 0, k);
    DigestWordByte(d, 1, k);
    DigestWordByte(d, 2, k);
    DigestWordByte(d, 3, k);
    DigestWordByte(d, 4, k);
  }

  /** Byte k of word i of the union is byte 4i + k of the digest. */
  lemma DigestWordByte(d: Digest, i: nat, k: nat)
    requires i < DIGEST_WORDS && k < 4
    ensures WordByte(DigestWord(d, i), k) == d[4 * i + k]
  {
    var b0, b1, b2, b3 := d[4 * i], d[4 * i + 1], d[4 * i + 2], d[4 * i + 3];
    WordByteOfWord(b0, b1, b2, b3, k);
  }

  /** Taking byte k commutes with the five-word fold. */
  lemma FoldByte(w0: bv32, w1: bv32, w2: bv32, w3: bv32, w4: bv32, k: nat)
    requires k < 4
    ensures WordByte(Xor32(Xor32(Xor32(Xor32(w0, w1), w2), w3), w4), k)
         == Xor8(Xor8(Xor8(Xor8(WordByte(w0, k), WordByte(w1, k)), WordByte(w2, k)), WordByte(w3, k)), WordByte(w4, k))
  {
    WordByteXor(w0, w1, k);
    WordByteXor(Xor32(w0, w1), w2, k);
    WordByteXor(Xor32(Xor32(w0, w1), w2), w3, k);
    WordByteXor(Xor32(Xor32(Xor32(w0, w1), w2), w3), w4, k);
  }

  lemma WordByteXor(a: bv32, b: bv32, k: nat)
    requires k < 4
    ensures WordByte(Xor32(a, b), k) == Xor8(WordByte(a, k), WordByte(b, k))
  {
    if k == 0 {
    } else if k == 1 {
    } else if k == 2 {
    } else {
    }
  }

  lemma WordByteOfWord(b0: byte, b1: byte, b2: byte, b3: byte, k: nat)
    requires k < 4
    ensures k == 0 ==> WordByte(LittleEndianWord(b0, b1, b2, b3), k) == b0
    ensures k == 1 ==> WordByte(LittleEndianWord(b0, b1, b2, b3), k) == b1
    ensures k == 2 ==> WordByte(LittleEndianWord(b0, b1, b2, b3), k) == b2
    ensures k == 3 ==> WordByte(LittleEndianWord(b0, b1, b2, b3), k) == b3
  {
    if k == 0 {
    } else if k == 1 {
    } else if k == 2 {
    } else {
    }
  }
}
