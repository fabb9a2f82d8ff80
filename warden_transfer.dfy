/**
 * Framing of the two server messages that transfer and select the Warden
 * module: the module is cut into bursts of at most 500 bytes, each sent as a
 * `WardenModuleTransfer` struct (1-byte command, 2-byte size, data), and the
 * module is selected with a 37-byte `WardenModuleUse` struct (command, 16-byte
 * id, 16-byte key, 4-byte size). Both structs are packed and little-endian.
 */
module WardenTransfer {
  import opened Bytes
  import opened Wrappers

  /** Server-to-client Warden commands (the `WardenOpcodes` enum of Warden.h). */
  const SMSG_MODULE_USE: byte := 0
  const SMSG_MODULE_CACHE: byte := 1

  /** Largest burst of module data carried by one transfer packet. */
  const MAX_BURST: nat := 500
  /** Command byte plus the 16-bit DataSize field. */
  const CHUNK_HEADER: nat := 3
  /** sizeof(WardenModuleUse): 1 + 16 + 16 + 4. */
  const MODULE_USE_SIZE: nat := 37

  /** The module a session hands out: compressed bytes, their size, identity and RC4 key. */
  datatype WardenModule = WardenModule(compressedData: seq<byte>, compressedSize: uint32, id: seq<byte>, key: seq<byte>)
  {
    /** The size field never exceeds the buffer, and id and key are 16 bytes each. */
    predicate Valid()
    {
      compressedSize <= |compressedData| && |id| == 16 && |key| == 16
    }

    /** The bytes that are transferred: the first CompressedSize bytes of the buffer. */
    function Payload(): (p: seq<byte>)
      requires Valid()
      ensures |p| == compressedSize
    {
      compressedData[..compressedSize]
    }
  }

  function Min(a: int, b: int): int
  {
    if a < b then a else b
  }

  /** Bytes pos .. pos + n of the payload are the same bytes of the module's buffer. */
  lemma PayloadSlice(m: WardenModule, pos: nat, n: nat)
    requires m.Valid() && pos + n <= m.compressedSize
    ensures m.Payload()[pos..pos + n] == m.compressedData[pos..pos + n]
  {
  }

  /** The bursts `SendModuleToClient` cuts `data` into, in sending order. */
  function Bursts(data: seq<byte>): (bs: seq<seq<byte>>)
    ensures bs == [] <==> data == []
    ensures |bs| <= |data|
    decreases |data|
  {
    if |data| == 0 then []
    else
      var n := if |data| < MAX_BURST then |data| else MAX_BURST;
      [data[..n]] + Bursts(data[n..])
  }

  /** Concatenation of a sequence of byte strings. */
  function Flatten(bs: seq<seq<byte>>): seq<byte>
  {
    if bs == [] then [] else bs[0] + Flatten(bs[1..])
  }

  function CeilDiv(n: nat, d: nat): nat
    requires d > 0
  {
    (n + d - 1) / d
  }

  /**
   * Burst k holds min(remaining, 500) bytes, every burst but the last holds
   * exactly 500 and there are ceil(size / 500) of them.
   */
  lemma {:induction false} BurstsShape(data: seq<byte>)
    ensures |Bursts(data)| == CeilDiv(|data|, MAX_BURST)
    ensures forall k :: 0 <= k < |Bursts(data)| ==> |Bursts(data)[k]| == Min(|data| - MAX_BURST * k, MAX_BURST)
    ensures forall k :: 0 <= k < |Bursts(data)| - 1 ==> |Bursts(data)[k]| == MAX_BURST
    ensures forall k :: 0 <= k < |Bursts(data)| ==> 0 < |Bursts(data)[k]| <= MAX_BURST
    decreases |data|
  {
    if |data| > 0 {
      var n := if |data| < MAX_BURST then |data| else MAX_BURST;
      var rest := data[n..];
      BurstsShape(rest);
      var bs := Bursts(data);
      assert bs == [data[..n]] + Bursts(rest);
      if |data| <= MAX_BURST {
        assert |rest| == 0;
      } else {
        assert |rest| == |data| - MAX_BURST;
        assert CeilDiv(|data|, MAX_BURST) == CeilDiv(|rest|, MAX_BURST) + 1;
        forall k | 1 <= k < |bs|
          ensures |bs[k]| == Min(|data| - MAX_BURST * k, MAX_BURST)
        {
          assert bs[k] == Bursts(rest)[k - 1];
          assert |rest| - MAX_BURST * (k - 1) == |data| - MAX_BURST * k;
        }
      }
    }
  }

  /** Concatenating the bursts in order gives back the data. */
  lemma {:induction false} BurstsConcat(data: seq<byte>)
    ensures Flatten(Bursts(data)) == data
    decreases |data|
  {
    if |data| > 0 {
      var n := if |data| < MAX_BURST then |data| else MAX_BURST;
      BurstsConcat(data[n..]);
      var bs := Bursts(data);
      assert bs[0] == data[..n] && bs[1..] == Bursts(data[n..]);
      assert data == data[..n] + data[n..];
    }
  }

  /** An empty module produces no burst at all. */
  lemma BurstsEmpty(data: seq<byte>)
    ensures Bursts(data) == [] <==> |data| == 0
  {
  }

  /** Bursts of the remaining data: the first one is taken off as `SendModuleToClient` does. */
  lemma BurstsUnfold(data: seq<byte>, n: nat)
    requires |data| > 0 && n == Min(|data|, MAX_BURST)
    ensures Bursts(data) == [data[..n]] + Bursts(data[n..])
  {
  }

  lemma BurstsAppend(data: seq<byte>, pos: nat, done: seq<seq<byte>>, n: nat)
    requires pos < |data| && n == Min(|data| - pos, MAX_BURST)
    requires Bursts(data) == done + Bursts(data[pos..])
    ensures Bursts(data) == (done + [data[pos..pos + n]]) + Bursts(data[pos + n..])
  {
    BurstsFrom(data, pos, n);
    ConcatAssoc(done, [data[pos..pos + n]], Bursts(data[pos + n..]));
  }

  /** The loop pass at `pos`, stated on slices of the whole buffer. */
  lemma BurstsFrom(data: seq<byte>, pos: nat, n: nat)
    requires pos < |data| && n == Min(|data| - pos, MAX_BURST)
    ensures Bursts(data[pos..]) == [data[pos..pos + n]] + Bursts(data[pos + n..])
  {
    var tail := data[pos..];
    BurstsUnfold(tail, n);
    assert tail[..n] == data[pos..pos + n];
    assert tail[n..] == data[pos + n..];
  }

  lemma ConcatAssoc<T>(a: seq<T>, b: seq<T>, c: seq<T>)
    ensures a + (b + c) == (a + b) + c
  {
  }

  /** The plaintext `WardenModuleTransfer` packet for one burst. */
  function ChunkPacket(burst: seq<byte>): (p: seq<byte>)
    requires |burst| <= MAX_BURST
    ensures |p| == |burst| + CHUNK_HEADER
    ensures p[0] == SMSG_MODULE_CACHE && p[CHUNK_HEADER..] == burst
  {
    [SMSG_MODULE_CACHE] + LE16(|burst|) + burst
  }

  /** What a client reads from a transfer packet: the burst, when command and size agree. */
  function DecodeChunkPacket(p: seq<byte>): Option<seq<byte>>
  {
    if |p| >= CHUNK_HEADER && p[0] == SMSG_MODULE_CACHE && DecodeLE16(p[1..3]) == |p| - CHUNK_HEADER
    then Some(p[CHUNK_HEADER..])
    else None
  }

  /**
   * A transfer packet carries Command = MODULE_CACHE, DataSize = the burst's
   * length, and is exactly burst + 3 bytes long, so the client reads the
   * burst back.
   */
  lemma ChunkPacketShape(burst: seq<byte>)
    requires |burst| <= MAX_BURST
    ensures |ChunkPacket(burst)| == |burst| + CHUNK_HEADER
    ensures ChunkPacket(burst)[0] == SMSG_MODULE_CACHE
    ensures DecodeLE16(ChunkPacket(burst)[1..3]) == |burst|
    ensures DecodeChunkPacket(ChunkPacket(burst)) == Some(burst)
  {
    var p := ChunkPacket(burst);
    assert p[1..3] == LE16(|burst|);
    LE16RoundTrip(|burst|);
    assert p[CHUNK_HEADER..] == burst;
  }

  /** The plaintext `WardenModuleUse` message that selects a module. */
  function ModuleUseMessage(m: WardenModule): (p: seq<byte>)
    requires m.Valid()
    ensures |p| == MODULE_USE_SIZE && p[0] == SMSG_MODULE_USE
    ensures p[1..17] == m.id && p[17..33] == m.key
  {
    [SMSG_MODULE_USE] + m.id + m.key + LE32(m.compressedSize)
  }

  /** What a client reads from a module-use message: id, key and size. */
  function DecodeModuleUse(p: seq<byte>): Option<(seq<byte>, seq<byte>, uint32)>
  {
    if |p| == MODULE_USE_SIZE && p[0] == SMSG_MODULE_USE
    then Some((p[1..17], p[17..33], DecodeLE32(p[33..37])))
    else None
  }

  /** The module-use message is 37 bytes and carries the module's Id, Key and CompressedSize. */
  lemma ModuleUseRoundTrip(m: WardenModule)
    requires m.Valid()
    ensures |ModuleUseMessage(m)| == MODULE_USE_SIZE
    ensures DecodeModuleUse(ModuleUseMessage(m)) == Some((m.id, m.key, m.compressedSize))
  {
    var p := ModuleUseMessage(m);
    assert p[1..17] == m.id;
    assert p[17..33] == m.key;
    assert p[33..37] == LE32(m.compressedSize);
    LE32RoundTrip(m.compressedSize);
  }

  /** Every burst fits one transfer packet. */
  ghost predicate AllFit(bs: seq<seq<byte>>)
  {
    forall k :: 0 <= k < |bs| ==> |bs[k]| <= MAX_BURST
  }

  /** Number of keystream bytes consumed by sending the packets of `bs`. */
  function StreamLength(bs: seq<seq<byte>>): nat
  {
    if bs == [] then 0 else |bs[0]| + CHUNK_HEADER + StreamLength(bs[1..])
  }

  /** The encrypted packets sent for `bs` when the output stream stands at `pos`. */
  function EncryptedChunks(bs: seq<seq<byte>>, ks: Keystream, pos: nat): (ps: seq<seq<byte>>)
    requires AllFit(bs)
    ensures |ps| == |bs|
  {
    if bs == [] then []
    else [XorStream(ChunkPacket(bs[0]), ks, pos)] + EncryptedChunks(bs[1..], ks, pos + |bs[0]| + CHUNK_HEADER)
  }

  /** One more burst: its packet is encrypted where the previous ones left the stream. */
  lemma {:induction false} EncryptedChunksSnoc(bs: seq<seq<byte>>, b: seq<byte>, ks: Keystream, pos: nat)
    requires AllFit(bs) && |b| <= MAX_BURST
    ensures AllFit(bs + [b])
    ensures EncryptedChunks(bs + [b], ks, pos)
         == EncryptedChunks(bs, ks, pos) + [XorStream(ChunkPacket(b), ks, pos + StreamLength(bs))]
    ensures StreamLength(bs + [b]) == StreamLength(bs) + |b| + CHUNK_HEADER
    decreases |bs|
  {
    if bs != [] {
      assert (bs + [b])[1..] == bs[1..] + [b];
      EncryptedChunksSnoc(bs[1..], b, ks, pos + |bs[0]| + CHUNK_HEADER);
    } else {
      assert [b][1..] == [];
    }
  }

  /** The receiving side: decrypt each packet in order with a stream that starts at `pos`. */
  function DecryptInOrder(ps: seq<seq<byte>>, ks: Keystream, pos: nat): (r: seq<seq<byte>>)
    ensures |r| == |ps|
  {
    if ps == [] then [] else [XorStream(ps[0], ks, pos)] + DecryptInOrder(ps[1..], ks, pos + |ps[0]|)
  }

  /** Decode each packet; collect the bursts of those that decode. */
  function DecodeChunks(ps: seq<seq<byte>>): seq<seq<byte>>
  {
    if ps == [] then []
    else match DecodeChunkPacket(ps[0])
      case Some(b) => [b] + DecodeChunks(ps[1..])
      case None => DecodeChunks(ps[1..])
  }

  /**
   * A client whose keystream is the server's output keystream, decrypting the
   * transfer packets in the order they were sent, recovers every burst.
   */
  lemma {:induction false} ChunksRoundTrip(bs: seq<seq<byte>>, ks: Keystream, pos: nat)
    requires AllFit(bs)
    ensures DecodeChunks(DecryptInOrder(EncryptedChunks(bs, ks, pos), ks, pos)) == bs
    decreases |bs|
  {
    if bs != [] {
      var pos' := pos + |bs[0]| + CHUNK_HEADER;
      var p0 := ChunkPacket(bs[0]);
      var ps := EncryptedChunks(bs, ks, pos);
      assert ps == [XorStream(p0, ks, pos)] + EncryptedChunks(bs[1..], ks, pos');
      var d := DecryptInOrder(ps, ks, pos);
      ChunkPacketShape(bs[0]);
      XorStreamRoundTrip(p0, ks, pos);
      var tail := DecryptInOrder(EncryptedChunks(bs[1..], ks, pos'), ks, pos');
      assert d == [p0] + tail;
      ChunksRoundTrip(bs[1..], ks, pos');
      assert DecodeChunks(d) == [bs[0]] + DecodeChunks(tail);
    }
  }

  /**
   * End to end: decrypting in order and concatenating the bursts reproduces
   * the module's compressed data.
   */
  lemma ModuleDeliveredIntact(m: WardenModule, ks: Keystream, pos: nat)
    requires m.Valid()
    ensures AllFit(Bursts(m.Payload()))
    ensures Flatten(DecodeChunks(DecryptInOrder(EncryptedChunks(Bursts(m.Payload()), ks, pos), ks, pos))) == m.Payload()
  {
    BurstsShape(m.Payload());
    ChunksRoundTrip(Bursts(m.Payload()), ks, pos);
    BurstsConcat(m.Payload());
  }
}
