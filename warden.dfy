/**
 * The `Warden` base class and the session's packet handler: the two RC4
 * streams, the module transfer, the timers of `Update`, the penalty, and the
 * dispatch of decrypted client packets by opcode. What the session does
 * (sending packets, kicking, banning) and what the client-specific subclass
 * does (RequestData, RequestHash, HandleData, HandleHashResult,
 * InitializeModule) is recorded, in order, in the warden's `trace`.
 */
module WardenSession {
  import opened Bytes
  import opened Wrappers
  import opened WardenTransfer
  import opened WardenTimers
  import opened WardenPenalty

  /** The client opcodes of `WardenOpcodes` (Warden.h). */
  const CMSG_MODULE_MISSING: byte := 0
  const CMSG_MODULE_OK: byte := 1
  const CMSG_CHEAT_CHECKS_RESULT: byte := 2
  const CMSG_MEM_CHECKS_RESULT: byte := 3
  const CMSG_HASH_RESULT: byte := 4
  const CMSG_MODULE_FAILED: byte := 5

  const UPDATE_KICK_REASON: string := "Warden::Update Warden module response delay exceeded"
  const PENALTY_KICK_REASON: string := "Warden::Penalty"
  const BAN_AUTHOR: string := "Server"
  const KEY_SIZE: nat := 16

  /** Something the warden makes its session or its subclass do. */
  datatype Effect =
    | SendPacket(body: seq<byte>)          // an SMSG_WARDEN3_DATA packet with this body
    | KickPlayer(reason: string)
    | BanAccount(account: string, duration: string, reason: string, author: string)
    | RequestData
    | RequestHash
    | HandleData(payload: seq<byte>)
    | HandleHashResult(payload: seq<byte>)
    | InitializeModule

  /** One `SendPacket` per body, in order. */
  function Sends(ps: seq<seq<byte>>): (es: seq<Effect>)
    ensures |es| == |ps|
    ensures forall i :: 0 <= i < |ps| ==> es[i] == SendPacket(ps[i])
  {
    seq(|ps|, i requires 0 <= i < |ps| => SendPacket(ps[i]))
  }

  lemma SendsSnoc(ps: seq<seq<byte>>, p: seq<byte>)
    ensures Sends(ps + [p]) == Sends(ps) + [SendPacket(p)]
  {
    var l, r := Sends(ps + [p]), Sends(ps) + [SendPacket(p)];
    forall i | 0 <= i < |l| ensures l[i] == r[i] {
      assert (ps + [p])[i] == if i < |ps| then ps[i] else p;
    }
  }

  /** What the session and subclass are made to do by one tick of the timers. */
  function TimerEffects(a: TimerAction): (es: seq<Effect>)
    ensures a == NoAction <==> es == []
    ensures a == IssueChallenge <==> es == [RequestData]
    ensures a == KickForDelay <==> es == [KickPlayer(UPDATE_KICK_REASON)]
  {
    match a
    case NoAction => []
    case IssueChallenge => [RequestData]
    case KickForDelay => [KickPlayer(UPDATE_KICK_REASON)]
  }

  /** What `Penalty` makes the session do for the resolved action. */
  function PenaltyEffects(action: int, check: Option<WardenCheck>, accountName: string, banSeconds: uint32): (es: seq<Effect>)
    ensures |es| <= 1
    ensures es != [] && es[0].KickPlayer? <==> action == ACTION_KICK
    ensures es != [] && es[0].BanAccount? <==> action == ACTION_BAN
  {
    if action == ACTION_KICK then [KickPlayer(PENALTY_KICK_REASON)]
    else if action == ACTION_BAN then [BanAccount(accountName, BanDuration(banSeconds), BanReason(check), BAN_AUTHOR)]
    else []
  }

  /**
   * A penalty does at most one thing: a kick exactly for KICK, a ban exactly
   * for BAN (a ban does not also kick), and nothing for LOG or an unknown
   * action. The ban names the account and the configured duration, and
   * qualifies its reason only when a check is known.
   */
  lemma PenaltyOutcome(action: int, check: Option<WardenCheck>, accountName: string, banSeconds: uint32)
    ensures var es := PenaltyEffects(action, check, accountName, banSeconds);
      && |es| <= 1
      && (es == [] <==> ActionName(action) in {"None", "Undefined"})
      && (es == [KickPlayer(PENALTY_KICK_REASON)] <==> ActionName(action) == "Kick")
      && ((exists e :: e in es && e.BanAccount?) <==> ActionName(action) == "Ban")
      && (ActionName(action) == "Ban" ==>
            es[0].account == accountName && es[0].duration == BanDuration(banSeconds) && es[0].author == BAN_AUTHOR
            && es[0].reason == BanReason(check)
            && (check.Some? <==> es[0].reason != BAN_REASON_BASE))
  {
    var es := PenaltyEffects(action, check, accountName, banSeconds);
    if action == ACTION_BAN {
      assert es[0] in es;
      if check.Some? {
        BanReasonExtendsBase(check.value);
      }
    }
  }

  /** What the handler does for a decrypted opcode other than MODULE_MISSING. */
  function OpcodeEffects(opcode: byte, payload: seq<byte>): (es: seq<Effect>)
    ensures |es| <= 2
    ensures |es| == 2 <==> opcode == CMSG_HASH_RESULT
    ensures es == [] <==> opcode !in {CMSG_MODULE_OK, CMSG_CHEAT_CHECKS_RESULT, CMSG_HASH_RESULT}
  {
    if opcode == CMSG_MODULE_OK then [RequestHash]
    else if opcode == CMSG_CHEAT_CHECKS_RESULT then [HandleData(payload)]
    else if opcode == CMSG_HASH_RESULT then [HandleHashResult(payload), InitializeModule]
    else []
  }

  /**
   * Every recognised opcode except the two that are not implemented reaches
   * its subclass handler with the rest of the packet; the hash result is
   * always followed by the module's initialization; MEM_CHECKS_RESULT,
   * MODULE_FAILED and unknown opcodes do nothing.
   */
  lemma OpcodeDispatch(opcode: byte, payload: seq<byte>)
    requires opcode != CMSG_MODULE_MISSING
    ensures OpcodeEffects(opcode, payload) == [] <==>
      opcode == CMSG_MEM_CHECKS_RESULT || opcode == CMSG_MODULE_FAILED || opcode > CMSG_MODULE_FAILED
    ensures InitializeModule in OpcodeEffects(opcode, payload) <==> opcode == CMSG_HASH_RESULT
    ensures forall e :: e in OpcodeEffects(opcode, payload) && (e.HandleData? || e.HandleHashResult?) ==> e.payload == payload
  {
  }

  /**
   * The RC4 `UpdateData` on a buffer: the first `length` bytes are combined
   * with the keystream from position `pos` on, the rest is untouched.
   */
  method XorInPlace(buffer: array<byte>, length: uint32, ks: Keystream, pos: nat)
    requires length <= buffer.Length
    modifies buffer
    ensures buffer[..length] == XorStream(old(buffer[..length]), ks, pos)
    ensures buffer[length..] == old(buffer[length..])
  {
    var i := 0;
    while i < length
      invariant 0 <= i <= length
      invariant forall k :: 0 <= k < i ==> buffer[k] == old(buffer[k]) ^ ks(pos + k)
      invariant forall k :: i <= k < buffer.Length ==> buffer[k] == old(buffer[k])
    {
      buffer[i] := buffer[i] ^ ks(pos + i);
      i := i + 1;
    }
    assert buffer[..length] == XorStream(old(buffer[..length]), ks, pos);
  }

  /** Fills the head of a `WardenModuleTransfer` buffer with the packet for one burst of `src`. */
  method ComposeChunk(packet: array<byte>, src: seq<byte>, pos: nat, burstSize: uint16)
    requires packet.Length == CHUNK_HEADER + MAX_BURST
    requires burstSize <= MAX_BURST && pos + burstSize <= |src|
    modifies packet
    ensures packet[..burstSize + CHUNK_HEADER] == ChunkPacket(src[pos..pos + burstSize])
  {
    packet[0] := SMSG_MODULE_CACHE;
    var sizeField := LE16(burstSize);
    packet[1] := sizeField[0];
    packet[2] := sizeField[1];
    forall i | 0 <= i < burstSize {
      packet[CHUNK_HEADER + i] := src[pos + i];
    }
    assert packet[..burstSize + CHUNK_HEADER] == [SMSG_MODULE_CACHE] + sizeField + src[pos..pos + burstSize];
  }

  /** Sending one more encrypted chunk extends the trace of chunk packets by that chunk. */
  lemma SendStep(before: seq<Effect>, done: seq<seq<byte>>, burst: seq<byte>, ks: Keystream, pos0: nat, sent: seq<byte>)
    requires AllFit(done) && |burst| <= MAX_BURST
    requires sent == XorStream(ChunkPacket(burst), ks, pos0 + StreamLength(done))
    ensures AllFit(done + [burst])
    ensures before + Sends(EncryptedChunks(done, ks, pos0)) + [SendPacket(sent)]
         == before + Sends(EncryptedChunks(done + [burst], ks, pos0))
    ensures StreamLength(done + [burst]) == StreamLength(done) + |burst| + CHUNK_HEADER
  {
    EncryptedChunksSnoc(done, burst, ks, pos0);
    SendsSnoc(EncryptedChunks(done, ks, pos0), sent);
  }

  class Warden {
    var checkTimer: uint32
    var clientResponseTimer: uint32
    var dataSent: bool
    var previousTimestamp: uint32
    var wardenModule: Option<WardenModule>
    var initialized: bool
    var inputKey: seq<byte>
    var outputKey: seq<byte>
    var seed: seq<byte>

    /** The keystreams of `_inputCrypto` and `_outputCrypto`, and how far each has run. */
    const inputStream: Keystream
    const outputStream: Keystream
    var inputPos: nat
    var outputPos: nat

    /** Everything the warden has made its session or subclass do, oldest first. */
    var trace: seq<Effect>

    /** The module `SendModuleToClient` and `RequestModule` dereference is set and well formed. */
    predicate ModuleLoaded()
      reads this
    {
      wardenModule.Some? && wardenModule.value.Valid()
    }

    /** The fields `Update` works on. */
    function Timers(): (s: TimerState)
      reads this
      ensures s.checkTimer == checkTimer && s.clientResponseTimer == clientResponseTimer
    {
      TimerState(initialized, dataSent, checkTimer, clientResponseTimer, previousTimestamp)
    }

    /** A new warden: a ten-second countdown, no module, zeroed keys and seed. */
    constructor(inputStream: Keystream, outputStream: Keystream)
      ensures Timers() == TimerState(false, false, INITIAL_CHECK_TIMER, 0, 0)
      ensures wardenModule == None
      ensures inputKey == seq(KEY_SIZE, _ => 0) && outputKey == seq(KEY_SIZE, _ => 0) && seed == seq(KEY_SIZE, _ => 0)
      ensures this.inputStream == inputStream && this.outputStream == outputStream
      ensures inputPos == 0 && outputPos == 0 && trace == []
    {
      checkTimer := INITIAL_CHECK_TIMER;
      clientResponseTimer := 0;
      dataSent := false;
      previousTimestamp := 0;
      wardenModule := None;
      initialized := false;
      inputKey := seq(KEY_SIZE, _ => 0);
      outputKey := seq(KEY_SIZE, _ => 0);
      seed := seq(KEY_SIZE, _ => 0);
      this.inputStream := inputStream;
      this.outputStream := outputStream;
      inputPos := 0;
      outputPos := 0;
      trace := [];
    }

    /** `DecryptData`: runs the input stream over the buffer. */
    method DecryptData(buffer: array<byte>, length: uint32)
      requires length <= buffer.Length
      modifies buffer, this`inputPos
      ensures buffer[..length] == XorStream(old(buffer[..length]), inputStream, old(inputPos))
      ensures buffer[length..] == old(buffer[length..])
      ensures inputPos == old(inputPos) + length
    {
      XorInPlace(buffer, length, inputStream, inputPos);
      inputPos := inputPos + length;
    }

    /** `EncryptData`: runs the output stream over the buffer. */
    method EncryptData(buffer: array<byte>, length: uint32)
      requires length <= buffer.Length
      modifies buffer, this`outputPos
      ensures buffer[..length] == XorStream(old(buffer[..length]), outputStream, old(outputPos))
      ensures buffer[length..] == old(buffer[length..])
      ensures outputPos == old(outputPos) + length
    {
      XorInPlace(buffer, length, outputStream, outputPos);
      outputPos := outputPos + length;
    }

    /**
     * `SendModuleToClient`: the module's CompressedSize bytes go out in
     * bursts of at most 500, each as one encrypted MODULE_CACHE packet.
     */
    method SendModuleToClient()
      requires ModuleLoaded()
      modifies this`outputPos, this`trace
      ensures AllFit(Bursts(wardenModule.value.Payload()))
      ensures trace == old(trace) + Sends(EncryptedChunks(Bursts(wardenModule.value.Payload()), outputStream, old(outputPos)))
      ensures outputPos == old(outputPos) + StreamLength(Bursts(wardenModule.value.Payload()))
    {
      var m := wardenModule.value;
      ghost var data := m.Payload();
      ghost var pos0 := outputPos;
      var packet := new byte[CHUNK_HEADER + MAX_BURST];
      var sizeLeft: uint32 := m.compressedSize;
      var pos: uint32 := 0;
      ghost var done: seq<seq<byte>> := [];
      while sizeLeft > 0
        invariant pos + sizeLeft == m.compressedSize
        invariant Bursts(data) == done + Bursts(data[pos..])
        invariant AllFit(done)
        invariant trace == old(trace) + Sends(EncryptedChunks(done, outputStream, pos0))
        invariant outputPos == pos0 + StreamLength(done)
        decreases sizeLeft
      {
        var burstSize := SendBurst(packet, m, pos, sizeLeft, old(trace), pos0, done);
        done := done + [data[pos..pos + burstSize]];
        sizeLeft := sizeLeft - burstSize;
        pos := pos + burstSize;
      }
      BurstsEmpty(data[pos..]);
      assert done == Bursts(data);
    }

    /** One pass of the `SendModuleToClient` loop: the next burst goes out and is recorded as sent. */
    method SendBurst(packet: array<byte>, m: WardenModule, pos: uint32, sizeLeft: uint32,
                     ghost before: seq<Effect>, ghost pos0: nat, ghost done: seq<seq<byte>>) returns (burstSize: uint16)
      requires m.Valid() && packet.Length == CHUNK_HEADER + MAX_BURST
      requires 0 < sizeLeft && pos + sizeLeft == m.compressedSize
      requires Bursts(m.Payload()) == done + Bursts(m.Payload()[pos..])
      requires AllFit(done)
      requires trace == before + Sends(EncryptedChunks(done, outputStream, pos0))
      requires outputPos == pos0 + StreamLength(done)
      modifies packet, this`outputPos, this`trace
      ensures burstSize as int == Min(sizeLeft, MAX_BURST) && pos + burstSize <= m.compressedSize
      ensures Bursts(m.Payload()) == (done + [m.Payload()[pos..pos + burstSize]]) + Bursts(m.Payload()[pos + burstSize..])
      ensures AllFit(done + [m.Payload()[pos..pos + burstSize]])
      ensures trace == before + Sends(EncryptedChunks(done + [m.Payload()[pos..pos + burstSize]], outputStream, pos0))
      ensures outputPos == pos0 + StreamLength(done + [m.Payload()[pos..pos + burstSize]])
    {
      var data := m.Payload();
      burstSize := if sizeLeft < MAX_BURST then sizeLeft else MAX_BURST;
      var burst := data[pos..pos + burstSize];
      BurstsAppend(data, pos, done, burstSize);
      PayloadSlice(m, pos, burstSize);
      ghost var sent := SendChunk(packet, m.compressedData, pos, burstSize);
      SendStep(before, done, burst, outputStream, pos0, sent);
    }

    /** One burst of `SendModuleToClient`: composed in the packet buffer, encrypted and sent. */
    method SendChunk(packet: array<byte>, src: seq<byte>, pos: nat, burstSize: uint16) returns (ghost sent: seq<byte>)
      requires packet.Length == CHUNK_HEADER + MAX_BURST
      requires burstSize <= MAX_BURST && pos + burstSize <= |src|
      modifies packet, this`outputPos, this`trace
      ensures sent == XorStream(ChunkPacket(src[pos..pos + burstSize]), outputStream, old(outputPos))
      ensures trace == old(trace) + [SendPacket(sent)]
      ensures outputPos == old(outputPos) + burstSize + CHUNK_HEADER
    {
      ComposeChunk(packet, src, pos, burstSize);
      EncryptData(packet, burstSize + CHUNK_HEADER);
      var body := packet[..burstSize + CHUNK_HEADER];
      trace := trace + [SendPacket(body)];
      sent := body;
    }

    /** The `switch` of `HandleWardenData` on the decrypted opcode. */
    method Dispatch(opcode: byte, payload: seq<byte>)
      requires opcode == CMSG_MODULE_MISSING ==> ModuleLoaded()
      modifies this`outputPos, this`trace
      ensures opcode == CMSG_MODULE_MISSING ==>
        && AllFit(Bursts(wardenModule.value.Payload()))
        && trace == old(trace) + Sends(EncryptedChunks(Bursts(wardenModule.value.Payload()), outputStream, old(outputPos)))
        && outputPos == old(outputPos) + StreamLength(Bursts(wardenModule.value.Payload()))
      ensures opcode != CMSG_MODULE_MISSING ==> trace == old(trace) + OpcodeEffects(opcode, payload) && outputPos == old(outputPos)
    {
      if opcode == CMSG_MODULE_MISSING {
        SendModuleToClient();
      } else if opcode == CMSG_MODULE_OK {
        trace := trace + [RequestHash];
      } else if opcode == CMSG_CHEAT_CHECKS_RESULT {
        trace := trace + [HandleData(payload)];
      } else if opcode == CMSG_HASH_RESULT {
        trace := trace + [HandleHashResult(payload), InitializeModule];
      }
    }

    /** `RequestModule`: one encrypted MODULE_USE message naming the module. */
    method RequestModule()
      requires ModuleLoaded()
      modifies this`outputPos, this`trace
      ensures trace == old(trace) + [SendPacket(XorStream(ModuleUseMessage(wardenModule.value), outputStream, old(outputPos)))]
      ensures outputPos == old(outputPos) + MODULE_USE_SIZE
    {
      var m := wardenModule.value;
      var request := new byte[MODULE_USE_SIZE];
      request[0] := SMSG_MODULE_USE;
      forall i | 0 <= i < KEY_SIZE {
        request[1 + i] := m.id[i];
      }
      forall i | 0 <= i < KEY_SIZE {
        request[1 + KEY_SIZE + i] := m.key[i];
      }
      var sizeField := LE32(m.compressedSize);
      forall i | 0 <= i < 4 {
        request[1 + 2 * KEY_SIZE + i] := sizeField[i];
      }
      ghost var plain := request[..];
      assert plain == ModuleUseMessage(m);
      assert plain == request[..MODULE_USE_SIZE];
      EncryptData(request, MODULE_USE_SIZE);
      assert request[..] == request[..MODULE_USE_SIZE];
      assert request[..] == XorStream(plain, outputStream, old(outputPos));
      trace := trace + [SendPacket(request[..])];
    }

    /**
     * `Update`, with the game time and the configured response delay as
     * parameters: the timers take one step and the step's action is carried out.
     */
    method Update(now: uint32, maxDelay: uint32)
      modifies this`previousTimestamp, this`checkTimer, this`clientResponseTimer, this`trace
      ensures Timers() == UpdateTimers(old(Timers()), now, maxDelay).next
      ensures trace == old(trace) + TimerEffects(UpdateTimers(old(Timers()), now, maxDelay).action)
    {
      if initialized {
        var currentTimestamp := now;
        var diff := Elapsed(previousTimestamp, currentTimestamp);
        previousTimestamp := currentTimestamp;
        if dataSent {
          if maxDelay > 0 {
            if clientResponseTimer > DelayLimit(maxDelay) {
              trace := trace + [KickPlayer(UPDATE_KICK_REASON)];
            } else {
              clientResponseTimer := Wrap32(clientResponseTimer + diff);
            }
          }
        } else {
          if diff >= checkTimer {
            trace := trace + [RequestData];
          } else {
            checkTimer := checkTimer - diff;
          }
        }
      }
    }

    /**
     * `Penalty`, with the configured fail action, the configured ban
     * duration and the session's account name as parameters.
     */
    method Penalty(check: Option<WardenCheck>, failAction: uint32, banSeconds: uint32, accountName: string)
      returns (result: string)
      modifies this`trace
      ensures result == ActionName(ResolveAction(check, failAction))
      ensures trace == old(trace) + PenaltyEffects(ResolveAction(check, failAction), check, accountName, banSeconds)
    {
      var action := if check.Some? then check.value.action else failAction;
      if action == ACTION_LOG {
        result := "None";
      } else if action == ACTION_KICK {
        trace := trace + [KickPlayer(PENALTY_KICK_REASON)];
        result := "Kick";
      } else if action == ACTION_BAN {
        var banReason := BAN_REASON_BASE;
        if check.Some? {
          banReason := banReason + ": " + check.value.comment + " (CheckId: " + NatToDecimal(check.value.checkId);
        }
        trace := trace + [BanAccount(accountName, BanDuration(banSeconds), banReason, BAN_AUTHOR)];
        result := "Ban";
      } else {
        result := "Undefined";
      }
    }
  }

  /** The first byte of a decrypted buffer is its first byte under the stream's next byte. */
  lemma FirstByteDecrypted(before: seq<byte>, after: seq<byte>, ks: Keystream, pos: nat)
    requires 0 < |before| && after == XorStream(before, ks, pos)
    ensures after[0] == before[0] ^ ks(pos)
  {
    XorStreamAt(before, ks, pos, 0);
  }

  /**
   * `WorldSession::HandleWardenData`: a packet is ignored without a warden or
   * when empty; otherwise all of it is decrypted with the input stream and
   * handled by its first byte, the opcode. Only a MODULE_MISSING request
   * reads the module, so only that opcode (once decrypted) needs one loaded.
   */
  method HandleWardenData(warden: Warden?, data: array<byte>)
    requires warden != null && data.Length > 0 && data[0] ^ warden.inputStream(warden.inputPos) == CMSG_MODULE_MISSING ==>
      warden.ModuleLoaded()
    requires data.Length < 0x1_0000_0000
    modifies warden, data
    ensures warden == null || data.Length == 0 ==> unchanged(data)
    ensures warden != null && data.Length == 0 ==> unchanged(warden)
    ensures warden != null && data.Length > 0 ==>
      && data[..] == XorStream(old(data[..]), warden.inputStream, old(warden.inputPos))
      && warden.inputPos == old(warden.inputPos) + data.Length
      && warden.Timers() == old(warden.Timers())
      && warden.wardenModule == old(warden.wardenModule)
      && warden.inputKey == old(warden.inputKey) && warden.outputKey == old(warden.outputKey)
      && warden.seed == old(warden.seed)
      && (data[0] == CMSG_MODULE_MISSING ==>
            && warden.ModuleLoaded()
            && AllFit(Bursts(warden.wardenModule.value.Payload()))
            && warden.trace == old(warden.trace)
                 + Sends(EncryptedChunks(Bursts(warden.wardenModule.value.Payload()), warden.outputStream, old(warden.outputPos)))
            && warden.outputPos == old(warden.outputPos) + StreamLength(Bursts(warden.wardenModule.value.Payload())))
      && (data[0] != CMSG_MODULE_MISSING ==>
            && warden.trace == old(warden.trace) + OpcodeEffects(data[0], data[1..])
            && warden.outputPos == old(warden.outputPos))
  {
    if warden == null || data.Length == 0 {
      return;
    }
    ghost var first := data[0] ^ warden.inputStream(warden.inputPos);
    warden.DecryptData(data, data.Length);
    FirstByteDecrypted(old(data[..]), data[..], warden.inputStream, old(warden.inputPos));
    assert data[0] == first;
    warden.Dispatch(data[0], data[1..]);
  }
}
