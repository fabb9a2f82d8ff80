# Warden, Death Knight and Onyxia: a verified Dafny model

This project models three parts of a TrinityCore world server in Dafny and proves properties of each.

1. **The Warden anti-cheat session engine** (`src/server/game/Warden/Warden.cpp`). The `Warden` base class holds:
   - two RC4 streams (input and output), modelled as keystreams, each with its own position;
   - the two timers of `Update`;
   - the module it hands to the client.

   The model covers:
   - the chunked module transfer (`SendModuleToClient`) and the module-use request (`RequestModule`);
   - the SHA-1 checksum fold (`BuildChecksum`, `IsValidCheckSum`);
   - the penalty policy (`Penalty`);
   - the session's packet handler (`WorldSession::HandleWardenData`), which decrypts a packet and dispatches it by opcode.

   What the warden makes the session or its client-specific subclass do (send a packet, kick, ban, `RequestData`, `RequestHash`, `HandleData`, `HandleHashResult`, `InitializeModule`) is appended to a `trace` of effects.
2. **Five Death Knight spell scripts** (`src/server/scripts/Spells/spell_dk.cpp`):
   - the five-slot damage window of the Death Strike enabler aura;
   - the Death Strike heal and its floor;
   - `RefreshRunes`, which finishes the cooldown of the runes with the largest cooldowns;
   - Tombstone, which consumes Bone Shield charges;
   - the Bonestorm heal cap.
3. **The Onyxia encounter AI** (`src/server/scripts/Kalimdor/OnyxiasLair/boss_onyxia.cpp`). The model covers:
   - the table of eight breath waypoints, the waypoint lookup and the random choice of the next waypoint;
   - `Initialize`/`Reset`;
   - the three-phase machine of `UpdateAI` with its event loop;
   - the breath waypoint flip of `SpellHit`, `MovementInform`, and the whelp counter.

   Engine calls (casts, summons, point movements, event scheduling) are appended to the AI's `trace`.

The state-changing code is modelled imperatively:
- `Warden`, `DeathStrikeEnabler`, `TombstoneOwner`, `BonestormDummy` and `OnyxiaAI` are classes whose methods update their fields.
- The damage window and the rune cooldowns are arrays updated in place.
- Each loop of the source is a `while` loop proved against a specification function.

The properties that relate several calls are lemmas about those functions.

The keystreams, the SHA-1 function, the game clock, configuration values, random draws, health values and the engine's event queue are all parameters.

| file | module | contents |
|---|---|---|
| `wrappers.dfy` | `Wrappers` | `Option` |
| `bytes.dfy` | `Bytes` | fixed-width integers, little-endian fields, keystream XOR |
| `warden_transfer.dfy` | `WardenTransfer` | bursts, transfer and module-use packets, end-to-end delivery |
| `warden_checksum.dfy` | `WardenChecksum` | the checksum fold |
| `warden_penalty.dfy` | `WardenPenalty` | action resolution, result strings, ban reason and duration |
| `warden_timers.dfy` | `WardenTimers` | the timer step of `Update` and runs of it |
| `warden.dfy` | `WardenSession` | the `Warden` class and `HandleWardenData` |
| `dk_death_strike.dfy` | `DkDeathStrike` | the damage window and the heal |
| `dk_runes.dfy` | `DkRunes` | `RefreshRunes`, corrected and as written |
| `dk_bone_shield.dfy` | `DkBoneShield` | Tombstone and Bonestorm |
| `onyxia.dfy` | `Onyxia` | the Onyxia AI |

## Model

| member | source | states |
|---|---|---|
| Bytes.Wrap32 | src/server/game/Warden/Warden.cpp:100 | `uint32` arithmetic: the result is the exact value when it fits, and always agrees with it modulo 2^32 |
| Bytes.ToInt32 | src/server/scripts/Spells/spell_dk.cpp:650 | the `int32` cast of a `uint32`: the same value below 2^31, negative exactly from 2^31 on, and the same bits |
| Bytes.LE16RoundTrip | src/server/game/Warden/Warden.cpp:63 | the two bytes of the `uint16` DataSize field decode back to the value |
| Bytes.LE32RoundTrip | src/server/game/Warden/Warden.cpp:85 | the four bytes of the `uint32` Size field decode back to the value |
| Bytes.XorStreamRoundTrip | src/server/game/Warden/Warden.cpp:132-140 | running the same stream from the same position twice restores the buffer |
| Bytes.XorStreamDecryptsIff | src/server/game/Warden/Warden.cpp:132-140 | a decryption restores the plaintext if and only if the stretch of keystream used to decrypt equals the stretch used to encrypt |
| Bytes.XorStreamConcat | src/server/game/Warden/Warden.cpp:137-140 | encrypting two buffers one after the other equals encrypting their concatenation, because the stream runs on |
| WardenTransfer.Bursts | src/server/game/Warden/Warden.cpp:56-66 | there are no bursts exactly when there is no data, and never more bursts than bytes |
| WardenTransfer.BurstsShape | src/server/game/Warden/Warden.cpp:56-66 | the sizes of the bursts of the module: ceil(size/500) bursts; burst k holds min(remaining, 500) bytes; all but the last are exactly 500; none is empty |
| WardenTransfer.BurstsConcat | src/server/game/Warden/Warden.cpp:56-66 | concatenating the bursts in order reproduces the compressed data |
| WardenTransfer.BurstsEmpty | src/server/game/Warden/Warden.cpp:56-59 | there are no bursts exactly when the module size is 0 |
| WardenTransfer.BurstsUnfold | src/server/game/Warden/Warden.cpp:61-66 | one loop pass takes a burst of min(sizeLeft, 500) bytes off the front of the remaining data |
| WardenTransfer.ChunkPacket | src/server/game/Warden/Warden.cpp:62-64 | a transfer packet is the burst behind a 3-byte header that starts with MODULE_CACHE |
| WardenTransfer.ChunkPacketShape | src/server/game/Warden/Warden.cpp:62-70 | a transfer packet is burst + 3 bytes, with Command = MODULE_CACHE and DataSize = the burst length, and the client decodes the burst back from it |
| WardenTransfer.ModuleUseMessage | src/server/game/Warden/Warden.cpp:80-85 | the module-use message is 37 bytes: MODULE_USE, then the module's 16-byte Id and 16-byte Key |
| WardenTransfer.ModuleUseRoundTrip | src/server/game/Warden/Warden.cpp:80-85 | the module-use message is 37 bytes and decodes to the module's Id, Key and CompressedSize |
| WardenTransfer.EncryptedChunksSnoc | src/server/game/Warden/Warden.cpp:68-71 | each further packet is encrypted where the previous packets left the output stream, and consumes burst + 3 keystream bytes |
| WardenTransfer.ChunksRoundTrip | src/server/game/Warden/Warden.cpp:59-72 | a client decrypting the transfer packets in sending order with the server's output keystream recovers every burst |
| WardenTransfer.ModuleDeliveredIntact | src/server/game/Warden/Warden.cpp:49-73 | end to end: decrypting the packets in order, decoding them and concatenating the bursts gives back the module's compressed data |
| WardenChecksum.Checksum | src/server/game/Warden/Warden.cpp:173-182 | the checksum `BuildChecksum` is proved against: the XOR fold of the digest's five words. It has no contract of its own; `ChecksumIsFiveWordXor` and `ChecksumBytes` state what it is |
| WardenChecksum.BuildChecksum | src/server/game/Warden/Warden.cpp:173-182 | the loop's result is the XOR fold of the five little-endian digest words of the hashed prefix |
| WardenChecksum.ChecksumIsFiveWordXor | src/server/game/Warden/Warden.cpp:177-179 | the fold equals w0 ^ w1 ^ w2 ^ w3 ^ w4 |
| WardenChecksum.ChecksumBytes | src/server/game/Warden/Warden.cpp:158-179 | through the union, byte k of the checksum is the XOR of digest bytes k, 4+k, 8+k, 12+k and 16+k |
| WardenChecksum.IsValidCheckSum | src/server/game/Warden/Warden.cpp:142-156 | returns true if and only if the claimed checksum equals the one recomputed over the first `length` bytes |
| WardenPenalty.ResolveAction | src/server/game/Warden/Warden.cpp:186-191 | the check's own action when a check is given, else the configured default |
| WardenPenalty.ActionName | src/server/game/Warden/Warden.cpp:193-218 | "None" iff LOG, "Kick" iff KICK, "Ban" iff BAN, "Undefined" iff any other action |
| WardenPenalty.NatToDecimal | src/server/game/Warden/Warden.cpp:209 | `%u` yields a non-empty string of decimal digits |
| WardenPenalty.DecimalRoundTrip | src/server/game/Warden/Warden.cpp:209 | the printed digits read back as the number |
| WardenPenalty.BanReasonExtendsBase | src/server/game/Warden/Warden.cpp:206-209 | the reason without a check is a proper prefix of every reason with one |
| WardenPenalty.BanReasonIdentifiesCheck | src/server/game/Warden/Warden.cpp:206-209 | for equal comments, equal ban reasons imply equal check ids |
| WardenPenalty.BanReason | src/server/game/Warden/Warden.cpp:206-209 | the reason always starts with the base text, is exactly the base text iff no check is known, and otherwise continues with ": " and ends with the check's decimal id |
| WardenPenalty.SignedDecimal | src/server/game/Warden/Warden.cpp:211 | `%d` of the configured duration: its decimal digits below 2^31, and a minus sign followed by the digits of 2^32 minus the value from 2^31 on, as the `int32` reading of the bits gives |
| WardenPenalty.BanDuration | src/server/game/Warden/Warden.cpp:211 | the duration string is the signed decimal of the configured seconds followed by `s`: the plain digits below 2^31, a minus sign and the digits of 2^32 minus the value from 2^31 on |
| WardenTimers.Elapsed | src/server/game/Warden/Warden.cpp:99-100 | the elapsed time is right across a wrap of the 32-bit game clock |
| WardenTimers.DelayLimit | src/server/game/Warden/Warden.cpp:110 | the limit is the delay times 1000 in `uint32` arithmetic: the exact product when it fits, and always congruent to it modulo 2^32 |
| WardenTimers.UpdateTimers | src/server/game/Warden/Warden.cpp:95-130 | nothing happens before initialization; the timestamp is updated; a challenge is issued iff no challenge is outstanding and the elapsed time reaches the countdown; a kick happens iff one is outstanding, a delay is configured and the response timer exceeds it; the countdown is untouched while a challenge is outstanding, and the response timer otherwise |
| WardenTimers.Run | src/server/game/Warden/Warden.cpp:95-130 | repeated updates yield one action per update |
| WardenTimers.UninitializedIsInert | src/server/game/Warden/Warden.cpp:97 | any number of updates before initialization change nothing and do nothing |
| WardenTimers.NoKickWithoutLimit | src/server/game/Warden/Warden.cpp:107-118 | with the delay set to 0, no sequence of updates kicks, and the response timer never moves |
| WardenTimers.NoChallengeWhileAwaiting | src/server/game/Warden/Warden.cpp:103-119 | while a challenge is outstanding, no further challenge is issued and the countdown stays frozen |
| WardenTimers.KickPersists | src/server/game/Warden/Warden.cpp:110-115 | once the response timer exceeds the limit, every later update kicks and the timer stays put |
| WardenTimers.CountdownIsExact | src/server/game/Warden/Warden.cpp:122-127 | until a challenge is issued, the countdown drops by exactly the total elapsed time, so it never underflows |
| WardenTimers.ResponseTimerAccumulates | src/server/game/Warden/Warden.cpp:116-117 | until a kick, the response timer grows by the total elapsed time modulo 2^32 |
| WardenSession.TimerEffects | src/server/game/Warden/Warden.cpp:114-124 | a timer step does nothing, calls `RequestData`, or kicks with the update reason, matching its action one to one |
| WardenSession.PenaltyEffects | src/server/game/Warden/Warden.cpp:193-218 | at most one effect; a kick exactly for KICK, a ban exactly for BAN |
| WardenSession.OpcodeEffects | src/server/game/Warden/Warden.cpp:232-256 | at most two effects; two exactly for HASH_RESULT; none exactly for opcodes other than MODULE_OK, CHEAT_CHECKS_RESULT and HASH_RESULT |
| WardenSession.PenaltyOutcome | src/server/game/Warden/Warden.cpp:193-218 | a penalty has at most one effect: a kick exactly for KICK; a ban exactly for BAN, and a ban does not also kick; nothing for LOG or an unknown action. The ban names the account, the duration and the "Server" author, and its reason is qualified exactly when a check is known |
| WardenSession.OpcodeDispatch | src/server/game/Warden/Warden.cpp:232-256 | apart from MODULE_MISSING: MODULE_OK, CHEAT_CHECKS_RESULT and HASH_RESULT reach their handler with the rest of the packet; HASH_RESULT and only it is followed by `InitializeModule`; MEM_CHECKS_RESULT, MODULE_FAILED and unknown opcodes do nothing |
| WardenSession.XorInPlace | src/server/game/Warden/Warden.cpp:132-140 | the first `length` bytes of the buffer are combined with the keystream from the stream's position, and the rest is untouched |
| WardenSession.ComposeChunk | src/server/game/Warden/Warden.cpp:61-64 | the head of the transfer buffer holds the plaintext packet of the burst |
| WardenSession.SendStep | src/server/game/Warden/Warden.cpp:68-71 | sending one more encrypted chunk extends the trace of chunk packets by that chunk |
| WardenSession.Warden.constructor | src/server/game/Warden/Warden.cpp:33-39 | a ten-second countdown, zero timers and timestamp, no module, not initialized, zeroed keys and seed, both streams at position 0 |
| WardenSession.Warden.DecryptData | src/server/game/Warden/Warden.cpp:132-135 | the buffer is run through the input stream, only the input stream advances, and it advances by `length` |
| WardenSession.Warden.EncryptData | src/server/game/Warden/Warden.cpp:137-140 | the buffer is run through the output stream, only the output stream advances, and it advances by `length` |
| WardenSession.Warden.SendModuleToClient | src/server/game/Warden/Warden.cpp:49-73 | the trace gains exactly one encrypted transfer packet per burst, in order; the output stream advances by their total length |
| WardenSession.Warden.SendBurst | src/server/game/Warden/Warden.cpp:61-71 | one loop pass sends a burst of min(sizeLeft, 500) bytes and keeps the loop's invariant |
| WardenSession.Warden.SendChunk | src/server/game/Warden/Warden.cpp:62-71 | one encrypted packet of burst + 3 bytes is sent, and the output stream advances by that much |
| WardenSession.Warden.Dispatch | src/server/game/Warden/Warden.cpp:232-256 | MODULE_MISSING sends the module, and only it needs one loaded; any other opcode has the effects of `OpcodeEffects`, and leaves the output stream where it was |
| WardenSession.Warden.RequestModule | src/server/game/Warden/Warden.cpp:75-93 | the trace gains one packet, the module-use message encrypted with the output stream, and the stream advances by 37 |
| WardenSession.Warden.Update | src/server/game/Warden/Warden.cpp:95-130 | the timers take exactly the step of `UpdateTimers`, and that step's action is carried out |
| WardenSession.Warden.Penalty | src/server/game/Warden/Warden.cpp:184-219 | returns the name of the resolved action, and carries out exactly its penalty effects |
| WardenSession.HandleWardenData | src/server/game/Warden/Warden.cpp:221-257 | a missing warden or an empty packet changes nothing. Otherwise the whole packet is decrypted with the input stream alone, the timers, module and keys are kept, and the first byte selects the effect. A loaded module is needed only when that byte decrypts to MODULE_MISSING |
| DkDeathStrike.Shifted | src/server/scripts/Spells/spell_dk.cpp:640-645 | after the tick, slot 0 is 0 and every other slot holds its predecessor's old value |
| DkDeathStrike.WithDamage | src/server/scripts/Spells/spell_dk.cpp:653-656 | a proc adds its damage to slot 0 with `uint32` wrap-around; the other slots keep their values |
| DkDeathStrike.WindowAmount | src/server/scripts/Spells/spell_dk.cpp:647-651 | the reported amount is the window's sum when it fits in `int32`, negative exactly when the wrapped sum reaches 2^31, and always the same bits as the sum |
| DkDeathStrike.ShiftForgetsOldest | src/server/scripts/Spells/spell_dk.cpp:640-645 | a tick forgets exactly the oldest slot's damage |
| DkDeathStrike.ProcAddsDamage | src/server/scripts/Spells/spell_dk.cpp:653-656 | a proc raises the wrapped total by its damage, and the exact total when slot 0 does not wrap |
| DkDeathStrike.FiveTicksClear | src/server/scripts/Spells/spell_dk.cpp:633-645 | five ticks without damage clear the window |
| DkDeathStrike.DeathStrikeEnabler.constructor | src/server/scripts/Spells/spell_dk.cpp:667 | the window is five zero slots |
| DkDeathStrike.DeathStrikeEnabler.Update | src/server/scripts/Spells/spell_dk.cpp:640-645 | the array afterwards is the shifted window |
| DkDeathStrike.DeathStrikeEnabler.HandleProc | src/server/scripts/Spells/spell_dk.cpp:653-656 | the array afterwards is the window with the damage in slot 0 |
| DkDeathStrike.DeathStrikeEnabler.HandleCalcAmount | src/server/scripts/Spells/spell_dk.cpp:647-651 | the accumulating loop returns the window's amount, and it may always be recalculated |
| DkDeathStrike.TruncDiv | src/server/scripts/Spells/spell_dk.cpp:580 | C++ integer division: the remainder is at least 0 and below the divisor for a non-negative dividend, and above minus the divisor and at most 0 for a negative one, so the quotient rounds toward zero |
| DkDeathStrike.CalculatePct | src/server/scripts/Spells/spell_dk.cpp:572-574 | the percentage is the product divided by 100 and rounded toward zero: the remainder lies in 0..99 for a non-negative product and in -99..0 for a negative one |
| DkDeathStrike.DeathStrikeHeal | src/server/scripts/Spells/spell_dk.cpp:569-581 | there is a heal exactly when the enabler is present. Without Hemostasis, the heal is at least both the damage share and the maximum-health share, and equals one of them |
| DkDeathStrike.HealMonotoneInDamage | src/server/scripts/Spells/spell_dk.cpp:572-575 | with a non-negative damage percentage, more recent damage never gives a smaller heal |
| DkDeathStrike.HemostasisNeverLowers | src/server/scripts/Spells/spell_dk.cpp:577-581 | a non-negative Hemostasis bonus never lowers a non-negative heal |
| DkRunes.Keys | src/server/scripts/Spells/spell_dk.cpp:756-757 | the pair at position i is (cooldown of rune i, i) |
| DkRunes.CollectKeys | src/server/scripts/Spells/spell_dk.cpp:756-757 | the filling loop yields the pairs of `Keys` |
| DkRunes.Insert | src/server/scripts/Spells/spell_dk.cpp:759 | insertion adds exactly the one pair |
| DkRunes.SortKeys | src/server/scripts/Spells/spell_dk.cpp:759 | the sort permutes its input |
| DkRunes.SortKeysSorted | src/server/scripts/Spells/spell_dk.cpp:759 | sorting distinct pairs yields a strictly ascending order by (cooldown, index) |
| DkRunes.SortedIsRuneOrder | src/server/scripts/Spells/spell_dk.cpp:756-759 | the sorted vector is ascending, lists each rune once with its own cooldown, and names only existing runes |
| DkRunes.Clamp | src/server/scripts/Spells/spell_dk.cpp:751-753 | the amount clamped to the rune count: at most both, and equal to one of them |
| DkRunes.Refreshed | src/server/scripts/Spells/spell_dk.cpp:751-762 | exactly min(amount, rune count) runes are reset, and each is an existing rune |
| DkRunes.RefreshedAreTop | src/server/scripts/Spells/spell_dk.cpp:759-762 | every reset rune comes after every rune left alone in (cooldown, index) order, so the reset runes are those with the largest cooldowns |
| DkRunes.ResetFrom | src/server/scripts/Spells/spell_dk.cpp:760-764 | the final loop sets cooldown 1 for the runes at sorted positions from the cut on, and leaves all other runes alone |
| DkRunes.RefreshRunes | src/server/scripts/Spells/spell_dk.cpp:748-766 | the runes chosen by `Refreshed` get cooldown 1, and every other rune keeps its cooldown |
| DkRunes.Countdown | src/server/scripts/Spells/spell_dk.cpp:760 | the positions a downward loop from i reads in n steps |
| DkRunes.AsWrittenNeverExits | src/server/scripts/Spells/spell_dk.cpp:760 | the `uint8` loop with bound 0 (amount equal to the rune count) never exits, within any number of steps |
| DkRunes.AsWrittenReadsOutOfRange | src/server/scripts/Spells/spell_dk.cpp:760-762 | for every rune count from 1 to 255 and an amount of at least that count, the loop as written reads the positions count - 1 down to 0, then position 255, which is not below the rune count, and has not exited |
| DkRunes.AsWrittenWraps | src/server/scripts/Spells/spell_dk.cpp:760 | from counter i with bound 0, the first i + 2 steps read i down to 0 and then 255, without exiting |
| DkRunes.AsWrittenCountdown | src/server/scripts/Spells/spell_dk.cpp:760 | with a bound of at least 1, the loop as written reads exactly i down to the bound and exits |
| DkRunes.AsWrittenAgreesBelowCount | src/server/scripts/Spells/spell_dk.cpp:760-764 | below the rune count, the loop as written reads exactly the top `amount` positions, as the corrected loop does |
| DkBoneShield.TombstoneWith | src/server/scripts/Spells/spell_dk.cpp:887-888 | no charge is lost or created; at most five are consumed, and fewer only when none are left |
| DkBoneShield.TombstoneRewards | src/server/scripts/Spells/spell_dk.cpp:887-890 | the absorb is the consumed charges' 6% shares of maximum health rounded down, so at most 30% of it; runic power is 60 per charge, at most 300 |
| DkBoneShield.TombstoneOwner.Apply | src/server/scripts/Spells/spell_dk.cpp:881-891 | without Bone Shield nothing changes. Otherwise the charges drop by the consumed count, the amount becomes the absorb, and runic power rises by the gain |
| DkBoneShield.BonestormHeal | src/server/scripts/Spells/spell_dk.cpp:1706 | one heal is 3 times the whole hundredths of maximum health: a multiple of 3, at most 3% of maximum health and less than 3 below it |
| DkBoneShield.HitsCapped | src/server/scripts/Spells/spell_dk.cpp:1700-1709 | from a counter in 0..5, n hits heal min(n, 5 - counter) times, each for the same amount; the counter stays at most 5 |
| DkBoneShield.Hits | src/server/scripts/Spells/spell_dk.cpp:1700-1709 | n hits heal at most n times, each for one Bonestorm heal; the counter never goes down, and a counter already at 5 heals no more |
| DkBoneShield.BonestormDummy.constructor | src/server/scripts/Spells/spell_dk.cpp:1700 | the hit counter starts at 0 with no heal dealt |
| DkBoneShield.BonestormDummy.Hit | src/server/scripts/Spells/spell_dk.cpp:1701-1709 | one hit advances the counter and the heals exactly as `Hits` does for one hit |
| Onyxia.MoveIndex | src/server/scripts/Kalimdor/OnyxiasLair/boss_onyxia.cpp:101-111 | a waypoint entry exists iff the point is below 8, and entry i has LocId i |
| Onyxia.Opposite | src/server/scripts/Kalimdor/OnyxiasLair/boss_onyxia.cpp:101-111 | the point across the room is another waypoint, whose own opposite is the starting point: LocIdEnd is an involution without a fixed point |
| Onyxia.GetMoveData | src/server/scripts/Kalimdor/OnyxiasLair/boss_onyxia.cpp:297-308 | the linear search returns the first entry whose LocId is the current point, or none iff no entry matches; it agrees with `MoveIndex` |
| Onyxia.NextRandomPoint | src/server/scripts/Kalimdor/OnyxiasLair/boss_onyxia.cpp:310-320 | the next point is never the current one and is at most 8 |
| Onyxia.NextRandomPointChoices | src/server/scripts/Kalimdor/OnyxiasLair/boss_onyxia.cpp:310-320 | from a waypoint, every other point up to 8 is reached by exactly one draw, and draw 7 yields 8, which has no entry |
| Onyxia.DrainKeepsPhase | src/server/scripts/Kalimdor/OnyxiasLair/boss_onyxia.cpp:417-482 | the event loop never changes the phase |
| Onyxia.GroundEvent | src/server/scripts/Kalimdor/OnyxiasLair/boss_onyxia.cpp:353-386 | in phases START and END the five ground events each cast a spell and reschedule themselves with a minimum delay no larger than the maximum; any other event does nothing |
| Onyxia.AirEvent | src/server/scripts/Kalimdor/OnyxiasLair/boss_onyxia.cpp:419-478 | in phase BREATH an event keeps the phase; it returns from `UpdateAI` exactly when it is a movement event that, while not moving, picks a point without an entry, and then has no effect; only the movement event touches the point, its entry and the flight flag, and only the whelp event touches the counter; every other handled event reschedules itself last; unhandled events do nothing |
| Onyxia.ExecuteEvent | src/server/scripts/Kalimdor/OnyxiasLair/boss_onyxia.cpp:351-390 | no event changes the phase; outside BREATH the state stays as it is and the loop goes on; only a BREATH movement event returns from `UpdateAI` |
| Onyxia.UpdateStep | src/server/scripts/Kalimdor/OnyxiasLair/boss_onyxia.cpp:322-349 | without a victim nothing happens; while casting, apart from a phase change, nothing happens |
| Onyxia.PhaseTransitions | src/server/scripts/Kalimdor/OnyxiasLair/boss_onyxia.cpp:324-405 | START becomes BREATH iff there is a victim and health is below 65%; BREATH becomes END iff there is a victim and health is below 40%; END is final; phases move forward at most one step per update |
| Onyxia.BreathReschedule | src/server/scripts/Kalimdor/OnyxiasLair/boss_onyxia.cpp:421-460 | while flying, the deep breath, movement and fireball events come back after 1 s, 500 ms and 1 s; otherwise after 75 s, 25 s (when the new point exists, setting the boss moving) and 8 s |
| Onyxia.WhelpSpawnRule | src/server/scripts/Kalimdor/OnyxiasLair/boss_onyxia.cpp:465-475 | two summons per event; the whelps actually summoned are counted first; when the count reaches 20 (40 in 25-player mode) the counter resets and the event waits 90 s; otherwise the counter keeps the new count and the event returns in 500 ms; nothing else changes |
| Onyxia.WhelpWaveEndsOnTwentieth | src/server/scripts/Kalimdor/OnyxiasLair/boss_onyxia.cpp:466-471 | in 10-player mode, from 18 counted whelps, an event that summons both whelps resets the counter and waits 90 s; one that summons a single whelp keeps 19 and returns in 500 ms |
| Onyxia.CountWhelps | src/server/scripts/Kalimdor/OnyxiasLair/boss_onyxia.cpp:182-183 | the counter after the summoned whelps are counted: the exact sum when it fits in a `uint8`, and congruent to it modulo 256 |
| Onyxia.MovementStallsOnMissingPoint | src/server/scripts/Kalimdor/OnyxiasLair/boss_onyxia.cpp:435-442 | draw 7 selects point 8, for which there is no entry: the movement event returns without rescheduling itself |
| Onyxia.MovementLeavesPoint | src/server/scripts/Kalimdor/OnyxiasLair/boss_onyxia.cpp:435-439 | a movement event never keeps the current point |
| Onyxia.OnyxiaAI.constructor | src/server/scripts/Kalimdor/OnyxiasLair/boss_onyxia.cpp:139-148 | the AI starts as `Initialize` leaves it, with the event handler of its raid size |
| Onyxia.OnyxiaAI.Initialize | src/server/scripts/Kalimdor/OnyxiasLair/boss_onyxia.cpp:139-148 | phase START, a waypoint among 0..5 with its own entry, no whelps, not moving |
| Onyxia.OnyxiaAI.Reset | src/server/scripts/Kalimdor/OnyxiasLair/boss_onyxia.cpp:150-161 | the same state as `Initialize` |
| Onyxia.OnyxiaAI.JustSummoned | src/server/scripts/Kalimdor/OnyxiasLair/boss_onyxia.cpp:174-191 | each whelp raises the `uint8` counter by one, wrapping at 256; other summons leave it alone |
| Onyxia.OnyxiaAI.SpellHit | src/server/scripts/Kalimdor/OnyxiasLair/boss_onyxia.cpp:199-214 | one of the six flipping breaths sets the next point to the one across the room and the current entry as `PointData`, and moves the boss to the middle of the room; any other spell changes nothing |
| Onyxia.OnyxiaAI.MovementInform | src/server/scripts/Kalimdor/OnyxiasLair/boss_onyxia.cpp:216-275 | per point: 8 goes on to the waypoint when it exists; 9 schedules the phase-3 events; 10 summons the trigger, takes off and schedules the phase-2 events; 11 goes on to the waypoint; any other point ends the flight; a non-point movement changes nothing |
| Onyxia.OnyxiaAI.HandleEvent | src/server/scripts/Kalimdor/OnyxiasLair/boss_onyxia.cpp:419-478 | one event changes the state and the trace exactly as `ExecuteEvent` does in the current phase, and reports whether `UpdateAI` returns |
| Onyxia.OnyxiaAI.SpawnWhelps | src/server/scripts/Kalimdor/OnyxiasLair/boss_onyxia.cpp:465-475 | the whelp event changes the counter and the trace exactly as `AirEvent` says, counting each summoned whelp through `JustSummoned` before the test |
| Onyxia.OnyxiaAI.DrainEvents | src/server/scripts/Kalimdor/OnyxiasLair/boss_onyxia.cpp:417-482 | the loop runs the due events in order as `Drain` does, stopping at a returning handler or when the boss is casting |
| Onyxia.OnyxiaAI.UpdateAI | src/server/scripts/Kalimdor/OnyxiasLair/boss_onyxia.cpp:322-484 | one update gives exactly the state and engine calls of `UpdateStep`, whose phase behaviour `PhaseTransitions` states |

## Left out

- SHA-1 and RC4: the SHA-1 digest function and the RC4 keystreams are parameters. Their internals are foreign code outside this model.
- Network, logging and configuration:
  - `WorldPacket` building, `SendPacket`, `KickPlayer`, `BanAccount` and `AccountMgr::GetName` are recorded effects or parameters;
  - `TC_LOG_*` output and `hexlike` are dropped;
  - the `sWorld` configuration values (response delay, fail action, ban duration) are parameters;
  - the game clock `GameTime::GetGameTimeMS` is a parameter of `Update`.
- The subclass methods `RequestData`, `RequestHash`, `HandleData`, `HandleHashResult` and `InitializeModule` are recorded as effects. The subclasses that define them are not part of this model. So the model does not capture how they change `_dataSent`, `_checkTimer` or `_initialized`.
- The destructor of `Warden` (Warden.cpp:41-47) frees memory and is not modelled.
- WardenSession.Warden.SendModuleToClient, WardenSession.Warden.RequestModule: these require a loaded module, because the source dereferences `_module` without a check. `Warden.h`, where the module is set, is not part of this model.
- WardenSession.Warden.Dispatch and WardenSession.HandleWardenData require a loaded module only for a MODULE_MISSING request, which calls `SendModuleToClient`; the other opcodes do not read the module.
- WardenSession.HandleWardenData requires the packet to be shorter than 2^32 bytes, because its size is passed as a `uint32` length.
- WardenPenalty.BanReason reproduces the missing closing parenthesis of the format string at Warden.cpp:209.
- Three behaviours of the code are modelled as written:
  - WardenSession.PenaltyOutcome: a ban does not also kick (Warden.cpp:202-214);
  - WardenTimers.UpdateTimers: the response timeout in `Update` kicks the player directly; it does not go through `Penalty` (Warden.cpp:110-115);
  - WardenTimers.UpdateTimers: `Update` resets no timer when it issues a challenge; any reset would happen in the subclass's `RequestData`, which is not part of this model (Warden.cpp:120-125).
- Warden.h, WardenCheckMgr.h and the other headers are not part of this model. The opcode values (0-5 for client messages, 0 and 1 for MODULE_USE and MODULE_CACHE) and the action values (LOG 0, KICK 1, BAN 2) follow the enums that `Warden.cpp` names.
- DkDeathStrike.DeathStrikeHeal:
  - `CalculatePct` is computed in floating point in the engine; the model uses exact integer percentages truncated toward zero;
  - the final `int32` truncation of the heal is not modelled;
  - the heal cast, the Blood Shield absorb and the aura removals after it (spell_dk.cpp:582-600) are engine calls and are not modelled.
- DkRunes.RefreshRunes:
  - it requires fewer than 256 runes, because the source's `uint8` indices would wrap otherwise;
  - `ResyncRunes`/`UpdateAllRunesRegen` are engine calls and are not modelled;
  - the loop uses the corrected bound (see Findings).
- DkBoneShield.TombstoneOwner.Apply:
  - runic power is not clamped to its maximum, since `ModifyPower` is engine code;
  - the `int32` truncation of the absorb is not modelled;
  - the removal of the aura when its charges reach 0 is not modelled.
- DkBoneShield.BonestormDummy.Hit: the heal is recorded rather than dealt. The `int8` counter never passes 5, so its width does not matter.
- Onyxia.HealthBelowPct: the engine compares a floating-point health percentage; the model compares health with the truncated share of maximum health.
- Onyxia.OnyxiaAI:
  - motion-master, summon and `EventMap` behaviour is engine-owned and is recorded as effects, including:
    - delays drawn at random between a minimum and a maximum;
    - whether a summon succeeds, except for the whelps: how many of an event's two whelps are summoned is an input of the event, and each is counted before the counter is tested;
  - the coordinates of `MoveData`, speeds, facing, `Talk`, the instance data and the tank and trigger GUIDs are not modelled;
  - the fireball's target and cast, and the floor eruption of the bellowing roar, are not modelled;
  - the casting state is an input of each update and of each event, so the `HasUnitState(UNIT_STATE_CASTING)` test inside the movement event folds into the check after the previous event;
  - `JustEngagedWith`, `KilledUnit` and `SpellHitTarget` are not modelled;
  - `PHASE_START`, `PHASE_BREATH` and `PHASE_END` are defined in a header that is not part of this model; the phases are a datatype.
- Onyxia.OnyxiaAI.SpellHit requires the current point to be a waypoint when the spell flips it, because the source dereferences `PointData` without a null check.
- Onyxia.OnyxiaAI.UpdateAI, Onyxia.OnyxiaAI.DrainEvents, Onyxia.OnyxiaAI.HandleEvent: these state their effect through the AI's `handler`. The constructor proves that the handler is `ExecuteEvent` for the AI's raid size.

## Findings

| source | as written | input that shows it | evidently intended | confidence | as-written member | corrected member |
|---|---|---|---|---|---|---|
| src/server/scripts/Spells/spell_dk.cpp:760 | the reset loop counts a `uint8` down while it is at least `runes - amount`, a bound that is 0 once the amount is clamped to the rune count | six runes and amount 6 (or more): positions 5..0 are read, then the counter wraps to 255 and the loop reads past the six-element vector and never exits; `DkRunes.AsWrittenReadsOutOfRange` proves this for every rune count from 1 to 255 | reset the top `amount` runes and stop, for every amount | not executed | DkRunes.AsWrittenReadsOutOfRange | DkRunes.RefreshRunes |

The loop bound above is 0 whenever the amount is at least the rune count, and `DkRunes.AsWrittenNeverExits` proves that the loop as written then never exits, whatever the starting counter. This includes zero runes, where the counter starts at 255. `DkRunes.AsWrittenAgreesBelowCount` shows that for smaller amounts the loop as written and the corrected loop read the same positions. The corrected `RefreshRunes` counts down with an `int`. `DkRunes.Refreshed` and `DkRunes.RefreshedAreTop` prove that it resets exactly min(amount, rune count) runes, and that these are the runes with the largest cooldowns.
