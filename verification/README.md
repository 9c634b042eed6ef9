# Verification of parcel

parcel is a small encrypted chat: clients connect to a daemon over TCP, agree on a common session key
by a ring of Diffie-Hellman exchanges that the daemon turns, and send each other messages, which the
daemon forwards without being able to read them. This project models its cryptography, its key
exchange, its wire format and its line editor in Dafny and proves what they promise.

It has five parts.

- **X25519 on limbs** (`MachineInt`, `Field`, `Limbs`, `X25519`, `Ladder`, `Montgomery`). Field elements are sixteen
  signed 64-bit limbs that are changed in place. `int64` is a newtype with the range of the C type, so
  every addition, product and shift is proved not to overflow. The bytes that `ScalarMult` writes are
  those of the function X25519 of section 5 of RFC 7748, whose loop swaps lazily where the program
  swaps back at once; and what that function computes is the multiple of a point of the curve
  v^2 = u^3 + 486662 u^2 + u that the scalar names. Packing is canonical.
- **The group exchange and the daemon** (`GroupSecret`, `Protocol`, `ProtocolSafety`,
  `ProtocolCables`, `ProtocolLiveness`, `ProtocolDelivery`, `ExchangeOutcome`, `AnnouncementRun`,
  `Daemon`). Daemon, clients and users are a machine of interleaved steps over one queue per direction and socket, for any
  scalar action that commutes: joins, leaves, the steps of the exchanges, the announcement that each
  client sends, the messages of users and their forwarding. Every reachable state satisfies one
  invariant; nothing gets stuck; every exchange ends; it fails exactly if a cable is in its way; and
  when the queues have drained, all clients hold the daemon's control key and one session key. What a
  user says reaches every other client under the key that it holds then. The table of sockets, the
  descriptor set and the scan over ready descriptors are a class, which accounts for each descriptor.
- **AES, CBC and CMAC under wires and cables** (`SubstitutionBox`, `Galois`, `Aes`, `AesState`,
  `KeySchedule`, `AesExamples`, `Modes`, `AesContext`, `WireUtil`, `Wire`, `Cable`, `ControlMessage`).
  The cipher of FIPS 197 and its inverse run in place on a byte buffer; the authentication code is that
  of RFC 4493;
  sealing a wire and opening it, with a second key to fall back on, is a round trip; received bytes of
  any number and content are opened, rejected or shown to run over their buffer, each under an exact
  condition; and a stream of cables gives back the wires that went in, however reads and writes are cut.
- **SHA-256** (`Sha256`, `Sha256Laws`, `Sha256Example`). The streaming form equals FIPS 180-4 on the concatenation of what was
  appended, and the rotating table of indices stands for the shift of the working variables.
- **The line editor** (`WidthTables`, `Utf8`, `Editor`, `Typing`, `Console`). The byte buffer with its cached
  widths stands for a list of codepoints and a place in it, and the row arithmetic of a redrawing
  wraps exactly where the prompt ends at the edge of the console and the line is empty. The growth of the
  buffer is part of it.

The functions that the methods are proved against are themselves held to something that does not mention
them. The step of the ladder is the doubling and the differential addition of the curve; the field
multiplication of AES is a product of polynomials, its substitution an inverse, its subkeys a product
with x; the functions of SHA-256 are stated bit by bit and its constants as roots of primes; and for the
order of the parts there are the worked examples of the standards: the expanded key and the block of
appendices A.1 and B of FIPS 197, the codes of section 4 of RFC 4493, and the digest of "abc" in FIPS
180-4. The formats have examples in bytes.

A class or a method on arrays is used where the program changes things in place; `old`-valued
contracts tie the new state to a function of the old one, and lemmas about those functions carry the
meaning. Conventions: `e[a..b]` of a buffer is what the C code reaches through a pointer and a length;
shifts and masks of the limb code are written as the divisions and remainders that they stand for,
rounding down; `hide` statements keep definitions out of proofs that do not need them.

Where the code does something other than its comments or its callers expect, the condition is exact and
there is an input:

- `rotate_intermediates` reads a socket without looking for cables. An exchange fails if and only if a
  cable comes before an intermediate in some socket (`ExchangeOutcome.FailsExactlyIfDisturbed`), that is,
  one was waiting or an announcement was due when it began, or a user sent one in it too early
  (`BeginsDisturbed`, `SayDisturbs`). No user is needed: three clients that join one after the other
  are enough (`AnnouncementRun.AnnouncementEndsDaemon`).
- `n_party_server` asserts that somebody is connected, but is called after the last client has left:
  `ProtocolLiveness.LeaveAborts` and, for a run, `LastClientEndsDaemon`.
- `decrypt_wire` tells its keys apart by address. Its retries go on forever if and only if the inner
  code fails under the first key and the second is the same buffer: `Wire.RetriesForever`, and
  `Wire.SpoiltWireRetriesForever` for a wire.
- `decrypt_wire` takes the length that was received for that of whole blocks behind a header of 64
  bytes. It goes past the buffer if and only if a wire passes its checks and is not that:
  `Wire.AcceptedExactlyIfAuthentic`, and `Wire.OverrunsExactlyIfUnfit` for the wires.
- `cable_recv_remaining` subtracts 14 from a length that it was sent. A smaller one wraps:
  `Cable.RemainingFits`, and `Cable.ShortLengthWraps` for a header.
- `xrecvall` goes on forever if and only if the stream ends before the bytes that it was asked for:
  `Cable.ReadsForever`, and `Cable.ClosedPeerAwaited` for a peer that sends nothing.
- `flush_console` subtracts below zero exactly when the prompt ends at the edge of the console and the
  line is empty (`Console.PlanExact`, `Console.EmptyLineWraps`). Behind such a prompt the first drawing
  starts one row too high even where nothing wraps (`Console.FirstDrawingInPlace`,
  `Console.RowAboveCleared`).
- `move_cursor_word_start` reads before the buffer if and only if no word starts behind a space before the
  cursor (`Console.Line.MoveCursorWordStart`, `Editor.JumpReachesStart`), for one on an empty line
  (`Editor.FirstWordExamples`).
- `xgetline` doubles the buffer of the line where just two bytes are left in it. That keeps room for what
  is typed if and only if all codepoints have one byte or all have two: `Typing.NeverOverrunsExactly`,
  `Typing.OverrunsExactly` for a single key, and `Typing.SteppedOver` for a line of 62 codepoints.

`socket_index` would look behind its table exactly for a socket in no slot (`Daemon.Server.SocketIndex`),
but is never asked for one (`Daemon.Server.Scan`).

## Model

| member | source | states |
|---|---|---|
| `MachineInt.XorSwap` | src/crypto/x25519.c:111-118 | exclusive-or with a mask of all ones exchanges two words and with a mask of zeros keeps them, for every pair of 64-bit words |
| `Limbs.CarryReduce` | src/crypto/x25519.c:27-39 | one pass takes a value of bounded limbs down by exactly 2p times its quotient by 2^256, leaves limbs 1 to 15 in 0..2^16-1, and keeps the element; no int64 operation overflows |
| `Limbs.NextCarry` | src/crypto/x25519.c:57-58 | after one pass the next carries out -1, 0 or 1, so limb 0 ends in -38..2^16+37 |
| `Limbs.Schoolbook` | src/crypto/x25519.c:43-48 | the 31 columns have the value of the product of the operands, and none overflows |
| `Limbs.FoldHigh` | src/crypto/x25519.c:50-53 | adding 38 times the high columns to the low ones keeps the value modulo p |
| `Limbs.Multiply` | src/crypto/x25519.c:41-59 | the product of two elements, congruent modulo p, with all limbs back in the ranges that the next operation relies on |
| `X25519.Add` | src/crypto/x25519.c:82-94 | the sum of two products, small enough to multiply again |
| `X25519.Subtract` | src/crypto/x25519.c:96-108 | the difference of two products, small enough to multiply again |
| `X25519.Swap` | src/crypto/x25519.c:110-118 | two elements change places exactly if the bit is one |
| `X25519.InverseExponentTotal` | src/crypto/x25519.c:73-78 | the squarings and skipped multiplications add up to the exponent p - 2 |
| `X25519.Inverse` | src/crypto/x25519.c:69-80 | raises to the power p - 2, also when source and destination are one array |
| `X25519.CarryThrice` | src/crypto/x25519.c:125-128 | three passes bring every limb of any product into 0..2^16-1 |
| `X25519.SubtractP` | src/crypto/x25519.c:132-142 | one round of the rippled borrow subtracts p exactly if the value is at least p |
| `X25519.Pack` | src/crypto/x25519.c:120-149 | writes the least non-negative representative, little-endian |
| `X25519.Unpack` | src/crypto/x25519.c:151-157 | reads the bytes as a number and drops bit 255 |
| `MontgomeryLadder.PackCanonical` | src/crypto/x25519.c:120-157 | two elements are congruent if and only if their bytes are equal, and reading packed bytes back gives a congruent element |
| `MontgomeryLadder.FirstHalf` | src/crypto/x25519.c:186-208 | v1 to v8 of the loop body |
| `MontgomeryLadder.SecondHalf` | src/crypto/x25519.c:210-238 | v9 to v18 of the loop body |
| `MontgomeryLadder.Step` | src/crypto/x25519.c:186-238 | the body between the swaps is the differential step of RFC 7748, section 5 |
| `MontgomeryLadder.BitOfByte` | src/crypto/x25519.c:180-180 | the bit taken out of byte i/8 is bit i of the little-endian scalar |
| `MontgomeryLadder.Iterate` | src/crypto/x25519.c:179-242 | an iteration is a swap, a step and the swap undone |
| `Rfc7748.EagerIsDeferred` | src/crypto/x25519.c:182-241 | swapping back in every iteration gives the state of the loop of RFC 7748, which undoes each swap together with the next |
| `MontgomeryLadder.ScalarMult` | src/crypto/x25519.c:159-254 | for every 32-byte scalar and u-coordinate the bytes written encode X25519(k, u), which `Montgomery` says is a multiple of the point |
| `Montgomery.StepMeaning` | src/crypto/x25519.c:186-238 | for every u-coordinate and every state a step doubles the first point and adds the second to it, by the formulas of the curve with 486662, modulo p |
| `Montgomery.LadderMultiplies` | src/crypto/x25519.c:159-254 | after the loop the first point is the multiple that the low 255 bits of the scalar name, defined by doubling and adding from the top bit down, up to a factor of powers of 2 and u in both coordinates |
| `Montgomery.ResultIsQuotient` | src/crypto/x25519.c:244-254 | if the power p - 1 of the last z is 1, the result is the quotient of the coordinates of that multiple |
| `MontgomeryLadder.ClampBits` | src/common/key-exchange.c:55-61 | the masks of `point_d` clear bits 0, 1, 2 and 255, set bit 254 and keep all others |
| `MontgomeryLadder.ClampRange` | src/common/key-exchange.c:55-61 | a secret is a multiple of 8 from 2^254 to 2^255 |
| `GroupSecret.ChainRotate` | src/common/key-exchange.c:192-219 | where the ring of secrets is cut makes no difference to the point they give |
| `GroupSecret.IntermediateIsArc` | src/common/key-exchange.c:221-240 | after r rounds a client holds the fold of the r + 1 consecutive ring secrets that end at its own |
| `GroupSecret.Agreement` | src/common/key-exchange.c:272-313 | after n - 1 rounds every client of a ring of n derives the same session key |
| `ProtocolSafety.PendingStep` | src/common/key-exchange.c:81-126 | what is queued from before an exchange, cables of others included, takes a client to its receive loop; it sends nothing of an exchange on the way, and its announcement exactly if that was due |
| `ProtocolSafety.ExchangeStep` | src/parcel/proc-type.c:181-214 | handling the next message of an exchange sends the client's next intermediate, or ends with the session key and the renewed control key and, the first time, the announcement |
| `ProtocolDelivery.AnnouncementSealed` | src/parcel/proc-type.c:206-212 | the last message of an exchange leaves the client with the key made of all secrets, and its announcement, sent unless there was one before, is sealed under that |
| `ProtocolDelivery.LateAnnouncementSealed` | src/parcel/proc-type.c:206-212 | an announcement that comes when the daemon is back in its loop is sealed under the key that every connection will hold |
| `ProtocolSafety.ConnStep` | src/common/key-exchange.c:272-313 | a client's step keeps the account of what it has been sent, has handled, has sent and has been read |
| `ProtocolSafety.PopOk` | src/common/key-exchange.c:223-229 | unless a cable is there, the front of the queue that the daemon reads is the intermediate that is due |
| `ProtocolSafety.WelcomeStep` | src/common/key-exchange.c:128-163 | each step of the two-party exchange with a newcomer keeps the invariant, and both ends derive one shared key |
| `ProtocolSafety.BroadcastStep` | src/common/key-exchange.c:166-190 | sending the control key to the next client keeps the invariant, whatever the clients do meanwhile |
| `ProtocolSafety.ReadStep` | src/common/key-exchange.c:223-229 | reading an intermediate keeps the invariant |
| `ProtocolSafety.ForwardStep` | src/common/key-exchange.c:231-269 | passing it on keeps the invariant, through the ends of rounds and the end of the exchange |
| `ProtocolSafety.LeaveOk` | src/parceld/daemon.c:169-210 | a leave with its refilled slot and the exchange that follows keep the invariant |
| `ProtocolSafety.SayOk` | src/parcel/client.c:77-135 | a cable that a user sends at any time keeps the invariant |
| `ProtocolSafety.ForwardOk` | src/parceld/daemon.c:153-235 | passing a cable on to all other clients keeps the invariant, and between exchanges nothing but cables waits to be passed on |
| `ProtocolDelivery.FanDelivers` | src/parceld/daemon.c:153-167 | the cable passed on ends up last in the queue of every other client, and nothing else changes but that its sender's queue loses it |
| `ProtocolDelivery.ForwardAll` | src/parceld/daemon.c:186-235 | all cables that wait in one queue can be passed on, and arrive in order behind what waits for every other client |
| `ProtocolDelivery.HoldsRingKey` | src/parcel/client.c:137-162 | between exchanges, a client in its receive loop seals under the key made of all secrets, and a client at whose turn a cable comes is in its receive loop and holds that key |
| `ProtocolDelivery.SaidIsRead` | src/parcel/client.c:77-162 | from any reachable state between exchanges a cable of a client in its receive loop gets to any other client, who then holds the key that it is sealed under |
| `ProtocolSafety.StepSafe` | src/common/key-exchange.c:81-313 | every step of every party keeps the invariant |
| `ProtocolSafety.RunSafe` | src/common/key-exchange.c:81-313 | every state of every run of joins, leaves, exchange steps, announcements, users' cables and forwarding satisfies the invariant |
| `ProtocolCables.ClientKeeps` | src/parcel/proc-type.c:181-214 | what a client sends in a step, announcement included, is in the way of the exchange exactly if something was before or was bound to be |
| `ProtocolCables.ServerKeeps` | src/common/key-exchange.c:221-270 | no step of the daemon puts anything in the way or takes it away; it fails only on a cable in the way, and ends the exchange only if there is none |
| `ProtocolLiveness.ReadsInOrder` | src/common/key-exchange.c:221-240 | in every interleaving, what the daemon reads from socket i in round r is client i's r-th intermediate, unless a cable is in front of it, and behind the cables it is that |
| `ProtocolLiveness.NobodyFails` | src/common/key-exchange.c:30-44 | no client ever receives a message of the wrong kind or a control message that it cannot read, in any run, failing ones included |
| `ProtocolLiveness.LeaveAborts` | src/parceld/daemon.c:200-205 | a run from start-up ends in the failed assertion of `n_party_server` if and only if its last event is a leave with exactly one client connected |
| `ProtocolLiveness.LastClientEndsDaemon` | src/parceld/daemon.c:200-205 | such a run: one client joins, is greeted, and leaves |
| `ProtocolLiveness.NotStuck` | src/common/key-exchange.c:221-313 | a reachable state with something left to do always allows a step, unless the daemon has ended |
| `ProtocolLiveness.RunsAreFinite` | src/common/key-exchange.c:242-270 | every exchange ends and everything sent is delivered, after at most as many steps as a measure of its start |
| `ProtocolLiveness.MaximalRunsEndQuiescent` | src/common/key-exchange.c:242-313 | whatever the order of steps, when none is possible all queues in both directions have been emptied, or the daemon has ended |
| `ProtocolLiveness.KeysAgree` | src/parcel/proc-type.c:181-205 | in a quiescent state every client holds the daemon's control key and, from two clients on, the one session key made of all their secrets |
| `ProtocolLiveness.Completes` | src/common/key-exchange.c:242-313 | from every reachable state some run leads to such an end |
| `ProtocolLiveness.Agreement` | src/parceld/daemon.c:143-209 | after any run from start-up, announcements and messages included, that ends in quiescence, all connected clients listen under the daemon's control key and share one session key |
| `ExchangeOutcome.FailsExactlyIfDisturbed` | src/common/key-exchange.c:221-270 | an exchange left to itself, in any interleaving, fails if and only if a cable is in the way of some client's intermediates; otherwise it ends in quiescence |
| `ExchangeOutcome.BeginsDisturbed` | src/parcel/proc-type.c:206-212 | an exchange begins with a cable in its way exactly where one is waiting in a socket or where a client has yet to end its first exchange |
| `ExchangeOutcome.SayDisturbs` | src/parcel/client.c:77-135 | a cable sent during an exchange is in its way exactly if its client has not yet sent its last intermediate |
| `ExchangeOutcome.ConsiderateExactly` | src/parceld/daemon.c:101-210 | a step of anybody keeps exchanges free of cables if and only if nobody sends while intermediates are due and nobody is admitted or dropped while a socket is not quiet |
| `ExchangeOutcome.ConsiderateNeverFails` | src/parceld/daemon.c:101-235 | no run of such steps, of any length and in any interleaving, makes the daemon fail |
| `ExchangeOutcome.ConsiderateRunsAgree` | src/parceld/daemon.c:101-235 | once nothing is left to do in such a run, everybody listens under the daemon's control key and one session key, unless the last client has left |
| `AnnouncementRun.AnnouncementEndsDaemon` | src/parcel/proc-type.c:206-212 | a run in which only the program acts and the daemon fails: three clients join, and the announcement of the first is read as an intermediate |
| `Daemon.FanoutOnce` | src/parceld/daemon.c:153-167 | a forwarded cable goes once to every other client and to nobody else |
| `Daemon.AddSlot` | src/parceld/daemon.c:116-136 | adding a socket keeps the table: distinct sockets in slots 1 to cnt, free slots behind, and the descriptor set made of them and the listener |
| `Daemon.DropSlot` | src/parceld/daemon.c:169-184 | filling the freed slot with the last one keeps the table and removes exactly that client |
| `Daemon.Server.SocketIndex` | src/parceld/daemon.c:88-98 | the first slot that holds the socket, whatever socket is asked for; the loop runs past the table if and only if no slot does, which is never so for a client |
| `Daemon.Server.AddClient` | src/parceld/daemon.c:101-151 | rejects exactly when the table is full and then changes nothing; succeeds exactly when the address and both exchanges do; otherwise the newcomer is the last client, or is counted without a slot if its address is not found |
| `Daemon.Server.DisconnectClient` | src/parceld/daemon.c:169-184 | the client, its slot and its descriptor are gone, and the others are those of the protocol model after a leave |
| `Daemon.Server.TransferMessage` | src/parceld/daemon.c:153-167 | the sends are those of the fan-out, in slot order, or of the front of it if a send fails |
| `Daemon.Server.RecvClient` | src/parceld/daemon.c:186-235 | a hang-up removes the client and forwards nothing, a cable is forwarded and changes nothing, and the assertion fails if and only if the only client hangs up and its socket closes |
| `Daemon.Server.HandleReady` | src/parceld/daemon.c:279-300 | the listener admits a connection, or turns it away, as `AddClient` says; a client that hung up is dropped, and the cable of one that did not goes to all others, as `RecvClient` says |
| `Daemon.Server.Scan` | src/parceld/daemon.c:277-303 | in a pass every descriptor that was ready is handled once, in ascending order, and nothing else is; each is the listener or is found in the table, after joins and leaves in the same pass; the account says of each what its connection did, what became of the table and what was sent; a pass that ends early has handled the front of that list; the assertion fails only with nobody left |
| `Daemon.Server.Serve` | src/parceld/daemon.c:270-304 | the table is as it should be after any number of passes over any ready descriptors, each with an account as above that starts where the one before ended |
| `SubstitutionBox.Inverse` | src/crypto/aes128.c:40-81 | the second table undoes the first on all 256 bytes |
| `Galois.GfmulIsProduct` | src/crypto/aes128.c:24-30 | the table of eight reductions gives the product in the field of FIPS 197, section 4.2, for every byte and every multiplier below 16 |
| `Galois.SboxIsAffineOfInverse` | src/crypto/aes128.c:42-58 | every entry is the affine map of the multiplicative inverse of its index, as section 5.1.1 of FIPS 197 defines it |
| `Aes.ShiftRowsMeaning` | src/crypto/aes128.c:152-180 | row r moves r columns to the left |
| `Aes.MixColumnUndone` | src/crypto/aes128.c:182-209 | the inverse mix by `gfmul` undoes the forward mix by doublings, for every column |
| `Aes.RoundsUndone` | src/crypto/aes128.c:212-239 | the inverse rounds run back through the states of the forward rounds |
| `Aes.CipherUndone` | src/crypto/aes128.c:212-239 | decryption undoes encryption for every block and every 176-byte array of round keys |
| `Aes.AddRoundKeyByte` | src/crypto/aes128.c:133-140 | byte k of the state has byte 16r + k of the expanded key added in round r |
| `AesExamples.AppendixBExample` | src/crypto/aes128.c:212-239 | the block of appendix B of FIPS 197 is encrypted as it is there |
| `AesState.AddRoundKeyAt` | src/crypto/aes128.c:133-140 | sixteen bytes of the buffer change to the block with the round key added, and nothing else changes |
| `AesState.SubstituteBytesAt` | src/crypto/aes128.c:143-150 | likewise for the substitution, either way |
| `AesState.ShiftRowsAt` | src/crypto/aes128.c:153-180 | the swaps through index tables shift the rows, either way |
| `AesState.MixForward` | src/crypto/aes128.c:197-207 | mixing a column byte by byte while its first byte is already overwritten gives equation 5.6 of FIPS 197 |
| `AesState.MixColumnsAt` | src/crypto/aes128.c:184-209 | all four columns are mixed, either way |
| `AesState.Xcrypt` | src/crypto/aes128.c:212-239 | the block in the buffer becomes its encryption or its decryption, and nothing else changes; `AesExamples` and `Aes.CipherUndone` say what these are |
| `KeySchedule.ConstantsArePowers` | src/crypto/aes128.c:86-86 | entries 1 to 10 of the table are the powers of {02} in the field |
| `KeySchedule.Expansion` | src/crypto/aes128.c:84-116 | the round keys are the words of section 5.2 of FIPS 197, in order |
| `AesExamples.ExpandedKey` | src/crypto/aes128.c:84-116 | all eleven round keys of appendix A.1 of FIPS 197 |
| `Modes.CbcUndone` | src/crypto/aes128.c:294-316 | decryption in chaining mode undoes encryption, for any number of blocks |
| `Modes.CbcEncryptSplit` | src/crypto/aes128.c:294-304 | cutting the data at a block boundary into two calls gives the same bytes and the same last vector as one call |
| `Modes.CbcDecryptSplit` | src/crypto/aes128.c:306-316 | likewise for decryption |
| `Modes.CbcBlock` | src/crypto/aes128.c:294-304 | every block of the ciphertext is the cipher of its block of the data plus the block of ciphertext before it, or plus the vector |
| `Modes.ShiftLeftDoubles` | src/crypto/aes128.c:119-130 | the shift of a subkey doubles it as a 128-bit number, up to the bit that decides about the constant |
| `Modes.SubkeyTimesX` | src/crypto/aes128.c:119-130 | the next subkey is this one times x modulo x^128 + x^7 + x^2 + x + 1, coefficient by coefficient |
| `Modes.MacChainNext` | src/crypto/aes128.c:259-277 | absorbing one more block is one more link of the chain |
| `Modes.OneBlockTells` | src/crypto/aes128.c:241-279 | for a cipher that can be undone, messages that differ in one block alone have different codes |
| `AesExamples.EmptyCode` | src/crypto/aes128.c:251-259 | example 1 of section 4 of RFC 4493 |
| `AesExamples.BlockCode` | src/crypto/aes128.c:261-279 | example 2 of section 4 of RFC 4493 |
| `AesContext.GenerateSubkey` | src/crypto/aes128.c:119-130 | the buffer becomes the next subkey of section 2.3 of RFC 4493 |
| `AesContext.AbsorbMessage` | src/crypto/aes128.c:259-277 | the loop ends and computes the code although it rewrites length, message pointer and subkey buffer at the last block |
| `AesContext.CmacAt` | src/crypto/aes128.c:241-279 | writes the code of section 2.4 of RFC 4493 for every message length, also into the buffer that holds the message |
| `AesContext.Context.Init` | src/crypto/aes128.c:281-286 | a context of expanded key and vector |
| `AesContext.Context.Encrypt` | src/crypto/aes128.c:294-304 | chaining through a pointer into the chunk gives the chained encryption, and the context keeps the vector for the next call |
| `AesContext.Context.Decrypt` | src/crypto/aes128.c:306-316 | chaining through a saved block gives the chained decryption, and the context keeps the vector for the next call |
| `WireUtil.PackUnpack` | src/common/wire-util.c:5-66 | packing the bytes that a number was unpacked to gives the number modulo 256 to the number of bytes |
| `WireUtil.UnpackPack` | src/common/wire-util.c:5-66 | unpacking the number that bytes were packed to gives the bytes |
| `WireUtil.Unpack64` | src/common/wire-util.c:40-50 | the eight bytes of the buffer are those of the number, and no other byte changes |
| `Wire.HeaderFields` | src/common/wire.c:36-52 | the getters read back what the setters wrote |
| `Wire.HeaderExample` | src/common/wire.c:70-108 | the sixteen bytes of a header of length 336 |
| `Wire.FreshCarries` | src/common/wire.c:168-203 | a new wire tells its type, total length and payload length, and holds the payload and zero padding |
| `Wire.InitWire` | src/common/wire.c:168-203 | the buffer is that wire, and there is none exactly if the randomness falls short |
| `Wire.GenCmacs` | src/common/wire.c:206-217 | the inner code over the header, and the outer code over all that follows it, inner code included |
| `Wire.EncryptWire` | src/common/wire.c:219-243 | seals in place: header and payload as one chain though in two calls, then both codes; refuses exactly the null arguments |
| `Wire.SealedBlock` | src/common/wire.c:219-243 | the vector stays in the clear, and every block from the header to the end of the payload is the cipher of itself plus the block before it in the wire |
| `Wire.OpenUndoesSeal` | src/common/wire.c:219-292 | what was sealed under a key is authentic under it, and header and payload come back |
| `Wire.AcceptedExactlyIfAuthentic` | src/common/wire.c:245-292 | for received bytes of any length: a wire is accepted if and only if it is whole and both codes, the signature and the length agree under the first key that the inner code verifies under, then bytes 0 to 15 are the code of bytes 16 to the end and bytes 16 to 31 that of the header, and what is delivered is what that key opens; the program overruns the buffer if and only if those checks pass and the wire is not whole |
| `Wire.OtherOuterCode` | src/common/wire.c:136-141 | a wire that verifies is rejected with any other outer code, whatever the key that decides |
| `Wire.OtherBlock` | src/common/wire.c:281-284 | it is rejected with any one block of the vector or the payload changed, the last one included |
| `Wire.OtherHeader` | src/common/wire.c:143-148 | under the same key the inner code fails for any other header |
| `Wire.KeyHalves` | src/common/wire.c:252-253 | the first half of a key encrypts and the second makes the codes |
| `Wire.OverrunsExactlyIfUnfit` | src/common/wire.c:271-286 | for every length, buffer and key there is a wire that overruns if and only if the length is below 64 or its last block is not all in the buffer |
| `Wire.RoundTrip` | src/common/wire.c:168-292 | type, payload, padding and payload length survive sealing and opening, under the first key or under the second where the inner code does not verify under the first |
| `Wire.DecryptHeader` | src/common/wire.c:116-128 | the header in the clear, or zeros if its signature is wrong, with the wire left alone |
| `Wire.OpenInPlace` | src/common/wire.c:270-291 | for received bytes of any length: accepts exactly the authentic and whole wire and otherwise leaves every byte as it was; the payload is decrypted from where the header's chain ended |
| `Wire.DecryptWire` | src/common/wire.c:245-292 | for received bytes of any length and for keys in one buffer or two: tries at most two keys, delivers exactly what the specification accepts, and leaves every byte unchanged where it rejects |
| `Wire.RetriesForever` | src/common/wire.c:250-269 | the jump back to the start is taken forever if and only if the inner code fails under the first key and the second key is the first over again; otherwise there are at most two attempts |
| `Wire.SpoiltWireRetriesForever` | src/common/wire.c:250-269 | such a wire: any that verifies, with one bit of its inner code turned over |
| `Cable.Socket.SendAll` | src/common/xutils.c:112-125 | all bytes go out in order however the writes are cut |
| `Cable.Socket.RecvAll` | src/common/xutils.c:127-140 | the next bytes of the stream come in, and no more are consumed, however the reads are cut; it fails only if the socket does, and on one that does not it would read on forever if and only if the stream holds fewer bytes than were asked for |
| `Cable.ReadsForever` | src/common/xutils.c:127-140 | there is a next read after any number of reads if and only if the stream ends before the bytes needed; otherwise there are at most as many reads as bytes, however the stream is cut |
| `Cable.ClosedPeerAwaited` | src/common/xutils.c:127-140 | the header of a cable is awaited forever from a peer that closed at once |
| `Cable.ParseFramed` | src/common/cable.c:85-125 | a framed wire at the front of a stream parses to itself, with the rest of the stream left as it was |
| `Cable.StreamDelivers` | src/common/cable.c:85-125 | the wires of a stream of cables come out in order, and exactly their bytes are consumed |
| `Cable.StreamAppend` | src/common/cable.c:70-78 | sending one more wire adds its cable to the end of the stream |
| `Cable.InitCable` | src/common/cable.c:114-125 | signature, total length and wire |
| `Cable.CableExample` | src/common/cable.c:114-125 | the sixteen bytes of a cable around two |
| `Cable.TransmitCabledWire` | src/common/cable.c:70-78 | what goes out is the cable around the sealed wire |
| `Cable.RecvCable` | src/common/cable.c:85-112 | for any stream: delivers exactly the cable that the stream begins with, consuming exactly its bytes, and where it does not the reason is a failing socket, a wrong signature, a stream that ends too early or a length below 14 |
| `Cable.RemainingFits` | src/common/cable.c:44-50 | the bytes asked for behind a header have room in the cable if and only if its length covers the header |
| `Cable.ShortLengthWraps` | src/common/cable.c:44-50 | behind the header of a cable of 13 bytes 2^64 - 1 more are asked for |
| `Cable.RecvWires` | src/parcel/client.c:137-162 | receiving cable after cable from a socket that does not fail returns exactly the wires that were sent, in order, and leaves exactly what follows them |
| `Cable.Delivered` | src/common/cable.c:70-112 | end to end: a sealed wire arrives whole and opens to its payload under the receiver's keys |
| `ControlMessage.MessageFields` | src/common/wire-ctrl.c:14-21 | the message tells its type, its length and the renewed key, and carries the number of rounds exactly if it fits two bytes |
| `ControlMessage.InitCtrl` | src/common/wire-ctrl.c:14-21 | the bytes of the message |
| `ControlMessage.InitCtrlKeyCable` | src/common/wire-ctrl.c:29-40 | the message in a wire, sealed under the control key so far, in a cable |
| `ControlMessage.ControlDelivered` | src/common/key-exchange.c:173-184 | what the daemon broadcasts tells every client that holds the control key the number of rounds and the renewed key |
| `Sha256.PaddingTellsMessage` | src/crypto/sha256.c:166-186 | no two messages whose length fits the length field have the same padding |
| `Sha256Laws.Sum0Bit` | src/crypto/sha256.c:41-44 | bit i is the exclusive or of bits i + 2, i + 13 and i + 22 of the word, modulo 32 |
| `Sha256Laws.Sum1Bit` | src/crypto/sha256.c:47-50 | likewise bits i + 6, i + 11 and i + 25 |
| `Sha256Laws.Sig0Bit` | src/crypto/sha256.c:53-56 | likewise bits i + 7 and i + 18, and bit i + 3 below 32 |
| `Sha256Laws.Sig1Bit` | src/crypto/sha256.c:59-62 | likewise bits i + 17 and i + 19, and bit i + 10 below 32 |
| `Sha256Laws.ChBit` | src/crypto/sha256.c:28-31 | each bit of the first word chooses between those of the others |
| `Sha256Laws.MajBit` | src/crypto/sha256.c:34-37 | each bit is the majority of three |
| `Sha256Laws.WordOfBytes` | src/crypto/sha256.c:96-101 | four bytes make a word, the first one highest |
| `Sha256Laws.BytesOfWord` | src/crypto/sha256.c:188-193 | and come out of it in that order |
| `Sha256Laws.InitialAreSquareRoots` | src/crypto/sha256.c:69-76 | the initial values are the first 32 bits of the fractions of the square roots of the first eight primes |
| `Sha256Laws.ConstantsFrom0` | src/crypto/sha256.c:82-84 | the constants of rounds 0 to 15 are those of the cube roots of the first primes |
| `Sha256Laws.ConstantsFrom16` | src/crypto/sha256.c:85-86 | likewise rounds 16 to 31 |
| `Sha256Laws.ConstantsFrom32` | src/crypto/sha256.c:87-88 | likewise rounds 32 to 47 |
| `Sha256Laws.ConstantsFrom48` | src/crypto/sha256.c:89-90 | likewise rounds 48 to 63 |
| `Sha256.ScheduleNext` | src/crypto/sha256.c:102-107 | the program's order of adding the terms gives the schedule of section 6.2.2 of FIPS 180-4 |
| `Sha256.FillSchedule` | src/crypto/sha256.c:93-108 | the 64 words of the schedule |
| `Sha256.PlaceMoves` | src/crypto/sha256.c:133-135 | the place of a variable after one more turn is that of its predecessor before |
| `Sha256.RoundRotates` | src/crypto/sha256.c:132-144 | writing two places and turning the table is the shift of all eight variables |
| `Sha256.Turn` | src/crypto/sha256.c:133-135 | one pass over the table moves every index down by one, round the table, also from its initial values |
| `Sha256.RoundInPlace` | src/crypto/sha256.c:136-143 | the seven updates of a round give step 3 of section 6.2.2 |
| `Sha256.NotRotated` | src/crypto/sha256.c:131-148 | after 64 rounds every variable is back in its place |
| `Sha256.HashBlock` | src/crypto/sha256.c:79-149 | one block is compressed as section 6.2.2 defines it |
| `Sha256.BlockFills` | src/crypto/sha256.c:158-162 | when the buffer fills, what has been hashed is the message up to there |
| `Sha256.Context.constructor` | src/crypto/sha256.c:64-77 | nothing hashed, nothing waiting |
| `Sha256.Context.Append` | src/crypto/sha256.c:151-164 | the message grows by the bytes appended, in calls of any length |
| `Sha256.OneLastBlock` | src/crypto/sha256.c:170-187 | with fewer than 56 bytes waiting, the block built is the last of the padded message |
| `Sha256.TwoLastBlocks` | src/crypto/sha256.c:170-187 | otherwise the two blocks built are its last two |
| `Sha256.Context.Finish` | src/crypto/sha256.c:166-194 | the digest is that of FIPS 180-4 of everything appended, and nothing else of the destination changes |
| `Sha256Example.DigestOfAbc` | src/crypto/sha256.c:79-194 | the digest of "abc" is the one in the standard |
| `WidthTables.WideOrdered` | src/common/utf8.c:39-71 | the table of wide codepoints is in order and without overlap |
| `WidthTables.AmbiguousOrdered` | src/common/utf8.c:73-119 | so is the table of ambiguous ones |
| `Utf8.SearchTable` | src/common/utf8.c:14-35 | finds a codepoint exactly if some range of the table holds it, and no bound goes below zero |
| `Utf8.CpRenderedWidth` | src/common/utf8.c:37-138 | two cells for the codepoints of the two tables and one for all others |
| `Utf8.Utf32Decodes` | src/common/utf8.c:140-161 | the bytes of every codepoint below 0x110000, as RFC 3629 gives them, are well-formed and are read back as it |
| `Utf8.NextCodepoint` | src/common/utf8.c:190-214 | the size and width of the codepoint that begins here |
| `Utf8.PrevCodepoint` | src/common/utf8.c:170-188 | the size and width of the codepoint that ends here |
| `Editor.InsertUndone` | src/common/console.c:100-121 | an insert is taken back by backspace, and by left and delete |
| `Editor.BackspaceUndone` | src/common/console.c:218-225 | a backspace is taken back by inserting what it took |
| `Editor.StoredBounds` | src/common/console.c:123-147 | the byte tests for the ends of the line are tests for the ends of the list |
| `Editor.StoredInsert` | src/common/console.c:108-116 | bytes, offset, column and widths after an insert are those of the list with the codepoint in it |
| `Editor.StoredBackspace` | src/common/console.c:218-234 | likewise for backspace |
| `Editor.StoredDelete` | src/common/console.c:226-234 | likewise for delete |
| `Editor.StoredRight` | src/common/console.c:123-134 | the bytes at the cursor are the next codepoint, and moving past it keeps offset and column in step |
| `Editor.StoredLeft` | src/common/console.c:136-147 | likewise to the left |
| `Editor.JumpReachesStart` | src/common/console.c:149-163 | a jump back ends at the start of the line if and only if every space before the cursor is followed by spaces only |
| `Editor.FirstWordExamples` | src/common/console.c:149-163 | so it does on an empty line and behind one word, and not behind two |
| `Console.RowsReach` | src/common/console.c:52-78 | the rows begun reach the cell of the cursor, except for an empty line behind a prompt that ends at the edge, where they are one short |
| `Console.PlanExact` | src/common/console.c:48-97 | no unsigned subtraction goes below zero exactly if the prompt does not end at the edge or the line is not empty; then a cursor that was left on the row of its cell is sent to the last row, up to the first, and ends on the row of its cell; and the rows in use cover the cursor's row at the next redrawing |
| `Console.FirstDrawingInPlace` | src/common/console.c:48-97 | the first drawing begins on the row of the prompt if and only if the prompt does not end at the edge, and one row above it otherwise, for the terminal leaves the cursor on the last full row |
| `Console.RowAboveCleared` | src/common/console.c:54-63 | the first character behind a prompt of two cells on a console two cells wide clears the row above |
| `Console.EmptyLineWraps` | src/common/console.c:36-80 | a cursor key on an empty line behind a prompt of eighty cells on a console eighty cells wide makes the way up 2^64 - 1 rows, of which the escape sequence carries 2^32 - 1 |
| `Console.Line.FlushConsole` | src/common/console.c:48-97 | from the row that the terminal really left the cursor on, the distances computed take the drawing to the row of the prompt, or to the one above behind a prompt that ends at the edge, and the cursor to the row of its cell; the way up wraps exactly where the plan is not exact |
| `Typing.OverrunsExactly` | src/common/console.c:255-265 | behind the test a codepoint leaves no room for the closing zero exactly if it had none before and the bytes left were not just two |
| `Typing.SteppedOver` | src/common/console.c:248-265 | 61 codepoints of one byte, one of two and any other write behind the first buffer of 64 bytes |
| `Typing.NeverOverrunsExactly` | src/common/console.c:255-333 | whatever is typed, erased and moved over in any order, the test keeps the room if and only if all codepoints have one byte or all have two |
| `Console.Line.Grow` | src/common/console.c:255-265 | where just two bytes are left the line moves to a buffer twice as large, with its bytes, and nowhere else |
| `Console.Line.TypeChar` | src/common/console.c:255-332 | a typed codepoint is inserted, or written behind the buffer, exactly as the account of the room has it |
| `Console.Line.InsertChar` | src/common/console.c:100-121 | the line stands for the list with the codepoint inserted, no subtraction wraps, and the drawing begins on the row that the prompt allows; the program writes behind the buffer if and only if codepoint and closing zero do not fit |
| `Console.Line.MoveCursorRight` | src/common/console.c:123-134 | the line stands for the list with the place moved right, where there is one |
| `Console.Line.MoveCursorLeft` | src/common/console.c:136-147 | likewise to the left |
| `Console.Line.MoveCursorWordEnd` | src/common/console.c:165-180 | the place moves over the spaces at it and then over what is not one |
| `Console.Line.MoveCursorWordStart` | src/common/console.c:149-163 | the place moves back over the spaces before it and then over what is not one, whatever lies before the buffer, which is read if and only if every space before the cursor is followed by spaces only |
| `Console.MovedMeans` | src/common/console.c:182-210 | no direction changes the text; the place stays, moves by one, goes to an end, or goes past spaces and one whole word, which `OneWord` says is one place |
| `Console.OneWord` | src/common/console.c:149-180 | there is only one place behind the next word and one before the last |
| `Console.Line.UpdateCursorPos` | src/common/console.c:182-210 | every direction moves the place as the list says and draws from the row that the prompt allows; memory before the buffer is read exactly by a jump back where no word starts behind a space |
| `Console.Line.DeleteChar` | src/common/console.c:212-237 | the line stands for the list after delete or backspace, and is left alone where there is nothing to take |

## Left out

- The group law of the curve, the primality of p and the hardness of anything: the exchange is proved
  for every commuting scalar action, the inverse as a power of exponent p - 2, and the ladder as doublings
  and differential additions by the formulas of the curve.
- Montgomery.ResultIsQuotient: holds where the power p - 1 of the last z is 1, which is so for every z
  that is not 0 modulo p because p is prime; that p is prime is not shown.
- Sockets, `select`, `accept`, randomness, allocation, threads and locks: they are choices of the
  environment. A new descriptor is positive and not in use; a write to a socket that has not
  failed makes progress, and so does a read before the end of what the peer sends.
- That the limb code takes the same time for every secret, and that the codes of a wire cannot be
  forged.
- In the protocol machine a wire is the key it is sealed under and its content. That other keys do not
  open it is assumed there; the codes themselves are the subject of `Wire` and `ControlMessage`.
- Clients that vanish during an exchange: leaves happen only while the daemon is in its loop. Nor does
  the protocol machine have the limit on the number of descriptors, which is in `Daemon`.
- Once the daemon of the protocol machine has ended, its clients take no more steps.
- The parts of an exchange that fail (a socket that breaks, no randomness) end the daemon or the
  client; the protocol machine does not follow them further.
- The cable header that the daemon reads with one call: it is taken to arrive whole.
- Wire.DecryptWire: requires, where one buffer is given as both keys, a wire that verifies under it,
  since the call would not come back otherwise; what memory behind a buffer holds is not modelled, so an
  overrun is reported instead.
- Cable.Socket.RecvAll: reports that it would read forever instead of doing so.
- Wire.EncryptWire: requires the total length in the header to lie within the buffer, which
  `init_wire` sees to.
- Console.Line.InsertChar: reports a write behind the buffer instead of doing it.
- The line without reads of no bytes, and without allocations that fail.
- Console.Line.FlushConsole: gives the distances of the escape sequence, not its bytes; sums of
  lengths are taken not to reach 2^64, and distances that do not wrap not to reach 2^32; the terminal is
  one that wraps when the next cell is written, with rows enough above and below; a wide codepoint across
  the edge of a row counts as two cells in a row; and nothing is said of the terminal after a distance has
  wrapped. A console of no width, by which the program would divide, is left out.
- `pack` and `unpack` of words in `wire-util.c` are sums and remainders instead of shifts and ors.
- The dispatch of keys, `utf8_rendered_length`, colours, timestamps, logging,
  commands, files, options and the look-up of the public address.
