# Dropbear in Dafny

A model of the hard parts of the Dropbear SSH 2 implementation, and proofs about it. Code that works in place is
modelled in place, by classes, arrays and loops; each such method is proved against a specification, and the
properties are proved about that. `dafny verify dfyconfig.toml` checks the whole project.

The model has four parts.

**X25519** (`Arithmetic`, `Bits`, `Limbs`, `FieldOps`, `Packing`, `Contraction`, `Ladder`, `Primes`, `LadderLength`,
`Certificate`, `Curve`, `X25519`). Field elements are ten signed limbs of alternately 26 and 25 bits in arrays. Machine
words are bounded integer types, so that every addition and product is proved to stay in range, and the bit operators
are defined bit by bit. The specification is X25519 of section 5 of RFC 7748 over integers modulo p, in `Ladder`. The
code runs the ladder over 256 bits and the standard over 255; `LadderLength` proves that the result is the same modulo a
prime, and `Certificate` that 2^255-19 is one. The bound argued in the comment at curve25519-donna.c:514-525 is tighter
than the entry condition allows: the borrow out of limb 9 can be 3, so limb 0 can reach -57. The bounds here are proved
from the entry condition, and the conclusion holds. `Curve` proves that the ladder follows the chord and tangent law of
the curve, so that it multiplies points.

**Channels** (`CircBuffer`, `ChannelModel`, `ChannelInvariant`, `ChannelRuns`, `ChannelEnds`, `Channel`). `ChannelModel`
gives one end of a channel as a value and its handlers as functions that either go on in a new state or stop with the
exit or the assertion that fires. `Channel` is the same thing as a class over ring buffers, each method proved to do
what the function does. `ChannelInvariant` proves what every handler keeps whatever the other end sends, and
`ChannelRuns` runs two ends over ordered links, in steps of any order with any results of reads and writes, and proves
that nothing ever stops; `ChannelEnds` proves when descriptors close in such runs. Configurations are any window from 1
to 1048576, with or without writev, with any descriptors, separate or not, and with or without a close check of the
channel type.

**Transport** (`Rekey`, `Framing`, `Receiving`, `KeyDerivation`, `Transport`, `Algos`, `Negotiation`, `Queue`). `Rekey`
is the state of a session, with the gates of process_packet, the switching of keys and the packets held back during an
exchange, and runs of a client and a server from their tables of algorithms. `Algos` prints, parses and matches name
lists, and `Negotiation` is read_kex_algos over all of them. `Framing` takes the ciphers as any chained block functions
with an inverse and the MACs as any functions, and is the sending side; `Receiving` is the other, on any bytes and on
those of a sender, in pieces of any size and through any switches of keys. `KeyDerivation` takes the hash as any
function with a fixed output size. `Transport` joins them: the packets of two sessions that run together cross the wire
under the keys that their exchanges make.

**Encodings and signatures** (`Bytes`, `Mpint`, `Buffers`, `Ber`, `Dss`). Buffers, multiple precision integers, ASN.1
headers and integer sequences with the export and import of keys, and DSS signatures over numbers, with the inverse
modulo a prime computed and proved.

Six properties one might expect hold only under a condition, and both directions are proved: the drained window exceeds
the receive window less a third exactly when the window is at least 3 (`ChannelRuns.WindowAccounted`); both sides judge
the guess alike, and the server handles the KEXDH_INIT that the client goes on with, exactly under a condition on first
entries (`Negotiation.SameVerdict`, `Rekey.RunBoth`, `Rekey.Misjudge`), which fails under the old guess rule for a
server without a host key of the first kind; but for a failed write or a process that is gone an output is never closed
before its bytes are written exactly where it is no input as well or the directions are shut down apart
(`ChannelEnds.NothingCutOff`, `ChannelEnds.SharedIsCutOff`); a signature is accepted exactly when neither of its numbers
is zero (`Dss.SignatureAccepted`); an mpint is read back exactly up to 1030 bytes (`Mpint.ParseUndoesEncode`); and
buf_eatstring moves on exactly for lengths below 2^31 (`Buffers.Buffer.EatString`).

## Model

| member | source | states |
|---|---|---|
| `X25519Limbs.Curve25519Donna` | dropbear/curve25519-donna.c:843-860 | For every secret and base point the 32 bytes written are the canonical little-endian encoding of X25519 as section 5 of RFC 7748 defines it, with its ladder over 255 bits; holds also when the arrays are the same |
| `X25519Limbs.Ladder256` | dropbear/curve25519-donna.c:843-860 | The bytes are those of x·z^(p-2) mod p, where (x:z) is the ladder over all 256 bits of the clamped scalar, as the code runs it |
| `Certificate.PrimeP` | dropbear/curve25519-donna.c:202-204 | The modulus 2^255-19 is prime, by a certificate |
| `Primes.PrimeByTwo` | dropbear/curve25519-donna.c:202-204 | Pocklington's test, on which the certificate rests: elements whose orders are two primes, with a product above the root of n, make n prime |
| `X25519Limbs.CMult` | dropbear/curve25519-donna.c:726-771 | The limb arrays end as the state of the mathematical ladder after 256 steps, for every scalar and every point with limbs under 2^26 |
| `X25519Limbs.MultByte` | dropbear/curve25519-donna.c:738-766 | Eight rounds, with the eight arrays exchanging roles, advance the mathematical ladder by the eight bits of one scalar byte from the top |
| `LadderLength.SameAsRfc` | dropbear/curve25519-donna.c:726-771 | Modulo any prime over 4 the ladder over 256 bits gives for every secret and base point what the ladder over 255 bits gives |
| `LadderLength.RunScales` | dropbear/curve25519-donna.c:734-766 | One step ahead over the clear top bit of the clamped scalar, the longer ladder holds the points of the shorter one, each scaled by a unit |
| `LadderLength.OutputScales` | dropbear/curve25519-donna.c:856-858 | Scaling both coordinates of a point by a unit leaves x·z^(p-2) alone |
| `Primes.Fermat` | dropbear/curve25519-donna.c:776-841 | Fermat's little theorem, which makes z^(p-2) the inverse of z |
| `X25519Limbs.ScalarBit` | dropbear/curve25519-donna.c:738-740 | Round j of byte i works on bit 255-(8i+j) of the little-endian scalar |
| `X25519Limbs.StepSettled` | dropbear/curve25519-donna.c:742-750 | Swapping before and after each step, as the code does, is the delayed swap of RFC 7748 |
| `X25519Limbs.FMonty` | dropbear/curve25519-donna.c:625-698 | One call is the double-and-add of RFC 7748 on the values of the limbs, with every intermediate in range and all outputs under 2^26 |
| `X25519Limbs.MontyAdd` | dropbear/curve25519-donna.c:639-671 | The differential addition gives (DA+CB)^2 and x1·(DA-CB)^2 although the code takes its differences the other way round |
| `X25519Limbs.MontyDouble` | dropbear/curve25519-donna.c:673-697 | The doubling gives AA·BB and E·(AA + a24·E) |
| `X25519Limbs.SwapConditional` | dropbear/curve25519-donna.c:709-719 | Masked exclusive-or on the low 32 bits exchanges two numbers exactly when the flag is 1 and leaves them alone when it is 0 |
| `X25519Limbs.CRecip` | dropbear/curve25519-donna.c:776-841 | The chain of squarings and products computes z^(p-2) mod p with limbs under 2^26 |
| `X25519Limbs.Divide` | dropbear/curve25519-donna.c:856-857 | Leaves x·z^(p-2) mod p in z, with limbs under 2^26 |
| `X25519Limbs.ExponentOfInverse` | dropbear/curve25519-donna.c:789-840 | The exponents collected along the chain add up to p-2 |
| `X25519Limbs.TimesFive` | dropbear/curve25519-donna.c:805-833 | From an exponent of n ones the middle of the chain makes 5n ones |
| `X25519Limbs.ClampScalar` | dropbear/curve25519-donna.c:849-852 | As a number the scalar is a multiple of 8, lies from 2^254 to 2^255, and has the bits 3 to 253 of the secret (section 5 of RFC 7748) |
| `Ladder.Clamped` | dropbear/curve25519-donna.c:849-852 | The same of the scalar that the specification decodes |
| `Curve.X25519Multiplies` | dropbear/curve25519-donna.c:726-860 | X25519 is the x-coordinate of the multiple of the base point by the clamped scalar, for every family of points that follows the chord and tangent law of y^2 = x^3 + 486662 x^2 + x along the bits of the scalar |
| `Curve.LadderMultiplies` | dropbear/curve25519-donna.c:726-771 | The ladder over any number of bits of any k gives the x-coordinate of k times the base point, modulo any prime over 4 |
| `Curve.StepFollows` | dropbear/curve25519-donna.c:625-698 | One step on affine points gives the double of the first and the sum of both, each scaled by a unit |
| `Curve.DoubleFollows` | dropbear/curve25519-donna.c:673-697 | The doubling formulas are the tangent law |
| `Curve.AddFollows` | dropbear/curve25519-donna.c:639-671 | The differential addition is the chord law, given the x-coordinate of the difference |
| `FieldOps.FMul` | dropbear/curve25519-donna.c:328-337 | For limbs under 2^27 the product is congruent modulo p, its limbs are under 2^26 and nothing leaves the signed 64-bit range |
| `FieldOps.FSquare` | dropbear/curve25519-donna.c:410-421 | The same for squaring |
| `FieldOps.FProduct` | dropbear/curve25519-donna.c:99-200 | The 19 limbs are the coefficients of the product in mixed radix, stand for the exact product and stay under 14·2^54 |
| `FieldOps.FSquareInner` | dropbear/curve25519-donna.c:345-401 | The shorter formulas give the very limbs that the product of the number with itself has |
| `Limbs.ProductValue` | dropbear/curve25519-donna.c:99-200 | Limbs that are the convolution of two numbers, with doubled odd-odd terms, stand for the product of the numbers |
| `FieldOps.ConvolutionBound` | dropbear/curve25519-donna.c:92-98 | No coefficient of a product exceeds 14·2^54 |
| `FieldOps.FReduceDegree` | dropbear/curve25519-donna.c:206-238 | Folding the upper limbs keeps the value modulo p and stays under 280·2^54 |
| `FieldOps.FReduceCoefficients` | dropbear/curve25519-donna.c:279-320 | The carry chain keeps the value modulo p and brings every limb under 2^26, through intermediates up to 281·2^54 |
| `FieldOps.Carry` | dropbear/curve25519-donna.c:284-304 | One carry keeps the value, bounds the limb it leaves and bounds what it adds to the next |
| `FieldOps.DivBy2To26` | dropbear/curve25519-donna.c:247-258 | The branch-free shift is division by 2^26 rounded toward zero, for every signed 64-bit number in range |
| `FieldOps.DivBy2To25` | dropbear/curve25519-donna.c:263-274 | The same for 2^25 |
| `FieldOps.FSum` | dropbear/curve25519-donna.c:68-74 | Adds values, and limbs at most double |
| `FieldOps.FDifference` | dropbear/curve25519-donna.c:78-83 | Subtracts from the second operand |
| `FieldOps.FScalarProduct` | dropbear/curve25519-donna.c:86-91 | Multiplies the value, within range |
| `Packing.FExpand` | dropbear/curve25519-donna.c:424-442 | The ten limbs stand for the 32 bytes modulo 2^255, each within its radix |
| `Packing.JoinIsSum` | dropbear/curve25519-donna.c:426-430 | Or-ing shifted bytes joins them to one number |
| `Contraction.FContract` | dropbear/curve25519-donna.c:471-612 | For any limbs under 2^26 the 32 bytes are the little-endian number in [0,p) congruent to the input |
| `Contraction.ExpandContract` | dropbear/curve25519-donna.c:424-612 | Unpacking and packing any 32 bytes gives their value mod 2^255 mod p, and the same bytes exactly when their value is below p |
| `Contraction.BorrowPass` | dropbear/curve25519-donna.c:482-512 | A borrow pass keeps the value modulo p; after it only limb 0 can be negative, and by at most 57; after a second one none is |
| `Contraction.CarryPass` | dropbear/curve25519-donna.c:535-553 | A carry pass keeps the value modulo p; after two of them every limb is within its radix |
| `Contraction.SubtractPrime` | dropbear/curve25519-donna.c:565-584 | The masked subtraction gives the remainder by p |
| `Contraction.PrimeMask` | dropbear/curve25519-donna.c:565-572 | The mask is all ones exactly when the number is at least p |
| `Contraction.FullLimbs` | dropbear/curve25519-donna.c:562-564 | The number is at least p exactly when limbs 1 to 9 are full and limb 0 is at least 0x3ffffed |
| `Contraction.S32Eq` | dropbear/curve25519-donna.c:449-457 | All ones exactly on equal words |
| `Contraction.S32Gte` | dropbear/curve25519-donna.c:461-465 | All ones exactly when the first is not smaller |
| `Contraction.PutLimb` | dropbear/curve25519-donna.c:586-597 | Shifting a limb and or-ing its bytes onto the last byte of the one before adds it with its weight |
| `ChannelRuns.RunsNeverHalt` | dropbear/common-channel.c:200-254 | In every run of two ends over ordered links no exit and no assertion of the channel code fires, whatever the descriptors do |
| `ChannelRuns.WindowNeverOverrun` | dropbear/common-channel.c:727-780 | In every run the window a side may send, with its data and the grants in flight, is the window at the other side less what that side dropped; so it never exceeds it (section 5.2 of RFC 4254) |
| `ChannelRuns.CreditConserved` | dropbear/common-channel.c:829-843 | The conservation law behind it, for every pair of ends in step |
| `ChannelRuns.StreamsInOrder` | dropbear/common-channel.c:806-872 | In every run the bytes written to a descriptor followed by the buffered ones begin what the other side sent, equal what was accepted until a write fails, and are all that was delivered while the descriptor is open |
| `ChannelRuns.EndToEnd` | dropbear/common-channel.c:708-872 | In every run what is written at one side begins what was read at the other, and while the descriptor is open the written, the buffered and the bytes in flight are together exactly what was read |
| `ChannelRuns.WindowAccounted` | dropbear/common-channel.c:535-544 | In every run window, bytes done and bytes buffered are at most the receive window, and equal to it while no write has failed; the assertions of writechannel hold; drained, the window exceeds recv_window less a third exactly when recv_window is at least 3 |
| `ChannelRuns.SmallWindow` | dropbear/common-channel.c:535-539 | A window of 1 or 2 for which the strict bound fails |
| `ChannelRuns.CreditNeverStranded` | dropbear/common-channel.c:535-544 | With everything delivered, nothing dropped and the buffers drained the sender has at least recv_window less a third, and so can send |
| `ChannelRuns.Lifecycle` | dropbear/common-channel.c:277-353 | In every run a side sends at most one EOF and one CLOSE, no data after EOF, nothing after CLOSE, and is removed only when CLOSE has gone both ways (section 5.3 of RFC 4254) |
| `ChannelRuns.NextIsExpected` | dropbear/common-channel.c:806-839 | Between ends in step the next message is never one that the handlers refuse |
| `ChannelRuns.LinkedAfter` | dropbear/common-channel.c:877-891 | Taking the next message keeps the link between what one end has taken and what the other has sent |
| `ChannelRuns.RunKeeps` | dropbear/common-channel.c:200-254 | Every run keeps the invariant of the pair |
| `ChannelInvariant.ChannelIOKeeps` | dropbear/common-channel.c:200-254 | A turn of channelio keeps the invariant of one end, trips nothing and leaves alone what it should |
| `ChannelInvariant.ReceiveKeeps` | dropbear/common-channel.c:603-628 | Every message that may come keeps the invariant and has its direct effect and no other |
| `ChannelInvariant.RecvDataKeeps` | dropbear/common-channel.c:806-872 | Data within the window trips neither the oversize exit nor an assertion and is accepted once, or dropped if the descriptor is closed |
| `ChannelInvariant.WriteChannelKeeps` | dropbear/common-channel.c:524-548 | Both forms of writechannel keep the invariant, and the assertions at its end hold |
| `ChannelInvariant.SendDataKeeps` | dropbear/common-channel.c:708-792 | Reading and sending keeps the invariant, and its assertions never fire |
| `ChannelInvariant.CheckCloseKeeps` | dropbear/common-channel.c:277-353 | check_close keeps the order of EOF, CLOSE and data and frees only after CLOSE both ways |
| `ChannelInvariant.CheckCloseActs` | dropbear/common-channel.c:277-353 | check_close frees the channel exactly when CLOSE has come, nothing is left to write and closing is allowed; else it ends the output once EOF has come and nothing is left, and unless the channel is flushed only then; it sends EOF once nothing more can be read, and CLOSE once nothing more can be read or written and only when closing is allowed and nothing waits |
| `ChannelEnds.NothingCutOff` | dropbear/common-channel.c:277-353 | In every run an output that is open, and is no input as well unless the directions are shut down apart, is closed later only after a failed write, or once the process behind it is gone, or when EOF has come and every byte ever read at the other side has been written |
| `ChannelEnds.InputStaysOpen` | dropbear/common-channel.c:277-353 | In every run an input that is open, and is no output as well unless the directions are shut down apart, stays open and no EOF is sent while it does not end and no process behind it is gone, unless a write fails or the other side closes |
| `ChannelEnds.SharedIsCutOff` | dropbear/common-channel.c:1072-1111 | Where an output is an input as well and the directions are not shut down apart, the end of the input closes the output, whatever waits there |
| `ChannelEnds.PacketSizes` | dropbear/common-channel.c:727-731 | In every run no packet of data is larger than the other side announced, nor than the buffer for it (section 5.2 of RFC 4254) |
| `ChannelInvariant.RefusedExactly` | dropbear/common-channel.c:806-843 | The program ends on a message exactly for an opening or a confirmation out of turn, or for data after EOF or beyond the window for a stream that is taken |
| `ChannelInvariant.SendDataActs` | dropbear/common-channel.c:708-792 | A read is sent as one packet of at most the window and the packet size, and closes the input exactly at its end, or when it is short while the channel is flushed |
| `ChannelInvariant.WriteChannelActs` | dropbear/common-channel.c:423-548 | The bytes that a write takes leave the front of the buffer, an error closes the descriptor, and bytes done are granted anew exactly from a third of the window on |
| `ChannelInvariant.TurnWrites` | dropbear/common-channel.c:200-254 | A turn in which an open output is ready writes what is taken |
| `ChannelInvariant.EndsAtOnce` | dropbear/common-channel.c:603-633 | EOF and CLOSE end the output at once if nothing waits for it, and CLOSE frees a channel of a type without a check of its own |
| `ChannelInvariant.ClosedIsRemoved` | dropbear/common-channel.c:305-312 | A channel on which CLOSE has gone both ways is freed by the next check_close |
| `ChannelInvariant.AdjustKeeps` | dropbear/common-channel.c:535-544 | A window adjustment moves bytes done into the window, and what is granted is what was written |
| `ChannelInvariant.WidenedAdds` | dropbear/common-channel.c:877-891 | The 32-bit window arithmetic of an adjustment is exact up to the largest window |
| `Channels.Channel.CloseChanFd` | dropbear/common-channel.c:1072-1111 | Closes the descriptors that the direction and the kind of channel say |
| `Channels.Channel.SendMsgChannelClose` | dropbear/common-channel.c:384-404 | Records CLOSE and closes all three descriptors |
| `Channels.Channel.WriteChannelWritev` | dropbear/common-channel.c:453-517 | One gathering write of both pieces of the ring and of the new data takes a first part of them in order |
| `Channels.Channel.WriteChannelFallback` | dropbear/common-channel.c:423-449 | One write of the first piece of the ring takes a first part of it |
| `Channels.Channel.WriteChannel` | dropbear/common-channel.c:524-548 | The write, then the window adjustment; the assertions hold exactly when the model says so |
| `Channels.Channel.CommonRecvMsgChannelData` | dropbear/common-channel.c:806-872 | Refuses, drops or accepts data as the model does; the copy loop ends within two rounds |
| `Channels.Channel.SendMsgChannelData` | dropbear/common-channel.c:708-792 | Reads at most what window, packet size and payload allow, sends it and takes it off the window |
| `Channels.Channel.IsWritePending` | dropbear/common-channel.c:264-273 | Whether an open descriptor still has buffered bytes |
| `Channels.Channel.CheckClose` | dropbear/common-channel.c:277-353 | Does what the model of check_close does |
| `Channels.Channel.ChannelIO` | dropbear/common-channel.c:200-249 | Does what the model of a turn does |
| `Channels.Channel.RecvMsgChannelData` | dropbear/common-channel.c:795-802 | Takes a data message |
| `Channels.Channel.RecvMsgChannelWindowAdjust` | dropbear/common-channel.c:877-891 | Widens the window in 32-bit arithmetic, capped |
| `Channels.Channel.RecvMsgChannelOpenConfirmation` | dropbear/common-channel.c:1157-1194 | Takes the window and packet size of a confirmation that is awaited, and refuses any other |
| `Channels.Channel.RecvMsgChannelEof` | dropbear/common-channel.c:603-615 | Takes EOF |
| `Channels.Channel.RecvMsgChannelClose` | dropbear/common-channel.c:619-632 | Takes CLOSE |
| `Channels.Channel.constructor` | dropbear/common-channel.c:106-174 | A new channel has its whole window open, nothing buffered and no descriptors |
| `CircBuffers.CopyIn` | dropbear/common-channel.c:853-868 | Data that fits is appended to the contents within two rounds of the copy loop |
| `CircBuffers.CircBuffer.constructor` | dropbear/circbuffer.c:31-48 | An empty ring without memory |
| `CircBuffers.CircBuffer.WriteLen` | dropbear/circbuffer.c:71-87 | The assertions on the positions hold; the result is zero exactly when the ring is full, and else all that is free or all up to the end |
| `CircBuffers.CircBuffer.ReadPtrs` | dropbear/circbuffer.c:89-102 | The two pieces together are the contents |
| `CircBuffers.CircBuffer.WritePtr` | dropbear/circbuffer.c:104-116 | Refuses exactly what does not fit, allocates once, and changes no contents |
| `CircBuffers.CircBuffer.IncrWrite` | dropbear/circbuffer.c:118-126 | What was placed behind the contents becomes part of them, round the end as well |
| `CircBuffers.CircBuffer.IncrRead` | dropbear/circbuffer.c:129-133 | The first bytes leave the contents |
| `CircBuffers.PositionsAgree` | dropbear/circbuffer.c:73-75 | Both position assertions of cbuf_writelen follow from the invariant of the ring |
| `CircBuffers.RingAt` | dropbear/circbuffer.c:89-102 | Byte i of the contents lies i places on from the read position, modulo the size |
| `Transport.Connection` | dropbear/common-session.c:153-278 | The whole: two sessions run as in RunBoth, the keys of each NEWKEYS come from an exchange, and the packets sent cross the wire in pieces of any size. Nobody exits, each side sends with the keys the other receives with, and every packet arrives in its place, deciphered with the generation and the number its session sent it under; all of them once all bytes are across |
| `Transport.Carry` | dropbear/packet.c:58-348 | The packets of one session cross to a receiver with the same schedule of keys, each deciphered with the generation and the number the session recorded |
| `Transport.PlaceIsRecord` | dropbear/common-kex.c:122-160 | Counting the NEWKEYS before a packet on the wire gives the generation of keys its session took it to have, and its place modulo 2^32 the number |
| `Transport.RunExchanges` | dropbear/common-kex.c:284-377 | After any number of exchanges, the first hash being the session identifier of all, the keys for sending at one side are those for receiving at the other, and are the ones section 7.2 of RFC 4253 derives |
| `Rekey.RunBoth` | dropbear/common-session.c:153-278 | In every run of a client and a server whose tables have algorithms in common and meet the condition for equal verdicts on the guess, with rekeying begun by either side at any time and any traffic, nobody exits, each packet is deciphered with the key generation and the sequence number it was enciphered with (section 7.3 of RFC 4253), the server has handled exactly one KEXDH_INIT for each NEWKEYS it has sent, and it has ignored none if the guess is right and else every guess |
| `Rekey.Misjudge` | dropbear/common-kex.c:911-967 | For all other tables with algorithms in common there is a run in which the guess is ignored though it is the client's only KEXDH_INIT, or is handled though the client sends another; each side has taken just packets that the other sent, in order |
| `Rekey.NeverStuck` | dropbear/common-session.c:153-278 | In every run, whenever all packets sent have arrived, both sides are outside of an exchange and hold nothing back |
| `Rekey.OneHandled` | dropbear/process-packet.c:116-128 | What the counts of handled and ignored KEXDH_INITs are at any point of such a run |
| `Rekey.InitsSent` | dropbear/cli-session.c:203-217 | The client sends one KEXDH_INIT in each exchange whose guess it judges right and two in each other |
| `Rekey.NextInTurn` | dropbear/packet.c:284-348 | The next packet of the other side is one that is due, and its keys and number are those of the receiver at that moment |
| `Rekey.OneSwitchPerExchange` | dropbear/common-kex.c:122-160 | The generation of a side's keys is the number of NEWKEYS it has sent |
| `Rekey.NewkeysUnderOldKeys` | dropbear/common-kex.c:163-181 | NEWKEYS goes under the old keys, and the packet after it is the first under the next generation |
| `Rekey.NoneDuringExchange` | dropbear/packet.c:438-519 | Between a side's KEXINIT and its NEWKEYS only messages below 50 other than 5, 6 and 20 reach the write queue (section 7.1 of RFC 4253) |
| `Rekey.Session.ProcessPacket` | dropbear/process-packet.c:43-161 | For any packet, where the verdict on the guess of a KEXINIT must be the one foretold for that exchange, the session exits exactly on DISCONNECT, on a KEXINIT with which no algorithm is in common, on messages of the layers above, of services or a second KEXINIT while a message of the exchange is due, and on messages of an exchange when none is; else it stays in good order, and it answers exactly the unknown messages as unimplemented (sections 7.1 and 11.4 of RFC 4253) |
| `Rekey.Session.Gate` | dropbear/process-packet.c:57-128 | What requirenext and ignorenext let through, drop, answer as unimplemented or refuse, and the end on DISCONNECT |
| `Rekey.Session.LoopOnce` | dropbear/common-session.c:233-273 | A pass of session_loop keeps the session in order; packets held back go out in the order submitted, none lost or twice; at its head nothing is held back unless an exchange is going on |
| `Rekey.Session.MaybeFlushReplyQueue` | dropbear/packet.c:469-489 | Once data is allowed the queue is emptied, in order |
| `Rekey.Session.EncryptPacket` | dropbear/packet.c:493-519 | A packet goes out under the present keys and number, or is held back when it may not go during an exchange |
| `Rekey.Session.SendMsgKexinit` | dropbear/common-kex.c:54-120 | Opens an exchange, with the client's guess; no data is allowed from then on |
| `Rekey.Session.SwitchKeys` | dropbear/common-kex.c:122-160 | Each direction changes its keys exactly when its NEWKEYS is there, and both together end the exchange |
| `Rekey.Session.SendMsgNewkeys` | dropbear/common-kex.c:163-181 | NEWKEYS under the old keys, then the new ones for sending |
| `Rekey.Session.RecvMsgNewkeys` | dropbear/common-kex.c:184-192 | Ends an exchange, or exits when there is none |
| `Rekey.Session.RecvMsgKexinit` | dropbear/common-kex.c:463-537 | Answers a KEXINIT with our own if need be and reads its lists, exiting exactly when an algorithm is wanting |
| `Rekey.Session.Require` | dropbear/common-kex.c:488-534 | After a KEXINIT a wrong guess is ignored by the server and repeated by the client, and the next message of the exchange is required |
| `Rekey.Session.RecvMsgKexdhInit` | dropbear/svr-kex.c:46-91 | The server replies, sends NEWKEYS and requires NEWKEYS |
| `Rekey.Session.RecvMsgKexdhReply` | dropbear/cli-kex.c:94-186 | The client sends NEWKEYS and requires NEWKEYS, and exits if it sent no KEXDH_INIT |
| `Rekey.Session.CliSessionloop` | dropbear/cli-session.c:203-232 | The client sends its KEXDH_INIT unless its guess was right, once per exchange |
| `Rekey.Session.CheckTimeouts` | dropbear/common-session.c:513-533 | Rekeying starts only outside of an exchange |
| `Rekey.Connect` | dropbear/common-session.c:47-151 | A new client and a new server start in step |
| `Receiving.Transfer` | dropbear/packet.c:58-348 | For any payloads, any keys to switch to after each NEWKEYS, with block sizes of 8 or 16 as the ciphers have and any size of a MAC, any sizes of the pieces written and read and both forms of writing, nobody exits, the payloads arrive unchanged and in order, each deciphered with the keys and the number of its place, all of them once all bytes are across, and writequeue_len is the number of unsent bytes (sections 6 and 7.3 of RFC 4253) |
| `Receiving.Listen` | dropbear/packet.c:150-348 | On any bytes whatever, read in pieces of any size, the receiver exits or goes on as the bytes taken say, and what it has delivered came in authentic packets one behind the other, each under the keys that the NEWKEYS before it lead to and with the MAC of its number |
| `Receiving.OnlyAuthentic` | dropbear/packet.c:284-380 | The same of the receiver as a function of the bytes |
| `Receiving.CheckedExactly` | dropbear/packet.c:284-380 | Deciphering the first block apart from the others and checking the MAC accepts exactly the authentic packets |
| `Receiving.FrameAuthentic` | dropbear/packet.c:521-665 | What a sender makes of a payload is authentic and has that payload |
| `Receiving.OnStream` | dropbear/packet.c:150-348 | On the bytes of a sender's stream the receiver never exits, has delivered the first packets and holds the beginning of the next |
| `Receiving.NotFooled` | dropbear/packet.c:262-273 | A length that wraps around in 32 bits is refused like any that is too long |
| `Receiving.NextStarts` | dropbear/common-kex.c:122-160 | The bytes of a packet begin where those before it end, under the keys before it or, after NEWKEYS, under the next ones with their initial state |
| `Framing.Sender.EncryptPacket` | dropbear/packet.c:521-621 | What is on the wire with what is queued is the stream of all packets so far, each under the keys of its time |
| `Framing.Padded` | dropbear/packet.c:524-570 | Packets are whole blocks, have 4 to 255 bytes of padding and the least length, and fit the buffer allocated for them |
| `Framing.Sender.Padding` | dropbear/packet.c:541-580 | The clear packet is length, padding length, payload and padding |
| `Framing.Sender.WritePacketWritev` | dropbear/packet.c:73-104 | As many bytes leave as the socket takes of the first fifty buffers, and stream and queue length stay right |
| `Framing.Sender.WritePacketWrite` | dropbear/packet.c:106-142 | The same with the first buffer, without writev |
| `Framing.Sender.PacketQueueConsume` | dropbear/netio.c:318-334 | Exactly the given number of first bytes leaves the queue |
| `Receiving.Receiver.ReadPacket` | dropbear/packet.c:150-208 | For any bytes on the wire the receiver is what the bytes taken lead to, whatever pieces they came in, and exits exactly when they lead to an exit; it takes bytes if any are ready |
| `Receiving.Receiver.ReadPacketInit` | dropbear/packet.c:214-279 | The same of the first block, which is deciphered once it is all there |
| `Receiving.Receiver.FindLength` | dropbear/packet.c:248-279 | For any first block: goes on exactly when the length in its clear form is at least 16, at most 35000 with the MAC, and whole blocks |
| `Receiving.Receiver.DecryptPacket` | dropbear/packet.c:284-348 | A whole packet is delivered and the keys are switched after NEWKEYS, or the session exits, as its MAC and its padding say |
| `Receiving.Receiver.Unpack` | dropbear/packet.c:284-336 | For any packet: goes on exactly when its MAC is right and the padding leaves a payload of allowed length |
| `Receiving.Receiver.Decipher` | dropbear/packet.c:297-380 | For any packet: the other blocks are deciphered in place, and the result is whether the last bytes are the MAC of the sequence number and the clear packet |
| `Framing.FrameParts` | dropbear/packet.c:214-348 | Deciphering the first block alone and then the rest gives the clear packet and the sender's cipher state |
| `Framing.DecryptUndoes` | dropbear/packet.c:585-596 | Deciphering undoes enciphering over any number of blocks |
| `Receiving.AllDelivered` | dropbear/packet.c:150-208 | With every byte read every packet has been delivered |
| `KeyDerivation.HashKeys` | dropbear/common-kex.c:251-275 | For any length the output is the beginning of K1||K2||K3... (section 7.2 of RFC 4253) |
| `KeyDerivation.BlocksOf` | dropbear/common-kex.c:251-275 | Such output is made block by block: the first is the hash of the base and the seed, each further one that of the base and all before it |
| `KeyDerivation.GenNewKeys` | dropbear/common-kex.c:284-377 | The six letters are assigned to directions as section 7.2 of RFC 4253 says, for client and server |
| `KeyDerivation.DirectionsAgree` | dropbear/common-kex.c:309-364 | Key material for one direction is the same wherever it is derived |
| `KeyDerivation.SecretsAgree` | dropbear/common-kex.c:597-618 | (g^y)^x and (g^x)^y are equal modulo p |
| `KeyDerivation.SameTranscript` | dropbear/common-kex.c:478-528 | Client and server see one transcript |
| `KeyDerivation.TranscriptDetermined` | dropbear/common-kex.c:635-647 | Equal inputs of the exchange hash mean equal versions, KEXINITs, host keys, public values and secrets |
| `KeyDerivation.KexdhCombKey` | dropbear/common-kex.c:597-648 | Refuses exactly public values outside [2,p-2]; else gives the power modulo p and the input of the exchange hash: versions and KEXINITs of client and server, host key, e, f and K in the order of section 8 of RFC 4253 |
| `KeyDerivation.StartKexHash` | dropbear/common-kex.c:478-528 | What is hashed first is the opening of the transcript as the party sees it, whatever host key and public value come later |
| `KeyDerivation.ExchangeAgrees` | dropbear/common-kex.c:284-377 | After an exchange the client sends with the IV, key and MAC key the server receives with, and the other way round, and they are the ones section 7.2 of RFC 4253 derives; each side refuses exactly the public values that are not from 2 to p-2 |
| `Algos.BufPutAlgolist` | dropbear/common-algo.c:330-349 | The list is the usable names with commas, and the exit is taken exactly when it does not fit |
| `Algos.BufMatchAlgo` | dropbear/common-algo.c:356-465 | For any list, the name agreed on, the rule for the guess and the verdict on it; nothing for a list that is too long or has a zero byte where names are parsed |
| `Algos.SplitList` | dropbear/common-algo.c:376-394 | The names of any list, the last one taking what exceeds the limit up to a zero byte; nothing if a zero byte comes before |
| `Algos.ParseUndoesJoin` | dropbear/common-algo.c:330-394 | Printed lists are parsed back up to the number of names allowed |
| `Algos.FirstIsChosen` | dropbear/common-algo.c:430-460 | The nested loops stop at the first client name that the server has |
| `Algos.ChosenIs` | dropbear/common-algo.c:430-460 | A name is chosen exactly when the server has it and none that the client prefers to it (section 7.1 of RFC 4253) |
| `Algos.JoinUndoesParse` | dropbear/common-algo.c:376-394 | For every list without a zero byte the names joined by commas are the list, there are at most as many as allowed, and only the last of those has commas |
| `Algos.RefusedForZero` | dropbear/common-algo.c:376-394 | A list is refused exactly for a zero byte in a name before the last that is allowed |
| `Algos.ClientChooses` | dropbear/common-algo.c:356-465 | The client picks the first of its usable names that the server offers, and takes its guess for right exactly when the first names meet and its first entry is usable |
| `Algos.ServerChooses` | dropbear/common-algo.c:356-465 | So does the server; under the old rule it takes the guess for right exactly when the first names meet and its own first entry is usable |
| `Negotiation.ReadKexAlgos` | dropbear/common-kex.c:807-972 | For any lists: exits exactly when a list has no algorithm in common or kexguess2 itself is chosen; else each direction has the cipher, MAC and compression picked from the lists for that direction, and the verdict is that over the kex and host key lists under the rule found in the first |
| `Negotiation.BothUnderstand` | dropbear/common-kex.c:807-972 | Reading each other's lists, both sides exit or both agree on every name, the first of the client's that the server has, each sends with what the other receives with, and the verdicts are those that the tables determine (section 7.1 of RFC 4253) |
| `Negotiation.Negotiate` | dropbear/common-kex.c:54-120 | The same for the printing and reading of both sides together |
| `Negotiation.PutAlgos` | dropbear/common-kex.c:63-88 | The lists of a KEXINIT are those that the tables print |
| `Negotiation.SameVerdict` | dropbear/common-kex.c:911-967 | Both sides judge the guess alike exactly when the first names do not meet, or the client's first entries are usable just if the better rule holds or the server's first entries are |
| `Negotiation.SameVerdictBetter` | dropbear/common-kex.c:911-967 | For two sides with the better rule: exactly when both first entries of the client are usable, or its first usable name is not offered in one of the lists |
| `Negotiation.VerdictsCanDiffer` | dropbear/common-algo.c:438-450 | Under the old rule, tables of a server without a host key of the first kind for which the verdicts differ |
| `Buffers.Buffer.Resize` | dropbear/buffer.c:78-90 | Keeps what fits, or exits on too big a size |
| `Buffers.Buffer.SetLen` | dropbear/buffer.c:107-113 | Refuses a length beyond the size and pulls the position back |
| `Buffers.Buffer.IncrLen` | dropbear/buffer.c:116-121 | Refuses exactly what exceeds the size, without wrap |
| `Buffers.Buffer.SetPos` | dropbear/buffer.c:123-129 | Refuses a position beyond the length |
| `Buffers.Buffer.IncrWritePos` | dropbear/buffer.c:132-140 | Moves on and lengthens, without wrap, or refuses |
| `Buffers.Buffer.IncrPos` | dropbear/buffer.c:144-152 | Moves either way within the length, without wrap, or refuses |
| `Buffers.Buffer.GetByte` | dropbear/buffer.c:155-163 | The byte at the position, if it is in use |
| `Buffers.Buffer.PutByte` | dropbear/buffer.c:176-183 | Writes one byte and nothing else |
| `Buffers.Buffer.GetPtr` | dropbear/buffer.c:187-193 | The next bytes, exactly if they are in use |
| `Buffers.Buffer.PutBytes` | dropbear/buffer.c:283-286 | Writes the bytes and nothing else, exactly if they fit |
| `Buffers.Buffer.GetInt` | dropbear/buffer.c:252-258 | Four bytes as a number, most significant first |
| `Buffers.Buffer.PutInt` | dropbear/buffer.c:261-266 | The bytes written stand for the number, most significant first |
| `Buffers.Buffer.PutString` | dropbear/buffer.c:269-274 | Length and bytes |
| `Buffers.Buffer.GetString` | dropbear/buffer.c:208-228 | Exactly strings within the limit that are all there, with a zero byte after the copy |
| `Buffers.Buffer.EatString` | dropbear/buffer.c:243-247 | The position moves on past the string, or back exactly when the length is 2^32-10^9 or more and there is room before it; when it succeeds is stated for every length |
| `Buffers.Buffer.PutMpint` | dropbear/buffer.c:291-331 | Writes the minimal encoding, and exits on negative numbers and for want of room |
| `Buffers.Buffer.GetMpint` | dropbear/buffer.c:336-361 | Gives a number exactly when the bytes parse as one, and moves behind it |
| `Buffers.MpintRoundTrip` | dropbear/buffer.c:291-361 | A number put is got back with the position behind it, exactly when its bytes are at most 1030 |
| `Bytes.GetIsBig` | dropbear/buffer.c:252-258 | LOAD32H gives the number that the bytes represent with the first the most significant |
| `Bytes.PutIsBig` | dropbear/buffer.c:261-266 | The bytes of STORE32H represent the number in that order |
| `Bytes.BigOrders` | dropbear/buffer.c:252-266 | Numbers of one length are in the order of their first bytes that differ |
| `Mpint.ParseUndoesEncode` | dropbear/buffer.c:336-361 | Parsing undoes printing whatever follows, exactly up to 1030 bytes |
| `Mpint.ParseExactly` | dropbear/buffer.c:336-361 | Any bytes are parsed exactly when they are there, are at most 1030 and do not stand for a negative number in two's complement, and then as the number they stand for (section 5 of RFC 4251) |
| `Mpint.BodyIsTwos` | dropbear/buffer.c:301-331 | What is printed stands for the number in two's complement |
| `Mpint.BodyIsMinimal` | dropbear/buffer.c:301-331 | The encoding stands for the number, has a clear top bit, and is the only shortest one that does (section 5 of RFC 4251) |
| `Mpint.BitsOfBytes` | dropbear/buffer.c:306-313 | The length from the number of bits is right, and padding is needed exactly when it is a multiple of 8 |
| `Ber.BerWriteIdLen` | dropbear/keyimport.c:292-345 | Writes the header and nothing else; the dry run gives its length |
| `Ber.BerReadIdLen` | dropbear/keyimport.c:236-284 | Reads what the header says, or nothing if bytes are missing or the length is negative |
| `Ber.ReadUndoesWrite` | dropbear/keyimport.c:236-345 | Reading undoes writing for identifiers up to 30 and lengths below 2^24, whatever follows |
| `Ber.HeaderIsShortest` | dropbear/keyimport.c:236-345 | The header written is the shortest that reads as it does, and but for 0x80 as a length byte the only one of its size |
| `Ber.WriteInts` | dropbear/keyimport.c:1008-1035 | The length counted beforehand is the length written, and the bytes are the sequence of integers |
| `Ber.TakeIntsOf` | dropbear/keyimport.c:627-678 | Reading a sequence of integers undoes writing it |
| `Ber.OpensshWrite` | dropbear/keyimport.c:860-1035 | Numbers are taken from the key blob and put in the order of the file |
| `Ber.RsaFile` | dropbear/keyimport.c:876-961 | In the file of an RSA key integer 1 is the product of 4 and 5, 2 and 3 undo each other, 6 and 7 are 3 modulo 4 and 5 less one, and 8 inverts 5 modulo 4 (section A.1.2 of RFC 8017) |
| `Ber.RsaExtra` | dropbear/keyimport.c:905-936 | The three numbers at the end of an RSA file are computed so |
| `Ber.DssFile` | dropbear/keyimport.c:970-1000 | In the file of a DSS key integer 4 is the power of 3 by 5 modulo 1, and 3 has the order 2 |
| `Ber.OpensshRead` | dropbear/keyimport.c:590-678 | The key blob that a file stands for, or nothing on any decoding failure |
| `Ber.ReadUndoesFileOrder` | dropbear/keyimport.c:647-674 | The reordering on reading undoes that on writing |
| `Ber.ExportImport` | dropbear/keyimport.c:590-1035 | Every RSA and DSS key whose blob fits is the same after export and import |
| `Dss.SignatureAccepted` | dropbear/dss.c:165-375 | For every key, hash m and random number the signature is accepted exactly when r = g^k mod p mod q is not zero and m + x·r is not zero modulo q (FIPS 186) |
| `Dss.ZeroForEveryKey` | dropbear/dss.c:283-345 | For every key and every random number there is a 20-byte hash for which s is zero, and the signature, written all the same, is not accepted |
| `Dss.DssSign` | dropbear/dss.c:283-375 | The forty bytes are r and s of FIPS 186, each padded to twenty, and the length assertions hold |
| `Dss.DssVerify` | dropbear/dss.c:165-278 | For any bytes and any hash: with a key as it is generated, accepts exactly what the next row says |
| `Dss.OnlySigned` | dropbear/dss.c:165-278 | Any bytes are accepted exactly when they are forty, both numbers are from 1 to q-1, and they are what signing gives for some random number, or r is 1 and the hash cancels the private key modulo q |
| `Dss.AcceptedFor` | dropbear/dss.c:165-278 | Numbers r and s in range are accepted exactly when r = g^k mod p mod q for the k with k·s = m + x·r modulo q |
| `Dss.WhenZero` | dropbear/dss.c:318-335 | s is zero exactly when m + x·r is zero modulo q |
| `Dss.SignThenVerify` | dropbear/dss.c:165-375 | Signing and then verifying the same data, as the code does both: accepted under the same condition |
| `Dss.ExponentsMeet` | dropbear/dss.c:204-262 | The exponents u1 + x·u2 of verification meet the k with k·s = m + x·r modulo q |
| `Dss.PaddedIs` | dropbear/dss.c:345-370 | Twenty padded bytes stand for the number |
| `Primes.Inverse` | dropbear/dss.c:318-321 | Euclid's algorithm inverts modulo a prime |
| `Queues.Queue.constructor` | dropbear/queue.c:29-34 | An empty queue |
| `Queues.Queue.IsEmpty` | dropbear/queue.c:36-39 | Whether there are items |
| `Queues.Queue.Dequeue` | dropbear/queue.c:41-61 | The first item leaves, the others keep their order |
| `Queues.Queue.Examine` | dropbear/queue.c:63-67 | The first item |
| `Queues.Queue.Enqueue` | dropbear/queue.c:69-87 | The item joins at the end |

## Left out

- That the chord and tangent law makes the points of the curve a group: the ladder is proved to follow the law wherever a family of multiples does.
- libtomcrypt, libtommath and zlib: ciphers, hashes and MACs are any functions of the right shape, numbers are integers, and compression is off.
- ECDSA, NIST ECDH and Curve25519 key exchange messages: the work is in libraries or in the parts modelled here.
- Sockets, select, processes, terminals, timers and logging: results of reads and writes, signals and time are parameters.
- The table of channels, channel requests, failed openings and the priority of channels: one channel is modelled from its opening on.
- Descriptors of a channel are set up once and before data comes for them, as the opener sends its request before any data.
- A read that finds the other side gone, and write errors on the session's socket: they end the program.
- Authentication: messages of the layers above are opaque.
- TCP fast open, which takes bytes from the write queue without counting them.
- The write queue of `Framing.Sender` and the reply queue of `Rekey.Session` are sequences; the links of queue.c are modelled in `Queues` alone.
- BerReadIdLen: refuses identifiers of more than one byte instead of reading them, because the writer makes none.
- BerWriteIdLen: identifiers above 30 and lengths of 2^24 or more are not modelled, because keys have none.
- OpensshWrite: the file header, base64 and padding of encrypted files are not modelled, because libraries and file output do them.
- ProcessPacket: needs the verdict on a KEXINIT's guess to be the one the session is told of in advance for that exchange; RunBoth and Misjudge show that it is the computed one. The refusal of messages of the layers above before authentication is not modelled, because authentication is not.
- Connection: the exchanges take place at the NEWKEYS of the run, and no party refuses the other's public value; a refusal is in ExchangeAgrees.
- Require: a first_kex_packet_follows set by the server is not modelled, because a Dropbear server does not guess; a Dropbear client always does.
- Ephemeral keys of KEXDH_INIT: which of two is answered is modelled, not what is in them.
- CircBuffer.constructor: a size of 0 is left out, because every write would then divide by zero.
- RecvMsgChannelOpenConfirmation: an opening that fails in the type's handler is not modelled, because the channel is then removed unused.
