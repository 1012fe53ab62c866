# Models of hermes-radio-daemon

A Dafny model of the parts of the radio daemon where a mistake is hard to see from the code of one
function, with proofs of what they promise together.

- The RADE voice link (`Rade*.dfy`, with `GrayCode.dfy` and `Crc16.dfy`): the signalling message, its
  convolutional code and Viterbi decoder, the combining of several messages, the unitary mixing of the
  latents, the transmitter, and the receiver that finds, locks to and follows an over. `RadeLink.dfy`
  puts transmitter, channel and receiver together.
- The D-STAR header (`DstarFec.dfy`, `DstarTables.dfy`, `DstarHeader.dfy`): coding, interleaving, both
  decoders, the checksum; and the transmit queue (`DstarQueue.dfy`).
- The D-STAR voice link (`DstarVoiceTx.dfy`, `DstarSlow.dfy`, `DstarVoiceRx.dfy`, `DstarEvidence.dfy`):
  keystream positions, slow data, and the receiver that weighs its evidence and decides what is played. `DstarVoiceLink.dfy` puts both ends together.
- The control of the Dream processes (`DreamControl.dfy`) and the file loop's ring (`AsyncLoop.dfy`):
  state machines over the single steps of two threads, for every interleaving.
- The log's tail reader (`DigiLog.dfy`) and the Morse message splitter (`CwSplit.dfy`).

`dafny verify dfyconfig.toml` takes all files together.

Some things are parameters. The key store (`VoiceCrypto.KeyStore`) is an arbitrary function, given
anew to every call, so that a key may come, change or go at any time. The random part of a nonce is a
parameter required to be new, since the code relies on that. Square roots and the normal deviates of the
mixing are functions too; all that is assumed of them is what a square root is. Signals are real numbers. The AMBE
coder is a pair of functions of which only this is assumed: decoding undoes coding but for the spare
bit. Bits and bytes are sequences of booleans.

Where a promise turned out not to hold of the code as it is, the model keeps the code:

- A D-STAR receiver with the right key and no bit errors can lose an over. A sync block within 16 bits
  of the filler of a clear over is not counted as seen. The over is played without a break if and only
  if the receiver never sees nine data syncs without a block that counts (`DstarVoiceLink.WholeOver`).
  Under any key an over whose nonce is six bytes of filler is lost at the ninth, unless the check of its
  superframe 1 is 0x99 (`DstarVoiceLink.LosesAnOver`, both directions).
- One stop of Dream can leave a process running (`DreamControl.OneStopLeavesOne`). It does exactly if a
  start is published between the stop's taking of the slot and its section under the lock
  (`DreamControl.OneStopExactly`), and cannot exactly if the side wants no start and has none of its
  generation in hand (`DreamControl.StopSure`). A shutdown makes one stop a side and leaves a Dream
  running under the same condition (`DreamControl.ShutdownExactly`). After two stops the slot is empty
  (`DreamControl.StaysEmpty`).
- A stop that takes back a start the control thread had not yet taken leaves Dream's pending flag set, so
  that dsp/sbitx_drm.c:458-465 says it runs when nothing does (`DreamControl.PendingForNothing`). The flag
  is right exactly unless a start was taken back since the control thread was last done with one
  (`DreamControl.PendingExactly`).
- A Morse message is cut when its pattern has 1024 characters or more (`CwSplit.EncodeMessage`, both
  directions), and the spaces a message begins with are not sent (`CwSplit.Parts`, both directions).
- For a Morse text none of whose characters is sent the pattern buffer is never written
  (dsp/sbitx_cw.c:71-86) and what goes out is whatever the buffer held: `CwSplit.LookupMorse` returns
  an arbitrary pattern then, and `CwSplit.Encode` states the signal of that.

## Model

| member | source | states |
|---|---|---|
| `GrayCode.UngrayGray` | dsp/rade_voice.c:227-230 | turning a message index into Gray code and back gives the index, for every index |
| `GrayCode.GrayUngray` | dsp/rade_voice.c:429-431 | the other direction: every Gray value is the code of the index read from it |
| `GrayCode.ToBinary` | dsp/rade_voice.c:429-431 | the receiver's shift-and-xor loop yields the one index whose Gray code is the value received |
| `GrayCode.GrayStep` | dsp/rade_voice.c:358-361 | counting an index up by one flips exactly one bit of its Gray code, the one at the index's trailing zeros |
| `Crc16.CrcXor` | dsp/rade_voice.c:126-134 | the CRC is linear in start value and message together, which is what lets a flipped bit be undone by a fixed mask |
| `Crc16.CrcFrom` | dsp/rade_voice.c:126-134 | the byte-wise loop computes the bit-serial CRC of any whole number of bytes |
| `Crc16.FeedIs` | dsp/rade_voice.c:126-134 | a bit equal to the register's top bit shifts it, any other mixes in x^12 + x^5 + 1 as well |
| `Crc16.ComplementResidue` | dsp/sbitx_dstar.c:810-826 | a register fed its own complement comes to one residue, whatever it held |
| `Crc16.TableStep` | dsp/sbitx_dstar.c:190-229 | one step with the table entry is eight steps of the shift register, for every byte and register |
| `Crc16.TableCrc` | dsp/sbitx_dstar.c:1740-1747 | the table-driven loop computes the bit-serial CRC |
| `RadeCode.CodewordXor` | dsp/rade_voice.c:159-168 | the convolutional code is linear |
| `RadeCode.ConvEncode` | dsp/rade_voice.c:159-168 | the register loop, tail included, produces the convolution of the message with the two generators |
| `RadeCode.OneBit` | dsp/rade_voice.c:154-168 | the code word of a single bit spells the generators 171 and 133 octal |
| `RadeCode.OneBitLater` | dsp/rade_voice.c:159-168 | a message that starts one bit later has its code word two bits later; with linearity this fixes every code word |
| `RadeCode.MetricIsCorrelation` | dsp/rade_voice.c:191-212 | the path metric along a message's own path is the correlation of its code word with the soft bits |
| `RadeCode.AddCompareSelect` | dsp/rade_voice.c:191-212 | after a step every state's metric and survivor are those of a best path into it |
| `RadeCode.TraceBack` | dsp/rade_voice.c:213-219 | reading the survivors backwards gives the bits of the path into state 0 |
| `RadeCode.Viterbi` | dsp/rade_voice.c:175-220 | for every vector of soft bits the decoder returns a message of maximum correlation among all messages |
| `RadeDistance.WeightBound` | dsp/rade_voice.c:159-168 | once a one is in the register, what was coded weighs at least a potential of the register's contents |
| `RadeDistance.MinimumDistance` | dsp/rade_voice.c:159-168 | code words of different messages, of any length, differ in at least 10 bits |
| `RadeDistance.RepairsErrors` | dsp/rade_voice.c:159-220 | with e soft bits erased and f of the wrong sign, of one magnitude, the decoder's answer is the message sent whenever 2f + e < 10 |
| `RadeDistance.DecodesClean` | dsp/rade_voice.c:159-220 | with no wrong sign and fewer than 10 erasures, whatever the magnitudes, the answer is the message sent |
| `RadeMessage.MessageStep` | dsp/rade_voice.c:232-244 | consecutive messages of an over differ by one Gray bit and what the CRC makes of it |
| `RadeMessage.MaskStep` | dsp/rade_voice.c:337-356 | the mask of that bit maps the code word of a message onto that of the one before |
| `RadeMessage.MasksMap` | dsp/rade_voice.c:337-356 | a product of masks maps the code word of message j onto that of message j - n |
| `RadeMessage.Combine` | dsp/rade_voice.c:582-590 | the accumulation over messages, mask after mask, is the sum of all turned to the signs of the newest |
| `RadeMessage.CombiningExact` | dsp/rade_voice.c:545-596 | whatever was received, the code word of message j correlates with the combined soft bits as all the messages do with theirs, together |
| `RadeMessage.CombinedDecodes` | dsp/rade_voice.c:545-596 | combined clean messages decode to the newest if one of them lost fewer than 10 bits |
| `RadeMessage.TruePatternTried` | dsp/rade_voice.c:562-581 | the pruned search over patterns of flips never leaves out the true one |
| `RadeMessage.Index` | dsp/rade_voice.c:426-438 | an index is found if and only if the message is the one of its own fields at that index and the index fits the flips it was combined with; then it is that index |
| `RadeMessage.FieldsOf` | dsp/rade_voice.c:232-244 | a message whose CRC checks is the message of its own nonce, index and check, and of no other index |
| `RadeMessage.MessageLayout` | dsp/rade_voice.c:232-244 | bit by bit: nonce, Gray code from its high bit down, check, and the CRC of those begun with ones |
| `RadeScramble.CarrierUnitary` | dsp/rade_voice.c:38-61 | the 2x2 matrix made from any keystream is unitary |
| `RadeScramble.UnmixInverts` | dsp/rade_voice.c:63-95 | unmixing undoes mixing through any channel gain common to the two symbols of a carrier |
| `RadeScramble.Scramble` | dsp/rade_voice.c:63-95 | in place, the latent is mixed (or unmixed) with just the four blocks numbered 4k to 4k + 3 under the frame's nonce, if and only if each of them is to be had; else nothing changes |
| `RadeScramble.ScrambledDeviates` | dsp/rade_voice.c:38-95 | each carrier takes its own 128 bits: what comes out, times the length of their four deviates, is the quaternion of the deviates applied to what went in; a carrier whose deviates vanish is left alone |
| `RadeScramble.MixedBlocks` | dsp/rade_voice.c:38-61 | a frame mixed under its number is mixed with the blocks a list names, if the list is that of the frame: what is logged as used is what was used |
| `RadeTransmitter.IlvInjective` | dsp/rade_voice.c:222-225 | the interleaver sends no two coded bits to one slot |
| `RadeTransmitter.IlvSteps` | dsp/rade_voice.c:222-225 | it begins at slot 0 and goes 77 slots on with every bit, round the 208 |
| `RadeTransmitter.FillSlots` | dsp/rade_voice.c:246-258 | each coded bit is in its slot |
| `RadeTransmitter.TurnUnit` | dsp/rade_voice.c:313-326 | a turned unit phasor is a unit phasor, so the carriers keep their amplitude over any number of symbols |
| `RadeTransmitter.Quadrants` | dsp/rade_voice.c:313-326 | the first bit of a step turns the sign of the real part, the second that of the imaginary part |
| `RadeTransmitter.AuxLevel` | dsp/rade_voice.c:310-329 | after any number of symbols of any message both carriers go out at the data carriers' amplitude times the gain |
| `RadeTransmitter.NextPhasor` | dsp/rade_voice.c:316-324 | the renormalised step is the exact quarter-turn step |
| `RadeTransmitter.FreshBlocks` | dsp/rade_voice.c:38-61 | the four keystream blocks of a frame are new when all used under its nonce are of earlier frames |
| `RadeTransmitter.RadeTx.Begin` | dsp/rade_voice.c:260-274 | an over is encrypted under a nonce never drawn before, or, without a key or a nonce, fails closed; nothing used before is forgotten |
| `RadeTransmitter.RadeTx.NewMessage` | dsp/rade_voice.c:246-258 | the slots hold the code word of the message of this nonce and index; without the key the over fails closed |
| `RadeTransmitter.CheckBits` | dsp/rade_voice.c:137-147 | the check is the low twenty bits of the block's first three bytes |
| `RadeTransmitter.RadeTx.AuxSymbols` | dsp/rade_voice.c:310-329 | the two carriers continue their phasors by the next bits of the message, scaled by the running amplitude |
| `RadeTransmitter.RadeTx.NextMessage` | dsp/rade_voice.c:284-296 | at the end of the counter a new nonce is drawn; a failed draw fails closed and uses no keystream |
| `RadeTransmitter.RadeTx.Emit` | dsp/rade_voice.c:297-330 | the frame is mixed with just the blocks it adds to those used, the four of its own number, and signals the next two symbols at the smoothed amplitude; or it is silence and adds none |
| `RadeTransmitter.RadeTx.Frame` | dsp/rade_voice.c:276-331 | over any sequence of calls no pair of nonce and keystream block is used twice, across rollovers and failed draws, and the blocks added are those the latent was mixed with; once encryption was asked for every frame is ciphertext or silence whatever the key store does; a clear over passes untouched |
| `RadeReceiver.RxSoft` | dsp/rade_voice.c:391-409 | the soft bits of the message ending at a symbol and the number of them really received, read from the ring by symbol number |
| `RadeReceiver.ScaleIs` | dsp/rade_voice.c:391-409 | the scale of the soft bits is one over the mean amplitude of the products |
| `RadeReceiver.HeardBit` | dsp/rade_voice.c:391-409 | each coded bit of a message heard is read with the sign it was sent with, across the wrap of the 32-bit symbol counter |
| `RadeReceiver.HeardDecodes` | dsp/rade_voice.c:391-409 | a message heard whole gives right signs with at most four erasures, the first symbol of an over included |
| `RadeReceiver.HearNext` | dsp/rade_voice.c:609-647 | a symbol put into the ring keeps all heard before it that still fit |
| `RadeReceiver.HeardShare` | dsp/rade_voice.c:506-520 | a message heard correlates fully with what arrived where it ends |
| `RadeLock.TrueMessageAccepted` | dsp/rade_voice.c:423-477 | the message of a nonce and index with the right check is accepted under its own flips |
| `RadeLock.HeardFindable` | dsp/rade_voice.c:545-596 | a message heard whole under the right key is found by the search, alone |
| `RadeLock.TrackedHeard` | dsp/rade_voice.c:484-541 | where the expected message is heard without noise, tracking leaves the lock as it is |
| `RadeLock.RadeRx.Play` | dsp/rade_voice.c:717-720 | in every sequence of calls: while locked, speech is played if and only if no track since the last that found the expected message found it plainly absent; not locked, if and only if no message was taken since the reset and there were ten power tests or more of which the last read off, or on for fewer than fifty after the over was shown clear |
| `RadeLock.StatusTold` | dsp/rade_voice.c:369-386 | the status after every symbol says what the record of tests, messages and tracks says: clear, no key and bad key each if and only if it does, bad key by two wrong checks a whole number of messages apart with none right since |
| `RadeLock.AcceptedExplained` | dsp/rade_voice.c:423-477 | what the receiver holds of messages and wrong checks stays what the record says when a message is taken or refused |
| `RadeLock.FollowedExplained` | dsp/rade_voice.c:521-541 | and so do, at every track, its count of messages missed in a row, below three while locked, and its hold |
| `RadeLock.Slips` | dsp/rade_voice.c:531-541 | a message found up to four symbols off, plainly better there, moves the lock by just as much, so that frame numbers follow it; else nothing moves |
| `RadeLock.RadeRx.Accept` | dsp/rade_voice.c:423-477 | the lock, the counts of bad checks and the alignment change as the message's CRC, index and check say, and it locks if and only if all three are right |
| `RadeLock.RadeRx.TryPatterns` | dsp/rade_voice.c:565-595 | if combining under some pattern of flips gives an acceptable message, the search locks |
| `RadeLock.RadeRx.TryMessage` | dsp/rade_voice.c:545-596 | if the message ending here can be found, alone or with up to three before it, the search locks; alone, on its nonce and frame number; with fewer than half its bits received nothing is tried |
| `RadeLock.RadeRx.BestLag` | dsp/rade_voice.c:503-520 | the lag found is the first of those with the greatest correlation |
| `RadeLock.RadeRx.Track` | dsp/rade_voice.c:484-541 | following a known message moves, holds or drops the lock by the best lag and its correlation |
| `RadeLock.RadeRx.Overhear` | dsp/rade_voice.c:676-683 | at a message end of its own over's timing, a locked receiver goes over to the nonce and frame number of a findable message of another nonce; one in step changes nothing |
| `RadeLock.RadeRx.HuntLocked` | dsp/rade_voice.c:675-687 | a findable message of another nonce takes over, with its frame number; a receiver in step changes nothing but its count of misses; four symbols after each expected end the lock is tracked, and at no other symbol does anything change |
| `RadeLock.RadeRx.HuntUnlocked` | dsp/rade_voice.c:688-700 | a search at the end of a findable message locks on its nonce and frame number; once aligned it searches only where messages end, and after three ends without one it searches everywhere again |
| `RadeLock.TookInHeard` | dsp/rade_voice.c:607-664 | a symbol taken in, whatever the state of search or lock, joins the symbols of the over heard before it: the ring then holds all of them, with their signs, as far back as it reaches |
| `RadeLock.TookInPower` | dsp/rade_voice.c:616-647 | the mean amplitude follows both products with a fiftieth each, and the products are kept under the symbol's own number |
| `RadeLock.RadeRx.Symbol` | dsp/rade_voice.c:598-715 | every call keeps the receiver sound and its record of power tests right, begun anew after a gap of more than 100 symbols; the latent is unmixed with the four blocks of the frame number the lock gives, exactly when the two symbols are a frame; what was heard of the over grows by the symbol in any state; a receiver in step, or looking for the message heard whole that ends here, is in step after it, and every second symbol is a frame with the transmitter's number |
| `RadeLink.StepReceived` | dsp/rade_voice.c:618-627 | the signs of a symbol's product with the one before are the two bits of the step, through any nonzero gain and amplitudes |
| `RadeLink.FrameClean` | dsp/rade_voice.c:310-329 | at any channel gains of the two carriers, the second symbol of a frame arrives with the signs of its bits, and so does the first if the frame before it was on the air |
| `RadeLink.SilenceClean` | dsp/rade_voice.c:618-627 | after silence the first symbol of an over comes out as 0, an erasure and not an error |
| `RadeLink.FrameHeard` | dsp/rade_voice.c:310-329 | so both symbols of every frame count as heard from the onset of the signal on, the first frame of an over included |
| `RadeLink.UnmixedReceived` | dsp/rade_voice.c:63-95 | what was mixed, went through the carriers' gains and is unmixed is the latent times those gains |
| `RadeLink.HearSymbol` | dsp/rade_voice.c:598-715 | in any state of search or lock a clean symbol extends what was heard, across the wrap of the symbol counter; a receiver that is in step, or looks for a message heard whole that ends here, is in step after it; one that took the channel for clear waits on for the power test |
| `RadeLink.Send` | dsp/rade_voice.c:276-331 | the transmitter's side of a frame: mixed under its own frame number, its symbols clean from the onset on, the amplitude positive exactly once something was sent |
| `RadeLink.PassFrame` | dsp/rade_voice.c:276-331 | one frame from transmitter to receiver, in any state of search or lock: what the receiver heard grows by it, and if it is in step or finds the message here it puts out the latent times the channel |
| `RadeLink.AwaitedFound` | dsp/rade_voice.c:653-664 | if the power test goes on just in time for a message end, a receiver that took the channel for clear looks for the message there |
| `RadeLink.Relay` | dsp/rade_voice.c:276-331 | any stretch of an over, from any frame to the end of the nonce, each frame with its own carriers' gains, to a receiver in any state: every frame comes out as it went in times its gains, from the start if the receiver is in step, else from the first message end at which it looks for a message it heard whole |
| `RadeLink.Converse` | dsp/rade_voice.c:260-331 | the same from the begin of the over on, the first frame included: the receiver ends locked on the over's nonce, and a receiver that took the channel for clear is sure to find the message the power test comes in time for |
| `DstarFec.InterDeint` | dsp/sbitx_dstar.c:64-177 | the receiver's order undoes the transmitter's |
| `DstarFec.DeintInter` | dsp/sbitx_dstar.c:230-343 | and the other way round: the interleaver is a bijection of the 660 coded bits |
| `DstarTables.PlaceTable` | dsp/sbitx_dstar.c:230-343 | every place is the entry of the interleaving table, byte and bit |
| `DstarTables.ScrambleTable` | dsp/sbitx_dstar.c:344-355 | every bit of the scrambling shift register is that of the table, which repeats after 127 bits |
| `DstarFec.AddCompareSelect` | dsp/sbitx_dstar.c:663-706 | after a step every state's metric and survivor are those of a cheapest path into it, from any start state |
| `DstarFec.Viterbi` | dsp/sbitx_dstar.c:709-808 | for all branch costs the bits read back are the inputs of a cheapest path into state 0, the start state left open |
| `DstarFec.DecodedTail` | dsp/sbitx_dstar.c:764-808 | whatever was received, the last two decoded bits are 0 |
| `DstarFec.FavouredCost` | dsp/sbitx_dstar.c:709-762 | costs that favour a code word are least exactly on the paths that code it |
| `DstarFec.SamePath` | dsp/sbitx_dstar.c:709-762 | paths that end in one state and code alike are one path, wherever they start: the open start state does no harm |
| `DstarFec.Decoded` | dsp/sbitx_dstar.c:709-808 | costs that favour the code of a header decode to it |
| `DstarHeader.Convolve` | dsp/sbitx_dstar.c:1455-1477 | the register loop over header and padding produces the code of the header |
| `DstarHeader.HeaderFec` | dsp/sbitx_dstar.c:1447-1522 | bit by bit in terms of the header's own bits: the two parities of each bit and the two before it, at the tables' place, with the scrambling table's bit added |
| `DstarTables.SectionIs` | dsp/sbitx_dstar.c:1447-1522 | the same of the section as coding, interleaving and scrambling define it |
| `DstarHeader.Checksum` | dsp/sbitx_dstar.c:810-826 | accepts exactly the headers whose last two bytes are the complemented CRC of the others |
| `DstarHeader.Finalize` | dsp/sbitx_dstar.c:1749-1755 | writes a checksum that is then accepted, and changes nothing else |
| `DstarHeader.ChecksumResidue` | dsp/sbitx_dstar.c:1740-1755 | a header with its checksum leaves the CRC's register at one residue, the same for all |
| `DstarHeader.Deinterleave` | dsp/sbitx_dstar.c:888-933 | each received bit, descrambled, is put where the coder had it |
| `DstarHeader.Pack` | dsp/sbitx_dstar.c:957-965 | the decoded bits fill the 41 bytes and none is written past them |
| `DstarHeader.RxHeader` | dsp/sbitx_dstar.c:885-968 | for every header, the bits of its own section decode to that header; for all bits the result is judged by the checksum |
| `DstarHeader.MeanMagnitude` | dsp/sbitx_dstar.c:852-859 | the normalising magnitude of symbols of one amplitude is that amplitude |
| `DstarHeader.RxHeaderSoft` | dsp/sbitx_dstar.c:831-883 | for every header, symbols of any one positive amplitude decode to that header |
| `DstarQueue.DstarTx.QueuePut` | dsp/sbitx_dstar.c:1420-1436 | the ring's contents grow by the data, or stay when it does not fit |
| `DstarQueue.DstarTx.QueueGet` | dsp/sbitx_dstar.c:1439-1445 | the oldest byte leaves the ring's contents |
| `DstarQueue.DstarTx.TxHeader` | dsp/sbitx_dstar.c:1592-1612 | the stream to go out grows by the coded header, with the preamble before the first one on an idle queue; a header that does not fit leaves the queue as it was |
| `DstarQueue.DstarTx.TxFrame` | dsp/sbitx_dstar.c:1614-1628 | the stream grows by the frame, or by nothing when it does not fit |
| `DstarQueue.DstarTx.TxEot` | dsp/sbitx_dstar.c:1630-1649 | the stream grows by the three end patterns, or by nothing |
| `DstarQueue.DstarTx.IsPending` | dsp/sbitx_dstar.c:1651-1657 | something is pending exactly while not all that was accepted has gone out |
| `DstarQueue.DstarTx.ReadRecord` | dsp/sbitx_dstar.c:1675-1709 | a record read back from the wrapped ring is the record that was put there, expanded |
| `DstarQueue.DstarTx.Refill` | dsp/sbitx_dstar.c:1659-1712 | moving a record to the output buffer changes nothing of what is still to go out |
| `DstarQueue.DstarTx.Generate` | dsp/sbitx_dstar.c:1714-1738 | the bytes modulated are the next ones of the stream, in order, as many as fit; after any interleaving of calls, what went out and what is pending make up all that was accepted |
| `DstarQueue.FrameSync` | dsp/sbitx_dstar.c:1680-1697 | a header goes out behind the fifteen bits of the standard's frame sync |
| `DstarQueue.LastFrame` | dsp/sbitx_dstar.c:1630-1649 | the end is three times the bit sync and the standard's last frame |
| `DstarVoiceTx.MaskTwice` | dsp/dstar_voice.c:75-85 | encrypted, coded, decoded and decrypted under one block, every voice bit but the spare one is what it was |
| `DstarVoiceTx.MaskedBits` | dsp/dstar_voice.c:75-85 | a voice bit is flipped if and only if the keystream's is set, the spare bit never |
| `DstarVoiceTx.MaskedSame` | dsp/dstar_voice.c:75-85 | two blocks make the same of a frame if and only if they agree on every bit but the spare one: the key cannot be left out |
| `DstarVoiceTx.MaskedAny` | dsp/dstar_voice.c:75-85 | a masked frame excludes no voice with its spare bit: for each there is a block that masks it so |
| `DstarVoiceTx.KeyedChecks` | dsp/dstar_voice.c:87-112 | the check of a superframe is the first byte of its own block, that of the header the first eight of block 0; none without the block |
| `DstarVoiceTx.BlockByte` | dsp/dstar_voice.c:75-112 | bytes of a block have their first bit as the most significant |
| `DstarVoiceTx.ByteBits` | dsp/dstar_voice.c:121-128 | the value of a byte, its bits least significant first |
| `DstarVoiceTx.HeaderLayout` | dsp/dstar_voice.c:145-159 | where flags, nonce, check and call signs are in the header |
| `DstarVoiceTx.SlowLayout` | dsp/dstar_voice.c:175-203 | what each slot's slow data is: the header five bytes a unit, then sync block or filler |
| `DstarVoiceTx.DataSyncSlot` | dsp/dstar_voice.c:175-181 | slot 0 of every superframe is the data sync, unscrambled |
| `DstarVoiceTx.SyncBlockFields` | dsp/dstar_voice.c:121-128 | a sync block gives back the nonce, the 16-bit counter and the check it was made of, the counter's high byte first |
| `DstarVoiceTx.FreshBlock` | dsp/dstar_voice.c:205-226 | a frame's block is new when all used under its nonce have smaller numbers |
| `DstarVoiceTx.Finalized` | dsp/dstar_voice.c:145-159 | the header text with its checksum, which is then right |
| `DstarVoiceTx.VoiceTx.MakeSync` | dsp/dstar_voice.c:121-128 | the sync block is that of the nonce and counter; without the key the over fails closed |
| `DstarVoiceTx.VoiceTx.Begin` | dsp/dstar_voice.c:130-163 | the header is the over's own, with nonce and keyed check if and only if it is encrypted; encryption without key, nonce or check fails closed |
| `DstarVoiceTx.VoiceTx.NextSuperframe` | dsp/dstar_voice.c:229-244 | the counter goes on, or starts again under a nonce never drawn before; the sync block follows it |
| `DstarVoiceTx.VoiceTx.Frame` | dsp/dstar_voice.c:205-245 | over any sequence of calls no pair of nonce and block is used twice; once encryption was asked for every frame is silence or uses a new block; the slow data is that of the slot; header and encryption never change in an over |
| `DstarSlow.CountedPlain` | dsp/sbitx_dstar.c:1096-1110 | up to 32 corrupt repeats the counts are those of the repeats, bit by bit |
| `DstarSlow.AllAgree` | dsp/sbitx_dstar.c:1096-1122 | a bit all repeats agree on is what they say, however often the counts were halved |
| `DstarSlow.TakesOver` | dsp/sbitx_dstar.c:1097-1104 | a bit the last eighteen repeats agree on is what they say, whatever was voted before them: a new station's header takes over |
| `DstarSlow.SeventeenDoNot` | dsp/sbitx_dstar.c:1097-1104 | seventeen are not enough against 31 votes before them |
| `DstarSlow.SlowRx.Elect` | dsp/sbitx_dstar.c:1096-1125 | the candidate is the strict majority of the votes of the repeats, of which a full count keeps half, and is offered if and only if there were three repeats or more and it checks; the counts fit their bytes |
| `DstarSlow.SlowRx.Judge` | dsp/sbitx_dstar.c:1086-1146 | a header is announced only if its checksum is right and it is not the last one announced |
| `DstarSlow.SlowRx.Unit` | dsp/sbitx_dstar.c:1078-1086 | the five data bytes of a unit go where its place says, whatever its type byte |
| `DstarSlow.SlowRx.Feed` | dsp/sbitx_dstar.c:1151-1167 | three bytes a frame make a unit of two; slot 0 starts over |
| `DstarSlow.Superframe` | dsp/sbitx_dstar.c:1061-1167 | in every superframe whose data sync is seen, encrypted or clear and whatever the receiver held before, the reassembly is the transmitter's header, announced once |
| `DstarVoiceRx.ChoiceIsMost` | dsp/dstar_voice.c:383-400 | the voted offset is the first of the most frequent ones, or the block's own while none repeats |
| `DstarVoiceRx.VoteNonce` | dsp/dstar_voice.c:363-379 | the counts are aged at the cap, the ballot added, and the result is the majority, bit by bit |
| `DstarVoiceRx.VoteOffset` | dsp/dstar_voice.c:383-400 | the nested counting loops make that choice |
| `DstarVoiceRx.ScoreBlocks` | dsp/dstar_voice.c:532-541 | the bits off and the blocks far off of all kept checks against the voted nonce and counter; none when the key is gone |
| `DstarEvidence.FewBallots` | dsp/dstar_voice.c:363-379 | of two ballots the newer is elected, of three each bit's majority |
| `DstarEvidence.AgedMajority` | dsp/dstar_voice.c:363-379 | aging from sixteen ballots to eight never turns a majority of nine, or of ten against |
| `DstarEvidence.VotedExactly` | dsp/dstar_voice.c:521-547 | a vote locks, on the nonce and counter voted, if and only if five checks are kept and are at most three bits off in all; else the key counts as wrong if it did or four of the five are three bits off or more |
| `DstarEvidence.LockLostExactly` | dsp/dstar_voice.c:459-519 | a lock is given up at a check if and only if the checks from some one on to this weigh ten nats, the first time any do; the key then counts as wrong |
| `DstarEvidence.HeaderVerdict` | dsp/dstar_voice.c:271-321 | what a header decides of lock and key: clear drops both verdicts, one that checks under a key is right or drops the lock, and at the start gives it |
| `DstarEvidence.DropForgets` | dsp/dstar_voice.c:556-571 | a ninth data sync without a block that counts ends the lock and forgets votes and verdict, and no other does |
| `DstarEvidence.StatusExactly` | dsp/dstar_voice.c:337-359 | the status after a frame is decrypting, clear, no key or bad key, each if and only if what it says holds |
| `DstarVoiceRx.CountBad` | dsp/dstar_voice.c:325-335 | how many of the last checks were far off, by the history's own index |
| `DstarVoiceRx.HeaderSound` | dsp/dstar_voice.c:271-321 | a header of any content keeps what holds of the receiver: synced implies encryption seen; known to be clear excludes a header that says encrypted, encryption seen and synced; a key proved wrong excludes synced; the counters stay in their bounds |
| `DstarVoiceRx.TriedSound` | dsp/dstar_voice.c:420-548 | and so does every sync block, filler or garbage |
| `DstarVoiceRx.ClearExactly` | dsp/dstar_voice.c:271-321 | in every sequence of headers, frames, resets and key changes, an over is known to be clear if and only if some event showed it and none since took it back: shown by a header that checks and says clear, or, with no encrypted header and no keystream, by slots 17 to 20 that read as filler, or as another type when no sync block was seen; taken back by a reset, a header that says encrypted or does not check, or a sync block |
| `DstarVoiceRx.PlayedExactly` | dsp/dstar_voice.c:550-598 | in every such sequence a frame is played if and only if the receiver has the keystream block of its own count, which then decrypts it, or its over was shown to be clear by such an event, and then it is played as it came; never both |
| `DstarVoiceRx.WrongKeyMuted` | dsp/dstar_voice.c:289-300 | in every such sequence, after a header that proves the key wrong no frame is played until the next header or reset |
| `DstarVoiceRx.VoiceRx.Header` | dsp/dstar_voice.c:271-321 | the receiver's whole new state after a header, from which the lemmas above follow |
| `DstarVoiceRx.VoiceRx.Frame` | dsp/dstar_voice.c:550-598 | the whole of a frame: its bits, whether they are played, and the receiver after it |
| `DstarVoiceLink.SyncRead` | dsp/dstar_voice.c:420-455 | the sync block read from slots 17 to 20 is the one put there, and carries its type |
| `DstarVoiceLink.NextFrame` | dsp/dstar_voice.c:556-571 | however many data syncs were missed, the receiver's count of frames goes on with the transmitter's |
| `DstarVoiceLink.TriedInStep` | dsp/dstar_voice.c:420-548 | a genuine sync block leaves a receiver in step, and a lock it gives, by the header's nonce, by two exact blocks or by the votes, is right; the count of superframes without a block is cleared exactly if the block is not like filler |
| `DstarVoiceLink.VotedInStep` | dsp/dstar_voice.c:521-547 | votes on genuine blocks are unanimous, through aging and the wrap of the offset counter, and lock on the right nonce and superframe |
| `DstarVoiceLink.FrameInStep` | dsp/dstar_voice.c:550-598 | each frame of the over leaves the receiver in step, and if it has the keystream it plays every voice bit sent but the spare one |
| `DstarVoiceLink.HeaderInStep` | dsp/dstar_voice.c:289-320 | the header repeated in slow data leaves the receiver in step and does not lose the keystream |
| `DstarVoiceLink.FromTheHeader` | dsp/dstar_voice.c:305-313 | a receiver that heard the header has the keystream from the first frame, through the wrap of its counter from 2^32 - 1 to 0 |
| `DstarVoiceLink.JoinedLate` | dsp/dstar_voice.c:556-570 | a receiver that joins at any superframe is in step before it has the keystream |
| `DstarVoiceLink.TriedLearns` | dsp/dstar_voice.c:459-519 | one genuine sync block not like filler leaves a receiver whose key was not found wrong locked or primed, and one more locks a primed one, however many superframes lie between |
| `DstarVoiceLink.LateOver` | dsp/dstar_voice.c:459-519 | a receiver that joins at any superframe without the header: of any two whole sync blocks not like filler it has the keystream by the second, whichever data syncs it misses, and every frame it decrypts is the voice sent |
| `DstarVoiceLink.SendFrame` | dsp/dstar_voice.c:205-245 | the transmitter method sends the over's frames, one after the other |
| `DstarVoiceLink.HeaderCarries` | dsp/dstar_voice.c:145-158 | the header of an encrypted over says so and carries nonce and check |
| `DstarVoiceLink.TightCounted` | dsp/dstar_voice.c:556-570 | a receiver that has the keystream keeps it at a data sync if that is at most the eighth since the last block it counted, and drops the over if it is the ninth |
| `DstarVoiceLink.FrameTight` | dsp/dstar_voice.c:550-598 | a frame of the over never takes the keystream away, and the count of data syncs is cleared exactly by a last slot whose sync block is not like filler |
| `DstarVoiceLink.DroppedMuted` | dsp/dstar_voice.c:346-359 | the frame at which the over was dropped is not played |
| `DstarVoiceLink.HearFrame` | dsp/dstar_voice.c:550-598 | the receiver method on a frame of the over: what it plays, and how it stands for either way the next frame may be numbered |
| `DstarVoiceLink.Talk` | dsp/dstar_voice.c:205-245 | an over, or the rest of one, of any length before the counter rolls over and with any data syncs missed: every frame decrypted is the voice sent but for the spare bit; a receiver that starts with the keystream plays all frames up to any one if and only if it never sees nine data syncs without a sync block not like filler |
| `DstarVoiceLink.WholeOver` | dsp/dstar_voice.c:130-163 | the same from begin and header on, both directions |
| `DstarVoiceLink.DistinctKept` | dsp/dstar_voice.c:426-439 | if no sync block of the over is like filler that never happens, whichever data syncs are missed |
| `DstarVoiceLink.LosesAnOver` | dsp/dstar_voice.c:426-439 | under any key, an over whose nonce is six filler bytes, received without an error and with every data sync seen, is lost at its ninth data sync and not before, unless the check of superframe 1 is 0x99; then it is kept that far |
| `DstarVoiceLink.FillerBlocks` | dsp/dstar_voice.c:426-439 | of the first eight sync blocks under such a nonce all pass for filler, whatever their checks, but block 1 if its check is 0x99 |
| `DstarVoiceLink.SomeFillerNonce` | dsp/dstar_voice.c:426-439 | there is such a nonce |
| `DreamControl.InvStep` | dsp/sbitx_drm.c:190-292 | every single step of either thread keeps the invariant |
| `DreamControl.EachInOnePlace` | dsp/sbitx_drm.c:190-292 | in every interleaving each process started is in exactly one place; the stop list never holds more than four of its eight, so no process is left running |
| `DreamControl.QuietReturn` | dsp/sbitx_drm.c:272-281 | a stop that returns without the lock really had nothing to do: nothing wanted, under way or running |
| `DreamControl.PendingExactly` | dsp/sbitx_drm.c:272-292 | in every run the pending flag is set if and only if a start is wanted or under way, or one was taken back since the control thread was last done with one |
| `DreamControl.PendingForNothing` | dsp/sbitx_drm.c:458-465 | a run after which it is set with nothing wanted, under way or running |
| `DreamControl.StaysEmpty` | dsp/sbitx_drm.c:272-292 | after two stops the slot is empty and stays so until a start; an empty slot after one stop stays so too |
| `DreamControl.OneStopExactly` | dsp/sbitx_drm.c:272-292 | in every run a stop leaves its side's slot empty if and only if the control thread publishes nothing for that side between the stop's taking of the slot and its section under the lock |
| `DreamControl.StopSure` | dsp/sbitx_drm.c:272-292 | at any point of a stop in any run: every way it can go on leaves the slot empty if and only if no start of the side is wanted and none of the current generation is in the control thread's hands; otherwise there is a way that leaves a Dream running |
| `DreamControl.Settle` | dsp/sbitx_drm.c:190-250 | from any state the control thread left alone comes to rest, having published on just the sides where a start was wanted or in hand |
| `DreamControl.OneStopLeavesOne` | dsp/sbitx_drm.c:190-292 | an interleaving in which one stop leaves a process in the slot |
| `DreamControl.AllStopped` | dsp/sbitx_drm.c:591-613 | when nobody's hands are full and nothing is to stop, every process ever started has been stopped, once, but for those in the slots |
| `DreamControl.ShutdownExactly` | dsp/sbitx_drm.c:591-613 | a shutdown, one stop a side and the wait for the control thread to rest, has stopped every process ever started if and only if neither stop was overtaken by a publish |
| `AsyncLoop.InvStep` | common/async_file.c:278-351 | every single step of either thread, byte copies included, keeps the ring and the handshake in order |
| `AsyncLoop.NeverOverwrites` | common/async_file.c:48-58 | in every interleaving a byte put takes no place of one not yet taken out, and a chunk read from the file always fits |
| `AsyncLoop.ReadsConsecutive` | common/async_file.c:61-71 | the bytes of a successful read are consecutive and of one opening of the file |
| `AsyncLoop.ReadExactly` | common/async_file.c:377-390 | in every run a read succeeds if and only if flush was clear, the loop active and enough bytes there, each when the read looked; it then returns as many as asked for, else none, and one that found flush set leaves the ring empty and flush clear |
| `AsyncLoop.ActiveExactly` | common/async_file.c:278-351 | in every run the loop counts as active exactly from when the ring was first full until the file goes, and the file is open then |
| `AsyncLoop.Fills` | common/async_file.c:278-351 | from any such state the loop thread, left alone, fills the ring to less than a chunk and becomes active |
| `AsyncLoop.Delivers` | common/async_file.c:278-390 | from any state of a run with an open file and nothing to discard there is a way to go on by which a read of up to all but a chunk of the ring returns its bytes |
| `AsyncLoop.ReadsInOrder` | common/async_file.c:377-398 | over all reads the openings never go back, and of each that is heard no byte is skipped or repeated |
| `AsyncLoop.HeardFromTheFirst` | common/async_file.c:278-351 | an opening that is heard is heard from its first byte |
| `DigiLog.EntriesCut` | dsp/digi_log.c:472-476 | the entries of a text cut at a newline are those of its two pieces |
| `DigiLog.EntriesAre` | dsp/digi_log.c:472-508 | the entries of a text are those of its lines that, without what carriage returns end them, are longer than one character and stand in braces, in order |
| `DigiLog.TakeFromEnd` | dsp/digi_log.c:477-508 | walking back from the end takes the newest entries of the text, as many as wanted, as reading it from the top would give them |
| `DigiLog.WholeLines` | dsp/digi_log.c:550-559 | of a window that is not the whole file what follows its first newline is kept, nothing if it has none; of the whole file all |
| `DigiLog.TakeTail` | dsp/digi_log.c:530-567 | the doubling window ends, and gives what reading the whole file would |
| `DigiLog.LastJson` | dsp/digi_log.c:569-606 | for every pair of files and every count, the array of the last entries of the old file followed by the current one, newest first |
| `DigiLog.Log.Add` | dsp/digi_log.c:393-413 | ids increase strictly and are the time when that is later; the ring holds the last 64 entries |
| `DigiLog.Log.ReadSince` | dsp/digi_log.c:456-471 | the kept entries after an id, oldest first, as many as there is room for |
| `DigiLog.NothingMissed` | dsp/digi_log.c:456-471 | a reader that asks again from its last id gets every entry since, once, if no more than 64 came |
| `CwSplit.Parts` | dsp/sbitx_cw.c:164-216 | for every message of characters that are sent with single spaces, on a buffer of at most 1000 dots that holds any character with its word space, the parts one after the other are the timeline of the message without spaces before it, which is that of the message if and only if it does not begin with a space |
| `CwSplit.CodeReadsBack` | dsp/sbitx_cw.c:54-69 | the characters sent are letters, figures, five signs and the space, and every code leads to its own character in the Morse tree |
| `CwSplit.ParisIsFifty` | dsp/sbitx_cw.c:54-87 | the word PARIS with its space is fifty dots, the measure of words a minute |
| `CwSplit.PatternTimeline` | dsp/sbitx_cw.c:54-87 | the keys of a text's pattern with the gap at its end are its timeline of 1, 3 and 7 dots, for every text |
| `CwSplit.LookupMorse` | dsp/sbitx_cw.c:54-87 | the pattern of a text with a character that is sent is whole if and only if the buffer holds it, else cut at its end |
| `CwSplit.Encode` | dsp/sbitx_cw.c:120-156 | the signal is the keys of the pattern and a character gap, cut where the buffer ends |
| `CwSplit.EncodeMessage` | dsp/sbitx_cw.c:120-156 | given room, a message goes out as its timeline if and only if its pattern is shorter than 1024 characters |
| `CwSplit.CwSamples` | dsp/sbitx_cw.c:159-162 | on a buffer of at most 1000 dots the count says exactly whether a text fits |
| `CwSplit.WholeWords` | dsp/sbitx_cw.c:175-195 | the words taken fit and end with their space, and one word more does not fit or is too long for the part; if none is taken, the first word has a second character |
| `CwSplit.SomeCharacters` | dsp/sbitx_cw.c:196-211 | the characters taken of a long word fit, one more does not or is its last or too many for the part, and its last one is never among them |
| `CwSplit.EncodePart` | dsp/sbitx_cw.c:164-216 | each call consumes text and stays in its buffer; under the conditions below the part goes out whole and what is left starts with no space |

## Left out

- RadeLink.Relay: the receiver has the over's key throughout, and the gains of the two auxiliary carriers stay the same; that a receiver already searching looks for the next message whole is its proviso, because it may first have accepted by chance what is no message.
- RadeLink.Converse: as RadeLink.Relay; that the receiver comes to look is shown for one that took the channel for clear until the power test went on.
- RadeLock.RadeRx.TryPatterns: says that the search locks, not on which message, because a pattern tried earlier may be accepted by chance; alone, RadeLock.RadeRx.TryMessage says which.
- RadeLock.RadeRx.Symbol: the test for power on the auxiliary carriers is an input, because it is a smoothed comparison of measured powers.
- RadeLock.RadeRx.Accept: the count of messages is unbounded; the code's is a 32-bit word.
- RadeCode.Viterbi: over real numbers, so ties and sums are exact; floating-point rounding is not modelled.
- RadeScramble.Scramble: over real numbers, with the normal deviates as functions of the keystream.
- DstarHeader.RxHeaderSoft: takes the samples at the symbol instants; the sample ring and the timing search are not modelled.
- DstarQueue.DstarTx.Generate: stops at the bytes modulated; GMSK shaping is not modelled.
- DstarVoiceLink.LateOver: joins at the start of a superframe whose data sync it sees, as a receiver counts frames from a data sync.
- DstarVoiceLink.Talk: the frames of one nonce; a receiver has to lock anew after the transmitter's counter rolls over, about 7.6 hours into an over.
- DreamControl.EachInOnePlace: generations are unbounded; the code's wrap after 2^32 requests. One thread asks, as the DSP thread does.
- DreamControl.ShutdownExactly: of a shutdown that finds the control thread at rest; the wait that gives up after five seconds is not modelled.
- AsyncLoop.ReadsInOrder: the byte counters are unbounded; the code's wrap with the word size.
- AsyncLoop.InvStep: the steps are interleaved in one order seen by both threads; the acquire and release orders of the atomics are not modelled.
- DigiLog.TakeTail: the file is not truncated while it is read and memory is had, as otherwise the code returns fewer entries.
- DigiLog.Log.Add: the entry's text is given; building it, the refusal of unknown modes and the rotation of the files are not modelled.
- CwSplit.Encode: the state of the key only; the tone, its edges and its phase are not modelled. A pattern buffer never written holds any pattern, but not one without an end.
- CwSplit.Parts: messages with runs of spaces or characters that are not sent; a run of spaces where a part ends goes out as one.
- CwSplit.CwSamples: a dot has at least one sample and at most as many as at one word a minute.
- The AMBE coder, the stream cipher, RADE's neural coder, FT8 and Dream itself are foreign code.
- The other modems, the skimmer, filters, the rig and network interfaces and the web server: signal processing and plumbing with no claim of this kind.
- The recording writer: a write already past its test may land in the next file, so only conservation would hold.
- The JSON check of Dream's status report: it accepts more than sections 6 and 7 of RFC 8259 allow.
