# LDAC A2DP source codec glue, modelled in Dafny

This project models the LDAC source side of PulseAudio's Bluetooth A2DP
module (`src/modules/bluetooth/a2dp/a2dp_ldac.c`): the glue between
PulseAudio and the opaque LDAC encoder and adaptive-bit-rate (ABR)
libraries. It covers:

- capability advertisement, configuration selection against a peer's
  capabilities, and validation of a peer-chosen configuration
  (`LdacNegotiation`, pure functions over the `a2dp_ldac_t` bitmasks);
- the lookup tables of transport configuration (PCM format, rate, channel
  count, LSU, codec frame size), the MTU arithmetic of the block-size planner
  and of the per-packet PCM budget, and the user-configuration strings
  (`LdacParams`);
- the frame loop of the encode path, as a specification function over a
  script of encoder replies and a loop method proved against it
  (`LdacEncodeLoop`);
- the state `ldac_info_t` as the class `LdacSource.LdacInfo`, whose methods
  are the operations that update it in place: init, user configuration,
  transport configuration, block size, stream setup, transmit length and
  encode (`LdacSource`).

The constants that come from headers outside this model are parameters:
`LdacConsts` carries the six frequency bits, the three channel-mode bits, the
vendor and codec ids and `sizeof(a2dp_ldac_t)` (with `Valid()`: distinct
one-bit values), and `Platform` carries the RTP header and payload-descriptor
sizes, `LDACBT_ENC_LSU`, `LDACBT_MAX_LSU`, `pa_frame_size` and
`pa_bytes_to_usec`. `size_t`, `uint16_t` and `uint32_t` arithmetic is
written with its wrap-around; properties that need the absence of wrap-around
state it as a hypothesis (`HeadersFit`, `NoWrap`).

The encoder's answers to successive `ldacBT_encode` calls are a sequence
`replies`. The code asserts of each successful answer that it consumed
exactly one encoder read and wrote no more than the room left
(a2dp_ldac.c:183-184); `Honours` states that, and that the script is long
enough for the loop to end. The init return codes of the encoder and ABR
handles are parameters of `SetupStream`, and the value handed to the ABR
step is returned by `Encode`.

In these places the code does something a reader might not expect, and the
model follows the code:

- The per-packet PCM budget uses the mobile-quality frame size of 110 bytes
  whatever quality is configured (a2dp_ldac.c:154-155), not the configured
  quality's frame size.
- The encode loop does not stop after the first chunk: it runs until a frame
  is produced or the budget or the room is used up (a2dp_ldac.c:161);
  `NotJustOneChunk` shows a two-call run.
- Stream setup resets the frame and byte counters but not the sequence
  number (a2dp_ldac.c:365-366).
- A failed encoder init with the ABR library loaded also drops the ABR
  controller and disables ABR (a2dp_ldac.c:401-409).
- Transport configuration forgets both handles without freeing them
  (a2dp_ldac.c:234-235).

## Model

| member | source | states |
|---|---|---|
| `LdacNegotiation.GetCapabilities` | src/modules/bluetooth/a2dp/a2dp_ldac.c:434-446 | the advertised record carries the LDAC vendor and codec ids, and its size is the record size |
| `LdacNegotiation.CapabilitiesAdvertiseTable` | src/modules/bluetooth/a2dp/a2dp_ldac.c:437-442 | the advertised frequencies are exactly 44.1, 48, 88.2 and 96 kHz (not 176.4 or 192 kHz) and all three channel modes are advertised |
| `LdacNegotiation.FrequencyTable` | src/modules/bluetooth/a2dp/a2dp_ldac.c:453-458 | the selection table has four entries in strictly ascending rate order, and the k-th entry carries the k-th legal frequency bit widened to 32 bits |
| `LdacNegotiation.Widen` | src/modules/bluetooth/a2dp/a2dp_ldac.c:454-457 | widening a frequency bit to the 32-bit capability field keeps the bit as its low byte |
| `LdacNegotiation.ChannelPreference` | src/modules/bluetooth/a2dp/a2dp_ldac.c:472-496 | the preference order is a permutation of the three channel modes |
| `LdacNegotiation.FirstPresent` | src/modules/bluetooth/a2dp/a2dp_ldac.c:472-496 | the index found is the first entry of the order advertised by the mask, and none is found only when no entry is advertised |
| `LdacNegotiation.ChooseChannelMode` | src/modules/bluetooth/a2dp/a2dp_ldac.c:472-496 | a chosen mode is a legal mode the peer advertises; no mode is chosen exactly when the peer advertises none of the three |
| `LdacNegotiation.ChannelChoiceFollowsPreference` | src/modules/bluetooth/a2dp/a2dp_ldac.c:472-496 | the chosen mode is the first advertised mode in the order mono, stereo, dual for at most one channel and stereo, dual, mono otherwise |
| `LdacNegotiation.StereoPreferredForTwoChannels` | src/modules/bluetooth/a2dp/a2dp_ldac.c:485-496 | against a peer offering mono and stereo, a stereo default selects stereo and a mono default selects mono |
| `LdacNegotiation.SelectConfiguration` | src/modules/bluetooth/a2dp/a2dp_ldac.c:448-499 | a wrong capability size fails; selection succeeds exactly when the size is right, the picker finds a frequency and a channel mode is found; the result carries the LDAC ids, the picked frequency's low byte and the channel mode `ChooseChannelMode` picks, which is an advertised legal mode |
| `LdacNegotiation.SetConfiguration` | src/modules/bluetooth/a2dp/a2dp_ldac.c:508-540 | a configuration is accepted exactly when its size is right, its frequency is one of the six legal bits and its channel mode one of the three legal bits |
| `LdacNegotiation.SetConfigurationRejectsNonOneBit` | src/modules/bluetooth/a2dp/a2dp_ldac.c:516-537 | a frequency or channel-mode field with no bit or several bits set is rejected |
| `LdacNegotiation.FrequencyTableIsLegal` | src/modules/bluetooth/a2dp/a2dp_ldac.c:453-470 | every entry of the selection table yields one of the four offered frequency bits in the configuration record |
| `LdacNegotiation.FrequencyField` | src/modules/bluetooth/a2dp/a2dp_ldac.c:470 | the 8-bit frequency field keeps the picked capability whenever that fits in a byte |
| `LdacNegotiation.SelectedConfigurationIsAccepted` | src/modules/bluetooth/a2dp/a2dp_ldac.c:466-498 | round trip: every configuration the selection emits is accepted by the validator, given a picker that returns a table entry |
| `LdacNegotiation.OwnCapabilitiesNegotiate` | src/modules/bluetooth/a2dp/a2dp_ldac.c:439-496 | selecting against this source's own capabilities succeeds whenever the picker does, with mono for a mono default and stereo otherwise |
| `LdacParams.PcmFormatFor` | src/modules/bluetooth/a2dp/a2dp_ldac.c:242-263 | float, 32-bit and 24-bit formats of either byte order (and 24-in-32) map to their LDAC kind, every other format to 16-bit, and the written-back format is the kind's little-endian format |
| `LdacParams.PcmFormatWriteBackIsStable` | src/modules/bluetooth/a2dp/a2dp_ldac.c:242-263 | resolving the written-back format again gives the same result |
| `LdacParams.RateOf` | src/modules/bluetooth/a2dp/a2dp_ldac.c:266-293 | a legal frequency bit resolves to one of the six LDAC rates |
| `LdacParams.RateOfMatchesBit` | src/modules/bluetooth/a2dp/a2dp_ldac.c:266-293 | with distinct bits, the k-th frequency bit resolves to the k-th rate in ascending order |
| `LdacParams.ChannelsOf` | src/modules/bluetooth/a2dp/a2dp_ldac.c:295-310 | a legal channel mode gives one or two channels, mono giving one |
| `LdacParams.ChannelsOfMono` | src/modules/bluetooth/a2dp/a2dp_ldac.c:295-310 | with distinct bits, one channel is given exactly for mono |
| `LdacParams.LsuOf` | src/modules/bluetooth/a2dp/a2dp_ldac.c:312-327 | the LSU is 128 frames per whole multiple of 44.1 kHz in the rate |
| `LdacParams.FrameSizeOf` | src/modules/bluetooth/a2dp/a2dp_ldac.c:329-341 | the codec frame size is one to three mobile-quality frames of 110 bytes, exactly one for mobile quality |
| `LdacParams.FrameSizeOrder` | src/modules/bluetooth/a2dp/a2dp_ldac.c:329-341 | higher quality means strictly larger codec frames |
| `LdacParams.PayloadRoom` | src/modules/bluetooth/a2dp/a2dp_ldac.c:154-158 | when the headers fit, the room after the RTP header and payload descriptor is the MTU minus both, without wrap-around |
| `LdacParams.PayloadRoomExact` | src/modules/bluetooth/a2dp/a2dp_ldac.c:354-355 | when the headers fit, the room after them is computed without wrap-around |
| `LdacParams.PcmForFramesExact` | src/modules/bluetooth/a2dp/a2dp_ldac.c:354-355 | without wrap-around, the PCM size is the whole frames that fit in the room times the PCM read size |
| `LdacParams.QWriteBlockSize` | src/modules/bluetooth/a2dp/a2dp_ldac.c:354-355 | without wrap-around, the ABR block is the number of whole codec frames that fit in the room after the headers times the PCM read size |
| `LdacParams.PcmBudget` | src/modules/bluetooth/a2dp/a2dp_ldac.c:153-155 | without wrap-around, the per-packet PCM budget is the number of whole 110-byte frames that fit in the room after the headers times the PCM read size |
| `LdacParams.WriteBlockSize` | src/modules/bluetooth/a2dp/a2dp_ldac.c:356 | without wrap-around, the write block is the maximum LSU of frames in bytes |
| `LdacParams.PcmReadSize` | src/modules/bluetooth/a2dp/a2dp_ldac.c:344 | without wrap-around, the PCM read size is the configured LSU of frames in bytes |
| `LdacParams.EncReadSize` | src/modules/bluetooth/a2dp/a2dp_ldac.c:146 | without wrap-around, one encoder read is the encoder LSU of frames in bytes |
| `LdacParams.BlockSizeBound` | src/modules/bluetooth/a2dp/a2dp_ldac.c:354-355 | the ABR block times the codec frame size is at most the room times the PCM read size: the block never counts more frames than fit in a packet |
| `LdacParams.BlockSizeMonotone` | src/modules/bluetooth/a2dp/a2dp_ldac.c:354-355 | a larger MTU never gives a smaller ABR block |
| `LdacParams.BlockSizeZeroForSmallMtu` | src/modules/bluetooth/a2dp/a2dp_ldac.c:354-355 | an MTU whose room is smaller than one codec frame gives an ABR block of zero |
| `LdacParams.BudgetCoversBlock` | src/modules/bluetooth/a2dp/a2dp_ldac.c:153-155 | the per-packet PCM budget is at least the ABR block of any quality |
| `LdacParams.BudgetWholeReads` | src/modules/bluetooth/a2dp/a2dp_ldac.c:146-155 | when the encoder LSU divides the configured LSU, the per-packet PCM budget is a whole number of encoder reads |
| `LdacParams.ParseEqmid` | src/modules/bluetooth/a2dp/a2dp_ldac.c:76-97 | "hq", "sq", "mq" select that fixed quality, "auto" and "abr" select adaptive, and every other string is unrecognised |
| `LdacParams.ParseFormat` | src/modules/bluetooth/a2dp/a2dp_ldac.c:100-118 | "s16", "s24", "s32" and "f32" force exactly signed 16-bit, 24-bit, 32-bit and float 32-bit little-endian respectively, "auto" forces none, and every other string is unrecognised |
| `LdacEncodeLoop.PairedCalls` | src/modules/bluetooth/a2dp/a2dp_ldac.c:166-170 | the callbacks of n iterations alternate a read of one encoder chunk and a release, 2n calls in all |
| `LdacEncodeLoop.Step` | src/modules/bluetooth/a2dp/a2dp_ldac.c:183-192 | one successful call counts one more call, appends exactly the reply's codec bytes to the payload (so bytes written plus room left stay constant), adds the reply's frames to the 32-bit frame count and its PCM consumed to the `size_t` total, and takes exactly one read off a budget that holds one |
| `LdacEncodeLoop.RunLoop` | src/modules/bluetooth/a2dp/a2dp_ldac.c:161-194 | the loop makes at most one call per reply, ends without error only with its guard false, and returns the start state unchanged exactly when the guard is false at the start |
| `LdacEncodeLoop.EncodeFrames` | src/modules/bluetooth/a2dp/a2dp_ldac.c:151-194 | the loop's outcome is the specification `RunLoop` of the replies from the start state, and its callbacks are the paired reads and releases of its encoder calls |
| `LdacEncodeLoop.LoopPayloadFits` | src/modules/bluetooth/a2dp/a2dp_ldac.c:184-190 | the codec bytes only grow, and bytes written plus room left stay constant, so the payload never exceeds the room |
| `LdacEncodeLoop.LoopStopsOnGuard` | src/modules/bluetooth/a2dp/a2dp_ldac.c:161-194 | the loop makes at least one call when its guard holds at the start and at most one per reply; it ends without error only when a frame was produced or the budget or room is zero; every call before the last produced no frame, so a completed loop's frame count is that of its last call |
| `LdacEncodeLoop.LoopBudgetExact` | src/modules/bluetooth/a2dp/a2dp_ldac.c:183-187 | when the budget is a whole number of reads, it never wraps: PCM consumed plus budget left stays constant, one read per call |
| `LdacEncodeLoop.NotJustOneChunk` | src/modules/bluetooth/a2dp/a2dp_ldac.c:161-194 | a first call that produces no frame is followed by a second, and the payload is both calls' bytes |
| `LdacSource.MediaHeader` | src/modules/bluetooth/a2dp/a2dp_ldac.c:209-214 | every packet header has version 2, payload type 1, SSRC 1, the given sequence number and timestamp, and zero in every other field |
| `LdacSource.NextSeqNum` | src/modules/bluetooth/a2dp/a2dp_ldac.c:212 | the post-increment of the 16-bit sequence number is one more modulo 2^16 |
| `LdacSource.SeqAfterWraps` | src/modules/bluetooth/a2dp/a2dp_ldac.c:212 | the sequence number after n packets is the initial one plus n modulo 2^16 |
| `LdacSource.SeqNumbersDistinct` | src/modules/bluetooth/a2dp/a2dp_ldac.c:212 | any 2^16 consecutive packets carry distinct sequence numbers |
| `LdacSource.ToCInt` | src/modules/bluetooth/a2dp/a2dp_ldac.c:373 | the `int` conversion of a `size_t` is in the 32-bit signed range, agrees with it modulo 2^32, and keeps values below 2^31 |
| `LdacSource.EncoderMtu` | src/modules/bluetooth/a2dp/a2dp_ldac.c:373 | the MTU handed to the encoder init lies within 12 of the 32-bit signed range and equals the link MTU plus 12 modulo 2^32 |
| `LdacSource.EncoderMtuOfSmallMtu` | src/modules/bluetooth/a2dp/a2dp_ldac.c:372-373 | an MTU below 2^31 reaches the encoder init plus 12; the MTU 2^31 reaches it negative |
| `LdacSource.AbrBlockMs` | src/modules/bluetooth/a2dp/a2dp_ldac.c:390-391 | the ABR block length is the block's duration in whole milliseconds when that duration is below 2^32 microseconds, and at most 2^32 - 1 microseconds' worth otherwise, because the duration is cut to 32 bits before the division |
| `LdacSource.PacketLength` | src/modules/bluetooth/a2dp/a2dp_ldac.c:218 | the packet length equals headers plus payload modulo 2^64 |
| `LdacSource.PacketLengthExact` | src/modules/bluetooth/a2dp/a2dp_ldac.c:218-220 | when the headers and payload fit in the write buffer, the packet length is headers plus payload, fits in the buffer, and the byte counter grows by the payload length |
| `LdacSource.TableEntryRate` | src/modules/bluetooth/a2dp/a2dp_ldac.c:453-458 | each selection-table entry's frequency bit resolves back to the entry's rate, at most 96 kHz |
| `LdacSource.NegotiatedRateIsPickedRate` | src/modules/bluetooth/a2dp/a2dp_ldac.c:466-470 | the rate the transport is configured with is the rate the picker chose, and selection never reaches 176.4 or 192 kHz |
| `LdacSource.PacketConsumesWholeReads` | src/modules/bluetooth/a2dp/a2dp_ldac.c:146-187 | for a configured LSU that the encoder LSU divides, a completed packet consumes one encoder read per call and never wraps its PCM budget |
| `LdacSource.LdacInfo.constructor` | src/modules/bluetooth/a2dp/a2dp_ldac.c:54-65 | a zero-filled state with high quality, ABR enabled exactly when its library is loaded, and no forced format |
| `LdacSource.LdacInfo.UpdateUserConfig` | src/modules/bluetooth/a2dp/a2dp_ldac.c:67-122 | returns the number of present and recognised properties; a fixed quality disables ABR; adaptive selects high quality and enables ABR when loaded; unrecognised or absent properties change nothing |
| `LdacSource.LdacInfo.ConfigTransport` | src/modules/bluetooth/a2dp/a2dp_ldac.c:225-346 | drops both handles and sets the PCM format (forced, else default), rate, channel mode, LSU, codec frame size of the current quality and PCM read size, returning the resolved sample spec |
| `LdacSource.LdacInfo.GetBlockSize` | src/modules/bluetooth/a2dp/a2dp_ldac.c:348-357 | records the link MTU, sets the ABR block from it and returns the maximum-LSU PCM block |
| `LdacSource.LdacInfo.SetupStream` | src/modules/bluetooth/a2dp/a2dp_ldac.c:360-410 | resets the counters; a successful init gives an encoder with MTU + 12 and the configured parameters, a failed one none; with ABR loaded, success sets up the controller with thresholds 6, 4, 2 and any failure drops it and disables ABR |
| `LdacSource.LdacInfo.SetTxLength` | src/modules/bluetooth/a2dp/a2dp_ldac.c:412-416 | records the transmit queue length |
| `LdacSource.LdacInfo.Encode` | src/modules/bluetooth/a2dp/a2dp_ldac.c:124-223 | reports the backlog in ABR blocks when ABR runs; on an encoder error returns zero and no packet, counters unchanged; otherwise returns the loop's PCM consumed and the packet with the next sequence number, advancing the sequence number modulo 2^16 and the frame and byte counters modulo 2^32 |

## Left out

- Library loading (`pa_ldac_encoder_load`, `ldac_libs.c`) is not part of this model; whether the ABR library is loaded is a constructor parameter.
- Memory management: `pa_ldac_free`, `pa_ldac_free_capabilities` and the allocation of records only release or obtain memory; handles are values, so the get/free calls of the two libraries and the handles that transport configuration forgets without freeing are not modelled.
- The frequency picker `pa_a2dp_select_cap_frequency` is outside this file; it is the parameter `pick`, and the lemmas assume only that it returns an entry of the table it is given.
- The codec and ABR libraries are opaque: `ldacBT_encode` is the reply script, the init calls are their return codes, and what the ABR step does to the encoder's quality (its hysteresis) is not modelled; `Encode` returns the backlog it hands over.
- Logging (`pa_log*`, the once-only library version message, the error-code breakdown after a failed encode) has no effect on state and is left out.
- Wire layout: the byte order of `htons`/`htonl` and the bit-field widths of the RTP header and payload descriptor are in headers that are not part of this model; packets are given as field values, and the frame count is kept whole.
- The PCM bytes pulled and the codec bytes' content are not related: the encoder is opaque, so the model tracks sizes and the call trace only.
- The codec registration tables (a2dp_ldac.c:543-570) are declarations only.
- `LdacSource.LdacInfo.Encode`: requires a live encoder handle (asserted at a2dp_ldac.c:136), replies that honour the asserted contract and end the loop (the loop's termination depends on the encoder), and a non-zero ABR block when ABR runs, because the code divides by it (a2dp_ldac.c:141) and `BlockSizeZeroForSmallMtu` shows a small MTU makes it zero.
- `LdacSource.LdacInfo.Encode`: assumes the encoder's frame count and its written byte count are not negative (a written count is a byte sequence); the `(int)` casts in the asserted contract (a2dp_ldac.c:184) do not exclude a negative written count, which would move the output position backwards and grow the room left (a2dp_ldac.c:189-190), and `LdacEncodeLoop.LoopPayloadFits` relies on it not happening.
- `LdacSource.LdacInfo.ConfigTransport`: requires a configuration the validator accepts, which the code asserts (size) or treats as unreachable (frequency and channel mode).
- `LdacSource.LdacInfo.GetBlockSize`: requires a configured codec frame size, because the code divides by it.
- `LdacSource.EncoderMtu`: the `int` addition of 12 is not given C's overflow behaviour near the top of the `int` range.
- The unreachable default of the quality switch (a2dp_ldac.c:339-340) has no counterpart: the quality is a three-valued datatype.
