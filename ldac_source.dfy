// The LDAC A2DP source state `ldac_info_t` and the operations that update
// it: creation, user configuration, transport configuration, block-size
// planning, stream setup, the transmit-queue report and packet encoding.
//
// The LDAC and ABR libraries are opaque: a handle is a value recording what
// it was initialised with, the return codes of the two init calls are
// parameters of `SetupStream`, and the encoder's answers are the script of
// `LdacEncodeLoop`.

module LdacSource {
  import opened LdacTypes
  import opened LdacNegotiation
  import opened LdacParams
  import opened LdacEncodeLoop

  /** Added to the link MTU when the encoder handle is initialised. */
  const AVDT_MEDIA_HDR_SIZE: int := 12

  /** Queue-depth thresholds handed to the ABR library. */
  const ABR_THRESHOLD_CRITICAL: nat := 6
  const ABR_THRESHOLD_DANGEROUS_TREND: nat := 4
  const ABR_THRESHOLD_SAFETY_FOR_HQSQ: nat := 2

  /** `HANDLE_LDAC_BT`: absent, or an initialised encoder with the MTU,
      quality, channel mode, PCM format and rate it was set up with. */
  datatype EncoderHandle =
    | NoEncoder
    | Encoder(mtu: int, eqmid: Eqmid, channelMode: bv8, pcmFmt: LdacSampleFormat, frequency: uint32)

  /** `HANDLE_LDAC_ABR`: absent, or an initialised adaptive-bit-rate
      controller with its block length in milliseconds and its thresholds. */
  datatype AbrHandle =
    | NoAbr
    | Abr(blockMs: uint32, critical: nat, dangerousTrend: nat, safetyForHqSq: nat)

  /** The RTP header fields of a media packet; the fields not named are
      zero. */
  datatype RtpHeader = RtpHeader(version: nat, padding: nat, extension: nat, csrcCount: nat,
                                 marker: nat, payloadType: nat,
                                 sequenceNumber: uint16, timestamp: uint32, ssrc: uint32)

  /** One media packet: header, payload descriptor frame count, codec bytes. */
  datatype RtpPacket = RtpPacket(header: RtpHeader, frameCount: uint32, payload: seq<bv8>)

  /** The header of every packet: version 2, payload type 1, SSRC 1. */
  function MediaHeader(sequenceNumber: uint16, timestamp: uint32): (h: RtpHeader)
    ensures h.version == 2 && h.payloadType == 1 && h.ssrc == 1
    ensures h.padding == 0 && h.extension == 0 && h.csrcCount == 0 && h.marker == 0
    ensures h.sequenceNumber == sequenceNumber && h.timestamp == timestamp
  {
    RtpHeader(2, 0, 0, 0, 0, 1, sequenceNumber, timestamp, 1)
  }

  /** The 16-bit sequence number after one packet. */
  function NextSeqNum(s: uint16): (r: uint16)
    ensures r == (s + 1) % UINT16_MOD
  {
    if s == UINT16_MOD - 1 then 0 else s + 1
  }

  /** The sequence number after `n` packets. */
  function SeqAfter(s: uint16, n: nat): uint16 {
    if n == 0 then s else NextSeqNum(SeqAfter(s, n - 1))
  }

  /** Sequence numbers count modulo 2^16. */
  lemma {:induction false} SeqAfterWraps(s: uint16, n: nat)
    ensures SeqAfter(s, n) == (s + n) % UINT16_MOD
  {
    if n > 0 {
      SeqAfterWraps(s, n - 1);
    }
  }

  /** Any 2^16 consecutive packets carry distinct sequence numbers. */
  lemma SeqNumbersDistinct(s: uint16, i: nat, j: nat)
    requires i < j < UINT16_MOD
    ensures SeqAfter(s, i) != SeqAfter(s, j)
  {
    SeqAfterWraps(s, i);
    SeqAfterWraps(s, j);
  }

  /** The C conversion of a `size_t` to `int`: the low 32 bits read as a
      two's-complement value. */
  function ToCInt(x: size_t): (r: int)
    ensures -0x8000_0000 <= r < 0x8000_0000
    ensures (r - x) % UINT32_MOD == 0
    ensures x < 0x8000_0000 ==> r == x
  {
    var low := x % UINT32_MOD;
    if low < 0x8000_0000 then low else low - UINT32_MOD
  }

  /** The MTU the encoder handle is initialised with. */
  function EncoderMtu(mtu: size_t): (r: int)
    ensures -0x8000_0000 + AVDT_MEDIA_HDR_SIZE <= r < 0x8000_0000 + AVDT_MEDIA_HDR_SIZE
    ensures (r - AVDT_MEDIA_HDR_SIZE - mtu) % UINT32_MOD == 0
  {
    ToCInt(mtu) + AVDT_MEDIA_HDR_SIZE
  }

  /** An MTU that fits in an `int` reaches the encoder plus the media header;
      a larger one reaches it truncated. */
  lemma EncoderMtuOfSmallMtu(mtu: size_t)
    ensures mtu < 0x8000_0000 ==> EncoderMtu(mtu) == mtu + 12
    ensures mtu == 0x8000_0000 ==> EncoderMtu(mtu) < 0
  {
  }

  /** The ABR block length in milliseconds: the ABR block's duration in
      microseconds, cut to 32 bits before the division. */
  function AbrBlockMs(p: Platform, qWriteBlockSize: size_t, spec: SampleSpec): (r: uint32)
    ensures r <= (UINT32_MOD - 1) / 1000
    ensures p.bytesToUsec(qWriteBlockSize, spec) < UINT32_MOD ==> r == p.bytesToUsec(qWriteBlockSize, spec) / 1000
  {
    (p.bytesToUsec(qWriteBlockSize, spec) % UINT32_MOD) / 1000
  }

  /** The state `ldac_info_t` of one LDAC source. `abrLoaded` is the global
      flag set when the ABR library was found. */
  class LdacInfo {
    const consts: LdacConsts
    const platform: Platform
    const abrLoaded: bool

    var encoder: EncoderHandle
    var abr: AbrHandle
    var eqmid: Eqmid
    var enableAbr: bool
    var channelMode: bv8
    var forcePaFmt: SampleFormat
    var pcmFmt: LdacSampleFormat
    var pcmFrequency: uint32
    var pcmLsu: uint16
    var ldacFrameSize: size_t
    var pcmReadSize: size_t
    var qWriteBlockSize: size_t
    var sampleSpec: SampleSpec
    var seqNum: uint16
    var layerSpecific: uint32
    var written: uint32
    var txLength: size_t
    var mtu: size_t

    /** ABR is only ever enabled or set up when its library is loaded, and an
        ABR controller only runs beside an encoder. */
    predicate Valid()
      reads this
    {
      && (enableAbr ==> abrLoaded)
      && (abr.Abr? ==> abrLoaded && encoder.Encoder?)
    }

    /** `pa_ldac_encoder_init`: a zero-filled state asking for high quality,
        with ABR enabled when its library is loaded and no forced format. */
    constructor (consts: LdacConsts, platform: Platform, abrLoaded: bool)
      ensures Valid()
      ensures this.consts == consts && this.platform == platform && this.abrLoaded == abrLoaded
      ensures encoder == NoEncoder && abr == NoAbr
      ensures eqmid == HQ && enableAbr == abrLoaded && forcePaFmt == Invalid
      ensures channelMode == 0 && pcmFmt == Unset && pcmFrequency == 0 && pcmLsu == 0
      ensures ldacFrameSize == 0 && pcmReadSize == 0 && qWriteBlockSize == 0
      ensures sampleSpec == SampleSpec(U8, 0, 0)
      ensures seqNum == 0 && layerSpecific == 0 && written == 0 && txLength == 0 && mtu == 0
    {
      this.consts := consts;
      this.platform := platform;
      this.abrLoaded := abrLoaded;
      encoder := NoEncoder;
      abr := NoAbr;
      eqmid := HQ;
      enableAbr := abrLoaded;
      channelMode := 0;
      forcePaFmt := Invalid;
      pcmFmt := Unset;
      pcmFrequency := 0;
      pcmLsu := 0;
      ldacFrameSize := 0;
      pcmReadSize := 0;
      qWriteBlockSize := 0;
      sampleSpec := SampleSpec(U8, 0, 0);
      seqNum := 0;
      layerSpecific := 0;
      written := 0;
      txLength := 0;
      mtu := 0;
    }

    /** `pa_ldac_update_user_config`: applies the "ldac_eqmid" and "ldac_fmt"
        properties that are present and recognised, and returns how many
        were. A fixed quality disables ABR; "auto"/"abr" selects high quality
        and enables ABR when its library is loaded. */
    method UpdateUserConfig(eqmidProp: Option<string>, fmtProp: Option<string>) returns (ret: nat)
      requires Valid()
      modifies this`eqmid, this`enableAbr, this`forcePaFmt
      ensures Valid()
      ensures var q := Recognised<QualityChoice>(eqmidProp, ParseEqmid);
              var f := Recognised<SampleFormat>(fmtProp, ParseFormat);
              && ret == (if q.Some? then 1 else 0) + (if f.Some? then 1 else 0)
              && (q.None? ==> eqmid == old(eqmid) && enableAbr == old(enableAbr))
              && (q.Some? && q.value.Fixed? ==> eqmid == q.value.eqmid && !enableAbr)
              && (q == Some(Adaptive) ==> eqmid == HQ && enableAbr == (old(enableAbr) || abrLoaded))
              && (f.Some? ==> forcePaFmt == f.value)
              && (f.None? ==> forcePaFmt == old(forcePaFmt))
    {
      ret := 0;
      match Recognised<QualityChoice>(eqmidProp, ParseEqmid) {
        case Some(Fixed(e)) =>
          eqmid := e;
          enableAbr := false;
          ret := ret + 1;
        case Some(Adaptive) =>
          eqmid := HQ;
          if abrLoaded {
            enableAbr := true;
          }
          ret := ret + 1;
        case None =>
      }
      match Recognised<SampleFormat>(fmtProp, ParseFormat) {
        case Some(f) =>
          forcePaFmt := f;
          ret := ret + 1;
        case None =>
      }
    }

    /** `pa_ldac_config_transport`: drops both handles, resolves the PCM
        format (the forced one, else the default's), the rate and channel
        count of the accepted configuration, the LSU, the codec frame size of
        the current quality and the PCM read size, and returns the sample
        spec the stream must use. */
    method ConfigTransport(defaultSpec: SampleSpec, config: LdacConfig, configSize: size_t)
      returns (spec: SampleSpec)
      requires Valid()
      requires SetConfiguration(consts, config, configSize)
      modifies this`encoder, this`abr, this`pcmFmt, this`pcmFrequency, this`channelMode,
               this`pcmLsu, this`ldacFrameSize, this`sampleSpec, this`pcmReadSize
      ensures Valid()
      ensures encoder == NoEncoder && abr == NoAbr
      ensures (pcmFmt, spec.format) ==
              PcmFormatFor(if forcePaFmt == Invalid then defaultSpec.format else forcePaFmt)
      ensures pcmFrequency == spec.rate == RateOf(consts, config.frequency)
      ensures channelMode == config.channelMode && spec.channels == ChannelsOf(consts, config.channelMode)
      ensures pcmLsu == LsuOf(pcmFrequency)
      ensures ldacFrameSize == FrameSizeOf(eqmid)
      ensures sampleSpec == spec
      ensures pcmReadSize == PcmReadSize(platform, pcmLsu, spec)
    {
      var formats := PcmFormatFor(if forcePaFmt == Invalid then defaultSpec.format else forcePaFmt);
      var rate := RateOf(consts, config.frequency);
      var lsu := LsuOf(rate);
      spec := SampleSpec(formats.1, rate, ChannelsOf(consts, config.channelMode));
      var readSize := PcmReadSize(platform, lsu, spec);
      encoder, abr := NoEncoder, NoAbr;
      pcmFmt, pcmFrequency, channelMode := formats.0, rate, config.channelMode;
      pcmLsu, ldacFrameSize := lsu, FrameSizeOf(eqmid);
      sampleSpec, pcmReadSize := spec, readSize;
    }

    /** `pa_ldac_get_block_size`: records the link MTU, sizes the ABR block
        from it, and asks the source for the maximum LSU of PCM frames. */
    method GetBlockSize(linkMtu: size_t) returns (writeBlockSize: size_t)
      requires ldacFrameSize > 0
      modifies this`mtu, this`qWriteBlockSize
      ensures mtu == linkMtu
      ensures qWriteBlockSize == QWriteBlockSize(platform, linkMtu, ldacFrameSize, pcmReadSize)
      ensures writeBlockSize == WriteBlockSize(platform, sampleSpec)
    {
      mtu := linkMtu;
      qWriteBlockSize := QWriteBlockSize(platform, linkMtu, ldacFrameSize, pcmReadSize);
      writeBlockSize := WriteBlockSize(platform, sampleSpec);
    }

    /** `pa_ldac_setup_stream`: resets the packet counters and replaces the
        encoder handle. When the encoder fails to initialise it is dropped;
        when the ABR library is loaded, its controller is replaced too, and
        a failure of either init drops the controller and disables ABR.
        `initResult` and `abrInitResult` are the library's return codes. */
    method SetupStream(initResult: int, abrInitResult: int)
      requires Valid()
      modifies this`layerSpecific, this`written, this`encoder, this`abr, this`enableAbr
      ensures Valid()
      ensures layerSpecific == 0 && written == 0
      ensures initResult == 0 ==>
                encoder == Encoder(EncoderMtu(mtu), eqmid, channelMode, pcmFmt, pcmFrequency)
      ensures initResult != 0 ==> encoder == NoEncoder
      ensures !abrLoaded ==> abr == old(abr) && enableAbr == old(enableAbr)
      ensures abrLoaded && initResult == 0 && abrInitResult == 0 ==>
                && abr == Abr(AbrBlockMs(platform, qWriteBlockSize, sampleSpec), ABR_THRESHOLD_CRITICAL,
                              ABR_THRESHOLD_DANGEROUS_TREND, ABR_THRESHOLD_SAFETY_FOR_HQSQ)
                && enableAbr == old(enableAbr)
      ensures abrLoaded && (initResult != 0 || abrInitResult != 0) ==> abr == NoAbr && !enableAbr
    {
      layerSpecific := 0;
      written := 0;
      encoder := Encoder(EncoderMtu(mtu), eqmid, channelMode, pcmFmt, pcmFrequency);
      if initResult != 0 {
        encoder := NoEncoder;
        if !abrLoaded {
          return;
        }
        abr := NoAbr;
        enableAbr := false;
        return;
      }
      if !abrLoaded {
        return;
      }
      if abrInitResult != 0 {
        abr := NoAbr;
        enableAbr := false;
        return;
      }
      abr := Abr(AbrBlockMs(platform, qWriteBlockSize, sampleSpec), ABR_THRESHOLD_CRITICAL,
                 ABR_THRESHOLD_DANGEROUS_TREND, ABR_THRESHOLD_SAFETY_FOR_HQSQ);
    }

    /** `pa_ldac_set_tx_length`: records the transmit queue length. */
    method SetTxLength(len: size_t)
      modifies this`txLength
      ensures txLength == len
    {
      txLength := len;
    }

    /** The encoder's replies honour the encode loop of a packet written into
        a buffer of `writeBufSize` bytes. */
    ghost predicate Scripted(writeBufSize: size_t, replies: seq<EncodeReply>)
      reads this`sampleSpec, this`mtu, this`pcmReadSize
    {
      Honours(replies, EncReadSize(platform, sampleSpec),
              Start(PcmBudget(platform, mtu, pcmReadSize), PayloadRoom(platform, writeBufSize)))
    }

    /** The outcome of the encode loop of that packet. */
    ghost function PacketLoop(writeBufSize: size_t, replies: seq<EncodeReply>): LoopOutcome
      reads this`sampleSpec, this`mtu, this`pcmReadSize
      requires Scripted(writeBufSize, replies)
    {
      RunLoop(replies, EncReadSize(platform, sampleSpec),
              Start(PcmBudget(platform, mtu, pcmReadSize), PayloadRoom(platform, writeBufSize)))
    }

    /** `pa_ldac_encode`: reports the queue depth in ABR blocks to a running
        ABR controller, runs the frame loop on the per-packet PCM budget and
        the write buffer's room after the headers, and on success returns the
        packet, its length and the PCM consumed, advancing the sequence
        number and the frame and byte counters. An encoder error returns
        zero, no packet and leaves the counters alone. */
    method Encode(timestamp: uint32, writeBufSize: size_t, replies: seq<EncodeReply>)
      returns (nbytes: size_t, encoded: size_t, packet: Option<RtpPacket>,
               abrBacklog: Option<uint32>, pcmCalls: seq<PcmCall>)
      requires Valid() && encoder.Encoder?
      requires abr.Abr? && enableAbr ==> qWriteBlockSize > 0
      requires Scripted(writeBufSize, replies)
      modifies this`seqNum, this`layerSpecific, this`written
      ensures abrBacklog == if abr.Abr? && enableAbr then Some((txLength / qWriteBlockSize) % UINT32_MOD) else None
      ensures pcmCalls == PairedCalls(EncReadSize(platform, sampleSpec), PacketLoop(writeBufSize, replies).Calls())
      ensures PacketLoop(writeBufSize, replies).LoopFailed? ==>
                && nbytes == 0 && encoded == 0 && packet.None?
                && seqNum == old(seqNum) && layerSpecific == old(layerSpecific) && written == old(written)
      ensures var o := PacketLoop(writeBufSize, replies);
              o.LoopDone? ==>
                && encoded == o.state.encoded
                && packet == Some(RtpPacket(MediaHeader(old(seqNum), timestamp), o.state.frameCount, o.state.payload))
                && nbytes == PacketLength(platform, |o.state.payload|)
                && seqNum == NextSeqNum(old(seqNum))
                && layerSpecific == (old(layerSpecific) + o.state.frameCount) % UINT32_MOD
                && (HeadersFit(platform, writeBufSize) ==>
                      && nbytes == platform.rtpHeaderSize + platform.rtpPayloadSize + |o.state.payload|
                      && nbytes <= writeBufSize
                      && written == (old(written) + |o.state.payload|) % UINT32_MOD)
    {
      if abr.Abr? && enableAbr {
        abrBacklog := Some((txLength / qWriteBlockSize) % UINT32_MOD);
      } else {
        abrBacklog := None;
      }
      var read := EncReadSize(platform, sampleSpec);
      var budget := PcmBudget(platform, mtu, pcmReadSize);
      var room := PayloadRoom(platform, writeBufSize);
      var outcome;
      outcome, pcmCalls := EncodeFrames(replies, budget, room, read);
      if outcome.LoopFailed? {
        nbytes, encoded, packet := 0, 0, None;
        return;
      }
      var s := outcome.state;
      nbytes := PacketLength(platform, |s.payload|);
      var delta := SizeSub(SizeSub(nbytes, platform.rtpHeaderSize), platform.rtpPayloadSize);
      if HeadersFit(platform, writeBufSize) {
        LoopPayloadFits(replies, read, Start(budget, room));
        PacketLengthExact(platform, writeBufSize, |s.payload|);
      }
      packet := Some(RtpPacket(MediaHeader(seqNum, timestamp), s.frameCount, s.payload));
      encoded := s.encoded;
      seqNum, layerSpecific, written :=
        NextSeqNum(seqNum), (layerSpecific + s.frameCount) % UINT32_MOD, (written + delta) % UINT32_MOD;
    }
  }

  /** The length of a packet: the distance in bytes from the start of the
      write buffer to the end of the codec bytes, as `size_t`. */
  function PacketLength(p: Platform, payloadLength: nat): (r: size_t)
    ensures (r - p.rtpHeaderSize - p.rtpPayloadSize - payloadLength) % SIZE_T_MOD == 0
  {
    (p.rtpHeaderSize + p.rtpPayloadSize + payloadLength) % SIZE_T_MOD
  }

  /** When the headers fit in the write buffer and the payload fits in the
      room after them, the packet length is exact, fits in the buffer, and
      taking the headers off it again gives the payload length. */
  lemma PacketLengthExact(p: Platform, writeBufSize: size_t, payloadLength: nat)
    requires HeadersFit(p, writeBufSize) && payloadLength <= PayloadRoom(p, writeBufSize)
    ensures PacketLength(p, payloadLength) == p.rtpHeaderSize + p.rtpPayloadSize + payloadLength <= writeBufSize
    ensures SizeSub(SizeSub(PacketLength(p, payloadLength), p.rtpHeaderSize), p.rtpPayloadSize) == payloadLength
  {
    PayloadRoomExact(p, writeBufSize);
  }

  // ---------------------------------------------------------------------
  // Properties across operations

  /** The rate the transport is configured with is the rate the frequency
      picker chose during selection: the selection table and the
      transport's rate switch agree on every entry, and a selection never
      reaches 176.4 or 192 kHz. */
  lemma {:induction false} NegotiatedRateIsPickedRate(
    c: LdacConsts, spec: SampleSpec, cap: LdacConfig, capSize: size_t,
    pick: (bv8, SampleSpec, seq<FreqCap>) -> Option<FreqCap>)
    requires c.Valid()
    requires PickedFromTable(pick(cap.frequency, spec, FrequencyTable(c)), FrequencyTable(c))
    ensures var r := SelectConfiguration(c, spec, cap, capSize, pick);
            r.Some? ==>
              && r.value.frequency in c.FrequencyBits()
              && RateOf(c, r.value.frequency) == pick(cap.frequency, spec, FrequencyTable(c)).value.rate
              && RateOf(c, r.value.frequency) <= 96000
  {
    var r := SelectConfiguration(c, spec, cap, capSize, pick);
    if r.Some? {
      TableEntryRate(c, pick(cap.frequency, spec, FrequencyTable(c)).value);
    }
  }

  /** Each entry of the selection table carries the frequency bit whose rate
      the transport's switch gives back. */
  lemma TableEntryRate(c: LdacConsts, fc: FreqCap)
    requires c.Valid() && fc in FrequencyTable(c)
    ensures FrequencyField(fc) in c.FrequencyBits()
    ensures RateOf(c, FrequencyField(fc)) == fc.rate <= 96000
  {
    var k := TableIndex(FrequencyTable(c), fc);
    RateOfMatchesBit(c, k);
  }

  /** When the encoder's LSU divides the configured LSU, every packet the
      encode loop completes consumes whole encoder reads and never wraps its
      PCM budget: PCM consumed plus budget left is the budget, and the PCM
      consumed is one read per encoder call. */
  lemma PacketConsumesWholeReads(p: Platform, mtu: size_t, lsu: uint16, spec: SampleSpec,
                                 room: nat, replies: seq<EncodeReply>)
    requires p.encLsu > 0 && lsu > 0 && lsu % p.encLsu == 0
    requires p.frameSize(spec) > 0 && lsu * p.frameSize(spec) < SIZE_T_MOD
    requires NoWrap(p, mtu, MQ_FRAME_SIZE, PcmReadSize(p, lsu, spec))
    requires Honours(replies, EncReadSize(p, spec), Start(PcmBudget(p, mtu, PcmReadSize(p, lsu, spec)), room))
    ensures var budget := PcmBudget(p, mtu, PcmReadSize(p, lsu, spec));
            var o := RunLoop(replies, EncReadSize(p, spec), Start(budget, room));
            o.LoopDone? ==>
              && o.state.encoded + o.state.toEncode == budget
              && o.state.encoded == o.state.calls * EncReadSize(p, spec)
  {
    var chunks := BudgetWholeReads(p, mtu, lsu, spec);
    var budget := PcmBudget(p, mtu, PcmReadSize(p, lsu, spec));
    DivisorAtMost(lsu, p.encLsu);
    MulMonotone(p.encLsu, lsu, p.frameSize(spec));
    assert EncReadSize(p, spec) == p.frameSize(spec) * p.encLsu > 0;
    LoopBudgetExact(replies, EncReadSize(p, spec), Start(budget, room), chunks);
  }
}
