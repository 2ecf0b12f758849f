// Session parameters of the LDAC source: the lookup tables that turn a
// validated configuration into PCM format, rate, channel count, LSU and
// codec frame size; the MTU arithmetic of the block-size planner and the
// per-packet PCM budget; and the strings the user may set.

module LdacParams {
  import opened LdacTypes

  /** The frame size of the mobile-use quality mode, which the per-packet PCM
      budget uses whatever quality is configured. */
  const MQ_FRAME_SIZE: size_t := 110

  // ---------------------------------------------------------------------
  // Lookup tables of the transport configuration

  /** The little-endian PulseAudio format written back for an LDAC format. */
  function CanonicalFormat(l: LdacSampleFormat): SampleFormat {
    match l
    case F32 => FLOAT32LE
    case S32 => S32LE
    case S24 => S24LE
    case _ => S16LE
  }

  /** The LDAC PCM format for a PulseAudio format, and the format written back
      into the sample spec: float, 32-bit and 24-bit formats of either byte
      order keep their kind, every other format becomes 16-bit. */
  function PcmFormatFor(f: SampleFormat): (r: (LdacSampleFormat, SampleFormat))
    ensures r.0 == F32 <==> f == FLOAT32LE || f == FLOAT32BE
    ensures r.0 == S32 <==> f == S32LE || f == S32BE
    ensures r.0 == S24 <==> f == S24LE || f == S24BE || f == S24_32LE || f == S24_32BE
    ensures r.0 != Unset
    ensures r.1 == CanonicalFormat(r.0)
  {
    match f
    case FLOAT32LE | FLOAT32BE => (F32, FLOAT32LE)
    case S32LE | S32BE => (S32, S32LE)
    case S24LE | S24BE | S24_32LE | S24_32BE => (S24, S24LE)
    case _ => (S16, S16LE)
  }

  /** Resolving the written-back format again changes nothing. */
  lemma PcmFormatWriteBackIsStable(f: SampleFormat)
    ensures PcmFormatFor(PcmFormatFor(f).1) == PcmFormatFor(f)
  {
  }

  /** The sample rate of a legal frequency bit. */
  function RateOf(c: LdacConsts, bit: bv8): (r: uint32)
    requires bit in c.FrequencyBits()
    ensures r in {44100, 48000, 88200, 96000, 176400, 192000}
  {
    if bit == c.freq044100 then 44100
    else if bit == c.freq048000 then 48000
    else if bit == c.freq088200 then 88200
    else if bit == c.freq096000 then 96000
    else if bit == c.freq176400 then 176400
    else 192000
  }

  /** The six rates, in the order of `LdacConsts.FrequencyBits`. */
  const RATES: seq<uint32> := [44100, 48000, 88200, 96000, 176400, 192000]

  /** With distinct frequency bits, the k-th bit maps to the k-th rate, so
      the selection table and the resolver agree on every rate. */
  lemma RateOfMatchesBit(c: LdacConsts, k: nat)
    requires c.Valid() && k < 6
    ensures RateOf(c, c.FrequencyBits()[k]) == RATES[k]
  {
    var fb := c.FrequencyBits();
    assert fb[0] != fb[1] && fb[0] != fb[2] && fb[0] != fb[3] && fb[0] != fb[4] && fb[0] != fb[5];
    assert fb[1] != fb[2] && fb[1] != fb[3] && fb[1] != fb[4] && fb[1] != fb[5];
    assert fb[2] != fb[3] && fb[2] != fb[4] && fb[2] != fb[5];
    assert fb[3] != fb[4] && fb[3] != fb[5];
    assert fb[4] != fb[5];
  }

  /** The channel count of a legal channel-mode bit. */
  function ChannelsOf(c: LdacConsts, mode: bv8): (r: uint8)
    requires mode in c.ChannelModeBits()
    ensures r == 1 || r == 2
    ensures mode == c.channelMono ==> r == 1
  {
    if mode == c.channelMono then 1
    else if mode == c.channelDual then 2
    else 2
  }

  /** With distinct channel-mode bits, only mono gives one channel. */
  lemma ChannelsOfMono(c: LdacConsts, mode: bv8)
    requires c.Valid() && mode in c.ChannelModeBits()
    ensures ChannelsOf(c, mode) == 1 <==> mode == c.channelMono
  {
    var cb := c.ChannelModeBits();
    assert cb[0] != cb[1] && cb[0] != cb[2];
  }

  /** The LSU (PCM frames per encoder step) for a sample rate: it grows with
      the rate's multiple of 44.1 kHz, 128 frames per multiple. */
  function LsuOf(rate: uint32): (r: uint16)
    requires rate in {44100, 48000, 88200, 96000, 176400, 192000}
    ensures r == 128 * (rate / 44100)
  {
    if rate == 44100 || rate == 48000 then 128
    else if rate == 88200 || rate == 96000 then 256
    else 512
  }

  /** The LDAC frame size in bytes for a quality mode: a whole number of
      mobile-use frames, at least one. */
  function FrameSizeOf(e: Eqmid): (r: size_t)
    ensures r % MQ_FRAME_SIZE == 0 && MQ_FRAME_SIZE <= r <= 3 * MQ_FRAME_SIZE
    ensures r == MQ_FRAME_SIZE <==> e == MQ
  {
    match e
    case HQ => 330
    case SQ => 220
    case MQ => 110
  }

  /** Higher quality means larger frames. */
  lemma FrameSizeOrder()
    ensures FrameSizeOf(MQ) < FrameSizeOf(SQ) < FrameSizeOf(HQ)
  {
  }

  // ---------------------------------------------------------------------
  // MTU arithmetic

  /** Bytes of an MTU left after the RTP header and payload descriptor, as
      `size_t` (it wraps when the MTU is smaller than the headers). */
  function PayloadRoom(p: Platform, mtu: size_t): (r: size_t)
    ensures HeadersFit(p, mtu) ==> r == mtu - p.rtpHeaderSize - p.rtpPayloadSize
  {
    SizeSub(SizeSub(mtu, p.rtpHeaderSize), p.rtpPayloadSize)
  }

  /** The headers fit in the MTU, so `PayloadRoom` does not wrap. */
  predicate HeadersFit(p: Platform, mtu: size_t) {
    p.rtpHeaderSize + p.rtpPayloadSize <= mtu
  }

  lemma PayloadRoomExact(p: Platform, mtu: size_t)
    requires HeadersFit(p, mtu)
    ensures PayloadRoom(p, mtu) == mtu - p.rtpHeaderSize - p.rtpPayloadSize
  {
  }

  /** PCM bytes for as many codec frames of `frameBytes` as fit in the room
      of one packet, one PCM read chunk per frame. */
  function PcmForFrames(p: Platform, mtu: size_t, frameBytes: size_t, pcmReadSize: size_t): size_t
    requires frameBytes > 0
  {
    var room := PayloadRoom(p, mtu);
    DivAtMost(room, frameBytes);
    SizeMul(room / frameBytes, pcmReadSize)
  }

  /** The ABR queue block size `q_write_block_size` set by get_block_size. */
  function QWriteBlockSize(p: Platform, mtu: size_t, ldacFrameSize: size_t, pcmReadSize: size_t): (r: size_t)
    requires ldacFrameSize > 0
    ensures NoWrap(p, mtu, ldacFrameSize, pcmReadSize) ==>
              r == (mtu - p.rtpHeaderSize - p.rtpPayloadSize) / ldacFrameSize * pcmReadSize
  {
    PcmForFrames(p, mtu, ldacFrameSize, pcmReadSize)
  }

  /** The per-packet PCM budget of encode, computed with the mobile-use frame
      size whatever the configured quality. */
  function PcmBudget(p: Platform, mtu: size_t, pcmReadSize: size_t): (r: size_t)
    ensures NoWrap(p, mtu, MQ_FRAME_SIZE, pcmReadSize) ==>
              r == (mtu - p.rtpHeaderSize - p.rtpPayloadSize) / MQ_FRAME_SIZE * pcmReadSize
  {
    PcmForFrames(p, mtu, MQ_FRAME_SIZE, pcmReadSize)
  }

  /** The PCM block size get_block_size asks the source for: the maximum LSU
      of frames, whatever the MTU. */
  function WriteBlockSize(p: Platform, spec: SampleSpec): (r: size_t)
    ensures p.maxLsu * p.frameSize(spec) < SIZE_T_MOD ==> r == p.maxLsu * p.frameSize(spec)
  {
    SizeMul(p.maxLsu, p.frameSize(spec))
  }

  /** Bytes of PCM per LSU of frames (`pcm_read_size`). */
  function PcmReadSize(p: Platform, lsu: uint16, spec: SampleSpec): (r: size_t)
    ensures lsu * p.frameSize(spec) < SIZE_T_MOD ==> r == lsu * p.frameSize(spec)
  {
    SizeMul(lsu, p.frameSize(spec))
  }

  /** Bytes of PCM handed to the encoder per call (`ldac_enc_read`). */
  function EncReadSize(p: Platform, spec: SampleSpec): (r: size_t)
    ensures p.encLsu * p.frameSize(spec) < SIZE_T_MOD ==> r == p.encLsu * p.frameSize(spec)
  {
    SizeMul(p.frameSize(spec), p.encLsu)
  }

  /** `PcmForFrames` computed without wrap-around. */
  predicate NoWrap(p: Platform, mtu: size_t, frameBytes: size_t, pcmReadSize: size_t)
    requires frameBytes > 0
  {
    HeadersFit(p, mtu) &&
    (mtu - p.rtpHeaderSize - p.rtpPayloadSize) / frameBytes * pcmReadSize < SIZE_T_MOD
  }

  lemma PcmForFramesExact(p: Platform, mtu: size_t, frameBytes: size_t, pcmReadSize: size_t)
    requires frameBytes > 0 && NoWrap(p, mtu, frameBytes, pcmReadSize)
    ensures PcmForFrames(p, mtu, frameBytes, pcmReadSize) ==
            (mtu - p.rtpHeaderSize - p.rtpPayloadSize) / frameBytes * pcmReadSize
  {
    PayloadRoomExact(p, mtu);
  }

  /** The ABR block never holds more PCM than the frames that fit in the
      packet: `q * ldac_frame_size <= (mtu - headers) * pcm_read_size`. */
  lemma {:induction false} BlockSizeBound(p: Platform, mtu: size_t, ldacFrameSize: size_t, pcmReadSize: size_t)
    requires ldacFrameSize > 0 && NoWrap(p, mtu, ldacFrameSize, pcmReadSize)
    ensures QWriteBlockSize(p, mtu, ldacFrameSize, pcmReadSize) * ldacFrameSize <=
            (mtu - p.rtpHeaderSize - p.rtpPayloadSize) * pcmReadSize
  {
    var room := mtu - p.rtpHeaderSize - p.rtpPayloadSize;
    PcmForFramesExact(p, mtu, ldacFrameSize, pcmReadSize);
    var n := room / ldacFrameSize;
    DivFloor(room, ldacFrameSize);
    MulMonotone(n * ldacFrameSize, room, pcmReadSize);
    MulSwap(n, pcmReadSize, ldacFrameSize);
  }

  /** A larger MTU never gives a smaller ABR block. */
  lemma {:induction false} BlockSizeMonotone(p: Platform, mtu1: size_t, mtu2: size_t,
                                             ldacFrameSize: size_t, pcmReadSize: size_t)
    requires ldacFrameSize > 0 && mtu1 <= mtu2
    requires HeadersFit(p, mtu1) && NoWrap(p, mtu2, ldacFrameSize, pcmReadSize)
    ensures QWriteBlockSize(p, mtu1, ldacFrameSize, pcmReadSize) <=
            QWriteBlockSize(p, mtu2, ldacFrameSize, pcmReadSize)
  {
    var room1 := mtu1 - p.rtpHeaderSize - p.rtpPayloadSize;
    var room2 := mtu2 - p.rtpHeaderSize - p.rtpPayloadSize;
    DivMonotone(room1, room2, ldacFrameSize);
    MulMonotone(room1 / ldacFrameSize, room2 / ldacFrameSize, pcmReadSize);
    PcmForFramesExact(p, mtu1, ldacFrameSize, pcmReadSize);
    PcmForFramesExact(p, mtu2, ldacFrameSize, pcmReadSize);
  }

  /** An MTU whose room is smaller than one codec frame gives an ABR block of
      zero, which encode then divides by when ABR runs. */
  lemma BlockSizeZeroForSmallMtu(p: Platform, mtu: size_t, ldacFrameSize: size_t, pcmReadSize: size_t)
    requires ldacFrameSize > 0 && HeadersFit(p, mtu)
    requires mtu - p.rtpHeaderSize - p.rtpPayloadSize < ldacFrameSize
    ensures QWriteBlockSize(p, mtu, ldacFrameSize, pcmReadSize) == 0
  {
    PayloadRoomExact(p, mtu);
    assert PayloadRoom(p, mtu) / ldacFrameSize == 0;
    assert SizeMul(0, pcmReadSize) == 0;
  }

  /** The per-packet budget, computed with the smallest frame size, is at
      least the ABR block of any configured quality. */
  lemma {:induction false} BudgetCoversBlock(p: Platform, mtu: size_t, e: Eqmid, pcmReadSize: size_t)
    requires NoWrap(p, mtu, MQ_FRAME_SIZE, pcmReadSize)
    ensures QWriteBlockSize(p, mtu, FrameSizeOf(e), pcmReadSize) <= PcmBudget(p, mtu, pcmReadSize)
  {
    var room := mtu - p.rtpHeaderSize - p.rtpPayloadSize;
    var fs := FrameSizeOf(e);
    DivAntitone(room, MQ_FRAME_SIZE, fs);
    MulMonotone(room / fs, room / MQ_FRAME_SIZE, pcmReadSize);
    PcmForFramesExact(p, mtu, MQ_FRAME_SIZE, pcmReadSize);
    assert NoWrap(p, mtu, fs, pcmReadSize);
    PcmForFramesExact(p, mtu, fs, pcmReadSize);
  }

  /** When the encoder's LSU divides the configured LSU, the per-packet
      budget is a whole number of encoder reads, so subtracting one read per
      loop step reaches zero exactly and never wraps. */
  lemma {:induction false} BudgetWholeReads(p: Platform, mtu: size_t, lsu: uint16, spec: SampleSpec)
      returns (chunks: nat)
    requires p.encLsu > 0 && lsu > 0 && lsu % p.encLsu == 0
    requires lsu * p.frameSize(spec) < SIZE_T_MOD
    requires NoWrap(p, mtu, MQ_FRAME_SIZE, PcmReadSize(p, lsu, spec))
    ensures PcmBudget(p, mtu, PcmReadSize(p, lsu, spec)) == chunks * EncReadSize(p, spec)
  {
    var fsz, e := p.frameSize(spec), p.encLsu;
    var k: nat := lsu / e;
    assert lsu == k * e;
    DivisorAtMost(lsu, e);
    MulMonotone(e, lsu, fsz);
    var prs := PcmReadSize(p, lsu, spec);
    assert prs == (k * e) * fsz;
    assert HeadersFit(p, mtu);
    var n: nat := (mtu - p.rtpHeaderSize - p.rtpPayloadSize) / MQ_FRAME_SIZE;
    var budget := PcmBudget(p, mtu, prs);
    assert budget == n * prs;
    var read := EncReadSize(p, spec);
    assert read == e * fsz;
    MulRegroup(n, k, e, fsz);
    chunks := n * k;
  }

  // ---------------------------------------------------------------------
  // Arithmetic helpers

  lemma MulMonotone(a: nat, b: nat, m: nat)
    requires a <= b
    ensures a * m <= b * m
  {
  }

  lemma MulRegroup(n: nat, k: nat, e: nat, f: nat)
    ensures n * k >= 0
    ensures n * ((k * e) * f) == (n * k) * (e * f)
  {
  }

  lemma MulSwap(a: nat, b: nat, c: nat)
    ensures (a * b) * c == (a * c) * b
  {
  }

  lemma DivAtMost(a: nat, d: nat)
    requires d > 0
    ensures a / d <= a
  {
    DivFloor(a, d);
    MulMonotone(1, d, a / d);
  }

  lemma DivFloor(a: nat, d: nat)
    requires d > 0
    ensures (a / d) * d <= a
  {
  }

  /** A divisor of a positive number is at most that number. */
  lemma DivisorAtMost(a: nat, d: nat)
    requires d > 0 && a > 0 && a % d == 0
    ensures d <= a
  {
    assert a == (a / d) * d;
    assert a / d >= 1;
    MulMonotone(1, a / d, d);
  }

  /** `a / d` is the largest `x` with `x * d <= a`. */
  lemma DivLargest(a: nat, d: nat, x: nat)
    requires d > 0 && x * d <= a
    ensures x <= a / d
  {
    var q, r := a / d, a % d;
    assert a == q * d + r && r < d;
    if x > q {
      MulMonotone(q + 1, x, d);
      assert false;
    }
  }

  lemma DivMonotone(a: nat, b: nat, d: nat)
    requires a <= b && d > 0
    ensures a / d <= b / d
  {
    var q := a / d;
    assert q * d <= a;
    DivLargest(b, d, q);
  }

  lemma DivAntitone(a: nat, d1: nat, d2: nat)
    requires 0 < d1 <= d2
    ensures a / d2 <= a / d1
  {
    var q := a / d2;
    assert q * d2 <= a;
    MulMonotone(d1, d2, q);
    assert q * d1 <= a;
    DivLargest(a, d1, q);
  }

  // ---------------------------------------------------------------------
  // User configuration

  /** What the "ldac_eqmid" property selects: a fixed quality, or adaptive
      bit rate starting from high quality. */
  datatype QualityChoice = Fixed(eqmid: Eqmid) | Adaptive

  /** The recognised values of the "ldac_eqmid" property. */
  function ParseEqmid(s: string): (r: Option<QualityChoice>)
    ensures r == Some(Fixed(HQ)) <==> s == "hq"
    ensures r == Some(Fixed(SQ)) <==> s == "sq"
    ensures r == Some(Fixed(MQ)) <==> s == "mq"
    ensures r == Some(Adaptive) <==> s == "auto" || s == "abr"
    ensures r.None? <==> s !in {"hq", "sq", "mq", "auto", "abr"}
  {
    if s == "hq" then Some(Fixed(HQ))
    else if s == "sq" then Some(Fixed(SQ))
    else if s == "mq" then Some(Fixed(MQ))
    else if s == "auto" || s == "abr" then Some(Adaptive)
    else None
  }

  /** The recognised values of the "ldac_fmt" property; "auto" forces
      nothing (`Invalid`). */
  function ParseFormat(s: string): (r: Option<SampleFormat>)
    ensures r.Some? ==> r.value in {S16LE, S24LE, S32LE, FLOAT32LE, Invalid}
    ensures r == Some(Invalid) <==> s == "auto"
    ensures r.None? <==> s !in {"s16", "s24", "s32", "f32", "auto"}
    ensures r == Some(S16LE) <==> s == "s16"
    ensures r == Some(S24LE) <==> s == "s24"
    ensures r == Some(S32LE) <==> s == "s32"
    ensures r == Some(FLOAT32LE) <==> s == "f32"
  {
    if s == "s16" then Some(S16LE)
    else if s == "s24" then Some(S24LE)
    else if s == "s32" then Some(S32LE)
    else if s == "f32" then Some(FLOAT32LE)
    else if s == "auto" then Some(Invalid)
    else None
  }

  /** A property that may be absent: an absent one selects nothing. */
  function Recognised<T>(s: Option<string>, parse: string -> Option<T>): Option<T> {
    if s.None? then None else parse(s.value)
  }
}
