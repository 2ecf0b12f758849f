// Types shared by the LDAC source-side codec glue: the C integer widths the
// glue computes with, PulseAudio's sample description, the LDAC configuration
// record exchanged with the peer, and the constants that come from headers
// which are not part of this model (they are parameters here).

module LdacTypes {

  /** 2^64: `size_t` arithmetic wraps modulo this value. */
  const SIZE_T_MOD: nat := 0x1_0000_0000_0000_0000
  const UINT16_MOD: nat := 0x1_0000
  const UINT32_MOD: nat := 0x1_0000_0000

  type size_t = x: nat | x < 0x1_0000_0000_0000_0000
  type uint8 = x: nat | x < 0x100
  type uint16 = x: nat | x < 0x1_0000
  type uint32 = x: nat | x < 0x1_0000_0000

  /** `a - b` on `size_t`: wraps around when `b > a`. */
  function SizeSub(a: size_t, b: size_t): (r: size_t)
    ensures b <= a ==> r == a - b
    ensures a < b ==> r == SIZE_T_MOD - (b - a)
  {
    (a - b) % SIZE_T_MOD
  }

  /** `a * b` on `size_t`: keeps the low 64 bits. */
  function SizeMul(a: size_t, b: size_t): (r: size_t)
    ensures a * b < SIZE_T_MOD ==> r == a * b
  {
    var p := a * b;
    if p < SIZE_T_MOD then p else p % SIZE_T_MOD
  }

  datatype Option<T> = None | Some(value: T)

  /** PulseAudio's `pa_sample_format_t`; `Invalid` is PA_SAMPLE_INVALID. */
  datatype SampleFormat =
    | U8 | ALAW | ULAW
    | S16LE | S16BE
    | FLOAT32LE | FLOAT32BE
    | S32LE | S32BE
    | S24LE | S24BE
    | S24_32LE | S24_32BE
    | Invalid

  /** PulseAudio's `pa_sample_spec`. */
  datatype SampleSpec = SampleSpec(format: SampleFormat, rate: uint32, channels: uint8)

  /** The LDAC library's PCM sample format; `Unset` is the zero-filled value
      a freshly allocated state holds before the transport is configured. */
  datatype LdacSampleFormat = Unset | S16 | S24 | S32 | F32

  /** Encode quality mode ("eqmid"): high, standard and mobile-use quality. */
  datatype Eqmid = HQ | SQ | MQ

  /** The LDAC codec-specific configuration record `a2dp_ldac_t`, as fields:
      vendor id, codec id, a frequency bitmask and a channel-mode bitmask. */
  datatype LdacConfig = LdacConfig(vendorId: bv32, codecId: bv16, frequency: bv8, channelMode: bv8)

  /** True when exactly one bit of `x` is set. */
  predicate OneBit(x: bv8) {
    x != 0 && x & (x - 1) == 0
  }

  /** Constants the glue takes from headers outside this model: the six
      sampling-frequency bits and three channel-mode bits of the LDAC library,
      the vendor and codec ids, and `sizeof(a2dp_ldac_t)`. */
  datatype LdacConsts = LdacConsts(
    freq044100: bv8, freq048000: bv8, freq088200: bv8,
    freq096000: bv8, freq176400: bv8, freq192000: bv8,
    channelMono: bv8, channelDual: bv8, channelStereo: bv8,
    vendorId: bv32, codecId: bv16, configSize: size_t)
  {
    /** The six legal frequency bits, in rate-ascending order. */
    function FrequencyBits(): (r: seq<bv8>)
      ensures |r| == 6
    {
      [freq044100, freq048000, freq088200, freq096000, freq176400, freq192000]
    }

    /** The three legal channel-mode bits. */
    function ChannelModeBits(): (r: seq<bv8>)
      ensures |r| == 3
    {
      [channelMono, channelDual, channelStereo]
    }

    /** What the headers guarantee: distinct one-bit constants. */
    predicate Valid() {
      var fb := FrequencyBits();
      var cb := ChannelModeBits();
      (forall i | 0 <= i < |fb| :: OneBit(fb[i])) &&
      (forall i, j | 0 <= i < j < |fb| :: fb[i] != fb[j]) &&
      (forall i | 0 <= i < |cb| :: OneBit(cb[i])) &&
      (forall i, j | 0 <= i < j < |cb| :: cb[i] != cb[j])
    }
  }

  /** Sizes the glue takes from headers outside this model:
      `sizeof(struct rtp_header)`, `sizeof(struct rtp_payload)`,
      `LDACBT_ENC_LSU`, `LDACBT_MAX_LSU`, and PulseAudio's `pa_frame_size`
      and `pa_bytes_to_usec`. */
  datatype Platform = Platform(
    rtpHeaderSize: size_t,
    rtpPayloadSize: size_t,
    encLsu: size_t,
    maxLsu: size_t,
    frameSize: SampleSpec -> size_t,
    bytesToUsec: (size_t, SampleSpec) -> nat)
}
