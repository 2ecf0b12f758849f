// Capability advertisement, configuration selection and configuration
// validation for the LDAC A2DP source: pure decisions over the frequency and
// channel-mode bitmasks of the `a2dp_ldac_t` record.

module LdacNegotiation {
  import opened LdacTypes

  /** An entry of the frequency table handed to the frequency picker
      (`pa_a2dp_freq_cap_t`): a sample rate and its capability bit. */
  datatype FreqCap = FreqCap(rate: uint32, cap: bv32)

  /** A frequency bit widened to the 32-bit capability field; its low byte
      is the bit again. */
  function Widen(x: bv8): (r: bv32)
    ensures (r & 0xFF) as bv8 == x
  {
    x as bv32
  }

  /** The four frequencies the source offers, rate-ascending, each with the
      first four frequency bits in turn. */
  function FrequencyTable(c: LdacConsts): (t: seq<FreqCap>)
    ensures |t| == 4
    ensures t[0].rate < t[1].rate < t[2].rate < t[3].rate
    ensures forall i | 0 <= i < |t| :: t[i].cap == Widen(c.FrequencyBits()[i])
  {
    [ FreqCap(44100, Widen(c.freq044100)),
      FreqCap(48000, Widen(c.freq048000)),
      FreqCap(88200, Widen(c.freq088200)),
      FreqCap(96000, Widen(c.freq096000)) ]
  }

  /** The frequency picker `pa_a2dp_select_cap_frequency` lives outside this
      model; it is a parameter, and all the glue relies on is that what it
      returns is an entry of the table it was given. */
  predicate PickedFromTable(picked: Option<FreqCap>, table: seq<FreqCap>) {
    picked.Some? ==> picked.value in table
  }

  /** The configuration record's 8-bit frequency field takes the low byte of
      the picked capability. */
  function FrequencyField(fc: FreqCap): (r: bv8)
    ensures fc.cap < 0x100 ==> r as bv32 == fc.cap
  {
    (fc.cap & 0xFF) as bv8
  }

  /** `pa_ldac_get_capabilities`: LDAC ids, the four frequencies of the table
      and all three channel modes, with the record's size. */
  function GetCapabilities(c: LdacConsts): (r: (LdacConfig, size_t))
    ensures r.1 == c.configSize
    ensures r.0.vendorId == c.vendorId && r.0.codecId == c.codecId
  {
    (LdacConfig(c.vendorId, c.codecId,
                c.freq044100 | c.freq048000 | c.freq088200 | c.freq096000,
                c.channelMono | c.channelDual | c.channelStereo),
     c.configSize)
  }

  /** The channel-mode order of preference for a local channel count:
      mono first for at most one channel, stereo first otherwise. */
  function ChannelPreference(c: LdacConsts, channels: uint8): (r: seq<bv8>)
    ensures |r| == 3 && multiset(r) == multiset(c.ChannelModeBits())
  {
    if channels <= 1 then [c.channelMono, c.channelStereo, c.channelDual]
    else [c.channelStereo, c.channelDual, c.channelMono]
  }

  /** True when the capability mask `mask` has the bit `bit` set. */
  predicate Advertises(mask: bv8, bit: bv8) {
    mask & bit != 0
  }

  /** The index of the first entry of `order` that `mask` advertises. */
  function FirstPresent(order: seq<bv8>, mask: bv8): (r: Option<nat>)
    ensures r.Some? ==> r.value < |order| && Advertises(mask, order[r.value])
    ensures r.Some? ==> forall j | 0 <= j < r.value :: !Advertises(mask, order[j])
    ensures r.None? ==> forall j | 0 <= j < |order| :: !Advertises(mask, order[j])
  {
    if |order| == 0 then None
    else if Advertises(mask, order[0]) then Some(0)
    else
      match FirstPresent(order[1..], mask)
      case None => None
      case Some(i) => Some(i + 1)
  }

  /** The channel-mode choice of `pa_ldac_select_configuration`. */
  function ChooseChannelMode(c: LdacConsts, channels: uint8, mask: bv8): (r: Option<bv8>)
    ensures r.Some? ==> r.value in c.ChannelModeBits() && Advertises(mask, r.value)
    ensures r.None? <==>
      (!Advertises(mask, c.channelMono) && !Advertises(mask, c.channelDual) && !Advertises(mask, c.channelStereo))
  {
    if channels <= 1 then
      if Advertises(mask, c.channelMono) then Some(c.channelMono)
      else if Advertises(mask, c.channelStereo) then Some(c.channelStereo)
      else if Advertises(mask, c.channelDual) then Some(c.channelDual)
      else None
    else
      if Advertises(mask, c.channelStereo) then Some(c.channelStereo)
      else if Advertises(mask, c.channelDual) then Some(c.channelDual)
      else if Advertises(mask, c.channelMono) then Some(c.channelMono)
      else None
  }

  /** The chosen channel mode is the first mode of the preference order that
      the peer advertises, and there is none exactly when no advertised bit
      matches any mode. */
  lemma ChannelChoiceFollowsPreference(c: LdacConsts, channels: uint8, mask: bv8)
    ensures var pref := ChannelPreference(c, channels);
            ChooseChannelMode(c, channels, mask) ==
              match FirstPresent(pref, mask)
              case None => None
              case Some(i) => Some(pref[i])
  {
    if channels <= 1 {
      FirstPresentOfThree(c.channelMono, c.channelStereo, c.channelDual, mask);
    } else {
      FirstPresentOfThree(c.channelStereo, c.channelDual, c.channelMono, mask);
    }
  }

  /** `FirstPresent` on three entries is an if-else chain over them. */
  lemma FirstPresentOfThree(a: bv8, b: bv8, d: bv8, mask: bv8)
    ensures FirstPresent([a, b, d], mask) ==
      if Advertises(mask, a) then Some(0)
      else if Advertises(mask, b) then Some(1)
      else if Advertises(mask, d) then Some(2)
      else None
  {
    assert [d][1..] == [];
    assert FirstPresent([d], mask) == if Advertises(mask, d) then Some(0) else None;
    assert [b, d][1..] == [d];
    assert FirstPresent([b, d], mask) ==
      if Advertises(mask, b) then Some(0) else if Advertises(mask, d) then Some(1) else None;
    assert [a, b, d][1..] == [b, d];
  }

  /** `pa_ldac_select_configuration`: `None` stands for the return value 0.
      `pick` is the external frequency picker. */
  function SelectConfiguration(c: LdacConsts, spec: SampleSpec, cap: LdacConfig, capSize: size_t,
                               pick: (bv8, SampleSpec, seq<FreqCap>) -> Option<FreqCap>): (r: Option<LdacConfig>)
    ensures capSize != c.configSize ==> r.None?
    ensures r.Some? <==>
      && capSize == c.configSize
      && pick(cap.frequency, spec, FrequencyTable(c)).Some?
      && ChooseChannelMode(c, spec.channels, cap.channelMode).Some?
    ensures r.Some? ==>
      && r.value.vendorId == c.vendorId && r.value.codecId == c.codecId
      && r.value.frequency == FrequencyField(pick(cap.frequency, spec, FrequencyTable(c)).value)
      && r.value.channelMode in c.ChannelModeBits()
      && Advertises(cap.channelMode, r.value.channelMode)
    ensures r.Some? ==> Some(r.value.channelMode) == ChooseChannelMode(c, spec.channels, cap.channelMode)
  {
    if capSize != c.configSize then None
    else
      match pick(cap.frequency, spec, FrequencyTable(c))
      case None => None
      case Some(fc) =>
        match ChooseChannelMode(c, spec.channels, cap.channelMode)
        case None => None
        case Some(mode) => Some(LdacConfig(c.vendorId, c.codecId, FrequencyField(fc), mode))
  }

  /** `pa_ldac_set_configuration`: accepts exactly the records of the right
      size whose frequency is one of the six legal bits and whose channel mode
      is one of the three legal bits. */
  function SetConfiguration(c: LdacConsts, config: LdacConfig, size: size_t): (ok: bool)
    ensures ok <==>
      && size == c.configSize
      && config.frequency in c.FrequencyBits()
      && config.channelMode in c.ChannelModeBits()
  {
    FrequencyBitsMembers(c, config.frequency);
    ChannelModeBitsMembers(c, config.channelMode);
    if size != c.configSize then false
    else if !(|| config.frequency == c.freq044100
              || config.frequency == c.freq048000
              || config.frequency == c.freq088200
              || config.frequency == c.freq096000
              || config.frequency == c.freq176400
              || config.frequency == c.freq192000) then false
    else
      || config.channelMode == c.channelStereo
      || config.channelMode == c.channelDual
      || config.channelMode == c.channelMono
  }

  /** Membership in the six legal frequency bits, one comparison each. */
  lemma FrequencyBitsMembers(c: LdacConsts, f: bv8)
    ensures f in c.FrequencyBits() <==>
      || f == c.freq044100 || f == c.freq048000 || f == c.freq088200
      || f == c.freq096000 || f == c.freq176400 || f == c.freq192000
  {
    var fb := c.FrequencyBits();
    assert fb[0] == c.freq044100 && fb[1] == c.freq048000 && fb[2] == c.freq088200;
    assert fb[3] == c.freq096000 && fb[4] == c.freq176400 && fb[5] == c.freq192000;
  }

  /** Membership in the three legal channel-mode bits, one comparison each. */
  lemma ChannelModeBitsMembers(c: LdacConsts, m: bv8)
    ensures m in c.ChannelModeBits() <==> m == c.channelMono || m == c.channelDual || m == c.channelStereo
  {
    var cb := c.ChannelModeBits();
    assert cb[0] == c.channelMono && cb[1] == c.channelDual && cb[2] == c.channelStereo;
  }

  /** Every frequency the selection table offers is one the validator
      accepts. */
  lemma FrequencyTableIsLegal(c: LdacConsts, fc: FreqCap)
    requires fc in FrequencyTable(c)
    ensures FrequencyField(fc) in {c.freq044100, c.freq048000, c.freq088200, c.freq096000}
  {
    var i := TableIndex(FrequencyTable(c), fc);
    OneOfFirstFour(c, i, FrequencyField(fc));
  }

  /** The position of an entry in a table. */
  lemma TableIndex(t: seq<FreqCap>, fc: FreqCap) returns (i: nat)
    requires fc in t
    ensures i < |t| && t[i] == fc
  {
    i :| 0 <= i < |t| && t[i] == fc;
  }

  /** The bit at one of the first four positions is one of the four offered
      frequency bits. */
  lemma OneOfFirstFour(c: LdacConsts, i: nat, x: bv8)
    requires i < 4 && x == c.FrequencyBits()[i]
    ensures x in {c.freq044100, c.freq048000, c.freq088200, c.freq096000}
  {
  }

  /** Round trip: whatever configuration the selection emits is accepted by
      the validator, provided the frequency picker returns a table entry. */
  lemma {:induction false} SelectedConfigurationIsAccepted(
    c: LdacConsts, spec: SampleSpec, cap: LdacConfig, capSize: size_t,
    pick: (bv8, SampleSpec, seq<FreqCap>) -> Option<FreqCap>)
    requires PickedFromTable(pick(cap.frequency, spec, FrequencyTable(c)), FrequencyTable(c))
    ensures var r := SelectConfiguration(c, spec, cap, capSize, pick);
            r.Some? ==> SetConfiguration(c, r.value, c.configSize)
  {
    var r := SelectConfiguration(c, spec, cap, capSize, pick);
    if r.Some? {
      var fc := pick(cap.frequency, spec, FrequencyTable(c)).value;
      FrequencyTableIsLegal(c, fc);
    }
  }

  /** With distinct one-bit constants the validator rejects a frequency or
      channel-mode field that has no bit or more than one bit set. */
  lemma SetConfigurationRejectsNonOneBit(c: LdacConsts, config: LdacConfig, size: size_t)
    requires c.Valid()
    requires !OneBit(config.frequency) || !OneBit(config.channelMode)
    ensures !SetConfiguration(c, config, size)
  {
  }

  /** A one-bit value different from four other one-bit values shares no
      bit with their union. */
  lemma OneBitOutsideUnion(x: bv8, a: bv8, b: bv8, d: bv8, e: bv8)
    requires OneBit(x) && OneBit(a) && OneBit(b) && OneBit(d) && OneBit(e)
    requires x != a && x != b && x != d && x != e
    ensures (a | b | d | e) & x == 0
  {
  }

  /** The facts `Valid` packs into quantifiers, spelled out field by field
      for the frequencies the table leaves out. */
  lemma ValidFrequencyFields(c: LdacConsts)
    requires c.Valid()
    ensures OneBit(c.freq044100) && OneBit(c.freq048000) && OneBit(c.freq088200)
    ensures OneBit(c.freq096000) && OneBit(c.freq176400) && OneBit(c.freq192000)
    ensures c.freq176400 !in {c.freq044100, c.freq048000, c.freq088200, c.freq096000}
    ensures c.freq192000 !in {c.freq044100, c.freq048000, c.freq088200, c.freq096000}
  {
    var fb := c.FrequencyBits();
    assert OneBit(fb[0]) && OneBit(fb[1]) && OneBit(fb[2]) && OneBit(fb[3]);
    assert OneBit(fb[4]) && OneBit(fb[5]);
    assert fb[0] != fb[4] && fb[1] != fb[4] && fb[2] != fb[4] && fb[3] != fb[4];
    assert fb[0] != fb[5] && fb[1] != fb[5] && fb[2] != fb[5] && fb[3] != fb[5];
  }

  /** The facts `Valid` packs into quantifiers, spelled out for the channel
      modes. */
  lemma ValidChannelFields(c: LdacConsts)
    requires c.Valid()
    ensures OneBit(c.channelMono) && OneBit(c.channelDual) && OneBit(c.channelStereo)
    ensures c.channelMono != c.channelDual && c.channelMono != c.channelStereo
    ensures c.channelDual != c.channelStereo
  {
    var cb := c.ChannelModeBits();
    assert OneBit(cb[0]) && OneBit(cb[1]) && OneBit(cb[2]);
    assert cb[0] != cb[1] && cb[0] != cb[2] && cb[1] != cb[2];
  }

  /** The advertised frequencies are the table's, not 176.4 or 192 kHz. */
  lemma TableFrequenciesAdvertised(c: LdacConsts)
    requires c.Valid()
    ensures var f := GetCapabilities(c).0.frequency;
            && f & c.freq044100 != 0 && f & c.freq048000 != 0
            && f & c.freq088200 != 0 && f & c.freq096000 != 0
            && f & c.freq176400 == 0 && f & c.freq192000 == 0
  {
    ValidFrequencyFields(c);
    OneBitOutsideUnion(c.freq176400, c.freq044100, c.freq048000, c.freq088200, c.freq096000);
    OneBitOutsideUnion(c.freq192000, c.freq044100, c.freq048000, c.freq088200, c.freq096000);
  }

  /** Every channel mode is advertised. */
  lemma ChannelModesAdvertised(c: LdacConsts)
    requires c.Valid()
    ensures var m := GetCapabilities(c).0.channelMode;
            && m & c.channelMono != 0 && m & c.channelDual != 0 && m & c.channelStereo != 0
  {
    ValidChannelFields(c);
  }

  /** The advertised capabilities name exactly the table's frequencies (not
      176.4 or 192 kHz) and every channel mode. */
  lemma CapabilitiesAdvertiseTable(c: LdacConsts)
    requires c.Valid()
    ensures var caps := GetCapabilities(c).0;
            && caps.frequency & c.freq044100 != 0 && caps.frequency & c.freq048000 != 0
            && caps.frequency & c.freq088200 != 0 && caps.frequency & c.freq096000 != 0
            && caps.frequency & c.freq176400 == 0 && caps.frequency & c.freq192000 == 0
            && caps.channelMode & c.channelMono != 0
            && caps.channelMode & c.channelDual != 0
            && caps.channelMode & c.channelStereo != 0
  {
    TableFrequenciesAdvertised(c);
    ChannelModesAdvertised(c);
  }

  /** Negotiating against this source's own capabilities succeeds whenever
      the picker does, with mono for a mono default and stereo otherwise. */
  lemma OwnCapabilitiesNegotiate(c: LdacConsts, spec: SampleSpec,
                                 pick: (bv8, SampleSpec, seq<FreqCap>) -> Option<FreqCap>)
    requires c.Valid()
    requires pick(GetCapabilities(c).0.frequency, spec, FrequencyTable(c)).Some?
    ensures var r := SelectConfiguration(c, spec, GetCapabilities(c).0, c.configSize, pick);
            r.Some? && r.value.channelMode == (if spec.channels <= 1 then c.channelMono else c.channelStereo)
  {
    ChannelModesAdvertised(c);
    var mode := ChooseChannelMode(c, spec.channels, GetCapabilities(c).0.channelMode);
    assert mode == Some(if spec.channels <= 1 then c.channelMono else c.channelStereo);
  }

  /** A stereo default against a peer offering mono and stereo selects
      stereo; a mono default selects mono. */
  lemma StereoPreferredForTwoChannels(c: LdacConsts, channels: uint8)
    requires c.Valid()
    ensures var mask := c.channelMono | c.channelStereo;
            ChooseChannelMode(c, channels, mask) ==
              Some(if channels <= 1 then c.channelMono else c.channelStereo)
  {
    ValidChannelFields(c);
  }
}
