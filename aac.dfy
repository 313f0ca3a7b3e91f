/** Raw AAC import: the AudioSpecificConfig parser (subclause 1.6.2.1 of
    ISO/IEC 14496-3, as far as `Aac::initialize` reads it) and the AAC decoder's
    lifecycle: initialize from the config, then one frame per decode call,
    and removal of the catalog entry at teardown. */
module AacImport {
  import opened Errors
  import opened Bytes
  import opened Media

  /** The sampling frequencies of frequency indices 0 to 12. */
  const SAMPLE_RATES: seq<nat> :=
    [96000, 88200, 64000, 48000, 44100, 32000, 24000, 22050, 16000, 12000, 11025, 8000, 7350]

  /** What the parser extracts: the audio object type (the codec profile),
      the sample rate in Hz and the channel count. */
  datatype AacConfig = AacConfig(profile: nat, sampleRate: nat, channelCount: nat)

  /** The channel count for a 4-bit channel configuration: configurations 1 to 7
      are the count itself, and 0 (defined by the stream) as well as the
      values 8 to 15 are taken as stereo. Never fails. */
  function ChannelCountFromConfig(channelConfig: byte): (n: nat)
    ensures 1 <= n <= 7
    ensures 1 <= channelConfig <= 7 ==> n == channelConfig as nat
    ensures channelConfig == 0 || channelConfig > 7 ==> n == 2
  {
    if channelConfig == 0 then 2
    else if channelConfig <= 7 then channelConfig as nat
    else 2
  }

  /** The sample rate for a frequency index, reading the explicit 24-bit
      big-endian rate from the head of `rest` when the index is 15. */
  function SampleRateFromIndex(freqIndex: byte, rest: seq<byte>): (p: Parsed<nat>)
    ensures p.consumed <= |rest|
    ensures p.result.Ok? ==> p.result.value < Pow256(3)
    ensures freqIndex < 13 ==> p == Parsed(Ok(SAMPLE_RATES[freqIndex]), 0)
    ensures freqIndex == 15 && |rest| < 3 ==> p == Parsed(Err(ExplicitRateTooShort), 0)
    ensures freqIndex == 15 && |rest| >= 3 ==> p == Parsed(Ok(BeUint(rest[..3])), 3)
    ensures freqIndex == 13 || freqIndex == 14 || freqIndex > 15 ==>
      p == Parsed(Err(UnsupportedRateIndex), 0)
  {
    if freqIndex == 15 then
      if |rest| < 3 then Parsed(Err(ExplicitRateTooShort), 0)
      else
        BeUintBound(rest[..3]);
        Parsed(Ok(BeUint(rest[..3])), 3)
    else if freqIndex as nat < |SAMPLE_RATES| then Parsed(Ok(SAMPLE_RATES[freqIndex]), 0)
    else Parsed(Err(UnsupportedRateIndex), 0)
  }

  /** The rest of the parse once the header bytes (2 for a standard object
      type, 3 for an escaped one) are read: the sample rate, the channel
      count, and every remaining byte consumed. */
  function FinishConfig(profile: nat, freqIndex: byte, channelConfig: byte, s: seq<byte>, header: nat): (p: Parsed<AacConfig>)
    requires header <= |s|
    ensures header <= p.consumed <= |s|
    ensures p.result.Ok? ==> p.consumed == |s|
    ensures p.result.Ok? ==> p.result.value.profile == profile
    ensures p.result.Ok? ==> 1 <= p.result.value.channelCount <= 7 && p.result.value.sampleRate < Pow256(3)
  {
    var rate := SampleRateFromIndex(freqIndex, s[header..]);
    if rate.result.Err? then Parsed(Err(rate.result.error), header + rate.consumed)
    else Parsed(Ok(AacConfig(profile, rate.result.value, ChannelCountFromConfig(channelConfig))), |s|)
  }

  // The bit fields of the config header. `Aac::initialize` extracts them with
  // shifts and masks on `u8`; here a shift right by k is a division by 2^k,
  // a mask of the k low bits a remainder modulo 2^k, and the `|` of two
  // fields with disjoint bits a sum.

  /** `b0 >> 3`: the 5-bit audio object type. */
  function ObjectTypeBits(b0: byte): (ot: nat)
    ensures ot < 32
  {
    b0 as nat / 8
  }

  /** `((b0 & 0x07) << 1) | ((b1 >> 7) & 0x01)`: the frequency index that
      straddles the first two bytes of a standard header. */
  function StandardFreqIndex(b0: byte, b1: byte): (fi: byte)
    ensures fi < 16
  {
    ((b0 as nat % 8) * 2 + b1 as nat / 128 % 2) as byte
  }

  /** `(b1 >> 3) & 0x0F`: the channel configuration of a standard header. */
  function StandardChannelConfig(b1: byte): (cc: byte)
    ensures cc < 16
  {
    (b1 as nat / 8 % 16) as byte
  }

  /** `((b0 & 0x07) << 3) | ((b_ext >> 5) & 0x07)`: the 6 bits after the escape value. */
  function EscapedObjectType(b0: byte, bExt: byte): (ext: nat)
    ensures ext < 64
  {
    (b0 as nat % 8) * 8 + bExt as nat / 32 % 8
  }

  /** `(b_ext >> 1) & 0x0F`: the frequency index of an escaped header. */
  function EscapedFreqIndex(bExt: byte): (fi: byte)
    ensures fi < 16
  {
    (bExt as nat / 2 % 16) as byte
  }

  /** `((b_ext & 0x01) << 3) | ((b1 >> 5) & 0x07)`: the channel configuration
      of an escaped header. */
  function EscapedChannelConfig(bExt: byte, b1: byte): (cc: byte)
    ensures cc < 16
  {
    ((bExt as nat % 2) * 8 + b1 as nat / 32 % 8) as byte
  }

  /** The AudioSpecificConfig parse of `Aac::initialize`, and how much of `s` it
      consumes. On success it consumes all of `s`: trailing extension data
      (SBR, PS, ...) is skipped without being interpreted. */
  function ParseConfig(s: seq<byte>): (p: Parsed<AacConfig>)
    ensures p.consumed <= |s|
    ensures p.result.Ok? ==> p.consumed == |s|
    ensures p.result.Ok? ==> 1 <= p.result.value.channelCount <= 7 && p.result.value.sampleRate < Pow256(3)
    ensures |s| < 2 ==> p == Parsed(Err(ConfigTooShort), 0)
    ensures |s| == 2 && ObjectTypeBits(s[0]) == 31 ==> p == Parsed(Err(ExtendedTypeTooShort), 1)
    ensures p.result.Ok? && ObjectTypeBits(s[0]) == 31 ==> 32 <= p.result.value.profile <= 95
    ensures p.result.Ok? && ObjectTypeBits(s[0]) != 31 ==> p.result.value.profile == ObjectTypeBits(s[0]) < 31
  {
    if |s| < 2 then Parsed(Err(ConfigTooShort), 0)
    else if ObjectTypeBits(s[0]) == 31 then
      if |s| - 1 < 2 then Parsed(Err(ExtendedTypeTooShort), 1)
      else
        FinishConfig(32 + EscapedObjectType(s[0], s[1]), EscapedFreqIndex(s[1]), EscapedChannelConfig(s[1], s[2]), s, 3)
    else
      FinishConfig(ObjectTypeBits(s[0]), StandardFreqIndex(s[0], s[1]), StandardChannelConfig(s[1]), s, 2)
  }

  /** The audio object type as it is written: directly below 31, or as the
      escape value 31 followed by 6 more bits `ext` (object type 32 + ext). */
  datatype ObjectType = Standard(objectType: nat) | Escaped(ext: nat)
  {
    predicate Valid() { if Standard? then objectType < 31 else ext < 64 }
    function Profile(): nat { if Standard? then objectType else 32 + ext }
  }

  /** The fields of a config as an encoder lays them out in the bit order the
      parser reads: the explicit rate is used only with frequency index 15.
      `skipped` fills the low header bits the parser does not read: the 3 bits
      after the channel configuration of a standard header (frameLengthFlag,
      dependsOnCoreCoder, extensionFlag), and the 5 low bits of the last byte
      of an escaped one. */
  datatype ConfigFields = ConfigFields(
    objectType: ObjectType,
    freqIndex: byte,
    channelConfig: byte,
    skipped: nat,
    explicitRate: nat,
    extension: seq<byte>)
  {
    predicate Valid() {
      && objectType.Valid()
      && freqIndex <= 15
      && channelConfig <= 15
      && skipped < (if objectType.Standard? then 8 else 32)
      && explicitRate < Pow256(3)
    }
  }

  /** The header bytes (object type, frequency index, channel configuration). */
  function EncodeHeader(f: ConfigFields): (h: seq<byte>)
    requires f.Valid()
    ensures |h| == if f.objectType.Standard? then 2 else 3
  {
    var fi, cc, pad := f.freqIndex as nat, f.channelConfig as nat, f.skipped;
    match f.objectType
    case Standard(ot) =>
      [(ot * 8 + fi / 2) as byte, (fi % 2 * 128 + cc * 8 + pad) as byte]
    case Escaped(ext) =>
      [(31 * 8 + ext / 8) as byte, (ext % 8 * 32 + fi * 2 + cc / 8) as byte, (cc % 8 * 32 + pad) as byte]
  }

  /** A whole config: header, explicit rate when the index asks for one, then
      the extension bytes. */
  function EncodeConfig(f: ConfigFields): seq<byte>
    requires f.Valid()
  {
    EncodeHeader(f) + (if f.freqIndex == 15 then BeBytes(f.explicitRate, 3) else []) + f.extension
  }

  /** The fields of an encoded standard header are read back. */
  lemma StandardHeaderFields(f: ConfigFields)
    requires f.Valid() && f.objectType.Standard?
    ensures var h := EncodeHeader(f);
      && ObjectTypeBits(h[0]) == f.objectType.objectType
      && StandardFreqIndex(h[0], h[1]) == f.freqIndex
      && StandardChannelConfig(h[1]) == f.channelConfig
  {
    var fi, cc, pad := f.freqIndex as nat, f.channelConfig as nat, f.skipped;
    var h1 := fi % 2 * 128 + cc * 8 + pad;
    assert EncodeHeader(f)[1] as nat == h1;
    assert cc * 8 + pad < 128;
    assert h1 / 128 == fi % 2;
    assert h1 / 8 == fi % 2 * 16 + cc;
  }

  lemma EscapedFirstByte(ext: nat)
    requires ext < 64
    ensures (31 * 8 + ext / 8) / 8 == 31 && (31 * 8 + ext / 8) % 8 == ext / 8
  {
  }

  lemma EscapedSecondByte(ext: nat, fi: nat, cc: nat)
    requires ext < 64 && fi < 16 && cc < 16
    ensures var b := ext % 8 * 32 + fi * 2 + cc / 8;
      b / 32 % 8 == ext % 8 && b / 2 % 16 == fi && b % 2 == cc / 8
  {
    var b := ext % 8 * 32 + fi * 2 + cc / 8;
    assert fi * 2 + cc / 8 < 32;
    assert b / 32 == ext % 8;
    assert b / 2 == ext % 8 * 16 + fi;
  }

  /** The fields of an encoded escaped header are read back. */
  lemma EscapedHeaderFields(f: ConfigFields)
    requires f.Valid() && f.objectType.Escaped?
    ensures var h := EncodeHeader(f);
      && ObjectTypeBits(h[0]) == 31
      && EscapedObjectType(h[0], h[1]) == f.objectType.ext
      && EscapedFreqIndex(h[1]) == f.freqIndex
      && EscapedChannelConfig(h[1], h[2]) == f.channelConfig
  {
    var ext, fi, cc, pad := f.objectType.ext, f.freqIndex as nat, f.channelConfig as nat, f.skipped;
    var h := EncodeHeader(f);
    assert h[0] as nat == 31 * 8 + ext / 8 && h[1] as nat == ext % 8 * 32 + fi * 2 + cc / 8 && h[2] as nat == cc % 8 * 32 + pad;
    EscapedFirstByte(ext);
    EscapedSecondByte(ext, fi, cc);
    assert (cc % 8 * 32 + pad) / 32 == cc % 8;
  }

  /** The header of an encoded config is read back as its own fields: the
      parse reduces to the sample-rate step on what follows the header. */
  lemma ParseEncodedHeader(f: ConfigFields)
    requires f.Valid()
    ensures var s := EncodeConfig(f);
      ParseConfig(s) == FinishConfig(f.objectType.Profile(), f.freqIndex, f.channelConfig, s, |EncodeHeader(f)|)
  {
    var s := EncodeConfig(f);
    var header := EncodeHeader(f);
    assert s[..|header|] == header;
    if f.objectType.Standard? {
      StandardHeaderFields(f);
      assert s[0] == header[0] && s[1] == header[1];
    } else {
      EscapedHeaderFields(f);
      assert s[0] == header[0] && s[1] == header[1] && s[2] == header[2];
    }
  }

  /** Parsing an encoded config recovers its object type, its sample rate
      (from the table, or the explicit rate) and its channel count, and
      consumes it entirely, whatever extension bytes follow; indices 13 and 14
      are refused after the header is consumed. */
  lemma ParseEncodedConfig(f: ConfigFields)
    requires f.Valid()
    ensures var s, h := EncodeConfig(f), |EncodeHeader(f)|;
      && (f.freqIndex < 13 ==>
            ParseConfig(s) == Parsed(Ok(AacConfig(f.objectType.Profile(), SAMPLE_RATES[f.freqIndex], ChannelCountFromConfig(f.channelConfig))), |s|))
      && (f.freqIndex == 15 ==>
            ParseConfig(s) == Parsed(Ok(AacConfig(f.objectType.Profile(), f.explicitRate, ChannelCountFromConfig(f.channelConfig))), |s|))
      && (f.freqIndex == 13 || f.freqIndex == 14 ==>
            ParseConfig(s) == Parsed(Err(UnsupportedRateIndex), h))
  {
    var s := EncodeConfig(f);
    var header := EncodeHeader(f);
    var rate := if f.freqIndex == 15 then BeBytes(f.explicitRate, 3) else [];
    ParseEncodedHeader(f);
    assert s[|header|..] == rate + f.extension;
    if f.freqIndex == 15 {
      assert s[|header|..][..3] == BeBytes(f.explicitRate, 3);
      BeUintOfBeBytes(f.explicitRate, 3);
    }
  }

  lemma StandardBytes(b0: byte, b1: byte)
    ensures b0 as nat == b0 as nat / 8 * 8 + StandardFreqIndex(b0, b1) as nat / 2
    ensures b1 as nat == StandardFreqIndex(b0, b1) as nat % 2 * 128 + StandardChannelConfig(b1) as nat * 8 + b1 as nat % 8
  {
    var x := b1 as nat;
    assert x / 128 % 2 == x / 128;
    assert x / 8 % 16 == x / 8 - x / 128 * 16;
  }

  lemma EscapedBytes(b0: byte, b1: byte, b2: byte)
    requires ObjectTypeBits(b0) == 31
    ensures var ext, fi, cc := EscapedObjectType(b0, b1), EscapedFreqIndex(b1) as nat, EscapedChannelConfig(b1, b2) as nat;
      && b0 as nat == 31 * 8 + ext / 8
      && b1 as nat == ext % 8 * 32 + fi * 2 + cc / 8
      && b2 as nat == cc % 8 * 32 + b2 as nat % 32
  {
    var x, y := b1 as nat, b2 as nat;
    assert x / 32 % 8 == x / 32 && y / 32 % 8 == y / 32;
    assert x / 2 % 16 == x / 2 - x / 32 * 16;
  }

  /** What follows the header of an accepted config splits into the explicit
      rate (with frequency index 15) and the extension bytes. */
  lemma RateAndExtension(freqIndex: byte, rest: seq<byte>) returns (rate: nat, extension: seq<byte>)
    requires SampleRateFromIndex(freqIndex, rest).result.Ok?
    ensures rate < Pow256(3)
    ensures (if freqIndex == 15 then BeBytes(rate, 3) else []) + extension == rest
  {
    if freqIndex == 15 {
      BeBytesOfBeUint(rest[..3]);
      BeUintBound(rest[..3]);
      rate, extension := BeUint(rest[..3]), rest[3..];
      assert rest == rest[..3] + rest[3..];
    } else {
      rate, extension := 0, rest;
    }
  }

  /** The header fields of an accepted standard config, with the rest of it. */
  lemma StandardIsEncoding(s: seq<byte>) returns (f: ConfigFields)
    requires |s| >= 2 && ObjectTypeBits(s[0]) != 31
    requires SampleRateFromIndex(StandardFreqIndex(s[0], s[1]), s[2..]).result.Ok?
    ensures f.Valid() && f.objectType == Standard(ObjectTypeBits(s[0])) && EncodeConfig(f) == s
  {
    var fi := StandardFreqIndex(s[0], s[1]);
    var rate, extension := RateAndExtension(fi, s[2..]);
    f := ConfigFields(Standard(ObjectTypeBits(s[0])), fi, StandardChannelConfig(s[1]), s[1] as nat % 8, rate, extension);
    StandardBytes(s[0], s[1]);
    assert EncodeHeader(f) == s[..2];
    assert s == s[..2] + s[2..];
  }

  /** The header fields of an accepted escaped config, with the rest of it. */
  lemma EscapedIsEncoding(s: seq<byte>) returns (f: ConfigFields)
    requires |s| >= 3 && ObjectTypeBits(s[0]) == 31
    requires SampleRateFromIndex(EscapedFreqIndex(s[1]), s[3..]).result.Ok?
    ensures f.Valid() && f.objectType == Escaped(EscapedObjectType(s[0], s[1])) && EncodeConfig(f) == s
  {
    var fi := EscapedFreqIndex(s[1]);
    var rate, extension := RateAndExtension(fi, s[3..]);
    f := ConfigFields(Escaped(EscapedObjectType(s[0], s[1])), fi, EscapedChannelConfig(s[1], s[2]), s[2] as nat % 32, rate, extension);
    EscapedBytes(s[0], s[1], s[2]);
    assert EncodeHeader(f) == s[..3];
    assert s == s[..3] + s[3..];
  }

  /** Every config the parser accepts is an encoding: the fields it is made
      of, skipped header bits included, lay it out again byte for byte. */
  lemma ParsedConfigIsEncoding(s: seq<byte>) returns (f: ConfigFields)
    requires ParseConfig(s).result.Ok?
    ensures f.Valid() && EncodeConfig(f) == s
    ensures f.objectType.Profile() == ParseConfig(s).result.value.profile
  {
    if ObjectTypeBits(s[0]) == 31 {
      f := EscapedIsEncoding(s);
    } else {
      f := StandardIsEncoding(s);
    }
  }

  /** `12 10`: AAC-LC (profile 2), 44100 Hz, stereo; setting a skipped flag bit
      (`12 11`) changes nothing. */
  lemma ParseConfigExample()
    ensures ParseConfig([0x12, 0x10]) == Parsed(Ok(AacConfig(2, 44100, 2)), 2)
    ensures ParseConfig([0x12, 0x11]) == Parsed(Ok(AacConfig(2, 44100, 2)), 2)
  {
  }

  /** The catalog entry for a parsed config. */
  function CatalogConfig(c: AacConfig): AudioConfig
  {
    LegacyAudio(AAC(c.profile), c.sampleRate, c.channelCount)
  }

  /** `sample_rate_from_index` as the Rust code runs it on the caller's buffer. */
  method ReadSampleRate(freqIndex: byte, buf: Buf) returns (r: Result<nat>)
    modifies buf
    ensures var p := SampleRateFromIndex(freqIndex, old(buf.bytes));
      r == p.result && buf.bytes == old(buf.bytes)[p.consumed..]
  {
    if freqIndex == 15 {
      if buf.Remaining() < 3 {
        return Err(ExplicitRateTooShort);
      }
      ghost var rest := buf.bytes;
      var r0 := buf.GetU8();
      var r1 := buf.GetU8();
      var r2 := buf.GetU8();
      assert rest[..3] == [r0, r1, r2];
      BeUintSnoc([], r0);
      BeUintSnoc([r0], r1);
      BeUintSnoc([r0, r1], r2);
      assert [] + [r0] == [r0] && [r0] + [r1] == [r0, r1] && [r0, r1] + [r2] == [r0, r1, r2];
      return Ok(r0 as nat * 65536 + r1 as nat * 256 + r2 as nat);
    }
    if freqIndex as nat < |SAMPLE_RATES| {
      return Ok(SAMPLE_RATES[freqIndex]);
    }
    return Err(UnsupportedRateIndex);
  }

  /** The tail shared by both branches of the parse: the sample rate, the
      channel count, and the extension bytes skipped. */
  method ReadRest(profile: nat, freqIndex: byte, channelConfig: byte, buf: Buf, ghost s: seq<byte>, ghost header: nat)
    returns (r: Result<AacConfig>)
    requires header <= |s| && buf.bytes == s[header..]
    modifies buf
    ensures var p := FinishConfig(profile, freqIndex, channelConfig, s, header);
      r == p.result && buf.bytes == s[p.consumed..]
  {
    var rate := ReadSampleRate(freqIndex, buf);
    if rate.Err? {
      return Err(rate.error);
    }
    var channelCount := ChannelCountFromConfig(channelConfig);
    // skip any extension data
    if buf.Remaining() > 0 {
      buf.Advance(buf.Remaining());
    }
    return Ok(AacConfig(profile, rate.value, channelCount));
  }

  /** The parsing half of `Aac::initialize`, reading from the caller's buffer
      as the Rust code does: it consumes what `ParseConfig` says and yields its
      result. */
  method ReadConfig(buf: Buf) returns (r: Result<AacConfig>)
    modifies buf
    ensures var p := ParseConfig(old(buf.bytes));
      r == p.result && buf.bytes == old(buf.bytes)[p.consumed..]
  {
    if buf.Remaining() < 2 {
      return Err(ConfigTooShort);
    }
    ghost var s := buf.bytes;
    var b0 := buf.GetU8();
    var objectType := ObjectTypeBits(b0);
    if objectType == 31 {
      if buf.Remaining() < 2 {
        return Err(ExtendedTypeTooShort);
      }
      var bExt := buf.GetU8();
      var ext := EscapedObjectType(b0, bExt);
      var freqIndex := EscapedFreqIndex(bExt);
      var b1 := buf.GetU8();
      var channelConfig := EscapedChannelConfig(bExt, b1);
      assert buf.bytes == s[3..];
      r := ReadRest(32 + ext, freqIndex, channelConfig, buf, s, 3);
    } else {
      var b1 := buf.GetU8();
      var freqIndex := StandardFreqIndex(b0, b1);
      var channelConfig := StandardChannelConfig(b1);
      assert buf.bytes == s[2..];
      r := ReadRest(objectType, freqIndex, channelConfig, buf, s, 2);
    }
  }

  /** The AAC decoder: it owns at most one audio track of the broadcast. */
  class Aac {
    const broadcast: Broadcast
    var track: Option<Track>
    var zero: Option<Instant>

    constructor (broadcast: Broadcast)
      ensures this.broadcast == broadcast && track == None && zero == None
    {
      this.broadcast := broadcast;
      track := None;
      zero := None;
    }

    predicate IsInitialized()
      reads this
    {
      track.Some?
    }

    /** Parses the AudioSpecificConfig at the head of `buf`. On success the
        whole buffer is consumed, a priority-2 track is created, its catalog
        entry is inserted and the decoder is initialized; on failure the
        buffer is left where the parse stopped and nothing else changes. */
    method Initialize(buf: Buf) returns (r: Result<()>)
      modifies this, buf, broadcast
      ensures var p := ParseConfig(old(buf.bytes));
        && buf.bytes == old(buf.bytes)[p.consumed..]
        && zero == old(zero)
        && (p.result.Err? ==>
              && r == Err(p.result.error)
              && track == old(track)
              && unchanged(broadcast))
        && (p.result.Ok? ==>
              && r == Ok(())
              && buf.bytes == []
              && IsInitialized()
              && track.value.priority == 2
              && broadcast.tracks == old(broadcast.tracks) + [track.value]
              && broadcast.catalog == old(broadcast.catalog)[track.value.name := AudioRendition(CatalogConfig(p.result.value), 2)]
              && broadcast.groups == old(broadcast.groups))
    {
      var config := ReadConfig(buf);
      if config.Err? {
        return Err(config.error);
      }
      var name := broadcast.TrackName("audio");
      var t := broadcast.CreateTrack(Track(name, 2));
      broadcast.InsertAudio(t.name, CatalogConfig(config.value), 2);
      track := Some(t);
      return Ok(());
    }

    /** The frame timestamp: the hint if given, otherwise the time elapsed
        since the first wall-clock timestamp this decoder handed out. */
    method Pts(hint: Option<Timestamp>, now: Instant) returns (ts: Timestamp)
      modifies this
      ensures ts == ResolvePts(hint, old(zero), now)
      ensures zero == if hint.Some? then old(zero) else Some(Latch(old(zero), now))
      ensures track == old(track)
    {
      if hint.Some? {
        return hint.value;
      }
      if zero.None? {
        zero := Some(now);
      }
      return Elapsed(zero.value, now);
    }

    /** Publishes the whole buffer as one keyframe in one new group. The
        timestamp is resolved first, so a call without a hint latches the
        wall-clock reference even when it then fails as not initialized. */
    method Decode(buf: Buf, hint: Option<Timestamp>, now: Instant) returns (r: Result<()>)
      modifies this, buf, broadcast
      ensures track == old(track)
      ensures zero == if hint.Some? then old(zero) else Some(Latch(old(zero), now))
      ensures old(track).None? ==>
        r == Err(NotInitialized) && buf.bytes == old(buf.bytes) && unchanged(broadcast)
      ensures old(track).Some? ==>
        && r == Ok(())
        && buf.bytes == []
        && broadcast.groups == old(broadcast.groups) +
             [Group(old(track).value.name, Frame(ResolvePts(hint, old(zero), now), true, old(buf.bytes)))]
        && broadcast.catalog == old(broadcast.catalog)
        && broadcast.tracks == old(broadcast.tracks)
    {
      var pts := Pts(hint, now);
      if track.None? {
        return Err(NotInitialized);
      }
      var payload := DrainChunks(buf);
      broadcast.AppendGroup(track.value, Frame(pts, true, payload));
      return Ok(());
    }

    /** Teardown: removes the track's catalog entry if a track was created. */
    method Drop()
      modifies this, broadcast
      ensures track == None
      ensures broadcast.catalog ==
        if old(track).Some? then old(broadcast.catalog) - {old(track).value.name} else old(broadcast.catalog)
      ensures broadcast.tracks == old(broadcast.tracks) && broadcast.groups == old(broadcast.groups)
    {
      if track.Some? {
        var t := track.value;
        track := None;
        broadcast.RemoveAudio(t.name);
      }
    }
  }
}
