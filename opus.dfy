/** Raw Opus import: the OpusHead identification header of section 5.1 of
    RFC 7845 (Ogg encapsulation is not supported) and the Opus decoder's
    lifecycle, which is the same as the AAC decoder's. */
module OpusImport {
  import opened Errors
  import opened Bytes
  import opened Media

  /** The ASCII magic signature `OpusHead`. */
  const OPUS_MAGIC: seq<byte> := [0x4F, 0x70, 0x75, 0x73, 0x48, 0x65, 0x61, 0x64]

  /** The magic signature read as a big-endian 64-bit integer. */
  const OPUS_HEAD: nat := BeUint(OPUS_MAGIC)

  /** The fixed part of an OpusHead is 19 bytes long. */
  const HEAD_LEN: nat := 19

  /** What the parser keeps of the header: the output channel count (byte 9)
      and the input sample rate (little-endian bytes 12 to 15). */
  datatype OpusHead = OpusHead(channelCount: nat, sampleRate: nat)

  /** The OpusHead parse of `Opus::initialize` and how much of `s` it consumes. The
      signature is compared as a 64-bit integer; the version, the pre-skip,
      the output gain and the channel mapping are skipped unread, and any
      bytes past the fixed header are consumed too. */
  function ParseHead(s: seq<byte>): (p: Parsed<OpusHead>)
    ensures p.consumed <= |s|
    ensures |s| < HEAD_LEN ==> p == Parsed(Err(OpusHeadTooShort), 0)
    ensures |s| >= HEAD_LEN && s[..8] != OPUS_MAGIC ==> p == Parsed(Err(InvalidOpusSignature), 8)
    ensures |s| >= HEAD_LEN && s[..8] == OPUS_MAGIC ==>
      p == Parsed(Ok(OpusHead(s[9] as nat, LeUint(s[12..16]))), |s|)
    ensures p.result.Ok? ==> p.result.value.channelCount < 256 && p.result.value.sampleRate < Pow256(4)
  {
    if |s| < HEAD_LEN then Parsed(Err(OpusHeadTooShort), 0)
    else if BeUint(s[..8]) != OPUS_HEAD then
      Parsed(Err(InvalidOpusSignature), 8)
    else
      SignatureMatches(s[..8]);
      LeUintBound(s[12..16]);
      Parsed(Ok(OpusHead(s[9] as nat, LeUint(s[12..16]))), |s|)
  }

  /** Comparing the first eight bytes as a big-endian integer against
      `OPUS_HEAD` is comparing them with the magic bytes. */
  lemma SignatureMatches(sig: seq<byte>)
    requires |sig| == 8
    ensures BeUint(sig) == OPUS_HEAD <==> sig == OPUS_MAGIC
  {
    if BeUint(sig) == OPUS_HEAD {
      BeUintInjective(sig, OPUS_MAGIC);
    }
  }

  /** An OpusHead with the given version, channel count, pre-skip, sample
      rate and trailing bytes (output gain, mapping family, and anything
      beyond). */
  function EncodeHead(version: byte, channelCount: byte, preSkip: nat, sampleRate: nat, trailer: seq<byte>): (s: seq<byte>)
    requires preSkip < Pow256(2) && sampleRate < Pow256(4)
    ensures |s| == 16 + |trailer|
  {
    OPUS_MAGIC + [version, channelCount] + LeBytes(preSkip, 2) + LeBytes(sampleRate, 4) + trailer
  }

  /** Parsing an encoded header recovers the channel count and the sample
      rate, whatever the version and pre-skip, and consumes the whole buffer
      provided the fixed 19 bytes are there. */
  lemma ParseEncodedHead(version: byte, channelCount: byte, preSkip: nat, sampleRate: nat, trailer: seq<byte>)
    requires preSkip < Pow256(2) && sampleRate < Pow256(4)
    requires |trailer| >= 3
    ensures var s := EncodeHead(version, channelCount, preSkip, sampleRate, trailer);
      ParseHead(s) == Parsed(Ok(OpusHead(channelCount as nat, sampleRate)), |s|)
  {
    var s := EncodeHead(version, channelCount, preSkip, sampleRate, trailer);
    assert s[..8] == OPUS_MAGIC;
    assert s[9] == channelCount;
    assert s[12..16] == LeBytes(sampleRate, 4);
    LeUintOfLeBytes(sampleRate, 4);
  }

  /** Changing any byte of the signature makes the parse fail with the
      signature error, having consumed exactly the signature. */
  lemma BadSignatureRejected(s: seq<byte>, i: nat, b: byte)
    requires |s| >= HEAD_LEN && s[..8] == OPUS_MAGIC
    requires i < 8 && b != s[i]
    ensures ParseHead(s[i := b]) == Parsed(Err(InvalidOpusSignature), 8)
  {
    assert s[i := b][..8][i] != OPUS_MAGIC[i];
  }

  /** A stereo 16 kHz header: rate bytes `80 3E 00 00` read as 16000. */
  lemma ParseHeadExample()
    ensures ParseHead(OPUS_MAGIC + [1, 2, 0x38, 0x01, 0x80, 0x3E, 0x00, 0x00, 0, 0, 0])
      == Parsed(Ok(OpusHead(2, 16000)), 19)
  {
    var s := OPUS_MAGIC + [1, 2, 0x38, 0x01, 0x80, 0x3E, 0x00, 0x00, 0, 0, 0];
    assert s[..8] == OPUS_MAGIC;
    assert s[12..16] == [0x80, 0x3E, 0x00, 0x00];
    assert LeUint([0x80, 0x3E, 0x00, 0x00]) == 0x80 + 256 * LeUint([0x3E, 0x00, 0x00]);
    assert [0x80, 0x3E, 0x00, 0x00][1..] == [0x3E, 0x00, 0x00];
    assert [0x3E, 0x00, 0x00][1..] == [0x00, 0x00] && [0x00, 0x00][1..] == [0x00] && [0x00][1..] == [];
  }

  /** The catalog entry for a parsed header. */
  function CatalogConfig(h: OpusHead): AudioConfig
  {
    LegacyAudio(AudioCodec.Opus, h.sampleRate, h.channelCount)
  }

  /** The parsing half of `Opus::initialize`, reading from the caller's buffer
      as the Rust code does: it consumes what `ParseHead` says and yields its
      result. */
  method ReadHead(buf: Buf) returns (r: Result<OpusHead>)
    modifies buf
    ensures var p := ParseHead(old(buf.bytes));
      r == p.result && buf.bytes == old(buf.bytes)[p.consumed..]
  {
    if buf.Remaining() < HEAD_LEN {
      return Err(OpusHeadTooShort);
    }
    ghost var s := buf.bytes;
    var signature := buf.GetU64();
    if signature != OPUS_HEAD {
      return Err(InvalidOpusSignature);
    }
    buf.Advance(1); // version
    var channelCount := buf.GetU8();
    buf.Advance(2); // pre-skip
    assert buf.bytes == s[12..];
    var sampleRate := buf.GetU32Le();
    assert s[12..][..4] == s[12..16];
    // output gain and channel mapping
    if buf.Remaining() > 0 {
      buf.Advance(buf.Remaining());
    }
    return Ok(OpusHead(channelCount as nat, sampleRate));
  }

  /** The Opus decoder: it owns at most one audio track of the broadcast. */
  class Opus {
    const broadcast: Broadcast
    var track: Option<Track>
    var zero: Option<Instant>

    constructor (broadcast: Broadcast)
      ensures this.broadcast == broadcast && track == None && zero == None
    {
      this.broadcast := broadcast;
      track := None;
      zero := None;
    }

    predicate IsInitialized()
      reads this
    {
      track.Some?
    }

    /** Parses the OpusHead at the head of `buf`. On success the whole buffer
        is consumed, a priority-2 track is created, its catalog entry is
        inserted and the decoder is initialized; on failure the buffer is left
        where the parse stopped and nothing else changes. */
    method Initialize(buf: Buf) returns (r: Result<()>)
      modifies this, buf, broadcast
      ensures var p := ParseHead(old(buf.bytes));
        && buf.bytes == old(buf.bytes)[p.consumed..]
        && zero == old(zero)
        && (p.result.Err? ==>
              && r == Err(p.result.error)
              && track == old(track)
              && unchanged(broadcast))
        && (p.result.Ok? ==>
              && r == Ok(())
              && buf.bytes == []
              && IsInitialized()
              && track.value.priority == 2
              && broadcast.tracks == old(broadcast.tracks) + [track.value]
              && broadcast.catalog == old(broadcast.catalog)[track.value.name := AudioRendition(CatalogConfig(p.result.value), 2)]
              && broadcast.groups == old(broadcast.groups))
    {
      var head := ReadHead(buf);
      if head.Err? {
        return Err(head.error);
      }
      var name := broadcast.TrackName("audio");
      var t := broadcast.CreateTrack(Track(name, 2));
      broadcast.InsertAudio(t.name, CatalogConfig(head.value), 2);
      track := Some(t);
      return Ok(());
    }

    /** The frame timestamp: the hint if given, otherwise the time elapsed
        since the first wall-clock timestamp this decoder handed out. */
    method Pts(hint: Option<Timestamp>, now: Instant) returns (ts: Timestamp)
      modifies this
      ensures ts == ResolvePts(hint, old(zero), now)
      ensures zero == if hint.Some? then old(zero) else Some(Latch(old(zero), now))
      ensures track == old(track)
    {
      if hint.Some? {
        return hint.value;
      }
      if zero.None? {
        zero := Some(now);
      }
      return Elapsed(zero.value, now);
    }

    /** Publishes the whole buffer as one keyframe in one new group. The
        timestamp is resolved first, so a call without a hint latches the
        wall-clock reference even when it then fails as not initialized. */
    method Decode(buf: Buf, hint: Option<Timestamp>, now: Instant) returns (r: Result<()>)
      modifies this, buf, broadcast
      ensures track == old(track)
      ensures zero == if hint.Some? then old(zero) else Some(Latch(old(zero), now))
      ensures old(track).None? ==>
        r == Err(NotInitialized) && buf.bytes == old(buf.bytes) && unchanged(broadcast)
      ensures old(track).Some? ==>
        && r == Ok(())
        && buf.bytes == []
        && broadcast.groups == old(broadcast.groups) +
             [Group(old(track).value.name, Frame(ResolvePts(hint, old(zero), now), true, old(buf.bytes)))]
        && broadcast.catalog == old(broadcast.catalog)
        && broadcast.tracks == old(broadcast.tracks)
    {
      var pts := Pts(hint, now);
      if track.None? {
        return Err(NotInitialized);
      }
      var payload := DrainChunks(buf);
      broadcast.AppendGroup(track.value, Frame(pts, true, payload));
      return Ok(());
    }

    /** Teardown: removes the track's catalog entry if a track was created. */
    method Drop()
      modifies this, broadcast
      ensures track == None
      ensures broadcast.catalog ==
        if old(track).Some? then old(broadcast.catalog) - {old(track).value.name} else old(broadcast.catalog)
      ensures broadcast.tracks == old(broadcast.tracks) && broadcast.groups == old(broadcast.groups)
    {
      if track.Some? {
        var t := track.value;
        track := None;
        broadcast.RemoveAudio(t.name);
      }
    }
  }
}
