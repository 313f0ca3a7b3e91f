/** The values this layer publishes (timestamps, frames, audio catalog
    entries) and a stand-in for the broadcast it publishes them on. The
    transport and the catalog are external: the broadcast here only records
    what the decoders ask of it. */
module Media {
  import opened Errors
  import opened Bytes

  /** A media timestamp in microseconds. */
  type Timestamp = nat

  /** A reading of the monotonic wall clock, in microseconds. */
  type Instant = nat

  /** One timestamped media unit; written into exactly one group. */
  datatype Frame = Frame(timestamp: Timestamp, keyframe: bool, payload: seq<byte>)

  datatype AudioCodec = AAC(profile: nat) | Opus

  datatype Container = Legacy

  /** The catalog's description of an audio track. */
  datatype AudioConfig = AudioConfig(
    codec: AudioCodec,
    sampleRate: nat,
    channelCount: nat,
    bitrate: Option<nat>,
    description: Option<seq<byte>>,
    container: Container,
    minBuffer: Option<nat>)

  /** A catalog entry: the config and the priority set on it after insertion. */
  datatype AudioRendition = AudioRendition(config: AudioConfig, priority: nat)

  /** A track handle: its name and delivery priority, fixed at creation. */
  datatype Track = Track(name: string, priority: nat)

  /** A group appended to the named track, holding one encoded frame. */
  datatype Group = Group(track: string, frame: Frame)

  /** The legacy-container audio config with every optional field absent. */
  function LegacyAudio(codec: AudioCodec, sampleRate: nat, channelCount: nat): AudioConfig
  {
    AudioConfig(codec, sampleRate, channelCount, None, None, Legacy, None)
  }

  /** The reference instant of a decoder after asking for a wall-clock
      timestamp at `now`: the first reading is latched, later ones are not. */
  function Latch(zero: Option<Instant>, now: Instant): Instant
  {
    if zero.Some? then zero.value else now
  }

  /** Time elapsed since `zero`; the monotonic clock saturates at zero. */
  function Elapsed(zero: Instant, now: Instant): Timestamp
  {
    if now >= zero then now - zero else 0
  }

  /** The timestamp given to a frame: the caller's hint when there is one,
      otherwise the wall-clock time since the latched reference instant. */
  function ResolvePts(hint: Option<Timestamp>, zero: Option<Instant>, now: Instant): (ts: Timestamp)
    ensures hint.Some? ==> ts == hint.value
    ensures hint.None? ==> ts <= now
    ensures hint.None? && zero.None? ==> ts == 0
    ensures hint.None? && zero.Some? && zero.value <= now ==> ts + zero.value == now
  {
    if hint.Some? then hint.value else Elapsed(Latch(zero, now), now)
  }

  /** Once latched, the reference instant never moves, so wall-clock
      timestamps of one decoder never decrease while the clock does not. */
  lemma WallClockMonotonic(zero: Option<Instant>, now1: Instant, now2: Instant)
    requires now1 <= now2
    ensures Latch(Some(Latch(zero, now1)), now2) == Latch(zero, now1)
    ensures ResolvePts(None, Some(Latch(zero, now1)), now2) >= ResolvePts(None, zero, now1)
  {
  }

  /** The broadcast a decoder publishes into: the audio section of its
      catalog, the tracks created on it and the groups appended to them. */
  class Broadcast {
    var catalog: map<string, AudioRendition>
    var tracks: seq<Track>
    var groups: seq<Group>

    constructor ()
      ensures catalog == map[] && tracks == [] && groups == []
    {
      catalog := map[];
      tracks := [];
      groups := [];
    }

    /** The broadcast's name for a new track of the given kind. Its naming
        scheme is not part of this model, so callers learn nothing about it. */
    method TrackName(kind: string) returns (name: string)
    {
      name := kind;
    }

    method CreateTrack(info: Track) returns (track: Track)
      modifies this
      ensures track == info
      ensures tracks == old(tracks) + [info]
      ensures catalog == old(catalog) && groups == old(groups)
    {
      track := info;
      tracks := tracks + [info];
    }

    /** Inserts an audio entry, then sets its priority (both under the catalog
        lock in the Rust code). */
    method InsertAudio(name: string, config: AudioConfig, priority: nat)
      modifies this
      ensures catalog == old(catalog)[name := AudioRendition(config, priority)]
      ensures tracks == old(tracks) && groups == old(groups)
    {
      catalog := catalog[name := AudioRendition(config, priority)];
    }

    method RemoveAudio(name: string)
      modifies this
      ensures catalog == old(catalog) - {name}
      ensures tracks == old(tracks) && groups == old(groups)
    {
      catalog := catalog - {name};
    }

    /** Opens a group on the track, writes the frame into it and closes it. */
    method AppendGroup(track: Track, frame: Frame)
      modifies this
      ensures groups == old(groups) + [Group(track.name, frame)]
      ensures catalog == old(catalog) && tracks == old(tracks)
    {
      groups := groups + [Group(track.name, frame)];
    }
  }
}
