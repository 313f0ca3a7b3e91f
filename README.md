# hang media import: byte-stream demuxing and codec configuration

This project models the import layer of the `hang` crate (`rs/hang/src/import`).
That layer turns raw media bytes handed over by a caller into tracks, catalog
entries and frames of a broadcast. It has four parts:

- **Annex-B scanning** (`annexb.dfy`). This is the byte stream format of Annex B
  of ITU-T H.264 and of ITU-T H.265. It covers three things:
  - measuring the start code at the head of a buffer (`AfterStartCode`);
  - the skipping search for the next start code (`FindStartCode`), proved equal
    to a byte-by-byte reference scan (`NaiveScan`);
  - the NAL iterator (`NalIterator`), a class over the caller's buffer with the
    cached start-code length as its only state. `Next` is proved against the
    step function `NextNal`, and lemmas about `NextNal` state what a step
    yields and leaves behind.
- **AAC** (`aac.dfy`). It has two parts:
  - The AudioSpecificConfig parser, as a pure function (`ParseConfig`). It
    returns the result and the number of bytes consumed. The imperative reader
    (`ReadConfig`) consumes the caller's buffer exactly as that function says.
    An encoder for the same bit layout (`EncodeConfig`) gives the round-trip
    lemma.
  - The decoder lifecycle, as class `Aac`: initialize, timestamp, decode and
    drop.
- **Opus** (`opus.dfy`). This is the OpusHead parser of section 5.1 of RFC 7845,
  handled the same way as AAC, plus class `Opus` with the same lifecycle.
- **The facade** (`decoder.dfy`). It covers:
  - format names, their parsing and their display;
  - class `Decoder`, which fixes its importer at construction and dispatches
    to it.

### Modelling choices

- **Byte buffers.** A byte is an integer from 0 to 255 (`Bytes.byte`). The
  caller's `bytes::Buf` cursor is class `Bytes.Buf`, whose `bytes` field holds
  what remains. `get_u8`, `get_u64`, `get_u32_le`, `advance` and
  `copy_to_bytes` reassign that field; `chunk` only reads it.
- **Bit fields.** The AAC shifts and masks on `u8` are written as division and
  remainder by powers of two. The `|` of two fields whose bits are disjoint is
  written as a sum.
- **Transport and catalog.** Class `Media.Broadcast` stands in for both. It
  records three things:
  - the audio catalog entries, as a map from track name to config and
    priority;
  - the tracks created, in order;
  - the groups appended, each holding one frame.
- **Clock.** The wall clock is a parameter `now` in microseconds. Each decoder
  latches its first reading (`Media.Latch`), and timestamps are the time elapsed
  since then (`Media.ResolvePts`).
- **Other importers.** The H.264 (avc3), H.265 (hev1) and fMP4 importers are
  not part of this model. Class `Delegated.External` stands in for them.
  It consumes some prefix of the buffer, may become initialized, and either
  succeeds or fails; nothing more is known about it.
- **Repeated `initialize`.** Nothing stops `initialize` from being called
  twice on one AAC or Opus decoder, and this is modelled as the code does it.
  Each successful call appends another track and adds a catalog entry under
  that track's name. The first entry stays, unless the broadcast hands out the
  same name again. The decoder keeps only the latest track, so `Drop` removes
  only the latest entry.

### Details of the Rust code that the model keeps

- **Escaped AAC object type.** On the escaped path (object type 31),
  `Aac::initialize` reads two bytes after the first: the extension byte and
  the byte holding the rest of the channel configuration
  (`rs/hang/src/import/aac.rs:40-57`). Only then does it read the sample rate.
- **Explicit sample rate.** With frequency index 15, the 24-bit explicit rate
  is read byte-aligned, after the header bytes
  (`rs/hang/src/import/aac.rs:61`, `:84` and `:178-181`). ISO/IEC 14496-3
  instead bit-packs it right after the frequency index.
- **Track before catalog entry.** `Aac::initialize` and `Opus::initialize`
  create the track first. They then insert the catalog entry under the
  track's name and set its priority (`rs/hang/src/import/aac.rs:116-120`,
  `rs/hang/src/import/opus.rs:62-66`).

## Model

| member | source | states |
|---|---|---|
| AnnexB.AfterStartCode | rs/hang/src/import/annexb.rs:56-72 | no answer exactly when fewer than 3 bytes or `00 00 00`; 3 exactly for a `00 00 01` head; 4 exactly for a `00 00 00 01` head; the "invalid" error exactly for `00 00 x` with x > 1; every other case is the "missing" error |
| AnnexB.AfterStartCodeOfCode | rs/hang/src/import/annexb.rs:56-72 | a buffer that begins with an n-byte start code measures n, whatever follows |
| AnnexB.ScanSkip | rs/hang/src/import/annexb.rs:93-131 | skipping positions where no `00 00 01` starts does not change the scan's answer |
| AnnexB.ScanFromFindsFirst | rs/hang/src/import/annexb.rs:75-135 | the reference scan from i is None exactly when no `00 00 01` occurs at or after i; otherwise it reports the first occurrence j, as (j-1, 4) when the byte before j is zero and as (j, 3) otherwise |
| AnnexB.NaiveScanFindsFirst | rs/hang/src/import/annexb.rs:75-135 | the reference scan of the whole buffer is None exactly when `00 00 01` occurs nowhere; otherwise it is the first occurrence, widened to a 4-byte code when preceded by zero |
| AnnexB.NaiveScanIsStartCode | rs/hang/src/import/annexb.rs:103-122 | any result (off, n) has n = 3 or 4 and off + n within the buffer, and the bytes at off are exactly that start code |
| AnnexB.SkipOne | rs/hang/src/import/annexb.rs:97-116 | with a zero third byte no `00 00 01` begins at the cursor, so skipping 1 byte keeps the scan's answer |
| AnnexB.SkipThree | rs/hang/src/import/annexb.rs:118-130 | with a third byte above 1, or a third byte 1 not preceded by `00`, no `00 00 01` begins in the next 3 positions |
| AnnexB.SkipFour | rs/hang/src/import/annexb.rs:97-113 | with `? x 0 1` (x non-zero) or `? ? 0 y` (y above 1), no `00 00 01` begins in the next 4 positions |
| AnnexB.FindStartCode | rs/hang/src/import/annexb.rs:75-135 | the skipping loop (1, 3 or 4 bytes per step) terminates and returns exactly the reference scan's answer |
| AnnexB.ScanExamples | rs/hang/src/import/annexb.rs:193-265 | the edge cases of the `find_start_code` tests: a 3-byte code after data, a 4-byte code after a non-zero byte, `00 00` not followed by `01`, a run of zeros, trailing zeros with no code |
| AnnexB.SplitAtStartCode | rs/hang/src/import/annexb.rs:46-51 | when a following start code is found, what lies before it holds no `00 00 01`, and the remainder is measured as that start code |
| AnnexB.NextNal | rs/hang/src/import/annexb.rs:37-52 | one iterator step never grows the buffer; a step that yields a NAL unit also drops the start code before it, so the buffer shrinks by at least the unit plus 3 bytes |
| AnnexB.NextNalYields | rs/hang/src/import/annexb.rs:37-52 | a step that yields a NAL unit splits the old buffer as start code ++ unit ++ new buffer; the unit holds no `00 00 01`; the cached length is that of the start code now heading the buffer |
| AnnexB.NextNalStalls | rs/hang/src/import/annexb.rs:38-46 | a step that yields nothing or an error leaves the buffer and the cache unchanged; an error arises only without a cached start and with an invalid head |
| AnnexB.IteratorExampleFirst | rs/hang/src/import/annexb.rs:293-308 | the multi-NAL stream yields `67 42` first and caches a 4-byte code |
| AnnexB.IteratorExampleSecond | rs/hang/src/import/annexb.rs:293-308 | it then yields `68 CE` |
| AnnexB.IteratorExampleLast | rs/hang/src/import/annexb.rs:293-308 | it then yields nothing, leaving the final start code in the buffer |
| AnnexB.EmptyNalExample | rs/hang/src/import/annexb.rs:386-402 | two adjacent start codes yield one zero-length NAL unit |
| AnnexB.InvalidHeadExample | rs/hang/src/import/annexb.rs:375-384 | a buffer not headed by a start code yields an error and is left intact |
| AnnexB.NalIterator.constructor | rs/hang/src/import/annexb.rs:12-14 | a new iterator borrows the buffer with nothing cached |
| AnnexB.NalIterator.Next | rs/hang/src/import/annexb.rs:37-52 | returns the item of the step function and leaves its buffer and cache; keeps the invariant that a cached length is the start code heading the buffer |
| AnnexB.NalIterator.Flush | rs/hang/src/import/annexb.rs:18-31 | an invalid head (nothing cached) is an error and an undecidable head gives nothing, both with the buffer unchanged; otherwise it returns every byte after the 3- or 4-byte start code and empties the buffer |
| Bytes.BeUintBound | rs/hang/src/import/aac.rs:178-181 | an n-byte big-endian value is below 256^n, so the explicit rate is below 2^24 |
| Bytes.BeUintOfBeBytes | rs/hang/src/import/aac.rs:178-181 | reading back the n-byte big-endian encoding of v < 256^n gives v |
| Bytes.BeBytesOfBeUint | rs/hang/src/import/opus.rs:31-33 | re-encoding a big-endian value gives back its bytes |
| Bytes.BeUintInjective | rs/hang/src/import/opus.rs:31-33 | two byte strings of one length with equal big-endian values are equal |
| Bytes.BeUintSnoc | rs/hang/src/import/aac.rs:180-181 | appending a byte multiplies the big-endian value by 256 and adds the byte, as the shifts and `|` do |
| Bytes.LeUintBound | rs/hang/src/import/opus.rs:38 | an n-byte little-endian value is below 256^n |
| Bytes.LeUintOfLeBytes | rs/hang/src/import/opus.rs:38 | reading back the n-byte little-endian encoding of v < 256^n gives v |
| Bytes.DrainChunks | rs/hang/src/import/aac.rs:131-135 | draining the buffer chunk by chunk gives exactly the remaining bytes, in order, and leaves it empty (also `rs/hang/src/import/opus.rs:77-81`) |
| Media.ResolvePts | rs/hang/src/import/aac.rs:154-161 | a hint is the timestamp; without one, the timestamp never exceeds the clock reading, the first wall-clock timestamp is 0, and later ones are the time since the latched reading |
| Media.WallClockMonotonic | rs/hang/src/import/aac.rs:154-161 | once latched the reference never moves, and wall-clock timestamps never decrease while the clock does not |
| AacImport.ChannelCountFromConfig | rs/hang/src/import/aac.rs:190-199 | never fails and lies in 1..7; configurations 1..7 are the count itself, 0 and 8..15 give 2 |
| AacImport.SampleRateFromIndex | rs/hang/src/import/aac.rs:173-188 | indices 0..12 give the 13-entry table without consuming; 15 takes the next 3 bytes as a big-endian rate below 2^24, or fails when fewer remain; 13, 14 and above are unsupported |
| AacImport.ReadSampleRate | rs/hang/src/import/aac.rs:173-188 | the buffer-reading version returns that result and consumes exactly what it says |
| AacImport.ObjectTypeBits | rs/hang/src/import/aac.rs:35 | the 5-bit object type is below 32 |
| AacImport.StandardFreqIndex | rs/hang/src/import/aac.rs:72-79 | the 4-bit frequency index of a standard header is below 16 |
| AacImport.StandardChannelConfig | rs/hang/src/import/aac.rs:82 | the 4-bit channel configuration of a standard header is below 16 |
| AacImport.EscapedObjectType | rs/hang/src/import/aac.rs:48 | the 6 bits after the escape value are below 64 |
| AacImport.EscapedFreqIndex | rs/hang/src/import/aac.rs:51 | the frequency index of an escaped header is below 16 |
| AacImport.EscapedChannelConfig | rs/hang/src/import/aac.rs:53-59 | the channel configuration of an escaped header is below 16 |
| AacImport.FinishConfig | rs/hang/src/import/aac.rs:61-69 | after the header: on success the profile is kept, the channel count is 1..7, the rate is below 2^24 and every byte is consumed |
| AacImport.ParseConfig | rs/hang/src/import/aac.rs:23-97 | fewer than 2 bytes fail without consuming; an escaped type with only 2 bytes fails after 1; success consumes the whole buffer, gives 1..7 channels, a rate below 2^24, and a profile equal to `b0 >> 3` (below 31) or in 32..95 for the escape |
| AacImport.StandardHeaderFields | rs/hang/src/import/aac.rs:34-82 | the parser reads back the object type, frequency index and channel configuration of an encoded standard header, whatever its 3 skipped bits |
| AacImport.EscapedFirstByte | rs/hang/src/import/aac.rs:48 | the first escaped byte carries the escape value 31 and the top 3 extension bits |
| AacImport.EscapedSecondByte | rs/hang/src/import/aac.rs:48-53 | the extension byte carries the low 3 extension bits, the frequency index and the top channel bit |
| AacImport.EscapedHeaderFields | rs/hang/src/import/aac.rs:39-59 | the parser reads back the escape, the 6-bit extension, the frequency index and the channel configuration of an encoded escaped header, whatever its 5 skipped bits |
| AacImport.ParseEncodedHeader | rs/hang/src/import/aac.rs:34-82 | parsing an encoded config reduces to the sample-rate step after its 2- or 3-byte header |
| AacImport.StandardBytes | rs/hang/src/import/aac.rs:34-82 | the two bytes of a standard header are rebuilt from the fields the parser extracts plus the 3 bits it skips |
| AacImport.EscapedBytes | rs/hang/src/import/aac.rs:39-59 | the three bytes of an escaped header are rebuilt from the fields the parser extracts plus the 5 bits it skips |
| AacImport.RateAndExtension | rs/hang/src/import/aac.rs:61-94 | what follows an accepted header is the explicit rate (index 15 only) followed by the extension bytes |
| AacImport.StandardIsEncoding | rs/hang/src/import/aac.rs:70-96 | every accepted standard config is the encoding of its own fields |
| AacImport.EscapedIsEncoding | rs/hang/src/import/aac.rs:39-69 | every accepted escaped config is the encoding of its own fields |
| AacImport.ParsedConfigIsEncoding | rs/hang/src/import/aac.rs:23-97 | every config the parser accepts is the encoding of fields with the parsed profile: the round trip covers every accepted input |
| AacImport.ParseEncodedConfig | rs/hang/src/import/aac.rs:23-97 | round trip: an encoded config parses back to its profile, its table or explicit rate and its channel count, consuming everything whatever the skipped header bits and the extension bytes; indices 13 and 14 are refused after the header |
| AacImport.ParseConfigExample | rs/hang/src/import/aac.rs:72-85 | `12 10` is profile 2, 44100 Hz, stereo, and so is `12 11`, whose skipped flag bit is ignored |
| AacImport.ReadRest | rs/hang/src/import/aac.rs:61-69 | the buffer-reading tail returns what the pure tail says and consumes what it consumes |
| AacImport.ReadConfig | rs/hang/src/import/aac.rs:24-97 | reading the config from the caller's buffer returns the pure parse's result and consumes exactly the bytes it consumed |
| AacImport.Aac.constructor | rs/hang/src/import/aac.rs:15-21 | a new decoder has no track and no latched clock |
| AacImport.Aac.Initialize | rs/hang/src/import/aac.rs:23-125 | the buffer advances as the parse says; on failure the track and broadcast are unchanged; on success the buffer is empty and the decoder is initialized with a priority-2 track appended to the broadcast; the track's catalog entry, at priority 2, is AAC with the parsed profile, rate and channel count in the Legacy container, with no bitrate, description or minimum buffer (aac.rs:104-120) |
| AacImport.Aac.Pts | rs/hang/src/import/aac.rs:154-161 | a hint is returned unchanged and leaves the clock alone; without one the first reading is latched and the time since it is returned |
| AacImport.Aac.Decode | rs/hang/src/import/aac.rs:127-148 | the timestamp is resolved first; without a track it fails with the buffer and broadcast unchanged; with one it drains the buffer into exactly one keyframe whose payload is the old buffer, appended as one new group |
| AacImport.Aac.Drop | rs/hang/src/import/aac.rs:164-171 | the catalog entry is removed if and only if a track was set, and the track is cleared |
| OpusImport.ParseHead | rs/hang/src/import/opus.rs:30-43 | fewer than 19 bytes fail before any signature check; a wrong signature fails after 8 bytes; otherwise the channel count is byte 9, the rate the little-endian bytes 12..15, and the whole buffer is consumed |
| OpusImport.SignatureMatches | rs/hang/src/import/opus.rs:31-33 | comparing the first 8 bytes as a big-endian u64 with the constant is comparing them with `OpusHead` |
| OpusImport.ParseEncodedHead | rs/hang/src/import/opus.rs:30-43 | round trip: an encoded header parses back to its channel count and rate whatever the version and pre-skip, consuming everything |
| OpusImport.BadSignatureRejected | rs/hang/src/import/opus.rs:31-33 | changing any signature byte makes the parse fail with the signature error, even with 19 bytes present |
| OpusImport.ParseHeadExample | rs/hang/src/import/opus.rs:36-38 | rate bytes `80 3E 00 00` read as 16000 |
| OpusImport.ReadHead | rs/hang/src/import/opus.rs:30-43 | reading the header from the caller's buffer returns the pure parse's result and consumes exactly the bytes it consumed |
| OpusImport.Opus.constructor | rs/hang/src/import/opus.rs:15-21 | a new decoder has no track and no latched clock |
| OpusImport.Opus.Initialize | rs/hang/src/import/opus.rs:23-71 | the buffer advances as the parse says; on failure nothing else changes; on success the buffer is empty and the decoder is initialized with a priority-2 track appended to the broadcast; its catalog entry, at priority 2, is Opus with the parsed rate and channel count in the Legacy container, with no bitrate, description or minimum buffer (opus.rs:45-66) |
| OpusImport.Opus.Pts | rs/hang/src/import/opus.rs:100-107 | a hint is returned unchanged; without one the first reading is latched and the time since it is returned |
| OpusImport.Opus.Decode | rs/hang/src/import/opus.rs:73-94 | not initialized fails with everything unchanged but the latch; otherwise the whole buffer becomes exactly one keyframe in one new group |
| OpusImport.Opus.Drop | rs/hang/src/import/opus.rs:110-117 | the catalog entry is removed if and only if a track was set |
| Import.FromStr | rs/hang/src/import/decoder.rs:36-53 | succeeds exactly for the canonical names and aliases, giving the format the name belongs to; anything else is `UnknownFormat` carrying the exact input |
| Import.Display | rs/hang/src/import/decoder.rs:56-69 | a format displays as its canonical name |
| Import.NamesDisjoint | rs/hang/src/import/decoder.rs:36-53 | no name is accepted for two formats |
| Import.FromStrAccepts | rs/hang/src/import/decoder.rs:36-53 | every canonical name and alias parses to its own format |
| Import.FromStrDisplay | rs/hang/src/import/decoder.rs:36-69 | parsing a displayed format gives the format back |
| Import.DisplayFromStr | rs/hang/src/import/decoder.rs:36-69 | parsing then displaying gives back the input exactly when it was not an alias (`h264`, `annex-b`, `cmaf`) |
| Import.AliasesAndCase | rs/hang/src/import/decoder.rs:39-51 | `h264` and `annex-b` display as `avc3`, `cmaf` as `fmp4`, and `AAC` is unknown: matching is case-sensitive |
| Import.Decoder.constructor | rs/hang/src/import/decoder.rs:96-109 | the importer's format is the requested one, on the given broadcast, freshly created and not initialized; it is a constant, so no later call changes it |
| Import.Decoder.Initialize | rs/hang/src/import/decoder.rs:111-132 | success implies an empty buffer; for AAC and Opus the result, the consumed bytes and initialization are exactly the parser's, and the broadcast is populated as their `initialize` does it (a new priority-2 track and its catalog entry on success, nothing on failure); for the others failures are the importer's or "not fully consumed" |
| Import.Decoder.DecodeStream | rs/hang/src/import/decoder.rs:147-161 | AAC and Opus always fail, without touching the buffer, the decoder or the broadcast; the others only consume a prefix |
| Import.Decoder.DecodeFrame | rs/hang/src/import/decoder.rs:173-190 | for AAC and Opus it is their `decode` with the given timestamp; the others only consume a prefix |

## Left out

- Delegated.External.Feed: the H.264, H.265 and fMP4 importers are not part of this model. All that is stated of them is that they consume a prefix of the buffer, may become initialized, and fail with their own error. The timestamp hint passed to them and their effects on the catalog and tracks are not modelled.
- Import.Decoder.DecodeStream: for the avc3, hev1 and fMP4 importers it states no more than `Delegated.External.Feed` does.
- Import.Decoder.DecodeFrame: for the avc3, hev1 and fMP4 importers it states no more than `Delegated.External.Feed` does.
- The catalog lock (`catalog.lock()`) is not modelled. Everything here is sequential, so the insert and the priority update are one step.
- `tracing` output is left out: the deprecated-alias warning, the defaulted channel configuration warning, and the start and end of tracks.
- `Timestamp::from_micros` overflow is not modelled: timestamps are unbounded naturals. The real clock (`tokio::time::Instant`) is replaced by the `now` parameter.
- The failure of `Frame::encode` into a group is not modelled: appending a frame always succeeds.
- `BufList` chunking is left out: the payload is the sequence of drained bytes. Chunk boundaries are arbitrary non-empty prefixes (`Bytes.Buf.Chunk`).
- The broadcast's track naming scheme (`track_name`) is not modelled: `Media.Broadcast.TrackName` promises nothing about the name.
- Feature gates are all taken as enabled, so every format exists.
- The checks at `rs/hang/src/import/aac.rs:56` and `:75` are not modelled as branches: the earlier length checks make them always pass.
- `rs/hang/src/import/mod.rs` is module wiring only. The `hang` error type is reduced to the error cases this layer raises.
- `Decoder::is_initialized` and the importers' `is_initialized` are predicates whose bodies are the variant's or the track's state. No lemma is stated about them beyond the methods' contracts.
