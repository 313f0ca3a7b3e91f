/** The format-generic import facade: the format names accepted on the
    command line, and a decoder that dispatches to the importer of the format
    chosen at construction. */
module Import {
  import opened Errors
  import opened Bytes
  import opened Media
  import AacImport
  import OpusImport
  import Delegated

  /** The supported formats (every optional format enabled). */
  datatype DecoderFormat = Avc3 | Fmp4 | Hev1 | Aac | Opus

  /** The names under which a format is accepted: its canonical name first,
      then its aliases. */
  function Names(f: DecoderFormat): (names: seq<string>)
    ensures |names| >= 1
  {
    match f
    case Avc3 => ["avc3", "h264", "annex-b"]
    case Fmp4 => ["fmp4", "cmaf"]
    case Hev1 => ["hev1"]
    case Aac => ["aac"]
    case Opus => ["opus"]
  }

  /** Parses a format name: an exact, case-sensitive match against the
      canonical names and aliases; anything else is an unknown format that
      carries the input. */
  function FromStr(s: string): (r: Result<DecoderFormat>)
    ensures r.Ok? <==> exists f: DecoderFormat :: s in Names(f)
    ensures r.Ok? ==> s in Names(r.value)
    ensures r.Err? ==> r.error == UnknownFormat(s)
  {
    if s == "avc3" || s == "h264" || s == "annex-b" then
      assert s in Names(DecoderFormat.Avc3);
      Ok(DecoderFormat.Avc3)
    else if s == "hev1" then
      assert s in Names(DecoderFormat.Hev1);
      Ok(DecoderFormat.Hev1)
    else if s == "fmp4" || s == "cmaf" then
      assert s in Names(DecoderFormat.Fmp4);
      Ok(DecoderFormat.Fmp4)
    else if s == "aac" then
      assert s in Names(DecoderFormat.Aac);
      Ok(DecoderFormat.Aac)
    else if s == "opus" then
      assert s in Names(DecoderFormat.Opus);
      Ok(DecoderFormat.Opus)
    else
      assert forall f: DecoderFormat :: s !in Names(f);
      Err(UnknownFormat(s))
  }

  /** The canonical name of a format. */
  function Display(f: DecoderFormat): (s: string)
    ensures s == Names(f)[0]
  {
    match f
    case Avc3 => "avc3"
    case Fmp4 => "fmp4"
    case Hev1 => "hev1"
    case Aac => "aac"
    case Opus => "opus"
  }

  /** No name is accepted for two formats. */
  lemma NamesDisjoint(f: DecoderFormat, g: DecoderFormat, s: string)
    requires s in Names(f) && s in Names(g)
    ensures f == g
  {
  }

  /** Every accepted name parses to the format it names. */
  lemma {:induction false} FromStrAccepts(f: DecoderFormat, s: string)
    requires s in Names(f)
    ensures FromStr(s) == Ok(f)
  {
    NamesDisjoint(FromStr(s).value, f, s);
  }

  /** Displaying then parsing gives back the format. */
  lemma FromStrDisplay(f: DecoderFormat)
    ensures FromStr(Display(f)) == Ok(f)
  {
    FromStrAccepts(f, Display(f));
  }

  /** Parsing then displaying gives the canonical name: the input itself
      unless it was an alias, which is not restored. */
  lemma DisplayFromStr(s: string)
    requires FromStr(s).Ok?
    ensures Display(FromStr(s).value) == Names(FromStr(s).value)[0]
    ensures Display(FromStr(s).value) == s <==> s !in {"h264", "annex-b", "cmaf"}
  {
  }

  /** The H.264 aliases are accepted but display as `avc3`, and matching is
      case-sensitive. */
  lemma AliasesAndCase()
    ensures Display(FromStr("h264").value) == "avc3"
    ensures Display(FromStr("annex-b").value) == "avc3"
    ensures Display(FromStr("cmaf").value) == "fmp4"
    ensures FromStr("AAC") == Err(UnknownFormat("AAC"))
  {
  }

  /** The importer behind a generic decoder. */
  datatype DecoderKind =
    | Avc3(avc3: Delegated.External)
    | Fmp4(fmp4: Delegated.External)
    | Hev1(hev1: Delegated.External)
    | Aac(aac: AacImport.Aac)
    | Opus(opus: OpusImport.Opus)
  {
    function Format(): DecoderFormat
    {
      match this
      case Avc3(_) => DecoderFormat.Avc3
      case Fmp4(_) => DecoderFormat.Fmp4
      case Hev1(_) => DecoderFormat.Hev1
      case Aac(_) => DecoderFormat.Aac
      case Opus(_) => DecoderFormat.Opus
    }

    /** The importer object itself. */
    function Inner(): set<object>
    {
      match this
      case Avc3(d) => {d}
      case Fmp4(d) => {d}
      case Hev1(d) => {d}
      case Aac(d) => {d}
      case Opus(d) => {d}
    }

    function Broadcast(): Broadcast
    {
      match this
      case Avc3(d) => d.broadcast
      case Fmp4(d) => d.broadcast
      case Hev1(d) => d.broadcast
      case Aac(d) => d.broadcast
      case Opus(d) => d.broadcast
    }
  }

  /** A generic decoder. Its importer is fixed at construction, so its format
      never changes afterwards. */
  class Decoder {
    const decoder: DecoderKind

    constructor (broadcast: Broadcast, format: DecoderFormat)
      ensures decoder.Format() == format
      ensures decoder.Broadcast() == broadcast
      ensures fresh(decoder.Inner())
      ensures !IsInitialized()
    {
      match format
      case Avc3 =>
        var d := new Delegated.External(broadcast);
        decoder := DecoderKind.Avc3(d);
      case Fmp4 =>
        var d := new Delegated.External(broadcast);
        decoder := DecoderKind.Fmp4(d);
      case Hev1 =>
        var d := new Delegated.External(broadcast);
        decoder := DecoderKind.Hev1(d);
      case Aac =>
        var d := new AacImport.Aac(broadcast);
        decoder := DecoderKind.Aac(d);
      case Opus =>
        var d := new OpusImport.Opus(broadcast);
        decoder := DecoderKind.Opus(d);
    }

    /** Whether the active importer has seen enough to be initialized. */
    predicate IsInitialized()
      reads decoder.Inner()
    {
      match decoder
      case Avc3(d) => d.IsInitialized()
      case Fmp4(d) => d.IsInitialized()
      case Hev1(d) => d.IsInitialized()
      case Aac(d) => d.IsInitialized()
      case Opus(d) => d.IsInitialized()
    }

    /** Initializes the importer from `buf` (fMP4 is fed as a stream). It
        succeeds only when the importer succeeds and the buffer is then fully
        consumed; for AAC and Opus that is exactly when the config parses. */
    method Initialize(buf: Buf) returns (r: Result<()>)
      modifies buf, decoder.Inner(), decoder.Broadcast()
      ensures r.Ok? ==> buf.bytes == []
      ensures decoder.Aac? ==>
        var a, p := decoder.aac, AacImport.ParseConfig(old(buf.bytes));
        && r == (if p.result.Ok? then Ok(()) else Err(p.result.error))
        && buf.bytes == old(buf.bytes)[p.consumed..]
        && (IsInitialized() <==> old(IsInitialized()) || p.result.Ok?)
        && a.zero == old(a.zero)
        && (p.result.Err? ==> a.track == old(a.track) && unchanged(a.broadcast))
        && (p.result.Ok? ==>
              && a.track.Some? && a.track.value.priority == 2
              && a.broadcast.tracks == old(a.broadcast.tracks) + [a.track.value]
              && a.broadcast.catalog == old(a.broadcast.catalog)[a.track.value.name :=
                   AudioRendition(AacImport.CatalogConfig(p.result.value), 2)]
              && a.broadcast.groups == old(a.broadcast.groups))
      ensures decoder.Opus? ==>
        var o, p := decoder.opus, OpusImport.ParseHead(old(buf.bytes));
        && r == (if p.result.Ok? then Ok(()) else Err(p.result.error))
        && buf.bytes == old(buf.bytes)[p.consumed..]
        && (IsInitialized() <==> old(IsInitialized()) || p.result.Ok?)
        && o.zero == old(o.zero)
        && (p.result.Err? ==> o.track == old(o.track) && unchanged(o.broadcast))
        && (p.result.Ok? ==>
              && o.track.Some? && o.track.value.priority == 2
              && o.broadcast.tracks == old(o.broadcast.tracks) + [o.track.value]
              && o.broadcast.catalog == old(o.broadcast.catalog)[o.track.value.name :=
                   AudioRendition(OpusImport.CatalogConfig(p.result.value), 2)]
              && o.broadcast.groups == old(o.broadcast.groups))
      ensures !decoder.Aac? && !decoder.Opus? ==>
        && (r.Err? ==> r.error in {Delegated, NotFullyConsumed})
        && |buf.bytes| <= |old(buf.bytes)|
        && buf.bytes == old(buf.bytes)[|old(buf.bytes)| - |buf.bytes|..]
    {
      match decoder {
        case Avc3(d) =>
          r := d.Feed(buf);
        case Fmp4(d) =>
          r := d.Feed(buf);
        case Hev1(d) =>
          r := d.Feed(buf);
        case Aac(d) =>
          r := d.Initialize(buf);
        case Opus(d) =>
          r := d.Initialize(buf);
      }
      if r.Err? {
        return;
      }
      if buf.Remaining() > 0 {
        return Err(NotFullyConsumed);
      }
      return Ok(());
    }

    /** Decodes frames of unknown boundaries from `buf`; the wall clock is
        used for timestamps. AAC and Opus cannot split a stream into frames,
        so for them it fails without touching the buffer or the decoder. */
    method DecodeStream(buf: Buf) returns (r: Result<()>)
      modifies buf, decoder.Inner(), decoder.Broadcast()
      ensures decoder.Aac? ==>
        r == Err(AacStreamUnsupported) && buf.bytes == old(buf.bytes)
        && unchanged(decoder.Inner()) && unchanged(decoder.Broadcast())
      ensures decoder.Opus? ==>
        r == Err(OpusStreamUnsupported) && buf.bytes == old(buf.bytes)
        && unchanged(decoder.Inner()) && unchanged(decoder.Broadcast())
      ensures !decoder.Aac? && !decoder.Opus? ==>
        && (r.Err? ==> r.error == Delegated)
        && |buf.bytes| <= |old(buf.bytes)|
        && buf.bytes == old(buf.bytes)[|old(buf.bytes)| - |buf.bytes|..]
    {
      match decoder {
        case Avc3(d) =>
          r := d.Feed(buf);
        case Fmp4(d) =>
          r := d.Feed(buf);
        case Hev1(d) =>
          r := d.Feed(buf);
        case Aac(_) =>
          return Err(AacStreamUnsupported);
        case Opus(_) =>
          return Err(OpusStreamUnsupported);
      }
    }

    /** Decodes one whole frame from `buf`, with an optional timestamp. For
        AAC and Opus this is their `decode`: after initialization the whole
        buffer becomes one keyframe in a new group of the decoder's track. */
    method DecodeFrame(buf: Buf, hint: Option<Timestamp>, now: Instant) returns (r: Result<()>)
      modifies buf, decoder.Inner(), decoder.Broadcast()
      ensures decoder.Aac? ==>
        var a := decoder.aac;
        && a.track == old(a.track)
        && a.zero == (if hint.Some? then old(a.zero) else Some(Latch(old(a.zero), now)))
        && (old(a.track).None? ==>
              r == Err(NotInitialized) && buf.bytes == old(buf.bytes) && unchanged(a.broadcast))
        && (old(a.track).Some? ==>
              && r == Ok(())
              && buf.bytes == []
              && a.broadcast.groups == old(a.broadcast.groups) +
                   [Group(old(a.track).value.name, Frame(ResolvePts(hint, old(a.zero), now), true, old(buf.bytes)))]
              && a.broadcast.catalog == old(a.broadcast.catalog)
              && a.broadcast.tracks == old(a.broadcast.tracks))
      ensures decoder.Opus? ==>
        var o := decoder.opus;
        && o.track == old(o.track)
        && o.zero == (if hint.Some? then old(o.zero) else Some(Latch(old(o.zero), now)))
        && (old(o.track).None? ==>
              r == Err(NotInitialized) && buf.bytes == old(buf.bytes) && unchanged(o.broadcast))
        && (old(o.track).Some? ==>
              && r == Ok(())
              && buf.bytes == []
              && o.broadcast.groups == old(o.broadcast.groups) +
                   [Group(old(o.track).value.name, Frame(ResolvePts(hint, old(o.zero), now), true, old(buf.bytes)))]
              && o.broadcast.catalog == old(o.broadcast.catalog)
              && o.broadcast.tracks == old(o.broadcast.tracks))
      ensures !decoder.Aac? && !decoder.Opus? ==>
        && (r.Err? ==> r.error == Delegated)
        && |buf.bytes| <= |old(buf.bytes)|
        && buf.bytes == old(buf.bytes)[|old(buf.bytes)| - |buf.bytes|..]
    {
      match decoder {
        case Avc3(d) =>
          r := d.Feed(buf);
        case Fmp4(d) =>
          r := d.Feed(buf);
        case Hev1(d) =>
          r := d.Feed(buf);
        case Aac(d) =>
          r := d.Decode(buf, hint, now);
        case Opus(d) =>
          r := d.Decode(buf, hint, now);
      }
    }
  }
}
