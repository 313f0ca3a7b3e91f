/** The H.264 (avc3), H.265 (hev1) and fMP4/CMAF importers. Their Rust code is
    not part of this model: each is a decoder that takes bytes from the head
    of the caller's buffer, with no more known about its behaviour. */
module Delegated {
  import opened Errors
  import opened Bytes
  import opened Media

  /** A decoder whose internals are not modelled. */
  class External {
    const broadcast: Broadcast
    var initialized: bool

    constructor (broadcast: Broadcast)
      ensures this.broadcast == broadcast && !initialized
    {
      this.broadcast := broadcast;
      initialized := false;
    }

    predicate IsInitialized()
      reads this
    {
      initialized
    }

    /** Whichever entry point the facade calls (`initialize`, `decode_stream`,
        `decode_frame` or `decode`): it consumes some prefix of the buffer,
        may become initialized, and succeeds or fails. The timestamp hint the
        facade passes along is not modelled. */
    method Feed(buf: Buf) returns (r: Result<()>)
      modifies this, buf
      ensures |buf.bytes| <= |old(buf.bytes)|
      ensures buf.bytes == old(buf.bytes)[|old(buf.bytes)| - |buf.bytes|..]
      ensures r.Err? ==> r.error == Delegated
    {
      var n: nat :| n <= |buf.bytes|;
      buf.Advance(n);
      var becomesInitialized: bool :| true;
      initialized := initialized || becomesInitialized;
      var ok: bool :| true;
      r := if ok then Ok(()) else Err(Delegated);
    }
  }
}
