/** Failure-carrying results and the error kinds raised by the import layer.
    The Rust code reports most failures as `anyhow` errors with a fixed message;
    each message becomes one constructor here. */
module Errors {

  datatype Option<+T> = None | Some(value: T)

  /** `anyhow::Result<T>`: a value or one of the errors below. */
  datatype Result<+T> = Ok(value: T) | Err(error: Error)

  datatype Error =
    // Annex-B start code at the head of a buffer
    | MissingStartCode          // "missing Annex B start code"
    | InvalidStartCode          // "invalid Annex B start code"
    // AudioSpecificConfig
    | ConfigTooShort            // "AudioSpecificConfig must be at least 2 bytes"
    | ExtendedTypeTooShort      // "extended audioObjectType requires 2 additional bytes"
    | ExplicitRateTooShort      // "explicit sample rate requires 3 additional bytes"
    | UnsupportedRateIndex      // "unsupported sample rate index"
    // OpusHead
    | OpusHeadTooShort          // "OpusHead must be at least 19 bytes"
    | InvalidOpusSignature      // "invalid OpusHead signature"
    // decoder lifecycle
    | NotInitialized            // "not initialized"
    | NotFullyConsumed          // "buffer was not fully consumed"
    | AacStreamUnsupported      // "AAC does not support stream decoding"
    | OpusStreamUnsupported     // "Opus does not support stream decoding"
    // an error reported by a decoder whose internals are not modelled
    | Delegated
    // hang::Error::UnknownFormat
    | UnknownFormat(token: string)
}
