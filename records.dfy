/**
  The values the scanned-code history is made of: the `ScannedCode` record
  (StikQR/ContentView.swift, struct ScannedCode) and the opaque values it carries.
 */
module Records {

  /** The usual Some/None wrapper, used for the encoder's and decoder's `try?`. */
  datatype Option<+T> = None | Some(value: T)

  /**
    A record identifier. The app draws it from `UUID()`; here only its textual
    form matters (it is spliced into export file names), so a `Uuid` is that text.
   */
  datatype Uuid = Uuid(text: string)

  /** A point in time, as seconds since the platform's reference date. */
  datatype Instant = Instant(sinceReferenceDate: real)

  /** One entry of the history: an identifier, the decoded payload, and when it was scanned. */
  datatype ScannedCode = ScannedCode(id: Uuid, content: string, timestamp: Instant)

  /** The bytes of a persisted snapshot. */
  type Data = seq<bv8>
}
