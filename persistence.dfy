/**
  The persisted snapshot of the history (`storedCodes`, an app-storage slot of
  bytes) and what saving and loading do to it. The JSON encoder and decoder are
  not modelled: a `Codec` is any pair of functions, and each may fail.
 */
module Persistence {
  import opened Records

  /** The encoder and decoder the store uses; `None` is a thrown error caught by `try?`. */
  datatype Codec = Codec(
    encode: seq<ScannedCode> -> Option<Data>,
    decode: Data -> Option<seq<ScannedCode>>)

  /** What a snapshot keeps of a record: its content and timestamp, but not its identifier. */
  datatype Entry = Entry(content: string, timestamp: Instant)

  /** The entries of a list of records, position by position. */
  function Entries(codes: seq<ScannedCode>): (r: seq<Entry>)
    ensures |r| == |codes|
    ensures forall i :: 0 <= i < |codes| ==> r[i].content == codes[i].content && r[i].timestamp == codes[i].timestamp
  {
    if codes == [] then []
    else [Entry(codes[0].content, codes[0].timestamp)] + Entries(codes[1..])
  }

  /** The snapshot after `saveToStorage`: the encoding of `codes`, or the old snapshot if encoding fails. */
  function Saved(codec: Codec, stored: Data, codes: seq<ScannedCode>): (r: Data)
    ensures codec.encode(codes).Some? ==> Some(r) == codec.encode(codes)
    ensures r == stored || Some(r) == codec.encode(codes)
  {
    match codec.encode(codes)
    case Some(encoded) => encoded
    case None => stored
  }

  /** The list after `loadFromStorage`: the decoded snapshot, or the current list if decoding fails. */
  function Loaded(codec: Codec, stored: Data, current: seq<ScannedCode>): (r: seq<ScannedCode>)
    ensures codec.decode(stored).Some? ==> Some(r) == codec.decode(stored)
    ensures r == current || Some(r) == codec.decode(stored)
  {
    match codec.decode(stored)
    case Some(decoded) => decoded
    case None => current
  }

  /**
    The assumption under which a snapshot can be trusted: whatever the encoder
    accepts, the decoder reads back with the same contents and timestamps in the
    same order. Identifiers are not part of it: a reloaded record gets a fresh one.
   */
  ghost predicate PreservesEntries(codec: Codec)
  {
    forall codes :: codec.encode(codes).Some? ==>
      && codec.decode(codec.encode(codes).value).Some?
      && Entries(codec.decode(codec.encode(codes).value).value) == Entries(codes)
  }

  /** Saving a list and loading the snapshot back yields the same contents and timestamps, in order. */
  lemma SaveThenLoad(codec: Codec, stored: Data, codes: seq<ScannedCode>, current: seq<ScannedCode>)
    requires PreservesEntries(codec)
    requires codec.encode(codes).Some?
    ensures Entries(Loaded(codec, Saved(codec, stored, codes), current)) == Entries(codes)
  {
  }

  /** After the list is cleared and saved, loading the snapshot cannot bring old records back. */
  lemma ClearedStaysCleared(codec: Codec, stored: Data, current: seq<ScannedCode>)
    requires PreservesEntries(codec)
    requires codec.encode([]).Some?
    ensures Loaded(codec, Saved(codec, stored, []), current) == []
  {
    SaveThenLoad(codec, stored, [], current);
  }
}
