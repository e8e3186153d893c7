# StikQR scanned-code history, in Dafny

StikQR is an iOS app that scans QR codes with the camera or from a photo and
generates QR codes from text. Apart from the platform plumbing, its one piece of
logic is the history of scanned codes kept by the main view
(`StikQR/ContentView.swift`): an ordered list of `ScannedCode` records
(identifier, content, timestamp) in which no content appears twice, a persisted
snapshot of that list rewritten after every change, and two plain-text export
layouts.

This project models that history:

- `records.dfy` — module `Records`: the `ScannedCode` record
  (`StikQR/ContentView.swift` lines 19-23, a datatype with fields `id`,
  `content`, `timestamp`) and the opaque values it carries (`Uuid`, `Instant`,
  snapshot bytes `Data`).
- `history.dfy` — module `History`: the duplicate test of `handleScannedCode`,
  the `removeAll` filter of `deleteCode`, and the distinct-contents invariant,
  with lemmas on order, idempotence and invariant preservation.
- `persistence.dfy` — module `Persistence`: the snapshot written by
  `saveToStorage` and read by `loadFromStorage`, and the save-then-load
  round trip under an explicit assumption about the JSON codec.
- `export.dfy` — module `Export`: the exact text of the export-all and
  single-record exports and the single-record file name.
- `store.dfy` — module `Store`: class `ScanHistory`, holding `scannedCodes`
  (a `seq`) and `storedCodes` (the snapshot), with one method per action of the
  view; `ExportTextFile` builds its text with a loop, as the app does.

Inputs the app takes from the platform are parameters: the new record's
identifier (`UUID()`), the current time (`Date()`), the date formatter
(`formatted()`, a function `fmt: Instant -> string`), the JSON encoder and
decoder (a `Codec`, two functions that may fail), and the canonical form
`canon: string -> string` under which Swift's `String ==` compares contents:
Swift strings are equal when they are canonically equivalent in Unicode (a
precomposed and a decomposed "café" are one string), so two contents count as
the same when their `canon` images are equal.

Two details follow the code exactly: the dashed separator is written after
every record of the export-all text, including the last one, not only between
records; and a snapshot that fails to decode leaves the in-memory list as it
was, rather than emptying it.

## Model

| member | source | states |
|---|---|---|
| History.ContainsContent | StikQR/ContentView.swift:591 | true exactly when some record's content is equal to the scanned string under Swift's string equality (canonical equivalence, case-sensitive) |
| History.DistinctContents | StikQR/ContentView.swift:590-596 | the store's invariant, no two records with equal contents; holds exactly when every record's content was new when it was appended, as `handleScannedCode` requires |
| History.RemoveId | StikQR/ContentView.swift:622 | the result is no longer than the input and no record in it carries the deleted identifier |
| History.RemoveIdMembers | StikQR/ContentView.swift:622 | a record survives a deletion exactly when it was in the list and has another identifier |
| History.RemoveIdAppend | StikQR/ContentView.swift:622 | deletion keeps relative order: the survivors of `a + b` are those of `a` followed by those of `b` |
| History.RemoveIdAbsent | StikQR/ContentView.swift:621-624 | deleting an identifier no record carries leaves the list unchanged |
| History.RemoveIdIdempotent | StikQR/ContentView.swift:621-624 | deleting the same identifier twice equals deleting it once |
| History.RemoveIdUnique | StikQR/ContentView.swift:621-624 | with unique identifiers, deleting record `k`'s identifier removes exactly record `k` and keeps the rest in order |
| History.RemoveIdKeepsDistinct | StikQR/ContentView.swift:622 | if contents were pairwise distinct before a deletion, they still are after it |
| History.AppendFreshKeepsDistinct | StikQR/ContentView.swift:591-593 | appending a record whose content is not present keeps contents pairwise distinct |
| History.AppendFreshIdKeepsDistinctIds | StikQR/ContentView.swift:592-593 | appending a record under an identifier no record has keeps identifiers pairwise distinct |
| Persistence.Entries | StikQR/ContentView.swift:19-23 | the content and timestamp of every record, position by position (what a snapshot can carry back) |
| Persistence.Saved | StikQR/ContentView.swift:646-650 | the snapshot after a save is the encoding of the list whenever encoding succeeds, and otherwise the previous snapshot |
| Persistence.Loaded | StikQR/ContentView.swift:652-656 | the list after a load is the decoded snapshot whenever decoding succeeds, and otherwise the current list |
| Persistence.SaveThenLoad | StikQR/ContentView.swift:646-656 | if the codec reads back what it writes, saving a list and loading the snapshot gives the same contents and timestamps in the same order |
| Persistence.ClearedStaysCleared | StikQR/ContentView.swift:440-443 | under the same codec assumption, after clear-all saves, loading the snapshot cannot bring any record back |
| Export.ExportAllText | StikQR/ContentView.swift:626-634 | the export-all text starts with the `StikQR Export` / `Date:` header and is at least one separator longer per record |
| Export.SingleCodeText | StikQR/ContentView.swift:604-609 | the single-record text starts with the same header, is longer than it, and ends with the line break of the `Scanned:` line |
| Export.SingleCodeFileName | StikQR/ContentView.swift:605 | the file name is `ScannedQRCode_`, the identifier's text, then `.txt`, and the identifier can be read back from it |
| Export.BlocksAppend | StikQR/ContentView.swift:630-634 | the record blocks of `a + b` are those of `a` followed by those of `b` |
| Export.BlocksSnoc | StikQR/ContentView.swift:630-634 | a record added at the end of the list adds its block and a separator at the end of the blocks |
| Export.ExportAllSnoc | StikQR/ContentView.swift:626-634 | a record added at the end of the list adds its block and a separator at the end of the export-all text, header untouched |
| Export.BlockAt | StikQR/ContentView.swift:626-634 | the export-all text is the header, then record `k`'s `Code:`/`Scanned:` block and separator after exactly the blocks of the records before it |
| Export.BlocksLength | StikQR/ContentView.swift:630-634 | every record adds at least one separator's length of text |
| Export.ExportAllHeaderOnly | StikQR/ContentView.swift:628-634 | the export-all text is the header alone if and only if the list is empty |
| Export.ExportAllOfOne | StikQR/ContentView.swift:604-609 | for one record, the export-all text is the single-record export plus one separator, so the single export has no separator |
| Export.SingleCodeFileNameInjective | StikQR/ContentView.swift:605 | two single-record file names are equal if and only if the identifiers are, so exports of different records do not collide |
| Store.ScanHistory.constructor | StikQR/ContentView.swift:379-380 | the view starts with an empty list and the snapshot found in app storage |
| Store.ScanHistory.Mirrored | StikQR/ContentView.swift:646-650 | the snapshot holds the encoding of the current list whenever the list can be encoded; then another save would not change it |
| Store.ScanHistory.SaveToStorage | StikQR/ContentView.swift:646-650 | the snapshot becomes the encoding of the list; if encoding fails it is unchanged; the list is never touched |
| Store.ScanHistory.LoadFromStorage | StikQR/ContentView.swift:652-656 | the list becomes the decoded snapshot if decoding succeeds and is unchanged otherwise; the snapshot is never touched |
| Store.ScanHistory.HandleScannedCode | StikQR/ContentView.swift:590-596 | a content equal (under Swift's string equality) to one already present changes neither list nor snapshot; a new one appends exactly one record with that content, identifier and time after the unchanged old records, and saves; distinct contents, distinct identifiers (for a fresh identifier) and the snapshot mirroring the list are preserved |
| Store.ScanHistory.DeleteCode | StikQR/ContentView.swift:621-624 | the list becomes the old list without the records carrying that identifier, in order; unchanged if none did; always saves; distinct contents preserved |
| Store.ScanHistory.ClearAll | StikQR/ContentView.swift:440-443 | the list is empty and the snapshot is rewritten by a save |
| Store.ScanHistory.ExportTextFile | StikQR/ContentView.swift:626-634 | the loop builds exactly the export-all text of the current list, and the file name is `ScannedQRCodes.txt` |
| Store.ScanHistory.ExportSingleCode | StikQR/ContentView.swift:604-609 | the text is the header plus the record's one block, and the file name is `ScannedQRCode_` + identifier + `.txt` |

## Left out

- Camera capture, torch control and the photo-library decode path (`QRScannerViewController`, its coordinator, `handleSelectedImage`, `resizeImage`, `fixOrientation`): platform capture and barcode-detection I/O. Their only link to the history is a call to `handleScannedCode`, which is modelled.
- QR image generation (`generateQRCode`): an opaque platform image filter.
- The user interface: help screens, the generator screen, the share sheet, the image picker, the `placeholder` view extension, the reversed (newest first) display order, and the disabling of the export and clear buttons on an empty list.
- Writing the export text to a temporary file, handing it to the share sheet, the clipboard copy and opening a code as a URL: platform side effects. The model stops at the file name and text.
- `Date()` and `formatted()`: the current time is a parameter and the formatter an arbitrary function `fmt`.
- JSON encoding and decoding: the codec is an arbitrary pair of functions that may fail. Identifiers are not claimed to survive a reload: the record type's identifier is a constant with an initial value, so decoding gives reloaded records fresh identifiers. Only contents, timestamps and order are stated to round-trip, and only under the stated codec assumption.
- `UUID()` uniqueness: the new record's identifier is a parameter; distinct identifiers are preserved when the caller supplies a fresh one, but not assumed elsewhere.
- Unicode canonical equivalence itself: `canon` is a parameter, and no particular normalisation (NFC or NFD tables) is defined or assumed, beyond contents being equal exactly when their `canon` images are.
- The `Uuid` text is taken as given; the 36-character upper-case layout of a UUID string is not modelled.
