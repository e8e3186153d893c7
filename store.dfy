/**
  The scanned-code history that the app's main view keeps: the in-memory list
  `scannedCodes`, in scan order, and its persisted snapshot `storedCodes`.
  Every change to the list is followed by a save; the list is loaded from the
  snapshot when the view appears.
 */
module Store {
  import opened Records
  import opened History
  import opened Persistence
  import opened Export

  class ScanHistory {
    /** The records, oldest first. */
    var scannedCodes: seq<ScannedCode>
    /** The persisted snapshot. */
    var storedCodes: Data
    /** The JSON encoder and decoder. */
    const codec: Codec
    /** The canonical form under which Swift's `String ==` compares contents. */
    const canon: string -> string

    /** A fresh view: an empty list, and whatever snapshot the app storage holds. */
    constructor (codec: Codec, canon: string -> string, stored: Data)
      ensures scannedCodes == [] && storedCodes == stored
      ensures this.codec == codec && this.canon == canon
    {
      this.codec := codec;
      this.canon := canon;
      scannedCodes := [];
      storedCodes := stored;
    }

    /** The snapshot holds the encoding of the current list, whenever the list can be encoded. */
    ghost predicate Mirrored()
      reads this
      ensures Mirrored() ==> Saved(codec, storedCodes, scannedCodes) == storedCodes
    {
      codec.encode(scannedCodes).Some? ==> storedCodes == codec.encode(scannedCodes).value
    }

    /** `saveToStorage`: overwrite the snapshot with the encoded list; keep it if encoding fails. */
    method SaveToStorage()
      modifies this`storedCodes
      ensures storedCodes == Saved(codec, old(storedCodes), scannedCodes)
      ensures Mirrored()
      ensures codec.encode(scannedCodes).None? ==> storedCodes == old(storedCodes)
    {
      var encoded := codec.encode(scannedCodes);
      if encoded.Some? {
        storedCodes := encoded.value;
      }
    }

    /** `loadFromStorage`: replace the list by the decoded snapshot; keep it if decoding fails. */
    method LoadFromStorage()
      modifies this`scannedCodes
      ensures scannedCodes == Loaded(codec, storedCodes, old(scannedCodes))
      ensures codec.decode(storedCodes).Some? ==> scannedCodes == codec.decode(storedCodes).value
      ensures codec.decode(storedCodes).None? ==> scannedCodes == old(scannedCodes)
    {
      var decoded := codec.decode(storedCodes);
      if decoded.Some? {
        scannedCodes := decoded.value;
      }
    }

    /**
      `handleScannedCode`: a payload whose content is already in the list changes
      nothing, not even the snapshot; a new one is appended as one record with the
      given identifier and time, and the list is saved.
     */
    method HandleScannedCode(code: string, id: Uuid, now: Instant)
      modifies this
      ensures ContainsContent(canon, old(scannedCodes), code) ==>
        scannedCodes == old(scannedCodes) && storedCodes == old(storedCodes)
      ensures !ContainsContent(canon, old(scannedCodes), code) ==>
        && scannedCodes == old(scannedCodes) + [ScannedCode(id, code, now)]
        && storedCodes == Saved(codec, old(storedCodes), scannedCodes)
      ensures old(DistinctContents(canon, scannedCodes)) ==> DistinctContents(canon, scannedCodes)
      ensures old(DistinctIds(scannedCodes)) && old(NoneHasId(scannedCodes, id)) ==> DistinctIds(scannedCodes)
      ensures old(Mirrored()) ==> Mirrored()
    {
      if !ContainsContent(canon, scannedCodes, code) {
        var newCode := ScannedCode(id, code, now);
        if DistinctContents(canon, scannedCodes) {
          AppendFreshKeepsDistinct(canon, scannedCodes, newCode);
        }
        if DistinctIds(scannedCodes) && NoneHasId(scannedCodes, id) {
          AppendFreshIdKeepsDistinctIds(scannedCodes, newCode);
        }
        scannedCodes := scannedCodes + [newCode];
        SaveToStorage();
      }
    }

    /** `deleteCode`: remove every record with the given record's identifier, then save. */
    method DeleteCode(code: ScannedCode)
      modifies this
      ensures scannedCodes == RemoveId(old(scannedCodes), code.id)
      ensures NoneHasId(scannedCodes, code.id)
      ensures NoneHasId(old(scannedCodes), code.id) ==> scannedCodes == old(scannedCodes)
      ensures storedCodes == Saved(codec, old(storedCodes), scannedCodes)
      ensures old(DistinctContents(canon, scannedCodes)) ==> DistinctContents(canon, scannedCodes)
      ensures Mirrored()
    {
      if DistinctContents(canon, scannedCodes) {
        RemoveIdKeepsDistinct(canon, scannedCodes, code.id);
      }
      if NoneHasId(scannedCodes, code.id) {
        RemoveIdAbsent(scannedCodes, code.id);
      }
      scannedCodes := RemoveId(scannedCodes, code.id);
      SaveToStorage();
    }

    /** The "Clear All" action: empty the list, then save. */
    method ClearAll()
      modifies this
      ensures scannedCodes == [] && DistinctContents(canon, scannedCodes)
      ensures storedCodes == Saved(codec, old(storedCodes), [])
      ensures Mirrored()
    {
      scannedCodes := [];
      SaveToStorage();
    }

    /**
      The text-building part of `exportTextFile`: the header, then for each record
      in scan order its `Code:` and `Scanned:` lines and a dashed separator.
     */
    method ExportTextFile(fmt: Instant -> string, now: Instant) returns (fileName: string, text: string)
      ensures fileName == AllCodesFileName
      ensures text == ExportAllText(fmt, now, scannedCodes)
    {
      fileName := AllCodesFileName;
      var codes := scannedCodes;
      text := "StikQR Export\nDate: " + fmt(now) + "\n\n";
      assert codes[..0] == [];
      for i := 0 to |codes|
        invariant text == ExportAllText(fmt, now, codes[..i])
      {
        var code := codes[i];
        ghost var before := text;
        text := text + "Code: " + code.content + "\n";
        text := text + "Scanned: " + fmt(code.timestamp) + "\n";
        text := text + "-------------------\n";
        AppendBlockLines(fmt, code, before);
        ExportAllSnoc(fmt, now, codes[..i], code);
        assert codes[..i + 1] == codes[..i] + [code];
      }
      assert codes[..|codes|] == codes;
    }

    /** The text-building part of `exportSingleCode`: one record's export and its file name. */
    method ExportSingleCode(code: ScannedCode, fmt: Instant -> string, now: Instant) returns (fileName: string, text: string)
      ensures fileName == SingleCodeFileName(code.id)
      ensures text == SingleCodeText(fmt, now, code)
    {
      fileName := "ScannedQRCode_" + code.id.text + ".txt";
      text := "StikQR Export\nDate: " + fmt(now) + "\n\n";
      text := text + "Code: " + code.content + "\n";
      text := text + "Scanned: " + fmt(code.timestamp) + "\n";
    }
  }

  /**
    A session as a user would drive it: scan "A", scan "A" again, scan "B",
    delete the first record, clear everything. Only the contracts above are used.
   */
  method Session(codec: Codec, canon: string -> string, stored: Data,
                 idA: Uuid, idA2: Uuid, idB: Uuid, t1: Instant, t2: Instant, t3: Instant)
    requires idA != idB
    requires canon("A") != canon("B")
  {
    var a, b := ScannedCode(idA, "A", t1), ScannedCode(idB, "B", t3);
    var history := new ScanHistory(codec, canon, stored);
    history.HandleScannedCode("A", idA, t1);
    assert history.scannedCodes == [a];
    assert ContainsContent(canon, [a], "A");
    history.HandleScannedCode("A", idA2, t2);
    assert history.scannedCodes == [a];
    assert !ContainsContent(canon, [a], "B");
    history.HandleScannedCode("B", idB, t3);
    assert history.scannedCodes == [a, b];
    assert [a, b][1..] == [b];
    history.DeleteCode(a);
    assert history.scannedCodes == [b];
    history.ClearAll();
    assert history.scannedCodes == [];
  }
}
