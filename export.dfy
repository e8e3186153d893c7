/**
  The plain-text layout of the two export actions, `exportTextFile` (every record)
  and `exportSingleCode` (one record). Date formatting is whatever `fmt` does;
  the app uses the platform's default `formatted()` for both the export date
  and each record's scan time.
 */
module Export {
  import opened Records

  /** The line written after every record's block in the export of all records. */
  const Separator: string := "-------------------\n"

  /** The fixed name of the export-all file. */
  const AllCodesFileName: string := "ScannedQRCodes.txt"

  /** The title line, the export date, and a blank line. */
  function Header(fmt: Instant -> string, now: Instant): string
  {
    "StikQR Export\nDate: " + fmt(now) + "\n\n"
  }

  /** The `Code:` and `Scanned:` lines of one record. */
  function Block(fmt: Instant -> string, code: ScannedCode): string
  {
    "Code: " + code.content + "\nScanned: " + fmt(code.timestamp) + "\n"
  }

  /** One block and one separator per record, first record first. */
  function Blocks(fmt: Instant -> string, codes: seq<ScannedCode>): string
  {
    if codes == [] then "" else Block(fmt, codes[0]) + Separator + Blocks(fmt, codes[1..])
  }

  /** The whole export-all text: it opens with the header and grows with every record. */
  function ExportAllText(fmt: Instant -> string, now: Instant, codes: seq<ScannedCode>): (r: string)
    ensures |r| >= |Header(fmt, now)| + |codes| * |Separator|
    ensures r[..|Header(fmt, now)|] == Header(fmt, now)
  {
    BlocksLength(fmt, codes);
    Header(fmt, now) + Blocks(fmt, codes)
  }

  /**
    The single-record export: the same header and exactly one block, with no
    separator; it opens with the header and ends with the scan time's line break.
   */
  function SingleCodeText(fmt: Instant -> string, now: Instant, code: ScannedCode): (r: string)
    ensures |r| > |Header(fmt, now)| && r[|r| - 1] == '\n'
    ensures r[..|Header(fmt, now)|] == Header(fmt, now)
  {
    Header(fmt, now) + Block(fmt, code)
  }

  /**
    The single-record export's file name, built from the record's identifier:
    a fixed prefix, the identifier's text, which can be read back, and `.txt`.
   */
  function SingleCodeFileName(id: Uuid): (r: string)
    ensures |r| == |id.text| + 18
    ensures r[..14] == "ScannedQRCode_" && r[|r| - 4..] == ".txt"
    ensures r[14..|r| - 4] == id.text
  {
    "ScannedQRCode_" + id.text + ".txt"
  }

  /** Blocks are laid out record by record: the text of `a + b` is that of `a`, then that of `b`. */
  lemma {:induction false} BlocksAppend(fmt: Instant -> string, a: seq<ScannedCode>, b: seq<ScannedCode>)
    ensures Blocks(fmt, a + b) == Blocks(fmt, a) + Blocks(fmt, b)
  {
    if a == [] {
      assert a + b == b;
    } else {
      assert (a + b)[0] == a[0];
      assert (a + b)[1..] == a[1..] + b;
      BlocksAppend(fmt, a[1..], b);
    }
  }

  /** Adding a record at the end adds its block and a separator at the end of the text. */
  lemma BlocksSnoc(fmt: Instant -> string, codes: seq<ScannedCode>, code: ScannedCode)
    ensures Blocks(fmt, codes + [code]) == Blocks(fmt, codes) + (Block(fmt, code) + Separator)
  {
    BlocksAppend(fmt, codes, [code]);
    assert [code][1..] == [];
  }

  /** Adding a record at the end of the list adds its block and a separator at the end of the export. */
  lemma ExportAllSnoc(fmt: Instant -> string, now: Instant, codes: seq<ScannedCode>, code: ScannedCode)
    ensures ExportAllText(fmt, now, codes + [code]) == ExportAllText(fmt, now, codes) + (Block(fmt, code) + Separator)
  {
    BlocksSnoc(fmt, codes, code);
  }

  /** Writing a record's lines one after another onto `text` appends its block and a separator. */
  lemma AppendBlockLines(fmt: Instant -> string, code: ScannedCode, text: string)
    ensures text + "Code: " + code.content + "\n" + "Scanned: " + fmt(code.timestamp) + "\n" + Separator
         == text + (Block(fmt, code) + Separator)
  {
  }

  /**
    Record `k` owns the `k`-th block of the export: the text is the header, the
    blocks of the records before it, its own block and separator, then the blocks
    of the records after it.
   */
  lemma BlockAt(fmt: Instant -> string, now: Instant, codes: seq<ScannedCode>, k: nat)
    requires k < |codes|
    ensures ExportAllText(fmt, now, codes)
         == Header(fmt, now) + Blocks(fmt, codes[..k]) + Block(fmt, codes[k]) + Separator + Blocks(fmt, codes[k + 1..])
  {
    var front, rest := codes[..k], codes[k..];
    assert codes == front + rest;
    BlocksAppend(fmt, front, rest);
    assert rest[0] == codes[k] && rest[1..] == codes[k + 1..];
    Regroup(Header(fmt, now), Blocks(fmt, front), Block(fmt, codes[k]), Separator, Blocks(fmt, codes[k + 1..]));
  }

  /** Regrouping a concatenation of five strings. */
  lemma Regroup(a: string, b: string, c: string, d: string, e: string)
    ensures a + (b + (c + d + e)) == a + b + c + d + e
  {
  }

  /** Every record adds at least one separator's worth of text. */
  lemma {:induction false} BlocksLength(fmt: Instant -> string, codes: seq<ScannedCode>)
    ensures |Blocks(fmt, codes)| >= |codes| * |Separator|
  {
    if codes != [] {
      BlocksLength(fmt, codes[1..]);
    }
  }

  /** The export of all records is the header alone exactly when there are no records. */
  lemma ExportAllHeaderOnly(fmt: Instant -> string, now: Instant, codes: seq<ScannedCode>)
    ensures ExportAllText(fmt, now, codes) == Header(fmt, now) <==> codes == []
  {
    BlocksLength(fmt, codes);
  }

  /** Exporting a one-record list gives that record's single export plus one separator. */
  lemma ExportAllOfOne(fmt: Instant -> string, now: Instant, code: ScannedCode)
    ensures ExportAllText(fmt, now, [code]) == SingleCodeText(fmt, now, code) + Separator
  {
    assert [code][1..] == [];
    assert Blocks(fmt, [code]) == Block(fmt, code) + Separator + "";
    assert Header(fmt, now) + (Block(fmt, code) + Separator + "")
        == Header(fmt, now) + Block(fmt, code) + Separator;
  }

  /** Distinct identifiers give distinct single-export file names, so exports do not collide. */
  lemma SingleCodeFileNameInjective(a: Uuid, b: Uuid)
    ensures SingleCodeFileName(a) == SingleCodeFileName(b) <==> a == b
  {
    var prefix, suffix := "ScannedQRCode_", ".txt";
    if SingleCodeFileName(a) == SingleCodeFileName(b) {
      var na := SingleCodeFileName(a);
      assert |a.text| == |b.text|;
      assert a.text == na[|prefix|..|na| - |suffix|];
      assert b.text == na[|prefix|..|na| - |suffix|];
    }
  }
}
