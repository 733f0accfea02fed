/** The texts that the model keeps as bytes, spelled out. */
module Spelling {
  import opened Bytes
  import opened KeyEncoding
  import opened Meta
  import opened DiskOps
  import opened UploadUrl
  import opened UploadHandler
  import Decimals
  import PartList

  /** The bytes of an ASCII text. */
  function Ascii(s: string): (r: Str)
    ensures |r| == |s|
    ensures forall i :: 0 <= i < |s| ==> r[i] == if s[i] < '\U{80}' then s[i] as int else 63
  {
    seq(|s|, i requires 0 <= i < |s| => if s[i] < '\U{80}' then s[i] as int else 63)
  }

  /** The type of objects whose client names none: crates/storage/src/fs.rs:401. */
  lemma DefaultType()
    ensures OCTET_STREAM == Ascii("application/octet-stream")
  {
  }

  /** A sidecar has its body's name with ".json" after it, and temp files begin with ".tmp":
      crates/storage/src/fs.rs:62-76, crates/storage/src/meta.rs:30-72. */
  lemma FileNames(name: Str)
    ensures SidecarName(name) == name + Ascii(".json")
    ensures IsTempName(name) ==> Ascii(".tmp") <= name
  {
    assert Ascii(".json") == [46, 106, 115, 111, 110];
    assert Ascii(".tmp") == [46, 116, 109, 112];
  }

  /** The addresses and queries of the upload protocol: crates/ui/src/islands/upload_zone.rs:441-508. */
  lemma Addresses(bucket: Str, key: Str, query: Str)
    ensures Address(bucket, key, query) ==
      Ascii("ui/upload/") + bucket + Ascii("/") + key + Ascii("?") + query
    ensures CreateQuery() == Ascii("action=create")
  {
    assert Ascii("ui/upload/") == UI + [SLASH] + UPLOAD + [SLASH];
    assert Ascii("/") == [SLASH] && Ascii("?") == [QUESTION];
    assert Ascii("action=create") == ACTION + [EQUALS] + CREATE;
  }

  lemma PartQueries(id: Str, n: nat)
    ensures PartQuery(id, n) == Ascii("uploadId=") + id + Ascii("&partNumber=") + Decimals.Decimal(n)
  {
    hide Decimals.Decimal;
    assert Ascii("uploadId=") == UPLOAD_ID + [EQUALS];
    assert Ascii("&partNumber=") == [AMPERSAND] + PART_NUMBER + [EQUALS];
  }

  lemma EndQueries(id: Str)
    ensures ActionQuery(id, COMPLETE) == Ascii("uploadId=") + id + Ascii("&action=complete")
    ensures ActionQuery(id, ABORT) == Ascii("uploadId=") + id + Ascii("&action=abort")
  {
    assert Ascii("uploadId=") == UPLOAD_ID + [EQUALS];
    assert Ascii("&action=complete") == [AMPERSAND] + ACTION + [EQUALS] + COMPLETE;
    assert Ascii("&action=abort") == [AMPERSAND] + ACTION + [EQUALS] + ABORT;
  }

  /** The list of part numbers: crates/ui/src/islands/upload_zone.rs:499-506. */
  lemma Lists()
    ensures PartList.ListText([]) == Ascii("[]")
    ensures PartList.ListText([1, 2, 30]) == Ascii("[1,2,30]")
  {
    assert Ascii("[]") == [91, 93] && Ascii("[1,2,30]") == [91, 49, 44, 50, 44, 51, 48, 93];
    assert [1, 2, 30][1..] == [2, 30] && [2, 30][1..] == [30];
    assert Decimals.Decimal(30) == Decimals.Decimal(3) + [48];
  }
}
