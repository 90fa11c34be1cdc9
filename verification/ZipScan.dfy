/**
 The entry count of a downloaded archive, read from its End of Central
 Directory record (section 4.3.16 of PKWARE's APPNOTE): the record is looked
 for backwards from the end of the file (scripts/smoke-local-integration.mjs).
 */
module ZipScan {
  import opened Text

  type byte = x: int | 0 <= x < 256

  const EOCD_SIGNATURE := 0x06054b50
  const EOCD_SIZE := 22
  const MAX_ZIP_COMMENT := 0xffff

  function Le16(bytes: seq<byte>, at: nat): (r: nat)
    requires at + 2 <= |bytes|
    ensures r < 0x10000
  {
    (bytes[at] as int) + 0x100 * (bytes[at + 1] as int)
  }

  function Le32(bytes: seq<byte>, at: nat): (r: nat)
    requires at + 4 <= |bytes|
  {
    Le16(bytes, at) + 0x10000 * Le16(bytes, at + 2)
  }

  /** A record starts here, with room for all of it before the end. */
  predicate StartsRecord(bytes: seq<byte>, at: int) {
    0 <= at && at + EOCD_SIZE <= |bytes| && Le32(bytes, at) == EOCD_SIGNATURE
  }

  /** No comment is longer than its 16-bit length can say. */
  predicate InReach(bytes: seq<byte>, at: int) {
    |bytes| - at <= EOCD_SIZE + MAX_ZIP_COMMENT
  }

  /** The last record that the end of the file is in reach of. */
  predicate IsLastRecord(bytes: seq<byte>, at: int) {
    StartsRecord(bytes, at) && InReach(bytes, at) && forall k :: at < k < |bytes| ==> !StartsRecord(bytes, k)
  }

  /** `countZipEntries`. */
  method CountZipEntries(bytes: array<byte>) returns (count: Option<nat>)
    ensures count.None? <==> forall at :: 0 <= at < bytes.Length && InReach(bytes[..], at) ==> !StartsRecord(bytes[..], at)
    ensures count.Some? ==> exists at: nat :: at + EOCD_SIZE <= bytes.Length && IsLastRecord(bytes[..], at)
                                              && count.value == Le16(bytes[..], at + 10)
  {
    hide Le16, Le32;
    ghost var all := bytes[..];
    var lowest := if bytes.Length - EOCD_SIZE - MAX_ZIP_COMMENT < 0 then 0 else bytes.Length - EOCD_SIZE - MAX_ZIP_COMMENT;
    var offset := bytes.Length - EOCD_SIZE;
    while offset >= lowest
      invariant offset <= bytes.Length - EOCD_SIZE
      invariant forall k :: offset < k < |all| ==> !StartsRecord(all, k)
      decreases offset
    {
      var signature := ReadUInt32LE(bytes, offset);
      if signature == EOCD_SIGNATURE {
        assert IsLastRecord(all, offset);
        var total := ReadUInt16LE(bytes, offset + 10);
        return Some(total);
      }
      offset := offset - 1;
    }
    return None;
  }

  method ReadUInt16LE(bytes: array<byte>, at: nat) returns (r: nat)
    requires at + 2 <= bytes.Length
    ensures r == Le16(bytes[..], at)
  {
    r := (bytes[at] as int) + 0x100 * (bytes[at + 1] as int);
  }

  method ReadUInt32LE(bytes: array<byte>, at: nat) returns (r: nat)
    requires at + 4 <= bytes.Length
    ensures r == Le32(bytes[..], at)
  {
    r := (bytes[at] as int) + 0x100 * (bytes[at + 1] as int)
      + 0x10000 * (bytes[at + 2] as int) + 0x1000000 * (bytes[at + 3] as int);
  }

  // ------------------------------------------------------------ an archive

  function Put16(n: nat): (r: seq<byte>)
    requires n < 0x10000
    ensures |r| == 2
  {
    [n % 0x100, n / 0x100]
  }

  function Put32(n: nat): (r: seq<byte>)
    requires n < 0x100000000
    ensures |r| == 4
  {
    Put16(n % 0x10000) + Put16(n / 0x10000)
  }

  /** What a writer puts in the record, in the order of section 4.3.16. */
  datatype Record = Record(disk: nat, startDisk: nat, entriesHere: nat, entries: nat, size: nat, offset: nat)

  predicate Fits(r: Record) {
    r.disk < 0x10000 && r.startDisk < 0x10000 && r.entriesHere < 0x10000 && r.entries < 0x10000
    && r.size < 0x100000000 && r.offset < 0x100000000
  }

  /** `PK`, 5, 6. */
  const SIGNATURE: seq<byte> := [0x50, 0x4b, 0x05, 0x06]

  lemma SignatureIs()
    ensures Put32(EOCD_SIGNATURE) == SIGNATURE
  {
  }

  function RecordBytes(r: Record, comment: nat): (b: seq<byte>)
    requires Fits(r) && comment <= MAX_ZIP_COMMENT
    ensures |b| == EOCD_SIZE
  {
    SIGNATURE + Put16(r.disk) + Put16(r.startDisk) + Put16(r.entriesHere) + Put16(r.entries)
    + Put32(r.size) + Put32(r.offset) + Put16(comment)
  }

  function Archive(body: seq<byte>, r: Record, comment: seq<byte>): seq<byte>
    requires Fits(r) && |comment| <= MAX_ZIP_COMMENT
  {
    body + RecordBytes(r, |comment|) + comment
  }

  lemma PutReads16(before: seq<byte>, n: nat, after: seq<byte>)
    requires n < 0x10000
    ensures Le16(before + Put16(n) + after, |before|) == n
  {
    var all := before + Put16(n) + after;
    assert all[|before|] == n % 0x100 && all[|before| + 1] == n / 0x100;
  }

  lemma PutReads32(before: seq<byte>, n: nat, after: seq<byte>)
    requires n < 0x100000000
    ensures Le32(before + Put32(n) + after, |before|) == n
  {
    hide Le16;
    var low, high := Put16(n % 0x10000), Put16(n / 0x10000);
    var all := before + Put32(n) + after;
    PutReads16(before, n % 0x10000, high + after);
    PutReads16(before + low, n / 0x10000, after);
    assert all == before + low + (high + after) && all == before + low + high + after;
  }

  /** A written record is found where it was put, with the count it was given. */
  lemma RecordReads(body: seq<byte>, r: Record, comment: seq<byte>)
    requires Fits(r) && |comment| <= MAX_ZIP_COMMENT
    ensures StartsRecord(Archive(body, r, comment), |body|) && InReach(Archive(body, r, comment), |body|)
    ensures Le16(Archive(body, r, comment), |body| + 10) == r.entries
  {
    hide Le16, Le32;
    var all := Archive(body, r, comment);
    var head := Put16(r.disk) + Put16(r.startDisk) + Put16(r.entriesHere);
    var tail := Put32(r.size) + Put32(r.offset) + Put16(|comment|) + comment;
    var rest := head + Put16(r.entries) + tail;
    SignatureIs();
    assert all == body + Put32(EOCD_SIGNATURE) + rest;
    PutReads32(body, EOCD_SIGNATURE, rest);
    assert all == (body + Put32(EOCD_SIGNATURE) + head) + Put16(r.entries) + tail;
    PutReads16(body + Put32(EOCD_SIGNATURE) + head, r.entries, tail);
  }

  /** Nothing after the record's first byte looks like a record. */
  predicate IsPlainAfter(body: seq<byte>, r: Record, comment: seq<byte>)
    requires Fits(r) && |comment| <= MAX_ZIP_COMMENT
  {
    forall k :: |body| < k <= |body| + |comment| ==> !StartsRecord(Archive(body, r, comment), k)
  }

  /** A later place that looks like a record and happens to count as many entries. */
  predicate IsMatchedLater(body: seq<byte>, r: Record, comment: seq<byte>)
    requires Fits(r) && |comment| <= MAX_ZIP_COMMENT
  {
    exists k :: |body| < k <= |body| + |comment| && IsLastRecord(Archive(body, r, comment), k)
                && Le16(Archive(body, r, comment), k + 10) == r.entries
  }

  /** Reading back an archive: the scan answers its entry count exactly when nothing
      in its comment or in the record's own fields looks like a later record, or
      the last place that does counts as many. */
  method ReadArchive(body: seq<byte>, r: Record, comment: seq<byte>) returns (count: Option<nat>)
    requires Fits(r) && |comment| <= MAX_ZIP_COMMENT
    ensures count.Some?
    ensures count == Some(r.entries) <==> IsPlainAfter(body, r, comment) || IsMatchedLater(body, r, comment)
  {
    hide Le16, Le32, RecordBytes;
    var archive := Archive(body, r, comment);
    var bytes := new byte[|archive|](k requires 0 <= k < |archive| => archive[k]);
    assert bytes[..] == archive;
    count := CountZipEntries(bytes);
    RecordReads(body, r, comment);
    assert 0 <= |body| < bytes.Length && InReach(bytes[..], |body|) && StartsRecord(bytes[..], |body|);
    if IsPlainAfter(body, r, comment) {
      assert IsLastRecord(archive, |body|);
    }
  }

  /** Without a comment there is no later place for a record. */
  lemma NoCommentIsPlain(body: seq<byte>, r: Record)
    requires Fits(r)
    ensures IsPlainAfter(body, r, [])
    ensures IsLastRecord(Archive(body, r, []), |body|)
  {
    hide Le16, Le32, RecordBytes;
    RecordReads(body, r, []);
  }

  /** A whole record in the comment is taken for the archive's own. */
  lemma RecordInComment(body: seq<byte>, r: Record, other: Record)
    requires Fits(r) && Fits(other)
    ensures IsLastRecord(Archive(body, r, RecordBytes(other, 0)), |body| + EOCD_SIZE)
    ensures Le16(Archive(body, r, RecordBytes(other, 0)), |body| + EOCD_SIZE + 10) == other.entries
  {
    hide Le16, Le32, RecordBytes;
    RecordReads(body + RecordBytes(r, EOCD_SIZE), other, []);
    assert Archive(body + RecordBytes(r, EOCD_SIZE), other, []) == Archive(body, r, RecordBytes(other, 0));
  }
}
