/** Reading the orientation from the first directory of a TIFF block (section
    2 of TIFF 6.0), in either byte order. */
module TiffIfd {
  import opened Bytes
  import opened JpegExif

  const ORIENTATION_TAG := 0x0112
  const ENTRY_SIZE := 12

  datatype ByteOrder = LittleEndian | BigEndian
  {
    function U16(b: seq<byte>): (r: nat)
      requires |b| == 2
      ensures r < 0x1_0000
    {
      if LittleEndian? then U16LE(b) else U16BE(b)
    }

    function U32(b: seq<byte>): (r: nat)
      requires |b| == 4
      ensures r < 0x1_0000_0000
    {
      if LittleEndian? then U32LE(b) else U32BE(b)
    }

    function Put16(v: nat): (b: seq<byte>)
      requires v < 0x1_0000
      ensures |b| == 2 && U16(b) == v
    {
      if LittleEndian? then Put16LE(v) else Put16BE(v)
    }

    function Put32(v: nat): (b: seq<byte>)
      requires v < 0x1_0000_0000
      ensures |b| == 4 && U32(b) == v
    {
      if LittleEndian? then Put32LE(v) else Put32BE(v)
    }

    function Mark(): (b: seq<byte>)
      ensures |b| == 2
    {
      if LittleEndian? then [0x49, 0x49] else [0x4D, 0x4D]
    }
  }

  // ---- The reader --------------------------------------------------------

  function Value(v: nat): int { if 1 <= v <= 8 then v else 1 }

  /** The orientation among the entries from `off` on, `left` of them. */
  function ScanEntries(t: seq<byte>, bo: ByteOrder, off: nat, left: nat): (r: int)
    ensures 1 <= r <= 8
    decreases left
  {
    if left == 0 || off + ENTRY_SIZE > |t| then 1
    else if bo.U16(t[off..off + 2]) == ORIENTATION_TAG then Value(bo.U16(t[off + 8..off + 10]))
    else ScanEntries(t, bo, off + ENTRY_SIZE, left - 1)
  }

  function InOrder(t: seq<byte>, bo: ByteOrder): (r: int)
    requires |t| >= 8
    ensures 1 <= r <= 8
  {
    var ifd := bo.U32(t[4..8]);
    if ifd < 8 || ifd + 2 > |t| then 1
    else ScanEntries(t, bo, ifd + 2, bo.U16(t[ifd..ifd + 2]))
  }

  /** Whatever the bytes, an orientation from 1 to 8. */
  function TiffOrientation(t: seq<byte>): (r: int)
    ensures 1 <= r <= 8
  {
    if |t| < 8 then 1
    else if t[..2] == LittleEndian.Mark() then InOrder(t, LittleEndian)
    else if t[..2] == BigEndian.Mark() then InOrder(t, BigEndian)
    else 1
  }

  /** The loop over the entries. */
  method ReadTiffOrientation(t: seq<byte>) returns (o: int)
    ensures o == TiffOrientation(t)
  {
    if |t| < 8 {
      return 1;
    }
    var bo;
    if t[..2] == [0x49, 0x49] {
      bo := LittleEndian;
    } else if t[..2] == [0x4D, 0x4D] {
      bo := BigEndian;
    } else {
      return 1;
    }
    var ifd := bo.U32(t[4..8]);
    if ifd < 8 || ifd + 2 > |t| {
      return 1;
    }
    var n := bo.U16(t[ifd..ifd + 2]);
    var e := 0;
    while e < n
      invariant 0 <= e <= n
      invariant ScanEntries(t, bo, ifd + 2 + e * ENTRY_SIZE, n - e) == ScanEntries(t, bo, ifd + 2, n)
    {
      var off := ifd + 2 + e * ENTRY_SIZE;
      if off + ENTRY_SIZE > |t| {
        return 1;
      }
      if bo.U16(t[off..off + 2]) == ORIENTATION_TAG {
        var v := bo.U16(t[off + 8..off + 10]);
        return if 1 <= v <= 8 then v else 1;
      }
      e := e + 1;
    }
    return 1;
  }

  // ---- A writer ----------------------------------------------------------

  /** A directory entry: its tag, its type and count as they stand, and the
      four bytes of its value. */
  datatype Entry = Entry(tag: nat, typeAndCount: seq<byte>, value: seq<byte>)
  {
    predicate Valid() { tag < 0x1_0000 && |typeAndCount| == 6 && |value| == 4 }
  }

  ghost predicate AllEntriesValid(entries: seq<Entry>) { forall i :: 0 <= i < |entries| ==> entries[i].Valid() }

  function WriteEntry(bo: ByteOrder, e: Entry): (b: seq<byte>)
    requires e.Valid()
    ensures |b| == ENTRY_SIZE
  {
    bo.Put16(e.tag) + e.typeAndCount + e.value
  }

  function WriteEntries(bo: ByteOrder, entries: seq<Entry>): (b: seq<byte>)
    requires forall i :: 0 <= i < |entries| ==> entries[i].Valid()
    ensures |b| == ENTRY_SIZE * |entries|
  {
    if entries == [] then [] else WriteEntry(bo, entries[0]) + WriteEntries(bo, entries[1..])
  }

  /** A block whose directory stands behind any gap and before anything. */
  function WriteTiff(bo: ByteOrder, magic: seq<byte>, gap: seq<byte>, entries: seq<Entry>, rest: seq<byte>): seq<byte>
    requires |magic| == 2 && 8 + |gap| < 0x1_0000_0000 && |entries| < 0x1_0000
    requires forall i :: 0 <= i < |entries| ==> entries[i].Valid()
  {
    bo.Mark() + magic + bo.Put32(8 + |gap|) + gap + (bo.Put16(|entries|) + (WriteEntries(bo, entries) + rest))
  }

  /** What the directory says: its first orientation entry, if it is sane. */
  function Stored(bo: ByteOrder, entries: seq<Entry>): int
    requires forall i :: 0 <= i < |entries| ==> entries[i].Valid()
  {
    if entries == [] then 1
    else
      assert entries[0].Valid();
      if entries[0].tag == ORIENTATION_TAG then Value(bo.U16(entries[0].value[..2]))
      else Stored(bo, entries[1..])
  }

  lemma {:induction false} WrittenSplit(bo: ByteOrder, before: seq<byte>, entries: seq<Entry>, rest: seq<byte>)
    requires AllEntriesValid(entries) && entries != []
    ensures entries[0].Valid() && AllEntriesValid(entries[1..])
    ensures var first := WriteEntry(bo, entries[0]);
            var after := WriteEntries(bo, entries[1..]) + rest;
            var t := before + (WriteEntries(bo, entries) + rest);
            && t == before + (first + after)
            && t == before + first + after
            && |t| >= |before| + ENTRY_SIZE
  {
    assert entries[0].Valid();
    var first, others := WriteEntry(bo, entries[0]), WriteEntries(bo, entries[1..]);
    assert WriteEntries(bo, entries) == first + others;
    hide WriteEntry, WriteEntries;
  }

  lemma {:induction false} EntriesReadBack(bo: ByteOrder, before: seq<byte>, entries: seq<Entry>, rest: seq<byte>)
    requires AllEntriesValid(entries)
    ensures ScanEntries(before + (WriteEntries(bo, entries) + rest), bo, |before|, |entries|) == Stored(bo, entries)
    decreases |entries|
  {
    if entries != [] {
      hide ScanEntries, WriteEntry, WriteEntries, Value;
      WrittenSplit(bo, before, entries, rest);
      EntriesReadBack(bo, before + WriteEntry(bo, entries[0]), entries[1..], rest);
    }
  }

  /** Where the parts of a block lie. */
  lemma Layout(bo: ByteOrder, magic: seq<byte>, gap: seq<byte>, body: seq<byte>, ifd: nat)
    requires |magic| == 2 && ifd == 8 + |gap| < 0x1_0000_0000
    ensures var t := bo.Mark() + magic + bo.Put32(ifd) + gap + body;
            && |t| == ifd + |body|
            && t[..2] == bo.Mark() && t[4..8] == bo.Put32(ifd) && t[ifd..] == body
  {
  }

  /** Where a block's own header sends the reader. */
  lemma HeaderRead(bo: ByteOrder, t: seq<byte>, ifd: nat)
    requires 8 <= ifd && ifd + 2 <= |t|
    requires t[..2] == bo.Mark() && bo.U32(t[4..8]) == ifd
    ensures TiffOrientation(t) == ScanEntries(t, bo, ifd + 2, bo.U16(t[ifd..ifd + 2]))
  {
    hide ScanEntries, ByteOrder.U16, ByteOrder.U32;
    assert LittleEndian.Mark() != BigEndian.Mark();
  }

  lemma Tail(t: seq<byte>, at: nat, a: seq<byte>, b: seq<byte>)
    requires at + |a| <= |t| && t[at..] == a + b
    ensures t[at..at + |a|] == a && t == t[..at + |a|] + b
  {
    assert t == t[..at] + (a + b);
    assert t[at..at + |a|] == t[at..][..|a|];
  }

  /** The orientation entry a directory writer stored is the one read, in either
      byte order, wherever the directory lies. */
  lemma {:induction false} OrientationReadsBack(
    bo: ByteOrder, magic: seq<byte>, gap: seq<byte>, entries: seq<Entry>, rest: seq<byte>)
    requires |magic| == 2 && 8 + |gap| < 0x1_0000_0000 && |entries| < 0x1_0000
    requires AllEntriesValid(entries)
    ensures TiffOrientation(WriteTiff(bo, magic, gap, entries, rest)) == Stored(bo, entries)
  {
    hide ScanEntries, WriteEntries, Stored, TiffOrientation, ByteOrder.U16, ByteOrder.U32, ByteOrder.Put16,
        ByteOrder.Put32, ByteOrder.Mark;
    var t := WriteTiff(bo, magic, gap, entries, rest);
    var ifd := 8 + |gap|;
    var count, written := bo.Put16(|entries|), WriteEntries(bo, entries) + rest;
    Layout(bo, magic, gap, count + written, ifd);
    hide WriteTiff;
    Tail(t, ifd, count, written);
    HeaderRead(bo, t, ifd);
    EntriesReadBack(bo, t[..ifd + 2], entries, rest);
  }

  lemma {:induction false} FirstEntryCounts(bo: ByteOrder, entries: seq<Entry>, k: nat)
    requires AllEntriesValid(entries) && k <= |entries|
    requires forall i :: 0 <= i < k ==> entries[i].tag != 0x0112
    requires k < |entries| ==> entries[k].tag == 0x0112
    ensures Stored(bo, entries)
         == if k < |entries| && 1 <= bo.U16(entries[k].value[..2]) <= 8 then bo.U16(entries[k].value[..2]) else 1
  {
    if k > 0 {
      assert entries[0].Valid();
      FirstEntryCounts(bo, entries[1..], k - 1);
    }
  }

  /** A value from 1 to 8 under the first orientation tag is read as it is; any
      other value, and a directory without the tag, as 1. */
  lemma {:induction false} ValueReadsBack(
    bo: ByteOrder, magic: seq<byte>, gap: seq<byte>, entries: seq<Entry>, rest: seq<byte>, k: nat, v: nat)
    requires |magic| == 2 && 8 + |gap| < 0x1_0000_0000 && |entries| < 0x1_0000
    requires AllEntriesValid(entries) && k <= |entries| && v < 0x1_0000
    requires forall i :: 0 <= i < k ==> entries[i].tag != 0x0112
    requires k < |entries| ==> entries[k].tag == 0x0112 && entries[k].value[..2] == bo.Put16(v)
    ensures TiffOrientation(WriteTiff(bo, magic, gap, entries, rest)) == if k < |entries| && 1 <= v <= 8 then v else 1
  {
    hide WriteTiff, TiffOrientation, ByteOrder.U16, ByteOrder.Put16, Stored;
    OrientationReadsBack(bo, magic, gap, entries, rest);
    FirstEntryCounts(bo, entries, k);
  }

  /** A block that is too short, has neither byte-order mark ("II" or "MM"), or
      points at no directory inside itself, counts as upright. */
  lemma JunkIsUpright(t: seq<byte>)
    requires || |t| < 8
             || (t[..2] != [73, 73] && t[..2] != [77, 77])
             || (t[..2] == [73, 73] && !(8 <= LittleEndian.U32(t[4..8]) <= |t| - 2))
             || (t[..2] == [77, 77] && !(8 <= BigEndian.U32(t[4..8]) <= |t| - 2))
    ensures TiffOrientation(t) == 1
  {
    hide ScanEntries, ByteOrder.U32, ByteOrder.U16;
  }

  /** And so does a directory cut off before its first orientation entry ends. */
  lemma {:induction false} CutOffIsUpright(t: seq<byte>, bo: ByteOrder, off: nat, left: nat)
    requires forall k :: 0 <= k < left && off + 12 * k + 12 <= |t| ==> bo.U16(t[off + 12 * k..off + 12 * k + 2]) != 0x0112
    ensures ScanEntries(t, bo, off, left) == 1
    decreases left
  {
    hide ByteOrder.U16;
    if left > 0 && off + 12 <= |t| {
      assert bo.U16(t[off + 12 * 0..off + 12 * 0 + 2]) != 0x0112;
      forall k | 0 <= k < left - 1 && off + 12 + 12 * k + 12 <= |t|
        ensures bo.U16(t[off + 12 + 12 * k..off + 12 + 12 * k + 2]) != 0x0112
      {
        assert off + 12 * (k + 1) == off + 12 + 12 * k;
        assert bo.U16(t[off + 12 * (k + 1)..off + 12 * (k + 1) + 2]) != 0x0112;
      }
      CutOffIsUpright(t, bo, off + 12, left - 1);
    }
  }

  // ---- From the file to the orientation ----------------------------------

  function TrimExifPrefix(exif: seq<byte>): seq<byte> {
    if HasExifPrefix(exif) then exif[|EXIF_PREFIX|..] else exif
  }

  function JpegOrientation(data: seq<byte>): int { TiffOrientation(TrimExifPrefix(JpegExif.JpegExif(data))) }

  /** A JPEG whose first Exif segment holds a written directory is read with
      that directory's orientation. */
  lemma {:induction false} JpegOrientationReadsBack(
    segments: seq<Segment>, fill: nat, terminal: byte, rest: seq<byte>,
    bo: ByteOrder, magic: seq<byte>, gap: seq<byte>, entries: seq<Entry>, tail: seq<byte>)
    requires AllValid(segments) && EndCode(terminal)
    requires |magic| == 2 && 8 + |gap| < 0x1_0000_0000 && |entries| < 0x1_0000
    requires AllEntriesValid(entries)
    requires FirstExif(segments) == [69, 120, 105, 102, 0, 0] + WriteTiff(bo, magic, gap, entries, tail)
    ensures JpegOrientation(WriteJpeg(segments, fill, terminal, rest)) == Stored(bo, entries)
  {
    hide Stored, TiffOrientation, WriteTiff, WriteJpeg, FirstExif, JpegExif.JpegExif;
    FindsFirstExif(segments, fill, terminal, rest);
    OrientationReadsBack(bo, magic, gap, entries, tail);
    var block := WriteTiff(bo, magic, gap, entries, tail);
    assert (EXIF_PREFIX + block)[|EXIF_PREFIX|..] == block;
  }

  /** One without Exif before its scan counts as upright. */
  lemma NoExifIsUpright(segments: seq<Segment>, fill: nat, terminal: byte, rest: seq<byte>)
    requires AllValid(segments) && EndCode(terminal)
    requires forall i :: 0 <= i < |segments| ==> !segments[i].IsExif()
    ensures JpegOrientation(WriteJpeg(segments, fill, terminal, rest)) == 1
  {
    FindsFirstExif(segments, fill, terminal, rest);
    NoneIsFirst(segments);
    hide WriteJpeg, JpegExif.JpegExif;
  }

  lemma {:induction false} NoneIsFirst(segments: seq<Segment>)
    requires forall i :: 0 <= i < |segments| ==> !segments[i].IsExif()
    ensures FirstExif(segments) == []
  {
    if segments != [] {
      NoneIsFirst(segments[1..]);
    }
  }
}
