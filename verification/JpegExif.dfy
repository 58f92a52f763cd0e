/** Finding the Exif block of a JPEG among its marker segments (sections
    B.1.1.2 and B.1.1.4 of ITU-T T.81). */
module JpegExif {
  import opened Bytes

  const EXIF_PREFIX: seq<byte> := [0x45, 0x78, 0x69, 0x66, 0, 0]
  const APP1 := 0xE1

  predicate IsStandalone(marker: byte) { marker == 0x01 || 0xD0 <= marker <= 0xD7 }

  /** The scan or the end of the image: no Exif comes after. */
  predicate IsTerminal(marker: byte) { marker == 0xDA || marker == 0xD9 }

  predicate HasExifPrefix(seg: seq<byte>) { EXIF_PREFIX <= seg }

  // ---- The scanner -------------------------------------------------------

  /** Past the fill bytes: the position of the first byte that is not 0xFF, or
      the end of the data. */
  function SkipFill(data: seq<byte>, pos: nat): (r: nat)
    requires pos <= |data|
    ensures pos <= r <= |data|
    ensures r < |data| ==> data[r] != 0xFF
    decreases |data| - pos
  {
    if pos < |data| && data[pos] == 0xFF then SkipFill(data, pos + 1) else pos
  }

  /** The Exif segment found from `pos` on; empty when there is none. */
  function Scan(data: seq<byte>, pos: nat): seq<byte>
    decreases if pos <= |data| then |data| - pos else 0
  {
    if pos >= |data| || data[pos] != 0xFF then []
    else
      var m := SkipFill(data, pos + 1);
      if m == |data| then []
      else if IsStandalone(data[m]) then Scan(data, m + 1)
      else if IsTerminal(data[m]) || m + 3 > |data| then []
      else
        var size := U16BE(data[m + 1..m + 3]);
        if size < 2 then []
        else if data[m] == APP1 then
          if m + 1 + size > |data| then []
          else if HasExifPrefix(data[m + 3..m + 1 + size]) then data[m + 3..m + 1 + size]
          else Scan(data, m + 1 + size)
        else Scan(data, m + 1 + size)
  }

  function JpegExif(data: seq<byte>): seq<byte> {
    if |data| < 2 || data[0] != 0xFF || data[1] != 0xD8 then [] else Scan(data, 2)
  }

  /** A marker at `m`, behind the 0xFF at `pos` and its fill bytes. */
  ghost predicate MarkerAt(data: seq<byte>, pos: nat, m: nat) {
    pos < m < |data| && data[pos] == 0xFF && SkipFill(data, pos + 1) == m
  }

  function Payload(data: seq<byte>, m: nat): seq<byte>
    requires m + 3 <= |data|
    requires 2 <= U16BE(data[m + 1..m + 3]) && m + 1 + U16BE(data[m + 1..m + 3]) <= |data|
  {
    data[m + 3..m + 1 + U16BE(data[m + 1..m + 3])]
  }

  /** What the scan does at a marker. */
  lemma ScanAt(data: seq<byte>, pos: nat, m: nat)
    requires MarkerAt(data, pos, m)
    ensures IsStandalone(data[m]) ==> Scan(data, pos) == Scan(data, m + 1)
    ensures IsTerminal(data[m]) ==> Scan(data, pos) == []
    ensures !IsStandalone(data[m]) && !IsTerminal(data[m]) ==>
              if m + 3 > |data| || U16BE(data[m + 1..m + 3]) < 2 then Scan(data, pos) == []
              else
                var next := m + 1 + U16BE(data[m + 1..m + 3]);
                if data[m] != APP1 then Scan(data, pos) == Scan(data, next)
                else if next > |data| then Scan(data, pos) == []
                else Scan(data, pos) == if HasExifPrefix(Payload(data, m)) then Payload(data, m) else Scan(data, next)
  {
    hide HasExifPrefix, SkipFill;
  }

  /** Whatever the bytes, only an Exif block of the file itself comes back, at
      most as long as a segment can be. */
  lemma {:induction false} ScanFindsAPayload(data: seq<byte>, pos: nat)
    requires Scan(data, pos) != []
    ensures exists i, j :: 0 <= i <= j <= |data| && Scan(data, pos) == data[i..j]
    ensures 6 <= |Scan(data, pos)| < 65536 && Scan(data, pos)[..6] == [69, 120, 105, 102, 0, 0]
    decreases if pos <= |data| then |data| - pos else 0
  {
    var m := SkipFill(data, pos + 1);
    if IsStandalone(data[m]) {
      ScanFindsAPayload(data, m + 1);
    } else {
      var size := U16BE(data[m + 1..m + 3]);
      if data[m] == APP1 && HasExifPrefix(data[m + 3..m + 1 + size]) {
        assert Scan(data, pos) == data[m + 3..m + 1 + size];
      } else {
        ScanFindsAPayload(data, m + 1 + size);
      }
    }
  }

  // ---- A writer ----------------------------------------------------------

  /** The markers of T.81, table B.1: TEM and the eight restarts stand alone; the
      start of the scan and the end of the image end the search. */
  predicate AloneCode(marker: byte) { marker == 1 || (208 <= marker && marker < 208 + 8) }

  predicate EndCode(marker: byte) { marker == 218 || marker == 217 }

  /** A segment, with any number of fill bytes before its marker. */
  datatype Segment = Standalone(fill: nat, marker: byte) | Sized(fill: nat, marker: byte, payload: seq<byte>)
  {
    predicate Valid() {
      match this
      case Standalone(_, marker) => AloneCode(marker)
      case Sized(_, marker, payload) =>
        !AloneCode(marker) && !EndCode(marker) && marker != 255 && |payload| <= 65533
    }

    /** APP1, led by "Exif" and two zeros. */
    predicate IsExif() { Sized? && marker == 225 && |payload| >= 6 && payload[..6] == [69, 120, 105, 102, 0, 0] }
  }

  function Fill(n: nat): (r: seq<byte>)
    ensures |r| == n
  {
    seq(n, _ => 0xFF)
  }

  function WriteSegment(s: Segment): seq<byte>
    requires s.Valid()
  {
    match s
    case Standalone(fill, marker) => [0xFF] + Fill(fill) + [marker]
    case Sized(fill, marker, payload) => [0xFF] + Fill(fill) + [marker] + Put16BE(|payload| + 2) + payload
  }

  ghost predicate AllValid(segments: seq<Segment>) { forall i :: 0 <= i < |segments| ==> segments[i].Valid() }

  function WriteSegments(segments: seq<Segment>): seq<byte>
    requires forall i :: 0 <= i < |segments| ==> segments[i].Valid()
  {
    if segments == [] then [] else WriteSegment(segments[0]) + WriteSegments(segments[1..])
  }

  /** A JPEG: its start marker, its segments, and from a terminal marker on
      anything at all. */
  function WriteJpeg(segments: seq<Segment>, fill: nat, terminal: byte, rest: seq<byte>): seq<byte>
    requires forall i :: 0 <= i < |segments| ==> segments[i].Valid()
  {
    [0xFF, 0xD8] + (WriteSegments(segments) + ([0xFF] + Fill(fill) + [terminal] + rest))
  }

  function FirstExif(segments: seq<Segment>): seq<byte> {
    if segments == [] then []
    else if segments[0].IsExif() then segments[0].payload
    else FirstExif(segments[1..])
  }

  // ---- The scanner inverts the writer ------------------------------------

  lemma {:induction false} FillSkipped(before: seq<byte>, n: nat, marker: byte, after: seq<byte>)
    requires marker != 0xFF
    ensures var data := before + Fill(n) + [marker] + after;
            SkipFill(data, |before|) == |before| + n
    decreases n
  {
    var data := before + Fill(n) + [marker] + after;
    if n > 0 {
      assert data[|before|] == 0xFF;
      FillSkipped(before + [0xFF], n - 1, marker, after);
      assert data == before + [0xFF] + Fill(n - 1) + [marker] + after;
    }
  }

  lemma PrefixSpelt(payload: seq<byte>)
    ensures HasExifPrefix(payload) <==> |payload| >= 6 && payload[..6] == [69, 120, 105, 102, 0, 0]
  {
  }

  lemma MarkerWritten(before: seq<byte>, fill: nat, marker: byte, tail: seq<byte>)
    requires marker != 0xFF
    ensures var data := before + [0xFF] + Fill(fill) + [marker] + tail;
            var m := |before| + 1 + fill;
            MarkerAt(data, |before|, m) && data[m] == marker && data[m + 1..] == tail
  {
    FillSkipped(before + [0xFF], fill, marker, tail);
    assert (before + [0xFF] + Fill(fill) + [marker] + tail)[|before|] == (before + [0xFF])[|before|];
  }

  lemma {:induction false} ScanStandalone(before: seq<byte>, s: Segment, after: seq<byte>)
    requires s.Valid() && s.Standalone?
    ensures Scan(before + (WriteSegment(s) + after), |before|)
         == Scan(before + (WriteSegment(s) + after), |before| + |WriteSegment(s)|)
  {
    hide Scan, Fill, MarkerAt;
    var data := before + [0xFF] + Fill(s.fill) + [s.marker] + after;
    assert before + (WriteSegment(s) + after) == data;
    MarkerWritten(before, s.fill, s.marker, after);
    ScanAt(data, |before|, |before| + 1 + s.fill);
  }

  lemma {:induction false} ScanSized(before: seq<byte>, s: Segment, after: seq<byte>)
    requires s.Valid() && s.Sized?
    ensures Scan(before + (WriteSegment(s) + after), |before|)
         == if s.IsExif() then s.payload else Scan(before + (WriteSegment(s) + after), |before| + |WriteSegment(s)|)
  {
    hide Scan, Fill, MarkerAt, Put16BE, U16BE, Payload;
    PrefixSpelt(s.payload);
    hide HasExifPrefix;
    var m := |before| + 1 + s.fill;
    var tail := Put16BE(|s.payload| + 2) + s.payload + after;
    var data := before + [0xFF] + Fill(s.fill) + [s.marker] + tail;
    SizedJoins(before, s, after);
    MarkerWritten(before, s.fill, s.marker, tail);
    SizedTail(data, m, s.payload, after);
    ScanAt(data, |before|, m);
  }

  lemma SizedJoins(before: seq<byte>, s: Segment, after: seq<byte>)
    requires s.Valid() && s.Sized?
    ensures before + (WriteSegment(s) + after)
         == before + [0xFF] + Fill(s.fill) + [s.marker] + (Put16BE(|s.payload| + 2) + s.payload + after)
    ensures |WriteSegment(s)| == s.fill + 4 + |s.payload|
  {
    hide Fill, Put16BE;
  }

  lemma SizedTail(data: seq<byte>, m: nat, payload: seq<byte>, after: seq<byte>)
    requires |payload| <= 0xFFFF - 2
    requires m + 1 <= |data| && data[m + 1..] == Put16BE(|payload| + 2) + payload + after
    ensures m + 3 + |payload| <= |data|
    ensures U16BE(data[m + 1..m + 3]) == |payload| + 2
    ensures Payload(data, m) == payload
  {
    assert data[m + 1..m + 3] == data[m + 1..][..2];
    assert data[m + 3..m + 3 + |payload|] == data[m + 1..][2..2 + |payload|];
  }

  lemma {:induction false} ScanTerminal(before: seq<byte>, fill: nat, terminal: byte, rest: seq<byte>)
    requires EndCode(terminal)
    ensures Scan(before + ([0xFF] + Fill(fill) + [terminal] + rest), |before|) == []
  {
    hide Scan, Fill, MarkerAt;
    var data := before + [0xFF] + Fill(fill) + [terminal] + rest;
    assert before + ([0xFF] + Fill(fill) + [terminal] + rest) == data;
    MarkerWritten(before, fill, terminal, rest);
    ScanAt(data, |before|, |before| + 1 + fill);
  }

  lemma {:induction false} ScanSegments(before: seq<byte>, segments: seq<Segment>, fill: nat, terminal: byte,
      rest: seq<byte>)
    requires AllValid(segments) && EndCode(terminal)
    ensures Scan(before + (WriteSegments(segments) + ([0xFF] + Fill(fill) + [terminal] + rest)), |before|)
              == FirstExif(segments)
    decreases |segments|
  {
    hide Scan, WriteSegment, HasExifPrefix;
    var end := [0xFF] + Fill(fill) + [terminal] + rest;
    if segments == [] {
      ScanTerminal(before, fill, terminal, rest);
      assert WriteSegments(segments) + end == end;
    } else {
      var first := WriteSegment(segments[0]);
      var after := WriteSegments(segments[1..]) + end;
      if segments[0].Standalone? {
        ScanStandalone(before, segments[0], after);
      } else {
        ScanSized(before, segments[0], after);
      }
      ScanSegments(before + first, segments[1..], fill, terminal, rest);
      assert before + (WriteSegments(segments) + end) == before + (first + after);
      assert before + (first + after) == before + first + after;
    }
  }

  /** On any well-formed sequence of segments, fill bytes and standalone markers
      included, the payload of the first Exif APP1 segment before the scan or
      the end comes back, and nothing when there is none. */
  lemma {:induction false} FindsFirstExif(segments: seq<Segment>, fill: nat, terminal: byte, rest: seq<byte>)
    requires AllValid(segments) && EndCode(terminal)
    ensures JpegExif(WriteJpeg(segments, fill, terminal, rest)) == FirstExif(segments)
  {
    hide Scan, WriteSegments;
    ScanSegments([0xFF, 0xD8], segments, fill, terminal, rest);
  }

  /** Nothing is looked for in what does not start as a JPEG. */
  lemma NotAJpeg(data: seq<byte>)
    requires |data| < 2 || data[..2] != [255, 216]
    ensures JpegExif(data) == []
  {
  }

  // ---- The reader --------------------------------------------------------

  /** A file being read: `data` is as much of it as can be, and reads past that
      fail; so do seeks to the offsets in `unseekable`. */
  class Reader {
    const data: seq<byte>
    const unseekable: set<nat>
    var pos: nat

    constructor (data: seq<byte>, unseekable: set<nat>)
      ensures this.data == data && this.unseekable == unseekable && pos == 0
    {
      this.data := data;
      this.unseekable := unseekable;
      pos := 0;
    }

    method Seek(to: nat) returns (ok: bool)
      modifies `pos
      ensures ok == (to !in unseekable)
      ensures pos == if ok then to else old(pos)
    {
      ok := to !in unseekable;
      if ok {
        pos := to;
      }
    }

    /** ReadFull; a short read leaves the position at the end. */
    method ReadFull(n: nat) returns (ok: bool, b: seq<byte>)
      modifies `pos
      ensures ok == (old(pos) + n <= |data|)
      ensures ok ==> b == data[old(pos)..old(pos) + n] && pos == old(pos) + n
      ensures !ok ==> pos >= |data|
    {
      if pos + n <= |data| {
        ok, b := true, data[pos..pos + n];
        pos := pos + n;
      } else {
        ok, b := false, [];
        pos := if pos < |data| then |data| else pos;
      }
    }
  }

  /** Where no marker can follow, the scan gives up. */
  lemma {:induction false} ScanStops(data: seq<byte>, pos: nat)
    requires pos >= |data| || data[pos] != 0xFF || SkipFill(data, pos + 1) == |data|
    ensures Scan(data, pos) == []
  {
  }

  lemma NoPrefix()
    ensures !HasExifPrefix([])
  {
  }

  const MAX_EXIF_BYTES := 64 * 1024

  method ReadAtMost(r: Reader, n: nat) returns (seg: seq<byte>)
    modifies r`pos
    ensures var k := if n < 65536 then n else 65536;
            if n == 0 then seg == [] && r.pos == old(r.pos)
            else if old(r.pos) + k <= |r.data| then
              seg == r.data[old(r.pos)..old(r.pos) + k] && r.pos == old(r.pos) + k
            else seg == [] && r.pos >= |r.data|
  {
    if n == 0 {
      return [];
    }
    var ok, b := r.ReadFull(if n < MAX_EXIF_BYTES then n else MAX_EXIF_BYTES);
    return if ok then b else [];
  }

  /** The next marker, past its fill bytes. */
  method ReadMarker(r: Reader) returns (ok: bool, marker: byte)
    modifies r`pos
    ensures ok ==> 0 < r.pos && MarkerAt(r.data, old(r.pos), r.pos - 1) && marker == r.data[r.pos - 1]
    ensures !ok ==> Scan(r.data, old(r.pos)) == []
  {
    hide Scan;
    var start := r.pos;
    marker := 0xFF;
    var one;
    ok, one := r.ReadFull(1);
    if !ok || one[0] != 0xFF {
      ScanStops(r.data, start);
      return false, marker;
    }
    while marker == 0xFF
      invariant start + 1 <= r.pos <= |r.data|
      invariant marker == 0xFF ==> SkipFill(r.data, r.pos) == SkipFill(r.data, start + 1)
      invariant marker != 0xFF ==>
                start + 1 < r.pos && r.pos - 1 == SkipFill(r.data, start + 1) && r.data[r.pos - 1] == marker
      decreases |r.data| - r.pos, marker == 0xFF
    {
      ok, one := r.ReadFull(1);
      if !ok {
        ScanStops(r.data, start);
        return;
      }
      marker := one[0];
    }
    ok := true;
  }

  /** The scan over a file; a failing seek only loses the payload. */
  method FindJpegExif(r: Reader) returns (exif: seq<byte>)
    modifies r`pos
    ensures exif == JpegExif(r.data) || (exif == [] && r.unseekable != {})
  {
    hide HasExifPrefix, Scan, SkipFill;
    NoPrefix();
    var ok := r.Seek(0);
    if !ok {
      return [];
    }
    var soi;
    ok, soi := r.ReadFull(2);
    if !ok || soi != [0xFF, 0xD8] {
      return [];
    }
    while true
      invariant Scan(r.data, r.pos) == JpegExif(r.data)
      decreases if r.pos <= |r.data| then |r.data| - r.pos + 1 else 0
    {
      var start := r.pos;
      var marker;
      ok, marker := ReadMarker(r);
      if !ok {
        return [];
      }
      ghost var m := r.pos - 1;
      ScanAt(r.data, start, m);
      if IsStandalone(marker) {
        continue;
      }
      if IsTerminal(marker) {
        return [];
      }
      var lenb;
      ok, lenb := r.ReadFull(2);
      if !ok {
        return [];
      }
      var size := U16BE(lenb);
      if size < 2 {
        return [];
      }
      if marker == APP1 {
        var seg := ReadAtMost(r, size - 2);
        if HasExifPrefix(seg) {
          return seg;
        }
        if r.pos >= |r.data| {
          ScanStops(r.data, r.pos);
        }
        continue;
      }
      ok := r.Seek(r.pos + size - 2);
      if !ok {
        return [];
      }
    }
  }
}
