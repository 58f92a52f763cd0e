/** Walking the boxes of an ISO base media file (section 4.2 of
    ISO/IEC 14496-12), with the machine's own 64-bit arithmetic. */
module BoxWalk {
  import opened Bytes

  const TWO_63 := 0x8000_0000_0000_0000

  /** int64 wrap-around. */
  function Wrap(x: int): (r: int)
    ensures -TWO_63 <= r < TWO_63
    ensures -TWO_63 <= x < TWO_63 ==> r == x
    ensures TWO_63 <= x < 2 * TWO_63 ==> r < 0
  {
    (x + TWO_63) % (2 * TWO_63) - TWO_63
  }

  /** ReadAt: negative offsets and short reads fail. */
  predicate CanRead(data: seq<byte>, off: int, n: nat) { 0 <= off && off + n <= |data| }

  datatype Found = Found(typ: seq<byte>, body: int, boxEnd: int)

  function Left(data: seq<byte>, off: int): nat { if 0 <= off <= |data| then |data| - off + 1 else 0 }

  /** One header: the box and its size, or nothing when it is malformed. */
  datatype Header = Malformed | Box(found: Found)

  function ReadHeader(data: seq<byte>, off: int, end: int): (h: Header)
    requires |data| < TWO_63 && off + 8 <= end < TWO_63
    ensures h.Box? ==> CanRead(data, off, 8) && off + 8 <= h.found.body
    ensures h.Box? ==> h.found.boxEnd <= end && (h.found.body <= h.found.boxEnd || h.found.boxEnd < 0)
  {
    if !CanRead(data, off, 8) then Malformed
    else
      var size32 := U32BE(data[off..off + 4]);
      if size32 == 1 && !CanRead(data, off + 8, 8) then Malformed
      else
        var size :=
          if size32 == 0 then end - off
          else if size32 == 1 then Wrap(U64BE(data[off + 8..off + 16]))
          else size32;
        var body := off + (if size32 == 1 then 16 else 8);
        if size < body - off || Wrap(off + size) > end || size <= 0 then Malformed
        else Box(Found(data[off + 4..off + 8], body, Wrap(off + size)))
  }

  /** The boxes from `off` on; the walk ends because each box lies further on,
      or wraps to an offset no read can follow. */
  function Walk(data: seq<byte>, off: int, end: int): seq<Found>
    requires |data| < TWO_63 && end < TWO_63
    decreases Left(data, off)
  {
    if off + 8 > end then []
    else
      match ReadHeader(data, off, end)
      case Malformed => []
      case Box(found) => [found] + Walk(data, found.boxEnd, end)
  }

  lemma {:induction false} WalkStep(data: seq<byte>, off: int, end: int)
    requires |data| < TWO_63 && off + 8 <= end < TWO_63
    ensures var h := ReadHeader(data, off, end);
            match h
            case Malformed => Walk(data, off, end) == []
            case Box(found) =>
              && Walk(data, off, end) == [found] + Walk(data, found.boxEnd, end)
              && Left(data, found.boxEnd) < Left(data, off)
  {
    hide ReadHeader;
  }

  method WalkBoxes(data: seq<byte>, start: int, end: int) returns (boxes: seq<Found>)
    requires |data| < TWO_63 && end < TWO_63
    ensures boxes == Walk(data, start, end)
  {
    hide Walk, U32BE, U64BE, Wrap;
    boxes := [];
    var off := start;
    while off + 8 <= end
      invariant Walk(data, start, end) == boxes + Walk(data, off, end)
      decreases Left(data, off)
    {
      WalkStep(data, off, end);
      if !CanRead(data, off, 8) {
        return;
      }
      var size: int := U32BE(data[off..off + 4]);
      var typ := data[off + 4..off + 8];
      var body := off + 8;
      if size == 0 {
        size := end - off;
      } else if size == 1 {
        if !CanRead(data, off + 8, 8) {
          return;
        }
        size := Wrap(U64BE(data[off + 8..off + 16]));
        body := off + 16;
      }
      if size < body - off || Wrap(off + size) > end || size <= 0 {
        return;
      }
      boxes := boxes + [Found(typ, body, Wrap(off + size))];
      off := Wrap(off + size);
    }
    WalkBeyond(data, off, end);
  }

  lemma {:induction false} WalkBeyond(data: seq<byte>, off: int, end: int)
    requires |data| < TWO_63 && end < TWO_63 && off + 8 > end
    ensures Walk(data, off, end) == []
  {
  }

  // ---- A writer ----------------------------------------------------------

  /** How a box gives its size: in 32 bits, in 64, or not at all, for one that
      runs to the end of its enclosing range. */
  datatype Form = Short | Long | ToEnd

  datatype Plain = Plain(form: Form, typ: seq<byte>, payload: seq<byte>)
  {
    predicate Valid() {
      && |typ| == 4
      && (form.Short? ==> |payload| + 8 < 0x1_0000_0000)
      && |payload| + 16 < TWO_63
    }

    function HeaderSize(): nat { if form.Long? then 16 else 8 }

    function Size(): nat { HeaderSize() + |payload| }
  }

  function WriteHeader(b: Plain): (h: seq<byte>)
    requires b.Valid()
    ensures |h| == b.HeaderSize()
  {
    match b.form
    case Short => Put32BE(|b.payload| + 8) + b.typ
    case Long => Put32BE(1) + b.typ + Put64BE(|b.payload| + 16)
    case ToEnd => Put32BE(0) + b.typ
  }

  function WriteBox(b: Plain): (w: seq<byte>)
    requires b.Valid()
    ensures |w| == b.Size()
  {
    WriteHeader(b) + b.payload
  }

  /** Valid boxes, of which only the last may run to the end. */
  ghost predicate WellFormed(boxes: seq<Plain>) {
    && (forall i :: 0 <= i < |boxes| ==> boxes[i].Valid())
    && (forall i :: 0 <= i < |boxes| - 1 ==> !boxes[i].form.ToEnd?)
  }

  ghost function WriteBoxes(boxes: seq<Plain>): seq<byte>
    requires forall i :: 0 <= i < |boxes| ==> boxes[i].Valid()
  {
    if boxes == [] then [] else WriteBox(boxes[0]) + WriteBoxes(boxes[1..])
  }

  /** The ranges the boxes occupy when written from `off` into a range that
      ends at `end`. */
  function Ranges(boxes: seq<Plain>, off: int, end: int): seq<Found> {
    if boxes == [] then []
    else
      var next := if boxes[0].form.ToEnd? then end else off + boxes[0].Size();
      [Found(boxes[0].typ, off + boxes[0].HeaderSize(), next)] + Ranges(boxes[1..], next, end)
  }

  /** Reported ranges follow one another without gap or overlap: each starts a
      header's width past the end of the one before. */
  lemma {:induction false} RangesConsecutive(boxes: seq<Plain>, off: int, end: int, i: nat)
    requires forall j :: 0 <= j < |boxes| - 1 ==> !boxes[j].form.ToEnd?
    requires i < |boxes|
    ensures var found := Ranges(boxes, off, end);
            && |found| == |boxes|
            && found[i].typ == boxes[i].typ
            && found[i].body == (if i == 0 then off else found[i - 1].boxEnd) + boxes[i].HeaderSize()
            && (!boxes[i].form.ToEnd? ==> found[i].boxEnd - found[i].body == |boxes[i].payload|)
            && (boxes[i].form.ToEnd? ==> found[i].boxEnd == end)
  {
    if |boxes| > 1 {
      var next := off + boxes[0].Size();
      RangesConsecutive(boxes[1..], next, end, if i == 0 then 0 else i - 1);
    }
  }

  /** The range a walk covers ends with the data it covers, or reaches past the
      end of the file. */
  predicate Ends(data: seq<byte>, at: int, end: int) { end == at || (end > at && at == |data|) }

  lemma HeaderBytes(b: Plain)
    requires b.Valid()
    ensures WriteHeader(b)[..4] == Put32BE(match b.form case Short => |b.payload| + 8 case Long => 1 case ToEnd => 0)
    ensures WriteHeader(b)[4..8] == b.typ
    ensures b.form.Long? ==> WriteHeader(b)[8..16] == Put64BE(|b.payload| + 16)
  {
    hide Put32BE, Put64BE;
  }

  lemma HeaderLies(before: seq<byte>, header: seq<byte>, payload: seq<byte>, after: seq<byte>)
    requires |header| >= 8
    ensures var data := before + ((header + payload) + after);
            && data[|before|..|before| + 4] == header[..4]
            && data[|before| + 4..|before| + 8] == header[4..8]
            && (|header| == 16 ==> data[|before| + 8..|before| + 16] == header[8..16])
  {
    var data := before + ((header + payload) + after);
    assert data[|before|..|before| + |header|] == header;
    assert data[|before|..|before| + 4] == data[|before|..|before| + |header|][..4];
    assert data[|before| + 4..|before| + 8] == data[|before|..|before| + |header|][4..8];
    if |header| == 16 {
      assert data[|before| + 8..|before| + 16] == data[|before|..|before| + |header|][8..16];
    }
  }

  lemma HeaderReads(before: seq<byte>, b: Plain, after: seq<byte>, end: int)
    requires b.Valid() && |before + (WriteBox(b) + after)| < TWO_63
    requires |before| + b.Size() <= end < TWO_63
    ensures ReadHeader(before + (WriteBox(b) + after), |before|, end)
         == Box(Found(b.typ, |before| + b.HeaderSize(), if b.form.ToEnd? then end else |before| + b.Size()))
  {
    HeaderBytes(b);
    HeaderLies(before, WriteHeader(b), b.payload, after);
    hide WriteHeader, Put32BE, Put64BE, U32BE, U64BE, Wrap;
  }

  /** `data` holds the boxes written from `at` on, in a range up to `end`. */
  ghost predicate Holds(data: seq<byte>, at: nat, boxes: seq<Plain>, end: int) {
    && WellFormed(boxes)
    && |data| < TWO_63 && end < TWO_63
    && at + |WriteBoxes(boxes)| <= |data|
    && data[at..at + |WriteBoxes(boxes)|] == WriteBoxes(boxes)
    && Ends(data, at + |WriteBoxes(boxes)|, end)
  }

  /** The first box of several. */
  lemma HoldsFirst(data: seq<byte>, at: nat, boxes: seq<Plain>, end: int)
    requires Holds(data, at, boxes, end) && boxes != []
    ensures boxes[0].Valid() && at + boxes[0].Size() <= end
    ensures at + boxes[0].Size() <= |data| && data[at..at + boxes[0].Size()] == WriteBox(boxes[0])
    ensures Holds(data, at + boxes[0].Size(), boxes[1..], end)
  {
    var first, others := WriteBox(boxes[0]), WriteBoxes(boxes[1..]);
    assert WriteBoxes(boxes) == first + others;
    hide WriteBox, WriteBoxes, Ends;
    var written := data[at..at + |WriteBoxes(boxes)|];
    assert data[at..at + |first|] == written[..|first|];
    assert data[at + |first|..at + |first| + |others|] == written[|first|..];
  }

  lemma FirstReads(data: seq<byte>, at: nat, b: Plain, end: int)
    requires b.Valid() && |data| < TWO_63 && at + b.Size() <= |data| && at + b.Size() <= end < TWO_63
    requires data[at..at + b.Size()] == WriteBox(b)
    ensures ReadHeader(data, at, end)
         == Box(Found(b.typ, at + b.HeaderSize(), if b.form.ToEnd? then end else at + b.Size()))
  {
    hide ReadHeader, WriteBox;
    HeaderReads(data[..at], b, data[at + b.Size()..], end);
    assert data == data[..at] + (data[at..at + b.Size()] + data[at + b.Size()..]);
  }

  /** On any list of written boxes the walk reports exactly those boxes. */
  lemma {:induction false} WalkReadsBack(data: seq<byte>, at: nat, boxes: seq<Plain>, end: int)
    requires Holds(data, at, boxes, end)
    ensures Walk(data, at, end) == Ranges(boxes, at, end)
    decreases |boxes|
  {
    hide Walk, ReadHeader, Holds, WriteBox, Ranges;
    if boxes == [] {
      NoneHeld(data, at, end);
    } else {
      HoldsFirst(data, at, boxes, end);
      LastOnly(data, at, boxes, end);
      FirstReads(data, at, boxes[0], end);
      WalkStep(data, at, end);
      FirstRange(boxes, at, end);
      if boxes[0].form.ToEnd? {
        WalkBeyond(data, end, end);
        FirstRange([], end, end);
      } else {
        WalkReadsBack(data, at + boxes[0].Size(), boxes[1..], end);
      }
    }
  }

  lemma FirstRange(boxes: seq<Plain>, off: int, end: int)
    ensures boxes == [] ==> Ranges(boxes, off, end) == []
    ensures boxes != [] ==>
              var next := if boxes[0].form.ToEnd? then end else off + boxes[0].Size();
              Ranges(boxes, off, end)
              == [Found(boxes[0].typ, off + boxes[0].HeaderSize(), next)] + Ranges(boxes[1..], next, end)
  {
  }

  lemma {:induction false} NoneHeld(data: seq<byte>, at: nat, end: int)
    requires Holds(data, at, [], end)
    ensures Walk(data, at, end) == [] && Ranges([], at, end) == []
  {
  }

  lemma LastOnly(data: seq<byte>, at: nat, boxes: seq<Plain>, end: int)
    requires Holds(data, at, boxes, end) && boxes != []
    ensures |data| < TWO_63 && end < TWO_63
    ensures boxes[0].form.ToEnd? ==> boxes[1..] == []
  {
  }
}
