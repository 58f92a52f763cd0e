/** Baking an Exif orientation into the pixels. */
module Orientation {
  import opened Bytes

  type Pixel = (nat, nat)

  predicate Inside(w: nat, h: nat, p: Pixel) { p.0 < w && p.1 < h }

  predicate Sideways(o: int) { 5 <= o <= 8 }

  function Width(o: int, w: nat, h: nat): nat { if Sideways(o) then h else w }

  function Height(o: int, w: nat, h: nat): nat { if Sideways(o) then w else h }

  /** Where a pixel of a w by h image goes. */
  function Target(o: int, w: nat, h: nat, p: Pixel): (r: Pixel)
    requires 1 <= o <= 8 && Inside(w, h, p)
    ensures Inside(Width(o, w, h), Height(o, w, h), r)
  {
    var (x, y) := p;
    match o
    case 2 => (w - 1 - x, y)
    case 3 => (w - 1 - x, h - 1 - y)
    case 4 => (x, h - 1 - y)
    case 5 => (y, x)
    case 6 => (h - 1 - y, x)
    case 7 => (h - 1 - y, w - 1 - x)
    case 8 => (y, w - 1 - x)
    case _ => (x, y)
  }

  /** The orientation that undoes one. */
  function Undo(o: int): int { if o == 6 then 8 else if o == 8 then 6 else o }

  /** 8 undoes 6, 6 undoes 8, and every other orientation undoes itself. */
  lemma UndoRestores(o: int, w: nat, h: nat, p: Pixel)
    requires 1 <= o <= 8 && Inside(w, h, p)
    ensures Target(Undo(o), Width(o, w, h), Height(o, w, h), Target(o, w, h, p)) == p
    ensures Width(Undo(o), Width(o, w, h), Height(o, w, h)) == w && Height(Undo(o), Width(o, w, h), Height(o, w, h)) == h
  {
    assert o == 1 || o == 2 || o == 3 || o == 4 || o == 5 || o == 6 || o == 7 || o == 8;
  }

  /** Every pixel of the result comes from exactly one pixel of the image. */
  lemma TargetIsBijection(o: int, w: nat, h: nat, d: Pixel)
    requires 1 <= o <= 8 && Inside(Width(o, w, h), Height(o, w, h), d)
    ensures exists p :: Inside(w, h, p) && Target(o, w, h, p) == d
    ensures forall p, q :: Inside(w, h, p) && Inside(w, h, q) && Target(o, w, h, p) == Target(o, w, h, q) ==> p == q
  {
    UndoRestores(Undo(o), Width(o, w, h), Height(o, w, h), d);
    var p := Target(Undo(o), Width(o, w, h), Height(o, w, h), d);
    assert Undo(Undo(o)) == o;
    assert Target(o, w, h, p) == d;
    forall p, q | Inside(w, h, p) && Inside(w, h, q) && Target(o, w, h, p) == Target(o, w, h, q) ensures p == q {
      UndoRestores(o, w, h, p);
      UndoRestores(o, w, h, q);
    }
  }

  // ---- The symmetries of the rectangle -----------------------------------

  /** An orientation as a mirroring, if any, followed by quarter turns. */
  function Mirrored(o: int): bool { o == 2 || o == 4 || o == 5 || o == 7 }

  function Turns(o: int): nat {
    if o == 6 || o == 7 then 1 else if o == 3 || o == 4 then 2 else if o == 8 || o == 5 then 3 else 0
  }

  function FromTurns(mirrored: bool, turns: nat): (o: int)
    requires turns < 4
    ensures 1 <= o <= 8 && Mirrored(o) == mirrored && Turns(o) == turns
  {
    if turns == 0 then (if mirrored then 2 else 1)
    else if turns == 1 then (if mirrored then 7 else 6)
    else if turns == 2 then (if mirrored then 4 else 3)
    else (if mirrored then 5 else 8)
  }

  /** The single orientation equal to `a` and then `b`. */
  function Compose(a: int, b: int): (o: int)
    ensures 1 <= o <= 8
  {
    FromTurns(Mirrored(a) != Mirrored(b), (Turns(b) + (if Mirrored(b) then 4 - Turns(a) else Turns(a))) % 4)
  }

  lemma ComposeUpright(a: int, b: int, w: nat, h: nat, p: Pixel)
    requires 1 <= a <= 2 && 1 <= b <= 8 && Inside(w, h, p)
    ensures Target(b, w, h, Target(a, w, h, p)) == Target(Compose(a, b), w, h, p)
  {
    assert b == 1 || b == 2 || b == 3 || b == 4 || b == 5 || b == 6 || b == 7 || b == 8;
  }

  lemma ComposeUpsideDown(a: int, b: int, w: nat, h: nat, p: Pixel)
    requires 3 <= a <= 4 && 1 <= b <= 8 && Inside(w, h, p)
    ensures Target(b, w, h, Target(a, w, h, p)) == Target(Compose(a, b), w, h, p)
  {
    assert b == 1 || b == 2 || b == 3 || b == 4 || b == 5 || b == 6 || b == 7 || b == 8;
  }

  lemma ComposeTurned(a: int, b: int, w: nat, h: nat, p: Pixel)
    requires (a == 6 || a == 8) && 1 <= b <= 8 && Inside(w, h, p)
    ensures Target(b, h, w, Target(a, w, h, p)) == Target(Compose(a, b), w, h, p)
  {
    assert b == 1 || b == 2 || b == 3 || b == 4 || b == 5 || b == 6 || b == 7 || b == 8;
  }

  lemma ComposeTransposed(a: int, b: int, w: nat, h: nat, p: Pixel)
    requires (a == 5 || a == 7) && 1 <= b <= 8 && Inside(w, h, p)
    ensures Target(b, h, w, Target(a, w, h, p)) == Target(Compose(a, b), w, h, p)
  {
    assert b == 1 || b == 2 || b == 3 || b == 4 || b == 5 || b == 6 || b == 7 || b == 8;
  }

  /** Orientations compose as the eight symmetries of a rectangle do. */
  lemma ComposeTargets(a: int, b: int, w: nat, h: nat, p: Pixel)
    requires 1 <= a <= 8 && 1 <= b <= 8 && Inside(w, h, p)
    ensures Target(b, Width(a, w, h), Height(a, w, h), Target(a, w, h, p)) == Target(Compose(a, b), w, h, p)
    ensures Compose(a, Undo(a)) == 1
  {
    hide Target;
    if a <= 2 {
      ComposeUpright(a, b, w, h, p);
    } else if a <= 4 {
      ComposeUpsideDown(a, b, w, h, p);
    } else if a == 6 || a == 8 {
      ComposeTurned(a, b, w, h, p);
    } else {
      ComposeTransposed(a, b, w, h, p);
    }
  }

  // ---- Pixels as bytes ---------------------------------------------------

  /** PixOffset of an RGBA image that starts at the origin. */
  function PixOffset(w: nat, p: Pixel): nat { p.1 * (4 * w) + p.0 * 4 }

  lemma RowsFit(w: nat, h: nat, y: nat)
    requires y < h
    ensures y * (4 * w) + 4 * w <= 4 * w * h
  {
    assert (y + 1) * (4 * w) <= h * (4 * w);
  }

  lemma OffsetFits(w: nat, h: nat, p: Pixel)
    requires Inside(w, h, p)
    ensures PixOffset(w, p) + 4 <= 4 * w * h
  {
    RowsFit(w, h, p.1);
  }

  function PixelAt(w: nat, k: nat): Pixel
    requires w > 0
  {
    (k / 4 % w, k / 4 / w)
  }

  lemma DivMod(q: nat, d: nat, r: nat)
    requires r < d
    ensures (q * d + r) / d == q && (q * d + r) % d == r
  {
    var n := q * d + r;
    assert n == n / d * d + n % d;
    assert (q - n / d) * d == n % d - r;
    NoMultipleBetween(q - n / d, d);
  }

  lemma NoMultipleBetween(k: int, d: int)
    requires -d < k * d < d
    ensures k == 0
  {
  }

  lemma Widen(w: nat, a: nat, b: nat)
    ensures a <= b ==> w * a <= w * b
  {
  }

  lemma OffsetDecodes(w: nat, h: nat, p: Pixel, c: nat)
    requires Inside(w, h, p) && c < 4
    ensures PixelAt(w, PixOffset(w, p) + c) == p && (PixOffset(w, p) + c) % 4 == c
  {
    var k := p.1 * w + p.0;
    assert p.1 * (4 * w) == 4 * (p.1 * w);
    assert PixOffset(w, p) + c == k * 4 + c;
    DivMod(k, 4, c);
    DivMod(p.1, w, p.0);
  }

  lemma OffsetEncodes(w: nat, h: nat, k: nat)
    requires k < 4 * w * h
    ensures w > 0 && Inside(w, h, PixelAt(w, k)) && PixOffset(w, PixelAt(w, k)) + k % 4 == k
  {
    var n := k / 4;
    assert 4 * w * h == 4 * (w * h);
    assert n < w * h;
    var q, r := n / w, n % w;
    assert n == w * q + r;
    Widen(w, h, q);
    assert q * (4 * w) == 4 * (w * q);
  }

  /** Which byte of the image ends up as byte `k` of the result. */
  function SourceByte(o: int, w: nat, h: nat, k: nat): (s: nat)
    requires 1 <= o <= 8 && k < 4 * Width(o, w, h) * Height(o, w, h)
    ensures s < 4 * w * h
  {
    var dw, dh := Width(o, w, h), Height(o, w, h);
    OffsetEncodes(dw, dh, k);
    UndoRestores(Undo(o), dw, dh, PixelAt(dw, k));
    var p := Target(Undo(o), dw, dh, PixelAt(dw, k));
    OffsetFits(w, h, p);
    PixOffset(w, p) + k % 4
  }

  lemma SameArea(o: int, w: nat, h: nat)
    ensures 4 * Width(o, w, h) * Height(o, w, h) == 4 * w * h
  {
    assert 4 * w * h == 4 * h * w;
  }

  /** The image turned upright, byte by byte. */
  function Oriented(o: int, w: nat, h: nat, pix: seq<byte>): (r: seq<byte>)
    requires 1 <= o <= 8 && |pix| == 4 * w * h
    ensures |r| == |pix|
  {
    SameArea(o, w, h);
    seq(|pix|, k requires 0 <= k < |pix| => pix[SourceByte(o, w, h, k)])
  }

  /** The byte map is undone by the undoing orientation. */
  lemma SourceByteInverts(o: int, w: nat, h: nat, k: nat)
    requires 1 <= o <= 8 && k < 4 * w * h
    ensures var dw, dh := Width(o, w, h), Height(o, w, h);
            var s := SourceByte(Undo(o), dw, dh, k);
            s < 4 * dw * dh && SourceByte(o, w, h, s) == k
  {
    hide Target, Undo, Width, Height, PixelAt, PixOffset;
    var dw, dh := Width(o, w, h), Height(o, w, h);
    SameArea(o, w, h);
    Undoes(o, w, h);
    OffsetEncodes(w, h, k);
    var p := PixelAt(w, k);
    var d := Target(o, w, h, p);
    UndoRestores(o, w, h, p);
    OffsetFits(dw, dh, d);
    SameArea(Undo(o), dw, dh);
    assert SourceByte(Undo(o), dw, dh, k) == PixOffset(dw, d) + k % 4;
    OffsetDecodes(dw, dh, d, k % 4);
  }

  lemma Undoes(o: int, w: nat, h: nat)
    requires 1 <= o <= 8
    ensures 1 <= Undo(o) <= 8
    ensures Undo(Undo(o)) == o
    ensures Width(Undo(o), Width(o, w, h), Height(o, w, h)) == w && Height(Undo(o), Width(o, w, h), Height(o, w, h)) == h
  {
  }

  /** Turning an image and turning it back gives the same bytes. */
  lemma RoundTrip(o: int, w: nat, h: nat, pix: seq<byte>)
    requires 1 <= o <= 8 && |pix| == 4 * w * h
    ensures 4 * Width(o, w, h) * Height(o, w, h) == |pix|
    ensures Oriented(Undo(o), Width(o, w, h), Height(o, w, h), Oriented(o, w, h, pix)) == pix
  {
    var dw, dh := Width(o, w, h), Height(o, w, h);
    SameArea(o, w, h);
    Undoes(o, w, h);
    var turned := Oriented(o, w, h, pix);
    var back := Oriented(Undo(o), dw, dh, turned);
    hide Undo, Width, Height, SourceByte;
    forall k | 0 <= k < |pix| ensures back[k] == pix[k] {
      SourceByteInverts(o, w, h, k);
      assert back[k] == turned[SourceByte(Undo(o), dw, dh, k)];
    }
  }

  // ---- What a tag value means --------------------------------------------

  /** Where the first row, or the first column, of the stored pixels belongs in
      the picture (tag 274 of TIFF 6.0, section 8). */
  datatype Side = Top | Right | Bottom | Left

  function FirstRow(o: int): Side {
    match o
    case 3 => Bottom
    case 4 => Bottom
    case 5 => Left
    case 6 => Right
    case 7 => Right
    case 8 => Left
    case _ => Top
  }

  function FirstColumn(o: int): Side {
    match o
    case 2 => Right
    case 3 => Right
    case 5 => Top
    case 6 => Top
    case 7 => Bottom
    case 8 => Bottom
    case _ => Left
  }

  /** A place of a picture that lies so many pixels in from one of its sides. */
  predicate InFrom(side: Side, steps: nat, w: nat, h: nat, p: Pixel) {
    match side
    case Top => p.1 == steps
    case Right => p.0 == w - 1 - steps
    case Bottom => p.1 == h - 1 - steps
    case Left => p.0 == steps
  }

  /** A byte of a pixel in a picture kept row by row, four bytes a pixel. */
  function ByteOf(w: nat, p: Pixel, c: nat): nat { 4 * (p.1 * w + p.0) + c }

  /** The picture is upright: it stands `dw` by `dh`, on its side if the first
      row does, and the pixel in row y and column x of the stored ones is seen y
      steps in from the first row's side and x steps in from the first
      column's, all four of its bytes. */
  lemma OrientedIsUpright(o: int, w: nat, h: nat, pix: seq<byte>, x: nat, y: nat, c: nat) returns (seen: Pixel)
    requires 1 <= o <= 8 && |pix| == 4 * w * h && x < w && y < h && c < 4
    ensures var (dw, dh) := if FirstRow(o).Top? || FirstRow(o).Bottom? then (w, h) else (h, w);
            && Width(o, w, h) == dw && Height(o, w, h) == dh
            && InFrom(FirstRow(o), y, dw, dh, seen) && InFrom(FirstColumn(o), x, dw, dh, seen)
            && ByteOf(w, (x, y), c) < |pix| && ByteOf(dw, seen, c) < |pix|
            && Oriented(o, w, h, pix)[ByteOf(dw, seen, c)] == pix[ByteOf(w, (x, y), c)]
  {
    var p: Pixel := (x, y);
    seen := Target(o, w, h, p);
    assert InFrom(FirstRow(o), y, Width(o, w, h), Height(o, w, h), seen)
           && InFrom(FirstColumn(o), x, Width(o, w, h), Height(o, w, h), seen) by {
      assert o == 1 || o == 2 || o == 3 || o == 4 || o == 5 || o == 6 || o == 7 || o == 8;
    }
    UndoRestores(o, w, h, p);
    SeenFrom(o, w, h, pix, p, seen, c);
    hide Target, Undo, InFrom, Oriented, ByteOf;
  }

  lemma SeenFrom(o: int, w: nat, h: nat, pix: seq<byte>, p: Pixel, seen: Pixel, c: nat)
    requires 1 <= o <= 8 && |pix| == 4 * w * h && Inside(w, h, p) && c < 4
    requires Inside(Width(o, w, h), Height(o, w, h), seen)
    requires Target(Undo(o), Width(o, w, h), Height(o, w, h), seen) == p
    ensures var dw := Width(o, w, h);
            && ByteOf(w, p, c) < |pix| && ByteOf(dw, seen, c) < |pix|
            && Oriented(o, w, h, pix)[ByteOf(dw, seen, c)] == pix[ByteOf(w, p, c)]
  {
    var dw, dh := Width(o, w, h), Height(o, w, h);
    hide Target, Undo, Width, Height, PixelAt;
    SameArea(o, w, h);
    OffsetFits(w, h, p);
    OffsetFits(dw, dh, seen);
    assert PixOffset(w, p) == 4 * (p.1 * w + p.0) && PixOffset(dw, seen) == 4 * (seen.1 * dw + seen.0);
    OffsetDecodes(dw, dh, seen, c);
  }

  // ---- The loop ----------------------------------------------------------

  lemma OffsetApart(w: nat, h: nat, p: Pixel, q: Pixel, c: nat, d: nat)
    requires Inside(w, h, p) && Inside(w, h, q) && c < 4 && d < 4
    requires PixOffset(w, p) + c == PixOffset(w, q) + d
    ensures p == q && c == d
  {
    OffsetDecodes(w, h, p, c);
    OffsetDecodes(w, h, q, d);
  }

  /** The pixels that rows up to `y`, and row `y` up to `x`, have put in place. */
  ghost predicate Placed(o: int, w: nat, h: nat, pix: seq<byte>, out: seq<byte>, x: nat, y: nat)
    requires 1 <= o <= 8 && |pix| == 4 * w * h && |out| == |pix|
  {
    forall p: Pixel, c: nat | Inside(w, h, p) && c < 4 && (p.1 < y || (p.1 == y && p.0 < x)) ::
      Copied(o, w, h, pix, out, p, c)
  }

  ghost predicate Copied(o: int, w: nat, h: nat, pix: seq<byte>, out: seq<byte>, p: Pixel, c: nat)
    requires 1 <= o <= 8 && |pix| == 4 * w * h && |out| == |pix|
    requires Inside(w, h, p) && c < 4
  {
    var di := PixOffset(Width(o, w, h), Target(o, w, h, p)) + c;
    OffsetFits(w, h, p);
    di < |out| && out[di] == pix[PixOffset(w, p) + c]
  }

  /** When every pixel is in place the bytes are the upright image. */
  lemma AllPlaced(o: int, w: nat, h: nat, pix: seq<byte>, out: seq<byte>)
    requires 1 <= o <= 8 && |pix| == 4 * w * h && |out| == |pix|
    requires Placed(o, w, h, pix, out, 0, h)
    ensures out == Oriented(o, w, h, pix)
  {
    hide Undo, Target, Width, Height, PixelAt, PixOffset;
    var dw, dh := Width(o, w, h), Height(o, w, h);
    SameArea(o, w, h);
    Undoes(o, w, h);
    forall k | 0 <= k < |pix| ensures out[k] == Oriented(o, w, h, pix)[k] {
      OffsetEncodes(dw, dh, k);
      var d := PixelAt(dw, k);
      var p := Target(Undo(o), dw, dh, d);
      UndoRestores(Undo(o), dw, dh, d);
      assert Copied(o, w, h, pix, out, p, k % 4);
    }
  }

  /** Writing one pixel leaves the ones in place alone: no two pixels share an
      output byte. */
  lemma PlaceOne(o: int, w: nat, h: nat, pix: seq<byte>, out: seq<byte>, after: seq<byte>, x: nat, y: nat)
    requires 1 <= o <= 8 && |pix| == 4 * w * h && |out| == |pix| && |after| == |pix|
    requires Inside(w, h, (x, y)) && Placed(o, w, h, pix, out, x, y)
    requires forall c: nat :: c < 4 ==> Copied(o, w, h, pix, after, (x, y), c)
    requires var di := PixOffset(Width(o, w, h), Target(o, w, h, (x, y)));
             forall k :: 0 <= k < |out| && !(di <= k < di + 4) ==> after[k] == out[k]
    ensures Placed(o, w, h, pix, after, x + 1, y)
  {
    hide Undo, PixOffset, Target, Width, Height;
    var dw, dh := Width(o, w, h), Height(o, w, h);
    SameArea(o, w, h);
    forall p: Pixel, c: nat | Inside(w, h, p) && c < 4 && (p.1 < y || (p.1 == y && p.0 < x + 1))
      ensures Copied(o, w, h, pix, after, p, c)
    {
      if p != (x, y) {
        assert Copied(o, w, h, pix, out, p, c);
        var d, e := Target(o, w, h, p), Target(o, w, h, (x, y));
        var k := PixOffset(dw, d) + c;
        if PixOffset(dw, e) <= k < PixOffset(dw, e) + 4 {
          OffsetApart(dw, dh, d, e, c, k - PixOffset(dw, e));
          TargetIsBijection(o, w, h, d);
        }
      }
    }
  }

  method CopyPixel(pix: array<byte>, si: nat, out: array<byte>, di: nat)
    requires out != pix && si + 4 <= pix.Length && di + 4 <= out.Length
    modifies out
    ensures forall k :: di <= k < di + 4 ==> out[k] == pix[si + (k - di)]
    ensures forall k :: 0 <= k < out.Length && !(di <= k < di + 4) ==> out[k] == old(out[k])
  {
    out[di], out[di + 1], out[di + 2], out[di + 3] := pix[si], pix[si + 1], pix[si + 2], pix[si + 3];
  }

  lemma NothingPlaced(o: int, w: nat, h: nat, pix: seq<byte>, out: seq<byte>)
    requires 1 <= o <= 8 && |pix| == 4 * w * h && |out| == |pix|
    ensures Placed(o, w, h, pix, out, 0, 0)
  {
    hide Copied;
  }

  /** Copies an image's pixels to where its orientation puts them. `pix` holds
      w * h pixels of four bytes, row by row. */
  method ApplyOrientation(pix: array<byte>, w: nat, h: nat, o: int) returns (out: array<byte>, dw: nat, dh: nat)
    requires pix.Length == 4 * w * h
    ensures o <= 1 || o > 8 ==> out == pix && dw == w && dh == h
    ensures 1 < o <= 8 ==> dw == Width(o, w, h) && dh == Height(o, w, h) && out[..] == Oriented(o, w, h, pix[..])
  {
    if o <= 1 || o > 8 {
      return pix, w, h;
    }
    dw, dh := w, h;
    if o >= 5 {
      dw, dh := h, w;
    }
    SameArea(o, w, h);
    out := new byte[4 * dw * dh](_ => 0);
    hide Placed, Undo, Target, PixOffset, Oriented;
    NothingPlaced(o, w, h, pix[..], out[..]);
    var y := 0;
    while y < h
      invariant y <= h
      invariant Placed(o, w, h, pix[..], out[..], 0, y)
    {
      var x := 0;
      while x < w
        invariant x <= w
        invariant Placed(o, w, h, pix[..], out[..], x, y)
      {
        var d := Target(o, w, h, (x, y));
        var si := PixOffset(w, (x, y));
        var di := PixOffset(dw, d);
        OffsetFits(w, h, (x, y));
        OffsetFits(dw, dh, d);
        ghost var before := out[..];
        CopyPixel(pix, si, out, di);
        forall c: nat | c < 4 ensures Copied(o, w, h, pix[..], out[..], (x, y), c) {
          assert out[di + c] == pix[si + c];
        }
        PlaceOne(o, w, h, pix[..], before, out[..], x, y);
        x := x + 1;
      }
      NextRow(o, w, h, pix[..], out[..], y);
      y := y + 1;
    }
    AllPlaced(o, w, h, pix[..], out[..]);
  }

  lemma NextRow(o: int, w: nat, h: nat, pix: seq<byte>, out: seq<byte>, y: nat)
    requires 1 <= o <= 8 && |pix| == 4 * w * h && |out| == |pix|
    requires Placed(o, w, h, pix, out, w, y)
    ensures Placed(o, w, h, pix, out, 0, y + 1)
  {
    hide Copied;
  }

  // ---- scaleToFit --------------------------------------------------------

  function Max(a: int, b: int): int { if a >= b then a else b }

  /** The size an image is stored at. */
  function ScaledSize(w: nat, h: nat, maxEdge: nat): (int, int) {
    var long := Max(w, h);
    if long > maxEdge then (Max(1, w * maxEdge / long), Max(1, h * maxEdge / long)) else (w, h)
  }

  /** Neither side of a stored image exceeds the limit, none vanishes, an image
      that fits keeps its size, and no side is off its exact proportion by a
      whole pixel unless it had shrunk to nothing. */
  lemma ScaledFits(w: nat, h: nat, maxEdge: nat)
    requires w > 0 && h > 0 && maxEdge > 0
    ensures var (sw, sh) := ScaledSize(w, h, maxEdge);
            var long := Max(w, h);
            && 1 <= sw <= maxEdge && 1 <= sh <= maxEdge
            && (Max(w, h) <= maxEdge ==> (sw, sh) == (w, h))
            && (long > maxEdge ==>
                  && Max(sw, sh) == maxEdge
                  && (sw > 1 ==> sw * long <= w * maxEdge < (sw + 1) * long)
                  && (sh > 1 ==> sh * long <= h * maxEdge < (sh + 1) * long))
  {
    var long := Max(w, h);
    ScaledSide(w, long, maxEdge);
    ScaledSide(h, long, maxEdge);
  }

  lemma ScaledSide(side: nat, long: nat, maxEdge: nat)
    requires 0 < side <= long && maxEdge > 0
    ensures side * maxEdge / long <= maxEdge
    ensures side == long ==> side * maxEdge / long == maxEdge
    ensures side * maxEdge / long * long <= side * maxEdge < (side * maxEdge / long + 1) * long
  {
    Widen(maxEdge, side, long);
    DivMod(maxEdge, long, 0);
  }
}
