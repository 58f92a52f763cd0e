/** The size of a HEIF image, from its image-spatial-extent properties. */
module Heif {
  import opened Bytes
  import opened BoxWalk

  const META: seq<byte> := [0x6D, 0x65, 0x74, 0x61]
  const IPRP: seq<byte> := [0x69, 0x70, 0x72, 0x70]
  const IPCO: seq<byte> := [0x69, 0x70, 0x63, 0x6F]
  const ISPE: seq<byte> := [0x69, 0x73, 0x70, 0x65]

  function Ascii(s: string): (b: seq<byte>)
    requires forall i :: 0 <= i < |s| ==> s[i] < 128 as char
  {
    seq(|s|, i requires 0 <= i < |s| => s[i] as int)
  }

  /** The types of the four boxes the search knows. */
  lemma TypesSpelt()
    ensures META == Ascii("meta") && IPRP == Ascii("iprp") && IPCO == Ascii("ipco") && ISPE == Ascii("ispe")
  {
  }

  const FILE_END := 0x100_0000_0000
  const MAX_SIDE := 0x8000_0000

  /** Sides are 32-bit. */
  datatype Extent = Extent(w: nat, h: nat)

  // ---- What is visited ---------------------------------------------------

  function ReadExtent(data: seq<byte>, body: int, boxEnd: int): seq<Extent> {
    if Wrap(boxEnd - body) >= 12 && CanRead(data, body, 12)
    then [Extent(U32BE(data[body + 4..body + 8]), U32BE(data[body + 8..body + 12]))]
    else []
  }

  /** The extents under one box; nesting stops at depth 4. */
  function BoxExtents(data: seq<byte>, f: Found, depth: nat): seq<Extent>
    requires |data| < TWO_63 && f.boxEnd < TWO_63 && depth <= 4
    decreases 4 - depth, 0, 0
  {
    if f.typ == META then
      if depth == 0 then Extents(data, f.body + 4, f.boxEnd, 1) else []
    else if f.typ == IPRP || f.typ == IPCO then
      if 0 < depth < 4 then Extents(data, f.body, f.boxEnd, depth + 1) else []
    else if f.typ == ISPE then ReadExtent(data, f.body, f.boxEnd)
    else []
  }

  predicate InRange(found: seq<Found>) { forall i :: 0 <= i < |found| ==> found[i].boxEnd < TWO_63 }

  function AllExtents(data: seq<byte>, found: seq<Found>, depth: nat): seq<Extent>
    requires |data| < TWO_63 && depth <= 4
    requires InRange(found)
    decreases 4 - depth, 1, |found|
  {
    if found == [] then [] else BoxExtents(data, found[0], depth) + AllExtents(data, found[1..], depth)
  }

  lemma {:induction false} WalkInRange(data: seq<byte>, off: int, end: int)
    requires |data| < TWO_63 && end < TWO_63
    ensures InRange(Walk(data, off, end))
    decreases Left(data, off)
  {
    hide ReadHeader;
    if off + 8 <= end && ReadHeader(data, off, end).Box? {
      WalkInRange(data, ReadHeader(data, off, end).found.boxEnd, end);
    }
  }

  function Extents(data: seq<byte>, start: int, end: int, depth: nat): seq<Extent>
    requires |data| < TWO_63 && end < TWO_63 && depth <= 4
    decreases 4 - depth, 2, 0
  {
    WalkInRange(data, start, end);
    AllExtents(data, Walk(data, start, end), depth)
  }

  // ---- The largest -------------------------------------------------------

  function Min(a: int, b: int): int { if a <= b then a else b }

  datatype Best = Best(area: int, w: int, h: int)

  function Area(e: Extent): nat {
    Product(e.w, e.h, if e.w > e.h then e.w else e.h);
    e.w * e.h
  }

  lemma Product(a: nat, b: nat, m: nat)
    requires a <= m && b <= m
    ensures 0 <= a * b <= m * m
  {
    assert a * b <= m * b;
    assert m * b <= m * m;
  }

  function Pick(b: Best, e: Extent): Best {
    var area := Wrap(Area(e));
    if area > b.area then Best(area, Min(e.w, MAX_SIDE), Min(e.h, MAX_SIDE)) else b
  }

  function PickAll(b: Best, extents: seq<Extent>): Best
    decreases |extents|
  {
    if extents == [] then b else PickAll(Pick(b, extents[0]), extents[1..])
  }

  /** Sides are read from 32 bits. */
  predicate Sides(extents: seq<Extent>) {
    forall i :: 0 <= i < |extents| ==> extents[i].w < 0x1_0000_0000 && extents[i].h < 0x1_0000_0000
  }

  /** An extent whose area the machine can hold. */
  predicate Counts(e: Extent) { 0 < Area(e) < 9223372036854775808 }

  lemma AreaWraps(e: Extent)
    requires e.w < 0x1_0000_0000 && e.h < 0x1_0000_0000
    ensures Wrap(Area(e)) > 0 <==> Counts(e)
    ensures Counts(e) ==> Wrap(Area(e)) == Area(e)
  {
    Product(e.w, e.h, 0xFFFF_FFFF);
    hide Wrap;
  }

  /** Its sides, cut off at 2^31. */
  function Clamped(e: Extent): Best {
    Best(Area(e), if e.w < 2147483648 then e.w else 2147483648, if e.h < 2147483648 then e.h else 2147483648)
  }

  /** The first of the largest extents that count. */
  predicate Winner(extents: seq<Extent>, i: int) {
    && 0 <= i < |extents| && Counts(extents[i])
    && (forall j :: 0 <= j < |extents| && Counts(extents[j]) ==> Area(extents[j]) <= Area(extents[i]))
    && (forall j :: 0 <= j < i && Counts(extents[j]) ==> Area(extents[j]) < Area(extents[i]))
  }

  predicate Covers(area: int, extents: seq<Extent>) {
    forall j :: 0 <= j < |extents| && Counts(extents[j]) ==> Area(extents[j]) <= area
  }

  lemma {:induction false} PickAllKeepsBest(b: Best, extents: seq<Extent>) returns (winner: int)
    requires b.area >= 0 && Sides(extents)
    ensures var r := PickAll(b, extents);
            && r.area >= b.area
            && (r.area == b.area ==> r == b)
            && Covers(r.area, extents)
            && (r.area > b.area ==> Winner(extents, winner) && r == Clamped(extents[winner]))
    decreases |extents|
  {
    winner := 0;
    if extents != [] {
      hide Wrap, Area;
      AreaWraps(extents[0]);
      var next := Pick(b, extents[0]);
      var later := PickAllKeepsBest(next, extents[1..]);
      var r := PickAll(b, extents);
      hide Counts;
      assert forall j :: 0 < j < |extents| ==> extents[j] == extents[1..][j - 1];
      if r.area > next.area {
        winner := later + 1;
      }
    }
  }

  /** The result is the first of the largest extents whose area fits in 63 bits,
      its sides clamped to 2^31; there is none when no extent has such an
      area. */
  lemma LargestExtent(extents: seq<Extent>) returns (winner: int)
    requires Sides(extents)
    ensures var r := PickAll(Best(0, 0, 0), extents);
            && (r.area > 0 <==> exists i :: 0 <= i < |extents| && Counts(extents[i]))
            && (r.area > 0 ==> Winner(extents, winner) && r == Clamped(extents[winner]))
            && (r.area == 0 ==> r == Best(0, 0, 0))
  {
    hide PickAll, Area;
    winner := PickAllKeepsBest(Best(0, 0, 0), extents);
  }

  /** An extent of 2^63 pixels or more wraps to a negative area and loses to any
      other, so the result is the largest of all exactly when there is no such
      extent. */
  lemma {:induction false} LargestOfAll(extents: seq<Extent>)
    requires Sides(extents)
    ensures var r := PickAll(Best(0, 0, 0), extents);
            (forall j :: 0 <= j < |extents| ==> Area(extents[j]) <= r.area)
            <==> (forall j :: 0 <= j < |extents| ==> Area(extents[j]) < 9223372036854775808)
  {
    hide PickAll, Area;
    var winner := PickAllKeepsBest(Best(0, 0, 0), extents);
  }

  // ---- The visitor -------------------------------------------------------

  class Finder {
    const data: seq<byte>
    var best: int
    var w: int
    var h: int

    function View(): Best
      reads this
    {
      Best(best, w, h)
    }

    constructor (data: seq<byte>)
      ensures this.data == data && View() == Best(0, 0, 0)
    {
      this.data := data;
      best, w, h := 0, 0, 0;
    }

    method Visit(start: int, end: int, depth: nat)
      requires |data| < TWO_63 && end < TWO_63 && depth <= 4
      modifies this
      ensures View() == PickAll(old(View()), Extents(data, start, end, depth))
      decreases 4 - depth, 1
    {
      hide Walk;
      WalkInRange(data, start, end);
      var found := WalkBoxes(data, start, end);
      var k := 0;
      while k < |found|
        invariant 0 <= k <= |found|
        invariant PickAll(View(), AllExtents(data, found[k..], depth))
                  == PickAll(old(View()), AllExtents(data, found, depth))
      {
        assert found[k..][0] == found[k] && found[k..][1..] == found[k + 1..];
        PickAllConcat(View(), BoxExtents(data, found[k], depth), AllExtents(data, found[k + 1..], depth));
        VisitBox(found[k], depth);
        k := k + 1;
      }
    }

    method VisitBox(f: Found, depth: nat)
      requires |data| < TWO_63 && f.boxEnd < TWO_63 && depth <= 4
      modifies this
      ensures View() == PickAll(old(View()), BoxExtents(data, f, depth))
      decreases 4 - depth, 0
    {
      hide Extents, Wrap, U32BE;
      if f.typ == META {
        if depth == 0 {
          Visit(f.body + 4, f.boxEnd, depth + 1);
        }
      } else if f.typ == IPRP || f.typ == IPCO {
        if depth > 0 && depth < 4 {
          Visit(f.body, f.boxEnd, depth + 1);
        }
      } else if f.typ == ISPE {
        if Wrap(f.boxEnd - f.body) >= 12 && CanRead(data, f.body, 12) {
          var bw := U32BE(data[f.body + 4..f.body + 8]);
          var bh := U32BE(data[f.body + 8..f.body + 12]);
          var area := Wrap(Area(Extent(bw, bh)));
          if area > best {
            best, w, h := area, Min(bw, MAX_SIDE), Min(bh, MAX_SIDE);
          }
        }
      }
    }
  }

  lemma {:induction false} PickAllConcat(b: Best, a: seq<Extent>, c: seq<Extent>)
    ensures PickAll(b, a + c) == PickAll(PickAll(b, a), c)
    decreases |a|
  {
    if a == [] {
      assert a + c == c;
    } else {
      PickAllConcat(Pick(b, a[0]), a[1..], c);
      assert (a + c)[1..] == a[1..] + c;
    }
  }

  /** heifDimensions: the first of the largest extents, if any counts. */
  method HeifDimensions(data: seq<byte>) returns (w: int, h: int, ok: bool)
    requires |data| < TWO_63
    ensures var r := PickAll(Best(0, 0, 0), Extents(data, 0, FILE_END, 0));
            w == r.w && h == r.h && ok == (r.area > 0)
  {
    var finder := new Finder(data);
    finder.Visit(0, FILE_END, 0);
    return finder.w, finder.h, finder.best > 0;
  }

  // ---- Files written as trees of boxes -----------------------------------

  /** A box whose payload is bytes, or boxes behind some leading bytes. */
  datatype Node =
    | Leaf(form: Form, typ: seq<byte>, payload: seq<byte>)
    | Branch(form: Form, typ: seq<byte>, lead: seq<byte>, children: seq<Node>)
  {
    /** Boxes are read as their type says. */
    predicate Sane() {
      && |typ| == 4
      && (Leaf? ==> typ != META && typ != IPRP && typ != IPCO)
      && (Branch? ==> (typ == META && |lead| == 4) || ((typ == IPRP || typ == IPCO) && lead == []))
    }
  }

  ghost function Plains(nodes: seq<Node>): (r: seq<Plain>)
    ensures |r| == |nodes|
    decreases nodes, 1
  {
    if nodes == [] then [] else [PlainOf(nodes[0])] + Plains(nodes[1..])
  }

  ghost function PlainOf(node: Node): (r: Plain)
    ensures r.typ == node.typ && r.form == node.form
    decreases node, 0
  {
    match node
    case Leaf(form, typ, payload) => Plain(form, typ, payload)
    case Branch(form, typ, lead, children) => Plain(form, typ, lead + Write(children))
  }

  ghost function Write(nodes: seq<Node>): seq<byte>
    decreases nodes, 2
  {
    var plains := Plains(nodes);
    if WellFormed(plains) then WriteBoxes(plains) else []
  }

  /** Sane boxes of sizes their forms can give, all the way down. */
  ghost predicate Writable(nodes: seq<Node>)
    decreases nodes, 2
  {
    && WellFormed(Plains(nodes))
    && (forall i :: 0 <= i < |nodes| ==> nodes[i].Sane() && (nodes[i].Branch? ==> Writable(nodes[i].children)))
  }

  /** The extents a tree declares where the nesting reaches them. */
  function Declared(nodes: seq<Node>, depth: nat): seq<Extent>
    decreases nodes, 2
  {
    if nodes == [] then [] else DeclaredBy(nodes[0], depth) + Declared(nodes[1..], depth)
  }

  function DeclaredBy(node: Node, depth: nat): seq<Extent>
    decreases node, 0
  {
    match node
    case Leaf(_, typ, payload) =>
      if typ == ISPE && |payload| >= 12 then [Extent(U32BE(payload[4..8]), U32BE(payload[8..12]))] else []
    case Branch(_, typ, _, children) =>
      if (typ == META && depth == 0) || (typ != META && 0 < depth < 4) then Declared(children, depth + 1) else []
  }

  lemma {:induction false} PlainsAt(nodes: seq<Node>)
    requires nodes != []
    ensures Plains(nodes)[0] == PlainOf(nodes[0]) && Plains(nodes)[1..] == Plains(nodes[1..])
  {
  }

  lemma {:induction false} WritableRest(nodes: seq<Node>)
    requires Writable(nodes) && nodes != []
    ensures Writable(nodes[1..]) && nodes[0].Sane() && PlainOf(nodes[0]).Valid()
    ensures nodes[0].Branch? ==> Writable(nodes[0].children)
    ensures nodes[0].form.ToEnd? ==> nodes[1..] == []
  {
    PlainsAt(nodes);
    assert forall i :: 0 <= i < |nodes[1..]| ==> Plains(nodes[1..])[i] == Plains(nodes)[i + 1];
    assert nodes[0].Sane();
  }

  /** The payload of a written box, and how far its range reaches. */
  lemma PayloadLies(data: seq<byte>, at: nat, b: Plain, boxes: seq<Plain>, end: int)
    requires Holds(data, at, [b] + boxes, end) && (b.form.ToEnd? ==> boxes == [])
    ensures var body := at + b.HeaderSize();
            var boxEnd := if b.form.ToEnd? then end else at + b.Size();
            && body + |b.payload| <= |data| && data[body..body + |b.payload|] == b.payload
            && Ends(data, body + |b.payload|, boxEnd)
  {
    var all := [b] + boxes;
    assert all[1..] == boxes;
    HoldsFirst(data, at, all, end);
    var written := WriteBox(b);
    var body := at + b.HeaderSize();
    SubSlice(data, at, b.Size(), b.HeaderSize(), b.Size());
    assert written[b.HeaderSize()..] == b.payload;
    if b.form.ToEnd? {
      HoldsNothing(data, at + b.Size(), end);
    }
  }

  lemma HoldsNothing(data: seq<byte>, at: nat, end: int)
    requires Holds(data, at, [], end)
    ensures Ends(data, at, end)
  {
  }

  lemma SubSlice(data: seq<byte>, at: nat, n: nat, i: nat, j: nat)
    requires at + n <= |data| && i <= j <= n
    ensures data[at..at + n][i..j] == data[at + i..at + j]
  {
    var slice := data[at..at + n];
    forall k | 0 <= k < j - i ensures slice[i..j][k] == data[at + i..at + j][k] {
    }
  }

  lemma ExtentLies(data: seq<byte>, body: nat, payload: seq<byte>, boxEnd: int)
    requires |data| < TWO_63 && boxEnd < TWO_63
    requires body + |payload| <= |data| && data[body..body + |payload|] == payload
    requires Ends(data, body + |payload|, boxEnd)
    ensures ReadExtent(data, body, boxEnd)
         == if |payload| >= 12 then [Extent(U32BE(payload[4..8]), U32BE(payload[8..12]))] else []
  {
    hide U32BE;
    assert 0 <= boxEnd - body < TWO_63;
    if |payload| >= 12 {
      SubSlice(data, body, |payload|, 4, 8);
      SubSlice(data, body, |payload|, 8, 12);
      assert Wrap(boxEnd - body) >= 12 && CanRead(data, body, 12);
      assert data[body + 4..body + 8] == payload[4..8];
    } else {
      assert !(Wrap(boxEnd - body) >= 12 && CanRead(data, body, 12));
    }
  }

  lemma {:induction false} WritableForm(nodes: seq<Node>)
    requires Writable(nodes)
    ensures WellFormed(Plains(nodes)) && Write(nodes) == WriteBoxes(Plains(nodes))
  {
    hide WellFormed, WriteBoxes;
  }

  /** Children behind their lead. */
  lemma {:induction false} ChildrenHeld(data: seq<byte>, body: nat, lead: seq<byte>, children: seq<Node>, boxEnd: int)
    requires Writable(children) && |data| < TWO_63 && boxEnd < TWO_63
    requires var payload := lead + Write(children);
             body + |payload| <= |data| && data[body..body + |payload|] == payload
             && Ends(data, body + |payload|, boxEnd)
    ensures Holds(data, body + |lead|, Plains(children), boxEnd)
  {
    WritableForm(children);
    hide Writable, Plains, Write, WellFormed, WriteBoxes, Ends;
    var payload := lead + Write(children);
    SubSlice(data, body, |payload|, |lead|, |payload|);
    assert payload[|lead|..] == Write(children);
  }

  /** A box whose payload lies from `body` on. */
  lemma {:induction false} NodeReadsBack(data: seq<byte>, body: nat, node: Node, boxEnd: int, depth: nat)
    requires node.Sane() && (node.Branch? ==> Writable(node.children)) && depth <= 4
    requires |data| < TWO_63 && boxEnd < TWO_63
    requires var payload := PlainOf(node).payload;
             body + |payload| <= |data| && data[body..body + |payload|] == payload
             && Ends(data, body + |payload|, boxEnd)
    ensures BoxExtents(data, Found(node.typ, body, boxEnd), depth) == DeclaredBy(node, depth)
    decreases node, 1
  {
    hide Ends, Write, Writable, Plains, BoxExtents, DeclaredBy, Node.Sane;
    if node.Leaf? {
      LeafReadsBack(data, body, node, boxEnd, depth);
    } else {
      BranchReadsBack(data, body, node, boxEnd, depth);
    }
  }

  lemma {:induction false} LeafReadsBack(data: seq<byte>, body: nat, node: Node, boxEnd: int, depth: nat)
    requires node.Leaf? && node.Sane() && depth <= 4
    requires |data| < TWO_63 && boxEnd < TWO_63
    requires body + |node.payload| <= |data| && data[body..body + |node.payload|] == node.payload
    requires Ends(data, body + |node.payload|, boxEnd)
    ensures BoxExtents(data, Found(node.typ, body, boxEnd), depth) == DeclaredBy(node, depth)
  {
    ExtentLies(data, body, node.payload, boxEnd);
    hide ReadExtent, U32BE, Ends;
  }

  lemma {:induction false} BranchReadsBack(data: seq<byte>, body: nat, node: Node, boxEnd: int, depth: nat)
    requires node.Branch? && node.Sane() && Writable(node.children) && depth <= 4
    requires |data| < TWO_63 && boxEnd < TWO_63
    requires var payload := node.lead + Write(node.children);
             body + |payload| <= |data| && data[body..body + |payload|] == payload
             && Ends(data, body + |payload|, boxEnd)
    ensures BoxExtents(data, Found(node.typ, body, boxEnd), depth) == DeclaredBy(node, depth)
    decreases node, 0
  {
    hide Holds, Ends, Extents, Declared, Write, Writable, Plains;
    assert (node.typ == META && |node.lead| == 4)
        || (node.typ != META && (node.typ == IPRP || node.typ == IPCO) && node.lead == []);
    hide Node.Sane;
    if (node.typ == META && depth == 0) || (node.typ != META && 0 < depth < 4) {
      ChildrenHeld(data, body, node.lead, node.children, boxEnd);
      TreeReadsBack(data, body + |node.lead|, node.children, boxEnd, depth + 1);
    }
  }

  lemma {:induction false} AllExtentsFirst(data: seq<byte>, f: Found, others: seq<Found>, depth: nat)
    requires |data| < TWO_63 && depth <= 4 && f.boxEnd < TWO_63
    requires InRange(others)
    ensures InRange([f] + others)
    ensures AllExtents(data, [f] + others, depth) == BoxExtents(data, f, depth) + AllExtents(data, others, depth)
  {
    hide BoxExtents;
    assert ([f] + others)[1..] == others;
  }

  /** Where the range of a sequence's first box ends. */
  ghost function FirstEnd(at: nat, nodes: seq<Node>, end: int): int
    requires nodes != []
  {
    if nodes[0].form.ToEnd? then end else at + PlainOf(nodes[0]).Size()
  }

  ghost function FirstBody(at: nat, nodes: seq<Node>): nat
    requires nodes != []
  {
    at + PlainOf(nodes[0]).HeaderSize()
  }

  lemma {:induction false} FirstHeld(data: seq<byte>, at: nat, nodes: seq<Node>, end: int)
    requires Writable(nodes) && nodes != []
    requires Holds(data, at, Plains(nodes), end)
    ensures |data| < TWO_63 && FirstEnd(at, nodes, end) < TWO_63 && end < TWO_63
    ensures var payload := PlainOf(nodes[0]).payload;
            var body := FirstBody(at, nodes);
            && body + |payload| <= |data| && data[body..body + |payload|] == payload
            && Ends(data, body + |payload|, FirstEnd(at, nodes, end))
    ensures !nodes[0].form.ToEnd? ==>
              FirstEnd(at, nodes, end) >= 0 && Holds(data, FirstEnd(at, nodes, end), Plains(nodes[1..]), end)
    ensures Ranges(Plains(nodes), at, end)
         == [Found(nodes[0].typ, FirstBody(at, nodes), FirstEnd(at, nodes, end))]
            + Ranges(Plains(nodes[1..]), FirstEnd(at, nodes, end), end)
  {
    hide Plains, PlainOf, Ranges, Holds, Ends, WriteBox, Writable, Node.Sane, Plain.Size, Plain.HeaderSize, Plain.Valid;
    assert Plains(nodes) == [PlainOf(nodes[0])] + Plains(nodes[1..])
        && (nodes[0].form.ToEnd? ==> Plains(nodes[1..]) == []) by {
      FirstNode(nodes);
    }
    FirstPlainHeld(data, at, PlainOf(nodes[0]), Plains(nodes[1..]), end);
  }

  lemma {:induction false} FirstPlainHeld(data: seq<byte>, at: nat, b: Plain, others: seq<Plain>, end: int)
    requires Holds(data, at, [b] + others, end) && (b.form.ToEnd? ==> others == [])
    ensures var next := if b.form.ToEnd? then end else at + b.Size();
            var body := at + b.HeaderSize();
            && |data| < TWO_63 && end < TWO_63 && next < TWO_63
            && body + |b.payload| <= |data| && data[body..body + |b.payload|] == b.payload
            && Ends(data, body + |b.payload|, next)
            && (!b.form.ToEnd? ==> next >= 0 && Holds(data, next, others, end))
            && Ranges([b] + others, at, end) == [Found(b.typ, body, next)] + Ranges(others, next, end)
  {
    assert ([b] + others)[0] == b && ([b] + others)[1..] == others;
    hide Ranges, Holds, Ends, WriteBox;
    HoldsFirst(data, at, [b] + others, end);
    PayloadLies(data, at, b, others, end);
    FirstRange([b] + others, at, end);
  }

  lemma {:induction false} NodesReadBack(data: seq<byte>, at: nat, nodes: seq<Node>, end: int, depth: nat)
    requires Writable(nodes) && depth <= 4
    requires Holds(data, at, Plains(nodes), end)
    ensures |data| < TWO_63 && end < TWO_63
    ensures var found := Ranges(Plains(nodes), at, end);
            InRange(found) && AllExtents(data, found, depth) == Declared(nodes, depth)
    decreases nodes, 2
  {
    hide Plains, PlainOf, BoxExtents, AllExtents, Declared, DeclaredBy, Ranges, Holds, Ends, InRange, FirstEnd, FirstBody;
    if nodes == [] {
      NoNodes(data, at, end, depth);
    } else {
      FirstNode(nodes);
      hide Writable, Node.Sane;
      FirstHeld(data, at, nodes, end);
      NodeReadsBack(data, FirstBody(at, nodes), nodes[0], FirstEnd(at, nodes, end), depth);
      if nodes[0].form.ToEnd? {
        NothingDeclared(data, depth);
        FirstRange([], FirstEnd(at, nodes, end), end);
      } else {
        NodesReadBack(data, FirstEnd(at, nodes, end), nodes[1..], end, depth);
      }
      DeclaredFirst(nodes, depth);
      AllExtentsFirst(data, Found(nodes[0].typ, FirstBody(at, nodes), FirstEnd(at, nodes, end)),
                      Ranges(Plains(nodes[1..]), FirstEnd(at, nodes, end), end), depth);
    }
  }

  lemma {:induction false} NoNodes(data: seq<byte>, at: nat, end: int, depth: nat)
    requires Holds(data, at, Plains([]), end) && depth <= 4
    ensures |data| < TWO_63 && end < TWO_63
    ensures var found := Ranges(Plains([]), at, end);
            InRange(found) && AllExtents(data, found, depth) == Declared([], depth)
  {
    NothingDeclared(data, depth);
  }

  lemma {:induction false} DeclaredFirst(nodes: seq<Node>, depth: nat)
    requires nodes != []
    ensures Declared(nodes, depth) == DeclaredBy(nodes[0], depth) + Declared(nodes[1..], depth)
  {
    hide DeclaredBy;
  }

  lemma {:induction false} FirstNode(nodes: seq<Node>)
    requires Writable(nodes) && nodes != []
    ensures Plains(nodes) == [PlainOf(nodes[0])] + Plains(nodes[1..])
    ensures ([PlainOf(nodes[0])] + Plains(nodes[1..]))[0] == PlainOf(nodes[0])
    ensures ([PlainOf(nodes[0])] + Plains(nodes[1..]))[1..] == Plains(nodes[1..])
    ensures Writable(nodes[1..]) && nodes[0].Sane() && (nodes[0].Branch? ==> Writable(nodes[0].children))
    ensures nodes[0].form.ToEnd? ==> nodes[1..] == [] && Plains(nodes[1..]) == []
  {
    PlainsAt(nodes);
    WritableRest(nodes);
    hide Writable;
  }

  lemma {:induction false} NothingDeclared(data: seq<byte>, depth: nat)
    requires |data| < TWO_63 && depth <= 4
    ensures InRange([]) && Declared([], depth) == [] && AllExtents(data, [], depth) == []
  {
  }

  lemma {:induction false} TreeReadsBack(data: seq<byte>, at: nat, nodes: seq<Node>, end: int, depth: nat)
    requires Writable(nodes) && depth <= 4
    requires Holds(data, at, Plains(nodes), end)
    ensures |data| < TWO_63 && end < TWO_63
    ensures Extents(data, at, end, depth) == Declared(nodes, depth)
    decreases nodes, 3
  {
    NodesReadBack(data, at, nodes, end, depth);
    hide Holds, Plains, Writable, Declared;
    WalkReadsBack(data, at, Plains(nodes), end);
  }

  /** Whatever the boxes of a file, their sizes and their nesting, the extents
      visited are those declared at file level, in the top-level metadata, or in
      the property boxes nested in that, up to the depth the walk goes to, in
      order. */
  lemma {:induction false} FileReadsBack(nodes: seq<Node>)
    requires Writable(nodes) && |Write(nodes)| <= 0x100_0000_0000
    ensures Extents(Write(nodes), 0, FILE_END, 0) == Declared(nodes, 0)
  {
    TreeReadsBack(Write(nodes), 0, nodes, FILE_END, 0);
  }

  // ---- The promise -------------------------------------------------------

  lemma {:induction false} SidesUnderBox(data: seq<byte>, f: Found, depth: nat)
    requires |data| < TWO_63 && f.boxEnd < TWO_63 && depth <= 4
    ensures Sides(BoxExtents(data, f, depth))
    decreases 4 - depth, 0, 0
  {
    hide Extents;
    if f.typ == META && depth == 0 {
      SidesOfExtents(data, f.body + 4, f.boxEnd, 1);
    } else if (f.typ == IPRP || f.typ == IPCO) && 0 < depth < 4 {
      SidesOfExtents(data, f.body, f.boxEnd, depth + 1);
    }
  }

  lemma {:induction false} SidesUnderBoxes(data: seq<byte>, found: seq<Found>, depth: nat)
    requires |data| < TWO_63 && depth <= 4 && InRange(found)
    ensures Sides(AllExtents(data, found, depth))
    decreases 4 - depth, 1, |found|
  {
    if found != [] {
      hide BoxExtents, Sides;
      SidesUnderBox(data, found[0], depth);
      SidesUnderBoxes(data, found[1..], depth);
    }
  }

  lemma {:induction false} SidesOfExtents(data: seq<byte>, start: int, end: int, depth: nat)
    requires |data| < TWO_63 && end < TWO_63 && depth <= 4
    ensures Sides(Extents(data, start, end, depth))
    decreases 4 - depth, 2, 0
  {
    WalkInRange(data, start, end);
    SidesUnderBoxes(data, Walk(data, start, end), depth);
  }

  /** What HeifDimensions returns for a written file: the first of the largest
      declared extents of fewer than 2^63 pixels, sides clamped to 2^31. */
  lemma DimensionsOfFile(nodes: seq<Node>) returns (winner: int)
    requires Writable(nodes) && |Write(nodes)| <= 0x100_0000_0000
    ensures var r := PickAll(Best(0, 0, 0), Extents(Write(nodes), 0, FILE_END, 0));
            var declared := Declared(nodes, 0);
            && (r.area > 0 <==> exists i :: 0 <= i < |declared| && Counts(declared[i]))
            && (r.area > 0 ==> Winner(declared, winner) && r == Clamped(declared[winner]))
  {
    hide Writable, Extents, Declared, Write;
    FileReadsBack(nodes);
    SidesOfExtents(Write(nodes), 0, FILE_END, 0);
    winner := LargestExtent(Declared(nodes, 0));
  }
}
