/** Bytes, and the integers read from them. */
module Bytes {
  type byte = x: int | 0 <= x < 256

  function U16BE(b: seq<byte>): (r: nat)
    requires |b| == 2
    ensures r < 0x1_0000
  {
    (b[0] as int) * 256 + b[1]
  }

  function U16LE(b: seq<byte>): (r: nat)
    requires |b| == 2
    ensures r < 0x1_0000
  {
    (b[1] as int) * 256 + b[0]
  }

  function U32BE(b: seq<byte>): (r: nat)
    requires |b| == 4
    ensures r < 0x1_0000_0000
  {
    U16BE(b[..2]) * 0x1_0000 + U16BE(b[2..])
  }

  function U32LE(b: seq<byte>): (r: nat)
    requires |b| == 4
    ensures r < 0x1_0000_0000
  {
    U16LE(b[2..]) * 0x1_0000 + U16LE(b[..2])
  }

  function U64BE(b: seq<byte>): (r: nat)
    requires |b| == 8
    ensures r < 0x1_0000_0000_0000_0000
  {
    U32BE(b[..4]) * 0x1_0000_0000 + U32BE(b[4..])
  }

  function Put16BE(v: nat): (b: seq<byte>)
    requires v < 0x1_0000
    ensures |b| == 2 && U16BE(b) == v
  {
    [v / 256, v % 256]
  }

  function Put16LE(v: nat): (b: seq<byte>)
    requires v < 0x1_0000
    ensures |b| == 2 && U16LE(b) == v
  {
    [v % 256, v / 256]
  }

  function Put32BE(v: nat): (b: seq<byte>)
    requires v < 0x1_0000_0000
    ensures |b| == 4 && U32BE(b) == v
  {
    var b := Put16BE(v / 0x1_0000) + Put16BE(v % 0x1_0000);
    assert b[..2] == Put16BE(v / 0x1_0000) && b[2..] == Put16BE(v % 0x1_0000);
    b
  }

  function Put32LE(v: nat): (b: seq<byte>)
    requires v < 0x1_0000_0000
    ensures |b| == 4 && U32LE(b) == v
  {
    var b := Put16LE(v % 0x1_0000) + Put16LE(v / 0x1_0000);
    assert b[..2] == Put16LE(v % 0x1_0000) && b[2..] == Put16LE(v / 0x1_0000);
    b
  }

  function Put64BE(v: nat): (b: seq<byte>)
    requires v < 0x1_0000_0000_0000_0000
    ensures |b| == 8 && U64BE(b) == v
  {
    var b := Put32BE(v / 0x1_0000_0000) + Put32BE(v % 0x1_0000_0000);
    assert b[..4] == Put32BE(v / 0x1_0000_0000) && b[4..] == Put32BE(v % 0x1_0000_0000);
    b
  }
}
