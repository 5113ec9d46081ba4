/** Bytes, and numbers in either byte order. */
module Bytes {
  type byte = x: int | 0 <= x < 256

  function Be16(f: seq<byte>, i: nat): (r: nat)
    requires i + 2 <= |f|
    ensures r < 0x1_0000
  {
    f[i] as int * 256 + f[i + 1]
  }

  function Be32(f: seq<byte>, i: nat): nat
    requires i + 4 <= |f|
  {
    Be16(f, i) * 0x1_0000 + Be16(f, i + 2)
  }

  /** The low 16 bits of v, most significant byte first. */
  function Be16Bytes(v: int): (b: seq<byte>)
    ensures |b| == 2 && Be16(b, 0) == v % 0x1_0000
  {
    var w := v % 0x1_0000;
    [w / 256, w % 256]
  }

  function Le16(f: seq<byte>, i: nat): (r: nat)
    requires i + 2 <= |f|
    ensures r < 0x1_0000
  {
    f[i] + f[i + 1] as int * 256
  }

  function Le32(f: seq<byte>, i: nat): (r: nat)
    requires i + 4 <= |f|
    ensures r < 0x1_0000_0000
  {
    Le16(f, i) + Le16(f, i + 2) * 0x1_0000
  }

  /** The low 16 bits of v, least significant byte first. */
  function Le16Bytes(v: int): (b: seq<byte>)
    ensures |b| == 2 && Le16(b, 0) == v % 0x1_0000
  {
    var w := v % 0x1_0000;
    [w % 256, w / 256]
  }

  // ----- Writing into a buffer --------------------------------------------------------------------

  function Overwritten(b: seq<byte>, at: nat, s: seq<byte>): (r: seq<byte>)
    requires at + |s| <= |b|
    ensures |r| == |b|
    ensures forall j :: 0 <= j < |b| ==> r[j] == if at <= j < at + |s| then s[j - at] else b[j]
  {
    b[..at] + s + b[at + |s|..]
  }

  lemma OverwrittenParts(b: seq<byte>, k: nat, at: nat, s: seq<byte>)
    requires k <= at && at + |s| <= |b|
    ensures Overwritten(b, at, s)[..k] == b[..k] && Overwritten(b, at, s)[k..] == Overwritten(b[k..], at - k, s)
  {
  }

  method WriteBytes(buf: array<byte>, at: nat, s: seq<byte>)
    requires at + |s| <= buf.Length
    modifies buf
    ensures buf[..] == Overwritten(old(buf[..]), at, s)
  {
    var i := 0;
    while i < |s|
      invariant 0 <= i <= |s|
      invariant forall j :: 0 <= j < i ==> buf[at + j] == s[j]
      invariant forall j :: 0 <= j < buf.Length && !(at <= j < at + i) ==> buf[j] == old(buf[j])
    {
      buf[at + i] := s[i];
      i := i + 1;
    }
    assert buf[..] == Overwritten(old(buf[..]), at, s);
  }
}
