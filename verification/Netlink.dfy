/** Netlink attributes: building them in a request (nlattr.h) and parsing them (nlattr.c). */
module Netlink {
  import opened Numbers
  import opened Bytes

  const HDR := 4
  const NESTED := 0x8000
  const TYPE_RANGE := 0x4000

  function Align(n: nat): (r: nat)
    ensures r % 4 == 0 && n <= r < n + 4
  {
    (n + 3) / 4 * 4
  }

  // ----- Attribute trees and their encodings ------------------------------------------------------

  datatype Attr = Plain(ty: nat, payload: seq<byte>) | Nest(ty: nat, kids: seq<Attr>)

  /** The type field of a nested attribute. */
  function NestedType(ty: nat): nat { if ty % 0x1_0000 >= NESTED then ty % 0x1_0000 else ty % 0x1_0000 + NESTED }

  /** Bytes taken, including padding. */
  function Size(a: Attr): (n: nat)
    ensures n % 4 == 0 && n >= HDR
  {
    match a
    case Plain(_, p) => Align(HDR + |p|)
    case Nest(_, kids) => HDR + SizeAll(kids)
  }

  function SizeAll(s: seq<Attr>): (n: nat)
    ensures n % 4 == 0
  {
    if s == [] then 0 else Size(s[0]) + SizeAll(s[1..])
  }

  /** b is an encoding of a; padding may hold anything. */
  ghost predicate Encodes(b: seq<byte>, a: Attr)
    decreases a, 1
  {
    |b| == Size(a) < 0x1_0000 &&
    match a
    case Plain(ty, p) => Le16(b, 0) == HDR + |p| && Le16(b, 2) == ty % 0x1_0000 && b[HDR..HDR + |p|] == p
    case Nest(ty, kids) => Le16(b, 0) == Size(a) && Le16(b, 2) == NestedType(ty) && EncodesAll(b[HDR..], kids)
  }

  ghost predicate EncodesAll(b: seq<byte>, s: seq<Attr>)
    decreases s, 0
  {
    |b| == SizeAll(s) &&
    (s == [] || (Encodes(b[..Size(s[0])], s[0]) && EncodesAll(b[Size(s[0])..], s[1..])))
  }

  lemma {:induction false} SizeAllAppend(s: seq<Attr>, a: Attr)
    ensures SizeAll(s + [a]) == SizeAll(s) + Size(a)
    decreases |s|
  {
    if s == [] {
      assert s + [a] == [a] && [a][1..] == [];
    } else {
      assert (s + [a])[0] == s[0] && (s + [a])[1..] == s[1..] + [a];
      SizeAllAppend(s[1..], a);
    }
  }

  lemma {:induction false} EncodesAppend(b: seq<byte>, s: seq<Attr>, c: seq<byte>, a: Attr)
    requires EncodesAll(b, s) && Encodes(c, a)
    ensures EncodesAll(b + c, s + [a])
    decreases |s|
  {
    SizeAllAppend(s, a);
    if s == [] {
      assert b + c == c && s + [a] == [a] && [a][1..] == [];
      assert c[..Size(a)] == c && c[Size(a)..] == [];
    } else {
      var n := Size(s[0]);
      assert (s + [a])[0] == s[0] && (s + [a])[1..] == s[1..] + [a];
      assert (b + c)[..n] == b[..n] && (b + c)[n..] == b[n..] + c;
      EncodesAppend(b[n..], s[1..], c, a);
    }
  }

  // ----- Parsing ----------------------------------------------------------------------------------

  /** An attribute found in a stream: where its header is, its length and its type without flags. */
  datatype Raw = Raw(off: nat, len: nat, ty: nat)

  predicate NlaOk(b: seq<byte>, pos: nat) {
    pos + HDR <= |b| && Le16(b, pos) >= HDR && pos + Le16(b, pos) <= |b|
  }

  function RawAt(b: seq<byte>, pos: nat): Raw
    requires NlaOk(b, pos)
  {
    Raw(pos, Le16(b, pos), Le16(b, pos + 2) % TYPE_RANGE)
  }

  /** The attributes that iterating from pos visits. */
  function Stream(b: seq<byte>, pos: nat): (s: seq<Raw>)
    ensures forall i :: 0 <= i < |s| ==> s[i].len >= HDR && pos <= s[i].off && s[i].off + s[i].len <= |b|
    decreases |b| - pos
  {
    if NlaOk(b, pos) then [RawAt(b, pos)] + Stream(b, pos + Align(Le16(b, pos))) else []
  }

  function Payload(b: seq<byte>, r: Raw): seq<byte>
    requires HDR <= r.len && r.off + r.len <= |b|
  {
    b[r.off + HDR..r.off + r.len]
  }

  /** The parser reads b as the attributes s, and their payloads as their parts. */
  ghost predicate Decodes(b: seq<byte>, s: seq<Attr>)
    decreases s, 0
  {
    var raws := Stream(b, 0);
    |raws| == |s| && forall i :: 0 <= i < |s| ==> DecodesOne(Payload(b, raws[i]), raws[i].ty, s[i])
  }

  ghost predicate DecodesOne(payload: seq<byte>, ty: nat, a: Attr)
    decreases a, 1
  {
    match a
    case Plain(t, p) => ty == t % TYPE_RANGE && payload == p
    case Nest(t, kids) => ty == t % TYPE_RANGE && Decodes(payload, kids)
  }

  lemma NestedTypeMasked(ty: nat)
    ensures NestedType(ty) % TYPE_RANGE == ty % TYPE_RANGE && ty % 0x1_0000 % TYPE_RANGE == ty % TYPE_RANGE
  {
  }

  /** The stream of what follows the first n bytes is found n bytes later. */
  lemma {:induction false} StreamShift(b: seq<byte>, n: nat, pos: nat)
    requires n <= |b| && pos <= |b| - n
    ensures |Stream(b, n + pos)| == |Stream(b[n..], pos)|
    ensures forall i :: 0 <= i < |Stream(b[n..], pos)| ==> Stream(b, n + pos)[i] == Stream(b[n..], pos)[i].(off := n + Stream(b[n..], pos)[i].off)
    decreases |b| - pos
  {
    var c := b[n..];
    assert pos + HDR <= |c| ==> Le16(c, pos) == Le16(b, n + pos) && Le16(c, pos + 2) == Le16(b, n + pos + 2);
    if NlaOk(c, pos) {
      var next := pos + Align(Le16(c, pos));
      if next <= |c| { StreamShift(b, n, next); }
    }
  }

  lemma ShiftedPayload(b: seq<byte>, n: nat, r: Raw)
    requires n <= |b| && HDR <= r.len && r.off + r.len <= |b| - n
    ensures Payload(b, r.(off := n + r.off)) == Payload(b[n..], r)
  {
  }

  /** One encoded attribute: where the parser sees it and what it makes of its payload. */
  lemma {:induction false} FirstDecodes(b: seq<byte>, a: Attr)
    requires Size(a) <= |b| && Encodes(b[..Size(a)], a)
    ensures NlaOk(b, 0) && Align(Le16(b, 0)) == Size(a)
    ensures DecodesOne(Payload(b, RawAt(b, 0)), RawAt(b, 0).ty, a)
    decreases a, 1
  {
    var c := b[..Size(a)];
    assert Le16(c, 0) == Le16(b, 0) && Le16(c, 2) == Le16(b, 2);
    match a
    case Plain(ty, p) =>
      assert b[HDR..HDR + |p|] == c[HDR..HDR + |p|];
      NestedTypeMasked(ty);
    case Nest(ty, kids) =>
      EncodedDecodes(c[HDR..], kids);
      NestDecodes(b, c, ty, kids);
  }

  lemma NestDecodes(b: seq<byte>, c: seq<byte>, ty: nat, kids: seq<Attr>)
    requires |c| <= |b| && c == b[..|c|] && Encodes(c, Nest(ty, kids)) && Decodes(c[HDR..], kids)
    ensures NlaOk(b, 0) && Align(Le16(b, 0)) == |c|
    ensures DecodesOne(Payload(b, RawAt(b, 0)), RawAt(b, 0).ty, Nest(ty, kids))
  {
    hide Decodes, EncodesAll, SizeAll, NestedType;
    NestedTypeMasked(ty);
    assert Le16(c, 0) == Le16(b, 0) && Le16(c, 2) == Le16(b, 2);
    Aligned(|c|);
    assert b[HDR..|c|] == c[HDR..];
  }

  /** Whatever encodes an attribute tree parses back to that tree. */
  lemma {:induction false} EncodedDecodes(b: seq<byte>, s: seq<Attr>)
    requires EncodesAll(b, s)
    ensures Decodes(b, s)
    decreases s, 2
  {
    if s != [] {
      var n := Size(s[0]);
      FirstDecodes(b, s[0]);
      EncodedDecodes(b[n..], s[1..]);
      JoinDecoded(b, n, s);
    }
  }

  lemma JoinDecoded(b: seq<byte>, n: nat, s: seq<Attr>)
    requires s != [] && n <= |b| && NlaOk(b, 0) && Align(Le16(b, 0)) == n
    requires DecodesOne(Payload(b, RawAt(b, 0)), RawAt(b, 0).ty, s[0]) && Decodes(b[n..], s[1..])
    ensures Decodes(b, s)
  {
    hide DecodesOne, Payload, Align, NlaOk, RawAt;
    StreamShift(b, n, 0);
    var raws, rest := Stream(b, 0), Stream(b[n..], 0);
    assert raws == [RawAt(b, 0)] + Stream(b, n);
    hide Stream;
    forall i | 0 <= i < |s| ensures DecodesOne(Payload(b, raws[i]), raws[i].ty, s[i]) {
      if i > 0 {
        ShiftedPayload(b, n, rest[i - 1]);
        assert s[i] == s[1..][i - 1];
      }
    }
  }

  // ----- Indexing by type -------------------------------------------------------------------------

  datatype Policy = Policy(kind: nat, minLen: nat, maxLen: nat)

  const NLA_UNSPEC := 0
  const NLA_STRING := 5
  const NLA_TYPE_MAX := 8

  /** The least payload a kind of attribute needs. */
  function KindMinLen(kind: nat): nat {
    match kind
    case 1 => 1 case 2 => 2 case 3 => 4 case 4 => 8 case 5 => 1 case _ => 0
  }

  predicate Acceptable(b: seq<byte>, r: Raw, policy: seq<Policy>)
    requires HDR <= r.len && r.off + r.len <= |b|
  {
    r.ty >= |policy| || policy[r.ty].kind > NLA_TYPE_MAX ||
    (var p, payload := policy[r.ty], Payload(b, r);
     && |payload| >= (if p.minLen != 0 then p.minLen else KindMinLen(p.kind))
     && (p.maxLen == 0 || |payload| <= p.maxLen)
     && (p.kind == NLA_STRING && payload != [] ==> payload[|payload| - 1] == 0))
  }

  datatype Slot = Missing | At(raw: Raw)

  /** The last attribute of type t in a stream. */
  ghost predicate IsLast(raws: seq<Raw>, t: nat, slot: Slot) {
    match slot
    case Missing => forall i :: 0 <= i < |raws| ==> raws[i].ty != t
    case At(r) => r in raws && r.ty == t && exists i :: 0 <= i < |raws| && raws[i] == r && forall j :: i < j < |raws| ==> raws[j].ty != t
  }

  lemma LastStep(raws: seq<Raw>, t: nat, slot: Slot, r: Raw)
    requires IsLast(raws, t, slot)
    ensures IsLast(raws + [r], t, if r.ty == t then At(r) else slot)
  {
    var more := raws + [r];
    if r.ty == t {
      assert more[|raws|] == r;
    } else if slot.At? {
      var i :| 0 <= i < |raws| && raws[i] == slot.raw && forall j :: i < j < |raws| ==> raws[j].ty != t;
      assert more[i] == slot.raw;
    }
  }

  ghost predicate Indexed(raws: seq<Raw>, tb: seq<Slot>) {
    forall t :: 0 <= t < |tb| ==> IsLast(raws, t, tb[t])
  }

  lemma IndexStep(raws: seq<Raw>, tb: seq<Slot>, r: Raw)
    requires Indexed(raws, tb)
    ensures Indexed(raws + [r], if r.ty < |tb| then tb[r.ty := At(r)] else tb)
  {
    hide IsLast;
    var tb' := if r.ty < |tb| then tb[r.ty := At(r)] else tb;
    forall t | 0 <= t < |tb| ensures IsLast(raws + [r], t, tb'[t]) {
      LastStep(raws, t, tb[t], r);
    }
  }

  ghost predicate Inside(b: seq<byte>, r: Raw) { HDR <= r.len && r.off + r.len <= |b| }

  ghost predicate AllAcceptable(b: seq<byte>, raws: seq<Raw>, policy: seq<Policy>) {
    forall i :: 0 <= i < |raws| ==> Inside(b, raws[i]) && Acceptable(b, raws[i], policy)
  }

  /** Reading on from pos, having seen some attributes. */
  ghost predicate Reading(b: seq<byte>, seen: seq<Raw>, pos: nat) { Stream(b, 0) == seen + Stream(b, pos) }

  lemma ReadOn(b: seq<byte>, seen: seq<Raw>, pos: nat)
    requires Reading(b, seen, pos) && NlaOk(b, pos)
    ensures Reading(b, seen + [RawAt(b, pos)], pos + Align(Le16(b, pos))) && RawAt(b, pos) in Stream(b, 0)
  {
    var r, rest := RawAt(b, pos), Stream(b, pos + Align(Le16(b, pos)));
    assert Stream(b, pos) == [r] + rest;
    assert seen + ([r] + rest) == (seen + [r]) + rest;
    assert (seen + [r] + rest)[|seen|] == r;
  }

  /** Indexes a stream of attributes by type; later attributes replace earlier ones. */
  method Parse(b: seq<byte>, maxType: nat, policy: seq<Policy>, checked: bool) returns (err: int, tb: seq<Slot>)
    requires checked ==> |policy| == maxType + 1
    ensures |tb| == maxType + 1 && (err == 0 || err == -1)
    ensures forall t :: 0 <= t <= maxType && tb[t].At? ==> Inside(b, tb[t].raw) && tb[t].raw.ty == t
    ensures err == 0 ==> Indexed(Stream(b, 0), tb)
    ensures err == 0 && checked ==> AllAcceptable(b, Stream(b, 0), policy)
    ensures err == -1 ==> checked && exists r :: r in Stream(b, 0) && Inside(b, r) && !Acceptable(b, r, policy)
  {
    hide Stream, IsLast, Acceptable;
    tb := seq(maxType + 1, _ => Missing);
    var pos := 0;
    ghost var seen: seq<Raw> := [];
    NothingSeen(b, tb);
    while NlaOk(b, pos)
      invariant Reading(b, seen, pos) && |tb| == maxType + 1 && Indexed(seen, tb)
      invariant forall t :: 0 <= t <= maxType && tb[t].At? ==> Inside(b, tb[t].raw) && tb[t].raw.ty == t
      invariant checked ==> AllAcceptable(b, seen, policy)
      decreases |b| - pos
    {
      var r := RawAt(b, pos);
      ReadOn(b, seen, pos);
      if r.ty <= maxType && checked && !Acceptable(b, r, policy) { return -1, tb; }
      OthersAcceptable(b, r, policy);
      IndexStep(seen, tb, r);
      if r.ty <= maxType { tb := tb[r.ty := At(r)]; }
      seen := seen + [r];
      pos := pos + Align(Le16(b, pos));
    }
    AllSeen(b, seen, pos);
    return 0, tb;
  }

  lemma OthersAcceptable(b: seq<byte>, r: Raw, policy: seq<Policy>)
    requires Inside(b, r)
    ensures r.ty >= |policy| ==> Acceptable(b, r, policy)
  {
  }

  lemma NothingSeen(b: seq<byte>, tb: seq<Slot>)
    requires forall t :: 0 <= t < |tb| ==> tb[t] == Missing
    ensures Reading(b, [], 0) && Indexed([], tb)
  {
  }

  lemma AllSeen(b: seq<byte>, seen: seq<Raw>, pos: nat)
    requires Reading(b, seen, pos) && !NlaOk(b, pos)
    ensures seen == Stream(b, 0)
  {
  }

  // ----- Building ---------------------------------------------------------------------------------

  /** A nested attribute that is being filled, or the message itself, with what is complete in it. */
  datatype Level = Level(ty: nat, attrs: seq<Attr>)

  /** b holds the attributes of all open levels; the header of an open level still has the length of an
      empty one. */
  ghost predicate Built(b: seq<byte>, levels: seq<Level>)
    decreases |levels|
  {
    levels != [] &&
    var n := SizeAll(levels[0].attrs);
    n <= |b| && EncodesAll(b[..n], levels[0].attrs) &&
    if |levels| == 1 then n == |b|
    else n + HDR <= |b| && Le16(b, n + 2) == NestedType(levels[1].ty) && Built(b[n + HDR..], levels[1..])
  }

  /** Where the header of the innermost open level is. */
  ghost function InnerPos(levels: seq<Level>): nat
    requires |levels| >= 2
    decreases |levels|
  {
    SizeAll(levels[0].attrs) + if |levels| == 2 then 0 else HDR + InnerPos(levels[1..])
  }

  function AddTo(levels: seq<Level>, a: Attr): seq<Level>
    requires levels != []
  {
    levels[|levels| - 1 := Level(levels[|levels| - 1].ty, levels[|levels| - 1].attrs + [a])]
  }

  /** The innermost level becomes an attribute of the one around it. */
  function CloseLast(levels: seq<Level>): seq<Level>
    requires |levels| >= 2
  {
    var inner := levels[|levels| - 1];
    AddTo(levels[..|levels| - 1], Nest(inner.ty, inner.attrs))
  }

  lemma BuiltNonEmpty(b: seq<byte>, levels: seq<Level>)
    requires Built(b, levels)
    ensures levels != []
  {
  }

  /** Taking the outermost open level off, and putting it on. */
  lemma BuiltParts(b: seq<byte>, levels: seq<Level>) returns (x: seq<byte>, h: seq<byte>, rest: seq<byte>)
    requires Built(b, levels) && |levels| >= 2
    ensures b == x + h + rest && EncodesAll(x, levels[0].attrs) && |x| == SizeAll(levels[0].attrs)
    ensures |h| == HDR && Le16(h, 2) == NestedType(levels[1].ty) && Built(rest, levels[1..])
  {
    hide EncodesAll, SizeAll, NestedType;
    var n := SizeAll(levels[0].attrs);
    x, h, rest := b[..n], b[n..n + HDR], b[n + HDR..];
    assert b == x + h + rest;
  }

  lemma BuiltJoin(x: seq<byte>, h: seq<byte>, rest: seq<byte>, levels: seq<Level>)
    requires |levels| >= 2 && EncodesAll(x, levels[0].attrs) && |x| == SizeAll(levels[0].attrs)
    requires |h| == HDR && Le16(h, 2) == NestedType(levels[1].ty) && Built(rest, levels[1..])
    ensures Built(x + h + rest, levels)
  {
    hide EncodesAll, SizeAll, NestedType;
    var b, n := x + h + rest, |x|;
    assert b[..n] == x && b[n + HDR..] == rest;
    assert b[n + 2] == h[2] && b[n + 3] == h[3];
  }

  lemma BuiltFlat(b: seq<byte>, l: Level)
    ensures Built(b, [l]) <==> EncodesAll(b, l.attrs)
  {
    if |b| == SizeAll(l.attrs) { assert b[..|b|] == b; }
  }

  lemma Regroup(x: seq<byte>, h: seq<byte>, rest: seq<byte>, c: seq<byte>)
    ensures x + h + (rest + c) == (x + h + rest) + c
  {
  }

  lemma {:induction false} BuiltMore(b: seq<byte>, levels: seq<Level>, c: seq<byte>, a: Attr)
    requires Built(b, levels) && Encodes(c, a)
    ensures Built(b + c, AddTo(levels, a))
    decreases |levels|
  {
    hide EncodesAll, Encodes, SizeAll, NestedType, Built;
    BuiltNonEmpty(b, levels);
    if |levels| == 1 {
      BuiltFlat(b, levels[0]);
      assert levels == [levels[0]];
      EncodesAppend(b, levels[0].attrs, c, a);
      BuiltFlat(b + c, Level(levels[0].ty, levels[0].attrs + [a]));
      assert AddTo(levels, a) == [Level(levels[0].ty, levels[0].attrs + [a])];
    } else {
      var x, h, rest := BuiltParts(b, levels);
      BuiltMore(rest, levels[1..], c, a);
      assert AddTo(levels, a)[1..] == AddTo(levels[1..], a) && AddTo(levels, a)[0] == levels[0];
      BuiltJoin(x, h, rest + c, AddTo(levels, a));
      Regroup(x, h, rest, c);
    }
  }

  lemma {:induction false} BuiltOpen(b: seq<byte>, levels: seq<Level>, c: seq<byte>, ty: nat)
    requires Built(b, levels) && |c| == HDR && Le16(c, 2) == NestedType(ty)
    ensures Built(b + c, levels + [Level(ty, [])]) && InnerPos(levels + [Level(ty, [])]) == |b|
    decreases |levels|
  {
    hide SizeAll, NestedType, Built, EncodesAll;
    BuiltNonEmpty(b, levels);
    var more := levels + [Level(ty, [])];
    if |levels| == 1 {
      assert levels == [levels[0]] && more[1..] == [Level(ty, [])];
      BuiltFlat(b, levels[0]);
      EncodedLength(b, levels[0].attrs);
      EmptyEncoded();
      BuiltFlat([], Level(ty, []));
      BuiltJoin(b, c, [], more);
      assert b + c + [] == b + c;
    } else {
      var x, h, rest := BuiltParts(b, levels);
      BuiltOpen(rest, levels[1..], c, ty);
      assert more[1..] == levels[1..] + [Level(ty, [])] && more[0] == levels[0];
      BuiltJoin(x, h, rest + c, more);
      Regroup(x, h, rest, c);
    }
  }

  lemma EncodedLength(b: seq<byte>, s: seq<Attr>)
    requires EncodesAll(b, s)
    ensures |b| == SizeAll(s)
  {
  }

  lemma EmptyEncoded()
    ensures EncodesAll([], [])
  {
  }

  /** Writing the length of the innermost level closes it. */
  lemma {:induction false} BuiltClose(b: seq<byte>, levels: seq<Level>, b': seq<byte>)
    requires Built(b, levels) && |levels| >= 2 && |b| < 0x1_0000 && InnerPos(levels) + HDR <= |b|
    requires b' == Overwritten(b, InnerPos(levels), Le16Bytes(|b| - InnerPos(levels)))
    ensures Built(b', CloseLast(levels))
    decreases |levels|
  {
    hide SizeAll, NestedType, Built, EncodesAll, Overwritten, Le16Bytes;
    var x, h, rest := BuiltParts(b, levels);
    if |levels| == 2 {
      var inner := levels[1];
      assert levels[1..] == [inner];
      CloseHeader(x, h, rest, levels[0].attrs, inner, b');
      assert CloseLast(levels) == [Level(levels[0].ty, levels[0].attrs + [Nest(inner.ty, inner.attrs)])];
      BuiltFlat(b', CloseLast(levels)[0]);
    } else {
      var n := |x| + HDR;
      assert b[..n] == x + h && b[n..] == rest;
      OverwrittenParts(b, n, InnerPos(levels), Le16Bytes(|b| - InnerPos(levels)));
      BuiltClose(rest, levels[1..], b'[n..]);
      assert CloseLast(levels)[1..] == CloseLast(levels[1..]) && CloseLast(levels)[0] == levels[0];
      BuiltJoin(x, h, b'[n..], CloseLast(levels));
      assert b' == b'[..n] + b'[n..];
    }
  }

  lemma CloseHeader(x: seq<byte>, h: seq<byte>, rest: seq<byte>, s: seq<Attr>, inner: Level, b': seq<byte>)
    requires EncodesAll(x, s) && |h| == HDR && Le16(h, 2) == NestedType(inner.ty) && Built(rest, [inner])
    requires |x + h + rest| < 0x1_0000 && b' == Overwritten(x + h + rest, |x|, Le16Bytes(HDR + |rest|))
    ensures EncodesAll(b', s + [Nest(inner.ty, inner.attrs)])
  {
    hide SizeAll, NestedType, Built, EncodesAll, Overwritten, Le16Bytes;
    BuiltFlat(rest, inner);
    EncodedLength(rest, inner.attrs);
    var c := b'[|x|..];
    assert b'[..|x|] == x && c[HDR..] == rest;
    assert c[0] == Le16Bytes(HDR + |rest|)[0] && c[1] == Le16Bytes(HDR + |rest|)[1] && c[2] == h[2] && c[3] == h[3];
    assert Le16(c, 0) == Le16(Le16Bytes(HDR + |rest|), 0) && Le16(c, 2) == Le16(h, 2);
    EncodesAppend(x, s, c, Nest(inner.ty, inner.attrs));
    assert b' == x + c;
  }

  lemma {:induction false} InnerFits(b: seq<byte>, levels: seq<Level>)
    requires Built(b, levels) && |levels| >= 2
    ensures InnerPos(levels) + HDR <= |b|
    decreases |levels|
  {
    if |levels| > 2 { InnerFits(b[SizeAll(levels[0].attrs) + HDR..], levels[1..]); }
  }

  /** A request under construction: the buffer and the length in its message header. */
  class Request {
    const buf: array<byte>
    var len: nat
    ghost const start: nat
    ghost var levels: seq<Level>

    ghost predicate Valid()
      reads this, buf
    {
      && buf.Length < 0x1_0000 && start % 4 == 0 && start <= Align(len) <= buf.Length
      && Built(buf[start..Align(len)], levels)
    }

    /** A request whose fixed headers take the first part of the buffer. */
    constructor (b: array<byte>, headers: nat)
      requires b.Length < 0x1_0000 && Align(headers) <= b.Length
      ensures Valid() && buf == b && len == headers && levels == [Level(0, [])]
    {
      buf, len, start, levels := b, headers, Align(headers), [Level(0, [])];
    }

    /** Appends an attribute.  Data is given exactly when its length is not zero. */
    method Add(ty: nat, given: bool, data: seq<byte>) returns (err: int)
      requires Valid()
      modifies this`len, this`levels, buf
      ensures Valid()
      ensures err == if Align(old(len)) + Align(HDR + |data|) > buf.Length then EMSGSIZE else if given != (data != []) then EINVAL else 0
      ensures err == 0 ==> levels == AddTo(old(levels), Plain(ty, data)) && len == Align(old(len)) + Align(HDR + |data|)
      ensures err != 0 ==> levels == old(levels) && len == old(len) && buf[..] == old(buf[..])
    {
      hide Built, Overwritten, Le16Bytes, Align, AddTo, Written;
      var tail := Align(len);
      if tail + Align(HDR + |data|) > buf.Length { return EMSGSIZE; }
      if given != (data != []) { return EINVAL; }
      ghost var b := buf[..];
      assert b[start..tail] == buf[start..tail];
      BuiltNonEmpty(b[start..tail], levels);
      WriteAttr(tail, ty, data);
      AddBuilt(b, start, tail, levels, ty, data, buf[..]);
      len := tail + Align(HDR + |data|);
      Aligned(len);
      assert buf[..][start..len] == buf[start..len];
      levels := AddTo(levels, Plain(ty, data));
      return 0;
    }

    method WriteAttr(tail: nat, ty: nat, data: seq<byte>)
      requires tail + HDR + |data| <= buf.Length
      modifies buf
      ensures buf[..] == Written(old(buf[..]), tail, ty, data)
    {
      hide Overwritten, Le16Bytes;
      WriteBytes(buf, tail + 2, Le16Bytes(ty));
      WriteBytes(buf, tail, Le16Bytes(HDR + |data|));
      if data != [] { WriteBytes(buf, tail + HDR, data); } else { NoBytes(buf[..], tail + HDR); }
    }

    /** Opens a nested attribute; the result is where its header is, or -1. */
    method BeginNested(ty: nat) returns (tail: int)
      requires Valid()
      modifies this`len, this`levels, buf
      ensures Valid() && (tail == -1 <==> Align(old(len)) + HDR > buf.Length)
      ensures tail != -1 ==> levels == old(levels) + [Level(ty, [])] && tail == start + InnerPos(levels)
      ensures tail == -1 ==> levels == old(levels) && buf[..] == old(buf[..])
    {
      hide Built, Overwritten, Le16Bytes, Align, InnerPos, NestedType;
      var pos := Align(len);
      Aligned(HDR);
      if pos + HDR > buf.Length { return -1; }
      ghost var b := buf[..];
      assert b[start..pos] == buf[start..pos];
      WriteBytes(buf, pos + 2, Le16Bytes(NestedType(ty)));
      WriteBytes(buf, pos, Le16Bytes(HDR));
      OpenBuilt(b, start, pos, levels, ty, buf[..]);
      len := pos + HDR;
      Aligned(len);
      assert buf[..][start..len] == buf[start..len];
      levels := levels + [Level(ty, [])];
      return pos;
    }

    /** Closes the innermost nested attribute by writing its length. */
    method EndNested(tail: nat)
      requires Valid() && |levels| >= 2 && tail == start + InnerPos(levels)
      modifies this`levels, buf
      ensures Valid() && levels == CloseLast(old(levels))
    {
      hide Built, Overwritten, Le16Bytes, Align, InnerPos, CloseLast;
      ghost var b := buf[..];
      var end := Align(len);
      assert b[start..end] == buf[start..end];
      InnerFits(b[start..end], levels);
      WriteBytes(buf, tail, Le16Bytes(end - tail));
      CloseBuilt(b, start, end, levels, buf[..]);
      assert buf[..][start..end] == buf[start..end];
      levels := CloseLast(levels);
    }

    /** When nothing is open, the message parses back to the attributes that were added. */
    lemma ParsesBack()
      requires Valid() && |levels| == 1
      ensures Decodes(buf[start..Align(len)], levels[0].attrs)
    {
      var b := buf[start..Align(len)];
      assert b[..|b|] == b;
      EncodedDecodes(b, levels[0].attrs);
    }
  }

  lemma Aligned(n: nat)
    ensures n % 4 == 0 ==> Align(n) == n
  {
  }

  /** The writes of one attribute: type, length and data. */
  function Written(b: seq<byte>, tail: nat, ty: nat, data: seq<byte>): (r: seq<byte>)
    requires tail + HDR + |data| <= |b|
    ensures |r| == |b|
  {
    Overwritten(Overwritten(Overwritten(b, tail + 2, Le16Bytes(ty)), tail, Le16Bytes(HDR + |data|)), tail + HDR, data)
  }

  lemma NoBytes(b: seq<byte>, at: nat)
    requires at <= |b|
    ensures Overwritten(b, at, []) == b
  {
  }

  /** What appending an attribute writes. */
  lemma AddedBytes(b: seq<byte>, start: nat, tail: nat, ty: nat, data: seq<byte>, b': seq<byte>)
    requires start <= tail && tail + Align(HDR + |data|) <= |b| < 0x1_0000
    requires b' == Written(b, tail, ty, data)
    ensures b'[start..tail] == b[start..tail]
    ensures Encodes(b'[tail..tail + Size(Plain(ty, data))], Plain(ty, data))
  {
    hide Overwritten;
    var c := b'[tail..tail + Align(HDR + |data|)];
    assert c[0] == Le16Bytes(HDR + |data|)[0] && c[1] == Le16Bytes(HDR + |data|)[1];
    assert c[2] == Le16Bytes(ty)[0] && c[3] == Le16Bytes(ty)[1];
    assert Le16(c, 0) == Le16(Le16Bytes(HDR + |data|), 0) && Le16(c, 2) == Le16(Le16Bytes(ty), 0);
    forall j | 0 <= j < |data| ensures c[HDR + j] == data[j] { assert c[HDR + j] == b'[tail + HDR + j]; }
    assert c[HDR..HDR + |data|] == data;
  }

  lemma AddBuilt(b: seq<byte>, start: nat, tail: nat, levels: seq<Level>, ty: nat, data: seq<byte>, b': seq<byte>)
    requires start <= tail && tail + Align(HDR + |data|) <= |b| < 0x1_0000 && Built(b[start..tail], levels)
    requires b' == Written(b, tail, ty, data)
    ensures Built(b'[start..tail + Align(HDR + |data|)], AddTo(levels, Plain(ty, data)))
  {
    hide Written, Built;
    var a := Plain(ty, data);
    AddedBytes(b, start, tail, ty, data, b');
    var c := b'[tail..tail + Size(a)];
    BuiltMore(b[start..tail], levels, c, a);
    assert b'[start..tail + Size(a)] == b'[start..tail] + c;
  }

  lemma OpenBuilt(b: seq<byte>, start: nat, tail: nat, levels: seq<Level>, ty: nat, b': seq<byte>)
    requires start <= tail && tail + HDR <= |b| && Built(b[start..tail], levels)
    requires b' == Overwritten(Overwritten(b, tail + 2, Le16Bytes(NestedType(ty))), tail, Le16Bytes(HDR))
    ensures Built(b'[start..tail + HDR], levels + [Level(ty, [])]) && InnerPos(levels + [Level(ty, [])]) == tail - start
  {
    hide Overwritten, Built, InnerPos;
    var c := b'[tail..tail + HDR];
    assert c[2] == Le16Bytes(NestedType(ty))[0] && c[3] == Le16Bytes(NestedType(ty))[1];
    assert Le16(c, 2) == Le16(Le16Bytes(NestedType(ty)), 0);
    BuiltOpen(b[start..tail], levels, c, ty);
    assert b'[start..tail + HDR] == b[start..tail] + c;
  }

  lemma CloseBuilt(b: seq<byte>, start: nat, end: nat, levels: seq<Level>, b': seq<byte>)
    requires start <= end <= |b| < 0x1_0000 && Built(b[start..end], levels) && |levels| >= 2
    requires var tail := start + InnerPos(levels); tail + HDR <= end && b' == Overwritten(b, tail, Le16Bytes(end - tail))
    ensures Built(b'[start..end], CloseLast(levels))
  {
    hide Overwritten, Built, InnerPos, Le16Bytes;
    var tail := start + InnerPos(levels);
    var c, c' := b[start..end], b'[start..end];
    forall j | 0 <= j < |c'| ensures c'[j] == Overwritten(c, tail - start, Le16Bytes(end - tail))[j] {
      assert c'[j] == b'[start + j];
    }
    BuiltClose(c, levels, c');
  }
}
