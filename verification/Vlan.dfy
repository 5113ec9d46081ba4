/** VLAN tags: pushing and popping in place (rewrite_helpers.h) and parsing (parsing_helpers.h). */
module Vlan {
  import opened Bytes

  const ETH_LEN := 14
  const TAG_LEN := 4
  const PROTO := 12
  const ETH_P_8021Q := 0x8100
  const ETH_P_8021AD := 0x88a8
  const VID_RANGE := 0x1000
  const VLAN_MAX_DEPTH := 2

  predicate ProtoIsVlan(proto: nat) { proto == ETH_P_8021Q || proto == ETH_P_8021AD }

  // ----- Frames -----------------------------------------------------------------------------------

  /** f with a tag between its addresses and its type. */
  function Pushed(f: seq<byte>, vlid: int): (g: seq<byte>)
    requires |f| >= ETH_LEN
    ensures |g| == |f| + TAG_LEN
  {
    f[..PROTO] + Be16Bytes(ETH_P_8021Q) + Be16Bytes(vlid) + f[PROTO..]
  }

  /** A pushed frame, byte by byte. */
  lemma PushedAt(f: seq<byte>, vlid: int)
    requires |f| >= ETH_LEN
    ensures var g := Pushed(f, vlid);
            && (forall j :: 0 <= j < PROTO ==> g[j] == f[j]) && (forall j :: PROTO + TAG_LEN <= j < |g| ==> g[j] == f[j - TAG_LEN])
            && g[12] == Be16Bytes(ETH_P_8021Q)[0] && g[13] == Be16Bytes(ETH_P_8021Q)[1]
            && g[14] == Be16Bytes(vlid)[0] && g[15] == Be16Bytes(vlid)[1]
  {
    Joined(f[..PROTO], Be16Bytes(ETH_P_8021Q), Be16Bytes(vlid), f[PROTO..]);
  }

  lemma Joined(a: seq<byte>, b: seq<byte>, c: seq<byte>, d: seq<byte>)
    requires |b| == |c| == 2
    ensures var g := a + b + c + d;
            && (forall j :: 0 <= j < |a| ==> g[j] == a[j]) && (forall j :: |a| + 4 <= j < |g| ==> g[j] == d[j - |a| - 4])
            && g[|a|] == b[0] && g[|a| + 1] == b[1] && g[|a| + 2] == c[0] && g[|a| + 3] == c[1]
  {
  }

  predicate IsTagged(f: seq<byte>) { |f| >= ETH_LEN + TAG_LEN && ProtoIsVlan(Be16(f, PROTO)) }

  /** f without its outermost tag. */
  function Popped(f: seq<byte>): (g: seq<byte>)
    requires |f| >= ETH_LEN + TAG_LEN
    ensures |g| == |f| - TAG_LEN
  {
    f[..PROTO] + f[PROTO + TAG_LEN..]
  }

  function Tag(f: seq<byte>): nat
    requires |f| >= ETH_LEN + TAG_LEN
  {
    Be16(f, ETH_LEN)
  }

  lemma TypeOfBytes(g: seq<byte>, i: nat, v: int)
    requires i + 2 <= |g| && g[i] == Be16Bytes(v)[0] && g[i + 1] == Be16Bytes(v)[1]
    ensures Be16(g, i) == v % 0x1_0000
  {
  }

  /** Popping undoes pushing and returns the low 16 bits of what was pushed. */
  lemma PopPush(f: seq<byte>, vlid: int)
    requires |f| >= ETH_LEN
    ensures IsTagged(Pushed(f, vlid)) && Popped(Pushed(f, vlid)) == f && Tag(Pushed(f, vlid)) == vlid % 0x1_0000
  {
    hide Pushed;
    PushedAt(f, vlid);
    var g := Pushed(f, vlid);
    TypeOfBytes(g, PROTO, ETH_P_8021Q);
    TypeOfBytes(g, ETH_LEN, vlid);
    assert g[..PROTO] == f[..PROTO] && g[PROTO + TAG_LEN..] == f[PROTO..];
    assert f == f[..PROTO] + f[PROTO..];
  }

  lemma Be16Inverse(f: seq<byte>, i: nat)
    requires i + 2 <= |f|
    ensures Be16Bytes(Be16(f, i)) == f[i..i + 2]
  {
  }

  /** Pushing undoes popping exactly for 802.1Q tags; a service tag comes back as an 802.1Q one. */
  lemma PushPop(f: seq<byte>)
    requires IsTagged(f)
    ensures Pushed(Popped(f), Tag(f)) == f <==> Be16(f, PROTO) == ETH_P_8021Q
  {
    var g := Pushed(Popped(f), Tag(f));
    Be16Inverse(f, PROTO);
    Be16Inverse(f, ETH_LEN);
    assert g[12] == Be16Bytes(ETH_P_8021Q)[0] && g[13] == Be16Bytes(ETH_P_8021Q)[1];
    assert Be16(g, PROTO) == ETH_P_8021Q;
    if Be16(f, PROTO) == ETH_P_8021Q {
      assert f == f[..12] + f[12..14] + f[14..16] + f[16..];
      assert Popped(f)[..12] == f[..12] && Popped(f)[12..] == f[16..];
    }
  }

  // ----- Runs of pushes and pops ------------------------------------------------------------------

  function PushAll(f: seq<byte>, tags: seq<int>): (g: seq<byte>)
    requires |f| >= ETH_LEN
    ensures |g| == |f| + TAG_LEN * |tags|
    decreases |tags|
  {
    if tags == [] then f else PushAll(Pushed(f, tags[0]), tags[1..])
  }

  /** The frame after k pops and the tags in the order in which they came off. */
  function PopAll(f: seq<byte>, k: nat): (seq<byte>, seq<nat>)
    requires |f| >= ETH_LEN + TAG_LEN * k
    decreases k
  {
    if k == 0 then (f, [])
    else
      var (g, tags) := PopAll(Popped(f), k - 1);
      (g, [Tag(f)] + tags)
  }

  function Reversed16(tags: seq<int>): (r: seq<nat>)
    ensures |r| == |tags|
  {
    seq(|tags|, i requires 0 <= i < |tags| => tags[|tags| - 1 - i] % 0x1_0000)
  }

  lemma {:induction false} PushAllLast(f: seq<byte>, tags: seq<int>, last: int)
    requires |f| >= ETH_LEN
    ensures PushAll(f, tags + [last]) == Pushed(PushAll(f, tags), last)
    decreases |tags|
  {
    if tags == [] {
      assert tags + [last] == [last];
      assert PushAll(f, [last]) == PushAll(Pushed(f, last), []);
    } else {
      assert (tags + [last])[0] == tags[0] && (tags + [last])[1..] == tags[1..] + [last];
      PushAllLast(Pushed(f, tags[0]), tags[1..], last);
    }
  }

  /** Any number of pushes followed by as many pops restores the frame byte for byte and returns the tags
      in reverse. */
  lemma {:induction false} PopsUndoPushes(f: seq<byte>, tags: seq<int>)
    requires |f| >= ETH_LEN
    ensures PopAll(PushAll(f, tags), |tags|) == (f, Reversed16(tags))
    decreases |tags|
  {
    if tags != [] {
      var front, last := tags[..|tags| - 1], tags[|tags| - 1];
      assert tags == front + [last];
      PushAllLast(f, front, last);
      PopPush(PushAll(f, front), last);
      PopsUndoPushes(f, front);
      assert Reversed16(tags) == [last % 0x1_0000] + Reversed16(front);
    }
  }

  // ----- Parsing ----------------------------------------------------------------------------------

  datatype Walked = Walked(proto: nat, pos: nat, ids: seq<nat>)

  /** The type, position and identifiers found after at most `left` more tags. */
  function WalkTags(f: seq<byte>, pos: nat, proto: nat, left: nat): (w: Walked)
    ensures |w.ids| <= left
    decreases left
  {
    if left == 0 || !ProtoIsVlan(proto) || pos + TAG_LEN > |f| then Walked(proto, pos, [])
    else
      var w := WalkTags(f, pos + TAG_LEN, Be16(f, pos + 2), left - 1);
      w.(ids := [Be16(f, pos) % VID_RANGE] + w.ids)
  }

  /** Parses an Ethernet header and its tags; -1 if the header is cut off. */
  method ParseEthHdrVlan(f: seq<byte>) returns (proto: int, pos: nat, ids: seq<nat>)
    ensures |f| < ETH_LEN ==> proto == -1 && pos == 0 && ids == []
    ensures |f| >= ETH_LEN ==> proto >= 0 && Walked(proto, pos, ids) == WalkTags(f, ETH_LEN, Be16(f, PROTO), VLAN_MAX_DEPTH)
    ensures pos <= |f| && (|f| >= ETH_LEN ==> pos >= ETH_LEN && proto == Be16(f, pos - 2))
  {
    if |f| < ETH_LEN { return -1, 0, []; }
    WalkedType(f, ETH_LEN, VLAN_MAX_DEPTH);
    var p := Be16(f, PROTO);
    pos, ids := ETH_LEN, [];
    var i := 0;
    while i < VLAN_MAX_DEPTH
      invariant 0 <= i <= VLAN_MAX_DEPTH && pos <= |f|
      invariant WalkTags(f, ETH_LEN, Be16(f, PROTO), VLAN_MAX_DEPTH) ==
                var w := WalkTags(f, pos, p, VLAN_MAX_DEPTH - i); w.(ids := ids + w.ids)
    {
      if !ProtoIsVlan(p) || pos + TAG_LEN > |f| { break; }
      assert forall rest: seq<nat> :: ids + ([Be16(f, pos) % VID_RANGE] + rest) == (ids + [Be16(f, pos) % VID_RANGE]) + rest;
      ids := ids + [Be16(f, pos) % VID_RANGE];
      p := Be16(f, pos + 2);
      pos := pos + TAG_LEN;
      i := i + 1;
    }
    proto := p;
    assert ids + [] == ids;
  }

  /** The type found after walking the tags is the field just before the position that is reached. */
  lemma {:induction false} WalkedType(f: seq<byte>, pos: nat, left: nat)
    requires 2 <= pos <= |f|
    ensures var w := WalkTags(f, pos, Be16(f, pos - 2), left);
            && pos <= w.pos <= |f| && w.pos == pos + TAG_LEN * |w.ids| && w.proto == Be16(f, w.pos - 2)
            && (|w.ids| < left ==> !ProtoIsVlan(w.proto) || w.pos + TAG_LEN > |f|)
    decreases left
  {
    if left > 0 && ProtoIsVlan(Be16(f, pos - 2)) && pos + TAG_LEN <= |f| {
      WalkedType(f, pos + TAG_LEN, left - 1);
    }
  }

  lemma {:induction false} WalkShifted(f: seq<byte>, g: seq<byte>, pos: nat, proto: nat, left: nat)
    requires |g| == |f| + TAG_LEN && pos <= |f| && g[pos + TAG_LEN..] == f[pos..]
    ensures var w := WalkTags(f, pos, proto, left); WalkTags(g, pos + TAG_LEN, proto, left) == w.(pos := w.pos + TAG_LEN)
    decreases left
  {
    if left > 0 && ProtoIsVlan(proto) && pos + TAG_LEN <= |f| {
      assert forall j :: 0 <= j < TAG_LEN ==> g[pos + TAG_LEN + j] == g[pos + TAG_LEN..][j] == f[pos..][j] == f[pos + j];
      assert g[pos + TAG_LEN + TAG_LEN..] == g[pos + TAG_LEN..][TAG_LEN..] == f[pos + TAG_LEN..];
      WalkShifted(f, g, pos + TAG_LEN, Be16(f, pos + 2), left - 1);
    }
  }

  /** A walk that did not use up its depth does not need it. */
  lemma {:induction false} WalkWithLess(f: seq<byte>, pos: nat, proto: nat, left: nat)
    requires left > 0 && |WalkTags(f, pos, proto, left).ids| < left
    ensures WalkTags(f, pos, proto, left - 1) == WalkTags(f, pos, proto, left)
    decreases left
  {
    if ProtoIsVlan(proto) && pos + TAG_LEN <= |f| {
      WalkWithLess(f, pos + TAG_LEN, Be16(f, pos + 2), left - 1);
    }
  }

  lemma PushedFields(f: seq<byte>, vlid: int)
    requires |f| >= ETH_LEN
    ensures var g := Pushed(f, vlid);
            && Be16(g, PROTO) == ETH_P_8021Q && Be16(g, ETH_LEN) % VID_RANGE == vlid % VID_RANGE
            && Be16(g, ETH_LEN + 2) == Be16(f, PROTO) && g[ETH_LEN + TAG_LEN..] == f[ETH_LEN..]
  {
    hide Pushed;
    PushedAt(f, vlid);
    var g := Pushed(f, vlid);
    TypeOfBytes(g, PROTO, ETH_P_8021Q);
    TypeOfBytes(g, ETH_LEN, vlid);
    hide Be16Bytes;
    LowBits(vlid);
    assert g[ETH_LEN + TAG_LEN..] == f[ETH_LEN..];
  }

  lemma LowBits(v: int)
    ensures v % 0x1_0000 % VID_RANGE == v % VID_RANGE
  {
  }

  /** Parsing after a push finds the pushed identifier first and everything else four bytes later, for
      frames with fewer tags than the parser looks at. */
  lemma ParseAfterPush(f: seq<byte>, vlid: int)
    requires |f| >= ETH_LEN && |WalkTags(f, ETH_LEN, Be16(f, PROTO), VLAN_MAX_DEPTH).ids| < VLAN_MAX_DEPTH
    ensures var w := WalkTags(f, ETH_LEN, Be16(f, PROTO), VLAN_MAX_DEPTH); var g := Pushed(f, vlid);
            WalkTags(g, ETH_LEN, Be16(g, PROTO), VLAN_MAX_DEPTH) == Walked(w.proto, w.pos + TAG_LEN, [vlid % 0x1000] + w.ids)
  {
    hide Pushed, Be16;
    PushedFields(f, vlid);
    var g := Pushed(f, vlid);
    WalkShifted(f, g, ETH_LEN, Be16(f, PROTO), VLAN_MAX_DEPTH - 1);
    WalkWithLess(f, ETH_LEN, Be16(f, PROTO), VLAN_MAX_DEPTH);
  }

  // ----- Packets in their buffer ------------------------------------------------------------------

  class XdpBuffer {
    const buf: array<byte>
    var head: nat

    ghost predicate Valid()
      reads this
    {
      head + ETH_LEN <= buf.Length
    }

    /** The frame between head and the end of the buffer. */
    ghost function Frame(): seq<byte>
      requires Valid()
      reads this, buf
    {
      buf[head..]
    }

    constructor (b: array<byte>, start: nat)
      requires start + ETH_LEN <= b.Length
      ensures Valid() && buf == b && head == start
    {
      buf, head := b, start;
    }

    /** Moves the start of the frame; there must be room and an Ethernet header must remain. */
    method AdjustHead(delta: int) returns (ok: bool)
      requires Valid()
      modifies this`head
      ensures Valid() && ok == (0 <= old(head) + delta && old(head) + delta + ETH_LEN <= buf.Length)
      ensures head == if ok then old(head) + delta else old(head)
    {
      if head + delta < 0 || head + delta + ETH_LEN > buf.Length { return false; }
      head := head + delta;
      return true;
    }

    /** Inserts a tag after the addresses; fails when there is no room in front of the frame. */
    method TagPush(vlid: int) returns (r: int)
      requires Valid()
      modifies this`head, buf
      ensures Valid() && (r == 0 || r == -1) && (r == 0 <==> old(head) >= TAG_LEN)
      ensures Frame() == if r == 0 then Pushed(old(Frame()), vlid) else old(Frame())
      ensures r == 0 ==> head == old(head) - TAG_LEN
    {
      ghost var b := buf[..];
      var eth := buf[head..head + ETH_LEN];
      var ok := AdjustHead(-TAG_LEN);
      if !ok { return -1; }
      WriteBytes(buf, head, eth);
      WriteBytes(buf, head + ETH_LEN, Be16Bytes(vlid));
      WriteBytes(buf, head + ETH_LEN + 2, eth[PROTO..]);
      WriteBytes(buf, head + PROTO, Be16Bytes(ETH_P_8021Q));
      PushWrites(b, head, vlid, eth, buf[..]);
      assert buf[head..] == buf[..][head..] && old(buf[head..]) == b[head + TAG_LEN..];
      return 0;
    }

    /** Removes the outermost tag and returns it. */
    method TagPop() returns (r: int)
      requires Valid()
      modifies this`head, buf
      ensures Valid() && (r >= 0 <==> IsTagged(old(Frame())))
      ensures r >= 0 ==> r == Tag(old(Frame())) && Frame() == Popped(old(Frame())) && head == old(head) + TAG_LEN
      ensures r < 0 ==> r == -1 && Frame() == old(Frame())
    {
      ghost var b := buf[..];
      var all := buf[head..];
      if !ProtoIsVlan(Be16(all, PROTO)) { return -1; }
      if |all| < ETH_LEN + TAG_LEN { return -1; }
      var vlid := Be16(all, ETH_LEN);
      var inner := all[ETH_LEN + 2..ETH_LEN + TAG_LEN];
      var eth := all[..ETH_LEN];
      var ok := AdjustHead(TAG_LEN);
      if !ok { return -1; }
      WriteBytes(buf, head, eth);
      WriteBytes(buf, head + PROTO, inner);
      PopWrites(b, head, all, buf[..]);
      assert buf[head..] == buf[..][head..] && all == b[head - TAG_LEN..];
      return vlid;
    }
  }

  lemma PushedBytes(f: seq<byte>, vlid: int, g: seq<byte>)
    requires |f| >= ETH_LEN && |g| == |f| + TAG_LEN
    requires (forall j :: 0 <= j < PROTO ==> g[j] == f[j]) && (forall j :: PROTO + TAG_LEN <= j < |g| ==> g[j] == f[j - TAG_LEN])
    requires g[12..14] == Be16Bytes(ETH_P_8021Q) && g[14..16] == Be16Bytes(vlid)
    ensures g == Pushed(f, vlid)
  {
    assert g == g[..12] + g[12..14] + g[14..16] + g[16..];
    assert g[..12] == f[..12] && g[16..] == f[12..];
  }

  /** The four writes of a push, on a frame that starts four bytes after head. */
  lemma PushWrites(b: seq<byte>, head: nat, vlid: int, eth: seq<byte>, b': seq<byte>)
    requires head + TAG_LEN + ETH_LEN <= |b| && eth == b[head + TAG_LEN..head + TAG_LEN + ETH_LEN]
    requires var b1 := Overwritten(b, head, eth);
             var b2 := Overwritten(b1, head + ETH_LEN, Be16Bytes(vlid));
             var b3 := Overwritten(b2, head + ETH_LEN + 2, eth[PROTO..]);
             b' == Overwritten(b3, head + PROTO, Be16Bytes(ETH_P_8021Q))
    ensures b'[head..] == Pushed(b[head + TAG_LEN..], vlid)
  {
    hide Overwritten, Be16Bytes;
    var f, g := b[head + TAG_LEN..], b'[head..];
    forall j | 0 <= j < PROTO ensures g[j] == f[j] { assert g[j] == b'[head + j]; }
    forall j | PROTO + TAG_LEN <= j < |g| ensures g[j] == f[j - TAG_LEN] { assert g[j] == b'[head + j]; }
    assert g[12..14] == Be16Bytes(ETH_P_8021Q) && g[14..16] == Be16Bytes(vlid);
    PushedBytes(f, vlid, g);
  }

  lemma PopWrites(b: seq<byte>, head: nat, all: seq<byte>, b': seq<byte>)
    requires TAG_LEN <= head && head + ETH_LEN <= |b| && all == b[head - TAG_LEN..]
    requires b' == Overwritten(Overwritten(b, head, all[..ETH_LEN]), head + PROTO, all[ETH_LEN + 2..ETH_LEN + TAG_LEN])
    ensures b'[head..] == Popped(all)
  {
    hide Overwritten;
    var g := b'[head..];
    forall j | 0 <= j < |g| ensures g[j] == Popped(all)[j] {
      assert g[j] == b'[head + j];
    }
  }
}
