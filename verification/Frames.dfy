/** Frames built field by field, and what the packet parser of xdp_prog_kern.c finds in them. */
module Frames {
  import opened Numbers
  import opened Bytes
  import opened Flows

  /** An IPv4 header: `middle` is everything between the length of the header and the protocol. */
  datatype IpHeader = IpHeader(version: nat, words: nat, middle: seq<byte>, proto: byte, sum: seq<byte>,
                               src: nat, dst: nat, options: seq<byte>)

  /** The header is as long as it says: five words and the options. */
  predicate ValidHeader(h: IpHeader) {
    && h.version < 16 && 5 <= h.words < 16 && |h.middle| == 8 && |h.sum| == 2
    && h.src < TWO32 && h.dst < TWO32 && |h.options| == 4 * (h.words - 5)
  }

  function Be32Bytes(v: nat): (b: seq<byte>)
    requires v < TWO32
    ensures |b| == 4
  {
    Be16Bytes(v / 0x1_0000) + Be16Bytes(v % 0x1_0000)
  }

  function FixedPart(h: IpHeader): (r: seq<byte>)
    requires ValidHeader(h)
    ensures |r| == IP_LEN
  {
    [h.version * 16 + h.words] + h.middle + [h.proto] + h.sum + Be32Bytes(h.src) + Be32Bytes(h.dst)
  }

  /** An Ethernet frame with the two hardware addresses, an IPv4 header and what it carries. */
  function FrameOf(macs: seq<byte>, h: IpHeader, body: seq<byte>): (f: seq<byte>)
    requires |macs| == 12 && ValidHeader(h)
    ensures |f| == ETH_LEN + 4 * h.words + |body|
  {
    macs + [8, 0] + FixedPart(h) + h.options + body
  }

  /** The least length at which a frame with this header is parsed. */
  function Needed(h: IpHeader): nat {
    if h.proto == TCP then ETH_LEN + 4 * h.words + 20
    else if h.proto == UDP || h.proto == ICMP then ETH_LEN + 4 * h.words + 8
    else ETH_LEN + IP_LEN
  }

  // ----- Where the fields are ---------------------------------------------------------------------

  lemma Be16At(f: seq<byte>, i: nat, v: nat)
    requires v < 0x1_0000 && i + 2 <= |f| && f[i] == Be16Bytes(v)[0] && f[i + 1] == Be16Bytes(v)[1]
    ensures Be16(f, i) == v
  {
  }

  lemma Be32At(f: seq<byte>, i: nat, v: nat)
    requires v < TWO32 && i + 4 <= |f| && f[i..i + 4] == Be32Bytes(v)
    ensures Be32(f, i) == v
  {
    var b := Be32Bytes(v);
    assert forall j :: 0 <= j < 4 ==> f[i + j] == f[i..i + 4][j] == b[j];
    assert b[0] == Be16Bytes(v / 0x1_0000)[0] && b[1] == Be16Bytes(v / 0x1_0000)[1];
    assert b[2] == Be16Bytes(v % 0x1_0000)[0] && b[3] == Be16Bytes(v % 0x1_0000)[1];
    assert f[i] == b[0] && f[i + 1] == b[1] && f[i + 2] == b[2] && f[i + 3] == b[3];
    hide Be16Bytes, Be16;
    Be16At(f, i, v / 0x1_0000);
    Be16At(f, i + 2, v % 0x1_0000);
  }

  lemma FixedFields(h: IpHeader)
    requires ValidHeader(h)
    ensures var r := FixedPart(h);
            && r[0] % 16 == h.words && r[9] == h.proto && r[12..16] == Be32Bytes(h.src) && r[16..20] == Be32Bytes(h.dst)
  {
    hide Be32Bytes;
    assert (h.version * 16 + h.words) % 16 == h.words;
  }

  /** The frame at the positions the parser looks at, as far as n bytes of it are there. */
  lemma FrameFields(macs: seq<byte>, h: IpHeader, body: seq<byte>, n: nat)
    requires |macs| == 12 && ValidHeader(h) && n <= ETH_LEN + 4 * h.words + |body|
    ensures var f := FrameOf(macs, h, body)[..n];
            && (ETH_LEN <= n ==> Be16(f, 12) == ETH_P_IP)
            && (ETH_LEN + IP_LEN <= n ==>
                  f[14] % 16 == h.words && f[23] == h.proto && Be32(f, 26) == h.src && Be32(f, 30) == h.dst)
  {
    FixedFields(h);
    hide FixedPart, Be32Bytes;
    var f := FrameOf(macs, h, body)[..n];
    if ETH_LEN <= n { assert f[12] == 8 && f[13] == 0; }
    hide Be16, Be32;
    if ETH_LEN + IP_LEN <= n {
      var r := FixedPart(h);
      assert f[14..34] == r;
      assert f[14] == f[14..34][0] && f[23] == f[14..34][9];
      assert f[26..30] == f[14..34][12..16] && f[30..34] == f[14..34][16..20];
      Be32At(f, 26, h.src);
      Be32At(f, 30, h.dst);
    }
  }

  lemma WholeFrame(macs: seq<byte>, h: IpHeader, body: seq<byte>)
    requires |macs| == 12 && ValidHeader(h)
    ensures var f := FrameOf(macs, h, body);
            && Be16(f, 12) == ETH_P_IP && f[14] % 16 == h.words && f[23] == h.proto
            && Be32(f, 26) == h.src && Be32(f, 30) == h.dst && f[ETH_LEN + 4 * h.words..] == body
  {
    FrameFields(macs, h, body, ETH_LEN + 4 * h.words + |body|);
    hide FixedPart, Be16, Be32;
    var f := FrameOf(macs, h, body);
    assert f[..|f|] == f;
  }

  // ----- Round trips ------------------------------------------------------------------------------

  /** A TCP or UDP packet is parsed to the flow it was built from. */
  lemma TransportRoundTrip(macs: seq<byte>, h: IpHeader, srcPort: nat, dstPort: nat, rest: seq<byte>)
    requires |macs| == 12 && ValidHeader(h) && srcPort < 0x1_0000 && dstPort < 0x1_0000
    requires (h.proto == TCP && |rest| >= 16) || (h.proto == UDP && |rest| >= 4)
    ensures ParsePacket(FrameOf(macs, h, Be16Bytes(srcPort) + Be16Bytes(dstPort) + rest)) ==
            Packet(FlowKey(h.src, srcPort, h.dst, dstPort, h.proto))
  {
    hide FrameOf, Be16, Be32, Be16Bytes;
    var body, l4 := Be16Bytes(srcPort) + Be16Bytes(dstPort) + rest, ETH_LEN + 4 * h.words;
    var f := FrameOf(macs, h, body);
    WholeFrame(macs, h, body);
    assert forall j :: 0 <= j < 4 ==> f[l4 + j] == f[l4..][j] == body[j];
    assert f[l4] == body[0] && f[l4 + 1] == body[1] && f[l4 + 2] == body[2] && f[l4 + 3] == body[3];
    Be16At(f, l4, srcPort);
    Be16At(f, l4 + 2, dstPort);
  }

  /** An ICMP packet is parsed to its addresses; it is a special ping if and only if it is a request from
      192.168.50.3 to 192.168.50.4 or a reply the other way. */
  lemma IcmpRoundTrip(macs: seq<byte>, h: IpHeader, kind: byte, rest: seq<byte>)
    requires |macs| == 12 && ValidHeader(h) && h.proto == ICMP && |rest| >= 7
    ensures var p, host3, host4 := ParsePacket(FrameOf(macs, h, [kind] + rest)), 0xC0A83203, 0xC0A83204;
            && IsHandled(p) && p.key == FlowKey(h.src, 0, h.dst, 0, ICMP)
            && (p.Ping? <==> || (h.src == host3 && h.dst == host4 && kind == 8)
                             || (h.src == host4 && h.dst == host3 && kind == 0))
  {
    hide FrameOf, Be16, Be32;
    var body, l4 := [kind] + rest, ETH_LEN + 4 * h.words;
    var f := FrameOf(macs, h, body);
    WholeFrame(macs, h, body);
    assert f[l4] == f[l4..][0] == kind;
  }

  /** Any other protocol is a flow between addresses, whatever follows the header. */
  lemma OtherRoundTrip(macs: seq<byte>, h: IpHeader, body: seq<byte>)
    requires |macs| == 12 && ValidHeader(h) && h.proto !in {ICMP, TCP, UDP}
    ensures ParsePacket(FrameOf(macs, h, body)) == Packet(FlowKey(h.src, 0, h.dst, 0, h.proto))
  {
    hide FrameOf, Be16, Be32;
    WholeFrame(macs, h, body);
  }

  /** Cut off after n bytes, a frame is parsed if and only if every header it needs is complete. */
  lemma CutOff(macs: seq<byte>, h: IpHeader, body: seq<byte>, n: nat)
    requires |macs| == 12 && ValidHeader(h) && n <= ETH_LEN + 4 * h.words + |body|
    ensures ParsePacket(FrameOf(macs, h, body)[..n]) == Unparsed <==> n < Needed(h)
  {
    FrameFields(macs, h, body, n);
    hide FrameOf, Be16, Be32;
  }

  // ----- All frames -------------------------------------------------------------------------------

  /** A frame whose type is not IPv4 is dropped if it is LLDP and passed on unparsed otherwise. */
  lemma OtherTypes(macs: seq<byte>, etherType: nat, rest: seq<byte>)
    requires |macs| == 12 && etherType < 0x1_0000 && etherType != ETH_P_IP
    ensures ParsePacket(macs + Be16Bytes(etherType) + rest) == if etherType == ETH_P_LLDP then Lldp else Unparsed
  {
    var f := macs + Be16Bytes(etherType) + rest;
    assert f[12] == Be16Bytes(etherType)[0] && f[13] == Be16Bytes(etherType)[1];
    hide Be16, Be16Bytes;
    Be16At(f, 12, etherType);
  }

  function HeaderIn(f: seq<byte>): IpHeader
    requires |f| >= ETH_LEN + IP_LEN && f[14] % 16 >= 5 && |f| >= ETH_LEN + 4 * (f[14] as int % 16)
  {
    IpHeader(f[14] / 16, f[14] % 16, f[15..23], f[23], f[24..26], Be32(f, 26), Be32(f, 30), f[34..ETH_LEN + 4 * (f[14] % 16)])
  }

  lemma Be32Restored(f: seq<byte>, i: nat)
    requires i + 4 <= |f|
    ensures Be32(f, i) < TWO32 && Be32Bytes(Be32(f, i)) == f[i..i + 4]
  {
    var hi, lo := Be16(f, i), Be16(f, i + 2);
    assert Be16Bytes(hi) == [f[i], f[i + 1]];
    assert Be16Bytes(lo) == [f[i + 2], f[i + 3]];
    hide Be16, Be16Bytes;
    assert (hi * 0x1_0000 + lo) / 0x1_0000 == hi && (hi * 0x1_0000 + lo) % 0x1_0000 == lo;
  }

  /** Every frame of type IPv4 that holds its header, with a length of at least five words, is built from
      its fields: the round trips leave out no such frame. */
  lemma EveryFrameIsBuilt(f: seq<byte>)
    requires |f| >= ETH_LEN + IP_LEN && Be16(f, 12) == ETH_P_IP
    requires f[14] % 16 >= 5 && |f| >= ETH_LEN + 4 * (f[14] as int % 16)
    ensures var h := HeaderIn(f); ValidHeader(h) && FrameOf(f[..12], h, f[ETH_LEN + 4 * h.words..]) == f
  {
    assert f[..12] + [8, 0] == f[..ETH_LEN] by { assert f[12] == 8 && f[13] == 0; }
    hide Be16, Be32, FixedPart;
    FixedPartIn(f);
    var n := ETH_LEN + 4 * HeaderIn(f).words;
    assert f[..ETH_LEN] + f[14..34] == f[..34];
    assert f[..34] + f[34..n] == f[..n];
    assert f[..n] + f[n..] == f;
  }

  lemma FixedPartIn(f: seq<byte>)
    requires |f| >= ETH_LEN + IP_LEN && f[14] % 16 >= 5 && |f| >= ETH_LEN + 4 * (f[14] as int % 16)
    ensures var h := HeaderIn(f); ValidHeader(h) && FixedPart(h) == f[14..34]
  {
    Be32Restored(f, 26);
    Be32Restored(f, 30);
    hide Be32, Be32Bytes;
    assert f[14] / 16 * 16 + f[14] % 16 == f[14];
    assert f[14..34] == [f[14]] + f[15..23] + [f[23]] + f[24..26] + f[26..30] + f[30..34];
  }

  /** A header length below five words is not refused: at zero the ports are read from the IPv4 header
      itself. */
  lemma ShortHeaderPorts(f: seq<byte>)
    requires |f| >= ETH_LEN + IP_LEN && Be16(f, 12) == ETH_P_IP && f[14] % 16 == 0 && f[23] in {TCP, UDP}
    ensures ParsePacket(f) == Packet(FlowKey(Be32(f, 26), Be16(f, 14), Be32(f, 30), Be16(f, 16), f[23]))
  {
    hide Be16, Be32;
    assert f[14] % 16 * 4 == 0;
  }
}
