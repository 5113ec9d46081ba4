/** Per-flow statistics and global accounting (xdp_prog_kern.c), packet by packet. */
module Flows {
  import opened Numbers
  import opened Bytes
  import opened Classifier

  const NO_GAP := 0xffff_ffff_ffff_ffff
  const MAX_FLOW_SAVED := 10000

  /** The counters are 32 bits wide. */
  function Wrap32(x: nat): nat { x % TWO32 }

  // ----- Records ----------------------------------------------------------------------------------

  datatype FlowKey = FlowKey(srcIp: nat, srcPort: nat, dstIp: nat, dstPort: nat, proto: nat)

  datatype DataPoint = DataPoint(startTs: nat, lastSeen: nat, minIat: nat, totalPkts: nat, maxLen: nat, minLen: nat,
                                 totalBytes: nat, features: seq<nat>, cls: int)

  datatype LoadedTree = NoTree | TreeOf(nodes: seq<Node>, numNodes: nat)

  // ----- What an entry says about the packets of its flow -----------------------------------------

  /** A packet as the statistics see it. */
  datatype Sample = Sample(ts: nat, len: nat)

  /** Timestamps are positive 64-bit numbers that do not decrease; lengths fit in 32 bits. */
  ghost predicate ValidRun(h: seq<Sample>) {
    && h != []
    && (forall i :: 0 <= i < |h| ==> 0 < h[i].ts < TWO64 && h[i].len < TWO32)
    && (forall i, j :: 0 <= i <= j < |h| ==> h[i].ts <= h[j].ts)
  }

  function TotalLen(h: seq<Sample>): nat {
    if h == [] then 0 else TotalLen(h[..|h| - 1]) + h[|h| - 1].len
  }

  ghost predicate IsMaxLen(h: seq<Sample>, m: nat) {
    (exists i :: 0 <= i < |h| && h[i].len == m) && forall i :: 0 <= i < |h| ==> h[i].len <= m
  }

  ghost predicate IsMinLen(h: seq<Sample>, m: nat) {
    (exists i :: 0 <= i < |h| && h[i].len == m) && forall i :: 0 <= i < |h| ==> m <= h[i].len
  }

  function Gap(h: seq<Sample>, i: nat): int
    requires 0 < i < |h|
  {
    h[i].ts - h[i - 1].ts
  }

  /** m is the least positive gap between packets, or the sentinel if there is none. */
  ghost predicate IsLeastGap(h: seq<Sample>, m: nat) {
    && (forall i :: 0 < i < |h| && Gap(h, i) > 0 ==> m <= Gap(h, i))
    && (m == NO_GAP || exists i :: 0 < i < |h| && Gap(h, i) == m > 0)
  }

  /** The numbers that the tree looks at. */
  function Measures(d: DataPoint): (v: seq<nat>)
    requires d.startTs <= d.lastSeen
    ensures |v| == MAX_FEATURES
  {
    [(d.lastSeen - d.startTs) / 1000, d.totalPkts, d.totalBytes, d.maxLen, d.minLen,
     if d.minIat != NO_GAP then d.minIat / 1000 else 0]
  }

  ghost predicate Describes(d: DataPoint, h: seq<Sample>) {
    && ValidRun(h) && d.startTs == h[0].ts && d.lastSeen == h[|h| - 1].ts
    && d.totalPkts == Wrap32(|h|) && d.totalBytes == Wrap32(TotalLen(h))
    && IsMaxLen(h, d.maxLen) && IsMinLen(h, d.minLen) && IsLeastGap(h, d.minIat)
  }

  function Answer(t: LoadedTree, x: seq<nat>): int
    requires |x| == MAX_FEATURES
  {
    match t
    case NoTree => 0
    case TreeOf(nodes, num) => Walk(nodes, num, x, 0, MAX_DT_DEPTH)
  }

  /** Features are the measures in fixed point, and the label is the tree's answer on them. */
  ghost predicate Classified(d: DataPoint, t: LoadedTree) {
    d.startTs <= d.lastSeen && d.features == Features(Measures(d)) && d.cls == Answer(t, d.features)
  }

  ghost predicate HasGap(h: seq<Sample>) { exists i :: 0 < i < |h| && Gap(h, i) > 0 }

  /** The features of an entry, index by index, as numbers of its run: duration in microseconds, packets
      and bytes modulo 2^32, largest and least length, and the least positive gap in microseconds, or 0
      without one. */
  ghost predicate FeaturesTell(x: seq<nat>, h: seq<Sample>) {
    && h != [] && |x| == MAX_FEATURES && h[0].ts <= h[|h| - 1].ts
    && x[0] == FixedFromUint((h[|h| - 1].ts - h[0].ts) / 1000)
    && x[1] == FixedFromUint(|h| % TWO32)
    && x[2] == FixedFromUint(TotalLen(h) % TWO32)
    && (exists m :: IsMaxLen(h, m) && x[3] == FixedFromUint(m))
    && (exists m :: IsMinLen(h, m) && x[4] == FixedFromUint(m))
    && (HasGap(h) ==> exists m: nat :: IsLeastGap(h, m) && m < NO_GAP && x[5] == FixedFromUint(m / 1000))
    && (!HasGap(h) ==> x[5] == 0)
  }

  lemma FeaturesOfRun(d: DataPoint, t: LoadedTree, h: seq<Sample>)
    requires Describes(d, h) && Classified(d, t)
    ensures FeaturesTell(d.features, h)
  {
    var v, x := Measures(d), d.features;
    assert forall i :: 0 <= i < MAX_FEATURES ==> x[i] == FixedFromUint(v[i]);
    LeastGapKnown(h, d.minIat);
    assert FixedFromUint(0) == 0;
    hide FixedFromUint, Features, IsMaxLen, IsMinLen, IsLeastGap, HasGap, TotalLen;
    assert IsMaxLen(h, v[3]) && IsMinLen(h, v[4]);
  }

  /** The sentinel stands for a run without positive gaps. */
  lemma LeastGapKnown(h: seq<Sample>, m: nat)
    requires ValidRun(h) && IsLeastGap(h, m)
    ensures m <= NO_GAP && (HasGap(h) <==> m < NO_GAP)
  {
    assert forall i :: 0 < i < |h| ==> Gap(h, i) < NO_GAP;
  }

  // ----- One packet -------------------------------------------------------------------------------

  function FirstPacket(ts: nat, len: nat): DataPoint {
    DataPoint(ts, ts, NO_GAP, 1, Wrap32(len), Wrap32(len), Wrap32(len), [0, 0, 0, 0, 0, 0], 0)
  }

  function NextPacket(d: DataPoint, ts: nat, len: nat): DataPoint {
    var iat := if d.lastSeen > 0 && ts >= d.lastSeen then ts - d.lastSeen else 0;
    d.(totalPkts := Wrap32(d.totalPkts + 1), totalBytes := Wrap32(d.totalBytes + len),
       minIat := if 0 < iat < d.minIat then iat else d.minIat,
       maxLen := if len > d.maxLen then Wrap32(len) else d.maxLen,
       minLen := if len < d.minLen then Wrap32(len) else d.minLen,
       lastSeen := ts)
  }

  lemma FirstDescribes(ts: nat, len: nat)
    requires 0 < ts < TWO64 && len < TWO32
    ensures Describes(FirstPacket(ts, len), [Sample(ts, len)])
  {
    var h := [Sample(ts, len)];
    assert h[..0] == [];
    assert TotalLen(h) == len;
    assert h[0].len == len;
  }

  lemma ModAdd(a: nat, b: nat)
    ensures Wrap32(Wrap32(a) + b) == Wrap32(a + b)
  {
  }

  /** The statistics stay exact with every further packet. */
  lemma NextDescribes(d: DataPoint, h: seq<Sample>, ts: nat, len: nat)
    requires Describes(d, h) && d.lastSeen <= ts < TWO64 && len < TWO32
    ensures Describes(NextPacket(d, ts, len), h + [Sample(ts, len)])
  {
    hide IsMaxLen, IsMinLen, IsLeastGap, ValidRun, TotalLen, Wrap32;
    Fits32(len);
    RunNext(h, ts, len);
    TotalsNext(h, ts, len);
    MaxNext(h, d.maxLen, ts, len);
    MinNext(h, d.minLen, ts, len);
    GapsNext(h, d.minIat, ts, len);
  }

  lemma Fits32(len: nat)
    requires len < TWO32
    ensures Wrap32(len) == len
  {
  }

  lemma RunNext(h: seq<Sample>, ts: nat, len: nat)
    requires ValidRun(h) && h[|h| - 1].ts <= ts < TWO64 && len < TWO32
    ensures ValidRun(h + [Sample(ts, len)]) && h != [] && h[|h| - 1].ts > 0
  {
  }

  lemma TotalsNext(h: seq<Sample>, ts: nat, len: nat)
    ensures var h' := h + [Sample(ts, len)];
            Wrap32(Wrap32(|h|) + 1) == Wrap32(|h'|) && Wrap32(Wrap32(TotalLen(h)) + len) == Wrap32(TotalLen(h'))
  {
    var h' := h + [Sample(ts, len)];
    assert h'[..|h|] == h;
    ModAdd(|h|, 1);
    ModAdd(TotalLen(h), len);
  }

  lemma MaxNext(h: seq<Sample>, m: nat, ts: nat, len: nat)
    requires IsMaxLen(h, m)
    ensures IsMaxLen(h + [Sample(ts, len)], if len > m then len else m)
  {
    var h' := h + [Sample(ts, len)];
    var i :| 0 <= i < |h| && h[i].len == m;
    assert h'[|h|].len == len && h'[i].len == m;
  }

  lemma MinNext(h: seq<Sample>, m: nat, ts: nat, len: nat)
    requires IsMinLen(h, m)
    ensures IsMinLen(h + [Sample(ts, len)], if len < m then len else m)
  {
    var h' := h + [Sample(ts, len)];
    var i :| 0 <= i < |h| && h[i].len == m;
    assert h'[|h|].len == len && h'[i].len == m;
  }

  lemma GapsNext(h: seq<Sample>, m: nat, ts: nat, len: nat)
    requires ValidRun(h) && IsLeastGap(h, m) && h[|h| - 1].ts <= ts < TWO64
    ensures var iat := ts - h[|h| - 1].ts; IsLeastGap(h + [Sample(ts, len)], if 0 < iat < m then iat else m)
  {
    var h', n := h + [Sample(ts, len)], |h|;
    var iat := ts - h[n - 1].ts;
    assert forall i :: 0 < i < n ==> Gap(h', i) == Gap(h, i);
    assert Gap(h', n) == iat;
    if !(0 < iat < m) && m != NO_GAP {
      var i :| 0 < i < n && Gap(h, i) == m > 0;
      assert Gap(h', i) == m;
    }
  }

  // ----- Gaps and duration ------------------------------------------------------------------------

  function PositiveGaps(h: seq<Sample>): nat {
    if |h| < 2 then 0 else PositiveGaps(h[..|h| - 1]) + if Gap(h, |h| - 1) > 0 then 1 else 0
  }

  /** The least gap cannot be larger than the duration allows. */
  lemma {:induction false} GapsFitDuration(h: seq<Sample>, m: nat)
    requires ValidRun(h) && forall i :: 0 < i < |h| && Gap(h, i) > 0 ==> m <= Gap(h, i)
    ensures PositiveGaps(h) * m <= h[|h| - 1].ts - h[0].ts
    decreases |h|
  {
    if |h| >= 2 {
      var p, g := h[..|h| - 1], Gap(h, |h| - 1);
      assert forall i :: 0 < i < |p| ==> Gap(p, i) == Gap(h, i);
      GapsFitDuration(p, m);
      assert g > 0 ==> (PositiveGaps(p) + 1) * m == PositiveGaps(p) * m + m;
    }
  }

  // ----- Parsing ----------------------------------------------------------------------------------

  const ETH_LEN := 14
  const IP_LEN := 20
  const ETH_P_LLDP := 0x88cc
  const ETH_P_IP := 0x0800
  const ICMP := 1
  const TCP := 6
  const UDP := 17

  datatype Parsed = Lldp | Unparsed | Ping(key: FlowKey) | Packet(key: FlowKey)

  predicate IsSpecialPing(src: nat, dst: nat, icmpType: nat) {
    || (src == 0xC0A83203 && dst == 0xC0A83204 && icmpType == 8)
    || (src == 0xC0A83204 && dst == 0xC0A83203 && icmpType == 0)
  }

  /** The flow a frame belongs to.  Headers are read only where they lie inside the frame. */
  function ParsePacket(f: seq<byte>): Parsed {
    if |f| < ETH_LEN then Unparsed
    else if Be16(f, 12) == ETH_P_LLDP then Lldp
    else if Be16(f, 12) != ETH_P_IP || |f| < ETH_LEN + IP_LEN then Unparsed
    else
      var src, dst, proto := Be32(f, 26), Be32(f, 30), f[23];
      var l4 := ETH_LEN + f[14] % 16 * 4;
      if proto == ICMP then
        if |f| < l4 + 8 then Unparsed
        else if IsSpecialPing(src, dst, f[l4]) then Ping(FlowKey(src, 0, dst, 0, proto))
        else Packet(FlowKey(src, 0, dst, 0, proto))
      else if proto == TCP || proto == UDP then
        if |f| < l4 + (if proto == TCP then 20 else 8) then Unparsed
        else Packet(FlowKey(src, Be16(f, l4), dst, Be16(f, l4 + 2), proto))
      else Packet(FlowKey(src, 0, dst, 0, proto))
  }

  predicate IsFlowOf(p: Parsed, k: FlowKey) { (p.Ping? || p.Packet?) && p.key == k }

  // ----- Sums over all flows ----------------------------------------------------------------------

  datatype Counter = Pkts | Bytes

  function Count(d: DataPoint, c: Counter): nat { if c == Pkts then d.totalPkts else d.totalBytes }

  ghost function Sum(m: map<FlowKey, DataPoint>, c: Counter): nat
    decreases |m|
  {
    if m == map[] then 0
    else
      var k :| k in m;
      Count(m[k], c) + Sum(m - {k}, c)
  }

  lemma {:induction false} SumWithout(m: map<FlowKey, DataPoint>, c: Counter, k: FlowKey)
    requires k in m
    ensures Sum(m, c) == Count(m[k], c) + Sum(m - {k}, c)
    decreases |m|
  {
    var p :| p in m && Sum(m, c) == Count(m[p], c) + Sum(m - {p}, c);
    if p != k {
      SumWithout(m - {p}, c, k);
      SumWithout(m - {k}, c, p);
      assert m - {p} - {k} == m - {k} - {p};
    }
  }

  lemma SumUpdate(m: map<FlowKey, DataPoint>, c: Counter, k: FlowKey, d: DataPoint)
    ensures Sum(m[k := d], c) == Sum(m, c) + Count(d, c) - if k in m then Count(m[k], c) else 0
  {
    SumWithout(m[k := d], c, k);
    if k in m {
      SumWithout(m, c, k);
      assert m[k := d] - {k} == m - {k};
    } else {
      assert m[k := d] - {k} == m;
    }
  }

  /** One packet of len bytes more for flow k, and nothing else. */
  ghost predicate CountedUp(m: map<FlowKey, DataPoint>, m': map<FlowKey, DataPoint>, k: FlowKey, len: nat) {
    && k in m' && m' == m[k := m'[k]]
    && forall c :: Count(m'[k], c) == Wrap32((if k in m then Count(m[k], c) else 0) + if c == Pkts then 1 else len)
  }

  // ----- Runs -------------------------------------------------------------------------------------

  /** A frame that has been handled; refused says that its flow was new and could not be added. */
  datatype Arrival = Arrival(frame: seq<byte>, ts: nat, refused: bool)

  /** Numbers that add up over a run. */
  datatype Column = Handled | HandledBytes | TrackedPkts | TrackedBytes | RefusedPkts | RefusedBytes | PingBytes

  predicate IsHandled(p: Parsed) { p.Ping? || p.Packet? }

  function Weight(a: Arrival, c: Column): nat {
    var p, len := ParsePacket(a.frame), |a.frame|;
    var counted := if p.Packet? then len else 0;
    match c
    case Handled => if IsHandled(p) then 1 else 0
    case HandledBytes => counted
    case TrackedPkts => if IsHandled(p) && !a.refused then 1 else 0
    case TrackedBytes => if IsHandled(p) && !a.refused then len else 0
    case RefusedPkts => if IsHandled(p) && a.refused then 1 else 0
    case RefusedBytes => if a.refused then counted else 0
    case PingBytes => if p.Ping? && !a.refused then len else 0
  }

  function Tally(run: seq<Arrival>, c: Column): nat
    decreases |run|
  {
    if run == [] then 0 else Tally(run[..|run| - 1], c) + Weight(run[|run| - 1], c)
  }

  lemma TallyMore(run: seq<Arrival>, a: Arrival, c: Column)
    ensures Tally(run + [a], c) == Tally(run, c) + Weight(a, c)
  {
    assert (run + [a])[..|run|] == run;
  }

  /** The packets of flow k that were tracked. */
  function SamplesOf(run: seq<Arrival>, k: FlowKey): seq<Sample>
    decreases |run|
  {
    if run == [] then []
    else
      var a := run[|run| - 1];
      SamplesOf(run[..|run| - 1], k) + if IsFlowOf(ParsePacket(a.frame), k) && !a.refused then [Sample(a.ts, |a.frame|)] else []
  }

  lemma SamplesMore(run: seq<Arrival>, a: Arrival, k: FlowKey)
    ensures SamplesOf(run + [a], k) ==
            SamplesOf(run, k) + if IsFlowOf(ParsePacket(a.frame), k) && !a.refused then [Sample(a.ts, |a.frame|)] else []
  {
    assert (run + [a])[..|run|] == run;
  }

  /** Every handled packet is tracked or refused; the bytes of a tracked special ping are counted by its flow
      only. */
  lemma {:induction false} TalliesAgree(run: seq<Arrival>)
    ensures Tally(run, Handled) == Tally(run, TrackedPkts) + Tally(run, RefusedPkts)
    ensures Tally(run, HandledBytes) + Tally(run, PingBytes) == Tally(run, TrackedBytes) + Tally(run, RefusedBytes)
    decreases |run|
  {
    hide ParsePacket;
    if run != [] { TalliesAgree(run[..|run| - 1]); }
  }

  ghost predicate NoneRefused(run: seq<Arrival>) { forall i :: 0 <= i < |run| ==> !run[i].refused }

  lemma {:induction false} NoneRefusedTallies(run: seq<Arrival>)
    requires NoneRefused(run)
    ensures Tally(run, RefusedPkts) == Tally(run, RefusedBytes) == 0
    decreases |run|
  {
    hide ParsePacket;
    if run != [] {
      assert !run[|run| - 1].refused;
      NoneRefusedTallies(run[..|run| - 1]);
    }
  }

  /** The counters of all flows and of the accounting. */
  datatype Ledger = Ledger(flows: map<FlowKey, DataPoint>, pkts: nat, bytes: nat)

  /** One handled packet: it is accounted, and it is counted by its flow or refused with a new flow. */
  ghost predicate Enters(a: Ledger, key: FlowKey, len: nat, counted: nat, b: Ledger, refused: bool) {
    && b.pkts == Wrap32(a.pkts + 1) && b.bytes == Wrap32(a.bytes + counted)
    && (if refused then key !in a.flows && b.flows == a.flows else CountedUp(a.flows, b.flows, key, len))
    && (key !in a.flows && |a.flows| >= MAX_FLOW_SAVED ==> refused)
  }

  /** What one frame does.  The length of a special ping is not accounted. */
  ghost predicate Handles(a: Ledger, x: Arrival, b: Ledger) {
    match ParsePacket(x.frame)
    case Ping(k) => Enters(a, k, |x.frame|, 0, b, x.refused)
    case Packet(k) => Enters(a, k, |x.frame|, |x.frame|, b, x.refused)
    case _ => b == a
  }

  /** The counters say what happened in the run, modulo 2^32. */
  ghost predicate Tells(l: Ledger, run: seq<Arrival>) {
    && l.pkts == Wrap32(Tally(run, Handled)) && l.bytes == Wrap32(Tally(run, HandledBytes))
    && Wrap32(Sum(l.flows, Pkts)) == Wrap32(Tally(run, TrackedPkts)) && Wrap32(Sum(l.flows, Bytes)) == Wrap32(Tally(run, TrackedBytes))
  }

  lemma HandlesTells(a: Ledger, run: seq<Arrival>, x: Arrival, b: Ledger)
    requires Tells(a, run) && Handles(a, x, b)
    ensures Tells(b, run + [x])
  {
    hide Wrap32, Sum, Tally, CountedUp, ParsePacket;
    forall c: Column ensures Tally(run + [x], c) == Tally(run, c) + Weight(x, c) { TallyMore(run, x, c); }
    var p, len := ParsePacket(x.frame), |x.frame|;
    var counted := if p.Packet? then len else 0;
    if IsHandled(p) {
      ModAdd(Tally(run, Handled), 1);
      ModAdd(Tally(run, HandledBytes), counted);
      if !x.refused {
        SumSteps(a.flows, b.flows, p.key, len);
        AddBoth(Sum(a.flows, Pkts), Tally(run, TrackedPkts), 1);
        AddBoth(Sum(a.flows, Bytes), Tally(run, TrackedBytes), len);
      }
    }
  }

  /** Flows and accounting balance: packet counts sum to the accounted number minus the refused packets, and
      without refusals bytes sum to the accounted bytes plus those of the special pings, modulo 2^32. */
  lemma RunBalances(l: Ledger, run: seq<Arrival>)
    requires Tells(l, run)
    ensures Wrap32(Sum(l.flows, Pkts) + Tally(run, RefusedPkts)) == l.pkts
    ensures Wrap32(Sum(l.flows, Bytes) + Tally(run, RefusedBytes)) == Wrap32(l.bytes + Tally(run, PingBytes))
    ensures NoneRefused(run) ==> Wrap32(Sum(l.flows, Pkts)) == l.pkts
    ensures NoneRefused(run) ==> Wrap32(Sum(l.flows, Bytes)) == Wrap32(l.bytes + Tally(run, PingBytes))
  {
    hide Wrap32, Sum, Tally, Weight;
    TalliesAgree(run);
    AddBoth(Sum(l.flows, Pkts), Tally(run, TrackedPkts), Tally(run, RefusedPkts));
    AddBoth(Sum(l.flows, Bytes), Tally(run, TrackedBytes), Tally(run, RefusedBytes));
    ModAdd(Tally(run, HandledBytes), Tally(run, PingBytes));
    if NoneRefused(run) { NoneRefusedTallies(run); }
  }

  /** A special ping of 42 bytes: addresses 192.168.50.3 and 192.168.50.4, an echo request. */
  const SPECIAL_PING: seq<byte> :=
    [0, 0, 0, 0, 0, 0, 0, 0, 0, 0, 0, 0, 8, 0,
     0x45, 0, 0, 28, 0, 0, 0, 0, 64, 1, 0, 0, 192, 168, 50, 3, 192, 168, 50, 4,
     8, 0, 0, 0, 0, 0, 0, 0]

  /** Its flow counts 42 bytes and the accounting none. */
  lemma PingNotAccounted(b: Ledger)
    requires Handles(Ledger(map[], 0, 0), Arrival(SPECIAL_PING, 1, false), b)
    ensures b.pkts == 1 && b.bytes == 0 && Sum(b.flows, Bytes) == 42 && Sum(b.flows, Pkts) == 1
  {
    PingParses();
    hide ParsePacket;
    var k := FlowKey(0xC0A83203, 0, 0xC0A83204, 0, ICMP);
    assert b.flows == map[][k := b.flows[k]];
    assert Count(b.flows[k], Pkts) == 1 && Count(b.flows[k], Bytes) == 42;
    SumUpdate(map[], Pkts, k, b.flows[k]);
    SumUpdate(map[], Bytes, k, b.flows[k]);
  }

  lemma PingParses()
    ensures |SPECIAL_PING| == 42 && ParsePacket(SPECIAL_PING) == Ping(FlowKey(0xC0A83203, 0, 0xC0A83204, 0, ICMP))
  {
    hide ParsePacket;
    ParsesAsPing(SPECIAL_PING);
  }

  lemma ParsesAsPing(f: seq<byte>)
    requires |f| == 42 && f[12] == 8 && f[13] == 0 && f[14] == 0x45 && f[23] == ICMP && f[34] == 8
    requires f[26] == f[30] == 192 && f[27] == f[31] == 168 && f[28] == f[32] == 50 && f[29] == 3 && f[33] == 4
    ensures ParsePacket(f) == Ping(FlowKey(0xC0A83203, 0, 0xC0A83204, 0, ICMP))
  {
    assert Be16(f, 12) == ETH_P_IP && Be32(f, 26) == 0xC0A83203 && Be32(f, 30) == 0xC0A83204;
    hide Be16, Be32;
  }

  // ----- The program ------------------------------------------------------------------------------

  datatype Action = Pass | Drop

  class Detector {
    var flows: map<FlowKey, DataPoint>
    var acctPkts: nat
    var acctBytes: nat
    ghost var history: map<FlowKey, seq<Sample>>
    ghost var clock: nat
    ghost var run: seq<Arrival>

    /** Every entry describes all packets of its flow that were tracked. */
    ghost predicate Tracked()
      reads this`flows, this`history, this`clock
    {
      && flows.Keys == history.Keys
      && forall k :: k in flows ==> Describes(flows[k], history[k]) && flows[k].lastSeen <= clock
    }

    ghost function Counters(): Ledger
      reads this`flows, this`acctPkts, this`acctBytes
    {
      Ledger(flows, acctPkts, acctBytes)
    }

    /** Entries and counters say exactly what happened in the run so far. */
    ghost predicate UpToDate()
      reads this
    {
      && Tracked() && Tells(Counters(), run)
      && forall k :: SamplesOf(run, k) == if k in history then history[k] else []
    }

    /** For every tracked flow the least gap, taken as often as there are gaps, fits into its duration. */
    lemma GapsFitEntry(k: FlowKey)
      requires Tracked() && k in flows
      ensures k in history && PositiveGaps(history[k]) * flows[k].minIat <= flows[k].lastSeen - flows[k].startTs
    {
      assert Describes(flows[k], history[k]);
      GapsFitDuration(history[k], flows[k].minIat);
    }

    constructor ()
      ensures UpToDate() && Counters() == Ledger(map[], 0, 0) && run == [] && clock == 0
    {
      flows, acctPkts, acctBytes := map[], 0, 0;
      history, clock, run := map[], 0, [];
    }

    /** The entry of every flow describes its packets of the run, and flows without an entry have none. */
    lemma EntryDescribesRun(k: FlowKey)
      requires UpToDate()
      ensures k in flows ==> Describes(flows[k], SamplesOf(run, k))
      ensures k !in flows ==> SamplesOf(run, k) == []
    {
    }

    /** Tracks one packet, unless its flow is new and cannot be added. */
    method UpdateStats(key: FlowKey, ts: nat, len: nat, tree: LoadedTree) returns (refused: bool)
      requires Tracked() && 0 < ts < TWO64 && clock <= ts && len < TWO32
      modifies this`flows, this`history, this`clock
      ensures Tracked() && clock == ts
      ensures refused ==> key !in old(flows) && flows == old(flows) && history == old(history)
      ensures !refused ==> key in flows && Classified(flows[key], tree) && CountedUp(old(flows), flows, key, len)
      ensures !refused ==> history == old(history)[key := (if key in old(history) then old(history)[key] else []) + [Sample(ts, len)]]
      ensures key !in old(flows) && old(|flows|) >= MAX_FLOW_SAVED ==> refused
    {
      hide Describes, FirstPacket, NextPacket, Classified, Wrap32, Count;
      var d;
      if key !in flows {
        var mapError: bool := *;
        if mapError || |flows| >= MAX_FLOW_SAVED {
          clock := ts;
          return true;
        }
        d := FirstPacket(ts, len);
        FirstDescribes(ts, len);
        FirstCounts(ts, len);
        assert [] + [Sample(ts, len)] == [Sample(ts, len)];
        history := history[key := [] + [Sample(ts, len)]];
      } else {
        NextDescribes(flows[key], history[key], ts, len);
        NextCounts(flows[key], ts, len);
        d := NextPacket(flows[key], ts, len);
        history := history[key := history[key] + [Sample(ts, len)]];
      }
      d := Classify(d, tree, history[key]);
      flows := flows[key := d];
      clock := ts;
      return false;
    }

    static method Classify(d: DataPoint, tree: LoadedTree, ghost h: seq<Sample>) returns (d': DataPoint)
      requires Describes(d, h)
      ensures Describes(d', h) && Classified(d', tree) && d'.lastSeen == d.lastSeen
      ensures forall c :: Count(d', c) == Count(d, c)
    {
      StartsFirst(d, h);
      var x := Features(Measures(d));
      var answer := 0;
      if tree.TreeOf? { answer := PredictDt(tree.nodes, tree.numNodes, x); }
      d' := d.(features := x, cls := answer);
      SameStatistics(d, d', h);
    }

    /** Handles one frame: LLDP is dropped, everything else passes; IP packets are tracked and accounted.
        The length of a special ping is not accounted. */
    method HandlePacket(frame: seq<byte>, ts: nat, tree: LoadedTree) returns (action: Action, ghost refused: bool)
      requires UpToDate() && 0 < ts < TWO64 && clock <= ts && |frame| < TWO32
      modifies this
      ensures UpToDate() && run == old(run) + [Arrival(frame, ts, refused)] && old(clock) <= clock <= ts
      ensures Handles(old(Counters()), Arrival(frame, ts, refused), Counters())
      ensures action == Drop <==> ParsePacket(frame) == Lldp
      ensures IsHandled(ParsePacket(frame)) && !refused ==>
                && Classified(flows[ParsePacket(frame).key], tree)
                && FeaturesTell(flows[ParsePacket(frame).key].features, SamplesOf(run, ParsePacket(frame).key))
      ensures forall k :: !IsFlowOf(ParsePacket(frame), k) ==> (k in flows <==> k in old(flows)) && (k in flows ==> flows[k] == old(flows)[k])
    {
      hide Describes, Classified, ParsePacket, Tells, SamplesOf, CountedUp, FeaturesTell;
      var parsed := ParsePacket(frame);
      refused := false;
      ghost var l, r, h := Counters(), run, history;
      if parsed == Lldp {
        action := Drop;
      } else if parsed == Unparsed {
        action := Pass;
      } else {
        refused := Account(parsed.key, ts, |frame|, if parsed.Ping? then 0 else |frame|, tree);
        action := Pass;
      }
      run := run + [Arrival(frame, ts, refused)];
      HandlesTells(l, r, Arrival(frame, ts, refused), Counters());
      HistoryMore(h, history, r, Arrival(frame, ts, refused));
      if IsHandled(parsed) && !refused { FeaturesOfRun(flows[parsed.key], tree, SamplesOf(run, parsed.key)); }
    }

    /** Tracks and accounts one packet. */
    method Account(key: FlowKey, ts: nat, len: nat, counted: nat, tree: LoadedTree) returns (ghost refused: bool)
      requires Tracked() && 0 < ts < TWO64 && clock <= ts && len < TWO32
      modifies this`flows, this`history, this`clock, this`acctPkts, this`acctBytes
      ensures Tracked() && clock == ts && Enters(old(Counters()), key, len, counted, Counters(), refused)
      ensures !refused ==> key in flows && Classified(flows[key], tree)
      ensures history == if refused then old(history)
                         else old(history)[key := (if key in old(history) then old(history)[key] else []) + [Sample(ts, len)]]
      ensures forall k :: k != key ==> (k in flows <==> k in old(flows)) && (k in flows ==> flows[k] == old(flows)[k])
    {
      hide Describes, Classified, Wrap32, Count;
      var isRefused := UpdateStats(key, ts, len, tree);
      refused := isRefused;
      acctBytes := Wrap32(acctBytes + counted);
      acctPkts := Wrap32(acctPkts + 1);
    }
  }

  /** The histories follow the run. */
  lemma HistoryMore(h: map<FlowKey, seq<Sample>>, h': map<FlowKey, seq<Sample>>, run: seq<Arrival>, x: Arrival)
    requires forall k :: SamplesOf(run, k) == if k in h then h[k] else []
    requires var p := ParsePacket(x.frame);
             h' == if IsHandled(p) && !x.refused then h[p.key := (if p.key in h then h[p.key] else []) + [Sample(x.ts, |x.frame|)]] else h
    ensures forall k :: SamplesOf(run + [x], k) == if k in h' then h'[k] else []
  {
    hide ParsePacket, SamplesOf;
    forall k ensures SamplesOf(run + [x], k) == if k in h' then h'[k] else [] { SamplesMore(run, x, k); }
  }

  lemma SumSteps(m: map<FlowKey, DataPoint>, m': map<FlowKey, DataPoint>, k: FlowKey, len: nat)
    requires CountedUp(m, m', k, len)
    ensures Wrap32(Sum(m', Pkts)) == Wrap32(Sum(m, Pkts) + 1) && Wrap32(Sum(m', Bytes)) == Wrap32(Sum(m, Bytes) + len)
    ensures forall j :: j in m && j != k ==> j in m' && m'[j] == m[j]
  {
    hide Sum, Count, Wrap32;
    SumStep(m, m', Pkts, k, 1);
    SumStep(m, m', Bytes, k, len);
  }

  /** One counter goes up by n, modulo 2^32; so does the sum. */
  lemma SumStep(m: map<FlowKey, DataPoint>, m': map<FlowKey, DataPoint>, c: Counter, k: FlowKey, n: nat)
    requires k in m' && m' == m[k := m'[k]]
    requires Count(m'[k], c) == Wrap32((if k in m then Count(m[k], c) else 0) + n)
    ensures Wrap32(Sum(m', c)) == Wrap32(Sum(m, c) + n)
  {
    hide Sum, Count, Wrap32;
    SumUpdate(m, c, k, m'[k]);
    if k in m {
      SumWithout(m, c, k);
      StepMod(Sum(m, c), Count(m[k], c), n, Sum(m', c));
    } else {
      StepMod(Sum(m, c), 0, n, Sum(m', c));
    }
  }

  lemma StepMod(sum: nat, before: nat, n: nat, sum': nat)
    requires before <= sum && sum' == sum + Wrap32(before + n) - before
    ensures Wrap32(sum') == Wrap32(sum + n)
  {
    var q := (before + n) / TWO32;
    assert before + n == q * TWO32 + Wrap32(before + n);
    WrapMultiple(sum', q);
  }

  lemma WrapMultiple(x: nat, q: nat)
    ensures Wrap32(x + q * TWO32) == Wrap32(x)
  {
  }

  lemma AddBoth(a: nat, b: nat, c: nat)
    requires Wrap32(a) == Wrap32(b)
    ensures Wrap32(a + c) == Wrap32(b + c)
  {
  }

  lemma FirstCounts(ts: nat, len: nat)
    ensures forall c :: Count(FirstPacket(ts, len), c) == Wrap32(0 + if c == Pkts then 1 else len)
    ensures FirstPacket(ts, len).lastSeen == ts
  {
  }

  lemma NextCounts(d: DataPoint, ts: nat, len: nat)
    ensures forall c :: Count(NextPacket(d, ts, len), c) == Wrap32(Count(d, c) + if c == Pkts then 1 else len)
    ensures NextPacket(d, ts, len).lastSeen == ts
  {
  }

  lemma StartsFirst(d: DataPoint, h: seq<Sample>)
    requires Describes(d, h)
    ensures d.startTs <= d.lastSeen
    ensures forall x :: Describes(d.(features := x), h)
  {
  }

  lemma SameStatistics(d: DataPoint, d': DataPoint, h: seq<Sample>)
    requires Describes(d, h) && d' == d.(features := d'.features, cls := d'.cls)
    ensures Describes(d', h)
  {
  }
}
