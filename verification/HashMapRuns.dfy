/** What a sequence of hash map operations guarantees: a finite map when nothing is appended, and the order
    of entries with equal keys otherwise. */
module HashMapRuns {
  import opened HashMaps

  // ----- Without appends the table is a map -------------------------------------------------------

  ghost predicate UniqueKeys<K(!new)>(bs: seq<seq<Entry>>, ops: KeyOps<K>) {
    forall c :: |KeyChain(bs, ops, c)| <= 1
  }

  /** The map that the table represents: each key content with its entry. */
  ghost function MapOf<K(!new)>(bs: seq<seq<Entry>>, ops: KeyOps<K>): imap<K, Entry> {
    imap c | KeyChain(bs, ops, c) != [] :: KeyChain(bs, ops, c)[0]
  }

  /** bs' is bs after an insertion, as HashMap.Insert describes it. */
  ghost predicate Inserted<K(!new)>(bs: seq<seq<Entry>>, bs': seq<seq<Entry>>, ops: KeyOps<K>, e: Entry, strategy: Strategy, grew: bool) {
    forall c :: KeyChain(bs', ops, c) ==
      ChainAfterInsert(KeyChain(bs, ops, c), c == ops.content(e.key), e, strategy,
                       KeyChain(bs, ops, ops.content(e.key)) != [], grew)
  }

  ghost predicate Deleted<K(!new)>(bs: seq<seq<Entry>>, bs': seq<seq<Entry>>, ops: KeyOps<K>, d: K) {
    forall c :: KeyChain(bs', ops, c) ==
      if c == d && KeyChain(bs, ops, c) != [] then KeyChain(bs, ops, c)[1..] else KeyChain(bs, ops, c)
  }

  /** What add, set and update mean for the map. */
  ghost function MapAfterInsert<K>(m: imap<K, Entry>, c: K, e: Entry, strategy: Strategy): imap<K, Entry> {
    if (strategy == Add && c in m) || (strategy == Update && c !in m) then m else m[c := e]
  }

  /** Add, set and update refine operations on a finite map and keep keys unique, across growth too. */
  lemma InsertRefinesMap<K(!new)>(bs: seq<seq<Entry>>, bs': seq<seq<Entry>>, ops: KeyOps<K>, e: Entry, strategy: Strategy, grew: bool)
    requires UniqueKeys(bs, ops) && strategy != Append && Inserted(bs, bs', ops, e, strategy, grew)
    ensures UniqueKeys(bs', ops)
    ensures MapOf(bs', ops) == MapAfterInsert(MapOf(bs, ops), ops.content(e.key), e, strategy)
  {
    hide KeyChain;
    forall c ensures |KeyChain(bs', ops, c)| <= 1 { ReverseShort(KeyChain(bs, ops, c)); }
    var m, m' := MapOf(bs', ops), MapAfterInsert(MapOf(bs, ops), ops.content(e.key), e, strategy);
    forall c ensures c in m <==> c in m' { ReverseShort(KeyChain(bs, ops, c)); }
    forall c | c in m ensures m[c] == m'[c] { ReverseShort(KeyChain(bs, ops, c)); }
  }

  lemma DeleteRefinesMap<K(!new)>(bs: seq<seq<Entry>>, bs': seq<seq<Entry>>, ops: KeyOps<K>, d: K)
    requires UniqueKeys(bs, ops) && Deleted(bs, bs', ops, d)
    ensures UniqueKeys(bs', ops)
    ensures MapOf(bs', ops) == imap c | c in MapOf(bs, ops) && c != d :: MapOf(bs, ops)[c]
  {
    hide KeyChain;
    assert KeyChain(bs', ops, d) == [];
    var m, m' := MapOf(bs', ops), imap c | c in MapOf(bs, ops) && c != d :: MapOf(bs, ops)[c];
    forall c ensures c in m <==> c in m' { }
  }

  // ----- With appends the newest entry need not come first ----------------------------------------

  /** How often the table grows while n entries are added, starting with cap buckets and sz entries. */
  function Growths(cap: nat, sz: nat, n: nat): nat
    decreases n
  {
    if n == 0 then 0 else (if NeedsToGrow(cap, sz) then 1 else 0) + Growths(CapAfter(cap, sz), sz + 1, n - 1)
  }

  /** How often cap buckets have to double until sz entries fill at most three quarters of them. */
  function Doublings(cap: nat, sz: nat): nat
    decreases if cap == 0 then sz * 4 / 3 + 5 else if sz * 4 / 3 > cap then sz * 4 / 3 - cap else 0
  {
    if sz == 0 || (cap > 0 && sz * 4 / 3 <= cap) then 0
    else 1 + Doublings(if cap == 0 then 4 else 2 * cap, sz)
  }

  /** Growing as needed, one entry at a time, grows as often as the final size asks for. */
  lemma {:induction false} GrowthsAreDoublings(cap: nat, sz: nat, n: nat)
    requires sz * 4 / 3 <= cap && (cap == 0 || cap >= 4)
    ensures Growths(cap, sz, n) == Doublings(cap, sz + n)
    decreases n
  {
    if n > 0 {
      GrowthsAreDoublings(CapAfter(cap, sz), sz + 1, n - 1);
      if NeedsToGrow(cap, sz) { MoreDoubles(cap, sz + 1, sz + n); }
    }
  }

  lemma MoreDoubles(cap: nat, sz: nat, more: nat)
    requires 0 < sz <= more && (cap == 0 || sz * 4 / 3 > cap)
    ensures Doublings(cap, more) == 1 + Doublings(if cap == 0 then 4 else 2 * cap, more)
  {
  }

  /** The chain of one key while n entries with other keys are added. */
  function AfterOthers(chain: seq<Entry>, cap: nat, sz: nat, n: nat): seq<Entry>
    decreases n
  {
    if n == 0 then chain
    else AfterOthers(ChainAfterInsert(chain, false, Entry(0, 0), Append, false, NeedsToGrow(cap, sz)), CapAfter(cap, sz), sz + 1, n - 1)
  }

  lemma {:induction false} ReverseTwice(es: seq<Entry>)
    ensures Reverse(Reverse(es)) == es
    decreases |es|
  {
    if es != [] {
      ReverseTwice(es[1..]);
      ReverseAppend(Reverse(es[1..]), [es[0]]);
      ReverseOne(es[0]);
      assert es == [es[0]] + es[1..];
    }
  }

  lemma OtherStep(chain: seq<Entry>, grew: bool)
    ensures ChainAfterInsert(chain, false, Entry(0, 0), Append, false, grew) == if grew then Reverse(chain) else chain
  {
  }

  /** Only the parity of the number of growths matters. */
  lemma {:induction false} OthersReverse(chain: seq<Entry>, cap: nat, sz: nat, n: nat)
    ensures AfterOthers(chain, cap, sz, n) == if Growths(cap, sz, n) % 2 == 0 then chain else Reverse(chain)
    decreases n
  {
    hide Reverse, ChainAfterInsert, NeedsToGrow, CapAfter;
    if n > 0 {
      var grew := NeedsToGrow(cap, sz);
      OtherStep(chain, grew);
      OthersReverse(if grew then Reverse(chain) else chain, CapAfter(cap, sz), sz + 1, n - 1);
      ReverseTwice(chain);
    }
  }

  lemma {:induction false} ReverseHead(es: seq<Entry>)
    requires es != []
    ensures Reverse(es) != [] && Reverse(es)[0] == es[|es| - 1]
    decreases |es|
  {
    if |es| > 1 { ReverseHead(es[1..]); } else { ReverseShort(es); }
  }

  /** The tables of a run that adds entries with keys other than d and never runs out of memory. */
  ghost predicate AddsOthers<K(!new)>(bss: seq<seq<seq<Entry>>>, ops: KeyOps<K>, es: seq<Entry>, d: K, cap: nat, sz: nat)
    decreases |es|
  {
    |bss| == |es| + 1 &&
    (es != [] ==>
       && ops.content(es[0].key) != d && Inserted(bss[0], bss[1], ops, es[0], Append, NeedsToGrow(cap, sz))
       && AddsOthers(bss[1..], ops, es[1..], d, CapAfter(cap, sz), sz + 1))
  }

  lemma {:induction false} OthersRun<K(!new)>(bss: seq<seq<seq<Entry>>>, ops: KeyOps<K>, es: seq<Entry>, d: K, cap: nat, sz: nat)
    requires AddsOthers(bss, ops, es, d, cap, sz)
    ensures KeyChain(bss[|es|], ops, d) == AfterOthers(KeyChain(bss[0], ops, d), cap, sz, |es|)
    decreases |es|
  {
    hide KeyChain, NeedsToGrow, CapAfter, Reverse;
    if es != [] { OthersRun(bss[1..], ops, es[1..], d, CapAfter(cap, sz), sz + 1); }
  }

  // ----- Any operations on other keys -------------------------------------------------------------

  datatype Table = Table(buckets: seq<seq<Entry>>, cap: nat)

  /** What an operation on another key does to the chain of d, as HashMap.Insert and HashMap.Delete describe
      it, whether it succeeds or not. */
  ghost predicate OtherOp<K(!new)>(t: Table, t': Table, ops: KeyOps<K>, d: K) {
    && (t'.cap == t.cap || t'.cap == Grown(t.cap))
    && KeyChain(t'.buckets, ops, d) ==
       if t'.cap != t.cap then Reverse(KeyChain(t.buckets, ops, d)) else KeyChain(t.buckets, ops, d)
  }

  ghost predicate OtherOps<K(!new)>(ts: seq<Table>, ops: KeyOps<K>, d: K) {
    ts != [] && forall i :: 0 <= i < |ts| - 1 ==> OtherOp(ts[i], ts[i + 1], ops, d)
  }

  /** How often a capacity has doubled to become another one. */
  function DoubledTo(cap: nat, cap': nat): nat
    decreases cap' - cap
  {
    if cap' <= cap then 0 else 1 + DoubledTo(Grown(cap), cap')
  }

  lemma {:induction false} DoubledOnce(cap: nat, cap': nat)
    requires ReachedFrom(cap, cap')
    ensures DoubledTo(cap, Grown(cap')) == DoubledTo(cap, cap') + 1
    decreases cap' - cap
  {
    if cap != cap' { DoubledOnce(Grown(cap), cap'); }
  }

  /** cap' is what some number of growths makes of cap. */
  predicate ReachedFrom(cap: nat, cap': nat)
    decreases cap' - cap
  {
    cap == cap' || (cap < cap' && ReachedFrom(Grown(cap), cap'))
  }

  lemma {:induction false} ReachedMore(cap: nat, cap': nat)
    requires ReachedFrom(cap, cap')
    ensures ReachedFrom(cap, Grown(cap'))
    decreases cap' - cap
  {
    if cap != cap' { ReachedMore(Grown(cap), cap'); }
  }

  lemma {:induction false} OthersOnlyReverse<K(!new)>(ts: seq<Table>, ops: KeyOps<K>, d: K)
    requires OtherOps(ts, ops, d)
    ensures ReachedFrom(ts[0].cap, ts[|ts| - 1].cap)
    ensures var chain := KeyChain(ts[0].buckets, ops, d);
            KeyChain(ts[|ts| - 1].buckets, ops, d) == if DoubledTo(ts[0].cap, ts[|ts| - 1].cap) % 2 == 0 then chain else Reverse(chain)
    decreases |ts|
  {
    hide KeyChain, Reverse;
    if |ts| > 1 {
      var last := |ts| - 1;
      var before := ts[..last];
      forall i | 0 <= i < |before| - 1 ensures OtherOp(before[i], before[i + 1], ops, d) { assert OtherOp(ts[i], ts[i + 1], ops, d); }
      OthersOnlyReverse(before, ops, d);
      assert OtherOp(ts[last - 1], ts[last - 1 + 1], ops, d);
      if ts[last].cap != ts[last - 1].cap {
        DoubledOnce(ts[0].cap, ts[last - 1].cap);
        ReachedMore(ts[0].cap, ts[last - 1].cap);
        ReverseTwice(KeyChain(ts[0].buckets, ops, d));
      }
    }
  }

  /** The newest entry of a key is the one that a lookup returns after any operations on other keys if and
      only if the capacity has doubled an even number of times, or it is also the oldest entry of its key. */
  lemma NewestAfterAnything<K(!new)>(ts: seq<Table>, ops: KeyOps<K>, e: Entry)
    requires OtherOps(ts, ops, ops.content(e.key))
    requires var now := KeyChain(ts[0].buckets, ops, ops.content(e.key)); now != [] && now[0] == e
    ensures var now, later := KeyChain(ts[0].buckets, ops, ops.content(e.key)), KeyChain(ts[|ts| - 1].buckets, ops, ops.content(e.key));
            later != [] && (later[0] == e <==> DoubledTo(ts[0].cap, ts[|ts| - 1].cap) % 2 == 0 || now[|now| - 1] == e)
  {
    hide KeyChain, DoubledTo, OtherOp;
    OthersOnlyReverse(ts, ops, ops.content(e.key));
    ReverseHead(KeyChain(ts[0].buckets, ops, ops.content(e.key)));
  }

  /** The newest entry of a key heads its chain when it has just been appended.  It is still the one that a
      lookup returns after entries with other keys have been added if and only if the table, which has cap
      buckets and sz entries then, doubles an even number of times to hold them, or it is also the oldest
      entry of its key. */
  lemma NewestIsFound<K(!new)>(bss: seq<seq<seq<Entry>>>, ops: KeyOps<K>, es: seq<Entry>, e: Entry, cap: nat, sz: nat)
    requires |bss| == |es| + 1 && AddsOthers(bss, ops, es, ops.content(e.key), cap, sz) && sz * 4 / 3 <= cap && (cap == 0 || cap >= 4)
    requires var now := KeyChain(bss[0], ops, ops.content(e.key)); now != [] && now[0] == e
    ensures var now, later := KeyChain(bss[0], ops, ops.content(e.key)), KeyChain(bss[|es|], ops, ops.content(e.key));
            later != [] && (later[0] == e <==> Doublings(cap, sz + |es|) % 2 == 0 || now[|now| - 1] == e)
  {
    hide KeyChain, AddsOthers, Doublings, Growths;
    var now := KeyChain(bss[0], ops, ops.content(e.key));
    OthersRun(bss, ops, es, ops.content(e.key), cap, sz);
    OthersReverse(now, cap, sz, |es|);
    GrowthsAreDoublings(cap, sz, |es|);
    ReverseHead(now);
  }

  const ENOUGH := Memory(true, true)

  /** A lookup that misses the newest entry: the fourth entry makes four buckets grow to eight. */
  method GrowthHidesNewest() returns (found: bool, value: int)
    ensures found && value == 10
  {
    hide KeyChain, HashMap.Valid, ValidTable;
    var ops := KeyOps((k: int) => k, (_: int) => 0);
    var m := Appended(ops, 1, 10, 20);
    var ok := AppendOther(m, ops, 1, 2, 30, ENOUGH);
    ok := AppendOther(m, ops, 1, 3, 40, ENOUGH);
    ReverseTwo(Entry(1, 20), Entry(1, 10));
    found, value := m.Find(ops, 1);
  }

  /** The same with an insertion that fails: the buckets have grown when there is no memory for the entry. */
  method FailureHidesNewest() returns (ok: bool, found: bool, value: int)
    ensures !ok && found && value == 10
  {
    hide KeyChain, HashMap.Valid, ValidTable;
    var ops := KeyOps((k: int) => k, (_: int) => 0);
    var m := Appended(ops, 1, 10, 20);
    ok := AppendOther(m, ops, 1, 2, 30, ENOUGH);
    ok := AppendOther(m, ops, 1, 3, 40, Memory(true, false));
    ReverseTwo(Entry(1, 20), Entry(1, 10));
    found, value := m.Find(ops, 1);
  }

  /** A new table with two entries for the same key. */
  method Appended(ops: KeyOps<int>, key: int, older: int, newer: int) returns (m: HashMap)
    ensures fresh(m) && m.Valid(ops) && m.cap == 4 && m.sz == 2 && m.capBits == 2
    ensures KeyChain(m.buckets, ops, ops.content(key)) == [Entry(key, newer), Entry(key, older)]
  {
    m := new HashMap();
    NoEntries(ops);
    assert m.Valid(ops) && KeyChain(m.buckets, ops, ops.content(key)) == [];
    hide KeyChain, HashMap.Valid;
    var err, k, v := m.Insert(ops, key, older, Append, ENOUGH);
    ReverseShort([]);
    assert KeyChain(m.buckets, ops, ops.content(key)) == [Entry(key, older)];
    err, k, v := m.Insert(ops, key, newer, Append, ENOUGH);
    CapBits(m, ops);
  }

  lemma CapBits(m: HashMap, ops: KeyOps<int>)
    requires m.Valid(ops)
    ensures m.cap == 4 ==> m.capBits == 2
  {
    CapFour(m.buckets, ops, m.cap, m.capBits, m.sz);
  }

  /** Appending an entry with another key. */
  method AppendOther(m: HashMap, ops: KeyOps<int>, key: int, other: int, value: int, mem: Memory) returns (ok: bool)
    requires m.Valid(ops) && ops.content(other) != ops.content(key)
    modifies m
    ensures m.Valid(ops) && ok == !old(RunsOut(m.cap, m.sz, m.capBits, mem))
    ensures KeyChain(m.buckets, ops, ops.content(key)) ==
              if old(Grows(m.cap, m.sz, m.capBits, mem)) then Reverse(old(KeyChain(m.buckets, ops, ops.content(key))))
              else old(KeyChain(m.buckets, ops, ops.content(key)))
    ensures m.sz == (if ok then old(m.sz) + 1 else old(m.sz))
    ensures m.cap == if old(Grows(m.cap, m.sz, m.capBits, mem)) then Grown(old(m.cap)) else old(m.cap)
    ensures old(m.cap) == 4 ==> old(m.capBits) == 2
  {
    CapFour(m.buckets, ops, m.cap, m.capBits, m.sz);
    hide KeyChain, HashMap.Valid;
    var err, k, v := m.Insert(ops, other, value, Append, mem);
    ok := err == 0;
  }

  lemma CapFour<K>(bs: seq<seq<Entry>>, ops: KeyOps<K>, cap: nat, bits: nat, sz: nat)
    requires ValidTable(ops, bs, cap, bits, sz)
    ensures cap == 4 ==> bits == 2
  {
    if bits > 2 { Pow2AtLeast4(bits - 1); }
  }

  lemma ReverseTwo(a: Entry, b: Entry)
    ensures Reverse([a, b]) == [b, a]
  {
    ReverseAppend([a], [b]);
    ReverseOne(a);
    ReverseOne(b);
    assert [a] + [b] == [a, b];
  }

  lemma NoEntries<K(!new)>(ops: KeyOps<K>)
    ensures ValidTable(ops, [], 0, 0, 0) && forall c :: KeyChain([], ops, c) == []
  {
  }
}
