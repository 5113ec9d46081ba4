/** The chained hash map of hashmap.c.  A chain is a sequence, head first; the callbacks and their
    context are passed to each operation as the functions they currently denote. */
module HashMaps {
  import opened Numbers

  datatype Entry = Entry(key: int, value: int)

  /** The hash and equality callbacks: keys with the same content are equal, and the hash is a function of
      the content.  Every pair of callbacks in which `equal` is an equivalence and equal keys hash alike
      has this form, with the classes of `equal` as contents. */
  datatype KeyOps<!K> = KeyOps(content: int -> K, hash: K -> nat)

  datatype Strategy = Add | Set | Update | Append

  const MIN_CAP_BITS := 2

  // ----- Bucket choice ---------------------------------------------------------------------------

  function Pow2(n: nat): (r: nat)
    ensures r > 0
  {
    if n == 0 then 1 else 2 * Pow2(n - 1)
  }

  lemma {:induction false} Pow2Add(a: nat, b: nat)
    ensures Pow2(a + b) == Pow2(a) * Pow2(b)
  {
    if a > 0 {
      Pow2Add(a - 1, b);
      DoubleProduct(Pow2(a - 1), Pow2(b));
    }
  }

  lemma DoubleProduct(x: nat, y: nat)
    ensures 2 * (x * y) == (2 * x) * y
  {
  }

  lemma Pow2Of64()
    ensures Pow2(64) == TWO64
  {
    assert Pow2(4) == 16;
    Pow2Add(4, 4);
    Pow2Add(8, 8);
    Pow2Add(16, 16);
    Pow2Add(32, 32);
  }

  lemma {:induction false} Pow2AtLeast4(n: nat)
    requires n >= 2
    ensures Pow2(n) >= 4
  {
    if n > 2 { Pow2AtLeast4(n - 1); }
  }

  function Quotient(x: nat, d: nat): nat
    requires d > 0
  {
    x / d
  }

  /** x >> n on unsigned values. */
  function ShiftRight(x: nat, n: nat): nat { Quotient(x, Pow2(n)) }

  function Mix(h: nat): nat { (h * 11400714819323198485) % TWO64 }

  /** The upper `bits` bits of the 64-bit product of h and the golden-ratio multiplier. */
  function HashBits(h: nat, bits: nat): nat
    requires bits <= 64
  {
    if bits == 0 then 0 else ShiftRight(Mix(h), 64 - bits)
  }

  lemma MulMonotone(a: int, b: int, q: nat)
    ensures a <= b ==> a * q <= b * q
  {
    assert b * q - a * q == (b - a) * q;
  }

  lemma DivBound(x: nat, p: nat, q: nat)
    requires q > 0 && x < p * q
    ensures x / q < p
  {
    MulMonotone(p, x / q, q);
  }

  lemma HashBitsBound(h: nat, bits: nat)
    requires bits <= 64
    ensures HashBits(h, bits) < Pow2(bits)
  {
    Pow2Of64();
    Pow2Add(bits, 64 - bits);
    DivBound(Mix(h), Pow2(bits), Pow2(64 - bits));
  }

  lemma DivUnique(x: nat, q: nat, d: nat, r: nat)
    requires q > 0 && x == q * d + r && r < q
    ensures x / q == d
  {
    MulMonotone(x / q + 1, d, q);
    MulMonotone(d + 1, x / q, q);
    assert (x / q + 1) * q == x / q * q + q && (d + 1) * q == d * q + q;
  }

  lemma Distribute(q: nat, a: nat, s: nat)
    ensures q * (2 * a + s) == (2 * q) * a + q * s
  {
  }

  lemma DivDiv(x: nat, q: nat)
    requires q > 0
    ensures (x / q) / 2 == x / (2 * q)
  {
    var y := x / q;
    var a, r := y / 2, x % q;
    if y % 2 == 0 {
      Distribute(q, a, 0);
      DivUnique(x, 2 * q, a, r);
    } else {
      Distribute(q, a, 1);
      DivUnique(x, 2 * q, a, q + r);
    }
  }

  /** One more bit splits a bucket in two. */
  lemma HashBitsSplit(h: nat, bits: nat)
    requires 1 <= bits < 64
    ensures HashBits(h, bits + 1) / 2 == HashBits(h, bits)
  {
    DivDiv(Mix(h), Pow2(63 - bits));
  }

  function BucketOf<K>(ops: KeyOps<K>, bits: nat, c: K): nat
    requires bits <= 64
  {
    HashBits(ops.hash(c), bits)
  }

  function KeyBucket<K>(ops: KeyOps<K>, bits: nat, key: int): nat
    requires bits <= 64
  {
    BucketOf(ops, bits, ops.content(key))
  }

  // ----- The abstract contents -------------------------------------------------------------------

  /** All entries in iteration order. */
  function Flat(bs: seq<seq<Entry>>): seq<Entry> {
    if bs == [] then [] else bs[0] + Flat(bs[1..])
  }

  /** The entries whose key has content c, in order. */
  function Matching<K(==)>(es: seq<Entry>, ops: KeyOps<K>, c: K): seq<Entry> {
    if es == [] then []
    else (if ops.content(es[0].key) == c then [es[0]] else []) + Matching(es[1..], ops, c)
  }

  /** What the map stores under content c: the map is a multimap from contents to chains. */
  function KeyChain<K(==)>(bs: seq<seq<Entry>>, ops: KeyOps<K>, c: K): seq<Entry> {
    Matching(Flat(bs), ops, c)
  }

  function Reverse(es: seq<Entry>): seq<Entry> {
    if es == [] then [] else Reverse(es[1..]) + [es[0]]
  }

  lemma ReverseShort(es: seq<Entry>)
    requires |es| <= 1
    ensures Reverse(es) == es
  {
    if es != [] { assert es[1..] == []; }
  }

  ghost predicate Placed<K>(bs: seq<seq<Entry>>, ops: KeyOps<K>, bits: nat)
    requires bits <= 64
  {
    forall b, j :: 0 <= b < |bs| && 0 <= j < |bs[b]| ==> KeyBucket(ops, bits, bs[b][j].key) == b
  }

  lemma {:induction false} MatchingAppend<K>(a: seq<Entry>, b: seq<Entry>, ops: KeyOps<K>, c: K)
    ensures Matching(a + b, ops, c) == Matching(a, ops, c) + Matching(b, ops, c)
  {
    if a == [] {
      assert a + b == b;
    } else {
      assert (a + b)[1..] == a[1..] + b;
      MatchingAppend(a[1..], b, ops, c);
    }
  }

  lemma {:induction false} MatchingNone<K>(es: seq<Entry>, ops: KeyOps<K>, c: K)
    requires forall j :: 0 <= j < |es| ==> ops.content(es[j].key) != c
    ensures Matching(es, ops, c) == []
  {
    if es != [] { MatchingNone(es[1..], ops, c); }
  }

  lemma MatchingAround<K>(a: seq<Entry>, x: Entry, b: seq<Entry>, ops: KeyOps<K>, c: K)
    ensures Matching((a + [x]) + b, ops, c) == (Matching(a, ops, c) + Matching([x], ops, c)) + Matching(b, ops, c)
  {
    hide Matching;
    MatchingAppend(a + [x], b, ops, c);
    MatchingAppend(a, [x], ops, c);
  }

  lemma MatchingSplit<K>(es: seq<Entry>, ops: KeyOps<K>, i: nat, c: K)
    requires i < |es|
    ensures Matching(es, ops, c) ==
            (Matching(es[..i], ops, c) + Matching([es[i]], ops, c)) + Matching(es[i + 1..], ops, c)
  {
    hide Matching;
    SplitAt(es, i);
    MatchingAround(es[..i], es[i], es[i + 1..], ops, c);
  }

  lemma {:induction false} MatchingMembers<K>(es: seq<Entry>, ops: KeyOps<K>, c: K)
    ensures forall e :: e in Matching(es, ops, c) <==> e in es && ops.content(e.key) == c
  {
    if es != [] { MatchingMembers(es[1..], ops, c); }
  }

  lemma MatchingOne<K>(e: Entry, ops: KeyOps<K>, c: K)
    ensures Matching([e], ops, c) == if ops.content(e.key) == c then [e] else []
  {
    assert Matching([e][1..], ops, c) == [];
  }

  lemma {:induction false} FlatAppend(a: seq<seq<Entry>>, b: seq<seq<Entry>>)
    ensures Flat(a + b) == Flat(a) + Flat(b)
  {
    if a == [] {
      assert a + b == b;
    } else {
      assert (a + b)[1..] == a[1..] + b;
      FlatAppend(a[1..], b);
    }
  }

  lemma FlatOne(c: seq<Entry>)
    ensures Flat([c]) == c
  {
    assert Flat([c][1..]) == [];
  }

  lemma SplitAt<T>(s: seq<T>, i: nat)
    requires i < |s|
    ensures s == (s[..i] + [s[i]]) + s[i + 1..]
  {
  }

  lemma FlatAround(a: seq<seq<Entry>>, x: seq<Entry>, c: seq<seq<Entry>>)
    ensures Flat((a + [x]) + c) == (Flat(a) + x) + Flat(c)
  {
    hide Flat;
    FlatAppend(a + [x], c);
    FlatAppend(a, [x]);
    FlatOne(x);
  }

  lemma FlatSplit(bs: seq<seq<Entry>>, b: nat)
    requires b < |bs|
    ensures Flat(bs) == (Flat(bs[..b]) + bs[b]) + Flat(bs[b + 1..])
  {
    hide Flat;
    SplitAt(bs, b);
    FlatAround(bs[..b], bs[b], bs[b + 1..]);
  }

  lemma {:induction false} FlatMember(bs: seq<seq<Entry>>, j: nat) returns (b: nat, i: nat)
    requires j < |Flat(bs)|
    ensures b < |bs| && i < |bs[b]| && bs[b][i] == Flat(bs)[j]
  {
    if j < |bs[0]| {
      b, i := 0, j;
    } else {
      var b', i' := FlatMember(bs[1..], j - |bs[0]|);
      b, i := b' + 1, i';
    }
  }

  /** Buckets other than c's own hold nothing with content c. */
  lemma NoMatchElsewhere<K>(bs: seq<seq<Entry>>, ops: KeyOps<K>, bits: nat, c: K, lo: nat, hi: nat)
    requires bits <= 64 && Placed(bs, ops, bits) && lo <= hi <= |bs|
    requires !(lo <= BucketOf(ops, bits, c) < hi)
    ensures Matching(Flat(bs[lo..hi]), ops, c) == []
  {
    var part := bs[lo..hi];
    forall j | 0 <= j < |Flat(part)| ensures ops.content(Flat(part)[j].key) != c {
      var b, i := FlatMember(part, j);
      assert part[b] == bs[lo + b];
      assert KeyBucket(ops, bits, bs[lo + b][i].key) == lo + b;
    }
    MatchingNone(Flat(part), ops, c);
  }

  /** A chain can be read off its own bucket. */
  lemma ChainInBucket<K>(bs: seq<seq<Entry>>, ops: KeyOps<K>, bits: nat, c: K)
    requires bits <= 64 && Placed(bs, ops, bits) && BucketOf(ops, bits, c) < |bs|
    ensures KeyChain(bs, ops, c) == Matching(bs[BucketOf(ops, bits, c)], ops, c)
  {
    hide Matching, Flat;
    var b := BucketOf(ops, bits, c);
    FlatSplit(bs, b);
    MatchingAppend(Flat(bs[..b]) + bs[b], Flat(bs[b + 1..]), ops, c);
    MatchingAppend(Flat(bs[..b]), bs[b], ops, c);
    NoMatchElsewhere(bs, ops, bits, c, 0, b);
    NoMatchElsewhere(bs, ops, bits, c, b + 1, |bs|);
    assert bs[..b] == bs[0..b] && bs[b + 1..] == bs[b + 1..|bs|];
  }

  lemma FlatUpdate(bs: seq<seq<Entry>>, b: nat, c: seq<Entry>)
    requires b < |bs|
    ensures |Flat(bs[b := c])| == |Flat(bs)| - |bs[b]| + |c|
    ensures multiset(Flat(bs[b := c])) + multiset(bs[b]) == multiset(Flat(bs)) + multiset(c)
  {
    hide Flat;
    var bs' := bs[b := c];
    FlatSplit(bs, b);
    FlatSplit(bs', b);
    assert bs'[..b] == bs[..b] && bs'[b + 1..] == bs[b + 1..];
  }

  /** Replacing a bucket changes the chains that live there and no others. */
  lemma UpdateChains<K>(bs: seq<seq<Entry>>, ops: KeyOps<K>, bits: nat, b: nat, es: seq<Entry>, c: K)
    requires b < |bs| && bits <= 64 && Placed(bs, ops, bits) && Placed(bs[b := es], ops, bits)
    requires BucketOf(ops, bits, c) < |bs|
    ensures KeyChain(bs[b := es], ops, c) ==
            if BucketOf(ops, bits, c) == b then Matching(es, ops, c) else KeyChain(bs, ops, c)
  {
    hide Matching, Flat;
    ChainInBucket(bs, ops, bits, c);
    ChainInBucket(bs[b := es], ops, bits, c);
  }

  // ----- Growth ----------------------------------------------------------------------------------

  /** The chain that pushing es one by one leaves in new bucket j. */
  function Pushed<K>(es: seq<Entry>, ops: KeyOps<K>, bits: nat, j: nat): seq<Entry>
    requires bits <= 64
  {
    if es == [] then []
    else
      var last := es[|es| - 1];
      var rest := Pushed(es[..|es| - 1], ops, bits, j);
      if KeyBucket(ops, bits, last.key) == j then [last] + rest else rest
  }

  lemma PushedStep<K>(es: seq<Entry>, e: Entry, ops: KeyOps<K>, bits: nat, j: nat)
    requires bits <= 64
    ensures Pushed(es + [e], ops, bits, j) ==
            (if KeyBucket(ops, bits, e.key) == j then [e] + Pushed(es, ops, bits, j) else Pushed(es, ops, bits, j))
  {
    assert (es + [e])[..|es|] == es;
  }

  lemma {:induction false} ReverseAppend(a: seq<Entry>, b: seq<Entry>)
    ensures Reverse(a + b) == Reverse(b) + Reverse(a)
  {
    if a == [] {
      assert a + b == b;
    } else {
      assert (a + b)[1..] == a[1..] + b;
      ReverseAppend(a[1..], b);
    }
  }

  lemma ReverseOne(e: Entry)
    ensures Reverse([e]) == [e] && Reverse([]) == []
  {
    assert Reverse([e][1..]) == [];
  }

  /** Pushing reverses every chain. */
  lemma {:induction false} PushedReverses<K>(es: seq<Entry>, ops: KeyOps<K>, bits: nat, c: K)
    requires bits <= 64
    ensures Matching(Pushed(es, ops, bits, BucketOf(ops, bits, c)), ops, c) == Reverse(Matching(es, ops, c))
  {
    if es != [] {
      var init, last := es[..|es| - 1], es[|es| - 1];
      assert es == init + [last];
      PushedReverses(init, ops, bits, c);
      PushedStep(init, last, ops, bits, BucketOf(ops, bits, c));
      MatchingAppend(init, [last], ops, c);
      MatchingOne(last, ops, c);
      ReverseAppend(Matching(init, ops, c), Matching([last], ops, c));
      MatchingAppend([last], Pushed(init, ops, bits, BucketOf(ops, bits, c)), ops, c);
      ReverseOne(last);
      hide Pushed, Matching;
    }
  }

  lemma {:induction false} PushedPlaced<K>(es: seq<Entry>, ops: KeyOps<K>, bits: nat, j: nat)
    requires bits <= 64
    ensures forall i :: 0 <= i < |Pushed(es, ops, bits, j)| ==>
              KeyBucket(ops, bits, Pushed(es, ops, bits, j)[i].key) == j
  {
    if es != [] { PushedPlaced(es[..|es| - 1], ops, bits, j); }
  }

  /** nb is what growing bs to `bits` bits produces. */
  ghost predicate GrownFrom<K>(nb: seq<seq<Entry>>, bs: seq<seq<Entry>>, ops: KeyOps<K>, bits: nat)
    requires bits <= 64
  {
    |nb| == Pow2(bits) && forall j :: 0 <= j < |nb| ==> nb[j] == Pushed(Flat(bs), ops, bits, j)
  }

  lemma GrownPlaced<K>(nb: seq<seq<Entry>>, bs: seq<seq<Entry>>, ops: KeyOps<K>, bits: nat)
    requires bits <= 64 && GrownFrom(nb, bs, ops, bits)
    ensures Placed(nb, ops, bits)
  {
    forall b, j | 0 <= b < |nb| && 0 <= j < |nb[b]| ensures KeyBucket(ops, bits, nb[b][j].key) == b {
      PushedPlaced(Flat(bs), ops, bits, b);
    }
  }

  /** Growth keeps every chain's entries and exactly reverses their order. */
  lemma GrowthReversesChains<K>(nb: seq<seq<Entry>>, bs: seq<seq<Entry>>, ops: KeyOps<K>, bits: nat, c: K)
    requires bits <= 64 && GrownFrom(nb, bs, ops, bits)
    ensures KeyChain(nb, ops, c) == Reverse(KeyChain(bs, ops, c))
  {
    hide Matching, Flat, Pushed, Reverse;
    GrownPlaced(nb, bs, ops, bits);
    HashBitsBound(ops.hash(c), bits);
    ChainInBucket(nb, ops, bits, c);
    PushedReverses(Flat(bs), ops, bits, c);
  }

  lemma {:induction false} PushedAppend<K>(a: seq<Entry>, b: seq<Entry>, ops: KeyOps<K>, bits: nat, j: nat)
    requires bits <= 64
    ensures Pushed(a + b, ops, bits, j) == Pushed(b, ops, bits, j) + Pushed(a, ops, bits, j)
    decreases |b|
  {
    if b == [] {
      assert a + b == a;
    } else {
      var init, last := b[..|b| - 1], b[|b| - 1];
      PushedAppend(a, init, ops, bits, j);
      PushedAppendStep(a, init, last, ops, bits, j);
      assert b == init + [last];
    }
  }

  lemma PushedAppendStep<K>(a: seq<Entry>, b: seq<Entry>, e: Entry, ops: KeyOps<K>, bits: nat, j: nat)
    requires bits <= 64
    requires Pushed(a + b, ops, bits, j) == Pushed(b, ops, bits, j) + Pushed(a, ops, bits, j)
    ensures Pushed(a + (b + [e]), ops, bits, j) == Pushed(b + [e], ops, bits, j) + Pushed(a, ops, bits, j)
  {
    hide Pushed;
    PushedStep(a + b, e, ops, bits, j);
    PushedStep(b, e, ops, bits, j);
    assert a + (b + [e]) == (a + b) + [e];
  }

  lemma {:induction false} PushedElsewhere<K>(es: seq<Entry>, ops: KeyOps<K>, bits: nat, j: nat)
    requires bits <= 64
    requires forall i :: 0 <= i < |es| ==> KeyBucket(ops, bits, es[i].key) != j
    ensures Pushed(es, ops, bits, j) == []
  {
    if es != [] { PushedElsewhere(es[..|es| - 1], ops, bits, j); }
  }

  lemma FlatPartElsewhere<K>(bs: seq<seq<Entry>>, ops: KeyOps<K>, bits: nat, j: nat, lo: nat, hi: nat)
    requires 1 <= bits < 64 && Placed(bs, ops, bits) && lo <= hi <= |bs| && !(lo <= j / 2 < hi)
    ensures Pushed(Flat(bs[lo..hi]), ops, bits + 1, j) == []
  {
    var part := bs[lo..hi];
    forall i | 0 <= i < |Flat(part)| ensures KeyBucket(ops, bits + 1, Flat(part)[i].key) != j {
      var b, i' := FlatMember(part, i);
      assert part[b] == bs[lo + b];
      assert KeyBucket(ops, bits, bs[lo + b][i'].key) == lo + b;
      HashBitsSplit(ops.hash(ops.content(Flat(part)[i].key)), bits);
    }
    PushedElsewhere(Flat(part), ops, bits + 1, j);
  }

  /** Growing by one bit sends old bucket b into new buckets 2b and 2b+1 only. */
  lemma GrowthSplitsBuckets<K>(nb: seq<seq<Entry>>, bs: seq<seq<Entry>>, ops: KeyOps<K>, bits: nat, j: nat)
    requires 1 <= bits < 64 && |bs| == Pow2(bits) && Placed(bs, ops, bits)
    requires GrownFrom(nb, bs, ops, bits + 1) && j < |nb|
    ensures j / 2 < |bs| && nb[j] == Pushed(bs[j / 2], ops, bits + 1, j)
  {
    hide Flat, Pushed;
    var b := j / 2;
    FlatSplit(bs, b);
    var es := Flat(bs[..b]) + bs[b];
    PushedAppend(es, Flat(bs[b + 1..]), ops, bits + 1, j);
    PushedAppend(Flat(bs[..b]), bs[b], ops, bits + 1, j);
    FlatPartElsewhere(bs, ops, bits, j, 0, b);
    FlatPartElsewhere(bs, ops, bits, j, b + 1, |bs|);
    assert bs[..b] == bs[0..b] && bs[b + 1..] == bs[b + 1..|bs|];
  }

  // ----- The map ---------------------------------------------------------------------------------

  ghost predicate ValidTable<K>(ops: KeyOps<K>, bs: seq<seq<Entry>>, cap: nat, bits: nat, sz: nat) {
    && bits <= 60 && |bs| == cap
    && (if cap == 0 then bits == 0 else bits >= MIN_CAP_BITS && cap == Pow2(bits))
    && Placed(bs, ops, bits)
    && sz == |Flat(bs)| && sz * 4 / 3 <= cap
  }

  predicate NeedsToGrow(cap: nat, sz: nat) { cap == 0 || (sz + 1) * 4 / 3 > cap }

  function Grown(cap: nat): nat { if cap == 0 then 4 else 2 * cap }

  /** The number of buckets once one more entry has been inserted. */
  function CapAfter(cap: nat, sz: nat): nat { if NeedsToGrow(cap, sz) then Grown(cap) else cap }

  /** What the allocator answers when it is asked for new buckets and for an entry. */
  datatype Memory = Memory(buckets: bool, entry: bool)

  /** Adding an entry makes the table grow first; 2^61 buckets do not fit in size_t. */
  predicate Grows(cap: nat, sz: nat, bits: nat, mem: Memory) { NeedsToGrow(cap, sz) && mem.buckets && bits < 60 }

  predicate RunsOut(cap: nat, sz: nat, bits: nat, mem: Memory) {
    !mem.entry || (NeedsToGrow(cap, sz) && !Grows(cap, sz, bits, mem))
  }

  /** The return code of an insertion; `full` says that memory ran out. */
  function InsertResult(strategy: Strategy, present: bool, full: bool): int {
    if present && strategy == Add then EEXIST
    else if present && strategy != Append then 0
    else if strategy == Update then ENOENT
    else if full then ENOMEM
    else 0
  }

  /** Whether an insertion adds an entry, unless memory runs out. */
  predicate Adds(strategy: Strategy, present: bool) { strategy == Append || (!present && strategy != Update) }

  /** A chain after inserting e, given the chain before; `same` says e belongs to this chain, `present`
      that e's own chain was not empty. */
  function ChainAfterInsert(chain: seq<Entry>, same: bool, e: Entry, strategy: Strategy,
                            present: bool, grew: bool): seq<Entry>
  {
    if present && strategy != Append then
      if strategy == Add || !same || chain == [] then chain else [e] + chain[1..]
    else if strategy == Update then chain
    else (if same then [e] else []) + (if grew then Reverse(chain) else chain)
  }

  /** A table that only grew, or did not change at all. */
  ghost predicate OnlyGrew<K(!new)>(bs: seq<seq<Entry>>, bs': seq<seq<Entry>>, ops: KeyOps<K>, grew: bool) {
    forall c :: KeyChain(bs', ops, c) == if grew then Reverse(KeyChain(bs, ops, c)) else KeyChain(bs, ops, c)
  }

  /** The first entry with content c heads its chain. */
  lemma FirstMatch<K>(es: seq<Entry>, ops: KeyOps<K>, c: K, i: nat)
    requires i < |es| && ops.content(es[i].key) == c
    requires forall j :: 0 <= j < i ==> ops.content(es[j].key) != c
    ensures Matching(es, ops, c) == [es[i]] + Matching(es[i + 1..], ops, c)
  {
    hide Matching;
    MatchingSplit(es, ops, i, c);
    MatchingNone(es[..i], ops, c);
    MatchingOne(es[i], ops, c);
    assert [] + [es[i]] == [es[i]];
  }

  /** Replacing the head of a chain in place. */
  lemma ReplaceFirst<K>(es: seq<Entry>, ops: KeyOps<K>, i: nat, e: Entry, c: K)
    requires i < |es| && ops.content(es[i].key) == ops.content(e.key)
    requires forall j :: 0 <= j < i ==> ops.content(es[j].key) != ops.content(e.key)
    ensures c == ops.content(e.key) ==> Matching(es, ops, c) != []
    ensures Matching(es[i := e], ops, c) ==
            if c == ops.content(e.key) then [e] + Matching(es, ops, c)[1..] else Matching(es, ops, c)
  {
    hide Matching;
    var es' := es[i := e];
    assert es'[..i] == es[..i] && es'[i + 1..] == es[i + 1..];
    if c == ops.content(e.key) {
      FirstMatch(es, ops, c, i);
      FirstMatch(es', ops, c, i);
    } else {
      MatchingSplit(es, ops, i, c);
      MatchingSplit(es', ops, i, c);
      MatchingOne(es[i], ops, c);
      MatchingOne(e, ops, c);
    }
  }

  /** Removing the head of a chain in place. */
  lemma RemoveFirst<K>(es: seq<Entry>, ops: KeyOps<K>, d: K, i: nat, c: K)
    requires i < |es| && ops.content(es[i].key) == d
    requires forall j :: 0 <= j < i ==> ops.content(es[j].key) != d
    ensures c == d ==> Matching(es, ops, c) != []
    ensures Matching(es[..i] + es[i + 1..], ops, c) ==
            if c == d then Matching(es, ops, c)[1..] else Matching(es, ops, c)
  {
    hide Matching;
    var front, back := es[..i], es[i + 1..];
    MatchingAppend(front, back, ops, c);
    if c == d {
      FirstMatch(es, ops, c, i);
      MatchingNone(front, ops, c);
      assert [] + Matching(back, ops, c) == Matching(back, ops, c);
    } else {
      MatchingSplit(es, ops, i, c);
      MatchingOne(es[i], ops, c);
      assert Matching(front, ops, c) + [] == Matching(front, ops, c);
    }
  }

  lemma PushFlat(nb: seq<seq<Entry>>, h: nat, e: Entry)
    requires h < |nb|
    ensures |Flat(nb[h := [e] + nb[h]])| == |Flat(nb)| + 1
    ensures multiset(Flat(nb[h := [e] + nb[h]])) == multiset(Flat(nb)) + multiset{e}
  {
    hide Flat;
    FlatUpdate(nb, h, [e] + nb[h]);
    assert multiset([e] + nb[h]) == multiset{e} + multiset(nb[h]);
    MultisetCancel(multiset(Flat(nb[h := [e] + nb[h]])), multiset(Flat(nb)) + multiset{e}, multiset(nb[h]));
  }

  lemma MultisetCancel(a: multiset<Entry>, b: multiset<Entry>, c: multiset<Entry>)
    requires a + c == b + c
    ensures a == b
  {
    forall x ensures a[x] == b[x] { assert (a + c)[x] == (b + c)[x]; }
  }

  lemma {:induction false} FlatOfEmpty(bs: seq<seq<Entry>>)
    requires forall j :: 0 <= j < |bs| ==> bs[j] == []
    ensures Flat(bs) == []
  {
    if bs != [] { FlatOfEmpty(bs[1..]); }
  }

  /** nb holds exactly the entries of `done`, each pushed onto its new chain in turn. */
  ghost predicate PartlySpread<K>(nb: seq<seq<Entry>>, done: seq<Entry>, ops: KeyOps<K>, bits: nat)
    requires bits <= 64
  {
    && |nb| == Pow2(bits) && |Flat(nb)| == |done| && multiset(Flat(nb)) == multiset(done)
    && forall j :: 0 <= j < |nb| ==> nb[j] == Pushed(done, ops, bits, j)
  }

  lemma OverwriteEffect<K>(bs: seq<seq<Entry>>, ops: KeyOps<K>, bits: nat, h: nat, i: nat, e: Entry, c: K)
    requires bits <= 64 && Placed(bs, ops, bits) && |bs| == Pow2(bits)
    requires h == KeyBucket(ops, bits, e.key) && h < |bs| && i < |bs[h]|
    requires ops.content(bs[h][i].key) == ops.content(e.key)
    requires forall j :: 0 <= j < i ==> ops.content(bs[h][j].key) != ops.content(e.key)
    ensures c == ops.content(e.key) ==> KeyChain(bs, ops, c) != []
    ensures KeyChain(bs[h := bs[h][i := e]], ops, c) ==
            if c == ops.content(e.key) then [e] + KeyChain(bs, ops, c)[1..] else KeyChain(bs, ops, c)
  {
    hide Matching, Flat, HashBits, Pow2;
    HashBitsBound(ops.hash(c), bits);
    UpdateChains(bs, ops, bits, h, bs[h][i := e], c);
    if BucketOf(ops, bits, c) == h {
      ChainInBucket(bs, ops, bits, c);
      ReplaceFirst(bs[h], ops, i, e, c);
    }
  }

  lemma PushEffect<K>(bs: seq<seq<Entry>>, ops: KeyOps<K>, bits: nat, e: Entry, c: K)
    requires bits <= 64 && Placed(bs, ops, bits) && |bs| == Pow2(bits)
    requires KeyBucket(ops, bits, e.key) < |bs|
    ensures var h := KeyBucket(ops, bits, e.key);
            KeyChain(bs[h := [e] + bs[h]], ops, c) ==
            (if c == ops.content(e.key) then [e] else []) + KeyChain(bs, ops, c)
  {
    hide Matching, Flat, HashBits, Pow2;
    var h := KeyBucket(ops, bits, e.key);
    HashBitsBound(ops.hash(c), bits);
    UpdateChains(bs, ops, bits, h, [e] + bs[h], c);
    if BucketOf(ops, bits, c) == h {
      ChainInBucket(bs, ops, bits, c);
      MatchingAppend([e], bs[h], ops, c);
      MatchingOne(e, ops, c);
    } else {
      assert [] + KeyChain(bs, ops, c) == KeyChain(bs, ops, c);
    }
  }

  lemma UnlinkEffect<K>(bs: seq<seq<Entry>>, ops: KeyOps<K>, bits: nat, h: nat, i: nat, d: K, c: K)
    requires bits <= 64 && Placed(bs, ops, bits) && |bs| == Pow2(bits)
    requires h == BucketOf(ops, bits, d) && h < |bs| && i < |bs[h]|
    requires ops.content(bs[h][i].key) == d
    requires forall j :: 0 <= j < i ==> ops.content(bs[h][j].key) != d
    ensures c == d ==> KeyChain(bs, ops, c) != []
    ensures KeyChain(bs[h := bs[h][..i] + bs[h][i + 1..]], ops, c) ==
            if c == d then KeyChain(bs, ops, c)[1..] else KeyChain(bs, ops, c)
  {
    hide Matching, Flat, HashBits, Pow2;
    HashBitsBound(ops.hash(c), bits);
    UpdateChains(bs, ops, bits, h, bs[h][..i] + bs[h][i + 1..], c);
    if BucketOf(ops, bits, c) == h {
      ChainInBucket(bs, ops, bits, c);
      RemoveFirst(bs[h], ops, d, i, c);
    }
  }

  lemma SpreadDone<K>(nb: seq<seq<Entry>>, bs: seq<seq<Entry>>, ops: KeyOps<K>, bits: nat)
    requires bits <= 64 && PartlySpread(nb, Flat(bs), ops, bits)
    ensures GrownFrom(nb, bs, ops, bits)
    ensures |Flat(nb)| == |Flat(bs)| && multiset(Flat(nb)) == multiset(Flat(bs))
  {
  }

  class HashMap {
    var buckets: seq<seq<Entry>>
    var cap: nat
    var capBits: nat
    var sz: nat

    ghost predicate Valid<K>(ops: KeyOps<K>)
      reads this
    {
      ValidTable(ops, buckets, cap, capBits, sz)
    }

    ghost function Contents(): multiset<Entry>
      reads this
    {
      multiset(Flat(buckets))
    }

    constructor ()
      ensures buckets == [] && cap == 0 && capBits == 0 && sz == 0
    {
      buckets, cap, capBits, sz := [], 0, 0, 0;
    }

    /** Doubles the bucket array (four buckets at first) by pushing every entry onto its new chain.  Fails
        when there is no memory, as always when the byte size of the new array does not fit in size_t. */
    method Grow<K>(ops: KeyOps<K>, memory: bool) returns (err: int)
      requires Valid(ops)
      modifies this
      ensures sz == old(sz)
      ensures err == if memory && old(capBits) < 60 then 0 else ENOMEM
      ensures err != 0 ==> buckets == old(buckets) && cap == old(cap) && capBits == old(capBits)
      ensures err == 0 ==> capBits == (if old(cap) == 0 then MIN_CAP_BITS else old(capBits) + 1)
      ensures err == 0 ==> cap == Pow2(capBits) && cap >= 4 && cap == Grown(old(cap)) && capBits <= 60
      ensures err == 0 ==> GrownFrom(buckets, old(buckets), ops, capBits)
      ensures Contents() == old(Contents()) && |Flat(buckets)| == sz
    {
      hide GrownFrom, Placed;
      var newBits := capBits + 1;
      if newBits < MIN_CAP_BITS { newBits := MIN_CAP_BITS; }
      if newBits > 60 || !memory { return ENOMEM; }
      var newCap := Pow2(newBits);
      var nb := Spread(ops, buckets, newBits);
      Pow2AtLeast4(newBits);
      cap := newCap;
      capBits := newBits;
      buckets := nb;
      return 0;
    }

    static method Spread<K>(ops: KeyOps<K>, bs: seq<seq<Entry>>, bits: nat) returns (nb: seq<seq<Entry>>)
      requires bits <= 60
      ensures GrownFrom(nb, bs, ops, bits)
      ensures |Flat(nb)| == |Flat(bs)| && multiset(Flat(nb)) == multiset(Flat(bs))
    {
      nb := seq(Pow2(bits), _ => []);
      FlatOfEmpty(nb);
      assert PartlySpread(nb, Flat(bs[..0]), ops, bits);
      hide Flat, Pushed, Pow2, PartlySpread;
      var bkt := 0;
      while bkt < |bs|
        invariant 0 <= bkt <= |bs|
        invariant PartlySpread(nb, Flat(bs[..bkt]), ops, bits)
      {
        nb := PushChain(nb, bs[bkt], ops, bits, Flat(bs[..bkt]));
        FlatAppend(bs[..bkt], [bs[bkt]]);
        assert bs[..bkt + 1] == bs[..bkt] + [bs[bkt]];
        FlatOne(bs[bkt]);
        bkt := bkt + 1;
      }
      assert bs[..bkt] == bs;
      SpreadDone(nb, bs, ops, bits);
    }

    static method PushChain<K>(nb: seq<seq<Entry>>, chain: seq<Entry>, ops: KeyOps<K>, bits: nat,
                               ghost done: seq<Entry>)
        returns (r: seq<seq<Entry>>)
      requires bits <= 60 && PartlySpread(nb, done, ops, bits)
      ensures PartlySpread(r, done + chain, ops, bits)
    {
      r := nb;
      assert done + chain[..0] == done;
      for i := 0 to |chain|
        invariant PartlySpread(r, done + chain[..i], ops, bits)
      {
        r := PushEntry(r, chain[i], ops, bits, done + chain[..i]);
        assert done + chain[..i + 1] == (done + chain[..i]) + [chain[i]];
      }
      assert chain[..|chain|] == chain;
    }

    static method PushEntry<K>(nb: seq<seq<Entry>>, e: Entry, ops: KeyOps<K>, bits: nat, ghost done: seq<Entry>)
        returns (r: seq<seq<Entry>>)
      requires bits <= 60 && PartlySpread(nb, done, ops, bits)
      ensures PartlySpread(r, done + [e], ops, bits)
    {
      var h := KeyBucket(ops, bits, e.key);
      HashBitsBound(ops.hash(ops.content(e.key)), bits);
      r := nb[h := [e] + nb[h]];
      PushFlat(nb, h, e);
      forall j | 0 <= j < |r| ensures r[j] == Pushed(done + [e], ops, bits, j) {
        PushedStep(done, e, ops, bits, j);
      }
    }

    /** Index of the first entry of bucket h equal to key, or the chain's length. */
    method FindEntry<K(==)>(ops: KeyOps<K>, key: int, h: nat) returns (found: bool, i: nat)
      requires h < |buckets|
      ensures found ==> i < |buckets[h]| && ops.content(buckets[h][i].key) == ops.content(key)
      ensures forall j :: 0 <= j < i && j < |buckets[h]| ==> ops.content(buckets[h][j].key) != ops.content(key)
      ensures !found ==> i == |buckets[h]|
    {
      i := 0;
      while i < |buckets[h]|
        invariant 0 <= i <= |buckets[h]|
        invariant forall j :: 0 <= j < i ==> ops.content(buckets[h][j].key) != ops.content(key)
      {
        if ops.content(buckets[h][i].key) == ops.content(key) { return true, i; }
        i := i + 1;
      }
      return false, i;
    }

    /** Where the head of key's chain sits, if the chain is not empty. */
    method Locate<K(==)>(ops: KeyOps<K>, key: int) returns (found: bool, h: nat, i: nat)
      requires Valid(ops)
      ensures found <==> KeyChain(buckets, ops, ops.content(key)) != []
      ensures found ==> cap > 0 && h == KeyBucket(ops, capBits, key) && h < |buckets| && i < |buckets[h]|
      ensures found ==> buckets[h][i] == KeyChain(buckets, ops, ops.content(key))[0]
      ensures found ==> ops.content(buckets[h][i].key) == ops.content(key)
      ensures found ==> forall j :: 0 <= j < i ==> ops.content(buckets[h][j].key) != ops.content(key)
    {
      if cap == 0 { return false, 0, 0; }
      HashBitsBound(ops.hash(ops.content(key)), capBits);
      ChainInBucket(buckets, ops, capBits, ops.content(key));
      h := KeyBucket(ops, capBits, key);
      found, i := FindEntry(ops, key, h);
      if found {
        FirstMatch(buckets[h], ops, ops.content(key), i);
      } else {
        MatchingNone(buckets[h], ops, ops.content(key));
      }
    }

    method Find<K(==)>(ops: KeyOps<K>, key: int) returns (found: bool, value: int)
      requires Valid(ops)
      ensures found <==> KeyChain(buckets, ops, ops.content(key)) != []
      ensures found ==> value == KeyChain(buckets, ops, ops.content(key))[0].value
    {
      var h, i;
      found, h, i := Locate(ops, key);
      value := if found then buckets[h][i].value else 0;
    }

    /** The entries that iterating over a key visits, in order. */
    method KeyEntries<K(==)>(ops: KeyOps<K>, key: int) returns (es: seq<Entry>)
      requires Valid(ops)
      ensures es == KeyChain(buckets, ops, ops.content(key))
    {
      es := [];
      if cap == 0 { return; }
      var c := ops.content(key);
      HashBitsBound(ops.hash(c), capBits);
      ChainInBucket(buckets, ops, capBits, c);
      var chain := buckets[KeyBucket(ops, capBits, key)];
      var i := 0;
      while i < |chain|
        invariant 0 <= i <= |chain| && es == Matching(chain[..i], ops, c)
      {
        assert chain[..i + 1] == chain[..i] + [chain[i]];
        MatchingAppend(chain[..i], [chain[i]], ops, c);
        MatchingOne(chain[i], ops, c);
        if ops.content(chain[i].key) == c { es := es + [chain[i]]; }
        i := i + 1;
      }
      assert chain[..i] == chain;
    }

    method Insert<K(!new,==)>(ops: KeyOps<K>, key: int, value: int, strategy: Strategy, mem: Memory)
        returns (err: int, oldKey: int, oldValue: int)
      requires Valid(ops)
      modifies this
      ensures Valid(ops)
      ensures err == InsertResult(strategy, KeyChain(old(buckets), ops, ops.content(key)) != [], old(RunsOut(cap, sz, capBits, mem)))
      ensures var adds := Adds(strategy, KeyChain(old(buckets), ops, ops.content(key)) != []);
              && sz == (if err == 0 && adds then old(sz) + 1 else old(sz))
              && cap == (if adds && old(Grows(cap, sz, capBits, mem)) then Grown(old(cap)) else old(cap))
      ensures forall c :: c != ops.content(key) ==>
                KeyChain(buckets, ops, c) == if cap != old(cap) then Reverse(KeyChain(old(buckets), ops, c)) else KeyChain(old(buckets), ops, c)
      ensures if strategy != Append && KeyChain(old(buckets), ops, ops.content(key)) != []
              then Entry(oldKey, oldValue) == KeyChain(old(buckets), ops, ops.content(key))[0]
              else oldKey == 0 && oldValue == 0
      ensures err == ENOMEM ==> OnlyGrew(old(buckets), buckets, ops, old(Grows(cap, sz, capBits, mem)))
      ensures err != ENOMEM ==> forall c ::
                KeyChain(buckets, ops, c) ==
                ChainAfterInsert(KeyChain(old(buckets), ops, c), c == ops.content(key), Entry(key, value), strategy,
                                 KeyChain(old(buckets), ops, ops.content(key)) != [], old(NeedsToGrow(cap, sz)))
      ensures strategy == Append && err == 0 ==> Contents() == old(Contents()) + multiset{Entry(key, value)}
    {
      oldKey, oldValue := 0, 0;
      if strategy != Append {
        var found, h, i := Locate(ops, key);
        if found {
          oldKey, oldValue := buckets[h][i].key, buckets[h][i].value;
          if strategy == Set || strategy == Update {
            Overwrite(ops, key, value, h, i);
            return 0, oldKey, oldValue;
          }
          return EEXIST, oldKey, oldValue;
        }
      }
      if strategy == Update { return ENOENT, 0, 0; }
      err := InsertNew(ops, key, value, mem);
    }

    method Overwrite<K(!new,==)>(ops: KeyOps<K>, key: int, value: int, h: nat, i: nat)
      requires Valid(ops) && cap > 0 && h == KeyBucket(ops, capBits, key) && h < |buckets|
      requires i < |buckets[h]| && ops.content(buckets[h][i].key) == ops.content(key)
      requires forall j :: 0 <= j < i ==> ops.content(buckets[h][j].key) != ops.content(key)
      modifies this`buckets
      ensures Valid(ops)
      ensures KeyChain(old(buckets), ops, ops.content(key)) != []
      ensures forall c :: KeyChain(buckets, ops, c) ==
                if c == ops.content(key) then [Entry(key, value)] + KeyChain(old(buckets), ops, c)[1..]
                else KeyChain(old(buckets), ops, c)
    {
      var e := Entry(key, value);
      var es := buckets[h][i := e];
      FlatUpdate(buckets, h, es);
      forall c { OverwriteEffect(buckets, ops, capBits, h, i, e, c); }
      buckets := buckets[h := es];
    }

    method InsertNew<K(!new,==)>(ops: KeyOps<K>, key: int, value: int, mem: Memory) returns (err: int)
      requires Valid(ops)
      modifies this
      ensures Valid(ops)
      ensures err == if old(RunsOut(cap, sz, capBits, mem)) then ENOMEM else 0
      ensures sz == (if err == 0 then old(sz) + 1 else old(sz)) && cap == if old(Grows(cap, sz, capBits, mem)) then Grown(old(cap)) else old(cap)
      ensures err == ENOMEM ==> OnlyGrew(old(buckets), buckets, ops, old(Grows(cap, sz, capBits, mem)))
      ensures err == 0 ==> Contents() == old(Contents()) + multiset{Entry(key, value)}
      ensures err == 0 ==> forall c ::
                KeyChain(buckets, ops, c) ==
                (if c == ops.content(key) then [Entry(key, value)] else []) +
                (if old(NeedsToGrow(cap, sz)) then Reverse(KeyChain(old(buckets), ops, c))
                 else KeyChain(old(buckets), ops, c))
    {
      if NeedsToGrow(cap, sz) {
        err := Grow(ops, mem.buckets);
        if err != 0 {
          assert OnlyGrew(old(buckets), buckets, ops, false);
          return;
        }
        GrownPlaced(buckets, old(buckets), ops, capBits);
        forall c ensures KeyChain(buckets, ops, c) == Reverse(KeyChain(old(buckets), ops, c)) {
          GrowthReversesChains(buckets, old(buckets), ops, capBits, c);
        }
      }
      assert OnlyGrew(old(buckets), buckets, ops, old(NeedsToGrow(cap, sz)));
      if !mem.entry { return ENOMEM; }
      PushHead(ops, key, value);
      return 0;
    }

    method PushHead<K(!new,==)>(ops: KeyOps<K>, key: int, value: int)
      requires Valid(ops) && !NeedsToGrow(cap, sz)
      modifies this`buckets, this`sz
      ensures Valid(ops) && sz == old(sz) + 1
      ensures Contents() == old(Contents()) + multiset{Entry(key, value)}
      ensures forall c ::
                KeyChain(buckets, ops, c) ==
                (if c == ops.content(key) then [Entry(key, value)] else []) + KeyChain(old(buckets), ops, c)
    {
      HashBitsBound(ops.hash(ops.content(key)), capBits);
      var h := KeyBucket(ops, capBits, key);
      var e := Entry(key, value);
      PushFlat(buckets, h, e);
      forall c { PushEffect(buckets, ops, capBits, e, c); }
      buckets := buckets[h := [e] + buckets[h]];
      sz := sz + 1;
    }

    method Delete<K(!new,==)>(ops: KeyOps<K>, key: int) returns (found: bool, oldKey: int, oldValue: int)
      requires Valid(ops)
      modifies this`buckets, this`sz
      ensures Valid(ops)
      ensures found <==> KeyChain(old(buckets), ops, ops.content(key)) != []
      ensures found ==> Entry(oldKey, oldValue) == KeyChain(old(buckets), ops, ops.content(key))[0]
      ensures sz == old(sz) - (if found then 1 else 0)
      ensures forall c :: KeyChain(buckets, ops, c) ==
                if found && c == ops.content(key) then KeyChain(old(buckets), ops, c)[1..]
                else KeyChain(old(buckets), ops, c)
    {
      oldKey, oldValue := 0, 0;
      var h, i;
      found, h, i := Locate(ops, key);
      if !found { return; }
      oldKey, oldValue := buckets[h][i].key, buckets[h][i].value;
      Unlink(ops, key, h, i);
    }

    method Unlink<K(!new,==)>(ops: KeyOps<K>, key: int, h: nat, i: nat)
      requires Valid(ops) && cap > 0 && h == KeyBucket(ops, capBits, key) && h < |buckets|
      requires i < |buckets[h]| && ops.content(buckets[h][i].key) == ops.content(key)
      requires forall j :: 0 <= j < i ==> ops.content(buckets[h][j].key) != ops.content(key)
      modifies this`buckets, this`sz
      ensures Valid(ops) && sz == old(sz) - 1
      ensures KeyChain(old(buckets), ops, ops.content(key)) != []
      ensures forall c :: KeyChain(buckets, ops, c) ==
                if c == ops.content(key) then KeyChain(old(buckets), ops, c)[1..]
                else KeyChain(old(buckets), ops, c)
    {
      var es := buckets[h][..i] + buckets[h][i + 1..];
      FlatUpdate(buckets, h, es);
      forall c { UnlinkEffect(buckets, ops, capBits, h, i, ops.content(key), c); }
      buckets := buckets[h := es];
      sz := sz - 1;
    }
  }
}
