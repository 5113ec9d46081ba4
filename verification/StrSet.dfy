/** The string set of strset.c: strings in one growing buffer, indexed by a hash map whose keys are
    offsets into that buffer. */
module StrSets {
  import opened Numbers
  import opened Bytes
  import opened HashMaps
  import opened HashMapRuns

  // ----- Strings in a buffer ----------------------------------------------------------------------

  /** The string at an offset, up to its terminator. */
  function CStr(data: seq<byte>, off: int): seq<byte>
    decreases |data| - off
  {
    if 0 <= off < |data| && data[off] != 0 then [data[off]] + CStr(data, off + 1) else []
  }

  /** The C `char` is signed. */
  function SignedChar(b: byte): int { if b < 128 then b else b - 256 }

  function HashFrom(h: nat, s: seq<byte>): nat
    decreases |s|
  {
    if s == [] then h else HashFrom((h * 31 + SignedChar(s[0])) % TWO64, s[1..])
  }

  function StrHash(s: seq<byte>): nat { HashFrom(0, s) }

  /** The callbacks of the index over the current buffer. */
  function Ops(data: seq<byte>): KeyOps<seq<byte>> {
    KeyOps(k => CStr(data, k), s => StrHash(s))
  }

  /** The first len bytes are whole strings. */
  ghost predicate Terminated(data: seq<byte>, len: nat) {
    len <= |data| && (len == 0 || data[len - 1] == 0)
  }

  ghost predicate IsStart(data: seq<byte>, len: nat, off: int) {
    0 <= off < len <= |data| && (off == 0 || data[off - 1] == 0)
  }

  /** Strings that end before len do not depend on what follows. */
  lemma {:induction false} CStrKept(data: seq<byte>, data': seq<byte>, len: nat, off: nat)
    requires Terminated(data, len) && len <= |data'| && data[..len] == data'[..len] && off < len
    ensures CStr(data', off) == CStr(data, off)
    decreases len - off
  {
    assert data[off] == data[..len][off] == data'[..len][off] == data'[off];
    if data[off] != 0 { CStrKept(data, data', len, off + 1); }
  }

  lemma {:induction false} CStrWritten(data: seq<byte>, off: nat, s: seq<byte>)
    requires 0 !in s && off + |s| < |data| && data[off..off + |s|] == s && data[off + |s|] == 0
    ensures CStr(data, off) == s
    decreases |s|
  {
    if s != [] {
      assert data[off] == data[off..off + |s|][0];
      assert data[off + 1..off + 1 + |s[1..]|] == data[off..off + |s|][1..];
      CStrWritten(data, off + 1, s[1..]);
    }
  }

  lemma {:induction false} CStrLength(data: seq<byte>, off: nat)
    requires off <= |data|
    ensures off + |CStr(data, off)| <= |data|
    ensures off + |CStr(data, off)| < |data| ==> data[off + |CStr(data, off)|] == 0
    ensures forall i :: off <= i < off + |CStr(data, off)| ==> data[i] != 0
    decreases |data| - off
  {
    if off < |data| && data[off] != 0 { CStrLength(data, off + 1); }
  }

  // ----- The index --------------------------------------------------------------------------------

  /** Every index entry names a string of the live part by its own offset. */
  ghost predicate EntriesLive(bs: seq<seq<Entry>>, data: seq<byte>, len: nat) {
    forall e :: e in Flat(bs) ==> IsStart(data, len, e.key) && e.value == e.key
  }

  /** Every string of the live part is in the index. */
  ghost predicate Covered(bs: seq<seq<Entry>>, data: seq<byte>, len: nat) {
    forall off :: IsStart(data, len, off) ==> KeyChain(bs, Ops(data), CStr(data, off)) != []
  }

  ghost predicate IndexOk(bs: seq<seq<Entry>>, data: seq<byte>, len: nat) {
    Terminated(data, len) && EntriesLive(bs, data, len) && UniqueKeys(bs, Ops(data)) && Covered(bs, data, len)
  }

  lemma {:induction false} SameMatching(es: seq<Entry>, data: seq<byte>, data': seq<byte>, c: seq<byte>)
    requires forall e :: e in es ==> CStr(data', e.key) == CStr(data, e.key)
    ensures Matching(es, Ops(data'), c) == Matching(es, Ops(data), c)
    decreases |es|
  {
    if es != [] {
      assert es[0] in es && forall e :: e in es[1..] ==> e in es;
      SameMatching(es[1..], data, data', c);
    }
  }

  lemma ChainsKept(bs: seq<seq<Entry>>, data: seq<byte>, data': seq<byte>, len: nat)
    requires Terminated(data, len) && EntriesLive(bs, data, len) && len <= |data'| && data[..len] == data'[..len]
    ensures forall e :: e in Flat(bs) ==> CStr(data', e.key) == CStr(data, e.key)
    ensures forall c :: KeyChain(bs, Ops(data'), c) == KeyChain(bs, Ops(data), c)
  {
    forall e | e in Flat(bs) ensures CStr(data', e.key) == CStr(data, e.key) { CStrKept(data, data', len, e.key); }
    forall c { SameMatching(Flat(bs), data, data', c); }
  }

  lemma StartsKept(data: seq<byte>, data': seq<byte>, len: nat, off: int)
    requires len <= |data| && len <= |data'| && data[..len] == data'[..len]
    ensures IsStart(data, len, off) <==> IsStart(data', len, off)
  {
    if 0 < off <= len { assert data[off - 1] == data[..len][off - 1] == data'[..len][off - 1]; }
  }

  /** The index stays valid when the buffer changes beyond the live part. */
  lemma IndexKept(bs: seq<seq<Entry>>, cap: nat, bits: nat, sz: nat, data: seq<byte>, data': seq<byte>, len: nat)
    requires ValidTable(Ops(data), bs, cap, bits, sz) && IndexOk(bs, data, len)
    requires len <= |data'| && data[..len] == data'[..len]
    ensures ValidTable(Ops(data'), bs, cap, bits, sz) && IndexOk(bs, data', len)
    ensures MapOf(bs, Ops(data')) == MapOf(bs, Ops(data))
  {
    ChainsKept(bs, data, data', len);
    forall b, i | 0 <= b < |bs| && 0 <= i < |bs[b]|
      ensures KeyBucket(Ops(data'), bits, bs[b][i].key) == KeyBucket(Ops(data), bits, bs[b][i].key)
    {
      InFlat(bs, b, i);
    }
    hide KeyChain;
    if len > 0 { assert data[len - 1] == data[..len][len - 1] == data'[..len][len - 1]; }
    forall e | e in Flat(bs) ensures IsStart(data', len, e.key) { StartsKept(data, data', len, e.key); }
    forall c ensures |KeyChain(bs, Ops(data'), c)| <= 1 { }
    forall off | IsStart(data', len, off) ensures KeyChain(bs, Ops(data'), CStr(data', off)) != [] {
      StartsKept(data, data', len, off);
      CStrKept(data, data', len, off);
    }
  }

  lemma InFlat(bs: seq<seq<Entry>>, b: nat, i: nat)
    requires b < |bs| && i < |bs[b]|
    ensures bs[b][i] in Flat(bs)
  {
    FlatSplit(bs, b);
    assert bs[b][i] in bs[b];
  }

  /** Entries of a table are those of its chains. */
  lemma ChainMember(bs: seq<seq<Entry>>, ops: KeyOps<seq<byte>>, e: Entry)
    ensures e in Flat(bs) <==> e in KeyChain(bs, ops, ops.content(e.key))
  {
    MatchingMembers(Flat(bs), ops, ops.content(e.key));
  }

  /** No string starts inside the one just written. */
  lemma StartsBefore(data: seq<byte>, len: nat, s: seq<byte>, off: int)
    requires 0 !in s && len + |s| < |data| && data[len..len + |s|] == s && IsStart(data, len + |s| + 1, off)
    ensures off <= len
  {
  }

  lemma FiledLive(bs: seq<seq<Entry>>, bs': seq<seq<Entry>>, data: seq<byte>, len: nat, more: nat, grew: bool)
    requires EntriesLive(bs, data, len) && UniqueKeys(bs, Ops(data)) && len < more <= |data| && (len == 0 || data[len - 1] == 0)
    requires KeyChain(bs, Ops(data), CStr(data, len)) == [] && Inserted(bs, bs', Ops(data), Entry(len, len), Add, grew)
    ensures EntriesLive(bs', data, more)
  {
    hide KeyChain;
    var ops := Ops(data);
    forall e | e in Flat(bs') ensures IsStart(data, more, e.key) && e.value == e.key {
      ChainMember(bs', ops, e);
      ChainMember(bs, ops, e);
      ReverseShort(KeyChain(bs, ops, ops.content(e.key)));
      assert e == Entry(len, len) || e in KeyChain(bs, ops, ops.content(e.key));
    }
  }

  lemma FiledCovered(bs: seq<seq<Entry>>, bs': seq<seq<Entry>>, data: seq<byte>, len: nat, s: seq<byte>, grew: bool)
    requires Covered(bs, data, len) && UniqueKeys(bs, Ops(data)) && 0 !in s && len + |s| < |data| && data[len..len + |s|] == s
    requires KeyChain(bs, Ops(data), s) == [] && CStr(data, len) == s && Inserted(bs, bs', Ops(data), Entry(len, len), Add, grew)
    ensures Covered(bs', data, len + |s| + 1)
  {
    hide KeyChain;
    var ops := Ops(data);
    forall off | IsStart(data, len + |s| + 1, off) ensures KeyChain(bs', ops, CStr(data, off)) != [] {
      StartsBefore(data, len, s, off);
      ReverseShort(KeyChain(bs, ops, CStr(data, off)));
      if off < len { assert IsStart(data, len, off); }
    }
  }

  /** Filing a new string at the end of the live part. */
  lemma FiledString(bs: seq<seq<Entry>>, bs': seq<seq<Entry>>, data: seq<byte>, len: nat, s: seq<byte>, grew: bool)
    requires IndexOk(bs, data, len) && 0 !in s && len + |s| < |data| && data[len..len + |s|] == s && data[len + |s|] == 0
    requires KeyChain(bs, Ops(data), s) == [] && CStr(data, len) == s
    requires Inserted(bs, bs', Ops(data), Entry(len, len), Add, grew)
    ensures IndexOk(bs', data, len + |s| + 1)
    ensures MapOf(bs', Ops(data)) == MapOf(bs, Ops(data))[s := Entry(len, len)]
  {
    FiledMap(bs, bs', data, len, s, grew);
    hide KeyChain, MapOf, Inserted;
    FiledLive(bs, bs', data, len, len + |s| + 1, grew);
    FiledCovered(bs, bs', data, len, s, grew);
  }

  lemma FiledMap(bs: seq<seq<Entry>>, bs': seq<seq<Entry>>, data: seq<byte>, len: nat, s: seq<byte>, grew: bool)
    requires UniqueKeys(bs, Ops(data)) && KeyChain(bs, Ops(data), s) == [] && CStr(data, len) == s
    requires Inserted(bs, bs', Ops(data), Entry(len, len), Add, grew)
    ensures UniqueKeys(bs', Ops(data)) && MapOf(bs', Ops(data)) == MapOf(bs, Ops(data))[s := Entry(len, len)]
  {
    InsertRefinesMap(bs, bs', Ops(data), Entry(len, len), Add, grew);
    hide KeyChain;
  }

  // ----- The set ----------------------------------------------------------------------------------

  /** A quarter more than before and at least 16, within the limit, and enough. */
  function NewSize(size: nat, needed: nat, max: nat): (r: nat)
    requires size < needed <= max
    ensures needed <= r <= max && r > size && (r < size + size / 4 ==> r == max)
  {
    var more := if size + size / 4 < 16 then 16 else size + size / 4;
    var most := if more > max then max else more;
    if most < needed then needed else most
  }

  class StrSet {
    var data: seq<byte>
    var len: nat
    const maxLen: nat
    const index: HashMap

    ghost predicate Valid()
      reads this, index
    {
      index.Valid(Ops(data)) && IndexOk(index.buckets, data, len)
    }

    /** The set: each string with the offset it is known by. */
    ghost function Offsets(): imap<seq<byte>, Entry>
      reads this, index
    {
      MapOf(index.buckets, Ops(data))
    }

    /** A set over given string data, not indexed yet. */
    constructor (max: nat, init: seq<byte>)
      ensures data == init && len == |init| && maxLen == max && fresh(index)
      ensures index.Valid(Ops(data)) && index.buckets == []
    {
      data, len, maxLen := init, |init|, max;
      index := new HashMap();
    }

    /** Indexes the initial strings; of equal strings the first one counts. */
    method IndexAll() returns (err: int)
      requires Terminated(data, len) && len == |data| && index.Valid(Ops(data)) && index.buckets == []
      modifies index
      ensures err == 0 ==> Valid() && KnownByFirst(Offsets(), data, len)
      ensures err == 0 || err == ENOMEM
    {
      hide KeyChain, HashMap.Valid, IndexOk, MapOf, KnownByFirst;
      EmptyIndex(data);
      NoneYet(index.buckets, data);
      var off := 0;
      while off < len
        invariant 0 <= off <= len && index.Valid(Ops(data)) && IndexOk(index.buckets, data, off)
        invariant KnownByFirst(MapOf(index.buckets, Ops(data)), data, off)
      {
        var s := CStr(data, off);
        CStrWhole(data, off, len);
        ghost var bs, grew := index.buckets, NeedsToGrow(index.cap, index.sz);
        var mem: Memory := *;
        var e, k, v := index.Insert(Ops(data), off, off, Add, mem);
        assert e != ENOMEM ==> Inserted(bs, index.buckets, Ops(data), Entry(off, off), Add, grew);
        if e == EEXIST {
          HeadInMap(bs, data, off, s);
          FirstStays(MapOf(bs, Ops(data)), data, off, s);
          SameTable(bs, index.buckets, data, off, s, grew);
          DuplicateSkipped(index.buckets, data, off, s);
        } else if e != 0 {
          return e;
        } else {
          NotInMap(bs, data, s);
          FirstIsNew(MapOf(bs, Ops(data)), data, off, s);
          FiledString(bs, index.buckets, data, off, s, grew);
        }
        off := off + |s| + 1;
      }
      return 0;
    }

    /** Makes room for more bytes after the live ones. */
    method AddMem(more: nat) returns (ok: bool)
      requires len <= |data|
      modifies this`data
      ensures old(data) <= data && (ok ==> len + more <= |data|) && (!ok ==> data == old(data))
      ensures old(|data|) >= len + more ==> ok && data == old(data)
      ensures old(|data|) < len + more && ok ==> len + more <= maxLen && |data| == NewSize(old(|data|), len + more, maxLen)
      ensures forall i :: old(|data|) <= i < |data| ==> data[i] == 0
    {
      if len + more <= |data| { return true; }
      if len + more > maxLen { return false; }
      var cap := NewSize(|data|, len + more, maxLen);
      var outOfMemory: bool := *;
      if outOfMemory { return false; }
      data := data + seq(cap - |data|, _ => 0);
      return true;
    }

    /** Writes s after the live strings, where the index can see it. */
    method Stage(s: seq<byte>) returns (ok: bool)
      requires Valid() && 0 !in s
      modifies this`data
      ensures Valid() && Offsets() == old(Offsets()) && len <= old(|data|) && len <= |data| && data[..len] == old(data[..len])
      ensures ok ==> len + |s| < |data| && data[len..len + |s|] == s && data[len + |s|] == 0 && CStr(data, len) == s
    {
      ghost var before := data;
      ok := AddMem(|s| + 1);
      if ok {
        data := data[..len] + s + [0] + data[len + |s| + 1..];
        assert data[len..len + |s|] == s;
        CStrWritten(data, len, s);
      }
      assert data[..len] == before[..len];
      IndexKept(index.buckets, index.cap, index.capBits, index.sz, before, data, len);
    }

    /** The offset of s, if it is in the set.  The set and the live strings do not change. */
    method FindStr(s: seq<byte>) returns (r: int)
      requires Valid() && 0 !in s
      modifies this`data
      ensures Valid() && Offsets() == old(Offsets()) && len <= old(|data|) && len <= |data| && data[..len] == old(data[..len])
      ensures r >= 0 ==> s in Offsets() && r == Offsets()[s].key && r < len && CStr(data, r) == s
      ensures r < 0 ==> r == ENOMEM || (r == ENOENT && s !in Offsets())
    {
      var ok := Stage(s);
      if !ok { return ENOMEM; }
      var found, off := index.Find(Ops(data), len);
      if found {
        HeadIsLive(index.buckets, data, len, s);
        return off;
      }
      return ENOENT;
    }

    /** Adds s unless it is there, and returns its offset.  Strings added before keep their offsets. */
    method AddStr(s: seq<byte>) returns (r: int)
      requires Valid() && 0 !in s
      modifies this`data, this`len, index
      ensures Valid() && old(len) <= len && old(len) <= old(|data|) && len <= |data| && data[..old(len)] == old(data[..len])
      ensures r >= 0 ==> r < len && CStr(data, r) == s && s in Offsets() && Offsets()[s].key == r
      ensures r >= 0 && s in old(Offsets()) ==> Offsets() == old(Offsets()) && len == old(len)
      ensures r >= 0 && s !in old(Offsets()) ==>
                r == old(len) && len == old(len) + |s| + 1 && Offsets() == old(Offsets())[s := Entry(r, r)]
      ensures r < 0 ==> r == ENOMEM && Offsets() == old(Offsets()) && len == old(len)
    {
      hide KeyChain, HashMap.Valid, CStr;
      LiveFits(index.buckets, data, len);
      hide IndexOk;
      var ok := Stage(s);
      if !ok { return ENOMEM; }
      LiveFits(index.buckets, data, len);
      var newOff := len;
      ghost var bs, grew := index.buckets, NeedsToGrow(index.cap, index.sz);
      var mem: Memory := *;
      ghost var grown := Grows(index.cap, index.sz, index.capBits, mem);
      var err, oldOff, oldValue := index.Insert(Ops(data), newOff, newOff, Add, mem);
      assert err != ENOMEM ==> Inserted(bs, index.buckets, Ops(data), Entry(newOff, newOff), Add, grew);
      if err == EEXIST {
        HeadIsLive(bs, data, len, s);
        SameTable(bs, index.buckets, data, len, s, grew);
        return oldOff;
      }
      if err != 0 {
        GrownTable(bs, index.buckets, data, len, grown);
        LiveFits(index.buckets, data, len);
        return err;
      }
      FiledString(bs, index.buckets, data, len, s, grew);
      len := len + |s| + 1;
      LiveFits(index.buckets, data, len);
      return newOff;
    }
  }

  /** Every string is known by the offset where it occurs first. */
  ghost predicate KnownByFirst(m: imap<seq<byte>, Entry>, data: seq<byte>, len: nat) {
    forall off :: IsStart(data, len, off) ==> CStr(data, off) in m && m[CStr(data, off)].key <= off
  }

  lemma NoneYet(bs: seq<seq<Entry>>, data: seq<byte>)
    ensures KnownByFirst(MapOf(bs, Ops(data)), data, 0)
  {
  }

  lemma HeadInMap(bs: seq<seq<Entry>>, data: seq<byte>, len: nat, s: seq<byte>)
    requires IndexOk(bs, data, len) && KeyChain(bs, Ops(data), s) != []
    ensures s in MapOf(bs, Ops(data)) && MapOf(bs, Ops(data))[s].key <= len
  {
    HeadIsLive(bs, data, len, s);
  }

  lemma NotInMap(bs: seq<seq<Entry>>, data: seq<byte>, s: seq<byte>)
    requires KeyChain(bs, Ops(data), s) == []
    ensures s !in MapOf(bs, Ops(data))
  {
  }

  lemma FirstStays(m: imap<seq<byte>, Entry>, data: seq<byte>, len: nat, s: seq<byte>)
    requires KnownByFirst(m, data, len) && s in m && m[s].key <= len && CStr(data, len) == s
    requires 0 !in s && len + |s| < |data| && data[len..len + |s|] == s
    ensures KnownByFirst(m, data, len + |s| + 1)
  {
    forall off | IsStart(data, len + |s| + 1, off) ensures CStr(data, off) in m && m[CStr(data, off)].key <= off {
      StartsBefore(data, len, s, off);
      if off < len { assert IsStart(data, len, off); }
    }
  }

  lemma FirstIsNew(m: imap<seq<byte>, Entry>, data: seq<byte>, len: nat, s: seq<byte>)
    requires KnownByFirst(m, data, len) && s !in m && CStr(data, len) == s
    requires 0 !in s && len + |s| < |data| && data[len..len + |s|] == s
    ensures KnownByFirst(m[s := Entry(len, len)], data, len + |s| + 1)
  {
    var m' := m[s := Entry(len, len)];
    forall off | IsStart(data, len + |s| + 1, off) ensures CStr(data, off) in m' && m'[CStr(data, off)].key <= off {
      StartsBefore(data, len, s, off);
      if off < len { assert IsStart(data, len, off); }
    }
  }

  lemma LiveFits(bs: seq<seq<Entry>>, data: seq<byte>, len: nat)
    requires IndexOk(bs, data, len)
    ensures len <= |data|
  {
  }

  lemma EmptyIndex(data: seq<byte>)
    ensures IndexOk([], data, 0)
  {
    assert forall c :: KeyChain([], Ops(data), c) == [];
  }

  /** A string of terminated data is all there, with its terminator. */
  lemma CStrWhole(data: seq<byte>, off: nat, len: nat)
    requires Terminated(data, len) && len == |data| && off < len
    ensures var s := CStr(data, off); 0 !in s && off + |s| < |data| && data[off..off + |s|] == s && data[off + |s|] == 0
  {
    CStrLength(data, off);
    CStrSlice(data, off);
  }

  lemma {:induction false} CStrSlice(data: seq<byte>, off: nat)
    requires off <= |data|
    ensures var s := CStr(data, off); 0 !in s && off + |s| <= |data| && data[off..off + |s|] == s
    decreases |data| - off
  {
    if off < |data| && data[off] != 0 {
      CStrSlice(data, off + 1);
      var t := CStr(data, off + 1);
      assert data[off..off + 1 + |t|] == [data[off]] + data[off + 1..off + 1 + |t|];
    }
  }

  lemma DuplicateSkipped(bs: seq<seq<Entry>>, data: seq<byte>, len: nat, s: seq<byte>)
    requires IndexOk(bs, data, len) && KeyChain(bs, Ops(data), s) != [] && CStr(data, len) == s
    requires 0 !in s && len + |s| < |data| && data[len..len + |s|] == s && data[len + |s|] == 0
    ensures IndexOk(bs, data, len + |s| + 1)
  {
    hide KeyChain;
    forall e | e in Flat(bs) ensures IsStart(data, len + |s| + 1, e.key) { assert IsStart(data, len, e.key); }
    forall off | IsStart(data, len + |s| + 1, off) ensures KeyChain(bs, Ops(data), CStr(data, off)) != [] {
      StartsBefore(data, len, s, off);
      if off < len { assert IsStart(data, len, off); }
    }
  }

  lemma HeadIsLive(bs: seq<seq<Entry>>, data: seq<byte>, len: nat, s: seq<byte>)
    requires IndexOk(bs, data, len) && KeyChain(bs, Ops(data), s) != []
    ensures var e := KeyChain(bs, Ops(data), s)[0]; IsStart(data, len, e.key) && e.value == e.key && CStr(data, e.key) == s
  {
    var e := KeyChain(bs, Ops(data), s)[0];
    MatchingMembers(Flat(bs), Ops(data), s);
    assert e in Flat(bs);
  }

  /** Adding a string that is there changes nothing. */
  lemma SameTable(bs: seq<seq<Entry>>, bs': seq<seq<Entry>>, data: seq<byte>, len: nat, s: seq<byte>, grew: bool)
    requires IndexOk(bs, data, len) && KeyChain(bs, Ops(data), s) != [] && len < |data| && CStr(data, len) == s
    requires Inserted(bs, bs', Ops(data), Entry(len, len), Add, grew)
    ensures IndexOk(bs', data, len) && MapOf(bs', Ops(data)) == MapOf(bs, Ops(data))
  {
    hide KeyChain;
    SameChains(bs, bs', data, len);
  }

  /** An insertion that runs out of memory may have grown the table, which changes no chain. */
  lemma GrownTable(bs: seq<seq<Entry>>, bs': seq<seq<Entry>>, data: seq<byte>, len: nat, grew: bool)
    requires IndexOk(bs, data, len) && OnlyGrew(bs, bs', Ops(data), grew)
    ensures IndexOk(bs', data, len) && MapOf(bs', Ops(data)) == MapOf(bs, Ops(data))
  {
    hide KeyChain;
    forall c ensures KeyChain(bs', Ops(data), c) == KeyChain(bs, Ops(data), c) { ReverseShort(KeyChain(bs, Ops(data), c)); }
    SameChains(bs, bs', data, len);
  }

  lemma SameChains(bs: seq<seq<Entry>>, bs': seq<seq<Entry>>, data: seq<byte>, len: nat)
    requires IndexOk(bs, data, len) && forall c :: KeyChain(bs', Ops(data), c) == KeyChain(bs, Ops(data), c)
    ensures IndexOk(bs', data, len) && MapOf(bs', Ops(data)) == MapOf(bs, Ops(data))
  {
    var ops := Ops(data);
    hide KeyChain;
    forall e | e in Flat(bs') ensures IsStart(data, len, e.key) && e.value == e.key {
      ChainMember(bs', ops, e);
      ChainMember(bs, ops, e);
    }
    var m, m' := MapOf(bs', ops), MapOf(bs, ops);
    forall c ensures c in m <==> c in m' { }
  }
}
